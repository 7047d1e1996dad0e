/**
  The messages the runner hands to a helper process, encoded as one command-line argument.
 */
module Wire {
  import opened Bytes
  import opened Commas
  import opened Decimal

  datatype WireMessage = WireMessage(payload: Bytes, stream: nat, ppid: nat)

  function Spec(m: WireMessage): Bytes {
    m.payload + [':'] + (Dec(m.stream) + [':'] + Dec(m.ppid))
  }

  function Specs(ms: seq<WireMessage>): (r: seq<Bytes>)
    ensures |r| == |ms| && forall i :: 0 <= i < |r| ==> r[i] == Spec(ms[i])
  {
    seq(|ms|, i requires 0 <= i < |ms| => Spec(ms[i]))
  }

  function EncodeMessages(ms: seq<WireMessage>): Bytes {
    Join(Specs(ms))
  }

  /** Payloads that do not collide with the separators. */
  predicate Separable(ms: seq<WireMessage>) {
    forall i :: 0 <= i < |ms| ==> ',' !in ms[i].payload && ':' !in ms[i].payload
  }

  lemma DecPlain(n: nat)
    ensures forall c :: c in Dec(n) ==> IsDigit(c)
  {
    DecValue(n);
  }

  lemma SpecPlain(m: WireMessage)
    requires ',' !in m.payload
    ensures Spec(m) != [] && ',' !in Spec(m)
  {
    DecPlain(m.stream);
    DecPlain(m.ppid);
  }

  /** The encodings of the messages are the tokens of the argument. */
  lemma SpecsRecovered(ms: seq<WireMessage>)
    requires Separable(ms)
    ensures NonEmpty(Split(EncodeMessages(ms), ',')) == Specs(ms)
    ensures ms != [] ==> Split(EncodeMessages(ms), ',') == Specs(ms)
  {
    forall i | 0 <= i < |ms| ensures Specs(ms)[i] != [] && ',' !in Specs(ms)[i] {
      SpecPlain(ms[i]);
    }
    TokensOfJoin(Specs(ms));
    if ms != [] {
      SplitJoin(Specs(ms));
    }
  }

  // ------------------------------------------------- results collected one by one, or an error

  function Prepend(m: Option<WireMessage>, later: Option<seq<WireMessage>>): Option<seq<WireMessage>> {
    if m.None? || later.None? then None else Some([m.value] + later.value)
  }

  lemma PrependOne(m: Option<WireMessage>)
    ensures Prepend(m, Some([])) == if m.None? then None else Some([m.value])
  {
    assert m.Some? ==> [m.value] + [] == [m.value];
  }

  /** Results collected so far, put before those to come. */
  function Before(ms: seq<WireMessage>, later: Option<seq<WireMessage>>): Option<seq<WireMessage>> {
    if later.None? then None else Some(ms + later.value)
  }

  lemma BeforeStep(ms: seq<WireMessage>, m: WireMessage, later: Option<seq<WireMessage>>)
    ensures Before(ms, Prepend(Some(m), later)) == Before(ms + [m], later)
    ensures Before([], later) == later && Before(ms, Some([])) == Some(ms)
  {
    if later.Some? {
      assert ms + ([m] + later.value) == ms + [m] + later.value && [] + later.value == later.value;
    }
    assert ms + [] == ms;
  }
}
