/**
  The Go helper's message parser.
 */
module HelperGo {
  import opened Bytes
  import opened Commas
  import opened Decimal
  import opened Spaces
  import opened Wire

  // ------------------------------------------------------------------- white space

  function TrimLeft(s: Bytes): Bytes {
    var n := LeadSpace(s);
    if n == 0 then s else TrimLeft(s[n..])
  }

  function TrimRight(s: Bytes): Bytes {
    var n := TailSpace(s);
    if n == 0 then s else TrimRight(s[..|s| - n])
  }

  /** strings.TrimSpace. */
  function TrimSpace(s: Bytes): Bytes {
    TrimRight(TrimLeft(s))
  }

  /** What strings.TrimSpace removes from either end. */
  lemma TrimSpelled(s: Bytes, cp: Utf8.ScalarValue)
    ensures TrimLeft(Utf8.Enc(cp) + s) == if cp in WHITE then TrimLeft(s) else Utf8.Enc(cp) + s
    ensures TrimRight(s + Utf8.Enc(cp)) == if cp in WHITE then TrimRight(s) else s + Utf8.Enc(cp)
  {
    LeadSpelled(cp, s);
    TailSpelled(s, cp);
    EncShape(cp);
    var e := Utf8.Enc(cp);
    assert (e + s)[|e|..] == s && (s + e)[..|s|] == s;
  }

  // ------------------------------------------------------------------- parsing

  function Trimmed(parts: seq<Bytes>): (r: seq<Bytes>)
    ensures |r| == |parts|
  {
    if parts == [] then [] else [TrimSpace(parts[0])] + Trimmed(parts[1..])
  }

  function Items(raw: Bytes): seq<Bytes> {
    if raw == [] then [] else NonEmpty(Trimmed(Commas.Split(raw, ',')))
  }

  lemma NonEmptyOne(item: Bytes)
    ensures NonEmpty([item]) == if item == [] then [] else [item]
  {
    assert [item][1..] == [];
  }

  /** One turn of the loop. */
  lemma NextItem(out: seq<Bytes>, item: Bytes, later: seq<Bytes>)
    ensures out + NonEmpty([item] + later) == (if item == [] then out else out + [item]) + NonEmpty(later)
  {
    NonEmptyAppend([item], later);
    NonEmptyOne(item);
    Chained(out, NonEmpty([item]), NonEmpty(later));
    assert out + [] == out;
  }

  method SplitCsv(raw: Bytes) returns (out: seq<Bytes>)
    ensures out == Items(raw)
  {
    if raw == [] {
      return [];
    }
    var parts := Commas.Split(raw, ',');
    out := [];
    assert parts[0..] == parts && out + NonEmpty(Trimmed(parts)) == NonEmpty(Trimmed(parts));
    for i := 0 to |parts|
      invariant Items(raw) == out + NonEmpty(Trimmed(parts[i..]))
    {
      var part := TrimSpace(parts[i]);
      assert parts[i..][1..] == parts[i + 1..];
      NextItem(out, part, Trimmed(parts[i + 1..]));
      if part != [] {
        out := out + [part];
      }
    }
    assert out + [] == out;
  }

  /** One item; the conversions to 16 and 32 bits wrap. */
  function GoParse(item: Bytes): Option<WireMessage> {
    var parts := Commas.Split(item, ':');
    if |parts| != 3 then None
    else
      match (Atoi(parts[1]), Atoi(parts[2]))
      case (Some(stream), Some(ppid)) => Some(WireMessage(parts[0], stream % 0x1_0000, ppid % 0x1_0000_0000))
      case _ => None
  }

  function GoAll(items: seq<Bytes>): Option<seq<WireMessage>> {
    if items == [] then Some([]) else Prepend(GoParse(items[0]), GoAll(items[1..]))
  }

  /** What the Go helper makes of a message argument; an error is None. */
  function GoMessages(raw: Bytes): Option<seq<WireMessage>> {
    GoAll(Items(raw))
  }

  lemma OneItem(item: Bytes)
    requires item != [] && Commas.Split(item, ',') == [item] && TrimSpace(item) == item
    ensures GoMessages(item) == if GoParse(item).None? then None else Some([GoParse(item).value])
  {
    assert [item][1..] == [];
    assert Trimmed([item]) == [item];
    NonEmptyAll([item]);
    PrependOne(GoParse(item));
    assert GoAll([item]) == Prepend(GoParse(item), GoAll([item][1..]));
  }

  method ParseItem(item: Bytes) returns (r: Option<WireMessage>)
    ensures r == GoParse(item)
  {
    var parts := Commas.Split(item, ':');
    if |parts| != 3 {
      return None;
    }
    var stream := Atoi(parts[1]);
    if stream == None {
      return None;
    }
    var ppid := Atoi(parts[2]);
    if ppid == None {
      return None;
    }
    return Some(WireMessage(parts[0], stream.value % 0x1_0000, ppid.value % 0x1_0000_0000));
  }

  method ParseMessages(raw: Bytes) returns (r: Option<seq<WireMessage>>)
    ensures r == GoMessages(raw)
  {
    if raw == [] {
      return Some([]);
    }
    var items := SplitCsv(raw);
    var out: seq<WireMessage> := [];
    var i := 0;
    assert items[0..] == items;
    BeforeStep([], WireMessage([], 0, 0), GoAll(items));
    while i < |items|
      invariant i <= |items| && GoAll(items) == Before(out, GoAll(items[i..]))
    {
      assert items[i..][1..] == items[i + 1..];
      var m := ParseItem(items[i]);
      if m == None {
        return None;
      }
      BeforeStep(out, m.value, GoAll(items[i + 1..]));
      out := out + [m.value];
      i := i + 1;
    }
    BeforeStep(out, WireMessage([], 0, 0), None);
    return Some(out);
  }

  // ------------------------------------------------------------------- the round trip

  lemma {:induction false} TrimLeftBefore(p: Bytes, t: Bytes)
    requires t != [] && t[0] as int < 0x80 && !UniSpace(t[0] as int)
    ensures TrimLeft(p + t) == TrimLeft(p) + t
    decreases |p|
  {
    if p == [] {
      assert p + t == t;
    } else {
      Utf8.DecodeOneBefore(p, t);
      var n := LeadSpace(p);
      assert LeadSpace(p + t) == n;
      if n > 0 {
        assert (p + t)[n..] == p[n..] + t;
        TrimLeftBefore(p[n..], t);
      }
    }
  }

  lemma {:induction false} TrimLeftSuffix(p: Bytes)
    ensures |TrimLeft(p)| <= |p| && TrimLeft(p) == p[|p| - |TrimLeft(p)|..]
    ensures TrimLeft(p) == p <==> LeadSpace(p) == 0
    ensures LeadSpace(TrimLeft(p)) == 0
    decreases |p|
  {
    if LeadSpace(p) > 0 {
      TrimLeftSuffix(p[LeadSpace(p)..]);
    }
  }

  lemma {:induction false} TrimRightDigit(s: Bytes)
    requires s != [] && IsDigit(s[|s| - 1])
    ensures TrimRight(s) == s
  {
    assert !SpaceOfLength(s, 1) && !SpaceOfLength(s, 2) && !SpaceOfLength(s, 3);
  }

  function WithoutLead(m: WireMessage): WireMessage {
    m.(payload := TrimLeft(m.payload))
  }

  function AllWithoutLead(ms: seq<WireMessage>): (r: seq<WireMessage>)
    ensures |r| == |ms| && forall i :: 0 <= i < |r| ==> r[i] == WithoutLead(ms[i])
  {
    if ms == [] then [] else [WithoutLead(ms[0])] + AllWithoutLead(ms[1..])
  }

  /** Trimming touches only the front of a text that ends in a digit and has no white space where its
      payload ends. */
  lemma {:induction false} TrimBefore(p: Bytes, tail: Bytes)
    requires tail != [] && tail[0] == ':' && IsDigit(tail[|tail| - 1])
    ensures TrimSpace(p + tail) == TrimLeft(p) + tail
  {
    TrimLeftBefore(p, tail);
    var trimmed := TrimLeft(p) + tail;
    assert trimmed[|trimmed| - 1] == tail[|tail| - 1];
    TrimRightDigit(trimmed);
  }

  function TailOf(m: WireMessage): Bytes {
    [':'] + (Dec(m.stream) + [':'] + Dec(m.ppid))
  }

  lemma {:induction false} TailEndsInDigit(m: WireMessage)
    ensures TailOf(m)[0] == ':' && IsDigit(TailOf(m)[|TailOf(m)| - 1])
    ensures Spec(m) == m.payload + TailOf(m)
  {
    DecValue(m.ppid);
    var d := Dec(m.ppid);
    assert TailOf(m)[|TailOf(m)| - 1] == d[|d| - 1];
  }

  lemma {:induction false} TrimSpecs(ms: seq<WireMessage>)
    ensures Trimmed(Specs(ms)) == Specs(AllWithoutLead(ms))
  {
    if ms != [] {
      var spec, trimmed := Spec(ms[0]), Spec(WithoutLead(ms[0]));
      assert TrimSpace(spec) == trimmed by {
        TailEndsInDigit(ms[0]);
        TailEndsInDigit(WithoutLead(ms[0]));
        TrimBefore(ms[0].payload, TailOf(ms[0]));
      }
      TrimSpecs(ms[1..]);
      assert Specs(ms)[1..] == Specs(ms[1..]);
      var rest := AllWithoutLead(ms)[1..];
      assert rest == AllWithoutLead(ms[1..]);
      assert Specs(AllWithoutLead(ms)) == [Spec(WithoutLead(ms[0]))] + Specs(rest);
    }
  }

  predicate InRange(m: WireMessage) {
    m.stream <= INT64_MAX && m.ppid <= INT64_MAX
  }

  function Wrapped(m: WireMessage): WireMessage {
    m.(stream := m.stream % 0x1_0000, ppid := m.ppid % 0x1_0000_0000)
  }

  /** What the parser makes of a list of messages after trimming: an error if a number is too large. */
  function GoReceived(ms: seq<WireMessage>): Option<seq<WireMessage>> {
    if ms == [] then Some([])
    else Prepend(if InRange(ms[0]) then Some(Wrapped(ms[0])) else None, GoReceived(ms[1..]))
  }

  lemma SplitSpec(payload: Bytes, stream: Bytes, ppid: Bytes)
    requires ':' !in payload && ':' !in stream && ':' !in ppid
    ensures Commas.Split(payload + [':'] + (stream + [':'] + ppid), ':') == [payload, stream, ppid]
  {
    var rest := stream + [':'] + ppid;
    SplitFirst(payload, rest, ':');
    SplitFirst(stream, ppid, ':');
    SplitOne(ppid, ':');
  }

  lemma GoParseSpec(m: WireMessage)
    requires ':' !in m.payload
    ensures GoParse(Spec(m)) == if InRange(m) then Some(Wrapped(m)) else None
  {
    DecPlain(m.stream);
    DecPlain(m.ppid);
    SplitSpec(m.payload, Dec(m.stream), Dec(m.ppid));
    AtoiDec(m.stream);
    AtoiDec(m.ppid);
  }

  lemma {:induction false} GoAllSpecs(ms: seq<WireMessage>)
    requires Separable(ms)
    ensures GoAll(Specs(ms)) == GoReceived(ms)
  {
    if ms != [] {
      GoParseSpec(ms[0]);
      GoAllSpecs(ms[1..]);
      assert Specs(ms)[1..] == Specs(ms[1..]);
    }
  }

  /** What the Go helper makes of an encoding. */
  lemma GoDecodes(ms: seq<WireMessage>)
    requires Separable(ms)
    ensures GoMessages(EncodeMessages(ms)) == GoReceived(AllWithoutLead(ms))
  {
    var trimmed := AllWithoutLead(ms);
    forall i | 0 <= i < |ms| ensures ',' !in trimmed[i].payload && ':' !in trimmed[i].payload {
      TrimLeftSuffix(ms[i].payload);
      assert trimmed[i].payload == TrimLeft(ms[i].payload);
    }
    GoAllSpecs(trimmed);
    if ms != [] {
      SpecsRecovered(ms);
      TrimSpecs(ms);
      SpecPlain(ms[0]);
      EncodingNotEmpty(ms);
      forall i | 0 <= i < |ms| ensures Specs(trimmed)[i] != [] {
        SpecPlain(trimmed[i]);
      }
      NonEmptyAll(Specs(trimmed));
    }
  }

  lemma EncodingNotEmpty(ms: seq<WireMessage>)
    requires ms != []
    ensures EncodeMessages(ms) != []
  {
    assert Specs(ms)[0] == Spec(ms[0]) && Spec(ms[0]) != [];
  }

  /** A message the Go helper recovers: no white space in front, numbers within their widths. */
  predicate GoFit(m: WireMessage) {
    LeadSpace(m.payload) == 0 && m.stream < 0x1_0000 && m.ppid < 0x1_0000_0000
  }

  predicate GoFits(ms: seq<WireMessage>) {
    forall i :: 0 <= i < |ms| ==> GoFit(ms[i])
  }

  lemma GoFitIs(m: WireMessage)
    ensures InRange(WithoutLead(m)) && Wrapped(WithoutLead(m)) == m <==> GoFit(m)
  {
    TrimLeftSuffix(m.payload);
  }

  lemma GoFitsCons(m: WireMessage, rest: seq<WireMessage>)
    ensures GoFits([m] + rest) <==> GoFit(m) && GoFits(rest)
  {
    var ms := [m] + rest;
    assert ms[0] == m && forall i :: 0 <= i < |rest| ==> rest[i] == ms[i + 1];
  }

  lemma PrependSame(m: Option<WireMessage>, later: Option<seq<WireMessage>>, m': WireMessage, rest: seq<WireMessage>)
    ensures Prepend(m, later) == Some([m'] + rest) <==> m == Some(m') && later == Some(rest)
  {
    if m.Some? && later.Some? {
      assert ([m.value] + later.value)[1..] == later.value && ([m'] + rest)[1..] == rest;
      assert ([m.value] + later.value)[0] == m.value && ([m'] + rest)[0] == m';
    }
  }

  lemma {:induction false} GoReceivedSame(ms: seq<WireMessage>)
    ensures GoReceived(AllWithoutLead(ms)) == Some(ms) <==> GoFits(ms)
  {
    if ms != [] {
      var m, rest := ms[0], ms[1..];
      var bare := WithoutLead(m);
      GoReceivedSame(rest);
      GoFitIs(m);
      GoFitsCons(m, rest);
      PrependSame(if InRange(bare) then Some(Wrapped(bare)) else None, GoReceived(AllWithoutLead(rest)), m, rest);
      assert AllWithoutLead(ms)[1..] == AllWithoutLead(rest);
      assert ms == [m] + rest;
    }
  }

  lemma GoInvertsSeparable(ms: seq<WireMessage>)
    requires Separable(ms)
    ensures GoMessages(EncodeMessages(ms)) == Some(ms) <==> GoFits(ms)
  {
    GoDecodes(ms);
    GoReceivedSame(ms);
  }

  // ------------------------------------------------------------------- separators in payloads

  lemma {:induction false} TrimWithin(s: Bytes)
    ensures forall c :: c in TrimRight(s) ==> c in s
  {
    var n := TailSpace(s);
    if n != 0 {
      TrimWithin(s[..|s| - n]);
    }
  }

  lemma ItemPlain(part: Bytes, sep: byte)
    requires sep !in part
    ensures sep !in TrimSpace(part)
  {
    TrimLeftSuffix(part);
    TrimWithin(TrimLeft(part));
    assert forall c :: c in TrimLeft(part) ==> c in part;
  }

  predicate NoneHolds(parts: seq<Bytes>, sep: byte) {
    forall i :: 0 <= i < |parts| ==> sep !in parts[i]
  }

  lemma NoneHoldsCons(part: Bytes, later: seq<Bytes>, sep: byte)
    requires sep !in part && NoneHolds(later, sep)
    ensures NoneHolds(NonEmpty([part]) + later, sep)
  {
    NonEmptyOne(part);
  }

  lemma {:induction false} ItemsPlain(parts: seq<Bytes>)
    requires NoneHolds(parts, ',')
    ensures NoneHolds(NonEmpty(Trimmed(parts)), ',')
  {
    if parts != [] {
      var item, later := TrimSpace(parts[0]), Trimmed(parts[1..]);
      ItemsPlain(parts[1..]);
      ItemPlain(parts[0], ',');
      NoneHoldsCons(item, NonEmpty(later), ',');
      NonEmptyAppend([item], later);
    }
  }

  lemma {:induction false} SplitWithin(s: Bytes, sep: byte)
    ensures forall i, c :: 0 <= i < |Commas.Split(s, sep)| && c in Commas.Split(s, sep)[i] ==> c in s
  {
    if s != [] {
      SplitWithin(s[1..], sep);
      assert forall c :: c in s[1..] ==> c in s;
      assert s[0] in s;
    }
  }

  lemma {:induction false} AllPlain(items: seq<Bytes>)
    requires NoneHolds(items, ',') && GoAll(items).Some?
    ensures Separable(GoAll(items).value)
  {
    if items != [] {
      SplitWithin(items[0], ':');
      AllPlain(items[1..]);
      var ms, rest := GoAll(items).value, GoAll(items[1..]).value;
      assert ms[0] == GoParse(items[0]).value && ms[0].payload == Commas.Split(items[0], ':')[0];
      assert forall i :: 0 < i < |ms| ==> ms[i] == rest[i - 1];
    }
  }

  /** The Go helper recovers the runner's messages if and only if no payload holds a separator or starts with white
      space and all numbers are within their widths. */
  lemma GoInvertsIff(ms: seq<WireMessage>)
    ensures GoMessages(EncodeMessages(ms)) == Some(ms) <==> Separable(ms) && GoFits(ms)
  {
    var raw := EncodeMessages(ms);
    if GoMessages(raw) == Some(ms) {
      ItemsPlain(Commas.Split(raw, ','));
      AllPlain(Items(raw));
    }
    if Separable(ms) {
      GoInvertsSeparable(ms);
    }
  }
}
