/**
  Arguments longer than the C helper's copy: where the cut falls and what is left of the messages.
 */
module HelperCut {
  import opened Bytes
  import opened Commas
  import opened Decimal
  import opened Wire
  import opened HelperC

  // ------------------------------------------------------------------- where the cut falls

  /** What stands before the next message. */
  function Ahead(front: seq<WireMessage>): Bytes {
    if front == [] then [] else EncodeMessages(front) + [',']
  }

  lemma EncodeSnoc(ms: seq<WireMessage>)
    requires ms != []
    ensures EncodeMessages(ms) == Ahead(ms[..|ms| - 1]) + Spec(ms[|ms| - 1])
  {
    var front, last := ms[..|ms| - 1], ms[|ms| - 1];
    assert Specs(ms) == Specs(front) + [Spec(last)];
    JoinSnoc(Specs(front), Spec(last));
    assert front == [] ==> [] + Spec(last) == Spec(last);
  }

  /** The first k bytes of the encoding are the messages before ms[i] and n bytes of that one. */
  predicate CutsAt(ms: seq<WireMessage>, k: nat, i: nat, n: nat) {
    && k <= |EncodeMessages(ms)| && i < |ms| && n <= |Spec(ms[i])|
    && EncodeMessages(ms)[..k] == Ahead(ms[..i]) + Spec(ms[i])[..n]
  }

  lemma {:induction false} FindCut(ms: seq<WireMessage>, k: nat) returns (i: nat, n: nat)
    requires ms != [] && k <= |EncodeMessages(ms)|
    ensures CutsAt(ms, k, i, n)
    ensures i < |ms| - 1 ==> k < |Ahead(ms[..|ms| - 1])|
  {
    var front, last := ms[..|ms| - 1], ms[|ms| - 1];
    EncodeSnoc(ms);
    var ahead := Ahead(front);
    if k >= |ahead| {
      i, n := |ms| - 1, k - |ahead|;
      assert (ahead + Spec(last))[..k] == ahead + Spec(last)[..n];
    } else {
      i, n := FindCut(front, k);
      assert front[..i] == ms[..i];
      assert (ahead + Spec(last))[..k] == EncodeMessages(front)[..k];
    }
  }

  // ------------------------------------------------------------------- the tokens left

  /** One more byte in front of a list of pieces. */
  function Grown(c: byte, parts: seq<Bytes>, sep: byte): seq<Bytes>
    requires parts != []
  {
    if c == sep then [[]] + parts else [[c] + parts[0]] + parts[1..]
  }

  lemma SplitCons(s: Bytes, sep: byte)
    requires s != []
    ensures Split(s, sep) == Grown(s[0], Split(s[1..], sep), sep)
  {
  }

  lemma FirstPart(c: byte, parts: seq<Bytes>, more: seq<Bytes>, sep: byte)
    requires parts != []
    ensures Grown(c, parts + more, sep) == Grown(c, parts, sep) + more
  {
    assert (parts + more)[1..] == parts[1..] + more;
  }

  lemma {:induction false} SplitAppend(a: Bytes, b: Bytes, sep: byte)
    ensures Split(a + [sep] + b, sep) == Split(a, sep) + Split(b, sep)
  {
    var s := a + [sep] + b;
    if a == [] {
      assert s[1..] == b;
    } else {
      SplitAppend(a[1..], b, sep);
      assert s[1..] == a[1..] + [sep] + b;
      SplitCons(a, sep);
      SplitCons(s, sep);
      FirstPart(a[0], Split(a[1..], sep), Split(b, sep), sep);
    }
  }

  lemma TokensAppend(a: Bytes, b: Bytes)
    ensures Tokens(a + [','] + b) == Tokens(a) + Tokens(b)
  {
    SplitAppend(a, b, ',');
    NonEmptyAppend(Split(a, ','), Split(b, ','));
  }

  /** The pieces strtok finds in the encoding of each message; a payload with commas gives more than one. */
  function Pieced(ms: seq<WireMessage>): seq<Bytes> {
    if ms == [] then [] else Pieced(ms[..|ms| - 1]) + Tokens(Spec(ms[|ms| - 1]))
  }

  lemma {:induction false} AheadTokens(front: seq<WireMessage>, x: Bytes)
    ensures Tokens(Ahead(front) + x) == Pieced(front) + Tokens(x)
    decreases |front|
  {
    if front == [] {
      assert Ahead(front) + x == x;
    } else {
      TokensAppend(EncodeMessages(front), x);
      EncodedTokens(front);
    }
  }

  lemma {:induction false} EncodedTokens(ms: seq<WireMessage>)
    requires ms != []
    ensures Tokens(EncodeMessages(ms)) == Pieced(ms)
    decreases |ms|, 0
  {
    EncodeSnoc(ms);
    AheadTokens(ms[..|ms| - 1], Spec(ms[|ms| - 1]));
  }

  lemma OneToken(x: Bytes)
    requires x != [] && ',' !in x
    ensures Tokens(x) == [x]
  {
    SplitOne(x, ',');
    NonEmptyAll([x]);
  }

  lemma {:induction false} PiecedSpecs(ms: seq<WireMessage>)
    requires Separable(ms)
    ensures Pieced(ms) == Specs(ms)
  {
    if ms != [] {
      var front, last := ms[..|ms| - 1], ms[|ms| - 1];
      PiecedSpecs(front);
      SpecPlain(last);
      OneToken(Spec(last));
      assert Specs(ms) == Specs(front) + [Spec(last)];
    }
  }

  /** One more result at the end. */
  function Append(results: Option<seq<WireMessage>>, m: Option<WireMessage>): Option<seq<WireMessage>> {
    if results.None? || m.None? then None else Some(results.value + [m.value])
  }

  lemma PrependAppend(first: Option<WireMessage>, results: Option<seq<WireMessage>>, last: Option<WireMessage>)
    ensures Prepend(first, Append(results, last)) == Append(Prepend(first, results), last)
    ensures Prepend(last, Some([])) == Append(Some([]), last)
  {
    assert last.Some? ==> [last.value] + [] == [] + [last.value];
    if first.Some? && results.Some? && last.Some? {
      assert [first.value] + (results.value + [last.value]) == [first.value] + results.value + [last.value];
    }
  }

  lemma {:induction false} CAllSnoc(toks: seq<Bytes>, x: Bytes, last: Option<WireMessage>)
    requires last == CParse(x)
    ensures CAll(toks + [x]) == Append(CAll(toks), last)
  {
    if toks == [] {
      assert toks + [x] == [x] && [x][1..] == [];
      PrependAppend(None, None, last);
    } else {
      CAllSnoc(toks[1..], x, last);
      assert (toks + [x])[1..] == toks[1..] + [x] && (toks + [x])[0] == toks[0];
      CAllFirst(toks);
      CAllFirst(toks + [x]);
      PrependAppend(CParse(toks[0]), CAll(toks[1..]), last);
    }
  }

  lemma CAllFirst(toks: seq<Bytes>)
    requires toks != []
    ensures CAll(toks) == Prepend(CParse(toks[0]), CAll(toks[1..]))
  {
  }

  /** What the helper makes of the messages before the cut and of a rest x of the next one. */
  function Cut(front: seq<WireMessage>, x: Bytes): Option<seq<WireMessage>> {
    if |front| + (if x == [] then 0 else 1) > MAX_MESSAGES then None
    else if x == [] then Some(AllReceived(front))
    else Append(Some(AllReceived(front)), CParse(x))
  }

  function ReadAll(toks: seq<Bytes>): Option<seq<WireMessage>> {
    if |toks| > MAX_MESSAGES then None else CAll(toks)
  }

  /** What the C helper makes of any encoding: it reads the pieces of each message; of an encoding that fills its copy
      or more, those of the first 511 bytes, which end in some message. */
  lemma CDecodes(ms: seq<WireMessage>)
    ensures |EncodeMessages(ms)| < COPY_SIZE ==>
      CMessages(Truncate(EncodeMessages(ms), COPY_SIZE)) == ReadAll(Pieced(ms))
    ensures |EncodeMessages(ms)| >= COPY_SIZE ==>
      exists i: nat, n: nat ::
        CutsAt(ms, COPY_SIZE - 1, i, n) &&
        CMessages(Truncate(EncodeMessages(ms), COPY_SIZE)) == ReadAll(Pieced(ms[..i]) + Tokens(Spec(ms[i])[..n]))
  {
    if |EncodeMessages(ms)| >= COPY_SIZE {
      var i, n := FindCut(ms, COPY_SIZE - 1);
      AheadTokens(ms[..i], Spec(ms[i])[..n]);
    } else if ms == [] {
      TokensNone();
    } else {
      EncodedTokens(ms);
    }
  }

  /** For payloads without separators: truncated payloads, saturated and wrapped numbers, and of a long encoding the
      messages before the cut and what is left of the one it falls in. */
  lemma CDecodesSeparable(ms: seq<WireMessage>)
    requires Separable(ms)
    ensures |EncodeMessages(ms)| < COPY_SIZE ==>
      CMessages(Truncate(EncodeMessages(ms), COPY_SIZE)) == if |ms| > MAX_MESSAGES then None else Some(AllReceived(ms))
    ensures |EncodeMessages(ms)| >= COPY_SIZE ==>
      exists i: nat, n: nat :: CutsAt(ms, COPY_SIZE - 1, i, n) &&
                     CMessages(Truncate(EncodeMessages(ms), COPY_SIZE)) == Cut(ms[..i], Spec(ms[i])[..n])
  {
    if |EncodeMessages(ms)| < COPY_SIZE {
      CDecodesShort(ms);
    } else {
      var i, n := FindCut(ms, COPY_SIZE - 1);
      CutDecodes(ms, COPY_SIZE - 1, i, n);
    }
  }

  lemma CutDecodes(ms: seq<WireMessage>, k: nat, i: nat, n: nat)
    requires Separable(ms) && CutsAt(ms, k, i, n)
    ensures CMessages(EncodeMessages(ms)[..k]) == Cut(ms[..i], Spec(ms[i])[..n])
  {
    var front, x := ms[..i], Spec(ms[i])[..n];
    SpecPlain(ms[i]);
    assert forall c :: c in x ==> c in Spec(ms[i]);
    AheadTokens(front, x);
    PiecedSpecs(front);
    CAllSpecs(front);
    if x != [] {
      OneToken(x);
      CAllSnoc(Specs(front), x, CParse(x));
    } else {
      TokensNone();
      assert Specs(front) + [] == Specs(front);
    }
  }

  // ------------------------------------------------------------------- when the cut does no harm

  lemma {:induction false} PrefixValue(d: Bytes, j: nat)
    requires Digits(d) && j <= |d|
    ensures Digits(d[..j]) && Value(d[..j]) <= Value(d)
    decreases |d|
  {
    if j < |d| {
      var front := d[..|d| - 1];
      assert front[..j] == d[..j];
      PrefixValue(front, j);
    } else {
      assert d[..j] == d;
    }
  }

  /** A numeral that has lost digits stands for a smaller number, unless it was a single zero. */
  lemma CutNumeral(p: nat, j: nat)
    requires j < |Dec(p)|
    ensures p == 0 ==> |Dec(p)| == 1
    ensures p > 0 ==> StrToUl(Dec(p)[..j]) < p || p > ULONG_MAX
    ensures p == 0 ==> StrToUl(Dec(p)[..j]) == 0
  {
    var d := Dec(p);
    DecValue(p);
    var front := d[..|d| - 1];
    assert front[..j] == d[..j];
    PrefixValue(front, j);
    assert Value(front) * 10 <= Value(d);
    PlainNumeral(d[..j]);
  }

  lemma PlainNumeral(d: Bytes)
    requires Digits(d)
    ensures StrToUl(d) == Saturate(Value(d))
  {
    assert d != [] ==> IsDigit(d[0]);
    assert d[..|d|] == d;
    LeadingIs(d, |d|);
  }

  /** Without its second colon a cut message is refused. */
  lemma CutTooShort(m: WireMessage, n: nat)
    requires ':' !in m.payload && n < |m.payload| + |Dec(m.stream)| + 2
    ensures n <= |Spec(m)| && Pieces(Spec(m)[..n]) == None
  {
    var x := Spec(m)[..n];
    if n <= |m.payload| {
      assert x == m.payload[..n];
      assert forall c :: c in x ==> c in m.payload;
      NoneFound(x, ':');
    } else {
      var digits := Dec(m.stream)[..n - |m.payload| - 1];
      assert x == m.payload + [':'] + digits;
      DecPlain(m.stream);
      assert forall c :: c in digits ==> c in Dec(m.stream);
      FindIs(m.payload, ':', digits);
      assert x[|m.payload| + 1..] == digits;
      NoneFound(digits, ':');
    }
  }

  lemma NoneFound(s: Bytes, c: byte)
    requires c !in s
    ensures Find(s, c) == |s|
  {
  }

  lemma CutPpid(m: WireMessage, n: nat)
    requires ':' !in m.payload && |m.payload| + |Dec(m.stream)| + 2 <= n < |Spec(m)|
    ensures var j := n - (|m.payload| + |Dec(m.stream)| + 2);
      && j < |Dec(m.ppid)| && |Spec(m)| - n == |Dec(m.ppid)| - j
      && CParse(Spec(m)[..n]) ==
           Some(WireMessage(Truncate(m.payload, PAYLOAD_SIZE), Saturate(m.stream) % 0x1_0000,
                            StrToUl(Dec(m.ppid)[..j]) % 0x1_0000_0000))
  {
    var j := n - (|m.payload| + |Dec(m.stream)| + 2);
    DecPlain(m.stream);
    assert Spec(m)[..n] == m.payload + [':'] + (Dec(m.stream) + [':'] + Dec(m.ppid)[..j]);
    PiecesSpec(m.payload, Dec(m.stream), Dec(m.ppid)[..j]);
    StrToUlAll(m.stream);
  }

  lemma SameMessage(m: WireMessage, v: nat)
    requires v <= ULONG_MAX && (m.ppid > 0 ==> v < m.ppid || m.ppid > ULONG_MAX) && (m.ppid == 0 ==> v == 0)
    ensures WireMessage(Truncate(m.payload, PAYLOAD_SIZE), Saturate(m.stream) % 0x1_0000, v % 0x1_0000_0000) == m <==>
      m.ppid == 0 && |m.payload| < PAYLOAD_SIZE && m.stream < 0x1_0000
  {
    ReceivedOne(m.(ppid := 0));
  }

  /** A message that has lost its end is read as it was meant only if all it lost is the zero of its identifier. */
  lemma CutMessage(m: WireMessage, n: nat)
    requires ':' !in m.payload && n < |Spec(m)|
    ensures CParse(Spec(m)[..n]) == Some(m) <==>
      n == |Spec(m)| - 1 && m.ppid == 0 && |m.payload| < PAYLOAD_SIZE && m.stream < 0x1_0000
  {
    if n < |m.payload| + |Dec(m.stream)| + 2 {
      CutTooShort(m, n);
      assert |Spec(m)| == |m.payload| + |Dec(m.stream)| + 2 + |Dec(m.ppid)|;
    } else {
      var j := n - (|m.payload| + |Dec(m.stream)| + 2);
      CutPpid(m, n);
      CutNumeral(m.ppid, j);
      SameMessage(m, StrToUl(Dec(m.ppid)[..j]));
    }
  }

  /** The last message, if it ends in a zero that does not matter. */
  predicate EndsInZero(ms: seq<WireMessage>) {
    ms != [] && ms[|ms| - 1].ppid == 0
  }

  lemma AppendIs(results: seq<WireMessage>, m: Option<WireMessage>, front: seq<WireMessage>, last: WireMessage)
    requires |results| == |front|
    ensures Append(Some(results), m) == Some(front + [last]) <==> results == front && m == Some(last)
  {
    if Append(Some(results), m) == Some(front + [last]) {
      assert results == (results + [m.value])[..|front|] == (front + [last])[..|front|] == front;
      assert (results + [m.value])[|front|] == m.value;
    }
  }

  lemma FitsSnoc(front: seq<WireMessage>, last: WireMessage)
    ensures CFits(front + [last]) <==>
      && |front| < MAX_MESSAGES && CFits(front)
      && |last.payload| < PAYLOAD_SIZE && last.stream < 0x1_0000 && last.ppid < 0x1_0000_0000
  {
    var ms := front + [last];
    assert ms[|front|] == last;
    assert forall i :: 0 <= i < |front| ==> ms[i] == front[i];
  }

  lemma CutFits(ms: seq<WireMessage>, n: nat)
    requires Separable(ms) && ms != [] && n < |Spec(ms[|ms| - 1])|
    ensures Cut(ms[..|ms| - 1], Spec(ms[|ms| - 1])[..n]) == Some(ms) <==>
      CFits(ms) && n == |Spec(ms[|ms| - 1])| - 1 && EndsInZero(ms)
  {
    var front, last := ms[..|ms| - 1], ms[|ms| - 1];
    assert ms == front + [last];
    CutMessage(last, n);
    ReceivedSame(front);
    FitsSnoc(front, last);
    AppendIs(AllReceived(front), CParse(Spec(last)[..n]), front, last);
    if n == 0 {
      DecPlain(last.stream);
      assert |Spec(last)| > 1;
    }
  }

  /** Within the limits, and short enough for the copy. */
  predicate CRecovers(ms: seq<WireMessage>) {
    CFits(ms) && (|EncodeMessages(ms)| < COPY_SIZE || (|EncodeMessages(ms)| == COPY_SIZE && EndsInZero(ms)))
  }

  lemma CInvertsSeparable(ms: seq<WireMessage>)
    requires Separable(ms)
    ensures CMessages(Truncate(EncodeMessages(ms), COPY_SIZE)) == Some(ms) <==> CRecovers(ms)
  {
    if |EncodeMessages(ms)| < COPY_SIZE {
      CInvertsShort(ms);
    } else {
      var i, n := FindCut(ms, COPY_SIZE - 1);
      CutDecodes(ms, COPY_SIZE - 1, i, n);
      if i == |ms| - 1 {
        LastCut(ms, n);
      } else {
        EarlyCut(ms, i, n);
      }
    }
  }

  // ------------------------------------------------------------------- separators in payloads

  /** A payload the helper has read holds no separator. */
  lemma ReadPlain(tok: Bytes)
    requires ',' !in tok && CParse(tok).Some?
    ensures ',' !in CParse(tok).value.payload && ':' !in CParse(tok).value.payload
  {
    var payload := Pieces(tok).value.0;
    assert forall c :: c in payload ==> c in tok;
    assert forall c :: c in Truncate(payload, PAYLOAD_SIZE) ==> c in payload;
  }

  lemma {:induction false} AllPlain(toks: seq<Bytes>)
    requires forall i :: 0 <= i < |toks| ==> ',' !in toks[i]
    requires CAll(toks).Some?
    ensures Separable(CAll(toks).value)
  {
    if toks != [] {
      ReadPlain(toks[0]);
      AllPlain(toks[1..]);
      var ms, rest := CAll(toks).value, CAll(toks[1..]).value;
      assert ms[0] == CParse(toks[0]).value && ms[1..] == rest;
      assert forall i :: 0 < i < |ms| ==> ms[i] == rest[i - 1];
    }
  }

  lemma {:induction false} NonEmptyWithin(parts: seq<Bytes>)
    ensures forall i :: 0 <= i < |NonEmpty(parts)| ==> NonEmpty(parts)[i] in parts
  {
    if parts != [] {
      NonEmptyWithin(parts[1..]);
      assert forall p :: p in parts[1..] ==> p in parts;
      assert parts[0] in parts;
    }
  }

  /** The C helper recovers the runner's messages if and only if no payload holds a separator, their number, payloads,
      streams and identifiers are within its limits, and the encoding fits its copy, or is one byte too long and
      loses only the zero of the last identifier. */
  lemma CInvertsIff(ms: seq<WireMessage>)
    ensures CMessages(Truncate(EncodeMessages(ms), COPY_SIZE)) == Some(ms) <==> Separable(ms) && CRecovers(ms)
  {
    var text := Truncate(EncodeMessages(ms), COPY_SIZE);
    if CMessages(text) == Some(ms) {
      NonEmptyWithin(Split(text, ','));
      AllPlain(Tokens(text));
    }
    if Separable(ms) {
      CInvertsSeparable(ms);
    }
  }

  lemma LastCut(ms: seq<WireMessage>, n: nat)
    requires Separable(ms) && ms != [] && |EncodeMessages(ms)| >= COPY_SIZE && CutsAt(ms, COPY_SIZE - 1, |ms| - 1, n)
    ensures Cut(ms[..|ms| - 1], Spec(ms[|ms| - 1])[..n]) == Some(ms) <==> CRecovers(ms)
  {
    EncodeSnoc(ms);
    assert |EncodeMessages(ms)[..COPY_SIZE - 1]| == COPY_SIZE - 1;
    CutFits(ms, n);
  }

  lemma EarlyCut(ms: seq<WireMessage>, i: nat, n: nat)
    requires ms != [] && |EncodeMessages(ms)| >= COPY_SIZE && CutsAt(ms, COPY_SIZE - 1, i, n)
    requires i < |ms| - 1 && COPY_SIZE - 1 < |Ahead(ms[..|ms| - 1])|
    ensures Cut(ms[..i], Spec(ms[i])[..n]) != Some(ms) && !CRecovers(ms)
  {
    EncodeSnoc(ms);
    var r := Cut(ms[..i], Spec(ms[i])[..n]);
    assert r.Some? ==> |r.value| <= i + 1;
  }
}
