/**
  The C helper's message parser: it cuts a character buffer in place and reads the pieces as C
  strings.
 */
module HelperC {
  import opened Bytes
  import opened Commas
  import opened Decimal
  import opened Wire

  const NUL: byte := 0 as char
  const MAX_MESSAGES := 16
  const PAYLOAD_SIZE := 256
  const COPY_SIZE := 512

  /** The C string at index i is t. */
  predicate CStr(s: Bytes, i: nat, t: Bytes) {
    i + |t| < |s| && s[i..i + |t|] == t && s[i + |t|] == NUL && NUL !in t
  }

  /** Writing outside a C string leaves it alone. */
  lemma CStrKeeps(s: Bytes, i: nat, t: Bytes, at: nat, c: byte)
    requires CStr(s, i, t) && at < |s| && (at < i || at > i + |t|)
    ensures CStr(s[at := c], i, t)
  {
    var s' := s[at := c];
    assert s'[i..i + |t|] == s[i..i + |t|];
  }

  /** Writing the terminator inside a C string cuts it in two. */
  lemma CStrCut(s: Bytes, i: nat, t: Bytes, k: nat)
    requires CStr(s, i, t) && k < |t|
    ensures CStr(s[i + k := NUL], i, t[..k]) && CStr(s[i + k := NUL], i + k + 1, t[k + 1..])
  {
    var s' := s[i + k := NUL];
    assert forall j :: 0 <= j < |t| ==> s[i..i + |t|][j] == t[j];
    assert s'[i..i + k] == t[..k];
    assert s'[i + k + 1..i + |t|] == t[k + 1..];
  }

  /** What strtok finds: the non-empty pieces between commas. */
  function Tokens(text: Bytes): seq<Bytes> {
    NonEmpty(Commas.Split(text, ','))
  }

  lemma TokensSkip(text: Bytes)
    requires text != [] && text[0] == ','
    ensures Tokens(text) == Tokens(text[1..])
  {
    var rest := Commas.Split(text[1..], ',');
    var first: Bytes := [];
    assert Commas.Split(text, ',') == [first] + rest;
    assert ([first] + rest)[1..] == rest;
    assert [] + NonEmpty(rest) == NonEmpty(rest);
  }

  /** The first token ends at the first comma or at the end. */
  lemma TokensFirst(text: Bytes)
    requires text != [] && text[0] != ','
    ensures var k := Find(text, ',');
      k > 0 && Tokens(text) == [text[..k]] + Tokens(if k < |text| then text[k + 1..] else [])
  {
    var k := Find(text, ',');
    var head := text[..k];
    assert ',' !in head;
    if k < |text| {
      var rest := text[k + 1..];
      assert text == head + [','] + rest;
      SplitFirst(head, rest, ',');
      assert ([head] + Commas.Split(rest, ','))[1..] == Commas.Split(rest, ',');
    } else {
      assert head == text;
      SplitOne(text, ',');
      assert [text][1..] == [];
      assert Tokens([]) == [] by {
        assert Commas.Split([], ',')[1..] == [];
      }
    }
  }

  /** The tokens found so far, each in its place and ended before `bound`, or at the end of the text. */
  ghost predicate Cut(s: Bytes, starts: seq<nat>, toks: seq<Bytes>, bound: nat) {
    && |starts| == |toks|
    && (forall i :: 0 <= i < |starts| ==> CStr(s, starts[i], toks[i]) && starts[i] + |toks[i]| < bound)
    && (forall i, j :: 0 <= i < j < |starts| ==> starts[i] + |toks[i]| < starts[j])
  }

  lemma CutKeeps(s: Bytes, starts: seq<nat>, toks: seq<Bytes>, bound: nat, at: nat, c: byte)
    requires Cut(s, starts, toks, bound) && bound <= at < |s|
    ensures Cut(s[at := c], starts, toks, bound)
  {
    forall i | 0 <= i < |starts| ensures CStr(s[at := c], starts[i], toks[i]) {
      CStrKeeps(s, starts[i], toks[i], at, c);
    }
  }

  lemma CutSnoc(s: Bytes, starts: seq<nat>, toks: seq<Bytes>, bound: nat, start: nat, tok: Bytes)
    requires Cut(s, starts, toks, bound) && bound <= start && CStr(s, start, tok)
    ensures Cut(s, starts + [start], toks + [tok], start + |tok| + 1)
  {
  }

  /** strchr: the offset of a byte in the C string at i, or its length. */
  method StrChr(buf: array<byte>, i: nat, c: byte, ghost t: Bytes) returns (k: nat)
    requires CStr(buf[..], i, t) && c != NUL
    ensures k == Find(t, c)
  {
    k := 0;
    while buf[i + k] != NUL && buf[i + k] != c
      invariant k <= |t| && forall j :: 0 <= j < k ==> t[j] != c
      invariant forall j :: 0 <= j < |t| ==> buf[i + j] == t[j]
      invariant buf[i + |t|] == NUL
      decreases |t| - k
    {
      assert k < |t|;
      k := k + 1;
    }
    assert k < |t| ==> t[k] in t;
  }

  lemma TwiceSliced(text: Bytes, from: nat, k: nat)
    requires from + k <= |text|
    ensures text[from..][..k] == text[from..from + k]
    ensures from + k < |text| ==> text[from..][k + 1..] == text[from + k + 1..]
    ensures from + k == |text| ==> text[from + k..] == []
  {
  }

  /** The same, for the text from a position on. */
  lemma TokenAt(text: Bytes, from: nat)
    requires from < |text| && text[from] != ','
    ensures var k := Find(text[from..], ',');
      && from + k <= |text|
      && Tokens(text[from..])
      == [text[from..from + k]] + Tokens(text[if from + k < |text| then from + k + 1 else from + k..])
  {
    var k := Find(text[from..], ',');
    TokensFirst(text[from..]);
    TwiceSliced(text, from, k);
  }

  lemma TokensNone()
    ensures Tokens([]) == []
  {
    assert Commas.Split([], ',')[1..] == [];
  }

  lemma Gather(toks: seq<Bytes>, tok: Bytes, later: seq<Bytes>)
    ensures toks + ([tok] + later) == toks + [tok] + later
  {
  }

  /** What is left of the text from pos on is untouched. */
  predicate Untouched(s: Bytes, text: Bytes, pos: nat) {
    pos <= |text| < |s| && s[|text|] == NUL && forall j :: pos <= j < |text| ==> s[j] == text[j]
  }

  lemma WholeUntouched(s: Bytes, text: Bytes)
    requires CStr(s, 0, text)
    ensures Untouched(s, text, 0)
  {
    assert forall j :: 0 <= j < |text| ==> s[j] == s[0..|text|][j];
  }

  lemma TokenInPlace(s: Bytes, text: Bytes, pos: nat, k: nat)
    requires Untouched(s, text, pos) && NUL !in text && pos + k <= |text|
    ensures pos + k == |text| ==> CStr(s, pos, text[pos..pos + k])
    ensures CStr(s[pos + k := NUL], pos, text[pos..pos + k])
  {
    assert forall c :: c in text[pos..pos + k] ==> c in text;
    assert s[pos..pos + k] == text[pos..pos + k];
    assert s[pos + k := NUL][pos..pos + k] == text[pos..pos + k];
  }

  lemma CutWidens(s: Bytes, starts: seq<nat>, toks: seq<Bytes>, bound: nat, wider: nat)
    requires Cut(s, starts, toks, bound) && bound <= wider
    ensures Cut(s, starts, toks, wider)
  {
  }

  /** The delimiters before a token. */
  method SkipCommas(buf: array<byte>, start: nat, ghost text: Bytes) returns (pos: nat)
    requires Untouched(buf[..], text, start) && NUL !in text
    ensures start <= pos <= |text| && buf[pos] != ',' && (buf[pos] == NUL <==> pos == |text|)
    ensures Tokens(text[start..]) == Tokens(text[pos..])
  {
    pos := start;
    while buf[pos] == ','
      invariant start <= pos <= |text| && Tokens(text[start..]) == Tokens(text[pos..])
      decreases |text| - pos
    {
      assert text[pos..][0] == ',' && text[pos..][1..] == text[pos + 1..];
      TokensSkip(text[pos..]);
      pos := pos + 1;
    }
    assert pos < |text| ==> text[pos] in text;
  }

  /** The scan for the end of a token. */
  method StrEnd(buf: array<byte>, pos: nat, ghost text: Bytes) returns (k: nat)
    requires Untouched(buf[..], text, pos) && NUL !in text
    ensures pos + k <= |text| && k == Find(text[pos..], ',')
  {
    k := 0;
    while buf[pos + k] != ',' && buf[pos + k] != NUL
      invariant pos + k <= |text| && forall j :: 0 <= j < k ==> text[pos..][j] != ','
      decreases |text| - k
    {
      k := k + 1;
    }
    assert pos + k < |text| ==> text[pos + k] in text;
    assert pos + k < |text| ==> text[pos..][k] == ',';
  }

  /** One strtok call: the next token is terminated in place and the scan resumes behind it. */
  method StrTok(buf: array<byte>, pos: nat, ghost text: Bytes) returns (start: Option<nat>, ghost tok: Bytes, next: nat)
    requires Untouched(buf[..], text, pos) && NUL !in text
    modifies buf
    ensures start == None ==> Tokens(text[pos..]) == [] && buf[..] == old(buf[..])
    ensures start.Some? ==>
      && pos <= start.value && start.value + |tok| <= |text| && pos < |text|
      && buf[..] == old(buf[..])[start.value + |tok| := NUL]
      && CStr(buf[..], start.value, tok) && Untouched(buf[..], text, next)
      && (start.value + |tok| < next || next == |text|)
      && Tokens(text[pos..]) == [tok] + Tokens(text[next..])
  {
    var from := SkipCommas(buf, pos, text);
    tok := [];
    if buf[from] == NUL {
      assert text[from..] == [];
      TokensNone();
      return None, tok, from;
    }
    start := Some(from);
    tok, next := EndToken(buf, from, text);
  }

  /** The token at the cursor is terminated where it ends. */
  method EndToken(buf: array<byte>, from: nat, ghost text: Bytes) returns (ghost tok: Bytes, next: nat)
    requires Untouched(buf[..], text, from) && NUL !in text && from < |text| && text[from] != ','
    modifies buf
    ensures from + |tok| <= |text|
    ensures buf[..] == old(buf[..])[from + |tok| := NUL]
    ensures CStr(buf[..], from, tok) && Untouched(buf[..], text, next)
    ensures from + |tok| < next || next == |text|
    ensures Tokens(text[from..]) == [tok] + Tokens(text[next..])
  {
    var k := StrEnd(buf, from, text);
    tok := text[from..from + k];
    TokenAt(text, from);
    TokenInPlace(buf[..], text, from, k);
    next := from + k;
    if buf[from + k] == ',' {
      buf[from + k] := NUL;
      next := from + k + 1;
    }
  }

  /** How often an array for n tokens is doubled. */
  function Doublings(capacity: nat, n: nat): nat
    requires capacity > 0
    decreases n - capacity
  {
    if n <= capacity then 0 else 1 + Doublings(2 * capacity, n)
  }

  /** The allocations a text asks for: the array of eight pointers, and one for each doubling. */
  function Allocations(text: Bytes): nat {
    if text == [] then 0 else 1 + Doublings(8, |Tokens(text)|)
  }

  function PowerOfTwo(k: nat): nat {
    if k == 0 then 1 else 2 * PowerOfTwo(k - 1)
  }

  lemma {:induction false} DoublingsAre(capacity: nat, n: nat, k: nat)
    requires capacity > 0 && n <= capacity * PowerOfTwo(k) && (k > 0 ==> n > capacity * PowerOfTwo(k - 1))
    ensures Doublings(capacity, n) == k
    decreases k
  {
    if k > 0 {
      assert capacity * PowerOfTwo(k) == 2 * capacity * PowerOfTwo(k - 1);
      PowerPositive(k - 1);
      if k > 1 {
        assert capacity * PowerOfTwo(k - 1) == 2 * capacity * PowerOfTwo(k - 2);
      }
      DoublingsAre(2 * capacity, n, k - 1);
    }
  }

  lemma {:induction false} PowerPositive(k: nat)
    ensures PowerOfTwo(k) >= 1
  {
    if k > 0 {
      PowerPositive(k - 1);
    }
  }

  /** An empty text asks for no memory; another for one array of eight, and k doublings when it has more than half of
      8 * 2^k tokens and no more than that. */
  lemma AllocationsSpelled(text: Bytes, k: nat)
    requires |Tokens(text)| <= 8 * PowerOfTwo(k) && (k > 0 ==> |Tokens(text)| > 8 * PowerOfTwo(k - 1))
    ensures Allocations(text) == if text == [] then 0 else 1 + k
  {
    DoublingsAre(8, |Tokens(text)|, k);
  }

  /** The array has room for one more token, or an allocation is spent on it. */
  method Reserve(capacity: nat, count: nat, memory: nat, ghost n: nat) returns (ok: bool, capacity': nat, memory': nat)
    requires capacity > 0 && count <= capacity && count < n
    ensures !ok ==> memory < Doublings(capacity, n)
    ensures ok ==> count < capacity' && memory' <= memory
    ensures ok ==> memory - memory' + Doublings(capacity', n) == Doublings(capacity, n)
  {
    ok, capacity', memory' := true, capacity, memory;
    if count == capacity {
      if memory == 0 {
        return false, capacity, memory;
      }
      capacity', memory' := 2 * capacity, memory - 1;
    }
  }

  /** The strtok loop: every token becomes a C string of its own, in place. `memory` is the number of allocations
      the system still grants. */
  method SplitCsv(buf: array<byte>, memory: nat, ghost text: Bytes) returns (ok: bool, starts: seq<nat>)
    requires CStr(buf[..], 0, text)
    modifies buf
    ensures ok <==> text != [] && Allocations(text) <= memory
    ensures ok ==> Cut(buf[..], starts, Tokens(text), buf.Length)
  {
    starts := [];
    EndsThere(buf[..], 0, text, 0);
    if buf[0] == NUL || memory == 0 {
      return false, starts;
    }
    var capacity: nat, left: nat := 8, memory - 1;
    var pos := 0;
    ghost var bound: nat := 0;
    ghost var toks: seq<Bytes> := [];
    ghost var n := |Tokens(text)|;
    assert text[0..] == text && toks + Tokens(text) == Tokens(text);
    WholeUntouched(buf[..], text);
    while true
      invariant Untouched(buf[..], text, pos)
      invariant Cut(buf[..], starts, toks, bound) && (bound <= pos || pos == |text|) && bound <= buf.Length
      invariant Tokens(text) == toks + Tokens(text[pos..])
      invariant 0 < capacity && |starts| <= capacity && left < memory
      invariant memory - 1 - left + Doublings(capacity, n) == Doublings(8, n)
      decreases |Tokens(text[pos..])|
    {
      ghost var before := buf[..];
      var start, tok, next := StrTok(buf, pos, text);
      if start == None {
        assert Tokens(text) == toks by {
          assert toks + [] == toks;
        }
        assert n == |starts| && Doublings(capacity, n) == 0;
        CutWidens(buf[..], starts, toks, bound, buf.Length);
        return true, starts;
      }
      ok, capacity, left := Reserve(capacity, |starts|, left, n);
      if !ok {
        return false, starts;
      }
      CutKeeps(before, starts, toks, bound, start.value + |tok|, NUL);
      CutSnoc(buf[..], starts, toks, bound, start.value, tok);
      Gather(toks, tok, Tokens(text[next..]));
      starts := starts + [start.value];
      toks := toks + [tok];
      bound := start.value + |tok| + 1;
      pos := next;
    }
  }

  // ------------------------------------------------------------------- the messages

  /** strlcpy into a field: at most size - 1 bytes. */
  function Truncate(t: Bytes, size: nat): Bytes
    requires size > 0
  {
    if |t| < size then t else t[..size - 1]
  }

  function CMessage(payload: Bytes, stream: Bytes, ppid: Bytes): WireMessage {
    WireMessage(Truncate(payload, PAYLOAD_SIZE), StrToUl(stream) % 0x1_0000, StrToUl(ppid) % 0x1_0000_0000)
  }

  /** A token cut at its first two colons. */
  function Pieces(tok: Bytes): Option<(Bytes, Bytes, Bytes)> {
    var k := Find(tok, ':');
    if k == |tok| then None
    else
      var rest := tok[k + 1..];
      var j := Find(rest, ':');
      if j == |rest| then None else Some((tok[..k], rest[..j], rest[j + 1..]))
  }

  function CParse(tok: Bytes): Option<WireMessage> {
    match Pieces(tok)
    case None => None
    case Some((payload, stream, ppid)) => Some(CMessage(payload, stream, ppid))
  }

  function CAll(toks: seq<Bytes>): Option<seq<WireMessage>> {
    if toks == [] then Some([]) else Prepend(CParse(toks[0]), CAll(toks[1..]))
  }

  lemma CAllOne(tok: Bytes)
    ensures CAll([tok]) == if CParse(tok).None? then None else Some([CParse(tok).value])
  {
    assert [tok][1..] == [];
    PrependOne(CParse(tok));
    assert CAll([tok]) == Prepend(CParse(tok), CAll([tok][1..]));
  }

  /** What the C helper makes of a message argument. */
  function CMessages(text: Bytes): Option<seq<WireMessage>> {
    if |Tokens(text)| > MAX_MESSAGES then None else CAll(Tokens(text))
  }

  /** The bytes of a C string. */
  method ReadC(buf: array<byte>, i: nat, ghost t: Bytes) returns (r: Bytes)
    requires CStr(buf[..], i, t)
    ensures r == t
  {
    r := [];
    assert forall j :: 0 <= j < |t| ==> buf[..][i..i + |t|][j] == t[j];
    while buf[i + |r|] != NUL
      invariant |r| <= |t| && r == t[..|r|]
      decreases |t| - |r|
    {
      r := r + [buf[i + |r|]];
    }
  }

  /** strchr for a colon and the write of a terminator over it. */
  method CutAtColon(buf: array<byte>, i: nat, ghost t: Bytes) returns (k: Option<nat>)
    requires CStr(buf[..], i, t)
    modifies buf
    ensures k == None ==> Find(t, ':') == |t| && buf[..] == old(buf[..])
    ensures k.Some? ==>
      && k.value == Find(t, ':') < |t| && buf[..] == old(buf[..])[i + k.value := NUL]
      && CStr(buf[..], i, t[..k.value]) && CStr(buf[..], i + k.value + 1, t[k.value + 1..])
  {
    var n := StrChr(buf, i, ':', t);
    EndsThere(buf[..], i, t, n);
    if buf[i + n] == NUL {
      return None;
    }
    CStrCut(buf[..], i, t, n);
    buf[i + n] := NUL;
    k := Some(n);
  }

  /** The token is cut at the two colons and the three pieces are read. */
  method CutPieces(buf: array<byte>, start: nat, ghost tok: Bytes) returns (r: Option<(Bytes, Bytes, Bytes)>)
    requires CStr(buf[..], start, tok)
    modifies buf
    ensures r == Pieces(tok)
    ensures forall j :: 0 <= j < buf.Length && (j < start || j > start + |tok|) ==> buf[..][j] == old(buf[..])[j]
  {
    var k := CutAtColon(buf, start, tok);
    if k == None {
      return None;
    }
    var payload := ReadC(buf, start, tok[..k.value]);
    ghost var rest := tok[k.value + 1..];
    assert k.value == Find(tok, ':');
    var tail := CutTail(buf, start + k.value + 1, rest);
    if tail == None {
      return None;
    }
    return Some((payload, tail.value.0, tail.value.1));
  }

  /** The second cut, behind the first colon. */
  method CutTail(buf: array<byte>, start: nat, ghost rest: Bytes) returns (r: Option<(Bytes, Bytes)>)
    requires CStr(buf[..], start, rest)
    modifies buf
    ensures r == var j := Find(rest, ':'); if j == |rest| then None else Some((rest[..j], rest[j + 1..]))
    ensures forall j :: 0 <= j < buf.Length && (j < start || j > start + |rest|) ==> buf[..][j] == old(buf[..])[j]
  {
    var j := CutAtColon(buf, start, rest);
    if j == None {
      return None;
    }
    var stream := ReadC(buf, start, rest[..j.value]);
    var ppid := ReadC(buf, start + j.value + 1, rest[j.value + 1..]);
    return Some((stream, ppid));
  }

  method ParseOne(buf: array<byte>, start: nat, ghost tok: Bytes) returns (r: Option<WireMessage>)
    requires CStr(buf[..], start, tok)
    modifies buf
    ensures r == CParse(tok)
    ensures forall j :: 0 <= j < buf.Length && (j < start || j > start + |tok|) ==> buf[..][j] == old(buf[..])[j]
  {
    var pieces := CutPieces(buf, start, tok);
    if pieces == None {
      return None;
    }
    return Some(CMessage(pieces.value.0, pieces.value.1, pieces.value.2));
  }

  /** The byte at an offset of a C string is its terminator exactly at its length. */
  lemma EndsThere(s: Bytes, i: nat, t: Bytes, k: nat)
    requires CStr(s, i, t) && k <= |t|
    ensures s[i + k] == NUL <==> k == |t|
  {
    if k < |t| {
      assert s[i..i + |t|][k] == t[k] && t[k] in t;
    }
  }

  lemma CStrFrame(s: Bytes, s': Bytes, i: nat, t: Bytes)
    requires CStr(s, i, t) && |s'| == |s| && forall j :: i <= j <= i + |t| ==> s'[j] == s[j]
    ensures CStr(s', i, t)
  {
    assert s'[i..i + |t|] == s[i..i + |t|];
  }

  method ParseMessages(buf: array<byte>, memory: nat, ghost text: Bytes) returns (r: Option<seq<WireMessage>>)
    requires CStr(buf[..], 0, text)
    modifies buf
    ensures r == if Allocations(text) <= memory then CMessages(text) else None
  {
    EndsThere(buf[..], 0, text, 0);
    if buf[0] == NUL {
      TokensNone();
      return Some([]);
    }
    var ok, starts := SplitCsv(buf, memory, text);
    if !ok || |starts| > MAX_MESSAGES {
      return None;
    }
    r := ParseTokens(buf, starts, Tokens(text));
  }

  method ParseTokens(buf: array<byte>, starts: seq<nat>, ghost toks: seq<Bytes>) returns (r: Option<seq<WireMessage>>)
    requires Cut(buf[..], starts, toks, buf.Length)
    modifies buf
    ensures r == CAll(toks)
  {
    var messages: seq<WireMessage> := [];
    var i := 0;
    assert toks[0..] == toks;
    BeforeStep([], WireMessage([], 0, 0), CAll(toks));
    while i < |starts|
      invariant i <= |starts|
      invariant forall j :: i <= j < |starts| ==> CStr(buf[..], starts[j], toks[j])
      invariant CAll(toks) == Before(messages, CAll(toks[i..]))
    {
      ghost var s := buf[..];
      ghost var later := CAll(toks[i + 1..]);
      assert toks[i..][1..] == toks[i + 1..];
      var m := ParseOne(buf, starts[i], toks[i]);
      if m == None {
        return None;
      }
      forall j | i < j < |starts| ensures CStr(buf[..], starts[j], toks[j]) {
        CStrFrame(s, buf[..], starts[j], toks[j]);
      }
      BeforeStep(messages, m.value, later);
      messages := messages + [m.value];
      i := i + 1;
    }
    BeforeStep(messages, WireMessage([], 0, 0), None);
    return Some(messages);
  }

  /** The client's part: the argument is copied into a fixed buffer, then parsed there. */
  method LoadMessages(argument: Bytes, memory: nat) returns (r: Option<seq<WireMessage>>)
    requires NUL !in argument
    ensures var text := Truncate(argument, COPY_SIZE);
      r == if Allocations(text) <= memory then CMessages(text) else None
  {
    var copy := new byte[COPY_SIZE](_ => NUL);
    ghost var text := Truncate(argument, COPY_SIZE);
    var n := if |argument| < COPY_SIZE then |argument| else COPY_SIZE - 1;
    for i := 0 to n
      invariant forall j :: 0 <= j < i ==> copy[j] == argument[j]
      invariant forall j :: i <= j < COPY_SIZE ==> copy[j] == NUL
    {
      copy[i] := argument[i];
    }
    assert copy[..][0..n] == text;
    assert forall c :: c in text ==> c in argument;
    r := ParseMessages(copy, memory, text);
  }

  // ------------------------------------------------------------------- the round trip

  /** What becomes of one message on its way through the C helper. */
  function CReceived(m: WireMessage): WireMessage {
    WireMessage(Truncate(m.payload, PAYLOAD_SIZE), Saturate(m.stream) % 0x1_0000, Saturate(m.ppid) % 0x1_0000_0000)
  }

  function Saturate(n: nat): nat {
    if n > ULONG_MAX then ULONG_MAX else n
  }

  lemma PiecesSpec(payload: Bytes, stream: Bytes, ppid: Bytes)
    requires ':' !in payload && ':' !in stream
    ensures Pieces(payload + [':'] + (stream + [':'] + ppid)) == Some((payload, stream, ppid))
  {
    var rest := stream + [':'] + ppid;
    var spec := payload + [':'] + rest;
    FindIs(payload, ':', rest);
    assert spec[..|payload|] == payload && spec[|payload| + 1..] == rest;
    FindIs(stream, ':', ppid);
    assert rest[..|stream|] == stream && rest[|stream| + 1..] == ppid;
  }

  lemma StrToUlAll(n: nat)
    ensures StrToUl(Dec(n)) == Saturate(n)
  {
    StrToUlDec(n, []);
    assert Dec(n) + [] == Dec(n);
  }

  lemma CParseSpec(m: WireMessage)
    requires ':' !in m.payload
    ensures CParse(Spec(m)) == Some(CReceived(m))
  {
    DecPlain(m.stream);
    PiecesSpec(m.payload, Dec(m.stream), Dec(m.ppid));
    StrToUlAll(m.stream);
    StrToUlAll(m.ppid);
  }

  function AllReceived(ms: seq<WireMessage>): (r: seq<WireMessage>)
    ensures |r| == |ms| && forall i :: 0 <= i < |r| ==> r[i] == CReceived(ms[i])
  {
    if ms == [] then [] else [CReceived(ms[0])] + AllReceived(ms[1..])
  }

  lemma {:induction false} CAllSpecs(ms: seq<WireMessage>)
    requires Separable(ms)
    ensures CAll(Specs(ms)) == Some(AllReceived(ms))
  {
    if ms != [] {
      CParseSpec(ms[0]);
      CAllSpecs(ms[1..]);
      assert Specs(ms)[1..] == Specs(ms[1..]);
    }
  }

  /** The limits of the C helper on a message list. */
  predicate CFits(ms: seq<WireMessage>) {
    && |ms| <= MAX_MESSAGES
    && forall i :: 0 <= i < |ms| ==>
         |ms[i].payload| < PAYLOAD_SIZE && ms[i].stream < 0x1_0000 && ms[i].ppid < 0x1_0000_0000
  }

  lemma ReceivedSame(ms: seq<WireMessage>)
    ensures AllReceived(ms) == ms <==>
      forall i :: 0 <= i < |ms| ==>
        |ms[i].payload| < PAYLOAD_SIZE && ms[i].stream < 0x1_0000 && ms[i].ppid < 0x1_0000_0000
  {
    var rs := AllReceived(ms);
    forall i | 0 <= i < |ms|
      ensures rs[i] == ms[i] <==>
        |ms[i].payload| < PAYLOAD_SIZE && ms[i].stream < 0x1_0000 && ms[i].ppid < 0x1_0000_0000
    {
      ReceivedOne(ms[i]);
    }
  }

  lemma ReceivedOne(m: WireMessage)
    ensures CReceived(m) == m <==> |m.payload| < PAYLOAD_SIZE && m.stream < 0x1_0000 && m.ppid < 0x1_0000_0000
  {
    if |m.payload| >= PAYLOAD_SIZE {
      assert |CReceived(m).payload| < PAYLOAD_SIZE;
    }
  }

  /** What the C helper makes of an encoding that fits its copy. */
  lemma CDecodesShort(ms: seq<WireMessage>)
    requires Separable(ms) && |EncodeMessages(ms)| < COPY_SIZE
    ensures CMessages(Truncate(EncodeMessages(ms), COPY_SIZE))
         == if |ms| > MAX_MESSAGES then None else Some(AllReceived(ms))
  {
    SpecsRecovered(ms);
    CAllSpecs(ms);
  }

  lemma CInvertsShort(ms: seq<WireMessage>)
    requires Separable(ms) && |EncodeMessages(ms)| < COPY_SIZE
    ensures CMessages(Truncate(EncodeMessages(ms), COPY_SIZE)) == Some(ms) <==> CFits(ms)
  {
    CDecodesShort(ms);
    ReceivedSame(ms);
  }
}
