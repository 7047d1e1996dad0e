/**
  A well-formed request written by a client is read back as that request, however its bytes are
  cut into reads.
 */
module HttpRoundTrip {
  import opened Bytes
  import opened Lines
  import opened Decimal
  import opened Http

  datatype Field = Field(name: Bytes, value: Bytes)

  const VERSION: Bytes := "HTTP/1.1"

  predicate Clean(s: Bytes) {
    CR !in s && LF !in s
  }

  predicate NoSpace(s: Bytes) {
    s != [] && forall i :: 0 <= i < |s| ==> !IsSpace(s[i])
  }

  /** A name without white space or colon; a value on one line without white space at its ends. */
  predicate FieldOk(f: Field) {
    && NoSpace(f.name) && ':' !in f.name
    && Clean(f.value) && (f.value != [] ==> !IsSpace(f.value[0]) && !IsSpace(f.value[|f.value| - 1]))
  }

  predicate FieldsOk(fields: seq<Field>) {
    forall i :: 0 <= i < |fields| ==> FieldOk(fields[i])
  }

  function FirstLine(verb: Bytes, path: Bytes): Bytes {
    verb + [' '] + path + [' '] + VERSION
  }

  function FieldLine(f: Field): Bytes {
    f.name + [':', ' '] + f.value
  }

  function FieldLines(fields: seq<Field>): (r: seq<Bytes>)
    ensures |r| == |fields| && forall i :: 0 <= i < |r| ==> r[i] == FieldLine(fields[i])
  {
    seq(|fields|, i requires 0 <= i < |fields| => FieldLine(fields[i]))
  }

  /** Lines with CR LF between them. */
  function Block(lines: seq<Bytes>): Bytes
    requires lines != []
  {
    if |lines| == 1 then lines[0] else lines[0] + [CR, LF] + Block(lines[1..])
  }

  function Message(verb: Bytes, path: Bytes, fields: seq<Field>, body: Bytes): Bytes {
    Block([FirstLine(verb, path)] + FieldLines(fields)) + [CR, LF, CR, LF] + body
  }

  /** The headers a list of fields stands for: names without case, the last of a name counts. */
  function FieldMap(fields: seq<Field>): map<Bytes, Bytes> {
    if fields == [] then map[]
    else
      var f := fields[|fields| - 1];
      FieldMap(fields[..|fields| - 1])[Lower(f.name) := f.value]
  }

  // ------------------------------------------------------------------- the separators

  predicate LineOk(line: Bytes) {
    line != [] && Clean(line)
  }

  predicate LinesOk(lines: seq<Bytes>) {
    lines != [] && forall i :: 0 <= i < |lines| ==> LineOk(lines[i])
  }

  /** In a block every line feed is followed by the first byte of a line, and the block ends in the last
      byte of a line. */
  predicate Tight(s: Bytes) {
    && s != [] && s[0] !in {CR, LF} && s[|s| - 1] !in {CR, LF}
    && forall i :: 0 <= i < |s| && s[i] == LF ==> i + 1 < |s| && s[i + 1] !in {CR, LF}
  }

  lemma CleanTight(s: Bytes)
    requires LineOk(s)
    ensures Tight(s)
  {
    assert s[0] in s && s[|s| - 1] in s;
    forall i | 0 <= i < |s| ensures s[i] != LF {
      assert s[i] in s;
    }
  }

  lemma TightJoin(a: Bytes, b: Bytes)
    requires LineOk(a) && Tight(b)
    ensures Tight(a + [CR, LF] + b)
  {
    var s := a + [CR, LF] + b;
    CleanTight(a);
    assert forall i :: 0 <= i < |a| ==> s[i] == a[i];
    assert s[|a|] == CR && s[|a| + 1] == LF;
    assert forall i :: |a| + 2 <= i < |s| ==> s[i] == b[i - |a| - 2];
  }

  lemma {:induction false} BlockTight(lines: seq<Bytes>)
    requires LinesOk(lines)
    ensures Tight(Block(lines))
  {
    if |lines| == 1 {
      CleanTight(lines[0]);
    } else {
      BlockTight(lines[1..]);
      TightJoin(lines[0], Block(lines[1..]));
    }
  }

  /** The head of a message is found at the end of its block. */
  lemma MessageSplits(block: Bytes, body: Bytes)
    requires Tight(block)
    ensures var s := block + [CR, LF, CR, LF] + body;
      !Ambiguous(s) && Split(s) == Some(|block|) && BreakAt(s, |block|)
  {
    var s := block + [CR, LF, CR, LF] + body;
    var n := |block|;
    assert s[n] == CR && s[n + 1] == LF && s[n + 2] == CR && s[n + 3] == LF;
    assert forall i :: 0 <= i < n ==> s[i] == block[i];
    assert BreakAt(s, n);
    forall k | 0 <= k < n ensures !BreakAt(s, k) && !BlankAt(s, k) {
      if k + 1 < n && block[k + 1] == LF {
        assert block[k + 2] != CR;
      }
    }
    assert !BlankAt(s, n) && !BlankAt(s, n + 1) && !BlankAt(s, n + 2);
  }

  // ------------------------------------------------------------------- the lines

  /** What getline makes of a block: every line but the last keeps its carriage return. */
  function Received(lines: seq<Bytes>): (r: seq<Bytes>)
    requires lines != []
    ensures |r| == |lines|
    ensures forall i :: 0 <= i < |r| ==> r[i] == if i < |r| - 1 then lines[i] + [CR] else lines[i]
  {
    if |lines| == 1 then lines else [lines[0] + [CR]] + Received(lines[1..])
  }

  lemma PeelLine(line: Bytes, rest: Bytes)
    requires Clean(line)
    ensures var s := line + [CR, LF] + rest; LinesOf(s) == [line + [CR]] + LinesOf(rest)
  {
    var s := line + [CR, LF] + rest;
    EolIs(line + [CR], rest);
    assert s == line + [CR] + [LF] + rest;
    assert s[..|line| + 1] == line + [CR];
    assert s[|line| + 2..] == rest;
  }

  lemma LastLine(line: Bytes)
    requires LineOk(line)
    ensures LinesOf(line) == [line]
  {
    assert Eol(line) == |line| && line[..|line|] == line;
    assert line[|line|..] == [];
    assert [line] + LinesOf([]) == [line];
  }

  lemma {:induction false} BlockLines(lines: seq<Bytes>)
    requires LinesOk(lines)
    ensures LinesOf(Block(lines)) == Received(lines)
  {
    if |lines| == 1 {
      LastLine(lines[0]);
    } else {
      BlockLines(lines[1..]);
      PeelLine(lines[0], Block(lines[1..]));
    }
  }

  lemma StripReceived(line: Bytes, last: bool)
    requires LineOk(line)
    ensures StripCr(if last then line else line + [CR]) == line
  {
    assert line[|line| - 1] in line;
    assert (line + [CR])[..|line|] == line;
  }

  lemma WordReads(word: Bytes, rest: Bytes)
    requires NoSpace(word) && (rest != [] ==> IsSpace(rest[0]))
    ensures Word(word + rest) == Some((word, rest))
    ensures Word([' '] + word + rest) == Some((word, rest))
  {
    var t := word + rest;
    assert t[0] == word[0];
    assert forall i :: 0 <= i < |word| ==> t[i] == word[i] && !IsSpace(word[i]);
    assert rest != [] ==> t[|word|] == rest[0];
    assert WordLength(t) == |word|;
    assert t[..|word|] == word && t[|word|..] == rest;
    var u := [' '] + word + rest;
    assert u[1..] == t;
    assert SkipSpace(u) == SkipSpace(t);
  }

  lemma FirstLineReads(verb: Bytes, path: Bytes)
    requires NoSpace(verb) && NoSpace(path)
    ensures RequestLine(FirstLine(verb, path)) == Some((verb, path))
    ensures LineOk(FirstLine(verb, path))
  {
    VersionReads();
    ThreeWords(verb, path, VERSION);
    var line := FirstLine(verb, path);
    assert forall c :: c in line ==> c in verb || c in path || c == ' ' || c in VERSION;
    assert forall c :: c in verb || c in path ==> !IsSpace(c);
  }

  lemma VersionReads()
    ensures NoSpace(VERSION)
  {
  }

  lemma ThreeWords(a: Bytes, b: Bytes, c: Bytes)
    requires NoSpace(a) && NoSpace(b) && NoSpace(c)
    ensures RequestLine(a + [' '] + b + [' '] + c) == Some((a, b))
  {
    var last := [' '] + c;
    var rest := [' '] + b + last;
    assert a + [' '] + b + [' '] + c == a + rest;
    WordReads(a, rest);
    WordReads(b, last);
    WordReads(c, []);
    assert last + [] == last;
  }

  lemma FieldLineParts(f: Field)
    requires FieldOk(f)
    ensures var line := FieldLine(f);
      LineOk(line) && Find(line, ':') == |f.name| && line[..|f.name|] == f.name &&
        line[|f.name| + 1..] == [' '] + f.value
  {
    var line := FieldLine(f);
    assert forall i :: 0 <= i < |f.name| ==> line[i] == f.name[i] && f.name[i] in f.name;
    assert line[|f.name|] == ':';
  }

  lemma FieldTrims(f: Field)
    requires FieldOk(f)
    ensures Trim(f.name) == f.name && Trim([' '] + f.value) == f.value
  {
    assert [] + f.name + [] == f.name && [' '] + f.value + [] == [' '] + f.value;
    TrimIs(f.name, [], f.name, []);
    TrimIs([' '] + f.value, [' '], f.value, []);
  }

  lemma FieldLineReads(headers: map<Bytes, Bytes>, f: Field, received: Bytes)
    requires FieldOk(f) && received in {FieldLine(f), FieldLine(f) + [CR]}
    ensures AddHeader(headers, received) == headers[Lower(f.name) := f.value]
  {
    FieldLineParts(f);
    FieldTrims(f);
    StripReceived(FieldLine(f), received == FieldLine(f));
  }

  lemma {:induction false} FieldsRead(fields: seq<Field>, lines: seq<Bytes>)
    requires FieldsOk(fields) && |lines| == |fields|
    requires forall i :: 0 <= i < |lines| ==> lines[i] in {FieldLine(fields[i]), FieldLine(fields[i]) + [CR]}
    ensures HeadersOf(lines) == FieldMap(fields)
  {
    if fields != [] {
      var n := |fields| - 1;
      FieldsRead(fields[..n], lines[..n]);
      FieldLineReads(FieldMap(fields[..n]), fields[n], lines[n]);
    }
  }

  lemma LinesAreOk(verb: Bytes, path: Bytes, fields: seq<Field>)
    requires NoSpace(verb) && NoSpace(path) && FieldsOk(fields)
    ensures LinesOk([FirstLine(verb, path)] + FieldLines(fields))
  {
    FirstLineReads(verb, path);
    forall i | 0 <= i < |fields| ensures LineOk(FieldLine(fields[i])) {
      FieldLineParts(fields[i]);
    }
  }

  lemma HeadReads(verb: Bytes, path: Bytes, fields: seq<Field>)
    requires NoSpace(verb) && NoSpace(path) && FieldsOk(fields)
    ensures HeadOf(Block([FirstLine(verb, path)] + FieldLines(fields))) == Head(verb, path, FieldMap(fields))
  {
    var lines := [FirstLine(verb, path)] + FieldLines(fields);
    LinesAreOk(verb, path, fields);
    BlockTight(lines);
    BlockLines(lines);
    FirstLineReads(verb, path);
    StripReceived(lines[0], |lines| == 1);
    FieldsRead(fields, Received(lines)[1..]);
  }

  /** The round trip: for every way the message is cut into reads the server sees the request that
      was sent. */
  lemma RequestSurvives(verb: Bytes, path: Bytes, fields: seq<Field>, body: Bytes, chunks: seq<Bytes>, end: Ending)
    requires NoSpace(verb) && NoSpace(path) && FieldsOk(fields)
    requires ContentLength(FieldMap(fields)) == |body|
    requires Chunking(chunks, Message(verb, path, fields, body)) && Fits(Message(verb, path, fields, body))
    ensures ReadSpec(chunks, end) == Request(verb, path, FieldMap(fields), body)
  {
    var lines := [FirstLine(verb, path)] + FieldLines(fields);
    LinesAreOk(verb, path, fields);
    BlockTight(lines);
    HeadReads(verb, path, fields);
    MessageAnswers(Block(lines), Message(verb, path, fields, body), body, chunks, end);
    assert body[..|body|] == body;
  }

  /** A well-formed request survives every cutting if and only if it fits: a longer one is refused for its size in
      at least one of them. */
  lemma RequestSurvivesIff(verb: Bytes, path: Bytes, fields: seq<Field>, body: Bytes, end: Ending)
    requires NoSpace(verb) && NoSpace(path) && FieldsOk(fields)
    requires ContentLength(FieldMap(fields)) == |body|
    ensures (forall chunks :: Chunking(chunks, Message(verb, path, fields, body)) ==>
               ReadSpec(chunks, end) == Request(verb, path, FieldMap(fields), body))
       <==> Fits(Message(verb, path, fields, body))
  {
    var s := Message(verb, path, fields, body);
    if Fits(s) {
      forall chunks | Chunking(chunks, s) ensures ReadSpec(chunks, end) == Request(verb, path, FieldMap(fields), body) {
        RequestSurvives(verb, path, fields, body, chunks, end);
      }
    } else {
      var b := LimitCut(s, end);
      assert Chunking(b, s) && ReadSpec(b, end).Refused?;
    }
  }

  /** A head and what follows it, however they are cut. */
  lemma MessageAnswers(block: Bytes, s: Bytes, rest: Bytes, chunks: seq<Bytes>, end: Ending)
    requires Tight(block) && s == block + [CR, LF, CR, LF] + rest
    requires Chunking(chunks, s) && Fits(s)
    ensures ReadSpec(chunks, end) == Answer(HeadOf(block), Take(rest, Need(HeadOf(block))), end)
  {
    MessageSplits(block, rest);
    MessageParts(block, s, rest);
    ReadIsOneShot(s, chunks, end);
  }

  lemma MessageParts(block: Bytes, s: Bytes, body: Bytes)
    requires s == block + [CR, LF, CR, LF] + body
    ensures BreakAt(s, |block|) && s[..|block|] == block && s[Stop(s, |block|)..] == body
  {
  }
}
