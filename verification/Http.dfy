/**
  Reading one HTTP request from a connection, chunk by chunk, and what it means for the byte
  stream: when the result does not depend on how the stream was cut, and when it does.
 */
module Http {
  import opened Bytes
  import opened Lines
  import opened Decimal

  const LIMIT := 0x100000
  const BUFFER := 4096

  /** How a read that brings no bytes ended: a timeout, or the end of the stream or another error. */
  datatype Ending = TimedOut | Closed

  datatype HttpError =
    | HeadTimedOut
    | HeadFailed
    | TooLarge
    | MissingRequestLine
    | InvalidRequestLine
    | BodyTimedOut
    | BodyFailed

  datatype HttpResult =
    | Request(verb: Bytes, path: Bytes, headers: map<Bytes, Bytes>, body: Bytes)
    | Refused(error: HttpError)

  function HeadError(end: Ending): HttpError {
    if end == TimedOut then HeadTimedOut else HeadFailed
  }

  function BodyError(end: Ending): HttpError {
    if end == TimedOut then BodyTimedOut else BodyFailed
  }

  // ------------------------------------------------------------------- the end of the head

  predicate BreakAt(s: Bytes, k: int) {
    0 <= k && k + 3 < |s| && s[k] == CR && s[k + 1] == LF && s[k + 2] == CR && s[k + 3] == LF
  }

  predicate BlankAt(s: Bytes, k: int) {
    0 <= k && k + 1 < |s| && s[k] == LF && s[k + 1] == LF
  }

  /** find of CR LF CR LF. */
  function FirstBreak(s: Bytes, start: nat): (r: Option<nat>)
    requires start <= |s|
    ensures r.Some? ==> start <= r.value && BreakAt(s, r.value) && forall j :: start <= j < r.value ==> !BreakAt(s, j)
    ensures r.None? ==> forall j :: start <= j ==> !BreakAt(s, j)
    decreases |s| - start
  {
    if start == |s| then None
    else if BreakAt(s, start) then Some(start)
    else FirstBreak(s, start + 1)
  }

  /** find of LF LF. */
  function FirstBlank(s: Bytes, start: nat): (r: Option<nat>)
    requires start <= |s|
    ensures r.Some? ==> start <= r.value && BlankAt(s, r.value) && forall j :: start <= j < r.value ==> !BlankAt(s, j)
    ensures r.None? ==> forall j :: start <= j ==> !BlankAt(s, j)
    decreases |s| - start
  {
    if start == |s| then None
    else if BlankAt(s, start) then Some(start)
    else FirstBlank(s, start + 1)
  }

  /** The first CR LF CR LF; only without one, the first LF LF. */
  function HeadEnd(s: Bytes): (r: Option<nat>)
    ensures r.Some? ==> BreakAt(s, r.value) || BlankAt(s, r.value)
  {
    if FirstBreak(s, 0).Some? then FirstBreak(s, 0) else FirstBlank(s, 0)
  }

  /** Where the body starts, for a head that ends at h. */
  function Stop(s: Bytes, h: nat): (k: nat)
    requires BreakAt(s, h) || BlankAt(s, h)
    ensures k <= |s|
  {
    if BreakAt(s, h) then h + 4 else h + 2
  }

  // ------------------------------------------------------------------- the head

  function DropBackSpace(s: Bytes): Bytes {
    if s != [] && IsSpace(s[|s| - 1]) then DropBackSpace(s[..|s| - 1]) else s
  }

  function Trim(s: Bytes): Bytes {
    DropBackSpace(SkipSpace(s))
  }

  method TrimText(value: Bytes) returns (r: Bytes)
    ensures r == Trim(value)
  {
    var start := 0;
    assert value[0..] == value;
    while start < |value| && IsSpace(value[start])
      invariant start <= |value| && SkipSpace(value[start..]) == SkipSpace(value)
    {
      assert value[start..][1..] == value[start + 1..];
      start := start + 1;
    }
    assert SkipSpace(value) == value[start..];
    var end := |value|;
    assert value[start..end] == value[start..];
    while end > start && IsSpace(value[end - 1])
      invariant start <= end <= |value| && DropBackSpace(value[start..end]) == Trim(value)
    {
      assert value[start..end][..end - start - 1] == value[start..end - 1];
      end := end - 1;
    }
    r := value[start..end];
  }

  /** Trimming removes exactly the white space at both ends. */
  lemma TrimIs(s: Bytes, before: Bytes, r: Bytes, after: Bytes)
    requires s == before + r + after && AllSpace(before) && AllSpace(after)
    requires r != [] ==> !IsSpace(r[0]) && !IsSpace(r[|r| - 1])
    ensures Trim(s) == r
  {
    assert s == before + (r + after);
    if r == [] {
      assert AllSpace(r + after);
      SkipAll(before + (r + after), []);
      assert before + (r + after) + [] == s;
    } else {
      SkipAll(before, r + after);
      DropAll(r, after);
    }
  }

  lemma {:induction false} DropAll(r: Bytes, a: Bytes)
    requires AllSpace(a) && r != [] && !IsSpace(r[|r| - 1])
    ensures DropBackSpace(r + a) == r
  {
    if a == [] {
      assert r + a == r;
    } else {
      DropAll(r, a[..|a| - 1]);
      assert (r + a)[..|r + a| - 1] == r + a[..|a| - 1];
    }
  }

  function LowerChar(c: byte): byte {
    if 'A' <= c <= 'Z' then (c as int + 32) as char else c
  }

  function Lower(s: Bytes): (r: Bytes)
    ensures |r| == |s| && forall i :: 0 <= i < |s| ==> r[i] == LowerChar(s[i])
  {
    if s == [] then [] else [LowerChar(s[0])] + Lower(s[1..])
  }

  function StripCr(line: Bytes): Bytes {
    if line != [] && line[|line| - 1] == CR then line[..|line| - 1] else line
  }

  function AddHeader(headers: map<Bytes, Bytes>, line: Bytes): map<Bytes, Bytes> {
    var text := StripCr(line);
    var colon := Find(text, ':');
    if colon == |text| then headers
    else headers[Lower(Trim(text[..colon])) := Trim(text[colon + 1..])]
  }

  /** Later header lines replace earlier ones with the same name. */
  function HeadersOf(lines: seq<Bytes>): map<Bytes, Bytes> {
    if lines == [] then map[] else AddHeader(HeadersOf(lines[..|lines| - 1]), lines[|lines| - 1])
  }

  /** The length of the word at the front. */
  function WordLength(s: Bytes): (k: nat)
    ensures k <= |s| && (k < |s| ==> IsSpace(s[k])) && forall i :: 0 <= i < k ==> !IsSpace(s[i])
  {
    if s == [] || IsSpace(s[0]) then 0 else 1 + WordLength(s[1..])
  }

  /** Extraction of one word: it fails when only white space is left. */
  function Word(s: Bytes): (r: Option<(Bytes, Bytes)>)
  {
    var t := SkipSpace(s);
    var k := WordLength(t);
    if k == 0 then None else Some((t[..k], t[k..]))
  }

  /** The first two of at least three words. */
  function RequestLine(line: Bytes): Option<(Bytes, Bytes)> {
    match Word(line)
    case None => None
    case Some((verb, rest)) =>
      match Word(rest)
      case None => None
      case Some((path, rest')) => if Word(rest').Some? then Some((verb, path)) else None
  }

  datatype Head = Head(verb: Bytes, path: Bytes, headers: map<Bytes, Bytes>) | Bad(error: HttpError)

  function HeadOf(block: Bytes): Head {
    if block == [] then Bad(MissingRequestLine)
    else
      var lines := LinesOf(block);
      match RequestLine(StripCr(lines[0]))
      case None => Bad(InvalidRequestLine)
      case Some((verb, path)) => Head(verb, path, HeadersOf(lines[1..]))
  }

  /** One header line. */
  method ParseHeaderLine(headers: map<Bytes, Bytes>, line: Bytes) returns (r: map<Bytes, Bytes>)
    ensures r == AddHeader(headers, line)
  {
    r := headers;
    var text := StripCr(line);
    var colon := Find(text, ':');
    if colon != |text| {
      var key := TrimText(text[..colon]);
      var value := TrimText(text[colon + 1..]);
      r := r[Lower(key) := value];
    }
  }

  lemma ChainLines(done: seq<Bytes>, line: Bytes, later: seq<Bytes>)
    ensures done + ([line] + later) == done + [line] + later
  {
  }

  lemma HeadersSnoc(done: seq<Bytes>, line: Bytes)
    ensures HeadersOf(done + [line]) == AddHeader(HeadersOf(done), line)
  {
    var all := done + [line];
    assert all != [] && all[..|all| - 1] == done && all[|all| - 1] == line;
  }

  method ParseHead(block: Bytes) returns (head: Head)
    ensures head == HeadOf(block)
  {
    if block == [] {
      return Bad(MissingRequestLine);
    }
    var words := RequestLine(StripCr(block[..Eol(block)]));
    if words.None? {
      return Bad(InvalidRequestLine);
    }
    var rest := AfterLine(block);
    var headers: map<Bytes, Bytes> := map[];
    ghost var lines := LinesOf(rest);
    ghost var done: seq<Bytes> := [];
    assert LinesOf(block)[1..] == lines;
    assert lines == done + lines;
    while rest != []
      invariant lines == done + LinesOf(rest) && headers == HeadersOf(done)
      decreases |rest|
    {
      var line := rest[..Eol(rest)];
      headers := ParseHeaderLine(headers, line);
      rest := AfterLine(rest);
      HeadersSnoc(done, line);
      ChainLines(done, line, LinesOf(rest));
      done := done + [line];
    }
    assert done + [] == done;
    return Head(words.value.0, words.value.1, headers);
  }

  const CONTENT_LENGTH: Bytes := "content-length"

  function ContentLength(headers: map<Bytes, Bytes>): nat {
    if CONTENT_LENGTH in headers then StrToUl(headers[CONTENT_LENGTH]) else 0
  }

  // ------------------------------------------------------------------- the reading loops

  datatype HeadRead = Found(raw: Bytes, rest: seq<Bytes>) | NoMore | Large

  function HeadLoop(raw: Bytes, chunks: seq<Bytes>): (r: HeadRead)
    ensures r.Found? ==> HeadEnd(r.raw).Some?
    decreases |chunks|
  {
    if HeadEnd(raw).Some? then Found(raw, chunks)
    else if chunks == [] then NoMore
    else if |raw + chunks[0]| > LIMIT then Large
    else HeadLoop(raw + chunks[0], chunks[1..])
  }

  function BodyLoop(body: Bytes, chunks: seq<Bytes>, need: nat): Option<Bytes>
    decreases |chunks|
  {
    if |body| >= need then Some(body[..need])
    else if chunks == [] then None
    else BodyLoop(body + chunks[0], chunks[1..], need)
  }

  /** How much body a head asks for. */
  function Need(head: Head): nat {
    if head.Head? then ContentLength(head.headers) else 0
  }

  /** The result for a head and the body read for it, if all of it came. */
  function Answer(head: Head, body: Option<Bytes>, end: Ending): HttpResult {
    match head
    case Bad(e) => Refused(e)
    case Head(verb, path, headers) =>
      if body.None? then Refused(BodyError(end)) else Request(verb, path, headers, body.value)
  }

  /** What the two loops and the parse between them return. */
  function ReadSpec(chunks: seq<Bytes>, end: Ending): HttpResult {
    match HeadLoop([], chunks)
    case NoMore => Refused(HeadError(end))
    case Large => Refused(TooLarge)
    case Found(raw, rest) =>
      var h := HeadEnd(raw).value;
      var head := HeadOf(raw[..h]);
      Answer(head, BodyLoop(raw[Stop(raw, h)..], rest, Need(head)), end)
  }

  method ReadHttpRequest(chunks: seq<Bytes>, end: Ending) returns (result: HttpResult)
    ensures result == ReadSpec(chunks, end)
  {
    var raw: Bytes := [];
    var left := chunks;
    var headerEnd := HeadEnd(raw);
    while headerEnd == None
      invariant headerEnd == HeadEnd(raw) && HeadLoop([], chunks) == HeadLoop(raw, left)
      decreases |left|, headerEnd == None
    {
      if left == [] {
        return Refused(if end == TimedOut then HeadTimedOut else HeadFailed);
      }
      var received := left[0];
      raw := raw + received;
      if |raw| > LIMIT {
        return Refused(TooLarge);
      }
      left := left[1..];
      headerEnd := HeadEnd(raw);
    }
    var head := ParseHead(raw[..headerEnd.value]);
    if head.Bad? {
      return Refused(head.error);
    }
    var need := ContentLength(head.headers);
    var body := raw[Stop(raw, headerEnd.value)..];
    ghost var rest := left;
    ghost var start := body;
    while |body| < need
      invariant BodyLoop(start, rest, need) == BodyLoop(body, left, need)
      decreases |left|
    {
      if left == [] {
        return Refused(if end == TimedOut then BodyTimedOut else BodyFailed);
      }
      body := body + left[0];
      left := left[1..];
    }
    if |body| > need {
      body := body[..need];
    }
    return Request(head.verb, head.path, head.headers, body);
  }

  // ------------------------------------------------------------- independence of the chunks

  function Concat(chunks: seq<Bytes>): Bytes {
    if chunks == [] then [] else chunks[0] + Concat(chunks[1..])
  }

  /** The stream cut into reads: none empty, none larger than the buffer. */
  predicate Chunking(chunks: seq<Bytes>, stream: Bytes) {
    Concat(chunks) == stream && forall i :: 0 <= i < |chunks| ==> 0 < |chunks[i]| <= BUFFER
  }

  /** Where the head ends when no read can jump over a blank line: at the first of the two
      separators. */
  function Split(s: Bytes): Option<nat> {
    match (FirstBreak(s, 0), FirstBlank(s, 0))
    case (Some(q), Some(p)) => Some(if p < q then p else q)
    case (Some(q), None) => Some(q)
    case (None, p) => p
  }

  /** A blank line early enough before the first CR LF CR LF for one read to bring both. */
  predicate Ambiguous(s: Bytes) {
    match (FirstBreak(s, 0), FirstBlank(s, 0))
    case (Some(q), Some(p)) => p < q && q + 3 - p <= BUFFER
    case _ => false
  }

  /** What the head loop can see of a stream after its first n bytes. */
  lemma HeadEndOfPrefix(s: Bytes, n: nat)
    requires n <= |s|
    ensures var q, p := FirstBreak(s, 0), FirstBlank(s, 0);
      HeadEnd(s[..n]) == if q.Some? && q.value + 4 <= n then q
                         else if p.Some? && p.value + 2 <= n then p
                         else None
  {
    var t := s[..n];
    BreakOfPrefix(s, n);
    BlankOfPrefix(s, n);
  }

  lemma BreakOfPrefix(s: Bytes, n: nat)
    requires n <= |s|
    ensures var q := FirstBreak(s, 0);
      FirstBreak(s[..n], 0) == if q.Some? && q.value + 4 <= n then q else None
  {
    var t := s[..n];
    assert forall k :: BreakAt(t, k) <==> BreakAt(s, k) && k + 3 < n;
  }

  lemma BlankOfPrefix(s: Bytes, n: nat)
    requires n <= |s|
    ensures var p := FirstBlank(s, 0);
      FirstBlank(s[..n], 0) == if p.Some? && p.value + 2 <= n then p else None
  {
    var t := s[..n];
    assert forall k :: BlankAt(t, k) <==> BlankAt(s, k) && k + 1 < n;
  }

  /** Without a blank line before the first CR LF CR LF, the split is where the head loop's own search
      puts it in the whole stream. */
  lemma CleanSplit(s: Bytes)
    requires var q, p := FirstBreak(s, 0), FirstBlank(s, 0); q.Some? && p.Some? ==> q.value < p.value
    ensures !Ambiguous(s) && Split(s) == HeadEnd(s)
  {
  }

  /** A blank line is not part of a CR LF CR LF. */
  lemma Apart(s: Bytes, p: nat, q: nat)
    requires BlankAt(s, p) && BreakAt(s, q)
    ensures p + 2 <= q + 1 || q + 3 <= p
  {
  }

  /** The separator that ends a head seen in the first n bytes lies in them. */
  lemma SplitInPrefix(s: Bytes, n: nat)
    requires n <= |s| && HeadEnd(s[..n]).Some?
    ensures Split(s).Some? && Stop(s, Split(s).value) <= n
  {
    HeadEndOfPrefix(s, n);
    var q, p := FirstBreak(s, 0), FirstBlank(s, 0);
    if q.Some? && p.Some? {
      assert p.value != q.value && p.value != q.value + 1;
    }
  }

  /** Whatever the reads, the head loop ends at one of the two separators or at the limit; it takes the first of
      them unless one read can bring both. */
  lemma {:induction false} HeadLoopSplits(stream: Bytes, raw: Bytes, chunks: seq<Bytes>)
    requires raw + Concat(chunks) == stream && Chunking(chunks, Concat(chunks))
    requires |raw| <= LIMIT && HeadEnd(raw).None?
    ensures var r := HeadLoop(raw, chunks);
      && (r.NoMore? ==> Split(stream).None? && |stream| <= LIMIT)
      && (r.Large? ==> |stream| > LIMIT)
      && (r.Large? && Split(stream).Some? ==> Stop(stream, Split(stream).value) > LIMIT - BUFFER + 1)
      && (r.Found? ==> Split(stream).Some? && Stop(stream, Split(stream).value) <= |r.raw| <= LIMIT)
      && (r.Found? ==> HeadEnd(r.raw) == FirstBreak(stream, 0) || HeadEnd(r.raw) == FirstBlank(stream, 0))
      && (r.Found? && !Ambiguous(stream) ==> HeadEnd(r.raw) == Split(stream))
      && (r.Found? ==> r.raw + Concat(r.rest) == stream)
    decreases |chunks|
  {
    assert raw == stream[..|raw|];
    HeadEndOfPrefix(stream, |raw|);
    if chunks == [] {
      assert stream[..|raw|] == stream;
    } else {
      var next := raw + chunks[0];
      assert next + Concat(chunks[1..]) == stream;
      assert next == stream[..|next|];
      HeadEndOfPrefix(stream, |next|);
      if |next| <= LIMIT && HeadEnd(next).None? {
        assert Chunking(chunks[1..], Concat(chunks[1..]));
        HeadLoopSplits(stream, next, chunks[1..]);
      } else if HeadEnd(next).Some? {
        SplitInPrefix(stream, |next|);
      }
    }
  }

  /** The head, if there is one, is complete early enough for no read to pass the limit first. */
  predicate Fits(s: Bytes) {
    |s| <= LIMIT || (Split(s).Some? ==> Stop(s, Split(s).value) <= LIMIT - BUFFER + 1)
  }

  /** The streams in which every cutting finds the same head: there is none, or none within the limit, or one read
      can neither bring both separators nor pass the limit before the first is seen. */
  predicate Determined(s: Bytes) {
    Split(s).None? || Stop(s, Split(s).value) > LIMIT || (!Ambiguous(s) && Fits(s))
  }

  /** The first n bytes, if there are so many. */
  function Take(s: Bytes, n: nat): Option<Bytes> {
    if |s| < n then None else Some(s[..n])
  }

  /** The stream parsed at once, for a head that ends at h. */
  function ParseAt(s: Bytes, h: nat, end: Ending): HttpResult
    requires BreakAt(s, h) || BlankAt(s, h)
  {
    var head := HeadOf(s[..h]);
    Answer(head, Take(s[Stop(s, h)..], Need(head)), end)
  }

  /** The whole stream parsed at once. */
  function OneShot(s: Bytes, end: Ending): HttpResult {
    match Split(s)
    case None => Refused(if |s| > LIMIT then TooLarge else HeadError(end))
    case Some(h) => if Stop(s, h) > LIMIT then Refused(TooLarge) else ParseAt(s, h, end)
  }

  lemma {:induction false} BodyLoopTakes(body: Bytes, chunks: seq<Bytes>, need: nat)
    ensures BodyLoop(body, chunks, need) == Take(body + Concat(chunks), need)
    decreases |chunks|
  {
    var all := body + Concat(chunks);
    if |body| >= need {
      assert all[..need] == body[..need];
    } else if chunks == [] {
      assert all == body;
    } else {
      BodyLoopTakes(body + chunks[0], chunks[1..], need);
      assert body + chunks[0] + Concat(chunks[1..]) == all;
    }
  }

  /** Where a run of the head loop puts the end of the head. */
  function SplitOf(chunks: seq<Bytes>): Option<nat> {
    match HeadLoop([], chunks)
    case Found(raw, _) => HeadEnd(raw)
    case _ => None
  }

  /** A cut of the stream into head and body at either separator. */
  predicate CutsAt(s: Bytes, h: nat) {
    (BreakAt(s, h) || BlankAt(s, h)) && (FirstBreak(s, 0) == Some(h) || FirstBlank(s, 0) == Some(h))
  }

  /** In every stream and for every cutting, a head that is found ends at the first CR LF CR LF or the first
      blank line of the stream, and the result is that of the stream parsed at once with that head. */
  lemma ReadParsesAtSplit(stream: Bytes, chunks: seq<Bytes>, end: Ending)
    requires Chunking(chunks, stream)
    ensures SplitOf(chunks).Some? ==>
      CutsAt(stream, SplitOf(chunks).value) && ReadSpec(chunks, end) == ParseAt(stream, SplitOf(chunks).value, end)
    ensures SplitOf(chunks).None? ==>
      ReadSpec(chunks, end) == Refused(if |stream| > LIMIT then TooLarge else HeadError(end))
  {
    assert [] + Concat(chunks) == stream;
    HeadLoopSplits(stream, [], chunks);
    match HeadLoop([], chunks)
    case NoMore =>
    case Large =>
    case Found(raw, rest) =>
      var h := HeadEnd(raw).value;
      FoundHead(stream, raw, rest, h);
      BodyLoopTakes(raw[Stop(raw, h)..], rest, Need(HeadOf(raw[..h])));
  }

  lemma FoundHead(stream: Bytes, raw: Bytes, rest: seq<Bytes>, h: nat)
    requires raw + Concat(rest) == stream && HeadEnd(raw) == Some(h)
    ensures BreakAt(stream, h) || BlankAt(stream, h)
    ensures Stop(raw, h) == Stop(stream, h) && raw[..h] == stream[..h]
    ensures raw[Stop(raw, h)..] + Concat(rest) == stream[Stop(stream, h)..]
  {
  }

  /** For a determined stream the request does not depend on how the stream was cut into reads. */
  lemma ReadIsOneShot(stream: Bytes, chunks: seq<Bytes>, end: Ending)
    requires Chunking(chunks, stream) && Determined(stream)
    ensures ReadSpec(chunks, end) == OneShot(stream, end)
  {
    ReadParsesAtSplit(stream, chunks, end);
    DeterminedSplit(stream, chunks);
  }

  /** The body is the first Content-Length bytes after the head, in every stream and for every cutting. */
  lemma BodyIsContentLength(stream: Bytes, chunks: seq<Bytes>, end: Ending)
    requires Chunking(chunks, stream) && ReadSpec(chunks, end).Request?
    ensures SplitOf(chunks).Some? && CutsAt(stream, SplitOf(chunks).value)
    ensures var r, h := ReadSpec(chunks, end), SplitOf(chunks).value;
      && HeadOf(stream[..h]) == Head(r.verb, r.path, r.headers)
      && |r.body| == ContentLength(r.headers)
      && r.body <= stream[Stop(stream, h)..]
  {
    ReadParsesAtSplit(stream, chunks, end);
  }

  /** Cutting into full buffers. */
  function Pieces(s: Bytes): (r: seq<Bytes>)
    ensures Chunking(r, s)
    decreases |s|
  {
    if s == [] then []
    else if |s| <= BUFFER then
      assert s + [] == s;
      [s]
    else
      assert s[..BUFFER] + s[BUFFER..] == s;
      [s[..BUFFER]] + Pieces(s[BUFFER..])
  }

  lemma {:induction false} ConcatAppend(a: seq<Bytes>, b: seq<Bytes>)
    ensures Concat(a + b) == Concat(a) + Concat(b)
  {
    if a == [] {
      assert a + b == b;
    } else {
      ConcatAppend(a[1..], b);
      assert (a + b)[1..] == a[1..] + b;
    }
  }

  /** The chunks before the head is complete are just collected. */
  lemma {:induction false} HeadLoopCollects(raw: Bytes, a: seq<Bytes>, b: seq<Bytes>, s: Bytes)
    requires s == raw + Concat(a) && |s| <= LIMIT && HeadEnd(s).None?
    ensures HeadLoop(raw, a + b) == HeadLoop(s, b)
    decreases |a|
  {
    HeadEndOfPrefix(s, |raw|);
    HeadEndOfPrefix(s, |s|);
    assert s[..|raw|] == raw && s[..|s|] == s;
    if a == [] {
      assert a + b == b;
    } else {
      assert (a + b)[1..] == a[1..] + b;
      assert raw + a[0] + Concat(a[1..]) == s;
      HeadLoopCollects(raw + a[0], a[1..], b, s);
    }
  }

  /** The stream read up to n, then in one read up to m. */
  function Jump(s: Bytes, n: nat, m: nat): (chunks: seq<Bytes>)
    requires n < m <= |s| && m - n <= BUFFER
    ensures Chunking(chunks, s)
  {
    var a, b, c := Pieces(s[..n]), [s[n..m]], Pieces(s[m..]);
    ConcatAppend(a, b + c);
    assert (b + c)[1..] == c;
    assert s[..n] + (s[n..m] + s[m..]) == s;
    a + (b + c)
  }

  lemma OneRead(raw: Bytes, chunk: Bytes, rest: seq<Bytes>)
    requires HeadEnd(raw).None?
    ensures HeadLoop(raw, [chunk] + rest) ==
      if |raw + chunk| > LIMIT then Large
      else if HeadEnd(raw + chunk).Some? then Found(raw + chunk, rest)
      else HeadLoop(raw + chunk, rest)
  {
    assert ([chunk] + rest)[1..] == rest;
  }

  lemma JumpSplits(s: Bytes, n: nat, m: nat)
    requires n < m <= |s| && m - n <= BUFFER && n <= LIMIT && HeadEnd(s[..n]).None?
    ensures m > LIMIT ==> SplitOf(Jump(s, n, m)).None?
    ensures m <= LIMIT && HeadEnd(s[..m]).Some? ==> SplitOf(Jump(s, n, m)) == HeadEnd(s[..m])
  {
    var a, b, c := Pieces(s[..n]), [s[n..m]], Pieces(s[m..]);
    assert [] + s[..n] == s[..n];
    HeadLoopCollects([], a, b + c, s[..n]);
    OneRead(s[..n], s[n..m], c);
    assert s[..n] + s[n..m] == s[..m];
  }

  lemma DeterminedSplit(stream: Bytes, chunks: seq<Bytes>)
    requires Determined(stream) && Chunking(chunks, stream)
    ensures SplitOf(chunks) ==
      if Split(stream).Some? && Stop(stream, Split(stream).value) <= LIMIT then Split(stream) else None
  {
    assert [] + Concat(chunks) == stream;
    HeadLoopSplits(stream, [], chunks);
  }

  /** A reader that sees the first separator as soon as it is complete. */
  lemma EarlyCut(stream: Bytes) returns (a: seq<Bytes>)
    requires Split(stream).Some? && Stop(stream, Split(stream).value) <= LIMIT
    ensures Chunking(a, stream) && SplitOf(a) == Split(stream)
    ensures HeadEnd(stream[..Stop(stream, Split(stream).value) - 1]).None?
  {
    var e := Stop(stream, Split(stream).value);
    HeadEndOfPrefix(stream, e - 1);
    HeadEndOfPrefix(stream, e);
    SeparatorsApart(stream);
    a := Jump(stream, e - 1, e);
    JumpSplits(stream, e - 1, e);
  }

  lemma SeparatorsApart(s: Bytes)
    ensures var q, p := FirstBreak(s, 0), FirstBlank(s, 0);
      q.Some? && p.Some? ==> p.value + 2 <= q.value + 1 || q.value + 3 <= p.value
  {
    var q, p := FirstBreak(s, 0), FirstBlank(s, 0);
    if q.Some? && p.Some? {
      Apart(s, p.value, q.value);
    }
  }

  /** An ambiguous stream splits at its blank line; with its CR LF CR LF in sight the head ends there. */
  lemma BothSeen(stream: Bytes, q: nat)
    requires Ambiguous(stream) && FirstBreak(stream, 0) == Some(q)
    ensures Split(stream) == FirstBlank(stream, 0) && Split(stream).value < q && q + 4 <= |stream|
    ensures Stop(stream, Split(stream).value) == Split(stream).value + 2
    ensures HeadEnd(stream[..q + 4]) == Some(q)
  {
    HeadEndOfPrefix(stream, q + 4);
  }

  /** A read that brings both separators takes the second. */
  lemma LateCut(stream: Bytes) returns (b: seq<Bytes>)
    requires Ambiguous(stream) && FirstBreak(stream, 0).value + 4 <= LIMIT
    requires HeadEnd(stream[..Stop(stream, Split(stream).value) - 1]).None?
    ensures Chunking(b, stream) && SplitOf(b) == FirstBreak(stream, 0) != Split(stream)
  {
    var e := Stop(stream, Split(stream).value);
    var q := FirstBreak(stream, 0).value;
    BothSeen(stream, q);
    b := Jump(stream, e - 1, q + 4);
    JumpSplits(stream, e - 1, q + 4);
  }

  /** A stream whose head does not fit can be cut so that it is refused for its size. */
  lemma LimitCut(stream: Bytes, end: Ending) returns (b: seq<Bytes>)
    requires !Fits(stream)
    ensures Chunking(b, stream) && SplitOf(b).None? && ReadSpec(b, end) == Refused(TooLarge)
  {
    var e := Stop(stream, Split(stream).value);
    if e <= LIMIT {
      var a := EarlyCut(stream);
      b := Jump(stream, e - 1, LIMIT + 1);
      JumpSplits(stream, e - 1, LIMIT + 1);
    } else {
      b := Pieces(stream);
      DeterminedSplit(stream, b);
    }
    ReadParsesAtSplit(stream, b, end);
  }

  /** A stream that is not determined has two cuttings with different heads: one that sees the first separator as
      soon as it is complete, and one whose read there brings too much. */
  lemma TwoSplits(stream: Bytes) returns (a: seq<Bytes>, b: seq<Bytes>)
    requires !Determined(stream)
    ensures Chunking(a, stream) && Chunking(b, stream) && SplitOf(a) != SplitOf(b)
  {
    a := EarlyCut(stream);
    if Fits(stream) {
      b := LateCut(stream);
    } else {
      b := LimitCut(stream, Closed);
    }
  }

  /** The place of the split is the same for all cuttings if and only if the stream is determined. */
  lemma SplitIsDetermined(stream: Bytes)
    ensures (forall a, b :: Chunking(a, stream) && Chunking(b, stream) ==> SplitOf(a) == SplitOf(b)) <==>
      Determined(stream)
  {
    if Determined(stream) {
      forall a, b | Chunking(a, stream) && Chunking(b, stream) ensures SplitOf(a) == SplitOf(b) {
        DeterminedSplit(stream, a);
        DeterminedSplit(stream, b);
      }
    } else {
      var a, b := TwoSplits(stream);
    }
  }

  /** A stream of seven bytes that is read in two ways. */
  lemma SomeStreamIsNotDetermined()
    ensures exists stream, a, b :: Chunking(a, stream) && Chunking(b, stream) && SplitOf(a) != SplitOf(b)
  {
    var stream: Bytes := ['a', LF, LF, CR, LF, CR, LF];
    assert BlankAt(stream, 1) && BreakAt(stream, 3) && !BlankAt(stream, 0);
    assert FirstBlank(stream, 0) == Some(1);
    assert FirstBreak(stream, 0) == Some(3);
    assert Ambiguous(stream);
    var a, b := TwoSplits(stream);
  }
}
