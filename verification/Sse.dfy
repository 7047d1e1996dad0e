/**
  The summary stream: the server's event framing, the client script's decoder, and the proof
  that the decoder undoes the framing, whatever part of the stream reaches it.
 */
module Sse {
  import opened Bytes
  import opened Lines
  import opened Spaces

  const RETRY: Bytes := "retry: 1000\n\n"
  const KEEP_ALIVE: Bytes := ": keep-alive\n\n"
  const EVENT: Bytes := "event:"
  const DATA: Bytes := "data:"
  const SUMMARY: Bytes := "summary"
  const MESSAGE: Bytes := "message"

  // ------------------------------------------------------------------- the server

  /** What the kernel answers to one write. */
  datatype WriteResult = Wrote(n: nat) | Interrupted | Broken

  /** A client connection. Its kernel answers the writes in turn; with no answer left it is gone. */
  class Connection {
    var sent: Bytes
    var kernel: seq<WriteResult>

    constructor (kernel: seq<WriteResult>)
      ensures sent == [] && this.kernel == kernel
    {
      this.sent := [];
      this.kernel := kernel;
    }

    /** Partial and interrupted writes are resumed; a failure leaves a proper prefix sent and comes
        only from a write that failed or wrote nothing. */
    method WriteAll(data: Bytes) returns (ok: bool)
      modifies this
      ensures ok ==> sent == old(sent) + data
      ensures !ok ==> exists k :: 0 <= k < |data| && sent == old(sent) + data[..k]
      ensures |kernel| <= |old(kernel)| && kernel == old(kernel)[|old(kernel)| - |kernel|..]
      ensures !ok && kernel != old(kernel) && kernel != [] ==>
        old(kernel)[|old(kernel)| - |kernel| - 1] in {Broken, Wrote(0)}
      ensures !ok && kernel == old(kernel) ==> kernel == []
    {
      var written := 0;
      while written < |data|
        invariant 0 <= written <= |data| && sent == old(sent) + data[..written]
        invariant |kernel| <= |old(kernel)| && kernel == old(kernel)[|old(kernel)| - |kernel|..]
        decreases |kernel|
      {
        if kernel == [] {
          return false;
        }
        var rc := kernel[0];
        kernel := kernel[1..];
        match rc
        case Interrupted =>
        case Broken =>
          return false;
        case Wrote(n) =>
          if n == 0 {
            return false;
          }
          var took := if n <= |data| - written then n else |data| - written;
          sent := sent + data[written..written + took];
          assert data[..written + took] == data[..written] + data[written..written + took];
          written := written + took;
      }
      assert data[..written] == data;
      return true;
    }
  }

  function DataLines(data: Bytes): Bytes
    decreases |data|
  {
    if data == [] then []
    else
      var k := Eol(data);
      DATA + [' '] + data[..k] + [LF] + DataLines(data[if k < |data| then k + 1 else k..])
  }

  function EventText(name: Bytes, data: Bytes): Bytes {
    (if name == [] then [] else EVENT + [' '] + name + [LF])
    + (if data == [] then DATA + [LF, LF] else DataLines(data) + [LF])
  }

  /** The getline loop: one data line for every line of the text. */
  method FormatLines(data: Bytes) returns (out: Bytes)
    ensures out == DataLines(data)
  {
    out := [];
    var rest := data;
    while rest != []
      invariant out + DataLines(rest) == DataLines(data)
      decreases |rest|
    {
      var k := Eol(rest);
      var text := DATA + [' '] + rest[..k] + [LF];
      rest := rest[if k < |rest| then k + 1 else k..];
      Chain(out, text, DataLines(rest));
      out := out + text;
    }
    assert out + [] == out;
  }

  method WriteSseEvent(conn: Connection, name: Bytes, data: Bytes) returns (ok: bool)
    modifies conn
    ensures ok ==> conn.sent == old(conn.sent) + EventText(name, data)
    ensures !ok ==> exists k :: 0 <= k < |EventText(name, data)| &&
                                conn.sent == old(conn.sent) + EventText(name, data)[..k]
  {
    var out: Bytes := [];
    if name != [] {
      out := EVENT + [' '] + name + [LF];
    }
    if data == [] {
      out := out + (DATA + [LF, LF]);
      assert out == EventText(name, data);
      ok := conn.WriteAll(out);
      return;
    }
    var lines := FormatLines(data);
    out := out + (lines + [LF]);
    assert out == EventText(name, data);
    ok := conn.WriteAll(out);
  }

  lemma Chain(a: Bytes, b: Bytes, c: Bytes)
    ensures a + b + c == a + (b + c)
  {
  }

  /** One turn of the stream loop: the summary read, and whether two quiet seconds have passed. */
  datatype Poll = Poll(summary: Bytes, quiet: bool)

  function Frame(p: Poll, last: Bytes): Bytes {
    if p.summary != last then EventText(SUMMARY, p.summary)
    else if p.quiet then KEEP_ALIVE
    else []
  }

  function Frames(polls: seq<Poll>, last: Bytes): Bytes {
    if polls == [] then [] else Frame(polls[0], last) + Frames(polls[1..], polls[0].summary)
  }

  function StreamBytes(polls: seq<Poll>): Bytes {
    RETRY + Frames(polls, [])
  }

  lemma PrefixOf(a: Bytes, b: Bytes, c: Bytes, k: nat)
    requires k <= |b|
    ensures a + b[..k] <= a + (b + c)
  {
    assert a + (b + c) == a + b[..k] + (b[k..] + c);
  }

  /** One turn of the stream loop. */
  method SendPoll(conn: Connection, p: Poll, last: Bytes) returns (ok: bool)
    modifies conn
    ensures ok ==> conn.sent == old(conn.sent) + Frame(p, last)
    ensures !ok ==> exists k :: 0 <= k < |Frame(p, last)| && conn.sent == old(conn.sent) + Frame(p, last)[..k]
  {
    ghost var frame := Frame(p, last);
    ghost var before := conn.sent;
    if p.summary != last {
      ok := WriteSseEvent(conn, SUMMARY, p.summary);
      assert frame == EventText(SUMMARY, p.summary);
    } else if p.quiet {
      ok := conn.WriteAll(KEEP_ALIVE);
      assert frame == KEEP_ALIVE;
    } else {
      assert before + [] == before;
      ok := true;
    }
    if !ok {
      ghost var k :| 0 <= k < |frame| && conn.sent == before + frame[..k];
    }
  }

  /** The stream loop, for as many turns as there are polls, or until a write fails. */
  method StreamLoop(conn: Connection, polls: seq<Poll>, ghost whole: Bytes) returns (ok: bool)
    requires conn.sent + Frames(polls, []) == whole
    modifies conn
    ensures ok ==> conn.sent == whole
    ensures conn.sent <= whole
  {
    var last: Bytes := [];
    var i := 0;
    assert polls[0..] == polls;
    while i < |polls|
      invariant 0 <= i <= |polls| && conn.sent + Frames(polls[i..], last) == whole
    {
      ghost var before := conn.sent;
      ghost var frame := Frame(polls[i], last);
      ghost var later := Frames(polls[i + 1..], polls[i].summary);
      assert polls[i..][1..] == polls[i + 1..];
      assert whole == before + (frame + later);
      ok := SendPoll(conn, polls[i], last);
      if !ok {
        ghost var k :| 0 <= k < |frame| && conn.sent == before + frame[..k];
        PrefixOf(before, frame, later, k);
        return;
      }
      Chain(before, frame, later);
      last := polls[i].summary;
      i := i + 1;
    }
    assert conn.sent + [] == conn.sent;
    ok := true;
  }

  method StreamSummaries(conn: Connection, polls: seq<Poll>) returns (ok: bool)
    requires conn.sent == []
    modifies conn
    ensures ok ==> conn.sent == StreamBytes(polls)
    ensures conn.sent <= StreamBytes(polls)
  {
    ok := conn.WriteAll(RETRY);
    RetryFirst(conn.sent, polls);
    if ok {
      ok := StreamLoop(conn, polls, StreamBytes(polls));
    }
  }

  lemma RetryFirst(sent: Bytes, polls: seq<Poll>)
    ensures sent == [] + RETRY ==> sent + Frames(polls, []) == StreamBytes(polls)
    ensures forall k :: 0 <= k < |RETRY| && sent == [] + RETRY[..k] ==> sent <= StreamBytes(polls)
  {
    assert [] + RETRY == RETRY;
    forall k | 0 <= k < |RETRY| && sent == [] + RETRY[..k] ensures sent <= StreamBytes(polls) {
      assert sent == RETRY[..k] == StreamBytes(polls)[..k];
    }
  }

  // ------------------------------------------------------------------- the client

  /** rstrip with the line-end characters. */
  function Chomp(s: Bytes): Bytes {
    if s != [] && s[|s| - 1] in {CR, LF} then Chomp(s[..|s| - 1]) else s
  }

  /** The data lines joined by line feeds; what json.loads receives. */
  function JoinLines(lines: seq<Bytes>): Bytes {
    if lines == [] then [] else if |lines| == 1 then lines[0] else lines[0] + [LF] + JoinLines(lines[1..])
  }

  datatype Event = Event(name: Bytes, data: Bytes)

  datatype Reader = Reader(name: Bytes, data: seq<Bytes>)

  const START := Reader([], [])

  /** What one line does to the decoder. */
  function Step(r: Reader, line: Bytes): (Reader, seq<Event>) {
    if line == [] then
      if r.data == [] then (Reader([], r.data), [])
      else (START, [Event(if r.name == [] then MESSAGE else r.name, JoinLines(r.data))])
    else if line[0] == ':' then (r, [])
    else if EVENT <= line then (r.(name := RStrip(LStrip(line[|EVENT|..]))), [])
    else if DATA <= line then (r.(data := r.data + [LStrip(line[|DATA|..])]), [])
    else (r, [])
  }

  function LineEnd(s: Bytes): (k: nat)
    requires s != []
    ensures 0 < k <= |s|
  {
    var k := Eol(s);
    if k < |s| then k + 1 else k
  }

  predicate Decodes(s: Bytes) {
    Utf8.Decode(s).Some?
  }

  /** Every event the decoder reports on a stream; it stops at a line that is not UTF-8. */
  function Events(s: Bytes, r: Reader): seq<Event>
    decreases |s|
  {
    if s == [] then []
    else
      var k := LineEnd(s);
      if !Decodes(s[..k]) then []
      else
        var (r', out) := Step(r, Chomp(s[..k]));
        out + Events(s[k..], r')
  }

  function Least(a: nat, b: nat): nat {
    if a <= b then a else b
  }

  /** The body of the client script's loop, for one line. */
  method ReadEventLine(name: Bytes, data: seq<Bytes>, line: Bytes)
    returns (name': Bytes, data': seq<Bytes>, out: seq<Event>)
    ensures (Reader(name', data'), out) == Step(Reader(name, data), line)
    ensures |out| <= 1
  {
    name', data', out := name, data, [];
    if line == [] {
      name', data' := [], [];
      if data != [] {
        out := [Event(if name == [] then MESSAGE else name, JoinLines(data))];
      }
    } else if line[0] == ':' {
    } else if EVENT <= line {
      name' := RStrip(LStrip(line[|EVENT|..]));
    } else if DATA <= line {
      data' := data + [LStrip(line[|DATA|..])];
    }
  }

  lemma EventsUnfold(s: Bytes, r: Reader)
    ensures s == [] ==> Events(s, r) == []
    ensures s != [] && !Decodes(s[..LineEnd(s)]) ==> Events(s, r) == []
    ensures s != [] && Decodes(s[..LineEnd(s)]) ==>
      var st := Step(r, Chomp(s[..LineEnd(s)]));
      Events(s, r) == st.1 + Events(s[LineEnd(s)..], st.0)
  {
  }

  /** The client script's loop; `raised` says that it ended with an error. */
  method StreamSummaryEvents(stream: Bytes, stopAfter: nat) returns (seen: seq<Event>, raised: bool)
    ensures var all := Events(stream, START);
      && seen == all[..Least(stopAfter, |all|)]
      && (raised <==> |all| < stopAfter)
  {
    seen := [];
    var name: Bytes := [];
    var data: seq<Bytes> := [];
    var rest := stream;
    ghost var left := Events(rest, START);
    assert seen + left == left;
    while |seen| < stopAfter
      invariant |seen| <= stopAfter
      invariant left == Events(rest, Reader(name, data)) && Events(stream, START) == seen + left
      decreases |rest|
    {
      EventsUnfold(rest, Reader(name, data));
      if rest == [] {
        return seen, true;
      }
      var k := LineEnd(rest);
      var raw := rest[..k];
      if !Decodes(raw) {
        return seen, true;
      }
      var out;
      name, data, out := ReadEventLine(name, data, Chomp(raw));
      rest := rest[k..];
      left := Events(rest, Reader(name, data));
      ChainEvents(seen, out, left);
      seen := seen + out;
    }
    raised := false;
  }

  lemma ChainEvents(a: seq<Event>, b: seq<Event>, c: seq<Event>)
    ensures a + b + c == a + (b + c)
  {
  }

  // ------------------------------------------------------------------- the proof

  /** What the server's summaries look like: one line that starts with a brace and has no
      control byte. */
  predicate SummaryLine(s: Bytes) {
    s != [] && s[0] == '{' && forall i :: 0 <= i < |s| ==> ' ' <= s[i]
  }

  /** Runs of equal neighbours collapsed to one. */
  function Distinct(xs: seq<Bytes>): seq<Bytes> {
    if |xs| < 2 then xs
    else if xs[0] == xs[1] then Distinct(xs[1..])
    else [xs[0]] + Distinct(xs[1..])
  }

  function Texts(polls: seq<Poll>): (r: seq<Bytes>)
    ensures |r| == |polls| && forall i :: 0 <= i < |r| ==> r[i] == polls[i].summary
  {
    seq(|polls|, i requires 0 <= i < |polls| => polls[i].summary)
  }

  /** The summaries before the first that is not UTF-8. */
  function Readable(xs: seq<Bytes>): seq<Bytes> {
    if xs == [] || !Decodes(xs[0]) then [] else [xs[0]] + Readable(xs[1..])
  }

  function SummaryEvents(xs: seq<Bytes>): (r: seq<Event>)
    ensures |r| == |xs| && forall i :: 0 <= i < |r| ==> r[i] == Event(SUMMARY, xs[i])
  {
    seq(|xs|, i requires 0 <= i < |xs| => Event(SUMMARY, xs[i]))
  }

  predicate Ascii(s: Bytes) {
    forall i :: 0 <= i < |s| ==> s[i] as int < 0x80
  }

  /** ASCII bytes at either end of a text do not matter to its being UTF-8. */
  lemma {:induction false} AsciiBefore(a: Bytes, s: Bytes)
    requires Ascii(a)
    ensures Decodes(a + s) <==> Decodes(s)
  {
    if a == [] {
      assert a + s == s;
    } else {
      AsciiBefore(a[1..], s);
      assert (a + s)[1..] == a[1..] + s;
      assert Utf8.DecodeOne(a + s) == Some((a[0] as int, (a + s)[1..]));
    }
  }

  lemma {:induction false} LfAfter(s: Bytes)
    ensures Decodes(s + [LF]) <==> Decodes(s)
    decreases |s|
  {
    var t := s + [LF];
    if s == [] {
      AsciiBefore([LF], []);
      assert [LF] + [] == t;
    } else {
      Utf8.DecodeOneBefore(s, [LF]);
      if Utf8.DecodeOne(s).Some? {
        LfAfter(Utf8.DecodeOne(s).value.1);
      }
    }
  }

  /** One whole line is read as one step of the decoder. */
  lemma LineReads(line: Bytes, rest: Bytes, r: Reader)
    requires NoLf(line) && (line == [] || line[|line| - 1] != CR)
    ensures Events(line + [LF] + rest, r)
         == if Decodes(line) then Step(r, line).1 + Events(rest, Step(r, line).0) else []
  {
    var s := line + [LF] + rest;
    EolIs(line, rest);
    var k := LineEnd(s);
    assert s[..k] == line + [LF] && s[k..] == rest;
    LfAfter(line);
    ChompLine(line);
    EventsUnfold(s, r);
  }

  lemma ChompLine(line: Bytes)
    requires NoLf(line) && (line == [] || line[|line| - 1] != CR)
    ensures Chomp(line + [LF]) == line
  {
    var s := line + [LF];
    assert s[..|s| - 1] == line;
    if line != [] {
      assert line[|line| - 1] in line;
    }
    assert Chomp(line) == line;
  }

  lemma BlankReads(rest: Bytes, r: Reader)
    ensures Events([LF] + rest, r) == Step(r, []).1 + Events(rest, Step(r, []).0)
  {
    assert [] + [LF] + rest == [LF] + rest;
    LineReads([], rest, r);
  }

  lemma AsciiDecodes(a: Bytes)
    requires Ascii(a)
    ensures Decodes(a)
  {
    assert a + [] == a;
    AsciiBefore(a, []);
  }

  lemma EventLine()
    ensures var line := EVENT + [' '] + SUMMARY;
      NoLf(line) && Ascii(line) && line[|line| - 1] != CR && Step(START, line) == (Reader(SUMMARY, []), [])
  {
    var line := EVENT + [' '] + SUMMARY;
    assert line[|EVENT|..] == [' '] + SUMMARY;
    assert ([' '] + SUMMARY)[1..] == SUMMARY;
    LStripPlain(SUMMARY);
    assert RStrip(SUMMARY) == SUMMARY;
    assert line[0] == 'e' && EVENT <= line;
  }

  lemma DataLine(p: Bytes)
    requires SummaryLine(p)
    ensures var line := DATA + [' '] + p;
      && NoLf(line) && line[|line| - 1] != CR && (Decodes(line) <==> Decodes(p))
      && Step(Reader(SUMMARY, []), line) == (Reader(SUMMARY, [p]), [])
  {
    var line := DATA + [' '] + p;
    assert line[|DATA|..] == [' '] + p;
    assert ([' '] + p)[1..] == p;
    LStripPlain(p);
    assert line[0] == 'd' && EVENT[0] == 'e' && DATA <= line;
    AsciiBefore(DATA + [' '], p);
    assert [] + [p] == [p];
  }

  /** An event written by the server is read back as that event. */
  lemma FrameReads(p: Bytes, rest: Bytes)
    requires SummaryLine(p)
    ensures Events(EventText(SUMMARY, p) + rest, START)
         == if Decodes(p) then [Event(SUMMARY, p)] + Events(rest, START) else []
  {
    var line1 := EVENT + [' '] + SUMMARY;
    var line2 := DATA + [' '] + p;
    EventTextIs(p, rest);
    EventLine();
    AsciiDecodes(line1);
    LineReads(line1, line2 + [LF] + ([LF] + rest), START);
    DataLine(p);
    LineReads(line2, [LF] + rest, Reader(SUMMARY, []));
    BlankReads(rest, Reader(SUMMARY, [p]));
  }

  lemma EventTextIs(p: Bytes, rest: Bytes)
    requires SummaryLine(p)
    ensures EventText(SUMMARY, p) + rest
         == EVENT + [' '] + SUMMARY + [LF] + (DATA + [' '] + p + [LF] + ([LF] + rest))
  {
    var line1 := EVENT + [' '] + SUMMARY + [LF];
    var line2 := DATA + [' '] + p + [LF];
    assert Eol(p) == |p|;
    assert p[..|p|] == p && p[|p|..] == [];
    assert line2 + [] == line2;
    assert DataLines(p) == line2;
    assert line1 + (line2 + [LF]) + rest == line1 + (line2 + ([LF] + rest));
  }

  /** A comment or an unknown field, with the blank line after it, is skipped. */
  lemma SkippedReads(line: Bytes, rest: Bytes)
    requires line != [] && NoLf(line) && Ascii(line) && line[|line| - 1] != CR && Step(START, line) == (START, [])
    ensures Events(line + [LF, LF] + rest, START) == Events(rest, START)
  {
    assert line + [LF, LF] + rest == line + [LF] + ([LF] + rest);
    AsciiDecodes(line);
    LineReads(line, [LF] + rest, START);
    BlankReads(rest, START);
    NoEvents(Events([LF] + rest, START));
    NoEvents(Events(rest, START));
  }

  lemma NoEvents(es: seq<Event>)
    ensures [] + es == es
  {
  }

  lemma KeepAliveReads(rest: Bytes)
    ensures Events(KEEP_ALIVE + rest, START) == Events(rest, START)
  {
    var line: Bytes := ": keep-alive";
    assert KEEP_ALIVE == line + [LF, LF];
    SkippedReads(line, rest);
  }

  lemma RetryReads(rest: Bytes)
    ensures Events(RETRY + rest, START) == Events(rest, START)
  {
    var line: Bytes := "retry: 1000";
    assert RETRY == line + [LF, LF];
    assert !(EVENT <= line) by { assert line[0] != EVENT[0]; }
    assert !(DATA <= line) by { assert line[0] != DATA[0]; }
    SkippedReads(line, rest);
  }

  lemma {:induction false} DistinctHead(xs: seq<Bytes>)
    requires xs != []
    ensures Distinct(xs) != [] && Distinct(xs)[0] == xs[0]
  {
    if |xs| >= 2 && xs[0] == xs[1] {
      DistinctHead(xs[1..]);
    }
  }

  /** What is new in xs to a reader that has seen `last`. */
  function News(last: Bytes, xs: seq<Bytes>): seq<Bytes> {
    if last == [] || xs == [] then Distinct(xs)
    else
      DistinctHead([last] + xs);
      Distinct([last] + xs)[1..]
  }

  lemma NewsStep(last: Bytes, xs: seq<Bytes>)
    requires xs != [] && xs[0] != []
    ensures News(last, xs) == (if xs[0] == last then [] else [xs[0]]) + News(xs[0], xs[1..])
  {
    var x, rest := xs[0], xs[1..];
    assert [x] + rest == xs;
    assert last != [] ==> ([last] + xs)[1..] == xs && ([last] + xs)[0] == last && ([last] + xs)[1] == x;
    DistinctHead(xs);
    assert Distinct(xs) == [x] + Distinct(xs)[1..];
    assert News(x, rest) == Distinct(xs)[1..];
    assert ([last] + Distinct(xs))[1..] == Distinct(xs);
    assert [] + News(x, rest) == News(x, rest);
  }

  /** A frame that repeats nothing new is skipped. */
  lemma QuietThen(quiet: bool, later: Bytes)
    ensures Events((if quiet then KEEP_ALIVE else []) + later, START) == Events(later, START)
  {
    if quiet {
      KeepAliveReads(later);
    } else {
      assert [] + later == later;
    }
  }

  lemma ReadableCons(x: Bytes, news: seq<Bytes>)
    ensures Readable([x] + news) == if Decodes(x) then [x] + Readable(news) else []
    ensures SummaryEvents([x] + news) == [Event(SUMMARY, x)] + SummaryEvents(news)
  {
    assert ([x] + news)[0] == x && ([x] + news)[1..] == news;
  }

  /** A new summary in front of later frames. */
  lemma NewThen(x: Bytes, later: Bytes, news: seq<Bytes>)
    requires SummaryLine(x)
    requires Decodes(x) ==> Events(later, START) == SummaryEvents(Readable(news))
    ensures Events(EventText(SUMMARY, x) + later, START) == SummaryEvents(Readable([x] + news))
  {
    FrameReads(x, later);
    ReadableCons(x, news);
    ReadableCons(x, Readable(news));
  }

  lemma {:induction false} FramesRead(polls: seq<Poll>, last: Bytes)
    requires forall i :: 0 <= i < |polls| ==> SummaryLine(polls[i].summary)
    requires last != [] ==> Decodes(last)
    ensures Events(Frames(polls, last), START) == SummaryEvents(Readable(News(last, Texts(polls))))
  {
    if polls != [] {
      var x := polls[0].summary;
      var rest := polls[1..];
      if Decodes(x) {
        FramesRead(rest, x);
      }
      assert Texts(polls)[0] == x && Texts(polls)[1..] == Texts(rest);
      NewsStep(last, Texts(polls));
      var later, news := Frames(rest, x), News(x, Texts(rest));
      if x == last {
        QuietThen(polls[0].quiet, later);
        assert [] + news == news;
      } else {
        NewThen(x, later, news);
      }
    }
  }

  /** End to end: the client sees exactly the polled summaries, in order and with runs of equal
      ones collapsed, up to the first that is not UTF-8; keep-alives are invisible. */
  lemma SummariesDelivered(polls: seq<Poll>)
    requires forall i :: 0 <= i < |polls| ==> SummaryLine(polls[i].summary)
    ensures Events(StreamBytes(polls), START) == SummaryEvents(Readable(Distinct(Texts(polls))))
  {
    RetryReads(Frames(polls, []));
    FramesRead(polls, []);
  }

  lemma {:induction false} DistinctKeeps(xs: seq<Bytes>)
    ensures forall x :: x in Distinct(xs) <==> x in xs
    ensures forall i :: 0 <= i < |Distinct(xs)| - 1 ==> Distinct(xs)[i] != Distinct(xs)[i + 1]
  {
    if |xs| >= 2 {
      DistinctKeeps(xs[1..]);
      DistinctHead(xs[1..]);
      assert forall x :: x in xs <==> x == xs[0] || x in xs[1..];
    }
  }

  lemma {:induction false} ReadableAll(xs: seq<Bytes>)
    ensures Readable(xs) <= xs
    ensures Readable(xs) == xs <==> forall x :: x in xs ==> Decodes(x)
  {
    if xs != [] {
      ReadableAll(xs[1..]);
      assert forall x :: x in xs <==> x == xs[0] || x in xs[1..];
      assert [xs[0]] + xs[1..] == xs;
      if Decodes(xs[0]) {
        assert Readable(xs)[1..] == Readable(xs[1..]);
      }
    }
  }

  /** Nothing is lost exactly when every summary is UTF-8. */
  lemma AllDelivered(polls: seq<Poll>)
    requires forall i :: 0 <= i < |polls| ==> SummaryLine(polls[i].summary)
    ensures Events(StreamBytes(polls), START) == SummaryEvents(Distinct(Texts(polls)))
       <==> forall i :: 0 <= i < |polls| ==> Decodes(polls[i].summary)
  {
    var xs := Texts(polls);
    SummariesDelivered(polls);
    DistinctKeeps(xs);
    ReadableAll(Distinct(xs));
    if SummaryEvents(Readable(Distinct(xs))) == SummaryEvents(Distinct(xs)) {
      assert |Readable(Distinct(xs))| == |Distinct(xs)|;
      forall i | 0 <= i < |polls| ensures Decodes(polls[i].summary) {
        assert xs[i] in xs;
      }
    }
    if forall i :: 0 <= i < |polls| ==> Decodes(polls[i].summary) {
      forall x | x in xs ensures Decodes(x) {
      }
    }
  }

  predicate NoCr(s: Bytes) {
    CR !in s
  }

  /** A stream cut anywhere yields the events of the whole stream up to the cut. */
  lemma {:induction false} CutDelivers(s: Bytes, n: nat, r: Reader)
    requires NoCr(s) && n <= |s|
    ensures Events(s[..n], r) <= Events(s, r)
    decreases |s|
  {
    if n == 0 {
      return;
    }
    var k := LineEnd(s);
    if k > n {
      CutLine(s, n, r);
    } else {
      var t := s[..n];
      EolCut(s, n);
      SliceCut(s, n, k);
      var r', out := SameFirstLine(s, t, r);
      if Decodes(s[..k]) {
        var later := s[k..];
        CutDelivers(later, n - k, r');
        PrefixAfter(out, Events(later[..n - k], r'), Events(later, r'));
      }
    }
  }

  lemma SliceCut(s: Bytes, n: nat, k: nat)
    requires k <= n <= |s|
    ensures s[..n][..k] == s[..k] && s[..n][k..] == s[k..][..n - k]
    ensures NoCr(s) ==> NoCr(s[k..])
  {
  }

  /** Streams with the same first line start with the same step. */
  lemma SameFirstLine(s: Bytes, t: Bytes, r: Reader) returns (r': Reader, out: seq<Event>)
    requires s != [] && t != [] && LineEnd(s) == LineEnd(t) && s[..LineEnd(s)] == t[..LineEnd(t)]
    ensures var k := LineEnd(s);
      if Decodes(s[..k]) then Events(s, r) == out + Events(s[k..], r') && Events(t, r) == out + Events(t[k..], r')
      else Events(s, r) == [] && Events(t, r) == []
  {
    EventsUnfold(s, r);
    EventsUnfold(t, r);
    var step := Step(r, Chomp(s[..LineEnd(s)]));
    r', out := step.0, step.1;
  }

  lemma PrefixAfter(a: seq<Event>, b: seq<Event>, c: seq<Event>)
    requires b <= c
    ensures a + b <= a + c
  {
  }

  /** A line that never ends yields no event. */
  lemma CutLine(s: Bytes, n: nat, r: Reader)
    requires NoCr(s) && s != [] && 0 < n < LineEnd(s)
    ensures Events(s[..n], r) == []
  {
    var t := s[..n];
    assert forall i :: 0 <= i < n ==> t[i] == s[i] && s[i] != LF;
    assert Eol(t) == n;
    assert t[..n] == t && t[n..] == [];
    assert t[n - 1] in s;
    assert Chomp(t) == t;
    EventsUnfold(t, r);
    EventsUnfold([], Step(r, t).0);
  }

  lemma EolCut(s: Bytes, n: nat)
    requires 0 < n <= |s| && LineEnd(s) <= n
    ensures LineEnd(s[..n]) == LineEnd(s)
  {
    var t := s[..n];
    assert forall i :: 0 <= i < n ==> t[i] == s[i];
    var k, j := Eol(s), Eol(t);
    if k < n {
      assert t[k] == LF;
    }
  }

  lemma {:induction false} FramesNoCr(polls: seq<Poll>, last: Bytes)
    requires forall i :: 0 <= i < |polls| ==> SummaryLine(polls[i].summary)
    ensures NoCr(Frames(polls, last))
  {
    if polls != [] {
      var p := polls[0];
      FramesNoCr(polls[1..], p.summary);
      FrameNoCr(p, last);
    }
  }

  lemma FrameNoCr(p: Poll, last: Bytes)
    requires SummaryLine(p.summary)
    ensures NoCr(Frame(p, last))
  {
    if p.summary != last {
      EventTextIs(p.summary, []);
      assert EventText(SUMMARY, p.summary) + [] == EventText(SUMMARY, p.summary);
      assert NoCr(EVENT + [' '] + SUMMARY + [LF]) && NoCr(DATA + [' ']) && NoCr(p.summary);
    }
  }

  lemma RetryNoCr(s: Bytes)
    requires NoCr(s)
    ensures NoCr(RETRY + s)
  {
  }

  lemma CutAt(s: Bytes, sent: Bytes)
    requires NoCr(s) && sent <= s
    ensures Events(sent, START) <= Events(s, START)
  {
    assert sent == s[..|sent|];
    CutDelivers(s, |sent|, START);
  }

  /** Whatever part of the stream reached the client before the connection failed, the client has
      reported an initial part of the summaries and nothing else. */
  lemma PartialStreamDelivered(polls: seq<Poll>, sent: Bytes)
    requires forall i :: 0 <= i < |polls| ==> SummaryLine(polls[i].summary)
    requires sent <= StreamBytes(polls)
    ensures Events(sent, START) <= SummaryEvents(Readable(Distinct(Texts(polls))))
  {
    FramesNoCr(polls, []);
    SummariesDelivered(polls);
    RetryNoCr(Frames(polls, []));
    CutAt(StreamBytes(polls), sent);
  }
}
