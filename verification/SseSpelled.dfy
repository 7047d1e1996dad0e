/**
  The event stream letter by letter: the bytes of an event, of a whole stream, and what the script's
  decoder makes of each kind of line.
 */
module SseSpelled {
  import opened Bytes
  import opened Lines
  import opened Spaces
  import opened Sse

  // ------------------------------------------------------------------------ what is sent

  /** Lines between line feeds. */
  function Text(lines: seq<Bytes>): Bytes
    requires lines != []
  {
    if |lines| == 1 then lines[0] else lines[0] + "\n" + Text(lines[1..])
  }

  /** A data line for each. */
  function DataLetters(lines: seq<Bytes>): Bytes {
    if lines == [] then [] else "data: " + lines[0] + "\n" + DataLetters(lines[1..])
  }

  /** No line holds a line feed, and the text does not end in one. */
  predicate LinesSound(lines: seq<Bytes>) {
    lines != [] && lines[|lines| - 1] != [] && forall i :: 0 <= i < |lines| ==> NoLf(lines[i])
  }

  lemma DataStep(line: Bytes, rest: Bytes)
    requires NoLf(line)
    ensures DataLines(line + [LF] + rest) == "data: " + line + "\n" + DataLines(rest)
  {
    var text := line + [LF] + rest;
    EolIs(line, rest);
    assert text[..|line|] == line && text[|line| + 1..] == rest;
    assert DATA + [' '] == "data: ";
  }

  lemma DataEnd(line: Bytes)
    requires NoLf(line) && line != []
    ensures DataLines(line) == "data: " + line + "\n"
  {
    assert Eol(line) == |line| && line[..|line|] == line && line[|line|..] == [];
    assert DATA + [' '] == "data: ";
    assert DataLines([]) == [];
  }

  lemma {:induction false} DataSpelled(lines: seq<Bytes>)
    requires LinesSound(lines)
    ensures Text(lines) != [] && DataLines(Text(lines)) == DataLetters(lines)
  {
    if |lines| == 1 {
      DataEnd(lines[0]);
      assert lines[1..] == [] && DataLetters([]) == [];
    } else {
      DataSpelled(lines[1..]);
      DataStep(lines[0], Text(lines[1..]));
    }
  }

  /** An event with a name and any text that does not end in a line feed. */
  lemma EventSpelled(name: Bytes, lines: seq<Bytes>)
    requires name != [] && LinesSound(lines)
    ensures EventText(name, Text(lines)) == "event: " + name + "\n" + DataLetters(lines) + "\n"
  {
    DataSpelled(lines);
  }

  /** What one turn of the stream loop sends. */
  lemma FrameSpelled(p: Poll, last: Bytes)
    requires SummaryLine(p.summary)
    ensures Frame(p, last) ==
            if p.summary != last then "event: summary\n" + "data: " + p.summary + "\n\n"
            else if p.quiet then ": keep-alive\n\n"
            else []
  {
    assert LinesSound([p.summary]) by {
      assert forall i :: 0 <= i < |p.summary| ==> ' ' <= p.summary[i];
    }
    EventSpelled("summary", [p.summary]);
    assert DataLetters([p.summary][1..]) == [];
  }

  /** The summary that the next turn is compared with. */
  function Last(polls: seq<Poll>): Bytes {
    if polls == [] then [] else polls[|polls| - 1].summary
  }

  lemma {:induction false} FramesSnoc(polls: seq<Poll>, p: Poll, last: Bytes)
    ensures Frames(polls + [p], last) == Frames(polls, last) + Frame(p, if polls == [] then last else Last(polls))
    decreases |polls|
  {
    var all := polls + [p];
    if polls == [] {
      assert all == [p] && [p][1..] == [];
      assert Frame(p, last) + [] == [] + Frame(p, last);
    } else {
      FramesSnoc(polls[1..], p, polls[0].summary);
      assert all[1..] == polls[1..] + [p];
      Chain(Frame(polls[0], last), Frames(polls[1..], polls[0].summary),
            Frame(p, if polls[1..] == [] then polls[0].summary else Last(polls[1..])));
    }
  }

  /** A stream starts with the retry interval, and each turn adds its own bytes. */
  lemma StreamSpelled(polls: seq<Poll>, p: Poll)
    requires SummaryLine(p.summary)
    ensures StreamBytes([]) == "retry: 1000\n\n"
    ensures StreamBytes(polls + [p]) == StreamBytes(polls) +
            if p.summary != Last(polls) then "event: summary\n" + "data: " + p.summary + "\n\n"
            else if p.quiet then ": keep-alive\n\n"
            else []
  {
    FrameSpelled(p, Last(polls));
    FramesSnoc(polls, p, []);
    Chain(RETRY, Frames(polls, []), Frame(p, Last(polls)));
    assert RETRY + [] == RETRY;
  }

  // ------------------------------------------------------------------------ what is read

  /** An empty line: the event is reported, under the name message if it has none, or the name is forgotten. */
  lemma BlankStep(r: Reader)
    ensures r.data == [] ==> Step(r, []) == (Reader([], []), [])
    ensures r.data != [] ==>
      Step(r, []) == (Reader([], []), [Event(if r.name == [] then "message" else r.name, Text(r.data))])
  {
    if r.data != [] {
      JoinSpelled(r.data);
    }
  }

  lemma {:induction false} JoinSpelled(lines: seq<Bytes>)
    requires lines != []
    ensures JoinLines(lines) == Text(lines)
  {
    if |lines| > 1 {
      JoinSpelled(lines[1..]);
    }
  }

  /** A comment is passed over. */
  lemma CommentLine(r: Reader, x: Bytes)
    ensures Step(r, ":" + x) == (r, [])
  {
  }

  /** A name, stripped at both ends. */
  lemma NameLine(r: Reader, x: Bytes)
    ensures Step(r, "event:" + x) == (Reader(RStrip(LStrip(x)), r.data), [])
  {
    var line := EVENT + x;
    assert line[0] == 'e' && line[|EVENT|..] == x;
  }

  /** A piece of data, stripped at the front. */
  lemma DataLine(r: Reader, x: Bytes)
    ensures Step(r, "data:" + x) == (Reader(r.name, r.data + [LStrip(x)]), [])
  {
    var line := DATA + x;
    assert line[0] == 'd' && line[|DATA|..] == x;
  }

  /** Any other line is passed over. */
  lemma OtherStep(r: Reader, line: Bytes)
    requires line != [] && !(":" <= line) && !("event:" <= line) && !("data:" <= line)
    ensures Step(r, line) == (r, [])
  {
  }

  /** The events of a stream of summaries carry the name summary. */
  lemma EventsSpelled(xs: seq<Bytes>, i: nat)
    requires i < |xs|
    ensures SummaryEvents(xs)[i] == Event("summary", xs[i])
  {
  }

  /** Only line ends are cut from a line. */
  lemma ChompSpelled(s: Bytes, c: byte)
    ensures Chomp([]) == []
    ensures Chomp(s + [c]) == if c as int == 10 || c as int == 13 then Chomp(s) else s + [c]
  {
    assert (s + [c])[..|s + [c]| - 1] == s;
  }

  /** An event without data, and one without a name. */
  lemma BareEventSpelled(name: Bytes, lines: seq<Bytes>)
    ensures EventText(name, []) == (if name == [] then [] else "event: " + name + "\n") + "data:\n\n"
    ensures LinesSound(lines) ==> EventText([], Text(lines)) == DataLetters(lines) + "\n"
  {
    if LinesSound(lines) {
      DataSpelled(lines);
      assert [] + (DataLetters(lines) + [LF]) == DataLetters(lines) + "\n";
    }
  }
}
