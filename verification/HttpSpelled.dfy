/**
  Requests by the letters of their header names: which body a Content-Length field asks for, however
  it is capitalised, and what every error of the reader stands for.
 */
module HttpSpelled {
  import opened Bytes
  import opened Lines
  import opened Decimal
  import opened Http
  import opened HttpRoundTrip

  // ------------------------------------------------------------------- names without case

  /** A capital letter for the small one, by number. */
  predicate Capital(c: byte, small: byte) {
    97 <= small as int <= 122 && c as int == small as int - 32
  }

  /** The name in any mixture of cases. */
  predicate Spells(name: Bytes, small: Bytes) {
    |name| == |small| && forall i :: 0 <= i < |name| ==> name[i] == small[i] || Capital(name[i], small[i])
  }

  /** A text without capital letters. */
  predicate Small(s: Bytes) {
    forall i :: 0 <= i < |s| ==> !(65 <= s[i] as int <= 90)
  }

  lemma LowerSpells(name: Bytes, small: Bytes)
    requires Small(small)
    ensures Lower(name) == small <==> Spells(name, small)
  {
    if Spells(name, small) {
      forall i | 0 <= i < |name| ensures Lower(name)[i] == small[i] {
        assert !(65 <= small[i] as int <= 90);
      }
    }
    if Lower(name) == small {
      forall i | 0 <= i < |name| ensures name[i] == small[i] || Capital(name[i], small[i]) {
        assert Lower(name)[i] == small[i];
      }
    }
  }

  /** Field i is the last one with this name. */
  predicate LastOf(fields: seq<Field>, i: int, small: Bytes) {
    && 0 <= i < |fields| && Spells(fields[i].name, small)
    && forall j :: i < j < |fields| ==> !Spells(fields[j].name, small)
  }

  /** The headers of a request: a name without capitals has the value of the last field with that name, in any
      mixture of cases. */
  lemma {:induction false} HeaderSpelled(fields: seq<Field>, i: int, small: Bytes)
    requires Small(small) && LastOf(fields, i, small)
    ensures small in FieldMap(fields) && FieldMap(fields)[small] == fields[i].value
    decreases |fields|
  {
    var n := |fields| - 1;
    LowerSpells(fields[n].name, small);
    if i < n {
      assert !Spells(fields[n].name, small);
      HeaderSpelled(fields[..n], i, small);
    }
  }

  lemma {:induction false} HeaderAbsent(fields: seq<Field>, small: Bytes)
    requires Small(small) && forall i :: 0 <= i < |fields| ==> !Spells(fields[i].name, small)
    ensures small !in FieldMap(fields)
  {
    if fields != [] {
      var n := |fields| - 1;
      LowerSpells(fields[n].name, small);
      HeaderAbsent(fields[..n], small);
    }
  }

  /** No name in the headers of a request has a capital letter. */
  lemma {:induction false} HeadersSmall(fields: seq<Field>)
    ensures forall key :: key in FieldMap(fields) ==> Small(key)
  {
    if fields != [] {
      HeadersSmall(fields[..|fields| - 1]);
    }
  }

  // ------------------------------------------------------------------- the declared length

  /** The length that a decimal m stands for: 64 bits hold no more. */
  function Bounded(m: nat): nat {
    if m < 0x1_0000_0000_0000_0000 then m else 0xFFFF_FFFF_FFFF_FFFF
  }

  /** The fields ask for n bytes of body: the last Content-Length says so in decimal, or there is none. */
  ghost predicate Declares(fields: seq<Field>, n: nat) {
    || (exists i, m: nat :: LastOf(fields, i, "content-length") && fields[i].value == Dec(m) && n == Bounded(m))
    || (n == 0 && forall i :: 0 <= i < |fields| ==> !Spells(fields[i].name, "content-length"))
  }

  lemma SmallLength()
    ensures Small("content-length") && CONTENT_LENGTH == "content-length"
  {
  }

  lemma FoundLength(fields: seq<Field>, i: int, m: nat)
    requires Small(CONTENT_LENGTH) && LastOf(fields, i, CONTENT_LENGTH) && fields[i].value == Dec(m)
    ensures ContentLength(FieldMap(fields)) == Bounded(m)
  {
    HeaderSpelled(fields, i, CONTENT_LENGTH);
    StrToUlDec(m, []);
    assert Dec(m) + [] == Dec(m);
  }

  lemma DeclaredLength(fields: seq<Field>, n: nat)
    requires Declares(fields, n)
    ensures ContentLength(FieldMap(fields)) == n
  {
    SmallLength();
    if i, m: nat :| LastOf(fields, i, CONTENT_LENGTH) && fields[i].value == Dec(m) && n == Bounded(m) {
      FoundLength(fields, i, m);
    } else {
      HeaderAbsent(fields, CONTENT_LENGTH);
    }
  }

  /** Every well-formed request head whose fields ask for n bytes, with anything behind it and however it is cut into
      reads: the body is the first n bytes behind the head, and nothing else; with fewer bytes than that the request
      is refused. */
  lemma LengthDecides(verb: Bytes, path: Bytes, fields: seq<Field>, rest: Bytes, n: nat, chunks: seq<Bytes>,
                      end: Ending)
    requires NoSpace(verb) && NoSpace(path) && FieldsOk(fields) && Declares(fields, n)
    requires Chunking(chunks, Message(verb, path, fields, rest)) && Fits(Message(verb, path, fields, rest))
    ensures ReadSpec(chunks, end) ==
            if n <= |rest| then Request(verb, path, FieldMap(fields), rest[..n])
            else if end == TimedOut then Refused(BodyTimedOut)
            else Refused(BodyFailed)
  {
    var lines := [FirstLine(verb, path)] + FieldLines(fields);
    LinesAreOk(verb, path, fields);
    BlockTight(lines);
    HeadReads(verb, path, fields);
    DeclaredLength(fields, n);
    MessageAnswers(Block(lines), Message(verb, path, fields, rest), rest, chunks, end);
  }

  /** A stream in which no head ends: more than 2^20 bytes are too many, fewer are waited for in vain. */
  lemma NoHeadRefused(stream: Bytes, chunks: seq<Bytes>, end: Ending)
    requires Chunking(chunks, stream)
    requires forall k :: 0 <= k && k + 3 < |stream| ==>
      !(stream[k] as int == 13 && stream[k + 1] as int == 10 &&
        stream[k + 2] as int == 13 && stream[k + 3] as int == 10)
    requires forall k :: 0 <= k && k + 1 < |stream| ==> !(stream[k] as int == 10 && stream[k + 1] as int == 10)
    ensures ReadSpec(chunks, end) ==
            if |stream| > 1048576 then Refused(TooLarge)
            else if end == TimedOut then Refused(HeadTimedOut)
            else Refused(HeadFailed)
  {
    assert forall k :: !BreakAt(stream, k) && !BlankAt(stream, k);
    ReadParsesAtSplit(stream, chunks, end);
  }

  /** A request line of fewer than three words. */
  lemma ShortLineRefused(a: Bytes, b: Bytes)
    requires NoSpace(a) && NoSpace(b)
    ensures RequestLine([]) == None && RequestLine(a) == None && RequestLine(a + [' '] + b) == None
  {
    WordReads(a, []);
    WordReads(b, []);
    WordReads(a, [' '] + b);
    assert a + [] == a && [' '] + b + [] == [' '] + b && a + ([' '] + b) == a + [' '] + b;
  }

  /** What is wrong with a head: nothing at all in it, or its first line; a line without a colon is passed over. */
  lemma HeadErrors(block: Bytes, headers: map<Bytes, Bytes>, line: Bytes)
    ensures HeadOf([]) == Bad(MissingRequestLine)
    ensures block != [] && RequestLine(StripCr(LinesOf(block)[0])) == None ==> HeadOf(block) == Bad(InvalidRequestLine)
    ensures ':' !in line ==> AddHeader(headers, line) == headers
  {
    if ':' !in line {
      assert forall c :: c in StripCr(line) ==> c in line;
    }
  }
}
