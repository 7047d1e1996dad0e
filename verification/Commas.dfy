/**
  Comma-separated text: joining, as the printers' loops and the runner do it, and splitting.
 */
module Commas {
  import opened Bytes

  function Join(parts: seq<Bytes>): Bytes {
    if parts == [] then []
    else if |parts| == 1 then parts[0]
    else parts[0] + ([','] + Join(parts[1..]))
  }

  /** What the printers' loops do: a comma before every part but the first. */
  lemma {:induction false} JoinSnoc(parts: seq<Bytes>, p: Bytes)
    ensures Join(parts + [p]) == if parts == [] then p else Join(parts) + [','] + p
  {
    if parts == [] {
      assert parts + [p] == [p];
    } else {
      JoinSnoc(parts[1..], p);
      assert (parts + [p])[1..] == parts[1..] + [p];
      if |parts| > 1 {
        assert parts[0] + ([','] + (Join(parts[1..]) + [','] + p)) == parts[0] + ([','] + Join(parts[1..])) + [','] + p;
      } else {
        assert parts[1..] == [];
        assert parts[0] + ([','] + p) == parts[0] + [','] + p;
      }
    }
  }

  /** The pieces between separators: one more than there are separators. */
  function Split(s: Bytes, sep: byte): (r: seq<Bytes>)
    ensures r != []
    ensures forall i :: 0 <= i < |r| ==> sep !in r[i]
  {
    if s == [] then [[]]
    else
      var rest := Split(s[1..], sep);
      if s[0] == sep then [[]] + rest else [[s[0]] + rest[0]] + rest[1..]
  }

  function NonEmpty(parts: seq<Bytes>): seq<Bytes> {
    if parts == [] then [] else (if parts[0] == [] then [] else [parts[0]]) + NonEmpty(parts[1..])
  }

  lemma {:induction false} SplitOne(s: Bytes, sep: byte)
    requires sep !in s
    ensures Split(s, sep) == [s]
  {
    if s != [] {
      assert s[0] in s && forall x :: x in s[1..] ==> x in s;
      SplitOne(s[1..], sep);
      assert [s[0]] + s[1..] == s;
    }
  }

  lemma {:induction false} SplitFirst(head: Bytes, rest: Bytes, sep: byte)
    requires sep !in head
    ensures Split(head + [sep] + rest, sep) == [head] + Split(rest, sep)
  {
    var s := head + [sep] + rest;
    if head == [] {
      assert s[1..] == rest;
    } else {
      assert head[0] in head && forall x :: x in head[1..] ==> x in head;
      SplitFirst(head[1..], rest, sep);
      assert s[1..] == head[1..] + [sep] + rest;
      assert [head[0]] + head[1..] == head;
    }
  }

  /** Splitting undoes joining, for parts without the separator. */
  lemma {:induction false} SplitJoin(parts: seq<Bytes>)
    requires parts != [] && forall i :: 0 <= i < |parts| ==> ',' !in parts[i]
    ensures Split(Join(parts), ',') == parts
  {
    if |parts| == 1 {
      SplitOne(parts[0], ',');
    } else {
      SplitJoin(parts[1..]);
      SplitFirst(parts[0], Join(parts[1..]), ',');
      assert parts[0] + ([','] + Join(parts[1..])) == parts[0] + [','] + Join(parts[1..]);
      assert [parts[0]] + parts[1..] == parts;
    }
  }

  lemma {:induction false} NonEmptyAll(parts: seq<Bytes>)
    requires forall i :: 0 <= i < |parts| ==> parts[i] != []
    ensures NonEmpty(parts) == parts
  {
    if parts != [] {
      NonEmptyAll(parts[1..]);
      assert [parts[0]] + parts[1..] == parts;
    }
  }

  lemma Chained(a: seq<Bytes>, b: seq<Bytes>, c: seq<Bytes>)
    ensures a + (b + c) == (a + b) + c
  {
  }

  lemma {:induction false} NonEmptyAppend(xs: seq<Bytes>, ys: seq<Bytes>)
    ensures NonEmpty(xs + ys) == NonEmpty(xs) + NonEmpty(ys)
  {
    if xs == [] {
      assert xs + ys == ys;
    } else {
      NonEmptyAppend(xs[1..], ys);
      assert (xs + ys)[1..] == xs[1..] + ys;
      Chained(if xs[0] == [] then [] else [xs[0]], NonEmpty(xs[1..]), NonEmpty(ys));
    }
  }

  /** The list is recovered from its joined text, the empty list too. */
  lemma TokensOfJoin(parts: seq<Bytes>)
    requires forall i :: 0 <= i < |parts| ==> parts[i] != [] && ',' !in parts[i]
    ensures NonEmpty(Split(Join(parts), ',')) == parts
  {
    if parts != [] {
      SplitJoin(parts);
      NonEmptyAll(parts);
    } else {
      assert Split(Join(parts), ',') == [[]];
      assert Split(Join(parts), ',')[1..] == [];
    }
  }
}
