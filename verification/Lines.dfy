/**
  Lines of a byte stream, as getline and readline see them.
 */
module Lines {
  import opened Bytes

  const LF: byte := '\n'
  const CR: byte := '\r'

  /** The place of the first line feed, or the length when there is none. */
  function Eol(s: Bytes): (k: nat)
    ensures k <= |s| && (k < |s| ==> s[k] == LF)
    ensures forall i :: 0 <= i < k ==> s[i] != LF
  {
    Find(s, LF)
  }

  predicate NoLf(s: Bytes) {
    LF !in s
  }

  lemma EolIs(line: Bytes, rest: Bytes)
    requires NoLf(line)
    ensures Eol(line + [LF] + rest) == |line|
  {
    FindIs(line, LF, rest);
  }

  /** What follows the first line. */
  function AfterLine(s: Bytes): (r: Bytes)
    ensures s != [] ==> |r| < |s|
  {
    var k := Eol(s);
    s[if k < |s| then k + 1 else k..]
  }

  /** The lines getline yields: a final line feed does not start another line. */
  function LinesOf(s: Bytes): seq<Bytes>
    decreases |s|
  {
    if s == [] then [] else [s[..Eol(s)]] + LinesOf(AfterLine(s))
  }
}
