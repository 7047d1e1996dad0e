/**
  Byte strings, written as characters below 256 so that text constants stay readable.
 */
module Bytes {
  type byte = c: char | c as int < 256

  type Bytes = seq<byte>

  datatype Option<T> = None | Some(value: T)

  /** The C locale's isspace. */
  predicate IsSpace(c: byte) {
    c == ' ' || ('\t' <= c <= '\r')
  }

  predicate AllSpace(s: Bytes) {
    forall i :: 0 <= i < |s| ==> IsSpace(s[i])
  }

  predicate IsDigit(c: byte) {
    '0' <= c <= '9'
  }

  /** The two classes by number. */
  lemma ClassesSpelled(c: byte)
    ensures IsSpace(c) <==> c as int in {9, 10, 11, 12, 13, 32}
    ensures IsDigit(c) <==> 48 <= c as int < 58
  {
  }

  /** The first place of a byte, or the length when it does not occur. */
  function Find(s: Bytes, c: byte): (k: nat)
    ensures k <= |s| && (k < |s| ==> s[k] == c)
    ensures forall i :: 0 <= i < k ==> s[i] != c
  {
    if s == [] || s[0] == c then 0 else 1 + Find(s[1..], c)
  }

  lemma FindIs(head: Bytes, c: byte, rest: Bytes)
    requires c !in head
    ensures Find(head, c) == |head| && Find(head + [c] + rest, c) == |head|
  {
    var s := head + [c] + rest;
    assert s[|head|] == c;
    assert forall i :: 0 <= i < |head| ==> s[i] == head[i];
  }
}
