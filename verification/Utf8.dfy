/**
  The UTF-8 encoder behind \u escapes, and an independent decoder for it (section 3 of RFC 3629).
  Shifts and masks of the program are division and remainder by powers of two here.
 */
module Utf8 {
  import opened Bytes

  /** The code points that have an encoding: no surrogates, nothing above U+10FFFF. */
  predicate Scalar(cp: nat) {
    cp < 0xD800 || 0xE000 <= cp <= 0x10FFFF
  }

  function Cont(x: nat): byte {
    (0x80 + x % 64) as char
  }

  function Encode(cp: nat): Option<Bytes> {
    if cp <= 0x7F then Some([cp as char])
    else if cp <= 0x7FF then Some([(0xC0 + cp / 64 % 32) as char, Cont(cp)])
    else if 0xD800 <= cp <= 0xDFFF then None
    else if cp <= 0xFFFF then Some([(0xE0 + cp / 64 / 64 % 16) as char, Cont(cp / 64), Cont(cp)])
    else if cp <= 0x10FFFF then
      Some([(0xF0 + cp / 64 / 64 / 64 % 8) as char, Cont(cp / 64 / 64), Cont(cp / 64), Cont(cp)])
    else None
  }

  /** append_utf8_codepoint: the buffer grows by the encoding, or the code point is refused. */
  method AppendCodepoint(cp: nat, buffer: Bytes) returns (ok: bool, out: Bytes)
    ensures ok <==> Scalar(cp)
    ensures ok ==> Encode(cp).Some? && out == buffer + Encode(cp).value
    ensures !ok ==> out == buffer
  {
    out := buffer;
    if cp <= 0x7F {
      out := out + [cp as char];
      return true, out;
    }
    if cp <= 0x7FF {
      out := out + [(0xC0 + cp / 64 % 32) as char];
      out := out + [Cont(cp)];
      return true, out;
    }
    if 0xD800 <= cp && cp <= 0xDFFF {
      return false, out;
    }
    if cp <= 0xFFFF {
      out := out + [(0xE0 + cp / 64 / 64 % 16) as char];
      out := out + [Cont(cp / 64)];
      out := out + [Cont(cp)];
      return true, out;
    }
    if cp <= 0x10FFFF {
      out := out + [(0xF0 + cp / 64 / 64 / 64 % 8) as char];
      out := out + [Cont(cp / 64 / 64)];
      out := out + [Cont(cp / 64)];
      out := out + [Cont(cp)];
      return true, out;
    }
    return false, out;
  }

  type ScalarValue = cp: nat | cp < 0xD800 || 0xE000 <= cp <= 0x10FFFF witness 0

  function Enc(cp: ScalarValue): Bytes {
    Encode(cp).value
  }

  /** The bytes of an encoding, in the ranges of the table in section 3 of RFC 3629. */
  lemma EncSpelled(cp: ScalarValue)
    ensures cp < 0x80 ==> Enc(cp) == [cp as char]
    ensures 0x80 <= cp < 0x800 ==> Enc(cp) == [(0xC0 + cp / 0x40) as char, (0x80 + cp % 0x40) as char]
    ensures 0x800 <= cp < 0x1_0000 ==>
      Enc(cp) == [(0xE0 + cp / 0x1000) as char, (0x80 + cp / 0x40 % 0x40) as char, (0x80 + cp % 0x40) as char]
    ensures 0x1_0000 <= cp ==>
      Enc(cp) == [(0xF0 + cp / 0x4_0000) as char, (0x80 + cp / 0x1000 % 0x40) as char,
                  (0x80 + cp / 0x40 % 0x40) as char, (0x80 + cp % 0x40) as char]
  {
    assert cp / 64 / 64 == cp / 0x1000 && cp / 64 / 64 / 64 == cp / 0x4_0000;
  }

  function EncodeAll(cps: seq<ScalarValue>): Bytes {
    if cps == [] then [] else Enc(cps[0]) + EncodeAll(cps[1..])
  }

  // ------------------------------------------------------------------------- decoding

  predicate IsCont(c: byte) {
    0x80 <= c as int < 0xC0
  }

  function Low(c: byte): nat
    requires IsCont(c)
  {
    c as int - 0x80
  }

  /** One code point at the front, in its only well-formed encoding. */
  function DecodeOne(s: Bytes): Option<(ScalarValue, Bytes)> {
    if s == [] then None
    else
      var a := s[0] as int;
      if a < 0x80 then Some((a, s[1..]))
      else if 0xC2 <= a < 0xE0 && |s| >= 2 && IsCont(s[1]) then
        Some(((a - 0xC0) * 64 + Low(s[1]), s[2..]))
      else if 0xE0 <= a < 0xF0 && |s| >= 3 && IsCont(s[1]) && IsCont(s[2]) then
        var cp := (a - 0xE0) * 4096 + Low(s[1]) * 64 + Low(s[2]);
        if cp >= 0x800 && Scalar(cp) then Some((cp, s[3..])) else None
      else if 0xF0 <= a < 0xF5 && |s| >= 4 && IsCont(s[1]) && IsCont(s[2]) && IsCont(s[3]) then
        var cp := (a - 0xF0) * 262144 + Low(s[1]) * 4096 + Low(s[2]) * 64 + Low(s[3]);
        if cp >= 0x10000 && Scalar(cp) then Some((cp, s[4..])) else None
      else None
  }

  /** An ASCII byte behind a text does not change what its first code point is. */
  lemma DecodeOneBefore(s: Bytes, t: Bytes)
    requires s != [] && (t != [] ==> t[0] as int < 0x80)
    ensures DecodeOne(s).Some? <==> DecodeOne(s + t).Some?
    ensures DecodeOne(s).Some? ==>
      var (cp, rest) := DecodeOne(s).value;
      |rest| < |s| && DecodeOne(s + t).value == (cp, rest + t)
  {
    var u := s + t;
    assert u[1..] == s[1..] + t;
    assert |s| >= 2 ==> u[2..] == s[2..] + t;
    assert |s| >= 3 ==> u[3..] == s[3..] + t;
    assert |s| >= 4 ==> u[4..] == s[4..] + t;
    assert t != [] ==> u[|s|] == t[0];
  }

  function Decode(s: Bytes): Option<seq<ScalarValue>>
    decreases |s|
  {
    if s == [] then Some([])
    else
      match DecodeOne(s)
      case None => None
      case Some((cp, rest)) =>
        if |rest| >= |s| then None
        else
          match Decode(rest)
          case None => None
          case Some(cps) => Some([cp] + cps)
  }

  /** The four six-bit digits of a code point, highest first. */
  datatype Digits = Digits(d3: nat, d2: nat, d1: nat, d0: nat)

  function DigitsOf(cp: nat): (d: Digits)
    ensures cp == d.d3 * 262144 + d.d2 * 4096 + d.d1 * 64 + d.d0
    ensures d.d2 < 64 && d.d1 < 64 && d.d0 < 64
  {
    var q1 := cp / 64;
    var q2 := q1 / 64;
    Digits(q2 / 64, q2 % 64, q1 % 64, cp % 64)
  }

  lemma EncTwo(cp: ScalarValue)
    requires 0x7F < cp <= 0x7FF
    ensures var d := DigitsOf(cp); Enc(cp) == [(0xC0 + d.d1) as char, (0x80 + d.d0) as char]
  {
    assert cp / 64 < 32;
  }

  lemma EncThree(cp: ScalarValue)
    requires 0x7FF < cp <= 0xFFFF
    ensures var d := DigitsOf(cp); Enc(cp) == [(0xE0 + d.d2) as char, (0x80 + d.d1) as char, (0x80 + d.d0) as char]
  {
    assert cp / 64 / 64 < 16;
  }

  lemma EncFour(cp: ScalarValue)
    requires 0xFFFF < cp
    ensures var d := DigitsOf(cp);
      Enc(cp) == [(0xF0 + d.d3) as char, (0x80 + d.d2) as char, (0x80 + d.d1) as char, (0x80 + d.d0) as char]
  {
    assert cp / 64 / 64 / 64 < 8;
  }

  /** The bytes of an encoding in terms of the digits. */
  lemma EncBytes(cp: ScalarValue)
    ensures var d := DigitsOf(cp);
      Enc(cp) ==
        if cp <= 0x7F then [cp as char]
        else if cp <= 0x7FF then [(0xC0 + d.d1) as char, (0x80 + d.d0) as char]
        else if cp <= 0xFFFF then [(0xE0 + d.d2) as char, (0x80 + d.d1) as char, (0x80 + d.d0) as char]
        else [(0xF0 + d.d3) as char, (0x80 + d.d2) as char, (0x80 + d.d1) as char, (0x80 + d.d0) as char]
  {
    if 0x7F < cp <= 0x7FF {
      EncTwo(cp);
    } else if 0x7FF < cp <= 0xFFFF {
      EncThree(cp);
    } else if 0xFFFF < cp {
      EncFour(cp);
    }
  }

  lemma DecodeEnc(cp: ScalarValue, rest: Bytes)
    ensures DecodeOne(Enc(cp) + rest) == Some((cp, rest))
  {
    var s := Enc(cp) + rest;
    assert s[|Enc(cp)|..] == rest;
    var d := DigitsOf(cp);
    EncBytes(cp);
    if 0x7F < cp <= 0x7FF {
      assert Low(s[1]) == d.d0 && s[0] as int - 0xC0 == d.d1;
    } else if 0x7FF < cp <= 0xFFFF {
      assert Low(s[2]) == d.d0 && Low(s[1]) == d.d1 && s[0] as int - 0xE0 == d.d2;
    } else if 0xFFFF < cp {
      assert Low(s[3]) == d.d0 && Low(s[2]) == d.d1 && Low(s[1]) == d.d2 && s[0] as int - 0xF0 == d.d3;
    }
  }

  /** The digits are unique. */
  lemma DigitsUnique(cp: nat, d: Digits)
    requires cp == d.d3 * 262144 + d.d2 * 4096 + d.d1 * 64 + d.d0
    requires d.d2 < 64 && d.d1 < 64 && d.d0 < 64
    ensures DigitsOf(cp) == d
  {
    assert cp / 64 == d.d3 * 4096 + d.d2 * 64 + d.d1;
    assert cp / 64 / 64 == d.d3 * 64 + d.d2;
  }

  lemma EncDecode(s: Bytes)
    requires DecodeOne(s).Some?
    ensures Enc(DecodeOne(s).value.0) + DecodeOne(s).value.1 == s
  {
    var (cp, rest) := DecodeOne(s).value;
    var a := s[0] as int;
    EncBytes(cp);
    if 0xC2 <= a < 0xE0 {
      DigitsUnique(cp, Digits(0, 0, a - 0xC0, Low(s[1])));
      assert s == s[..2] + rest;
    } else if 0xE0 <= a < 0xF0 {
      DigitsUnique(cp, Digits(0, a - 0xE0, Low(s[1]), Low(s[2])));
      assert s == s[..3] + rest;
    } else if 0xF0 <= a {
      DigitsUnique(cp, Digits(a - 0xF0, Low(s[1]), Low(s[2]), Low(s[3])));
      assert s == s[..4] + rest;
    }
  }

  /** Concatenated encodings decode back to the sequence they came from. */
  lemma {:induction false} DecodeInverts(cps: seq<ScalarValue>)
    ensures Decode(EncodeAll(cps)) == Some(cps)
  {
    if cps != [] {
      DecodeEnc(cps[0], EncodeAll(cps[1..]));
      DecodeInverts(cps[1..]);
      assert [cps[0]] + cps[1..] == cps;
    }
  }

  /** Every byte string the decoder accepts is the encoding of what it returns: encodings are unique. */
  lemma {:induction false} EncodeInverts(s: Bytes)
    requires Decode(s).Some?
    ensures EncodeAll(Decode(s).value) == s
    decreases |s|
  {
    if s != [] {
      EncDecode(s);
      EncodeInverts(DecodeOne(s).value.1);
    }
  }

  // ------------------------------------------------------------------------- order

  predicate Less(a: seq<nat>, b: seq<nat>) {
    b != [] && (a == [] || a[0] < b[0] || (a[0] == b[0] && Less(a[1..], b[1..])))
  }

  /** Byte order, bytes taken as unsigned. */
  predicate LessBytes(a: Bytes, b: Bytes) {
    b != [] && (a == [] || a[0] < b[0] || (a[0] == b[0] && LessBytes(a[1..], b[1..])))
  }

  lemma {:induction false} LessSamePrefix(p: Bytes, a: Bytes, b: Bytes)
    ensures LessBytes(p + a, p + b) <==> LessBytes(a, b)
  {
    if p == [] {
      assert p + a == a && p + b == b;
    } else {
      assert (p + a)[1..] == p[1..] + a && (p + b)[1..] == p[1..] + b;
      LessSamePrefix(p[1..], a, b);
    }
  }

  predicate ForksAt(c: ScalarValue, d: ScalarValue, k: nat) {
    k < |Enc(c)| && k < |Enc(d)| && Enc(c)[..k] == Enc(d)[..k] && Enc(c)[k] < Enc(d)[k]
  }

  lemma ForkByLength(c: ScalarValue, d: ScalarValue)
    requires c < d && |Enc(c)| != |Enc(d)|
    ensures ForksAt(c, d, 0)
  {
    EncBytes(c);
    EncBytes(d);
  }

  lemma ForkShort(c: ScalarValue, d: ScalarValue)
    requires c < d && |Enc(c)| == |Enc(d)| <= 2
    ensures ForksAt(c, d, if |Enc(c)| == 1 || DigitsOf(c).d1 != DigitsOf(d).d1 then 0 else 1)
  {
    EncBytes(c);
    EncBytes(d);
  }

  lemma ForkThree(c: ScalarValue, d: ScalarValue)
    requires c < d && |Enc(c)| == |Enc(d)| == 3
    ensures var x, y := DigitsOf(c), DigitsOf(d);
      ForksAt(c, d, if x.d2 != y.d2 then 0 else if x.d1 != y.d1 then 1 else 2)
  {
    EncBytes(c);
    EncBytes(d);
    var x, y := DigitsOf(c), DigitsOf(d);
    assert x.d3 == 0 && y.d3 == 0;
  }

  lemma ForkFour(c: ScalarValue, d: ScalarValue)
    requires c < d && |Enc(c)| == |Enc(d)| == 4
    ensures var x, y := DigitsOf(c), DigitsOf(d);
      ForksAt(c, d, if x.d3 != y.d3 then 0 else if x.d2 != y.d2 then 1 else if x.d1 != y.d1 then 2 else 3)
  {
    EncBytes(c);
    EncBytes(d);
  }

  /** Encodings of different code points fork at a byte that orders them. */
  lemma ForkOrders(c: ScalarValue, d: ScalarValue) returns (k: nat)
    requires c < d
    ensures ForksAt(c, d, k)
  {
    var x, y := DigitsOf(c), DigitsOf(d);
    if |Enc(c)| != |Enc(d)| {
      ForkByLength(c, d);
      k := 0;
    } else if |Enc(c)| <= 2 {
      ForkShort(c, d);
      k := if |Enc(c)| == 1 || x.d1 != y.d1 then 0 else 1;
    } else if |Enc(c)| == 3 {
      ForkThree(c, d);
      k := if x.d2 != y.d2 then 0 else if x.d1 != y.d1 then 1 else 2;
    } else {
      ForkFour(c, d);
      k := if x.d3 != y.d3 then 0 else if x.d2 != y.d2 then 1 else if x.d1 != y.d1 then 2 else 3;
    }
  }

  lemma EncOrders(c: ScalarValue, d: ScalarValue, u: Bytes, v: Bytes)
    requires c < d
    ensures LessBytes(Enc(c) + u, Enc(d) + v) && !LessBytes(Enc(d) + v, Enc(c) + u)
  {
    var k := ForkOrders(c, d);
    var p := Enc(c)[..k];
    var x, y := Enc(c)[k..] + u, Enc(d)[k..] + v;
    assert Enc(c) + u == p + x && Enc(d) + v == p + y;
    assert x[0] == Enc(c)[k] && y[0] == Enc(d)[k];
    LessSamePrefix(p, x, y);
    LessSamePrefix(p, y, x);
  }

  /** Encoding preserves and reflects the lexicographic order. */
  lemma {:induction false} OrderPreserved(a: seq<ScalarValue>, b: seq<ScalarValue>)
    ensures Less(a, b) <==> LessBytes(EncodeAll(a), EncodeAll(b))
  {
    if a == [] || b == [] {
    } else if a[0] < b[0] {
      EncOrders(a[0], b[0], EncodeAll(a[1..]), EncodeAll(b[1..]));
    } else if b[0] < a[0] {
      EncOrders(b[0], a[0], EncodeAll(b[1..]), EncodeAll(a[1..]));
    } else {
      LessSamePrefix(Enc(a[0]), EncodeAll(a[1..]), EncodeAll(b[1..]));
      OrderPreserved(a[1..], b[1..]);
    }
  }
}
