/**
  Decimal numerals and the library routines that read them.
 */
module Decimal {
  import opened Bytes

  function Digit(n: nat): byte
    requires n < 10
  {
    ('0' as int + n) as char
  }

  /** The decimal numeral of a number, as printing writes it. */
  function Dec(n: nat): (r: Bytes)
    ensures r != []
  {
    if n < 10 then [Digit(n)] else Dec(n / 10) + [Digit(n % 10)]
  }

  predicate Digits(s: Bytes) {
    forall i :: 0 <= i < |s| ==> IsDigit(s[i])
  }

  function DigitValue(c: byte): (v: nat)
    requires IsDigit(c)
    ensures v < 10
  {
    c as int - '0' as int
  }

  /** The number a digit string stands for. */
  function Value(s: Bytes): nat
    requires Digits(s)
  {
    if s == [] then 0 else Value(s[..|s| - 1]) * 10 + DigitValue(s[|s| - 1])
  }

  lemma {:induction false} DecValue(n: nat)
    ensures Digits(Dec(n)) && Value(Dec(n)) == n
  {
    if n < 10 {
      assert Dec(n)[..0] == [];
    } else {
      DecValue(n / 10);
      assert Dec(n)[..|Dec(n)| - 1] == Dec(n / 10);
    }
  }

  /** The digits at the front of a text. */
  function Leading(s: Bytes): (k: nat)
    ensures k <= |s| && Digits(s[..k])
    ensures k < |s| ==> !IsDigit(s[k])
  {
    if s == [] || !IsDigit(s[0]) then 0
    else
      var k := 1 + Leading(s[1..]);
      assert forall i :: 0 < i < k ==> s[i] == s[1..][..k - 1][i - 1];
      k
  }

  lemma {:induction false} LeadingIs(s: Bytes, k: nat)
    requires k <= |s| && Digits(s[..k]) && (k < |s| ==> !IsDigit(s[k]))
    ensures Leading(s) == k
  {
    if k > 0 {
      assert IsDigit(s[..k][0]);
      assert s[1..][..k - 1] == s[..k][1..];
      LeadingIs(s[1..], k - 1);
    }
  }

  function SkipSpace(s: Bytes): Bytes {
    if s != [] && IsSpace(s[0]) then SkipSpace(s[1..]) else s
  }

  lemma {:induction false} SkipAll(a: Bytes, r: Bytes)
    requires AllSpace(a) && (r != [] ==> !IsSpace(r[0]))
    ensures SkipSpace(a + r) == r
  {
    if a == [] {
      assert a + r == r;
    } else {
      SkipAll(a[1..], r);
      assert (a + r)[1..] == a[1..] + r;
    }
  }

  const ULONG_MAX := 0xFFFF_FFFF_FFFF_FFFF

  /** strtoul in base ten with 64-bit longs: white space, a sign, digits; it saturates when the digits
      are too large and negates modulo 2^64 otherwise. No digits read as zero. */
  function StrToUl(s: Bytes): (v: nat)
    ensures v <= ULONG_MAX
  {
    var t := SkipSpace(s);
    var signed := t != [] && t[0] in {'+', '-'};
    var body := if signed then t[1..] else t;
    var v := Value(body[..Leading(body)]);
    if v > ULONG_MAX then ULONG_MAX
    else if signed && t[0] == '-' && v > 0 then ULONG_MAX + 1 - v
    else v
  }

  /** A printed numeral is read back, saturated, whatever follows it that is not a digit. */
  lemma StrToUlDec(n: nat, rest: Bytes)
    requires rest != [] ==> !IsDigit(rest[0])
    ensures StrToUl(Dec(n) + rest) == if n > ULONG_MAX then ULONG_MAX else n
  {
    var s := Dec(n) + rest;
    DecValue(n);
    assert s[..|Dec(n)|] == Dec(n);
    assert IsDigit(Dec(n)[0]);
    LeadingIs(s, |Dec(n)|);
  }

  const INT64_MAX := 0x7FFF_FFFF_FFFF_FFFF

  /** strconv.Atoi: an optional sign and nothing but digits, within 64 bits. */
  function Atoi(s: Bytes): Option<int> {
    var signed := s != [] && s[0] in {'+', '-'};
    var body := if signed then s[1..] else s;
    if body == [] || !Digits(body) then None
    else
      var v: int := Value(body);
      if signed && s[0] == '-' then
        if v > INT64_MAX + 1 then None else Some(0 - v)
      else if v > INT64_MAX then None
      else Some(v)
  }

  lemma AtoiDec(n: nat)
    ensures Atoi(Dec(n)) == if n > INT64_MAX then None else Some(n)
  {
    DecValue(n);
    assert IsDigit(Dec(n)[0]);
  }

  /** The C library's atoi: strtol, saturated to 64 bits and truncated to 32. */
  function CAtoi(s: Bytes): int {
    var t := SkipSpace(s);
    var signed := t != [] && t[0] in {'+', '-'};
    var body := if signed then t[1..] else t;
    var v: int := Value(body[..Leading(body)]);
    var long := if signed && t[0] == '-' then (if v > INT64_MAX + 1 then -INT64_MAX - 1 else 0 - v)
                else if v > INT64_MAX then INT64_MAX
                else v;
    (long + 0x8000_0000) % 0x1_0000_0000 - 0x8000_0000
  }

  /** str of an integer. */
  function DecInt(n: int): Bytes {
    if n < 0 then ['-'] + Dec(-n) else Dec(n)
  }

  lemma CAtoiDec(n: int)
    requires -0x8000_0000 <= n < 0x8000_0000
    ensures CAtoi(DecInt(n)) == n
  {
    var d := Dec(if n < 0 then -n else n);
    DecValue(if n < 0 then -n else n);
    assert d[..|d|] == d && IsDigit(d[0]);
    LeadingIs(d, |d|);
    if n < 0 {
      assert (['-'] + d)[1..] == d;
    }
  }

  // ------------------------------------------------------------------- numerals, spelled out

  /** Numerals are written with the digits from 48 to 57, the last one for the ones. */
  lemma DecSpelled(n: nat)
    ensures Dec(n) == (if n < 10 then [] else Dec(n / 10)) + [(48 + n % 10) as char]
  {
  }

  /** A sign in front of a number, or none. */
  predicate Sign(sign: Bytes) {
    sign == [] || sign == "+" || sign == "-"
  }

  /** White space, a sign, digits, and whatever follows them. */
  predicate Numeral(s: Bytes, ws: Bytes, sign: Bytes, d: Bytes, rest: Bytes) {
    && s == ws + (sign + (d + rest))
    && AllSpace(ws) && Sign(sign) && d != [] && Digits(d) && (rest != [] ==> !IsDigit(rest[0]))
  }

  lemma NumeralParts(s: Bytes, ws: Bytes, sign: Bytes, d: Bytes, rest: Bytes)
    requires Numeral(s, ws, sign, d, rest)
    ensures var t := SkipSpace(s);
      && t == sign + (d + rest)
      && (sign == [] <==> t[0] !in {'+', '-'}) && (sign != [] ==> t[0] == sign[0] && t[1..] == d + rest)
    ensures Leading(d + rest) == |d| && (d + rest)[..|d|] == d
  {
    var t := sign + (d + rest);
    assert IsDigit(d[0]);
    assert t[0] == if sign == [] then d[0] else sign[0];
    SkipAll(ws, t);
    assert (d + rest)[..|d|] == d;
    LeadingIs(d + rest, |d|);
  }

  /** strtoul: the number, at most 2^64 - 1, and with a minus sign its negative modulo 2^64 unless it is too large. */
  lemma StrToUlSpelled(s: Bytes, ws: Bytes, sign: Bytes, d: Bytes, rest: Bytes)
    requires Numeral(s, ws, sign, d, rest)
    ensures StrToUl(s) ==
            if Value(d) > 18446744073709551615 then 18446744073709551615
            else if sign == "-" && Value(d) > 0 then 18446744073709551616 - Value(d)
            else Value(d)
  {
    NumeralParts(s, ws, sign, d, rest);
    var t := SkipSpace(s);
    assert sign == [] ==> t == d + rest;
  }

  lemma Wraps(long: int)
    ensures var r := (long + 0x8000_0000) % 0x1_0000_0000 - 0x8000_0000;
      -2147483648 <= r <= 2147483647 && (r - long) % 4294967296 == 0
  {
    var q := (long + 0x8000_0000) / 0x1_0000_0000;
    assert (long + 0x8000_0000) % 0x1_0000_0000 - 0x8000_0000 - long == -q * 4294967296;
  }

  function Bounded(v: int): int {
    if v > 9223372036854775807 then 9223372036854775807
    else if v < -9223372036854775808 then -9223372036854775808
    else v
  }

  /** The C library's atoi: between the bounds of 64 bits, then the low 32 as a signed number. */
  lemma CAtoiSpelled(s: Bytes, ws: Bytes, sign: Bytes, d: Bytes, rest: Bytes)
    requires Numeral(s, ws, sign, d, rest)
    ensures -2147483648 <= CAtoi(s) <= 2147483647
    ensures (CAtoi(s) - Bounded(if sign == "-" then 0 - Value(d) else Value(d))) % 4294967296 == 0
  {
    NumeralParts(s, ws, sign, d, rest);
    var t := SkipSpace(s);
    assert sign == [] ==> t == d + rest;
    var long := Bounded(if sign == "-" then 0 - Value(d) else Value(d));
    Wraps(long);
    assert CAtoi(s) == (long + 0x8000_0000) % 0x1_0000_0000 - 0x8000_0000;
  }

  /** Go's Atoi: a sign and digits alone, within 64 bits. */
  lemma AtoiSpelled(sign: Bytes, d: Bytes)
    requires Sign(sign) && d != [] && Digits(d)
    ensures var v: int := if sign == "-" then 0 - Value(d) else Value(d);
      Atoi(sign + d) == if -9223372036854775808 <= v <= 9223372036854775807 then Some(v) else None
  {
    var s := sign + d;
    assert IsDigit(d[0]);
    assert s[0] == if sign == [] then d[0] else sign[0];
    assert sign != [] ==> s[1..] == d;
    assert sign == [] ==> s == d;
  }

  /** Anything else is refused. */
  lemma AtoiRefuses(s: Bytes)
    requires forall sign, d :: Sign(sign) && d != [] && Digits(d) ==> s != sign + d
    ensures Atoi(s) == None
  {
    if s != [] && s[0] in {'+', '-'} {
      assert s == [s[0]] + s[1..];
      assert Sign([s[0]]);
    } else {
      assert s == [] + s && Sign([]);
    }
  }
}
