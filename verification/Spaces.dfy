/**
  Unicode white space at the ends of UTF-8 text, as Go and Python trim it.
 */
module Spaces {
  import opened Bytes
  import Utf8

  /** unicode.IsSpace. */
  predicate UniSpace(cp: nat) {
    || 0x09 <= cp <= 0x0D || cp in {0x20, 0x85, 0xA0, 0x1680, 0x2028, 0x2029, 0x202F, 0x205F, 0x3000}
    || 0x2000 <= cp <= 0x200A
  }

  /** The length of the white-space character at the front, or zero. */
  function LeadSpace(s: Bytes): (n: nat)
    ensures n <= |s|
  {
    match Utf8.DecodeOne(s)
    case Some((cp, rest)) => if UniSpace(cp) && |rest| < |s| then |s| - |rest| else 0
    case None => 0
  }

  predicate SpaceOfLength(s: Bytes, n: nat) {
    n <= |s| && Utf8.DecodeOne(s[|s| - n..]).Some?
    && var (cp, rest) := Utf8.DecodeOne(s[|s| - n..]).value; UniSpace(cp) && rest == []
  }

  /** The length of the white-space character at the end, or zero; none is longer than three bytes. */
  function TailSpace(s: Bytes): (n: nat)
    ensures n <= |s|
  {
    if SpaceOfLength(s, 1) then 1 else if SpaceOfLength(s, 2) then 2 else if SpaceOfLength(s, 3) then 3 else 0
  }

  /** str.isspace also takes the four ASCII separators. */
  predicate Separator(c: byte) {
    0x1C <= c as int <= 0x1F
  }

  function LStrip(s: Bytes): Bytes {
    var n := if s != [] && Separator(s[0]) then 1 else LeadSpace(s);
    if n == 0 then s else LStrip(s[n..])
  }

  function RStrip(s: Bytes): Bytes {
    var n := if s != [] && Separator(s[|s| - 1]) then 1 else TailSpace(s);
    if n == 0 then s else RStrip(s[..|s| - n])
  }

  /** A text that starts with a visible ASCII character, after at most one blank. */
  lemma LStripPlain(s: Bytes)
    requires s != [] && '!' <= s[0] <= '~'
    ensures LStrip(s) == s && LStrip([' '] + s) == s
  {
    assert ([' '] + s)[1..] == s;
  }

  // ------------------------------------------------------------------------ white space by number

  /** The code points with the White_Space property. */
  const WHITE: set<nat> := {
    9, 10, 11, 12, 13, 32, 133, 160, 5760, 8192, 8193, 8194, 8195, 8196, 8197, 8198, 8199, 8200, 8201, 8202, 8232,
    8233, 8239, 8287, 12288}

  /** What a text starts with, up to its first character. */
  lemma LeadSpelled(cp: Utf8.ScalarValue, rest: Bytes)
    ensures LeadSpace(Utf8.Enc(cp) + rest) == if cp in WHITE then |Utf8.Enc(cp)| else 0
  {
    Utf8.DecodeEnc(cp, rest);
  }

  /** Behind its first byte an encoding has only continuation bytes. */
  lemma EncShape(cp: Utf8.ScalarValue)
    ensures var e := Utf8.Enc(cp);
      1 <= |e| <= 4 && !Utf8.IsCont(e[0]) && forall i :: 1 <= i < |e| ==> Utf8.IsCont(e[i])
    ensures cp in WHITE ==> |Utf8.Enc(cp)| <= 3
  {
    Utf8.EncSpelled(cp);
  }

  lemma NotWithin(s: Bytes, cp: Utf8.ScalarValue, n: nat)
    requires 1 <= n <= 3 && n != |Utf8.Enc(cp)|
    ensures !SpaceOfLength(s + Utf8.Enc(cp), n)
  {
    var e := Utf8.Enc(cp);
    var t := s + e;
    EncShape(cp);
    if n <= |t| {
      var u := t[|t| - n..];
      if n < |e| {
        assert u[0] == e[|e| - n];
      } else if Utf8.DecodeOne(u).Some? && Utf8.DecodeOne(u).value.1 == [] {
        assert u[n - |e|] == e[0];
        var other := Utf8.DecodeOne(u).value.0;
        Utf8.EncDecode(u);
        EncShape(other);
      }
    }
  }

  lemma Whole(s: Bytes, cp: Utf8.ScalarValue)
    ensures SpaceOfLength(s + Utf8.Enc(cp), |Utf8.Enc(cp)|) <==> cp in WHITE
  {
    var e := Utf8.Enc(cp);
    assert (s + e)[|s + e| - |e|..] == e + [];
    Utf8.DecodeEnc(cp, []);
  }

  /** What a text ends with, from its last character on. */
  lemma TailSpelled(s: Bytes, cp: Utf8.ScalarValue)
    ensures TailSpace(s + Utf8.Enc(cp)) == if cp in WHITE then |Utf8.Enc(cp)| else 0
  {
    var n := |Utf8.Enc(cp)|;
    EncShape(cp);
    Whole(s, cp);
    if n != 1 { NotWithin(s, cp, 1); }
    if n != 2 { NotWithin(s, cp, 2); }
    if n != 3 { NotWithin(s, cp, 3); }
  }

  /** What the script strips from either end: white space, and the four separators. */
  lemma StripSpelled(s: Bytes, cp: Utf8.ScalarValue)
    ensures LStrip(Utf8.Enc(cp) + s) == if cp in WHITE || 28 <= cp <= 31 then LStrip(s) else Utf8.Enc(cp) + s
    ensures RStrip(s + Utf8.Enc(cp)) == if cp in WHITE || 28 <= cp <= 31 then RStrip(s) else s + Utf8.Enc(cp)
  {
    LeadSpelled(cp, s);
    TailSpelled(s, cp);
    SeparatorSpelled(cp);
    var e := Utf8.Enc(cp);
    assert (e + s)[|e|..] == s && (s + e)[..|s|] == s;
    assert (e + s)[0] == e[0] && (s + e)[|s + e| - 1] == e[|e| - 1];
  }

  lemma SeparatorSpelled(cp: Utf8.ScalarValue)
    ensures var e := Utf8.Enc(cp);
      && |e| >= 1 && (Separator(e[0]) <==> 28 <= cp <= 31) && (Separator(e[|e| - 1]) <==> 28 <= cp <= 31)
      && (28 <= cp <= 31 ==> |e| == 1)
  {
    EncShape(cp);
    Utf8.EncSpelled(cp);
  }

  /** A text starts with white space exactly when it starts with the encoding of a white-space character. */
  lemma LeadIff(s: Bytes)
    ensures LeadSpace(s) == 0 <==> forall cp: Utf8.ScalarValue :: cp in WHITE ==> !(Utf8.Enc(cp) <= s)
  {
    forall cp: Utf8.ScalarValue | cp in WHITE && Utf8.Enc(cp) <= s ensures LeadSpace(s) != 0 {
      var e := Utf8.Enc(cp);
      EncShape(cp);
      assert s == e + s[|e|..];
      LeadSpelled(cp, s[|e|..]);
    }
    if LeadSpace(s) != 0 {
      var (cp, rest) := Utf8.DecodeOne(s).value;
      Utf8.EncDecode(s);
      assert Utf8.Enc(cp) <= s && cp in WHITE;
    }
  }
}
