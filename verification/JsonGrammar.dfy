/**
  Concrete syntax of the JSON subset (sections 2, 4, 5 and 7 of RFC 8259): objects, arrays and
  strings. A concrete value determines its text and its meaning; a text is derivable when it is
  the text of a well-formed concrete value.
 */
module JsonGrammar {
  import opened Bytes
  import Utf8

  // ------------------------------------------------------------------- meanings

  /** The parsed tree. Object members keep their order and their duplicates. */
  datatype Tree =
    | Str(s: Bytes)
    | Arr(items: seq<Tree>)
    | Obj(members: seq<Member>)

  datatype Member = Member(key: Bytes, value: Tree)

  /** The value the server keeps: of duplicate keys the last one wins. */
  datatype Json =
    | JString(s: Bytes)
    | JArray(items: seq<Json>)
    | JObject(members: map<Bytes, Json>)

  function ToJson(t: Tree): Json
    decreases t, 1
  {
    match t
    case Str(s) => JString(s)
    case Arr(items) => JArray(ToJsons(items))
    case Obj(members) => JObject(ToMap(members))
  }

  function ToJsons(ts: seq<Tree>): (r: seq<Json>)
    decreases ts, 0
  {
    if ts == [] then [] else [ToJson(ts[0])] + ToJsons(ts[1..])
  }

  function ToMap(ms: seq<Member>): map<Bytes, Json>
    decreases ms, 0
  {
    if ms == [] then map[]
    else
      var m := ms[0];
      map[m.key := ToJson(m.value)] + ToMap(ms[1..])
  }

  /** The keys of the map are exactly the keys of the members. */
  lemma {:induction false} KeyOccurs(ms: seq<Member>, k: Bytes)
    ensures k in ToMap(ms) <==> exists j :: 0 <= j < |ms| && ms[j].key == k
  {
    if ms != [] {
      var rest := ms[1..];
      KeyOccurs(rest, k);
      assert k in ToMap(ms) <==> k == ms[0].key || k in ToMap(rest);
      if j :| 0 <= j < |rest| && rest[j].key == k {
        assert ms[j + 1].key == k;
      }
      if j :| 0 < j < |ms| && ms[j].key == k {
        assert rest[j - 1].key == k;
      }
    }
  }

  /** Each key has the value of its last occurrence. */
  lemma {:induction false} LastKeyWins(ms: seq<Member>, i: nat)
    requires i < |ms| && forall j :: i < j < |ms| ==> ms[j].key != ms[i].key
    ensures ms[i].key in ToMap(ms) && ToMap(ms)[ms[i].key] == ToJson(ms[i].value)
  {
    if i == 0 {
      KeyOccurs(ms[1..], ms[0].key);
    } else {
      LastKeyWins(ms[1..], i - 1);
    }
  }

  // ------------------------------------------------------------- concrete syntax

  datatype Token = Raw(b: byte) | Escaped(e: byte) | Unicode(hex: Bytes)

  datatype Concrete =
    | CString(tokens: seq<Token>)
    | CArray(gap: Bytes, items: seq<Item>)
    | CObject(gap: Bytes, fields: seq<Field>)

  /** A value with the white space around it. */
  datatype Item = Item(pre: Bytes, value: Concrete, post: Bytes)

  datatype Field = Field(lead: Bytes, key: seq<Token>, mid: Bytes, item: Item)

  // ------------------------------------------------------------------- tokens

  const SIMPLE: Bytes := ['"', '\\', '/', 'b', 'f', 'n', 'r', 't']

  function EscapeValue(e: byte): byte {
    if e == 'b' then 8 as char
    else if e == 'f' then 12 as char
    else if e == 'n' then '\n'
    else if e == 'r' then '\r'
    else if e == 't' then '\t'
    else e
  }

  predicate IsHex(c: byte) {
    IsDigit(c) || 'a' <= c <= 'f' || 'A' <= c <= 'F'
  }

  function HexValue(c: byte): (v: nat)
    requires IsHex(c)
    ensures v < 16
  {
    if IsDigit(c) then c as int - '0' as int
    else if 'a' <= c then c as int - 'a' as int + 10
    else c as int - 'A' as int + 10
  }

  predicate IsHex4(h: Bytes) {
    |h| == 4 && IsHex(h[0]) && IsHex(h[1]) && IsHex(h[2]) && IsHex(h[3])
  }

  function Hex4(h: Bytes): (v: nat)
    requires IsHex4(h)
    ensures v <= 0xFFFF
  {
    ((HexValue(h[0]) * 16 + HexValue(h[1])) * 16 + HexValue(h[2])) * 16 + HexValue(h[3])
  }

  // The hexadecimal digits in order, in either case.
  const UPPER: Bytes := ['0', '1', '2', '3', '4', '5', '6', '7', '8', '9', 'A', 'B', 'C', 'D', 'E', 'F']
  const LOWER: Bytes := ['0', '1', '2', '3', '4', '5', '6', '7', '8', '9', 'a', 'b', 'c', 'd', 'e', 'f']

  /** The digit for n, in one of the two cases. */
  predicate DigitFor(n: nat, c: byte) {
    n < 16 && c in {UPPER[n], LOWER[n]}
  }

  /** The four digits of n, in any mixture of cases. */
  predicate HexFor(n: nat, h: Bytes) {
    && n <= 0xFFFF && |h| == 4
    && DigitFor(n / 0x1000, h[0]) && DigitFor(n / 0x100 % 0x10, h[1]) && DigitFor(n / 0x10 % 0x10, h[2])
    && DigitFor(n % 0x10, h[3])
  }

  lemma DigitSpelled(n: nat, c: byte)
    requires DigitFor(n, c)
    ensures IsHex(c) && HexValue(c) == n
  {
  }

  lemma FourDigits(n: nat)
    ensures ((n / 0x1000 * 16 + n / 0x100 % 0x10) * 16 + n / 0x10 % 0x10) * 16 + n % 0x10 == n
  {
    assert n / 0x1000 == n / 0x100 / 0x10 && n / 0x100 == n / 0x10 / 0x10;
  }

  /** The four digits of a number are read as that number, in capitals, in small letters, or mixed. */
  lemma HexSpelled(n: nat, h: Bytes)
    requires HexFor(n, h)
    ensures IsHex4(h) && Hex4(h) == n
  {
    DigitSpelled(n / 0x1000, h[0]);
    DigitSpelled(n / 0x100 % 0x10, h[1]);
    DigitSpelled(n / 0x10 % 0x10, h[2]);
    DigitSpelled(n % 0x10, h[3]);
    FourDigits(n);
  }

  /** The eight simple escapes. */
  lemma EscapesSpelled()
    ensures SIMPLE == [34 as char, 92 as char, 47 as char, 98 as char, 102 as char, 110 as char, 114 as char,
                       116 as char]
    ensures EscapeValue('"') == 34 as char && EscapeValue('\\') == 92 as char && EscapeValue('/') == 47 as char
    ensures EscapeValue('b') == 8 as char && EscapeValue('f') == 12 as char && EscapeValue('n') == 10 as char
    ensures EscapeValue('r') == 13 as char && EscapeValue('t') == 9 as char
  {
  }

  /** Raw bytes exclude the quote and the backslash; strictly, control bytes too. Bytes from 0x80 up
      are parts of encoded characters and stand for themselves. */
  predicate TokenOk(t: Token, strict: bool) {
    match t
    case Raw(b) => b != '"' && b != '\\' && (strict ==> ' ' <= b)
    case Escaped(e) => e in SIMPLE
    case Unicode(h) => IsHex4(h) && Utf8.Scalar(Hex4(h))
  }

  function TokenText(t: Token): Bytes {
    match t
    case Raw(b) => [b]
    case Escaped(e) => ['\\', e]
    case Unicode(h) => ['\\', 'u'] + h
  }

  function TokenMeaning(t: Token): Bytes {
    match t
    case Raw(b) => [b]
    case Escaped(e) => [EscapeValue(e)]
    case Unicode(h) => if IsHex4(h) && Utf8.Scalar(Hex4(h)) then Utf8.Enc(Hex4(h)) else []
  }

  // Texts are given together with what comes after them: X(v, after) is the text of v
  // followed by `after`.

  function TokensText(ts: seq<Token>, after: Bytes): Bytes {
    if ts == [] then after else TokenText(ts[0]) + TokensText(ts[1..], after)
  }

  function TokensMeaning(ts: seq<Token>): Bytes {
    if ts == [] then [] else TokenMeaning(ts[0]) + TokensMeaning(ts[1..])
  }

  predicate TokensOk(ts: seq<Token>, strict: bool) {
    forall i :: 0 <= i < |ts| ==> TokenOk(ts[i], strict)
  }

  function QuotedText(ts: seq<Token>, after: Bytes): Bytes {
    ['"'] + TokensText(ts, ['"'] + after)
  }

  // ------------------------------------------------------------------- values

  predicate WsOk(ws: Bytes, strict: bool) {
    forall i :: 0 <= i < |ws| ==> if strict then ws[i] in {' ', '\t', '\n', '\r'} else IsSpace(ws[i])
  }

  function Text(v: Concrete, after: Bytes): Bytes
    decreases v, 1
  {
    match v
    case CString(ts) => QuotedText(ts, after)
    case CArray(gap, items) =>
      ['['] + (gap + (if items == [] then [']'] + after else ItemsText(items, after)))
    case CObject(gap, fields) =>
      ['{'] + (gap + (if fields == [] then ['}'] + after else FieldsText(fields, after)))
  }

  /** The items with their commas and the closing bracket. */
  function ItemsText(items: seq<Item>, after: Bytes): Bytes
    requires items != []
    decreases items, 0
  {
    var it := items[0];
    it.pre + Text(it.value, it.post + (if |items| == 1 then [']'] + after else [','] + ItemsText(items[1..], after)))
  }

  function FieldText(fd: Field, after: Bytes): Bytes
    decreases fd, 2
  {
    fd.lead + QuotedText(fd.key, fd.mid + ([':'] + (fd.item.pre + Text(fd.item.value, fd.item.post + after))))
  }

  function FieldsText(fields: seq<Field>, after: Bytes): Bytes
    requires fields != []
    decreases fields, 0
  {
    FieldText(fields[0], if |fields| == 1 then ['}'] + after else [','] + FieldsText(fields[1..], after))
  }

  /** The inner white space of an empty container is its `gap`; other containers have none. */
  predicate Ok(v: Concrete, strict: bool)
    decreases v, 1
  {
    match v
    case CString(ts) => TokensOk(ts, strict)
    case CArray(gap, items) => WsOk(gap, strict) && (items != [] ==> gap == []) && ItemsOk(items, strict)
    case CObject(gap, fields) => WsOk(gap, strict) && (fields != [] ==> gap == []) && FieldsOk(fields, strict)
  }

  predicate ItemsOk(items: seq<Item>, strict: bool)
    decreases items, 0
  {
    items != [] ==>
      var it := items[0];
      WsOk(it.pre, strict) && Ok(it.value, strict) && WsOk(it.post, strict) && ItemsOk(items[1..], strict)
  }

  predicate FieldsOk(fields: seq<Field>, strict: bool)
    decreases fields, 0
  {
    fields != [] ==>
      var fd := fields[0];
      && WsOk(fd.lead, strict) && TokensOk(fd.key, strict) && WsOk(fd.mid, strict)
      && WsOk(fd.item.pre, strict) && Ok(fd.item.value, strict) && WsOk(fd.item.post, strict)
      && FieldsOk(fields[1..], strict)
  }

  function Meaning(v: Concrete): Tree
    decreases v, 1
  {
    match v
    case CString(ts) => Str(TokensMeaning(ts))
    case CArray(_, items) => Arr(ItemsMeaning(items))
    case CObject(_, fields) => Obj(FieldsMeaning(fields))
  }

  function ItemsMeaning(items: seq<Item>): seq<Tree>
    decreases items, 0
  {
    if items == [] then []
    else
      var it := items[0];
      [Meaning(it.value)] + ItemsMeaning(items[1..])
  }

  function FieldsMeaning(fields: seq<Field>): seq<Member>
    decreases fields, 0
  {
    if fields == [] then []
    else
      var fd := fields[0];
      [Member(TokensMeaning(fd.key), Meaning(fd.item.value))] + FieldsMeaning(fields[1..])
  }

  /** A document is an object with white space around it. */
  ghost predicate Derives(text: Bytes, t: Tree, strict: bool) {
    exists it: Item {:trigger DerivesAs(text, t, strict, it)} :: DerivesAs(text, t, strict, it)
  }

  predicate DerivesAs(text: Bytes, t: Tree, strict: bool, it: Item) {
    && it.value.CObject?
    && WsOk(it.pre, strict) && Ok(it.value, strict) && WsOk(it.post, strict)
    && text == it.pre + Text(it.value, it.post)
    && Meaning(it.value) == t
  }

  // ------------------------------------------------------------- texts are prefixes

  lemma {:induction false} TokensTextAppend(ts: seq<Token>, a: Bytes, b: Bytes)
    ensures TokensText(ts, a + b) == TokensText(ts, a) + b
  {
    if ts != [] {
      TokensTextAppend(ts[1..], a, b);
      assert TokenText(ts[0]) + (TokensText(ts[1..], a) + b) == TokenText(ts[0]) + TokensText(ts[1..], a) + b;
    }
  }

  lemma QuotedTextAppend(ts: seq<Token>, a: Bytes, b: Bytes)
    ensures QuotedText(ts, a + b) == QuotedText(ts, a) + b
  {
    assert ['"'] + (a + b) == ['"'] + a + b;
    TokensTextAppend(ts, ['"'] + a, b);
    assert ['"'] + (TokensText(ts, ['"'] + a) + b) == ['"'] + TokensText(ts, ['"'] + a) + b;
  }

  lemma {:induction false} TextAppend(v: Concrete, a: Bytes, b: Bytes)
    ensures Text(v, a + b) == Text(v, a) + b
    decreases v, 1
  {
    match v
    case CString(ts) => QuotedTextAppend(ts, a, b);
    case CArray(gap, items) =>
      if items == [] {
        assert [']'] + (a + b) == [']'] + a + b;
        Assoc(gap, [']'] + a, b);
        Assoc(['['], gap + ([']'] + a), b);
      } else {
        ItemsTextAppend(items, a, b);
        Assoc(gap, ItemsText(items, a), b);
        Assoc(['['], gap + ItemsText(items, a), b);
      }
    case CObject(gap, fields) =>
      if fields == [] {
        assert ['}'] + (a + b) == ['}'] + a + b;
        Assoc(gap, ['}'] + a, b);
        Assoc(['{'], gap + (['}'] + a), b);
      } else {
        FieldsTextAppend(fields, a, b);
        Assoc(gap, FieldsText(fields, a), b);
        Assoc(['{'], gap + FieldsText(fields, a), b);
      }
  }

  lemma Assoc(x: Bytes, y: Bytes, z: Bytes)
    ensures x + (y + z) == x + y + z
  {
  }

  lemma {:induction false} ItemsTextAppend(items: seq<Item>, a: Bytes, b: Bytes)
    requires items != []
    ensures ItemsText(items, a + b) == ItemsText(items, a) + b
    decreases items, 0
  {
    var it := items[0];
    var after := if |items| == 1 then [']'] + a else [','] + ItemsText(items[1..], a);
    if |items| == 1 {
      Assoc([']'], a, b);
    } else {
      ItemsTextAppend(items[1..], a, b);
      Assoc([','], ItemsText(items[1..], a), b);
    }
    Assoc(it.post, after, b);
    TextAppend(it.value, it.post + after, b);
    Assoc(it.pre, Text(it.value, it.post + after), b);
  }

  lemma {:induction false} FieldTextAppend(fd: Field, a: Bytes, b: Bytes)
    ensures FieldText(fd, a + b) == FieldText(fd, a) + b
    decreases fd, 2
  {
    var v := Text(fd.item.value, fd.item.post + a);
    Assoc(fd.item.post, a, b);
    TextAppend(fd.item.value, fd.item.post + a, b);
    Assoc(fd.item.pre, v, b);
    Assoc([':'], fd.item.pre + v, b);
    Assoc(fd.mid, [':'] + (fd.item.pre + v), b);
    QuotedTextAppend(fd.key, fd.mid + ([':'] + (fd.item.pre + v)), b);
    Assoc(fd.lead, QuotedText(fd.key, fd.mid + ([':'] + (fd.item.pre + v))), b);
  }

  lemma {:induction false} FieldsTextAppend(fields: seq<Field>, a: Bytes, b: Bytes)
    requires fields != []
    ensures FieldsText(fields, a + b) == FieldsText(fields, a) + b
    decreases fields, 0
  {
    if |fields| == 1 {
      Assoc(['}'], a, b);
      FieldTextAppend(fields[0], ['}'] + a, b);
    } else {
      FieldsTextAppend(fields[1..], a, b);
      Assoc([','], FieldsText(fields[1..], a), b);
      FieldTextAppend(fields[0], [','] + FieldsText(fields[1..], a), b);
    }
  }

  // ---------------------------------------------------- the strict grammar is contained

  lemma {:induction false} OkRelaxes(v: Concrete)
    requires Ok(v, true)
    ensures Ok(v, false)
    decreases v, 1
  {
    match v
    case CString(_) =>
    case CArray(_, items) => ItemsRelax(items);
    case CObject(_, fields) => FieldsRelax(fields);
  }

  lemma {:induction false} ItemsRelax(items: seq<Item>)
    requires ItemsOk(items, true)
    ensures ItemsOk(items, false)
    decreases items, 0
  {
    if items != [] {
      var it := items[0];
      OkRelaxes(it.value);
      ItemsRelax(items[1..]);
    }
  }

  lemma {:induction false} FieldsRelax(fields: seq<Field>)
    requires FieldsOk(fields, true)
    ensures FieldsOk(fields, false)
    decreases fields, 0
  {
    if fields != [] {
      var fd := fields[0];
      OkRelaxes(fd.item.value);
      FieldsRelax(fields[1..]);
    }
  }

  lemma StrictDerivesRelaxed(text: Bytes, t: Tree)
    requires Derives(text, t, true)
    ensures Derives(text, t, false)
  {
    var it :| DerivesAs(text, t, true, it);
    OkRelaxes(it.value);
    assert DerivesAs(text, t, false, it);
  }
}
