/**
  The JSON printers. Every printer quotes strings the same way and joins its parts with commas
  between brackets; Render is that composition for arbitrary trees, and parsing inverts it.
 */
module JsonPrinter {
  import opened Bytes
  import opened Commas
  import opened JsonGrammar
  import opened JsonSpec

  // ------------------------------------------------------------------- strings

  function HexDigit(n: nat): byte
    requires n < 16
  {
    if n < 10 then ('0' as int + n) as char else ('a' as int + n - 10) as char
  }

  /** The token the escaper writes for one byte. */
  function EscapeToken(b: byte): Token {
    if b == '\\' || b == '"' then Escaped(b)
    else if b == '\n' then Escaped('n')
    else if b == '\r' then Escaped('r')
    else if b == '\t' then Escaped('t')
    else if b < ' ' then Unicode(['0', '0', HexDigit(b as int / 16), HexDigit(b as int % 16)])
    else Raw(b)
  }

  function Escape(s: Bytes): Bytes {
    if s == [] then [] else TokenText(EscapeToken(s[0])) + Escape(s[1..])
  }

  function Quote(s: Bytes): Bytes {
    ['"'] + Escape(s) + ['"']
  }

  /** What the escaper writes for each byte. */
  lemma EscapeSpelled(b: byte)
    ensures Escape([b]) ==
            if b as int == 34 then ['\\', '"']
            else if b as int == 92 then ['\\', '\\']
            else if b as int == 10 then ['\\', 'n']
            else if b as int == 13 then ['\\', 'r']
            else if b as int == 9 then ['\\', 't']
            else if b as int < 32 then ['\\', 'u', '0', '0', LOWER[b as int / 16], LOWER[b as int % 16]]
            else [b]
  {
    assert [b][1..] == [];
  }

  lemma {:induction false} EscapeSnoc(s: Bytes, b: byte)
    ensures Escape(s + [b]) == Escape(s) + TokenText(EscapeToken(b))
  {
    if s == [] {
      assert s + [b] == [b];
    } else {
      EscapeSnoc(s[1..], b);
      assert (s + [b])[1..] == s[1..] + [b];
      Assoc(TokenText(EscapeToken(s[0])), Escape(s[1..]), TokenText(EscapeToken(b)));
    }
  }

  method JsonEscape(value: Bytes) returns (out: Bytes)
    ensures out == Escape(value)
  {
    out := [];
    for k := 0 to |value|
      invariant out == Escape(value[..k])
    {
      var ch := value[k];
      EscapeSnoc(value[..k], ch);
      assert value[..k + 1] == value[..k] + [ch];
      if ch == '\\' {
        out := out + ['\\', '\\'];
      } else if ch == '"' {
        out := out + ['\\', '"'];
      } else if ch == '\n' {
        out := out + ['\\', 'n'];
      } else if ch == '\r' {
        out := out + ['\\', 'r'];
      } else if ch == '\t' {
        out := out + ['\\', 't'];
      } else if ch < ' ' {
        out := out + (['\\', 'u'] + ['0', '0', HexDigit(ch as int / 16), HexDigit(ch as int % 16)]);
      } else {
        out := out + [ch];
      }
    }
    assert value[..|value|] == value;
  }

  method JsonQuote(value: Bytes) returns (out: Bytes)
    ensures out == Quote(value)
  {
    var escaped := JsonEscape(value);
    out := ['"'] + escaped + ['"'];
  }

  function EscapeTokens(s: Bytes): seq<Token> {
    if s == [] then [] else [EscapeToken(s[0])] + EscapeTokens(s[1..])
  }

  lemma EscapeTokenMeans(b: byte)
    ensures TokenOk(EscapeToken(b), true) && TokenMeaning(EscapeToken(b)) == [b]
  {
    var t := EscapeToken(b);
    if t.Unicode? {
      assert Hex4(t.hex) == b as int;
    }
  }

  lemma {:induction false} EscapeTokensMean(s: Bytes, after: Bytes)
    ensures TokensOk(EscapeTokens(s), true) && TokensMeaning(EscapeTokens(s)) == s
    ensures TokensText(EscapeTokens(s), after) == Escape(s) + after
  {
    if s == [] {
      assert [] + after == after;
    } else {
      EscapeTokenMeans(s[0]);
      EscapeTokensMean(s[1..], after);
      assert [EscapeToken(s[0])] + EscapeTokens(s[1..]) == EscapeTokens(s);
      assert EscapeTokens(s)[1..] == EscapeTokens(s[1..]);
      Assoc(TokenText(EscapeToken(s[0])), Escape(s[1..]), after);
      assert [s[0]] + s[1..] == s;
    }
  }

  lemma Enclosed(e: Bytes, after: Bytes)
    ensures ['"'] + (e + (['"'] + after)) == ['"'] + e + ['"'] + after
  {
  }

  lemma QuoteIsText(s: Bytes, after: Bytes)
    ensures QuotedText(EscapeTokens(s), after) == Quote(s) + after
  {
    EscapeTokensMean(s, ['"'] + after);
    Enclosed(Escape(s), after);
  }

  lemma TokensRelax(ts: seq<Token>)
    requires TokensOk(ts, true)
    ensures TokensOk(ts, false)
  {
    forall i | 0 <= i < |ts| ensures TokenOk(ts[i], false) {
      assert TokenOk(ts[i], true);
    }
  }

  /** Quoting is undone by parsing, for every byte string and whatever follows. */
  lemma QuoteParses(s: Bytes, rest: Bytes)
    ensures ParseString(Quote(s) + rest) == Done(s, rest)
  {
    EscapeTokensMean(s, rest);
    QuoteIsText(s, rest);
    TokensRelax(EscapeTokens(s));
    ParsesQuoted(EscapeTokens(s), rest);
  }

  // ------------------------------------------------------------------- trees

  function Render(t: Tree): Bytes
    decreases t, 1
  {
    match t
    case Str(s) => Quote(s)
    case Arr(items) => ['['] + Join(RenderItems(items)) + [']']
    case Obj(members) => ['{'] + Join(RenderMembers(members)) + ['}']
  }

  function RenderItems(ts: seq<Tree>): (r: seq<Bytes>)
    ensures |r| == |ts|
    decreases ts, 0
  {
    if ts == [] then [] else [Render(ts[0])] + RenderItems(ts[1..])
  }

  function RenderMembers(ms: seq<Member>): (r: seq<Bytes>)
    ensures |r| == |ms|
    decreases ms, 0
  {
    if ms == [] then []
    else
      var m := ms[0];
      [Quote(m.key) + [':'] + Render(m.value)] + RenderMembers(ms[1..])
  }

  /** The concrete value the printers write: no white space anywhere. */
  function Canonical(t: Tree): Concrete
    decreases t, 1
  {
    match t
    case Str(s) => CString(EscapeTokens(s))
    case Arr(items) => CArray([], CanonicalItems(items))
    case Obj(members) => CObject([], CanonicalFields(members))
  }

  function CanonicalItems(ts: seq<Tree>): (r: seq<Item>)
    ensures |r| == |ts|
    decreases ts, 0
  {
    if ts == [] then [] else [Item([], Canonical(ts[0]), [])] + CanonicalItems(ts[1..])
  }

  function CanonicalFields(ms: seq<Member>): (r: seq<Field>)
    ensures |r| == |ms|
    decreases ms, 0
  {
    if ms == [] then []
    else
      var m := ms[0];
      [Field([], EscapeTokens(m.key), [], Item([], Canonical(m.value), []))] + CanonicalFields(ms[1..])
  }

  lemma {:induction false} CanonicalMeans(t: Tree)
    ensures Ok(Canonical(t), true) && Meaning(Canonical(t)) == t
    decreases t, 1
  {
    match t
    case Str(s) => EscapeTokensMean(s, []);
    case Arr(items) => CanonicalItemsMean(items);
    case Obj(members) => CanonicalFieldsMean(members);
  }

  lemma {:induction false} CanonicalItemsMean(ts: seq<Tree>)
    ensures ItemsOk(CanonicalItems(ts), true) && ItemsMeaning(CanonicalItems(ts)) == ts
    decreases ts, 0
  {
    if ts != [] {
      CanonicalMeans(ts[0]);
      CanonicalItemsMean(ts[1..]);
      assert CanonicalItems(ts)[1..] == CanonicalItems(ts[1..]);
      assert [ts[0]] + ts[1..] == ts;
    }
  }

  lemma FieldsFirst(fd: Field, rest: seq<Field>)
    requires WsOk(fd.lead, true) && TokensOk(fd.key, true) && WsOk(fd.mid, true) && FieldsOk(rest, true)
    requires WsOk(fd.item.pre, true) && Ok(fd.item.value, true) && WsOk(fd.item.post, true)
    ensures FieldsMeaning([fd] + rest) ==
            [Member(TokensMeaning(fd.key), Meaning(fd.item.value))] + FieldsMeaning(rest)
    ensures FieldsOk([fd] + rest, true)
  {
    assert ([fd] + rest)[1..] == rest;
  }

  lemma {:induction false} CanonicalFieldsMean(ms: seq<Member>)
    ensures FieldsOk(CanonicalFields(ms), true) && FieldsMeaning(CanonicalFields(ms)) == ms
    decreases ms, 0
  {
    if ms != [] {
      var m := ms[0];
      CanonicalMeans(m.value);
      EscapeTokensMean(m.key, []);
      CanonicalFieldsMean(ms[1..]);
      FieldsFirst(Field([], EscapeTokens(m.key), [], Item([], Canonical(m.value), [])), CanonicalFields(ms[1..]));
      assert [m] + ms[1..] == ms;
    }
  }

  /** Bracketed text followed by more text, associated either way. */
  lemma Bracketed(open: byte, j: Bytes, close: byte, after: Bytes)
    ensures [open] + ([] + (j + [close] + after)) == [open] + j + [close] + after
    ensures [open] + ([] + ([close] + after)) == [open] + [] + [close] + after
  {
  }

  /** A part, then the rest of the list. */
  lemma Listed(part: Bytes, j: Bytes, close: byte, after: Bytes)
    ensures part + ([','] + (j + [close] + after)) == part + ([','] + j) + [close] + after
  {
  }

  lemma {:induction false} RenderIsText(t: Tree, after: Bytes)
    ensures Text(Canonical(t), after) == Render(t) + after
    decreases t, 1
  {
    match t
    case Str(s) => QuoteIsText(s, after);
    case Arr(items) =>
      Bracketed('[', Join(RenderItems(items)), ']', after);
      if items != [] {
        RenderItemsIsText(items, after);
      }
    case Obj(members) =>
      Bracketed('{', Join(RenderMembers(members)), '}', after);
      if members != [] {
        RenderMembersIsText(members, after);
      }
  }

  lemma {:induction false} RenderItemsIsText(ts: seq<Tree>, after: Bytes)
    requires ts != []
    ensures ItemsText(CanonicalItems(ts), after) == Join(RenderItems(ts)) + [']'] + after
    decreases ts, 0
  {
    var items := CanonicalItems(ts);
    assert items[1..] == CanonicalItems(ts[1..]);
    assert RenderItems(ts)[1..] == RenderItems(ts[1..]);
    var next := if |items| == 1 then [']'] + after else [','] + ItemsText(items[1..], after);
    ItemIsText(ts[0], next);
    assert ItemsText(items, after) == Render(ts[0]) + next;
    if |ts| > 1 {
      RenderItemsIsText(ts[1..], after);
      Listed(Render(ts[0]), Join(RenderItems(ts[1..])), ']', after);
    } else {
      Assoc(Render(ts[0]), [']'], after);
    }
  }

  lemma ItemIsText(t: Tree, next: Bytes)
    ensures [] + Text(Canonical(t), [] + next) == Render(t) + next
    decreases t, 2
  {
    Nil(next);
    RenderIsText(t, next);
    Nil(Text(Canonical(t), next));
  }

  lemma RenderMemberIsText(m: Member, next: Bytes)
    ensures FieldText(Field([], EscapeTokens(m.key), [], Item([], Canonical(m.value), [])), next)
         == Quote(m.key) + [':'] + Render(m.value) + next
    decreases m, 2
  {
    var v := Render(m.value) + next;
    var colon := [':'] + v;
    RenderIsText(m.value, next);
    Nil(next);
    Nil(v);
    Nil(colon);
    QuoteIsText(m.key, colon);
    Nil(Quote(m.key) + colon);
    Assoc(Quote(m.key), [':'], v);
    Assoc(Quote(m.key) + [':'], Render(m.value), next);
  }

  lemma Nil(s: Bytes)
    ensures [] + s == s
  {
  }

  lemma {:induction false} RenderMembersIsText(ms: seq<Member>, after: Bytes)
    requires ms != []
    ensures FieldsText(CanonicalFields(ms), after) == Join(RenderMembers(ms)) + ['}'] + after
    decreases ms, 0
  {
    var fields := CanonicalFields(ms);
    assert fields[1..] == CanonicalFields(ms[1..]);
    assert RenderMembers(ms)[1..] == RenderMembers(ms[1..]);
    var next := if |fields| == 1 then ['}'] + after else [','] + FieldsText(fields[1..], after);
    RenderMemberIsText(ms[0], next);
    var head := Quote(ms[0].key) + [':'] + Render(ms[0].value);
    assert FieldsText(fields, after) == head + next;
    if |ms| > 1 {
      RenderMembersIsText(ms[1..], after);
      Listed(head, Join(RenderMembers(ms[1..])), '}', after);
    } else {
      Assoc(head, ['}'], after);
    }
  }

  /** The round trip: parsing a rendering gives the tree back and consumes exactly the rendering. */
  lemma RenderParses(t: Tree, rest: Bytes)
    ensures ParseValue(Render(t) + rest) == Done(t, rest)
  {
    CanonicalMeans(t);
    OkRelaxes(Canonical(t));
    RenderIsText(t, rest);
    ParsesText([], Canonical(t), rest);
    assert [] + Text(Canonical(t), rest) == Text(Canonical(t), rest);
  }

  /** Rendering is injective: different trees never print alike. */
  lemma RenderInjective(a: Tree, b: Tree)
    requires Render(a) == Render(b)
    ensures a == b
  {
    RenderParses(a, []);
    RenderParses(b, []);
  }

  /** A rendered object is a standard document. */
  lemma RenderedObjectIsStandard(ms: seq<Member>)
    ensures Derives(Render(Obj(ms)), Obj(ms), true)
    ensures ParseRoot(Render(Obj(ms))) == Done(Obj(ms), [])
  {
    var text := Render(Obj(ms));
    CanonicalMeans(Obj(ms));
    RenderIsText(Obj(ms), []);
    assert text + [] == text;
    assert [] + Text(Canonical(Obj(ms)), []) == Text(Canonical(Obj(ms)), []);
    assert DerivesAs(text, Obj(ms), true, Item([], Canonical(Obj(ms)), []));
    AcceptsStandard(text, Obj(ms));
  }

  // ------------------------------------------------------- the printers of the server

  /** Bytes the escaper leaves alone. */
  predicate Plain(s: Bytes) {
    forall i :: 0 <= i < |s| ==> ' ' <= s[i] && s[i] != '"' && s[i] != '\\'
  }

  lemma {:induction false} PlainEscape(s: Bytes)
    requires Plain(s)
    ensures Escape(s) == s
  {
    if s != [] {
      PlainEscape(s[1..]);
      assert [s[0]] + s[1..] == s;
    }
  }

  function Strings(values: seq<Bytes>): (r: seq<Tree>)
    ensures |r| == |values| && forall i :: 0 <= i < |r| ==> r[i] == Str(values[i])
  {
    seq(|values|, i requires 0 <= i < |values| => Str(values[i]))
  }

  lemma {:induction false} RenderItemsAt(ts: seq<Tree>, i: nat)
    requires i < |ts|
    ensures RenderItems(ts)[i] == Render(ts[i])
  {
    if i > 0 {
      RenderItemsAt(ts[1..], i - 1);
    }
  }

  /** One more part, as every printer loop writes it. */
  method AppendPart(out: Bytes, open: byte, ghost parts: seq<Bytes>, i: nat, part: Bytes) returns (out': Bytes)
    requires out == [open] + Join(parts) && |parts| == i
    ensures out' == [open] + Join(parts + [part])
  {
    JoinSnoc(parts, part);
    out' := out;
    if i != 0 {
      out' := out' + [','];
    }
    out' := out' + part;
    assert i != 0 ==> [open] + Join(parts) + [','] + part == [open] + (Join(parts) + [','] + part);
  }

  lemma StringNext(values: seq<Bytes>, i: nat)
    requires i < |values|
    ensures var parts := RenderItems(Strings(values));
      parts[..i + 1] == parts[..i] + [Quote(values[i])]
  {
    RenderItemsAt(Strings(values), i);
  }

  lemma FirstAndLast(parts: seq<Bytes>)
    ensures Join(parts[..0]) == [] && parts[..|parts|] == parts
  {
  }

  method JsonArrayStrings(values: seq<Bytes>) returns (out: Bytes)
    ensures out == Render(Arr(Strings(values)))
  {
    ghost var parts := RenderItems(Strings(values));
    FirstAndLast(parts);
    out := ['['];
    for i := 0 to |values|
      invariant out == ['['] + Join(parts[..i])
    {
      var quoted := JsonQuote(values[i]);
      StringNext(values, i);
      out := AppendPart(out, '[', parts[..i], i, quoted);
    }
    out := out + [']'];
  }

  datatype RfcReference = RfcReference(rfc: Bytes, section: Bytes, title: Bytes, url: Bytes)

  const RFC: Bytes := "rfc"
  const SECTION: Bytes := "section"
  const TITLE: Bytes := "title"
  const URL: Bytes := "url"
  const ERROR: Bytes := "error"
  const ADD_ADDRESSES: Bytes := "add_addresses"
  const REMOVE_ADDRESSES: Bytes := "remove_addresses"

  function RfcTree(r: RfcReference): Tree {
    Obj([Member(RFC, Str(r.rfc)), Member(SECTION, Str(r.section)), Member(TITLE, Str(r.title)),
      Member(URL, Str(r.url))])
  }

  function RfcTrees(values: seq<RfcReference>): (r: seq<Tree>)
    ensures |r| == |values| && forall i :: 0 <= i < |r| ==> r[i] == RfcTree(values[i])
  {
    seq(|values|, i requires 0 <= i < |values| => RfcTree(values[i]))
  }

  function Part(m: Member): Bytes {
    Quote(m.key) + [':'] + Render(m.value)
  }

  lemma {:induction false} RenderMembersAt(ms: seq<Member>, i: nat)
    requires i < |ms|
    ensures RenderMembers(ms)[i] == Part(ms[i])
  {
    if i > 0 {
      RenderMembersAt(ms[1..], i - 1);
    }
  }

  /** The first n members of an object, as far as they are printed. */
  ghost predicate Printed(out: Bytes, ms: seq<Member>, n: nat) {
    n <= |ms| && out == ['{'] + Join(RenderMembers(ms)[..n])
  }

  lemma NonePrinted(ms: seq<Member>)
    ensures Printed(['{'], ms, 0)
  {
    assert RenderMembers(ms)[..0] == [];
  }

  /** One more member of an object, its key written as a text constant. */
  method AppendMember(out: Bytes, key: Bytes, ghost ms: seq<Member>, i: nat, value: Bytes) returns (out': Bytes)
    requires i < |ms| && ms[i].key == key && Plain(key) && value == Render(ms[i].value)
    requires Printed(out, ms, i)
    ensures Printed(out', ms, i + 1)
  {
    PlainEscape(key);
    RenderMembersAt(ms, i);
    var part := ['"'] + key + ['"'] + [':'] + value;
    assert RenderMembers(ms)[..i + 1] == RenderMembers(ms)[..i] + [part];
    out' := AppendPart(out, '{', RenderMembers(ms)[..i], i, part);
  }

  /** The members printed so far, with the closing brace. */
  lemma CloseMembers(ms: seq<Member>, out: Bytes)
    requires Printed(out, ms, |ms|)
    ensures out + ['}'] == Render(Obj(ms))
  {
    TakeAll(RenderMembers(ms));
  }

  lemma TakeAll(parts: seq<Bytes>)
    ensures parts[..|parts|] == parts
  {
  }

  method JsonRfcReference(value: RfcReference) returns (out: Bytes)
    ensures out == Render(RfcTree(value))
  {
    out := RfcMembers(value, RfcTree(value).members);
  }

  lemma PlainKeys()
    ensures Plain(RFC) && Plain(SECTION) && Plain(TITLE) && Plain(URL)
    ensures Plain(ERROR) && Plain(ADD_ADDRESSES) && Plain(REMOVE_ADDRESSES)
  {
  }

  method RfcMembers(value: RfcReference, ghost ms: seq<Member>) returns (out: Bytes)
    requires |ms| == 4 && ms[0] == Member(RFC, Str(value.rfc)) && ms[1] == Member(SECTION, Str(value.section))
    requires ms[2] == Member(TITLE, Str(value.title)) && ms[3] == Member(URL, Str(value.url))
    ensures out == Render(Obj(ms))
  {
    PlainKeys();
    var rfc := JsonQuote(value.rfc);
    var section := JsonQuote(value.section);
    var title := JsonQuote(value.title);
    var url := JsonQuote(value.url);
    out := ['{'];
    NonePrinted(ms);
    out := AppendMember(out, RFC, ms, 0, rfc);
    out := AppendMember(out, SECTION, ms, 1, section);
    out := AppendMember(out, TITLE, ms, 2, title);
    out := AppendMember(out, URL, ms, 3, url);
    CloseMembers(ms, out);
    out := out + ['}'];
  }

  method JsonRfcReferences(values: seq<RfcReference>) returns (out: Bytes)
    ensures out == Render(Arr(RfcTrees(values)))
  {
    ghost var parts := RenderItems(RfcTrees(values));
    out := ['['];
    assert out == ['['] + Join(parts[..0]);
    for i := 0 to |values|
      invariant out == ['['] + Join(parts[..i])
    {
      var part := JsonRfcReference(values[i]);
      RenderItemsAt(RfcTrees(values), i);
      out := AppendPart(out, '[', parts[..i], i, part);
      assert parts[..i + 1] == parts[..i] + [part];
    }
    assert parts[..|values|] == parts;
    out := out + [']'];
  }

  method JsonAddressReconfigContract(add: seq<Bytes>, remove: seq<Bytes>) returns (out: Bytes)
    ensures out == Render(Obj([Member(ADD_ADDRESSES, Arr(Strings(add))),
      Member(REMOVE_ADDRESSES, Arr(Strings(remove)))]))
  {
    var added := JsonArrayStrings(add);
    var removed := JsonArrayStrings(remove);
    PlainKeys();
    out := TwoMembers(ADD_ADDRESSES, added, REMOVE_ADDRESSES, removed,
      [Member(ADD_ADDRESSES, Arr(Strings(add))), Member(REMOVE_ADDRESSES, Arr(Strings(remove)))]);
  }

  method TwoMembers(key0: Bytes, value0: Bytes, key1: Bytes, value1: Bytes, ghost ms: seq<Member>) returns (out: Bytes)
    requires |ms| == 2 && Plain(key0) && Plain(key1)
    requires ms[0].key == key0 && value0 == Render(ms[0].value)
    requires ms[1].key == key1 && value1 == Render(ms[1].value)
    ensures out == Render(Obj(ms))
  {
    out := ['{'];
    NonePrinted(ms);
    out := AppendMember(out, key0, ms, 0, value0);
    out := AppendMember(out, key1, ms, 1, value1);
    CloseMembers(ms, out);
    out := out + ['}'];
  }

  method JsonError(message: Bytes) returns (out: Bytes)
    ensures out == Render(Obj([Member(ERROR, Str(message))]))
    ensures ParseRoot(out) == Done(Obj([Member(ERROR, Str(message))]), [])
  {
    ghost var ms := [Member(ERROR, Str(message))];
    RenderedObjectIsStandard(ms);
    var quoted := JsonQuote(message);
    PlainKeys();
    out := OneMember(ERROR, quoted, ms);
  }

  method OneMember(key: Bytes, value: Bytes, ghost ms: seq<Member>) returns (out: Bytes)
    requires |ms| == 1 && Plain(key) && ms[0].key == key && value == Render(ms[0].value)
    ensures out == Render(Obj(ms))
  {
    out := ['{'];
    NonePrinted(ms);
    out := AppendMember(out, key, ms, 0, value);
    CloseMembers(ms, out);
    out := out + ['}'];
  }

  // --------------------------------------------------------- renderings are single lines

  predicate Printable(s: Bytes) {
    forall i :: 0 <= i < |s| ==> ' ' <= s[i]
  }

  lemma {:induction false} EscapePrintable(s: Bytes)
    ensures Printable(Escape(s))
  {
    if s != [] {
      EscapePrintable(s[1..]);
    }
  }

  lemma {:induction false} JoinPrintable(parts: seq<Bytes>)
    requires forall i :: 0 <= i < |parts| ==> Printable(parts[i])
    ensures Printable(Join(parts))
  {
    if |parts| > 1 {
      JoinPrintable(parts[1..]);
    }
  }

  /** No rendering contains a control byte; in particular it is a single line. */
  lemma {:induction false} RenderPrintable(t: Tree)
    ensures Printable(Render(t))
    decreases t, 1
  {
    match t
    case Str(s) => EscapePrintable(s);
    case Arr(items) =>
      RenderItemsPrintable(items);
      JoinPrintable(RenderItems(items));
    case Obj(members) =>
      RenderMembersPrintable(members);
      JoinPrintable(RenderMembers(members));
  }

  lemma {:induction false} RenderItemsPrintable(ts: seq<Tree>)
    ensures forall i :: 0 <= i < |ts| ==> Printable(RenderItems(ts)[i])
    decreases ts, 0
  {
    if ts != [] {
      RenderPrintable(ts[0]);
      RenderItemsPrintable(ts[1..]);
    }
  }

  lemma {:induction false} RenderMembersPrintable(ms: seq<Member>)
    ensures forall i :: 0 <= i < |ms| ==> Printable(RenderMembers(ms)[i])
    decreases ms, 0
  {
    if ms != [] {
      var m := ms[0];
      RenderPrintable(m.value);
      EscapePrintable(m.key);
      RenderMembersPrintable(ms[1..]);
    }
  }
}
