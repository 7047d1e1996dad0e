/**
  The recursive-descent parser as functions on the unread suffix of the input, and its exact
  relation to the grammar: it accepts precisely the relaxed grammar, with the standard meaning.
 */
module JsonSpec {
  import opened Bytes
  import opened JsonGrammar

  datatype Parse<T> = Done(value: T, rest: Bytes) | Failed(error: string)

  /** White space as the program skips it. */
  function SkipWs(s: Bytes): (r: Bytes)
    ensures |r| <= |s|
  {
    if s != [] && IsSpace(s[0]) then SkipWs(s[1..]) else s
  }

  /** The contents of a string after its opening quote. */
  function ParseChars(s: Bytes): (r: Parse<Bytes>)
    ensures r.Done? ==> |r.rest| < |s|
    decreases |s|
  {
    if s == [] then Failed("unterminated JSON string")
    else if s[0] == '"' then Done([], s[1..])
    else if s[0] != '\\' then Prepend([s[0]], ParseChars(s[1..]))
    else if |s| < 2 then Failed("invalid JSON escape")
    else if s[1] == 'u' then
      if |s| < 6 || !IsHex4(s[2..6]) then Failed("invalid JSON unicode escape")
      else if !Utf8.Scalar(Hex4(s[2..6])) then Failed("unsupported JSON unicode escape")
      else Prepend(Utf8.Enc(Hex4(s[2..6])), ParseChars(s[6..]))
    else if s[1] in SIMPLE then Prepend([EscapeValue(s[1])], ParseChars(s[2..]))
    else Failed("unsupported JSON escape")
  }

  function Prepend(b: Bytes, r: Parse<Bytes>): Parse<Bytes> {
    if r.Done? then Done(b + r.value, r.rest) else r
  }

  function ParseString(s: Bytes): (r: Parse<Bytes>)
    ensures r.Done? ==> |r.rest| < |s|
  {
    if s == [] || s[0] != '"' then Failed("expected JSON string") else ParseChars(s[1..])
  }

  function ParseValue(s: Bytes): (r: Parse<Tree>)
    ensures r.Done? ==> |r.rest| < |s|
    decreases |s|, 2
  {
    var s := SkipWs(s);
    if s == [] then Failed("expected JSON value")
    else if s[0] == '"' then
      match ParseString(s)
      case Done(b, rest) => Done(Str(b), rest)
      case Failed(error) => Failed(error)
    else if s[0] == '{' then ParseObject(s)
    else if s[0] == '[' then ParseArray(s)
    else Failed("unsupported JSON value")
  }

  function ParseArray(s: Bytes): (r: Parse<Tree>)
    ensures r.Done? ==> |r.rest| < |s|
    decreases |s|, 1
  {
    var s := SkipWs(s);
    if s == [] || s[0] != '[' then Failed("expected JSON array")
    else
      var t := SkipWs(s[1..]);
      if t != [] && t[0] == ']' then Done(Arr([]), t[1..])
      else
        match ParseItems(t)
        case Done(items, rest) => Done(Arr(items), rest)
        case Failed(error) => Failed(error)
  }

  /** One item and whatever follows it up to the closing bracket. */
  function ParseItems(s: Bytes): (r: Parse<seq<Tree>>)
    ensures r.Done? ==> |r.rest| < |s|
    decreases |s|, 3
  {
    if s == [] then Failed("unterminated JSON array")
    else
      match ParseValue(s)
      case Failed(error) => Failed(error)
      case Done(v, rest) =>
        var t := SkipWs(rest);
        if t == [] then Failed("unterminated JSON array")
        else if t[0] == ']' then Done([v], t[1..])
        else if t[0] != ',' then Failed("expected ','")
        else
          match ParseItems(t[1..])
          case Failed(error) => Failed(error)
          case Done(vs, rest') => Done([v] + vs, rest')
  }

  function ParseObject(s: Bytes): (r: Parse<Tree>)
    ensures r.Done? ==> |r.rest| < |s|
    decreases |s|, 1
  {
    var s := SkipWs(s);
    if s == [] || s[0] != '{' then Failed("expected JSON object")
    else
      var t := SkipWs(s[1..]);
      if t != [] && t[0] == '}' then Done(Obj([]), t[1..])
      else
        match ParseFields(t)
        case Done(ms, rest) => Done(Obj(ms), rest)
        case Failed(error) => Failed(error)
  }

  /** One member: key, colon, value. */
  function ParseMember(s: Bytes): (r: Parse<Member>)
    ensures r.Done? ==> |r.rest| < |s|
    decreases |s|, 3
  {
    match ParseString(SkipWs(s))
    case Failed(error) => Failed(error)
    case Done(key, rest) =>
      var t := SkipWs(rest);
      if t == [] || t[0] != ':' then Failed("expected ':'")
      else
        match ParseValue(t[1..])
        case Failed(error) => Failed(error)
        case Done(v, rest') => Done(Member(key, v), rest')
  }

  function ParseFields(s: Bytes): (r: Parse<seq<Member>>)
    ensures r.Done? ==> |r.rest| < |s|
    decreases |s|, 4
  {
    if s == [] then Failed("unterminated JSON object")
    else
      match ParseMember(s)
      case Failed(error) => Failed(error)
      case Done(m, rest) =>
        var t := SkipWs(rest);
        if t == [] then Failed("unterminated JSON object")
        else if t[0] == '}' then Done([m], t[1..])
        else if t[0] != ',' then Failed("expected ','")
        else
          match ParseFields(t[1..])
          case Failed(error) => Failed(error)
          case Done(ms, rest') => Done([m] + ms, rest')
  }

  function ParseRoot(s: Bytes): (r: Parse<Tree>)
    ensures r.Done? ==> r.value.Obj? && r.rest == []
  {
    match ParseObject(s)
    case Failed(error) => Failed(error)
    case Done(t, rest) =>
      if SkipWs(rest) != [] then Failed("unexpected trailing JSON content") else Done(t, [])
  }

  // ------------------------------------------------------------------ completeness

  lemma {:induction false} SkipsWs(ws: Bytes, s: Bytes)
    requires WsOk(ws, false) && (s == [] || !IsSpace(s[0]))
    ensures SkipWs(ws + s) == s
  {
    if ws == [] {
      assert ws + s == s;
    } else {
      assert (ws + s)[1..] == ws[1..] + s;
      SkipsWs(ws[1..], s);
    }
  }

  lemma {:induction false} SkipIdempotent(s: Bytes)
    ensures SkipWs(SkipWs(s)) == SkipWs(s)
  {
    if s != [] && IsSpace(s[0]) {
      SkipIdempotent(s[1..]);
    }
  }

  /** White space before a value, an item or a member may be skipped beforehand. */
  lemma SkippedBefore(s: Bytes)
    ensures ParseValue(SkipWs(s)) == ParseValue(s)
    ensures SkipWs(s) != [] ==> ParseItems(SkipWs(s)) == ParseItems(s) && ParseFields(SkipWs(s)) == ParseFields(s)
    ensures ParseObject(SkipWs(s)) == ParseObject(s)
  {
    SkipIdempotent(s);
    SkippedValue(s);
    SkippedMember(s);
  }

  lemma SkippedValue(s: Bytes)
    requires SkipWs(SkipWs(s)) == SkipWs(s)
    ensures ParseValue(SkipWs(s)) == ParseValue(s) && ParseObject(SkipWs(s)) == ParseObject(s)
  {
  }

  lemma SkippedMember(s: Bytes)
    requires SkipWs(SkipWs(s)) == SkipWs(s)
    ensures ParseMember(SkipWs(s)) == ParseMember(s)
  {
  }

  lemma {:induction false} ParsesTokens(ts: seq<Token>, rest: Bytes)
    requires TokensOk(ts, false)
    ensures ParseChars(TokensText(ts, ['"'] + rest)) == Done(TokensMeaning(ts), rest)
  {
    if ts == [] {
      assert (['"'] + rest)[1..] == rest;
    } else {
      ParsesTokens(ts[1..], rest);
      ParsesToken(ts[0], TokensText(ts[1..], ['"'] + rest));
    }
  }

  lemma ParsesToken(t: Token, tail: Bytes)
    requires TokenOk(t, false)
    ensures ParseChars(TokenText(t) + tail) == Prepend(TokenMeaning(t), ParseChars(tail))
  {
    var s := TokenText(t) + tail;
    match t
    case Raw(b) => assert s[0] == b && s[1..] == tail;
    case Escaped(e) => assert s[0] == '\\' && s[1] == e && s[2..] == tail;
    case Unicode(h) =>
      assert s[0] == '\\' && s[1] == 'u' && s[2..6] == h && s[6..] == tail;
  }

  lemma ParsesQuoted(ts: seq<Token>, rest: Bytes)
    requires TokensOk(ts, false)
    ensures ParseString(QuotedText(ts, rest)) == Done(TokensMeaning(ts), rest)
  {
    assert QuotedText(ts, rest)[1..] == TokensText(ts, ['"'] + rest);
    ParsesTokens(ts, rest);
  }

  lemma TextStarts(v: Concrete, after: Bytes)
    ensures Text(v, after) != [] && !IsSpace(Text(v, after)[0])
    ensures Text(v, after)[0] == match v case CString(_) => '"' case CArray(_, _) => '[' case CObject(_, _) => '{'
  {
  }

  /** A well-formed value parses to its meaning, whatever follows it. */
  lemma {:induction false} ParsesText(ws: Bytes, v: Concrete, rest: Bytes)
    requires WsOk(ws, false) && Ok(v, false)
    ensures ParseValue(ws + Text(v, rest)) == Done(Meaning(v), rest)
    decreases v, 1
  {
    var s := Text(v, rest);
    TextStarts(v, rest);
    SkipsWs(ws, s);
    match v
    case CString(ts) => ParsesQuoted(ts, rest);
    case CArray(gap, items) => ParsesArray(gap, items, rest);
    case CObject(gap, fields) => ParsesObject(gap, fields, rest);
  }

  lemma {:induction false} ParsesArray(gap: Bytes, items: seq<Item>, rest: Bytes)
    requires Ok(CArray(gap, items), false)
    ensures ParseArray(Text(CArray(gap, items), rest)) == Done(Arr(ItemsMeaning(items)), rest)
    decreases items, 2
  {
    var s := Text(CArray(gap, items), rest);
    if items == [] {
      var inner := [']'] + rest;
      assert s[1..] == gap + inner;
      SkipsWs(gap, inner);
      assert inner[1..] == rest;
    } else {
      var inner := ItemsText(items, rest);
      assert s[1..] == inner;
      ParsesItems(items, rest);
      ItemsStart(items, rest);
      SkippedBefore(inner);
    }
  }

  lemma {:induction false} ParsesObject(gap: Bytes, fields: seq<Field>, rest: Bytes)
    requires Ok(CObject(gap, fields), false)
    ensures ParseObject(Text(CObject(gap, fields), rest)) == Done(Obj(FieldsMeaning(fields)), rest)
    decreases fields, 2
  {
    var s := Text(CObject(gap, fields), rest);
    if fields == [] {
      var inner := ['}'] + rest;
      assert s[1..] == gap + inner;
      SkipsWs(gap, inner);
      assert inner[1..] == rest;
    } else {
      var inner := FieldsText(fields, rest);
      assert s[1..] == inner;
      ParsesFields(fields, rest);
      FieldsStart(fields, rest);
      SkippedBefore(inner);
    }
  }

  /** White space before the first item never hides a closing bracket. */
  lemma ItemsStart(items: seq<Item>, after: Bytes)
    requires items != [] && ItemsOk(items, false)
    ensures var t := SkipWs(ItemsText(items, after)); t != [] && t[0] != ']'
  {
    var it := items[0];
    var core := ItemsText(items, after)[|it.pre|..];
    var next := it.post + (if |items| == 1 then [']'] + after else [','] + ItemsText(items[1..], after));
    assert core == Text(it.value, next);
    TextStarts(it.value, next);
    SkipsWs(it.pre, core);
  }

  lemma FieldsStart(fields: seq<Field>, after: Bytes)
    requires fields != [] && FieldsOk(fields, false)
    ensures var t := SkipWs(FieldsText(fields, after)); t != [] && t[0] != '}'
  {
    var fd := fields[0];
    var next := if |fields| == 1 then ['}'] + after else [','] + FieldsText(fields[1..], after);
    assert FieldsText(fields, after) == FieldText(fd, next);
    SkipsWs(fd.lead, QuotedText(fd.key, fd.mid + ([':'] + (fd.item.pre + Text(fd.item.value, fd.item.post + next)))));
  }

  lemma {:induction false} ParsesItems(items: seq<Item>, rest: Bytes)
    requires items != [] && ItemsOk(items, false)
    ensures ParseItems(ItemsText(items, rest)) == Done(ItemsMeaning(items), rest)
    decreases items, 0
  {
    var it := items[0];
    var next := if |items| == 1 then [']'] + rest else [','] + ItemsText(items[1..], rest);
    ParsesText(it.pre, it.value, it.post + next);
    TextStarts(it.value, it.post + next);
    SkipsWs(it.post, next);
    if |items| == 1 {
      assert next[1..] == rest;
      assert items[1..] == [];
      assert ItemsMeaning(items) == [Meaning(it.value)];
    } else {
      assert next[1..] == ItemsText(items[1..], rest);
      ParsesItems(items[1..], rest);
    }
  }

  lemma {:induction false} ParsesMember(fd: Field, after: Bytes)
    requires WsOk(fd.lead, false) && TokensOk(fd.key, false) && WsOk(fd.mid, false)
    requires WsOk(fd.item.pre, false) && Ok(fd.item.value, false)
    ensures ParseMember(FieldText(fd, after)) ==
      Done(Member(TokensMeaning(fd.key), Meaning(fd.item.value)), fd.item.post + after)
    decreases fd, 2
  {
    var valueText := fd.item.pre + Text(fd.item.value, fd.item.post + after);
    var colon := [':'] + valueText;
    SkipsWs(fd.lead, QuotedText(fd.key, fd.mid + colon));
    ParsesQuoted(fd.key, fd.mid + colon);
    SkipsWs(fd.mid, colon);
    assert colon[1..] == valueText;
    ParsesText(fd.item.pre, fd.item.value, fd.item.post + after);
  }

  lemma {:induction false} ParsesFields(fields: seq<Field>, rest: Bytes)
    requires fields != [] && FieldsOk(fields, false)
    ensures ParseFields(FieldsText(fields, rest)) == Done(FieldsMeaning(fields), rest)
    decreases fields, 0
  {
    var fd := fields[0];
    var next := if |fields| == 1 then ['}'] + rest else [','] + FieldsText(fields[1..], rest);
    ParsesMember(fd, next);
    SkipsWs(fd.item.post, next);
    assert FieldText(fd, next) != [];
    if |fields| == 1 {
      assert next[1..] == rest;
      assert fields[1..] == [];
      assert FieldsMeaning(fields) == [Member(TokensMeaning(fd.key), Meaning(fd.item.value))];
    } else {
      assert next[1..] == FieldsText(fields[1..], rest);
      ParsesFields(fields[1..], rest);
    }
  }

  // -------------------------------------------------------------------- soundness

  lemma {:induction false} WsOf(s: Bytes) returns (ws: Bytes)
    ensures WsOk(ws, false) && s == ws + SkipWs(s)
    ensures SkipWs(s) == [] || !IsSpace(SkipWs(s)[0])
  {
    if s != [] && IsSpace(s[0]) {
      var ws' := WsOf(s[1..]);
      ws := [s[0]] + ws';
      assert s == [s[0]] + s[1..];
      assert [s[0]] + (ws' + SkipWs(s)) == ws + SkipWs(s);
    } else {
      ws := [];
      assert ws + s == s;
    }
  }

  lemma {:induction false} CharsDerive(s: Bytes) returns (ts: seq<Token>)
    requires ParseChars(s).Done?
    ensures TokensOk(ts, false) && TokensMeaning(ts) == ParseChars(s).value
    ensures s == TokensText(ts, ['"'] + ParseChars(s).rest)
    decreases |s|
  {
    if s[0] == '"' {
      ts := [];
      assert s == ['"'] + s[1..];
    } else {
      var t, n := FirstToken(s);
      var ts' := CharsDerive(s[n..]);
      ts := [t] + ts';
      assert ts[1..] == ts';
      assert s == s[..n] + s[n..];
    }
  }

  /** The token an accepted string starts with. */
  lemma FirstToken(s: Bytes) returns (t: Token, n: nat)
    requires ParseChars(s).Done? && s[0] != '"'
    ensures 0 < n <= |s| && TokenOk(t, false) && TokenText(t) == s[..n]
    ensures ParseChars(s) == Prepend(TokenMeaning(t), ParseChars(s[n..]))
  {
    if s[0] != '\\' {
      t, n := Raw(s[0]), 1;
    } else if s[1] == 'u' {
      t, n := Unicode(s[2..6]), 6;
    } else {
      t, n := Escaped(s[1]), 2;
    }
  }

  lemma QuotedDerives(s: Bytes) returns (ts: seq<Token>)
    requires ParseString(s).Done?
    ensures TokensOk(ts, false) && TokensMeaning(ts) == ParseString(s).value
    ensures s == QuotedText(ts, ParseString(s).rest)
  {
    ts := CharsDerive(s[1..]);
    assert s == ['"'] + s[1..];
  }

  /** What the parser accepts is white space followed by the text of a well-formed value. */
  lemma {:induction false} ValueDerives(s: Bytes) returns (ws: Bytes, v: Concrete)
    requires ParseValue(s).Done?
    ensures WsOk(ws, false) && Ok(v, false) && Meaning(v) == ParseValue(s).value
    ensures s == ws + Text(v, ParseValue(s).rest)
    decreases |s|, 2
  {
    ws := WsOf(s);
    var s1 := SkipWs(s);
    if s1[0] == '"' {
      var ts := QuotedDerives(s1);
      v := CString(ts);
    } else if s1[0] == '{' {
      v := ObjectDerives(s1);
    } else {
      v := ArrayDerives(s1);
    }
  }

  /** The white space after an opening bracket moved into the first item. */
  lemma WidenItem(gap: Bytes, items: seq<Item>, after: Bytes) returns (wide: seq<Item>)
    requires WsOk(gap, false) && items != [] && ItemsOk(items, false)
    ensures wide != [] && ItemsOk(wide, false) && ItemsMeaning(wide) == ItemsMeaning(items)
    ensures ItemsText(wide, after) == gap + ItemsText(items, after)
  {
    var it := items[0];
    wide := [it.(pre := gap + it.pre)] + items[1..];
    assert wide[1..] == items[1..];
    var next := it.post + (if |items| == 1 then [']'] + after else [','] + ItemsText(items[1..], after));
    Assoc(gap, it.pre, Text(it.value, next));
  }

  lemma {:induction false} ArrayDerives(s: Bytes) returns (v: Concrete)
    requires s != [] && s[0] == '[' && ParseArray(s).Done?
    ensures v.CArray? && Ok(v, false) && Meaning(v) == ParseArray(s).value
    ensures s == Text(v, ParseArray(s).rest)
    decreases |s|, 1
  {
    var gap := WsOf(s[1..]);
    var t := SkipWs(s[1..]);
    assert s == ['['] + s[1..];
    if t != [] && t[0] == ']' {
      v := CArray(gap, []);
      assert t == [']'] + t[1..];
    } else {
      var items := ItemsDerive(t);
      items := WidenItem(gap, items, ParseArray(s).rest);
      v := CArray([], items);
      assert [] + ItemsText(items, ParseArray(s).rest) == ItemsText(items, ParseArray(s).rest);
    }
  }

  lemma {:induction false} ItemsDerive(s: Bytes) returns (items: seq<Item>)
    requires ParseItems(s).Done?
    ensures items != [] && ItemsOk(items, false) && ItemsMeaning(items) == ParseItems(s).value
    ensures s == ItemsText(items, ParseItems(s).rest)
    decreases |s|, 3
  {
    var pre, v := ValueDerives(s);
    var rest := ParseValue(s).rest;
    var post := WsOf(rest);
    var t := SkipWs(rest);
    if t[0] == ']' {
      items := [Item(pre, v, post)];
      assert t == [']'] + t[1..];
    } else {
      var items' := ItemsDerive(t[1..]);
      items := [Item(pre, v, post)] + items';
      assert items[1..] == items';
      assert t == [','] + t[1..];
    }
  }

  lemma WidenField(gap: Bytes, fields: seq<Field>, after: Bytes) returns (wide: seq<Field>)
    requires WsOk(gap, false) && fields != [] && FieldsOk(fields, false)
    ensures wide != [] && FieldsOk(wide, false) && FieldsMeaning(wide) == FieldsMeaning(fields)
    ensures FieldsText(wide, after) == gap + FieldsText(fields, after)
  {
    var fd := fields[0];
    wide := [fd.(lead := gap + fd.lead)] + fields[1..];
    assert wide[1..] == fields[1..];
    var next := if |fields| == 1 then ['}'] + after else [','] + FieldsText(fields[1..], after);
    var tail := QuotedText(fd.key, fd.mid + ([':'] + (fd.item.pre + Text(fd.item.value, fd.item.post + next))));
    Assoc(gap, fd.lead, tail);
  }

  lemma {:induction false} ObjectDerives(s: Bytes) returns (v: Concrete)
    requires s != [] && s[0] == '{' && ParseObject(s).Done?
    ensures v.CObject? && Ok(v, false) && Meaning(v) == ParseObject(s).value
    ensures s == Text(v, ParseObject(s).rest)
    decreases |s|, 1
  {
    var gap := WsOf(s[1..]);
    var t := SkipWs(s[1..]);
    assert s == ['{'] + s[1..];
    if t != [] && t[0] == '}' {
      v := CObject(gap, []);
      assert t == ['}'] + t[1..];
    } else {
      var fields := FieldsDerive(t);
      fields := WidenField(gap, fields, ParseObject(s).rest);
      v := CObject([], fields);
      assert [] + FieldsText(fields, ParseObject(s).rest) == FieldsText(fields, ParseObject(s).rest);
    }
  }

  lemma {:induction false} MemberDerives(s: Bytes, post: Bytes, next: Bytes) returns (fd: Field)
    requires ParseMember(s).Done? && ParseMember(s).rest == post + next
    ensures WsOk(fd.lead, false) && TokensOk(fd.key, false) && WsOk(fd.mid, false)
    ensures WsOk(fd.item.pre, false) && Ok(fd.item.value, false) && fd.item.post == post
    ensures ParseMember(s).value == Member(TokensMeaning(fd.key), Meaning(fd.item.value))
    ensures s == FieldText(fd, next)
    decreases |s|, 3
  {
    var lead := WsOf(s);
    var s1 := SkipWs(s);
    var key := QuotedDerives(s1);
    var rest := ParseString(s1).rest;
    var mid := WsOf(rest);
    var t := SkipWs(rest);
    var pre, v := ValueDerives(t[1..]);
    assert t == [':'] + t[1..];
    fd := Field(lead, key, mid, Item(pre, v, post));
  }

  lemma FieldsCons(fd: Field, fields: seq<Field>, after: Bytes)
    requires fields != []
    ensures FieldsText([fd] + fields, after) == FieldText(fd, [','] + FieldsText(fields, after))
    ensures FieldsMeaning([fd] + fields) ==
      [Member(TokensMeaning(fd.key), Meaning(fd.item.value))] + FieldsMeaning(fields)
    ensures FieldsOk(fields, false) && FieldsOk([fd], false) ==> FieldsOk([fd] + fields, false)
  {
    assert ([fd] + fields)[1..] == fields;
  }

  lemma FieldsOne(fd: Field, after: Bytes)
    ensures FieldsText([fd], after) == FieldText(fd, ['}'] + after)
    ensures FieldsMeaning([fd]) == [Member(TokensMeaning(fd.key), Meaning(fd.item.value))]
    ensures FieldsOk([fd], false) <==>
      && WsOk(fd.lead, false) && TokensOk(fd.key, false) && WsOk(fd.mid, false)
      && WsOk(fd.item.pre, false) && Ok(fd.item.value, false) && WsOk(fd.item.post, false)
  {
    assert [fd][1..] == [];
    assert [Member(TokensMeaning(fd.key), Meaning(fd.item.value))] + []
        == [Member(TokensMeaning(fd.key), Meaning(fd.item.value))];
  }

  /** How the loop over the members goes on after the first. */
  lemma FieldsUnfold(s: Bytes)
    requires ParseFields(s).Done?
    ensures ParseMember(s).Done? && SkipWs(ParseMember(s).rest) != []
    ensures var m, t := ParseMember(s).value, SkipWs(ParseMember(s).rest);
      if t[0] == '}' then ParseFields(s) == Done([m], t[1..])
      else t[0] == ',' && ParseFields(t[1..]).Done? &&
           ParseFields(s) == Done([m] + ParseFields(t[1..]).value, ParseFields(t[1..]).rest)
  {
  }

  lemma {:induction false} FieldsDerive(s: Bytes) returns (fields: seq<Field>)
    requires ParseFields(s).Done?
    ensures fields != [] && FieldsOk(fields, false) && FieldsMeaning(fields) == ParseFields(s).value
    ensures s == FieldsText(fields, ParseFields(s).rest)
    decreases |s|, 4
  {
    var rest := ParseMember(s).rest;
    var post := WsOf(rest);
    var t := SkipWs(rest);
    FieldsUnfold(s);
    var fd := MemberDerives(s, post, t);
    FieldsOne(fd, t[1..]);
    if t[0] == '}' {
      fields := [fd];
      assert t == ['}'] + t[1..];
    } else {
      var fields' := FieldsDerive(t[1..]);
      fields := [fd] + fields';
      assert t == [','] + t[1..];
      FieldsCons(fd, fields', ParseFields(s).rest);
    }
  }

  // ------------------------------------------------------------------ the main results

  /** The parser accepts exactly the relaxed grammar, with the grammar's meaning. */
  lemma AcceptsExactlyRelaxed(text: Bytes, t: Tree)
    ensures ParseRoot(text) == Done(t, []) <==> Derives(text, t, false)
  {
    if ParseRoot(text) == Done(t, []) {
      var pre := WsOf(text);
      var s := SkipWs(text);
      SkippedBefore(text);
      var v := ObjectDerives(s);
      var post := WsOf(ParseObject(s).rest);
      assert post + [] == post;
      assert DerivesAs(text, t, false, Item(pre, v, post));
    }
    if Derives(text, t, false) {
      var it :| DerivesAs(text, t, false, it);
      var s := Text(it.value, it.post);
      TextStarts(it.value, it.post);
      SkipsWs(it.pre, s);
      SkippedBefore(text);
      ParsesObject(it.value.gap, it.value.fields, it.post);
      SkipsWs(it.post, []);
      assert it.post + [] == it.post;
    }
  }

  /** Completeness for the standard grammar: every strictly derivable document is accepted with its meaning. */
  lemma AcceptsStandard(text: Bytes, t: Tree)
    requires Derives(text, t, true)
    ensures ParseRoot(text) == Done(t, [])
  {
    StrictDerivesRelaxed(text, t);
    AcceptsExactlyRelaxed(text, t);
  }

  /** A successful parse depends only on what it consumed: any suffix may be replaced. */
  lemma Locality(s: Bytes, other: Bytes)
    requires ParseValue(s).Done?
    ensures var used := s[..|s| - |ParseValue(s).rest|];
      && s == used + ParseValue(s).rest
      && ParseValue(used + other) == Done(ParseValue(s).value, other)
  {
    var rest := ParseValue(s).rest;
    var ws, v := ValueDerives(s);
    TextAppend(v, [], rest);
    TextAppend(v, [], other);
    assert [] + rest == rest && [] + other == other;
    Assoc(ws, Text(v, []), rest);
    Assoc(ws, Text(v, []), other);
    var used := ws + Text(v, []);
    assert s[..|s| - |rest|] == used;
    ParsesText(ws, v, other);
  }

  // ------------------------------------------------------------------ escapes, spelled out

  /** An escape of four hexadecimal digits, in any mixture of cases, is read as the encoding of its number, and refused
      for a surrogate. */
  lemma UnicodeEscapeReads(n: nat, h: Bytes, after: Bytes)
    requires HexFor(n, h)
    ensures ParseString(['"', '\\', 'u'] + h + ['"'] + after) ==
            if 0xD800 <= n < 0xE000 then Failed("unsupported JSON unicode escape") else Done(Utf8.Enc(n), after)
  {
    HexSpelled(n, h);
    var s := ['\\', 'u'] + h + ['"'] + after;
    assert (['"', '\\', 'u'] + h + ['"'] + after)[1..] == s;
    assert s[2..6] == h && s[6..] == ['"'] + after;
    if !(0xD800 <= n < 0xE000) {
      assert ParseChars(s[6..]) == Done([], after);
      assert Utf8.Enc(n) + [] == Utf8.Enc(n);
    }
  }

  /** The eight simple escapes, and the byte each stands for. */
  predicate Escapes(e: byte, v: nat) {
    || (e == '"' && v == 34) || (e == '\\' && v == 92) || (e == '/' && v == 47)
    || (e == 'b' && v == 8) || (e == 'f' && v == 12) || (e == 'n' && v == 10)
    || (e == 'r' && v == 13) || (e == 't' && v == 9)
  }

  lemma SimpleEscapeReads(e: byte, v: nat, rest: Bytes)
    requires Escapes(e, v)
    ensures ParseChars(['\\', e] + rest) == Prepend([v as char], ParseChars(rest))
  {
    EscapesSpelled();
    assert (['\\', e] + rest)[2..] == rest;
  }

  /** Any other byte behind a backslash is refused. */
  lemma OtherEscapeFails(e: byte, rest: Bytes)
    requires e != 'u' && forall v :: !Escapes(e, v)
    ensures ParseChars(['\\', e] + rest) == Failed("unsupported JSON escape")
  {
    EscapesSpelled();
    assert e !in SIMPLE by {
      if e in SIMPLE {
        assert Escapes(e, EscapeValue(e) as nat);
      }
    }
  }

  /** Every other byte stands for itself, control bytes too. */
  lemma RawByteReads(b: byte, rest: Bytes)
    requires b as int != 34 && b as int != 92
    ensures ParseChars([b] + rest) == Prepend([b], ParseChars(rest))
  {
    assert ([b] + rest)[1..] == rest;
  }

  predicate HexLetter(c: byte) {
    48 <= c as int <= 57 || 65 <= c as int <= 70 || 97 <= c as int <= 102
  }

  lemma HexLetters(h: Bytes)
    requires |h| == 4
    ensures IsHex4(h) <==> HexLetter(h[0]) && HexLetter(h[1]) && HexLetter(h[2]) && HexLetter(h[3])
  {
  }

  lemma NoHexFails(s: Bytes)
    requires |s| >= 2 && s[0] == '\\' && s[1] == 'u' && (|s| < 6 || !IsHex4(s[2..6]))
    ensures ParseChars(s) == Failed("invalid JSON unicode escape")
  {
  }

  /** Four bytes behind an escape that are not all hexadecimal, or fewer. */
  lemma BrokenUnicode(s: Bytes)
    requires |s| >= 2 && s[0] == '\\' && s[1] == 'u'
    requires |s| < 6 || !(HexLetter(s[2]) && HexLetter(s[3]) && HexLetter(s[4]) && HexLetter(s[5]))
    ensures ParseChars(s) == Failed("invalid JSON unicode escape")
  {
    if |s| >= 6 {
      HexLetters(s[2..6]);
    }
    NoHexFails(s);
  }

  /** A string that ends too early. */
  lemma BrokenString()
    ensures ParseChars([]) == Failed("unterminated JSON string")
    ensures ParseChars(['\\']) == Failed("invalid JSON escape")
  {
  }

  /** What a value, an array or an object may not start with, and what may not follow the root. */
  lemma ValueErrors(s: Bytes)
    requires s != [] ==> !IsSpace(s[0])
    ensures s == [] ==> ParseValue(s) == Failed("expected JSON value")
    ensures s != [] && s[0] != '"' && s[0] != '[' && s[0] != '{' ==> ParseValue(s) == Failed("unsupported JSON value")
    ensures s == [] || s[0] != '[' ==> ParseArray(s) == Failed("expected JSON array")
    ensures s == [] || s[0] != '{' ==> ParseObject(s) == Failed("expected JSON object") == ParseRoot(s)
    ensures s == [] || s[0] != '"' ==> ParseString(s) == Failed("expected JSON string")
    ensures ParseObject(s).Done? && SkipWs(ParseObject(s).rest) != [] ==>
      ParseRoot(s) == Failed("unexpected trailing JSON content")
  {
    assert SkipWs(s) == s;
  }
}
