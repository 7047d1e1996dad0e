/**
  The parser as the program runs it: a cursor moved over the input by loops, and the result
  object filled in place. Each routine is proved against the functions of JsonSpec.
 */
module JsonParser {
  import opened Bytes
  import opened JsonGrammar
  import opened JsonSpec

  /** The cursor has moved from start to i, and what is left is what the specification leaves. */
  predicate Read<T>(input: Bytes, start: nat, i: nat, r: Parse<T>) {
    start < i <= |input| && r.Done? && r.rest == input[i..]
  }

  method SkipJsonWs(input: Bytes, start: nat) returns (i: nat)
    requires start <= |input|
    ensures start <= i <= |input| && input[i..] == SkipWs(input[start..])
  {
    i := start;
    while i < |input| && IsSpace(input[i])
      invariant start <= i <= |input| && SkipWs(input[i..]) == SkipWs(input[start..])
    {
      assert input[i..][1..] == input[i + 1..];
      i := i + 1;
    }
  }

  /** Four hexadecimal digits at the cursor. */
  method ParseHex4(input: Bytes, start: nat) returns (ok: bool, codepoint: nat)
    requires start + 4 <= |input|
    ensures ok <==> IsHex4(input[start..start + 4])
    ensures ok ==> codepoint == Hex4(input[start..start + 4])
  {
    codepoint := 0;
    var h := input[start..start + 4];
    for k := 0 to 4
      invariant forall j :: 0 <= j < k ==> IsHex(h[j])
      invariant codepoint == if k == 0 then 0 else if k == 1 then HexValue(h[0])
        else if k == 2 then HexValue(h[0]) * 16 + HexValue(h[1])
        else if k == 3 then (HexValue(h[0]) * 16 + HexValue(h[1])) * 16 + HexValue(h[2])
        else ((HexValue(h[0]) * 16 + HexValue(h[1])) * 16 + HexValue(h[2])) * 16 + HexValue(h[3])
    {
      var digit := input[start + k];
      assert digit == h[k];
      if !IsHex(digit) {
        return false, 0;
      }
      codepoint := codepoint * 16 + HexValue(digit);
    }
    ok := true;
  }

  lemma PrependNothing(r: Parse<Bytes>)
    ensures Prepend([], r) == r
  {
    if r.Done? {
      assert [] + r.value == r.value;
    }
  }

  lemma PrependPrepend(a: Bytes, b: Bytes, r: Parse<Bytes>)
    ensures Prepend(a, Prepend(b, r)) == Prepend(a + b, r)
  {
    if r.Done? {
      assert a + (b + r.value) == a + b + r.value;
    }
  }

  /** One escape sequence, the cursor being just behind the backslash. */
  method ParseEscape(input: Bytes, start: nat, buffer: Bytes) returns (ok: bool, i: nat, out: Bytes, error: string)
    requires 0 < start <= |input| && input[start - 1] == '\\'
    ensures ok ==> start < i <= |input|
    ensures ok ==> Prepend(out, ParseChars(input[i..])) == Prepend(buffer, ParseChars(input[start - 1..]))
    ensures !ok ==> i <= |input| && ParseChars(input[start - 1..]) == Failed(error)
  {
    ghost var s := input[start - 1..];
    i, out, error := start, buffer, "";
    if i >= |input| {
      return false, i, out, "invalid JSON escape";
    }
    var esc := input[i];
    i := i + 1;
    assert s[1] == esc && s[2..] == input[i..];
    if esc == 'u' {
      if i + 4 > |input| {
        return false, i, out, "invalid JSON unicode escape";
      }
      assert s[2..6] == input[i..i + 4] && s[6..] == input[i + 4..];
      var hexOk, codepoint := ParseHex4(input, i);
      if !hexOk {
        return false, i, out, "invalid JSON unicode escape";
      }
      i := i + 4;
      var utf8Ok;
      utf8Ok, out := Utf8.AppendCodepoint(codepoint, buffer);
      if !utf8Ok {
        return false, i, out, "unsupported JSON unicode escape";
      }
      PrependPrepend(buffer, Utf8.Enc(codepoint), ParseChars(input[i..]));
    } else if esc in SIMPLE {
      out := out + [EscapeValue(esc)];
      PrependPrepend(buffer, [EscapeValue(esc)], ParseChars(input[i..]));
    } else {
      return false, i, out, "unsupported JSON escape";
    }
    ok := true;
  }

  /** One byte of a string's contents that starts no escape. */
  lemma CharStep(s: Bytes)
    requires s != []
    ensures s[0] == '"' ==> ParseChars(s) == Done([], s[1..])
    ensures s[0] != '"' && s[0] != '\\' ==> ParseChars(s) == Prepend([s[0]], ParseChars(s[1..]))
  {
  }

  /** The contents of a string, the cursor being just behind the opening quote. */
  method ParseJsonChars(input: Bytes, start: nat) returns (ok: bool, i: nat, value: Bytes, error: string)
    requires start <= |input|
    ensures ok ==> start < i <= |input| && ParseChars(input[start..]) == Done(value, input[i..])
    ensures !ok ==> i <= |input| && ParseChars(input[start..]) == Failed(error)
  {
    i, value, error := start, [], "";
    var buffer: Bytes := [];
    ghost var all := ParseChars(input[start..]);
    PrependNothing(all);
    while i < |input|
      invariant start <= i <= |input| && Prepend(buffer, ParseChars(input[i..])) == all
    {
      var ch := input[i];
      CharStep(input[i..]);
      assert input[i..][1..] == input[i + 1..];
      i := i + 1;
      if ch == '"' {
        assert buffer + [] == buffer;
        return true, i, buffer, "";
      }
      if ch == '\\' {
        var escaped;
        escaped, i, buffer, error := ParseEscape(input, i, buffer);
        if !escaped {
          return false, i, value, error;
        }
      } else {
        PrependPrepend(buffer, [ch], ParseChars(input[i..]));
        buffer := buffer + [ch];
      }
    }
    return false, i, value, "unterminated JSON string";
  }

  method ParseJsonStringValue(input: Bytes, start: nat) returns (ok: bool, i: nat, value: Bytes, error: string)
    requires start <= |input|
    ensures ok ==> start < i <= |input| && ParseString(input[start..]) == Done(value, input[i..])
    ensures !ok ==> i <= |input| && ParseString(input[start..]) == Failed(error)
  {
    if start >= |input| || input[start] != '"' {
      return false, start, [], "expected JSON string";
    }
    assert input[start..][1..] == input[start + 1..];
    ok, i, value, error := ParseJsonChars(input, start + 1);
  }

  // ------------------------------------------------------------------ containers

  ghost function PrependAll<T>(xs: seq<T>, r: Parse<seq<T>>): Parse<seq<T>> {
    if r.Done? then Done(xs + r.value, r.rest) else r
  }

  lemma {:induction false} ToMapSnoc(ms: seq<Member>, m: Member)
    ensures ToMap(ms + [m]) == ToMap(ms)[m.key := ToJson(m.value)]
  {
    if ms == [] {
      assert ms + [m] == [m];
    } else {
      ToMapSnoc(ms[1..], m);
      assert (ms + [m])[1..] == ms[1..] + [m];
    }
  }

  lemma {:induction false} ToJsonsSnoc(ts: seq<Tree>, t: Tree)
    ensures ToJsons(ts + [t]) == ToJsons(ts) + [ToJson(t)]
  {
    if ts == [] {
      assert ts + [t] == [t];
    } else {
      ToJsonsSnoc(ts[1..], t);
      assert (ts + [t])[1..] == ts[1..] + [t];
    }
  }

  lemma PrependAllNothing<T>(r: Parse<seq<T>>)
    ensures PrependAll([], r) == r
  {
    if r.Done? {
      assert [] + r.value == r.value;
    }
  }

  lemma PrependAllTwice<T>(xs: seq<T>, x: T, r: Parse<seq<T>>)
    ensures PrependAll(xs, PrependAll([x], r)) == PrependAll(xs + [x], r)
  {
    if r.Done? {
      assert xs + ([x] + r.value) == xs + [x] + r.value;
    }
  }

  /** A key, a colon and a value; the colon's checks sit inside the object loop of the program. */
  method ParseJsonMember(input: Bytes, start: nat) returns (ok: bool, i: nat, key: Bytes, value: Json, error: string)
    requires start <= |input|
    ensures ok ==> Read(input, start, i, ParseMember(input[start..]))
    ensures ok ==> key == ParseMember(input[start..]).value.key
    ensures ok ==> value == ToJson(ParseMember(input[start..]).value.value)
    ensures !ok ==> i <= |input| && ParseMember(input[start..]) == Failed(error)
    decreases |input| - start, 3
  {
    value := JString([]);
    i := SkipJsonWs(input, start);
    ok, i, key, error := ParseJsonStringValue(input, i);
    if !ok {
      return;
    }
    i := SkipJsonWs(input, i);
    if i >= |input| || input[i] != ':' {
      return false, i, key, value, "expected ':'";
    }
    assert input[i..][1..] == input[i + 1..];
    i := i + 1;
    ok, i, value, error := ParseJsonValue(input, i);
  }

  /** One member read, and what the text behind it decides. */
  lemma FieldStep(s: Bytes, m: Member, rest: Bytes)
    requires s != [] && ParseMember(s) == Done(m, rest)
    ensures var t := SkipWs(rest);
      && (t == [] ==> ParseFields(s) == Failed("unterminated JSON object"))
      && (t != [] && t[0] == '}' ==> ParseFields(s) == Done([m], t[1..]))
      && (t != [] && t[0] != '}' && t[0] != ',' ==> ParseFields(s) == Failed("expected ','"))
      && (t != [] && t[0] == ',' ==> ParseFields(s) == PrependAll([m], ParseFields(t[1..])))
  {
  }

  /** One turn of the object loop: a member and the separator or brace behind it. */
  method ParseJsonField(input: Bytes, start: nat)
    returns (ok: bool, done: bool, i: nat, key: Bytes, member: Json, error: string, ghost m: Member)
    requires start < |input|
    ensures start <= i <= |input| && (ok ==> start < i && key == m.key && member == ToJson(m.value))
    ensures !ok ==> ParseFields(input[start..]) == Failed(error)
    ensures ok && done ==> ParseFields(input[start..]) == Done([m], input[i..])
    ensures ok && !done ==> ParseFields(input[start..]) == PrependAll([m], ParseFields(input[i..]))
    decreases |input| - start, 4
  {
    done, m := false, Member([], Str([]));
    ghost var here := input[start..];
    ok, i, key, member, error := ParseJsonMember(input, start);
    if !ok {
      i := start;
      return;
    }
    m := ParseMember(here).value;
    FieldStep(here, m, input[i..]);
    i := SkipJsonWs(input, i);
    if i >= |input| {
      ok, error := false, "unterminated JSON object";
      return;
    }
    assert input[i..][1..] == input[i + 1..];
    if input[i] == '}' {
      done, i := true, i + 1;
      return;
    }
    if input[i] != ',' {
      ok, error := false, "expected ','";
      return;
    }
    i := i + 1;
  }

  /** The members of an object up to its closing brace. */
  method ParseJsonMembers(input: Bytes, start: nat) returns (ok: bool, i: nat, members: map<Bytes, Json>, error: string)
    requires start <= |input|
    ensures ok ==> Read(input, start, i, ParseFields(input[start..]))
    ensures ok ==> members == ToMap(ParseFields(input[start..]).value)
    ensures !ok ==> i <= |input| && ParseFields(input[start..]) == Failed(error)
    decreases |input| - start, 5
  {
    members, i := map[], start;
    ghost var ms: seq<Member> := [];
    ghost var all := ParseFields(input[start..]);
    PrependAllNothing(all);
    while i < |input|
      invariant start <= i <= |input| && members == ToMap(ms)
      invariant PrependAll(ms, ParseFields(input[i..])) == all
      decreases |input| - i
    {
      var done, key, member;
      ghost var m;
      ok, done, i, key, member, error, m := ParseJsonField(input, i);
      if !ok {
        return;
      }
      ToMapSnoc(ms, m);
      members := members[key := member];
      ms := ms + [m];
      if done {
        return;
      }
      PrependAllTwice(ms[..|ms| - 1], m, ParseFields(input[i..]));
      assert ms == ms[..|ms| - 1] + [m];
    }
    return false, i, members, "unterminated JSON object";
  }

  method ParseJsonObjectValue(input: Bytes, start: nat) returns (ok: bool, i: nat, value: Json, error: string)
    requires start <= |input|
    ensures ok ==> Read(input, start, i, ParseObject(input[start..]))
    ensures ok ==> value == ToJson(ParseObject(input[start..]).value)
    ensures ok ==> value.JObject?
    ensures !ok ==> i <= |input| && ParseObject(input[start..]) == Failed(error)
    decreases |input| - start, 1
  {
    value := JString([]);
    i := SkipJsonWs(input, start);
    if i >= |input| || input[i] != '{' {
      return false, i, value, "expected JSON object";
    }
    assert input[i..][1..] == input[i + 1..];
    i := SkipJsonWs(input, i + 1);
    if i < |input| && input[i] == '}' {
      assert input[i..][1..] == input[i + 1..];
      return true, i + 1, JObject(map[]), "";
    }
    var members;
    ok, i, members, error := ParseJsonMembers(input, i);
    value := JObject(members);
  }

  /** One item read, and what the text behind it decides. */
  lemma ItemStep(s: Bytes, v: Tree, rest: Bytes)
    requires s != [] && ParseValue(s) == Done(v, rest)
    ensures var t := SkipWs(rest);
      && (t == [] ==> ParseItems(s) == Failed("unterminated JSON array"))
      && (t != [] && t[0] == ']' ==> ParseItems(s) == Done([v], t[1..]))
      && (t != [] && t[0] != ']' && t[0] != ',' ==> ParseItems(s) == Failed("expected ','"))
      && (t != [] && t[0] == ',' ==> ParseItems(s) == PrependAll([v], ParseItems(t[1..])))
  {
  }

  /** One turn of the array loop: an item and the separator or bracket behind it. */
  method ParseJsonItem(input: Bytes, start: nat)
    returns (ok: bool, done: bool, i: nat, item: Json, error: string, ghost t: Tree)
    requires start < |input|
    ensures start <= i <= |input| && (ok ==> start < i && item == ToJson(t))
    ensures !ok ==> ParseItems(input[start..]) == Failed(error)
    ensures ok && done ==> ParseItems(input[start..]) == Done([t], input[i..])
    ensures ok && !done ==> ParseItems(input[start..]) == PrependAll([t], ParseItems(input[i..]))
    decreases |input| - start, 3
  {
    done, t := false, Str([]);
    ghost var here := input[start..];
    ok, i, item, error := ParseJsonValue(input, start);
    if !ok {
      i := start;
      return;
    }
    t := ParseValue(here).value;
    ItemStep(here, t, input[i..]);
    i := SkipJsonWs(input, i);
    if i >= |input| {
      ok, error := false, "unterminated JSON array";
      return;
    }
    assert input[i..][1..] == input[i + 1..];
    if input[i] == ']' {
      done, i := true, i + 1;
      return;
    }
    if input[i] != ',' {
      ok, error := false, "expected ','";
      return;
    }
    i := i + 1;
  }

  /** The items of an array up to its closing bracket. */
  method ParseJsonItems(input: Bytes, start: nat) returns (ok: bool, i: nat, values: seq<Json>, error: string)
    requires start <= |input|
    ensures ok ==> Read(input, start, i, ParseItems(input[start..]))
    ensures ok ==> values == ToJsons(ParseItems(input[start..]).value)
    ensures !ok ==> i <= |input| && ParseItems(input[start..]) == Failed(error)
    decreases |input| - start, 4
  {
    values, i := [], start;
    ghost var ts: seq<Tree> := [];
    ghost var all := ParseItems(input[start..]);
    PrependAllNothing(all);
    while i < |input|
      invariant start <= i <= |input| && values == ToJsons(ts)
      invariant PrependAll(ts, ParseItems(input[i..])) == all
      decreases |input| - i
    {
      var done, item;
      ghost var t;
      ok, done, i, item, error, t := ParseJsonItem(input, i);
      if !ok {
        return;
      }
      ToJsonsSnoc(ts, t);
      values := values + [item];
      ts := ts + [t];
      if done {
        return;
      }
      PrependAllTwice(ts[..|ts| - 1], t, ParseItems(input[i..]));
      assert ts == ts[..|ts| - 1] + [t];
    }
    return false, i, values, "unterminated JSON array";
  }

  method ParseJsonArrayValue(input: Bytes, start: nat) returns (ok: bool, i: nat, value: Json, error: string)
    requires start <= |input|
    ensures ok ==> Read(input, start, i, ParseArray(input[start..]))
    ensures ok ==> value == ToJson(ParseArray(input[start..]).value)
    ensures !ok ==> i <= |input| && ParseArray(input[start..]) == Failed(error)
    decreases |input| - start, 1
  {
    value := JString([]);
    i := SkipJsonWs(input, start);
    if i >= |input| || input[i] != '[' {
      return false, i, value, "expected JSON array";
    }
    assert input[i..][1..] == input[i + 1..];
    i := SkipJsonWs(input, i + 1);
    if i < |input| && input[i] == ']' {
      assert input[i..][1..] == input[i + 1..];
      return true, i + 1, JArray([]), "";
    }
    var values;
    ok, i, values, error := ParseJsonItems(input, i);
    value := JArray(values);
  }

  method ParseJsonValue(input: Bytes, start: nat) returns (ok: bool, i: nat, value: Json, error: string)
    requires start <= |input|
    ensures ok ==> Read(input, start, i, ParseValue(input[start..]))
    ensures ok ==> value == ToJson(ParseValue(input[start..]).value)
    ensures !ok ==> i <= |input| && ParseValue(input[start..]) == Failed(error)
    decreases |input| - start, 2
  {
    value, error := JString([]), "";
    i := SkipJsonWs(input, start);
    if i >= |input| {
      return false, i, value, "expected JSON value";
    }
    if input[i] == '"' {
      var s;
      ok, i, s, error := ParseJsonStringValue(input, i);
      value := JString(s);
    } else if input[i] == '{' {
      ok, i, value, error := ParseJsonObjectValue(input, i);
    } else if input[i] == '[' {
      ok, i, value, error := ParseJsonArrayValue(input, i);
    } else {
      return false, i, value, "unsupported JSON value";
    }
  }

  /** A request body is accepted exactly when it derives from the relaxed grammar; of duplicate keys the last wins. */
  method ParseJsonRootObject(input: Bytes) returns (ok: bool, value: Json, error: string)
    ensures ok <==> ParseRoot(input).Done?
    ensures ok ==> value == ToJson(ParseRoot(input).value) && value.JObject?
    ensures ok ==> Derives(input, ParseRoot(input).value, false)
    ensures !ok ==> ParseRoot(input) == Failed(error) && forall t :: !Derives(input, t, false)
  {
    var i;
    ok, i, value, error := ParseJsonObjectValue(input, 0);
    assert input[0..] == input;
    if ok {
      i := SkipJsonWs(input, i);
      if i != |input| {
        ok, error := false, "unexpected trailing JSON content";
      }
    }
    forall t ensures ParseRoot(input) == Done(t, []) <==> Derives(input, t, false) {
      AcceptsExactlyRelaxed(input, t);
    }
  }

  /** The flat form: every member must be a string. */
  method ParseSimpleJsonObject(input: Bytes) returns (ok: bool, out: map<Bytes, Bytes>, error: string)
    ensures ok <==> ParseRoot(input).Done? && AllStrings(ToJson(ParseRoot(input).value))
    ensures ok ==> out.Keys == ToJson(ParseRoot(input).value).members.Keys
    ensures ok ==> forall k :: k in out ==> ToJson(ParseRoot(input).value).members[k] == JString(out[k])
    ensures !ok ==> error == if ParseRoot(input).Done? then "expected string JSON value" else ParseRoot(input).error
  {
    var root;
    ok, root, error := ParseJsonRootObject(input);
    out := map[];
    if !ok {
      return;
    }
    var todo := root.members.Keys;
    while todo != {}
      invariant todo <= root.members.Keys && out.Keys == root.members.Keys - todo
      invariant forall k :: k in out ==> root.members[k] == JString(out[k])
      decreases |todo|
    {
      var key :| key in todo;
      if !root.members[key].JString? {
        return false, out, "expected string JSON value";
      }
      out := out[key := root.members[key].s];
      todo := todo - {key};
    }
  }

  predicate AllStrings(value: Json) {
    value.JObject? && forall k :: k in value.members ==> value.members[k].JString?
  }
}
