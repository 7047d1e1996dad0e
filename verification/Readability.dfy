/**
  When a summary is UTF-8: exactly when all the strings it carries are. The escaper passes every
  byte from 0x80 on through, and all that the printers add is ASCII.
 */
module Readability {
  import opened Bytes
  import opened Commas
  import opened Decimal
  import opened JsonGrammar
  import opened JsonPrinter
  import opened Sse
  import opened SummaryText

  // ------------------------------------------------------------------------ joining texts

  /** A text that starts with an ASCII byte, put behind another one, leaves no doubt where that one ends. */
  lemma {:induction false} Seam(s: Bytes, t: Bytes)
    requires t != [] ==> t[0] as int < 0x80
    ensures Decodes(s + t) <==> Decodes(s) && Decodes(t)
    decreases |s|
  {
    if s == [] {
      assert s + t == t;
    } else {
      Utf8.DecodeOneBefore(s, t);
      if Utf8.DecodeOne(s).Some? {
        Seam(Utf8.DecodeOne(s).value.1, t);
      }
    }
  }

  /** ASCII on both sides of a text. */
  lemma Between(a: Bytes, s: Bytes, b: Bytes)
    requires Ascii(a) && Ascii(b)
    ensures Decodes(a + s + b) <==> Decodes(s)
  {
    AsciiBefore(a, s);
    Seam(a + s, b);
    AsciiDecodes(b);
  }

  lemma {:induction false} JoinDecodes(parts: seq<Bytes>)
    ensures Decodes(Join(parts)) <==> forall i :: 0 <= i < |parts| ==> Decodes(parts[i])
  {
    if |parts| > 1 {
      JoinDecodes(parts[1..]);
      AsciiBefore([','], Join(parts[1..]));
      Seam(parts[0], [','] + Join(parts[1..]));
      assert forall i :: 0 < i < |parts| ==> parts[i] == parts[1..][i - 1];
    }
  }

  // ------------------------------------------------------------------------ quoted strings

  /** The first ASCII byte of a text, or its length. */
  function HighRun(s: Bytes): (k: nat)
    ensures k <= |s| && (k < |s| ==> s[k] as int < 0x80)
    ensures forall i :: 0 <= i < k ==> s[i] as int >= 0x80
  {
    if s == [] || s[0] as int < 0x80 then 0 else 1 + HighRun(s[1..])
  }

  lemma {:induction false} HighEscape(s: Bytes, k: nat)
    requires k <= |s| && forall i :: 0 <= i < k ==> s[i] as int >= 0x80
    ensures Escape(s) == s[..k] + Escape(s[k..])
  {
    if k == 0 {
      assert s[..0] + Escape(s) == Escape(s) && s[0..] == s;
    } else {
      HighEscape(s[1..], k - 1);
      HighToken(s[0]);
      Recut(s, k, Escape(s[k..]));
    }
  }

  lemma HighToken(b: byte)
    requires b as int >= 0x80
    ensures TokenText(EscapeToken(b)) == [b]
  {
  }

  lemma Recut(s: Bytes, k: nat, e: Bytes)
    requires 0 < k <= |s|
    ensures s[1..][k - 1..] == s[k..] && [s[0]] + (s[1..][..k - 1] + e) == s[..k] + e
  {
  }

  lemma AsciiToken(b: byte)
    requires b as int < 0x80
    ensures Ascii(TokenText(EscapeToken(b))) && TokenText(EscapeToken(b)) != []
  {
  }

  /** An ASCII byte in front changes nothing, escaped or not. */
  lemma AsciiFirst(s: Bytes)
    requires s != [] && s[0] as int < 0x80
    ensures Decodes(s) <==> Decodes(s[1..])
    ensures Decodes(Escape(s)) <==> Decodes(Escape(s[1..]))
    ensures Escape(s) != [] && Escape(s)[0] as int < 0x80
  {
    AsciiToken(s[0]);
    AsciiBefore(TokenText(EscapeToken(s[0])), Escape(s[1..]));
    AsciiBefore([s[0]], s[1..]);
    assert s == [s[0]] + s[1..];
  }

  /** Escaping neither makes nor mends bad UTF-8. */
  lemma {:induction false} EscapeDecodes(s: Bytes)
    ensures Decodes(Escape(s)) <==> Decodes(s)
    decreases |s|
  {
    var k := HighRun(s);
    HighEscape(s, k);
    assert s == s[..k] + s[k..];
    if k < |s| {
      EscapeDecodes(s[k..][1..]);
      AsciiFirst(s[k..]);
      Seam(s[..k], s[k..]);
      Seam(s[..k], Escape(s[k..]));
    } else {
      assert s[..k] + [] == s;
    }
  }

  lemma QuoteDecodes(s: Bytes)
    ensures Decodes(Quote(s)) <==> Decodes(s)
  {
    EscapeDecodes(s);
    Between(['"'], Escape(s), ['"']);
  }

  // ------------------------------------------------------------------------ rendered values

  /** Every string in the tree is UTF-8. */
  ghost predicate Legible(t: Tree)
    decreases t
  {
    match t
    case Str(s) => Decodes(s)
    case Arr(items) => forall i :: 0 <= i < |items| ==> Legible(items[i])
    case Obj(members) => forall i :: 0 <= i < |members| ==> Decodes(members[i].key) && Legible(members[i].value)
  }

  lemma PartDecodes(key: Bytes, value: Bytes)
    ensures Decodes(Quote(key) + [':'] + value) <==> Decodes(key) && Decodes(value)
  {
    QuoteDecodes(key);
    AsciiBefore([':'], value);
    Seam(Quote(key), [':'] + value);
    assert Quote(key) + ([':'] + value) == Quote(key) + [':'] + value;
  }

  lemma {:induction false} RenderDecodes(t: Tree)
    ensures Decodes(Render(t)) <==> Legible(t)
    decreases t
  {
    match t
    case Str(s) => QuoteDecodes(s);
    case Arr(items) =>
      var parts := RenderItems(items);
      forall i | 0 <= i < |items| ensures Decodes(parts[i]) <==> Legible(items[i]) {
        RenderItemsAt(items, i);
        RenderDecodes(items[i]);
      }
      JoinDecodes(parts);
      Between(['['], Join(parts), [']']);
    case Obj(members) =>
      var parts := RenderMembers(members);
      forall i | 0 <= i < |members|
        ensures Decodes(parts[i]) <==> Decodes(members[i].key) && Legible(members[i].value)
      {
        RenderMembersAt(members, i);
        RenderDecodes(members[i].value);
        PartDecodes(members[i].key, Render(members[i].value));
      }
      JoinDecodes(parts);
      Between(['{'], Join(parts), ['}']);
  }

  ghost predicate AllDecode(texts: seq<Bytes>) {
    forall i :: 0 <= i < |texts| ==> Decodes(texts[i])
  }

  lemma StringsDecode(values: seq<Bytes>)
    ensures Decodes(Render(Arr(Strings(values)))) <==> AllDecode(values)
  {
    RenderDecodes(Arr(Strings(values)));
    var trees := Strings(values);
    forall i | 0 <= i < |values| ensures Legible(trees[i]) <==> Decodes(values[i]) {
    }
  }

  predicate RfcDecodes(r: RfcReference) {
    Decodes(r.rfc) && Decodes(r.section) && Decodes(r.title) && Decodes(r.url)
  }

  lemma StringMembers(ms: seq<Member>)
    requires forall i :: 0 <= i < |ms| ==> ms[i].value.Str? && Decodes(ms[i].key)
    ensures Legible(Obj(ms)) <==> forall i :: 0 <= i < |ms| ==> Decodes(ms[i].value.s)
  {
    forall i | 0 <= i < |ms| ensures Legible(ms[i].value) <==> Decodes(ms[i].value.s) {
    }
  }

  lemma RfcAndSection()
    ensures Decodes(RFC) && Decodes(SECTION)
  {
    AsciiDecodes(RFC);
    AsciiDecodes(SECTION);
  }

  lemma TitleAndUrl()
    ensures Decodes(TITLE) && Decodes(URL)
  {
    AsciiDecodes(TITLE);
    AsciiDecodes(URL);
  }

  lemma FourMembers(keys: seq<Bytes>, a: Bytes, b: Bytes, c: Bytes, d: Bytes)
    requires |keys| == 4 && AllDecode(keys)
    ensures Legible(Obj([Member(keys[0], Str(a)), Member(keys[1], Str(b)), Member(keys[2], Str(c)),
      Member(keys[3], Str(d))]))
       <==> Decodes(a) && Decodes(b) && Decodes(c) && Decodes(d)
  {
    var ms := [Member(keys[0], Str(a)), Member(keys[1], Str(b)), Member(keys[2], Str(c)), Member(keys[3], Str(d))];
    StringMembers(ms);
    assert ms[0].value.s == a && ms[1].value.s == b && ms[2].value.s == c && ms[3].value.s == d;
  }

  lemma RfcLegible(r: RfcReference)
    ensures Legible(RfcTree(r)) <==> RfcDecodes(r)
  {
    RfcAndSection();
    TitleAndUrl();
    FourMembers([RFC, SECTION, TITLE, URL], r.rfc, r.section, r.title, r.url);
  }

  ghost predicate RfcsDecode(rs: seq<RfcReference>) {
    forall i :: 0 <= i < |rs| ==> RfcDecodes(rs[i])
  }

  lemma RfcTreesDecode(rs: seq<RfcReference>)
    ensures Decodes(Render(Arr(RfcTrees(rs)))) <==> RfcsDecode(rs)
  {
    RenderDecodes(Arr(RfcTrees(rs)));
    var trees := RfcTrees(rs);
    forall i | 0 <= i < |rs| ensures Legible(trees[i]) <==> RfcDecodes(rs[i]) {
      RfcLegible(rs[i]);
    }
  }

  // ------------------------------------------------------------------------ summaries

  lemma ObjectDecodes(keys: seq<Bytes>, values: seq<Bytes>)
    requires |keys| == |values| && AllDecode(keys)
    ensures Decodes(ObjectText(keys, values)) <==> AllDecode(values)
  {
    var parts := Parts(keys, values);
    forall i | 0 <= i < |parts| ensures Decodes(parts[i]) <==> Decodes(values[i]) {
      PartDecodes(keys[i], values[i]);
    }
    JoinDecodes(parts);
    Between(['{'], Join(parts), ['}']);
  }

  lemma FeatureKeysDecode()
    ensures AllDecode(FEATURE_KEYS)
  {
    DefinitionKeysDecode();
    StateKeysDecode();
    AllDecodeAppend(DEFINITION_KEYS, STATE_KEYS);
  }

  lemma DefinitionKeysDecode()
    ensures AllDecode(DEFINITION_KEYS)
  {
    forall i | 0 <= i < |DEFINITION_KEYS| ensures Decodes(DEFINITION_KEYS[i]) {
      AsciiDecodes(DEFINITION_KEYS[i]);
    }
  }

  lemma StateKeysDecode()
    ensures AllDecode(STATE_KEYS)
  {
    forall i | 0 <= i < |STATE_KEYS| ensures Decodes(STATE_KEYS[i]) {
      AsciiDecodes(STATE_KEYS[i]);
    }
  }

  lemma SummaryKeysDecode()
    ensures AllDecode(SUMMARY_KEYS)
  {
    forall i | 0 <= i < |SUMMARY_KEYS| ensures Decodes(SUMMARY_KEYS[i]) {
      AsciiDecodes(SUMMARY_KEYS[i]);
    }
  }

  lemma BoolDecodes(b: bool)
    ensures Decodes(JsonBool(b))
  {
    AsciiDecodes(JsonBool(b));
  }

  /** The strings a feature takes from the catalog. */
  ghost predicate DefinitionDecodes(f: FeatureFields) {
    && Decodes(f.id) && Decodes(f.title) && Decodes(f.category) && Decodes(f.completionMode)
    && AllDecode(f.setup) && RfcsDecode(f.rfcs)
  }

  /** The strings that change with the execution. */
  ghost predicate StateDecodes(f: FeatureFields) {
    && Decodes(f.state) && Decodes(f.message)
    && Decodes(f.startedAt) && Decodes(f.deadlineAt) && Decodes(f.finishedAt)
    && Decodes(f.evidenceKind) && Decodes(f.evidenceText) && Decodes(f.reportText) && AllDecode(f.assocIds)
  }

  lemma DefinitionValuesDecode(f: FeatureFields)
    ensures AllDecode(DefinitionValues(f)) <==> DefinitionDecodes(f)
  {
    QuoteDecodes(f.id);
    QuoteDecodes(f.title);
    QuoteDecodes(f.category);
    QuoteDecodes(f.completionMode);
    BoolDecodes(f.manualSetup);
    StringsDecode(f.setup);
    RfcTreesDecode(f.rfcs);
    var vs := DefinitionValues(f);
    assert AllDecode(vs) <==> Decodes(vs[0]) && Decodes(vs[1]) && Decodes(vs[2]) && Decodes(vs[3]) && Decodes(vs[4])
                              && Decodes(vs[5]) && Decodes(vs[6]);
  }

  lemma StateValuesDecode(f: FeatureFields)
    ensures AllDecode(StateValues(f)) <==> StateDecodes(f)
  {
    QuoteDecodes(f.state);
    QuoteDecodes(f.message);
    QuoteDecodes(f.startedAt);
    QuoteDecodes(f.deadlineAt);
    QuoteDecodes(f.finishedAt);
    QuoteDecodes(f.evidenceKind);
    QuoteDecodes(f.evidenceText);
    QuoteDecodes(f.reportText);
    StringsDecode(f.assocIds);
    var vs := StateValues(f);
    assert AllDecode(vs) <==> Decodes(vs[0]) && Decodes(vs[1]) && Decodes(vs[2]) && Decodes(vs[3]) && Decodes(vs[4])
                              && Decodes(vs[5]) && Decodes(vs[6]) && Decodes(vs[7]) && Decodes(vs[8]);
  }

  lemma AllDecodeAppend(a: seq<Bytes>, b: seq<Bytes>)
    ensures AllDecode(a + b) <==> AllDecode(a) && AllDecode(b)
  {
    if AllDecode(a + b) {
      assert forall i :: 0 <= i < |a| ==> a[i] == (a + b)[i];
      assert forall i :: 0 <= i < |b| ==> b[i] == (a + b)[|a| + i];
    }
  }

  lemma FeatureDecodes(f: FeatureFields)
    ensures Decodes(FeatureText(f)) <==> DefinitionDecodes(f) && StateDecodes(f)
  {
    FeatureKeysDecode();
    ObjectDecodes(FEATURE_KEYS, FeatureValues(f));
    AllDecodeAppend(DefinitionValues(f), StateValues(f));
    DefinitionValuesDecode(f);
    StateValuesDecode(f);
  }

  lemma DecDecodes(n: nat)
    ensures Decodes(Dec(n))
  {
    DecValue(n);
    AsciiDecodes(Dec(n));
  }

  lemma CountsDecode(s: SummaryFields)
    ensures AllDecode(CountValues(s)) <==> Decodes(s.sessionId)
  {
    QuoteDecodes(s.sessionId);
    DecDecodes(s.passed);
    DecDecodes(s.failed);
    DecDecodes(s.unsupported);
    DecDecodes(s.timedOut);
    DecDecodes(s.pending);
    DecDecodes(s.active);
    DecDecodes(s.pending + s.active);
    assert CountValues(s)[0] == Quote(s.sessionId);
  }

  lemma FeatureListDecodes(fs: seq<FeatureFields>)
    ensures Decodes(FeatureList(fs)) <==> forall i :: 0 <= i < |fs| ==> DefinitionDecodes(fs[i]) && StateDecodes(fs[i])
  {
    var texts := FeatureTexts(fs);
    forall i | 0 <= i < |fs| ensures Decodes(texts[i]) <==> DefinitionDecodes(fs[i]) && StateDecodes(fs[i]) {
      FeatureDecodes(fs[i]);
    }
    JoinDecodes(texts);
    Between(['['], Join(texts), [']']);
  }

  /** All strings of a summary are UTF-8. */
  ghost predicate AllUtf8(s: SummaryFields) {
    && Decodes(s.sessionId)
    && forall i :: 0 <= i < |s.features| ==> DefinitionDecodes(s.features[i]) && StateDecodes(s.features[i])
  }

  lemma SummaryValuesDecode(s: SummaryFields)
    ensures AllDecode(SummaryValues(s)) <==> AllUtf8(s)
  {
    var last := [JsonBool(s.pending == 0 && s.active == 0), FeatureList(s.features)];
    AllDecodeAppend(CountValues(s), last);
    CountsDecode(s);
    BoolDecodes(s.pending == 0 && s.active == 0);
    FeatureListDecodes(s.features);
    assert AllDecode(last) <==> Decodes(last[0]) && Decodes(last[1]);
  }

  /** The printed summary is UTF-8 if and only if every string it was given is. */
  lemma SummaryDecodes(s: SummaryFields)
    ensures Decodes(Summary(s)) <==> AllUtf8(s)
  {
    SummaryKeysDecode();
    ObjectDecodes(SUMMARY_KEYS, SummaryValues(s));
    SummaryValuesDecode(s);
  }

  // ------------------------------------------------------------------------ the event stream

  /** The turns of a stream over the given summaries. */
  predicate Polled(polls: seq<Poll>, views: seq<SummaryFields>) {
    |polls| == |views| && forall i :: 0 <= i < |polls| ==> polls[i].summary == Summary(views[i])
  }

  /** Every sequence of summaries, with keep-alives anywhere, reaches the client as that sequence without
      consecutive duplicates; cut short, an initial part of it; whole if and only if all the strings in all the
      summaries are UTF-8. */
  lemma SummariesSurvive(polls: seq<Poll>, views: seq<SummaryFields>, sent: Bytes)
    requires Polled(polls, views) && sent <= StreamBytes(polls)
    ensures Events(StreamBytes(polls), START) == SummaryEvents(Readable(Distinct(Texts(polls))))
    ensures Events(sent, START) <= SummaryEvents(Readable(Distinct(Texts(polls))))
    ensures Events(StreamBytes(polls), START) == SummaryEvents(Distinct(Texts(polls)))
       <==> forall i :: 0 <= i < |views| ==> AllUtf8(views[i])
  {
    forall i | 0 <= i < |polls| ensures SummaryLine(polls[i].summary) {
      SummaryIsOneLine(views[i]);
    }
    forall i | 0 <= i < |views| ensures Decodes(polls[i].summary) <==> AllUtf8(views[i]) {
      SummaryDecodes(views[i]);
    }
    SummariesDelivered(polls);
    PartialStreamDelivered(polls, sent);
    AllDelivered(polls);
  }
}
