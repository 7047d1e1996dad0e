/**
  The text of a summary, letter by letter: which value of the executions stands behind which key.
 */
module Spelled {
  import opened Bytes
  import opened Commas
  import opened Decimal
  import opened Execution
  import opened Lifecycle
  import opened Invariant
  import opened Counting
  import opened JsonGrammar
  import opened JsonPrinter
  import opened Requests
  import opened SummaryText
  import opened Views

  // ------------------------------------------------------------------------ letters

  /** A key, which needs no escapes, and its value. */
  function Pair(key: Bytes, value: Bytes): Bytes {
    ['"'] + key + ['"', ':'] + value
  }

  function Braced(parts: seq<Bytes>): Bytes {
    ['{'] + Join(parts) + ['}']
  }

  function Bracketed(parts: seq<Bytes>): Bytes {
    ['['] + Join(parts) + [']']
  }

  function StringLetters(strings: seq<Bytes>): (r: seq<Bytes>)
    ensures |r| == |strings| && forall i :: 0 <= i < |r| ==> r[i] == Quote(strings[i])
  {
    seq(|strings|, i requires 0 <= i < |strings| => Quote(strings[i]))
  }

  function RfcLetters(r: RfcReference): Bytes {
    Braced([Pair("rfc", Quote(r.rfc)), Pair("section", Quote(r.section)), Pair("title", Quote(r.title)),
            Pair("url", Quote(r.url))])
  }

  function RfcsLetters(rs: seq<RfcReference>): (r: seq<Bytes>)
    ensures |r| == |rs| && forall i :: 0 <= i < |r| ==> r[i] == RfcLetters(rs[i])
  {
    seq(|rs|, i requires 0 <= i < |rs| => RfcLetters(rs[i]))
  }

  function StateLetters(state: FeatureState): Bytes {
    if state == Pending then "pending"
    else if state == Active then "active"
    else if state == Passed then "passed"
    else if state == Failed then "failed"
    else if state == Unsupported then "unsupported"
    else "timed_out"
  }

  function ModeLetters(mode: CompletionMode): Bytes {
    if mode == ServerObserved then "server_observed"
    else if mode == AgentReported then "agent_reported"
    else "hybrid"
  }

  /** What the catalog says of a feature. */
  function NamePairs(d: Entry): seq<Bytes> {
    [Pair("id", Quote(d.id)), Pair("title", Quote(d.title)), Pair("category", Quote(d.category)),
     Pair("completion_mode", Quote(ModeLetters(d.mode)))]
  }

  function SetupPairs(d: Entry): seq<Bytes> {
    [Pair("manual_setup_required", if d.manualSetup then "true" else "false"),
     Pair("manual_setup_instructions", Bracketed(StringLetters(d.setup))),
     Pair("rfc_references", Bracketed(RfcsLetters(d.rfcs)))]
  }

  /** What its execution says. */
  function StatePairs(p: Printer, e: Exec): seq<Bytes> {
    [Pair("state", Quote(StateLetters(e.state))), Pair("message", Quote(e.message)),
     Pair("started_at", Quote(p.iso(e.startedAt))), Pair("deadline_at", Quote(p.iso(e.deadlineAt))),
     Pair("finished_at", Quote(p.iso(e.finishedAt)))]
  }

  function EvidencePairs(e: Exec): seq<Bytes> {
    [Pair("evidence_kind", Quote(e.evidenceKind)), Pair("evidence_text", Quote(e.evidenceText)),
     Pair("report_text", Quote(e.reportText)), Pair("assoc_ids", Bracketed(StringLetters(e.assocIds)))]
  }

  function FeatureLetters(p: Printer, id: Id, e: Exec): Bytes {
    Braced(NamePairs(p.entry(id)) + SetupPairs(p.entry(id)) + StatePairs(p, e) + EvidencePairs(e))
  }

  function FeaturesLetters(p: Printer, ids: seq<Id>, values: seq<Exec>): (r: seq<Bytes>)
    requires |ids| == |values|
    ensures |r| == |ids| && forall i :: 0 <= i < |r| ==> r[i] == FeatureLetters(p, ids[i], values[i])
  {
    seq(|ids|, i requires 0 <= i < |ids| => FeatureLetters(p, ids[i], values[i]))
  }

  /** The executions in a state. */
  function Among(values: seq<Exec>, state: FeatureState): set<nat> {
    set i: nat | i < |values| && values[i].state == state
  }

  function ClosedPairs(passed: nat, failed: nat, unsupported: nat, timedOut: nat): seq<Bytes> {
    [Pair("passed", Dec(passed)), Pair("failed", Dec(failed)), Pair("unsupported", Dec(unsupported)),
     Pair("timed_out", Dec(timedOut))]
  }

  function OpenPairs(pending: nat, active: nat, complete: Bytes): seq<Bytes> {
    [Pair("pending", Dec(pending)), Pair("active", Dec(active)), Pair("pending_or_active", Dec(pending + active)),
     Pair("complete", complete)]
  }

  function CompleteLetters(values: seq<Exec>): Bytes {
    if forall i :: 0 <= i < |values| ==> values[i].state != Pending && values[i].state != Active then "true"
    else "false"
  }

  /** The whole summary of executions with these values. */
  function SummaryLetters(p: Printer, ids: seq<Id>, values: seq<Exec>): Bytes
    requires |ids| == |values|
  {
    Braced([Pair("session_id", Quote(p.sessionId))]
           + ClosedPairs(|Among(values, Passed)|, |Among(values, Failed)|, |Among(values, Unsupported)|,
                         |Among(values, TimedOut)|)
           + OpenPairs(|Among(values, Pending)|, |Among(values, Active)|, CompleteLetters(values))
           + [Pair("features", Bracketed(FeaturesLetters(p, ids, values)))])
  }

  // ------------------------------------------------------------------------ keys

  lemma PairIs(key: Bytes, value: Bytes)
    requires Plain(key)
    ensures Quote(key) + [':'] + value == Pair(key, value)
  {
    PlainEscape(key);
  }

  predicate AllPlain(keys: seq<Bytes>) {
    forall i :: 0 <= i < |keys| ==> Plain(keys[i])
  }

  /** The parts of an object, key by key. */
  lemma PairsAre(keys: seq<Bytes>, values: seq<Bytes>, pairs: seq<Bytes>)
    requires |keys| == |values| == |pairs| && AllPlain(keys)
    requires forall i :: 0 <= i < |keys| ==> pairs[i] == Pair(keys[i], values[i])
    ensures Parts(keys, values) == pairs
  {
    forall i | 0 <= i < |keys| ensures Parts(keys, values)[i] == pairs[i] {
      PairIs(keys[i], values[i]);
    }
  }

  lemma PlainNames()
    ensures Plain("id") && Plain("title") && Plain("category") && Plain("completion_mode")
  {
  }

  lemma PlainSetup()
    ensures Plain("manual_setup_required") && Plain("manual_setup_instructions") && Plain("rfc_references")
  {
  }

  lemma PlainStates()
    ensures Plain("state") && Plain("message") && Plain("started_at") && Plain("deadline_at") && Plain("finished_at")
  {
  }

  lemma PlainEvidence()
    ensures Plain("evidence_kind") && Plain("evidence_text") && Plain("report_text") && Plain("assoc_ids")
  {
  }

  lemma PlainCounts()
    ensures Plain("session_id") && Plain("passed") && Plain("failed") && Plain("unsupported") && Plain("timed_out")
  {
  }

  lemma PlainOpen()
    ensures Plain("pending") && Plain("active") && Plain("pending_or_active") && Plain("complete") && Plain("features")
  {
  }

  // ------------------------------------------------------------------------ lists and references

  lemma StringsSpelled(strings: seq<Bytes>)
    ensures Render(Arr(Strings(strings))) == Bracketed(StringLetters(strings))
  {
    var ts := Strings(strings);
    forall i | 0 <= i < |strings| ensures RenderItems(ts)[i] == StringLetters(strings)[i] {
      RenderItemsAt(ts, i);
    }
    assert RenderItems(ts) == StringLetters(strings);
  }

  lemma MembersSpelled(ms: seq<Member>, pairs: seq<Bytes>)
    requires |ms| == |pairs|
    requires forall i :: 0 <= i < |ms| ==> Plain(ms[i].key) && pairs[i] == Pair(ms[i].key, Render(ms[i].value))
    ensures Render(Obj(ms)) == Braced(pairs)
  {
    forall i | 0 <= i < |ms| ensures RenderMembers(ms)[i] == pairs[i] {
      RenderMembersAt(ms, i);
      PairIs(ms[i].key, Render(ms[i].value));
    }
    assert RenderMembers(ms) == pairs;
  }

  lemma RfcSpelled(r: RfcReference)
    ensures Render(RfcTree(r)) == RfcLetters(r)
  {
    PlainKeys();
    MembersSpelled(RfcTree(r).members, [Pair("rfc", Quote(r.rfc)), Pair("section", Quote(r.section)),
                                        Pair("title", Quote(r.title)), Pair("url", Quote(r.url))]);
  }

  lemma RfcsSpelled(rs: seq<RfcReference>)
    ensures Render(Arr(RfcTrees(rs))) == Bracketed(RfcsLetters(rs))
  {
    var ts := RfcTrees(rs);
    forall i | 0 <= i < |rs| ensures RenderItems(ts)[i] == RfcsLetters(rs)[i] {
      RenderItemsAt(ts, i);
      RfcSpelled(rs[i]);
    }
    assert RenderItems(ts) == RfcsLetters(rs);
  }

  // ------------------------------------------------------------------------ features

  lemma PartsAppend(keys: seq<Bytes>, values: seq<Bytes>, keys': seq<Bytes>, values': seq<Bytes>)
    requires |keys| == |values| && |keys'| == |values'|
    ensures Parts(keys + keys', values + values') == Parts(keys, values) + Parts(keys', values')
  {
  }

  function NameValues(d: Entry): seq<Bytes> {
    [Quote(d.id), Quote(d.title), Quote(d.category), Quote(ModeText(d.mode))]
  }

  function SetupValues(d: Entry): seq<Bytes> {
    [JsonBool(d.manualSetup), Render(Arr(Strings(d.setup))), Render(Arr(RfcTrees(d.rfcs)))]
  }

  function ProgressValues(p: Printer, e: Exec): seq<Bytes> {
    [Quote(StateText(e.state)), Quote(e.message), Quote(p.iso(e.startedAt)), Quote(p.iso(e.deadlineAt)),
     Quote(p.iso(e.finishedAt))]
  }

  function EvidenceValues(e: Exec): seq<Bytes> {
    [Quote(e.evidenceKind), Quote(e.evidenceText), Quote(e.reportText), Render(Arr(Strings(e.assocIds)))]
  }

  lemma NamesSpelled(d: Entry)
    ensures Parts(DEFINITION_KEYS[..4], NameValues(d)) == NamePairs(d)
  {
    PlainNames();
    assert ModeText(d.mode) == ModeLetters(d.mode);
    PairsAre(DEFINITION_KEYS[..4], NameValues(d), NamePairs(d));
  }

  lemma SetupSpelled(d: Entry)
    ensures Parts(DEFINITION_KEYS[4..], SetupValues(d)) == SetupPairs(d)
  {
    PlainSetup();
    StringsSpelled(d.setup);
    RfcsSpelled(d.rfcs);
    PairsAre(DEFINITION_KEYS[4..], SetupValues(d), SetupPairs(d));
  }

  lemma ProgressSpelled(p: Printer, e: Exec)
    ensures Parts(STATE_KEYS[..5], ProgressValues(p, e)) == StatePairs(p, e)
  {
    PlainStates();
    assert StateText(e.state) == StateLetters(e.state);
    PairsAre(STATE_KEYS[..5], ProgressValues(p, e), StatePairs(p, e));
  }

  lemma EvidenceSpelled(e: Exec)
    ensures Parts(STATE_KEYS[5..], EvidenceValues(e)) == EvidencePairs(e)
  {
    PlainEvidence();
    StringsSpelled(e.assocIds);
    PairsAre(STATE_KEYS[5..], EvidenceValues(e), EvidencePairs(e));
  }

  lemma DefinitionSplit(p: Printer, id: Id, e: Exec)
    ensures DefinitionValues(FieldsOf(p, Row(id, View(e)))) == NameValues(p.entry(id)) + SetupValues(p.entry(id))
  {
  }

  lemma StateSplit(p: Printer, id: Id, e: Exec)
    ensures StateValues(FieldsOf(p, Row(id, View(e)))) == ProgressValues(p, e) + EvidenceValues(e)
  {
  }

  lemma FourParts(names: seq<Bytes>, setup: seq<Bytes>, state: seq<Bytes>, evidence: seq<Bytes>)
    requires |names| == 4 && |setup| == 3 && |state| == 5 && |evidence| == 4
    ensures |FEATURE_KEYS| == 16
    ensures Parts(FEATURE_KEYS, (names + setup) + (state + evidence)) ==
            (Parts(DEFINITION_KEYS[..4], names) + Parts(DEFINITION_KEYS[4..], setup)) +
            (Parts(STATE_KEYS[..5], state) + Parts(STATE_KEYS[5..], evidence))
  {
    PartsAppend(DEFINITION_KEYS[..4], names, DEFINITION_KEYS[4..], setup);
    PartsAppend(STATE_KEYS[..5], state, STATE_KEYS[5..], evidence);
    assert DEFINITION_KEYS[..4] + DEFINITION_KEYS[4..] == DEFINITION_KEYS;
    assert STATE_KEYS[..5] + STATE_KEYS[5..] == STATE_KEYS;
    PartsAppend(DEFINITION_KEYS, names + setup, STATE_KEYS, state + evidence);
  }

  lemma Fourfold(a: seq<Bytes>, b: seq<Bytes>, c: seq<Bytes>, d: seq<Bytes>)
    ensures (a + b) + (c + d) == a + b + c + d
  {
  }

  /** A feature's text shows the catalog's entry and every field of the execution under its own key. */
  lemma FeatureSpelled(p: Printer, id: Id, e: Exec)
    ensures FeatureText(FieldsOf(p, Row(id, View(e)))) == FeatureLetters(p, id, e)
  {
    var d := p.entry(id);
    DefinitionSplit(p, id, e);
    StateSplit(p, id, e);
    FourParts(NameValues(d), SetupValues(d), ProgressValues(p, e), EvidenceValues(e));
    NamesSpelled(d);
    SetupSpelled(d);
    ProgressSpelled(p, e);
    EvidenceSpelled(e);
    Fourfold(NamePairs(d), SetupPairs(d), StatePairs(p, e), EvidencePairs(e));
  }

  // ------------------------------------------------------------------------ the summary

  /** The rows of a summary over executions with these values. */
  predicate RowsShow(rows: seq<Row>, ids: seq<Id>, values: seq<Exec>) {
    |rows| == |ids| == |values| && forall i :: 0 <= i < |rows| ==> rows[i] == Row(ids[i], View(values[i]))
  }

  lemma AmongIs(rows: seq<Row>, ids: seq<Id>, values: seq<Exec>, state: FeatureState)
    requires RowsShow(rows, ids, values)
    ensures InState(rows, state) == Among(values, state)
  {
  }

  lemma CountsSpelled(rows: seq<Row>, ids: seq<Id>, values: seq<Exec>)
    requires RowsShow(rows, ids, values)
    ensures var k := Tally(rows);
      && k.passed == |Among(values, Passed)| && k.failed == |Among(values, Failed)|
      && k.unsupported == |Among(values, Unsupported)| && k.timedOut == |Among(values, TimedOut)|
      && k.pending == |Among(values, Pending)| && k.active == |Among(values, Active)|
  {
    TallyCounts(rows);
    AmongIs(rows, ids, values, Passed);
    AmongIs(rows, ids, values, Failed);
    AmongIs(rows, ids, values, Unsupported);
    AmongIs(rows, ids, values, TimedOut);
    AmongIs(rows, ids, values, Pending);
    AmongIs(rows, ids, values, Active);
  }

  lemma NoneAmong(values: seq<Exec>, state: FeatureState)
    ensures |Among(values, state)| == 0 <==> forall i :: 0 <= i < |values| ==> values[i].state != state
  {
    if |Among(values, state)| == 0 {
      forall i | 0 <= i < |values| ensures values[i].state != state {
        assert i !in Among(values, state);
      }
    } else {
      var i :| i in Among(values, state);
    }
  }

  function ClosedValues(k: Counts): seq<Bytes> {
    [Dec(k.passed), Dec(k.failed), Dec(k.unsupported), Dec(k.timedOut)]
  }

  function OpenValues(k: Counts): seq<Bytes> {
    [Dec(k.pending), Dec(k.active), Dec(k.pending + k.active), JsonBool(k.pending == 0 && k.active == 0)]
  }

  lemma ClosedSpelled(k: Counts)
    ensures Parts(SUMMARY_KEYS[1..5], ClosedValues(k)) == ClosedPairs(k.passed, k.failed, k.unsupported, k.timedOut)
  {
    PlainCounts();
    PairsAre(SUMMARY_KEYS[1..5], ClosedValues(k), ClosedPairs(k.passed, k.failed, k.unsupported, k.timedOut));
  }

  lemma OpenSpelled(k: Counts)
    ensures Parts(SUMMARY_KEYS[5..9], OpenValues(k)) ==
            OpenPairs(k.pending, k.active, JsonBool(k.pending == 0 && k.active == 0))
  {
    PlainOpen();
    PairsAre(SUMMARY_KEYS[5..9], OpenValues(k),
             OpenPairs(k.pending, k.active, JsonBool(k.pending == 0 && k.active == 0)));
  }

  lemma CompleteSpelled(values: seq<Exec>)
    ensures JsonBool(|Among(values, Pending)| == 0 && |Among(values, Active)| == 0) == CompleteLetters(values)
  {
    NoneAmong(values, Pending);
    NoneAmong(values, Active);
  }

  lemma EndsSpelled(session: Bytes, list: Bytes)
    ensures Parts(SUMMARY_KEYS[..1], [Quote(session)]) == [Pair("session_id", Quote(session))]
    ensures Parts(SUMMARY_KEYS[9..], [list]) == [Pair("features", list)]
  {
    PlainCounts();
    PlainOpen();
    PairsAre(SUMMARY_KEYS[..1], [Quote(session)], [Pair("session_id", Quote(session))]);
    PairsAre(SUMMARY_KEYS[9..], [list], [Pair("features", list)]);
  }

  lemma KeysSplit(first: seq<Bytes>, ended: seq<Bytes>, open: seq<Bytes>, last: seq<Bytes>)
    requires |first| == |last| == 1 && |ended| == |open| == 4
    ensures Parts(SUMMARY_KEYS, first + ended + open + last) ==
            Parts(SUMMARY_KEYS[..1], first) + Parts(SUMMARY_KEYS[1..5], ended) +
            Parts(SUMMARY_KEYS[5..9], open) + Parts(SUMMARY_KEYS[9..], last)
  {
    PartsAppend(SUMMARY_KEYS[..1], first, SUMMARY_KEYS[1..5], ended);
    PartsAppend(SUMMARY_KEYS[..1] + SUMMARY_KEYS[1..5], first + ended, SUMMARY_KEYS[5..9], open);
    PartsAppend(SUMMARY_KEYS[..1] + SUMMARY_KEYS[1..5] + SUMMARY_KEYS[5..9], first + ended + open,
                SUMMARY_KEYS[9..], last);
    assert SUMMARY_KEYS[..1] + SUMMARY_KEYS[1..5] + SUMMARY_KEYS[5..9] + SUMMARY_KEYS[9..] == SUMMARY_KEYS;
  }

  lemma ListSpelled(p: Printer, rows: seq<Row>, ids: seq<Id>, values: seq<Exec>)
    requires RowsShow(rows, ids, values)
    ensures FeatureList(AllFields(p, rows)) == Bracketed(FeaturesLetters(p, ids, values))
  {
    var texts := FeatureTexts(AllFields(p, rows));
    forall i | 0 <= i < |rows| ensures texts[i] == FeaturesLetters(p, ids, values)[i] {
      FeatureSpelled(p, ids[i], values[i]);
    }
    assert texts == FeaturesLetters(p, ids, values);
  }

  lemma CountsSplit(p: Printer, rows: seq<Row>, k: Counts)
    ensures CountValues(SummaryOf(p, rows, k)) == [Quote(p.sessionId)] + ClosedValues(k) + OpenValues(k)[..3]
  {
  }

  lemma LastTwo(a: seq<Bytes>, b: seq<Bytes>, x: Bytes, y: Bytes)
    ensures a + b + [x, y] == a + (b + [x]) + [y]
  {
  }

  lemma SummarySplit(p: Printer, rows: seq<Row>, k: Counts)
    ensures SummaryValues(SummaryOf(p, rows, k)) ==
            [Quote(p.sessionId)] + ClosedValues(k) + OpenValues(k) + [FeatureList(AllFields(p, rows))]
  {
    CountsSplit(p, rows, k);
    assert OpenValues(k) == OpenValues(k)[..3] + [OpenValues(k)[3]];
    LastTwo([Quote(p.sessionId)] + ClosedValues(k), OpenValues(k)[..3], OpenValues(k)[3],
            FeatureList(AllFields(p, rows)));
  }

  /** The printed summary: under each of the six keys the number of executions in that state, the number of those
      still open, whether there is none, and one text for each feature. */
  lemma SummarySpelled(p: Printer, rows: seq<Row>, ids: seq<Id>, values: seq<Exec>)
    requires RowsShow(rows, ids, values)
    ensures SummaryBytes(p, rows, Tally(rows)) == SummaryLetters(p, ids, values)
  {
    var k, list := Tally(rows), FeatureList(AllFields(p, rows));
    SummarySplit(p, rows, k);
    KeysSplit([Quote(p.sessionId)], ClosedValues(k), OpenValues(k), [list]);
    ClosedSpelled(k);
    OpenSpelled(k);
    CountsSpelled(rows, ids, values);
    CompleteSpelled(values);
    EndsSpelled(p.sessionId, list);
    ListSpelled(p, rows, ids, values);
  }

  // ------------------------------------------------------------------------ request bodies

  function ReportLetters(r: Report): Bytes {
    Braced([Pair("evidence_kind", Quote(r.evidenceKind)), Pair("evidence_text", Quote(r.evidenceText)),
            Pair("report_text", Quote(r.reportText)), Pair("assoc_ids", Bracketed(StringLetters(r.assocIds)))])
  }

  function WithdrawalLetters(r: Report): Bytes {
    Braced([Pair("reason", Quote(r.reason)), Pair("evidence_kind", Quote(r.evidenceKind)),
            Pair("evidence_text", Quote(r.evidenceText))])
  }

  lemma PlainReason()
    ensures Plain("reason")
  {
  }

  /** A completion report with its keys in letters is read field for field. */
  lemma ReportLettersRead(r: Report)
    requires r.reason == ""
    ensures CompletionReading(ReportLetters(r)) == Reading.Accepted(r)
  {
    var ms := ReportMembers(r);
    PlainEvidence();
    StringsSpelled(r.assocIds);
    MembersSpelled(ms, [Pair("evidence_kind", Quote(r.evidenceKind)), Pair("evidence_text", Quote(r.evidenceText)),
                        Pair("report_text", Quote(r.reportText)),
                        Pair("assoc_ids", Bracketed(StringLetters(r.assocIds)))]);
    assert [] + ms == ms;
    ReportArrives([], r);
  }

  /** And an unsupported request. */
  lemma WithdrawalLettersRead(r: Report)
    requires r.reportText == "" && r.assocIds == []
    ensures UnsupportedReading(WithdrawalLetters(r)) == Reading.Accepted(r)
  {
    var ms := WithdrawalMembers(r);
    PlainEvidence();
    PlainReason();
    MembersSpelled(ms, [Pair("reason", Quote(r.reason)), Pair("evidence_kind", Quote(r.evidenceKind)),
                        Pair("evidence_text", Quote(r.evidenceText))]);
    assert [] + ms == ms;
    WithdrawalArrives([], r);
  }

  // ------------------------------------------------------------------------ error bodies and address contracts

  lemma ErrorLetters(message: Bytes)
    ensures Render(Obj([Member(ERROR, Str(message))])) == Braced([Pair("error", Quote(message))])
  {
    PlainKeys();
    MembersSpelled([Member(ERROR, Str(message))], [Pair("error", Quote(message))]);
  }

  lemma AddressLetters(add: seq<Bytes>, remove: seq<Bytes>)
    ensures Render(Obj([Member(ADD_ADDRESSES, Arr(Strings(add))), Member(REMOVE_ADDRESSES, Arr(Strings(remove)))])) ==
            Braced([Pair("add_addresses", Bracketed(StringLetters(add))),
                    Pair("remove_addresses", Bracketed(StringLetters(remove)))])
  {
    PlainKeys();
    StringsSpelled(add);
    StringsSpelled(remove);
    MembersSpelled([Member(ADD_ADDRESSES, Arr(Strings(add))), Member(REMOVE_ADDRESSES, Arr(Strings(remove)))],
                   [Pair("add_addresses", Bracketed(StringLetters(add))),
                    Pair("remove_addresses", Bracketed(StringLetters(remove)))]);
  }
}
