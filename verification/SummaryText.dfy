/**
  The text of a summary: a single line whatever strings it carries.
 */
module SummaryText {
  import opened Bytes
  import opened Commas
  import opened Decimal
  import opened JsonGrammar
  import opened JsonPrinter
  import opened Sse

  datatype FeatureFields = FeatureFields(
    id: Bytes, title: Bytes, category: Bytes, completionMode: Bytes,
    manualSetup: bool, setup: seq<Bytes>, rfcs: seq<RfcReference>,
    state: Bytes, message: Bytes, startedAt: Bytes, deadlineAt: Bytes, finishedAt: Bytes,
    evidenceKind: Bytes, evidenceText: Bytes, reportText: Bytes, assocIds: seq<Bytes>)

  datatype SummaryFields = SummaryFields(
    sessionId: Bytes, passed: nat, failed: nat, unsupported: nat, timedOut: nat, pending: nat, active: nat,
    features: seq<FeatureFields>)

  const DEFINITION_KEYS: seq<Bytes> := [
    "id", "title", "category", "completion_mode", "manual_setup_required", "manual_setup_instructions",
      "rfc_references"]

  const STATE_KEYS: seq<Bytes> := [
    "state", "message", "started_at", "deadline_at", "finished_at",
    "evidence_kind", "evidence_text", "report_text", "assoc_ids"]

  const FEATURE_KEYS: seq<Bytes> := DEFINITION_KEYS + STATE_KEYS

  const SUMMARY_KEYS: seq<Bytes> := [
    "session_id", "passed", "failed", "unsupported", "timed_out", "pending", "active",
    "pending_or_active", "complete", "features"]

  function JsonBool(b: bool): Bytes {
    if b then "true" else "false"
  }

  function Parts(keys: seq<Bytes>, values: seq<Bytes>): (r: seq<Bytes>)
    requires |keys| == |values|
    ensures |r| == |keys| && forall i :: 0 <= i < |r| ==> r[i] == Quote(keys[i]) + [':'] + values[i]
  {
    seq(|keys|, i requires 0 <= i < |keys| => Quote(keys[i]) + [':'] + values[i])
  }

  function ObjectText(keys: seq<Bytes>, values: seq<Bytes>): Bytes
    requires |keys| == |values|
  {
    ['{'] + Join(Parts(keys, values)) + ['}']
  }

  /** The immutable part of a feature. */
  function DefinitionValues(f: FeatureFields): seq<Bytes> {
    [Quote(f.id), Quote(f.title), Quote(f.category), Quote(f.completionMode),
     JsonBool(f.manualSetup), Render(Arr(Strings(f.setup))), Render(Arr(RfcTrees(f.rfcs)))]
  }

  /** The part that changes. */
  function StateValues(f: FeatureFields): seq<Bytes> {
    [Quote(f.state), Quote(f.message), Quote(f.startedAt), Quote(f.deadlineAt), Quote(f.finishedAt),
     Quote(f.evidenceKind), Quote(f.evidenceText), Quote(f.reportText), Render(Arr(Strings(f.assocIds)))]
  }

  function FeatureValues(f: FeatureFields): seq<Bytes> {
    DefinitionValues(f) + StateValues(f)
  }

  function FeatureText(f: FeatureFields): Bytes {
    ObjectText(FEATURE_KEYS, FeatureValues(f))
  }

  function FeatureTexts(fs: seq<FeatureFields>): (r: seq<Bytes>)
    ensures |r| == |fs| && forall i :: 0 <= i < |r| ==> r[i] == FeatureText(fs[i])
  {
    seq(|fs|, i requires 0 <= i < |fs| => FeatureText(fs[i]))
  }

  function CountValues(s: SummaryFields): seq<Bytes> {
    [Quote(s.sessionId), Dec(s.passed), Dec(s.failed), Dec(s.unsupported), Dec(s.timedOut), Dec(s.pending),
     Dec(s.active), Dec(s.pending + s.active)]
  }

  function FeatureList(fs: seq<FeatureFields>): Bytes {
    ['['] + Join(FeatureTexts(fs)) + [']']
  }

  /** The values of a summary whose list of features is already printed. */
  function ValuesWith(s: SummaryFields, list: Bytes): (r: seq<Bytes>)
    ensures |r| == |SUMMARY_KEYS|
  {
    CountValues(s) + [JsonBool(s.pending == 0 && s.active == 0), list]
  }

  function SummaryValues(s: SummaryFields): seq<Bytes> {
    ValuesWith(s, FeatureList(s.features))
  }

  function SummaryWith(s: SummaryFields, list: Bytes): Bytes {
    ObjectText(SUMMARY_KEYS, ValuesWith(s, list))
  }

  function Summary(s: SummaryFields): Bytes {
    SummaryWith(s, FeatureList(s.features))
  }

  /** The counts alone decide what stands before the list. */
  lemma SameCounts(s: SummaryFields, features: seq<FeatureFields>, list: Bytes)
    ensures SummaryWith(s.(features := features), list) == SummaryWith(s, list)
  {
    assert ValuesWith(s.(features := features), list) == ValuesWith(s, list);
  }

  predicate AllPrintable(parts: seq<Bytes>) {
    forall i :: 0 <= i < |parts| ==> Printable(parts[i])
  }

  lemma ObjectPrintable(keys: seq<Bytes>, values: seq<Bytes>)
    requires |keys| == |values| && AllPrintable(values)
    ensures SummaryLine(ObjectText(keys, values))
  {
    var parts := Parts(keys, values);
    forall i | 0 <= i < |parts| ensures Printable(parts[i]) {
      EscapePrintable(keys[i]);
    }
    JoinPrintable(parts);
  }

  lemma QuotePrintable(s: Bytes)
    ensures Printable(Quote(s))
  {
    EscapePrintable(s);
  }

  lemma DefinitionPrintable(f: FeatureFields)
    ensures AllPrintable(DefinitionValues(f))
  {
    QuotePrintable(f.id);
    QuotePrintable(f.title);
    QuotePrintable(f.category);
    QuotePrintable(f.completionMode);
    RenderPrintable(Arr(Strings(f.setup)));
    RenderPrintable(Arr(RfcTrees(f.rfcs)));
  }

  lemma StatePrintable(f: FeatureFields)
    ensures AllPrintable(StateValues(f))
  {
    QuotePrintable(f.state);
    QuotePrintable(f.message);
    QuotePrintable(f.startedAt);
    QuotePrintable(f.deadlineAt);
    QuotePrintable(f.finishedAt);
    QuotePrintable(f.evidenceKind);
    QuotePrintable(f.evidenceText);
    QuotePrintable(f.reportText);
    RenderPrintable(Arr(Strings(f.assocIds)));
  }

  lemma FeaturePrintable(f: FeatureFields)
    ensures SummaryLine(FeatureText(f))
  {
    DefinitionPrintable(f);
    StatePrintable(f);
    ObjectPrintable(FEATURE_KEYS, FeatureValues(f));
  }

  lemma DecPrintable(n: nat)
    ensures Printable(Dec(n))
  {
    DecValue(n);
  }

  lemma FeaturesPrintable(fs: seq<FeatureFields>)
    ensures Printable(FeatureList(fs))
  {
    var texts := FeatureTexts(fs);
    forall i | 0 <= i < |texts| ensures Printable(texts[i]) {
      FeaturePrintable(fs[i]);
    }
    JoinPrintable(texts);
  }

  lemma CountsPrintable(s: SummaryFields)
    ensures AllPrintable(CountValues(s))
  {
    QuotePrintable(s.sessionId);
    DecPrintable(s.passed);
    DecPrintable(s.failed);
    DecPrintable(s.unsupported);
    DecPrintable(s.timedOut);
    DecPrintable(s.pending);
    DecPrintable(s.active);
    DecPrintable(s.pending + s.active);
  }

  lemma SummaryValuesPrintable(s: SummaryFields)
    ensures AllPrintable(SummaryValues(s))
  {
    CountsPrintable(s);
    FeaturesPrintable(s.features);
  }

  /** A summary is one line that starts with a brace. */
  lemma SummaryIsOneLine(s: SummaryFields)
    ensures SummaryLine(Summary(s))
  {
    SummaryValuesPrintable(s);
    ObjectPrintable(SUMMARY_KEYS, SummaryValues(s));
  }
}
