/**
  From the rows a summary thread has read to the bytes it returns, and from there to the event
  stream: once a summary has reported completion, the stream has nothing new to say.
 */
module Views {
  import opened Bytes
  import opened Execution
  import opened Lifecycle
  import opened Guards
  import opened Summaries
  import opened JsonGrammar
  import opened JsonPrinter
  import opened Requests
  import opened Sse
  import opened SummaryText
  import opened Readability

  // ------------------------------------------------------------------------ printing a row

  /** What the catalog says about a feature and no request changes. */
  datatype Entry = Entry(
    id: Bytes, title: Bytes, category: Bytes, mode: CompletionMode,
    manualSetup: bool, setup: seq<Bytes>, rfcs: seq<RfcReference>)

  /** The rest of what a summary is printed from: the session's number, the catalog, the format of times. */
  datatype Printer = Printer(sessionId: Bytes, iso: Time -> Bytes, entry: Id -> Entry)

  function StateText(state: FeatureState): Bytes {
    match state
    case Pending => "pending"
    case Active => "active"
    case Passed => "passed"
    case Failed => "failed"
    case Unsupported => "unsupported"
    case TimedOut => "timed_out"
  }

  function ModeText(mode: CompletionMode): Bytes {
    match mode
    case ServerObserved => "server_observed"
    case AgentReported => "agent_reported"
    case Hybrid => "hybrid"
  }

  function FieldsOf(p: Printer, row: Row): FeatureFields {
    var e, v := p.entry(row.feature), row.view;
    FeatureFields(
      e.id, e.title, e.category, ModeText(e.mode), e.manualSetup, e.setup, e.rfcs,
      StateText(v.state), v.message, p.iso(v.startedAt), p.iso(v.deadlineAt), p.iso(v.finishedAt),
      v.evidenceKind, v.evidenceText, v.reportText, v.assocIds)
  }

  function AllFields(p: Printer, rows: seq<Row>): (r: seq<FeatureFields>)
    ensures |r| == |rows| && forall i :: 0 <= i < |r| ==> r[i] == FieldsOf(p, rows[i])
  {
    seq(|rows|, i requires 0 <= i < |rows| => FieldsOf(p, rows[i]))
  }

  function SummaryOf(p: Printer, rows: seq<Row>, k: Counts): SummaryFields {
    SummaryFields(p.sessionId, k.passed, k.failed, k.unsupported, k.timedOut, k.pending, k.active, AllFields(p, rows))
  }

  function SummaryBytes(p: Printer, rows: seq<Row>, k: Counts): Bytes {
    SummaryText.Summary(SummaryOf(p, rows, k))
  }

  // ------------------------------------------------------------------------ what has to be UTF-8

  /** The server's own texts are UTF-8. */
  ghost predicate Sound(p: Printer) {
    && Decodes(p.sessionId) && (forall t: Time :: Decodes(p.iso(t)))
    && forall f: Id :: EntryDecodes(p.entry(f))
  }

  ghost predicate EntryDecodes(e: Entry) {
    Decodes(e.id) && Decodes(e.title) && Decodes(e.category) && AllDecode(e.setup) && RfcsDecode(e.rfcs)
  }

  /** The strings of a row that come from clients, or from a worker's verdict. */
  ghost predicate RowDecodes(v: Visible) {
    && Decodes(v.message) && Decodes(v.evidenceKind) && Decodes(v.evidenceText) && Decodes(v.reportText)
    && AllDecode(v.assocIds)
  }

  lemma StateTextDecodes(state: FeatureState)
    ensures Decodes(StateText(state))
  {
    AsciiDecodes(StateText(state));
  }

  lemma ModeTextDecodes(mode: CompletionMode)
    ensures Decodes(ModeText(mode))
  {
    AsciiDecodes(ModeText(mode));
  }

  lemma FieldsDecode(p: Printer, row: Row)
    requires Sound(p)
    ensures DefinitionDecodes(FieldsOf(p, row)) && (StateDecodes(FieldsOf(p, row)) <==> RowDecodes(row.view))
  {
    StateTextDecodes(row.view.state);
    ModeTextDecodes(p.entry(row.feature).mode);
    assert EntryDecodes(p.entry(row.feature));
  }

  /** A returned summary is UTF-8 if and only if the messages, the evidence, the report texts and the
      association numbers it shows are. */
  lemma SummaryLegibleIff(p: Printer, rows: seq<Row>, k: Counts)
    requires Sound(p)
    ensures Decodes(SummaryBytes(p, rows, k)) <==> forall i :: 0 <= i < |rows| ==> RowDecodes(rows[i].view)
  {
    SummaryDecodes(SummaryOf(p, rows, k));
    var fs := AllFields(p, rows);
    forall i | 0 <= i < |rows|
      ensures DefinitionDecodes(fs[i]) && (StateDecodes(fs[i]) <==> RowDecodes(rows[i].view))
    {
      FieldsDecode(p, rows[i]);
    }
  }

  /** A single byte that no UTF-8 text contains, reported by a client as text, is in no summary a reader
      can decode. */
  lemma BadReportText(p: Printer, rows: seq<Row>, k: Counts, i: nat)
    requires Sound(p) && i < |rows| && rows[i].view.reportText == [0xFF as char]
    ensures !Decodes(SummaryBytes(p, rows, k))
  {
    SummaryLegibleIff(p, rows, k);
    BadByte();
  }

  lemma BadByte()
    ensures !Decodes([0xFF as char])
  {
  }

  /** And such a report is accepted: the parser takes any byte that is not a quote or a backslash as it is. */
  lemma BadReportIsRead()
    ensures exists body :: CompletionReading(body).Accepted? &&
                           CompletionReading(body).report.reportText == [0xFF as char]
  {
    var r := Report("", "", "", [0xFF as char], []);
    ReportArrives([], r);
    assert CompletionReading(Render(Obj([] + ReportMembers(r)))).report == r;
  }

  // ------------------------------------------------------------------------ the stream of a run

  /** One turn of a stream: the summary thread that ran, and the state in which it had returned. */
  datatype Turn = Turn(at: nat, thread: Tid)

  ghost predicate Returned(states: seq<State>, turn: Turn) {
    && turn.at < |states| && turn.thread in states[turn.at].threads
    && states[turn.at].threads[turn.thread].pc.SummaryDone?
  }

  function ReturnedPc(states: seq<State>, turn: Turn): Pc
    requires Returned(states, turn)
  {
    states[turn.at].threads[turn.thread].pc
  }

  /** A stream of a run: each turn begins its summary after the one before it has returned, and what is sent
      is the text of the rows and counts it returns. */
  ghost predicate Streams(p: Printer, states: seq<State>, turns: seq<Turn>, polls: seq<Poll>) {
    && |turns| == |polls|
    && (forall m :: 0 <= m < |turns| ==> Returned(states, turns[m]))
    && (forall m {:trigger polls[m]} :: 0 <= m < |turns| ==>
          var pc := ReturnedPc(states, turns[m]);
          polls[m].summary == SummaryBytes(p, pc.rows, pc.counts))
    && (forall m, n :: 0 <= m < n < |turns| ==>
          turns[m].at <= turns[n].at && turns[n].thread !in states[turns[m].at].threads)
  }

  /** Every later turn of the stream sends the bytes of the first complete summary. */
  lemma LaterTurnsPrintAlike(c: Catalog, p: Printer, states: seq<State>, actions: seq<Action>,
                             turns: seq<Turn>, polls: seq<Poll>, k: nat, m: nat)
    requires ValidCatalog(c) && ValidRun(c, states, actions) && Streams(p, states, turns, polls)
    requires forall i :: 0 <= i < |actions| ==> !ActivatesEnded(states[i], actions[i])
    requires k < m < |turns| && Complete(ReturnedPc(states, turns[k]).counts)
    ensures polls[m].summary == polls[k].summary
  {
    CompletionIsPermanent(c, states, actions, turns[k].at, turns[k].thread, turns[m].at, turns[m].thread);
    assert polls[m].summary == SummaryBytes(p, ReturnedPc(states, turns[m]).rows, ReturnedPc(states, turns[m]).counts);
    assert polls[k].summary == SummaryBytes(p, ReturnedPc(states, turns[k]).rows, ReturnedPc(states, turns[k]).counts);
  }

  lemma {:induction false} DistinctTail(xs: seq<Bytes>, k: nat)
    requires k < |xs| && forall m :: k < m < |xs| ==> xs[m] == xs[k]
    ensures Distinct(xs) == Distinct(xs[..k + 1])
  {
    if k > 0 {
      DistinctTail(xs[1..], k - 1);
      assert xs[..k + 1][1..] == xs[1..][..k];
    } else if |xs| > 1 {
      DistinctTail(xs[1..], 0);
      assert xs[1..][..1] == xs[..1];
    } else {
      assert xs[..1] == xs;
    }
  }

  /** Turns that repeat the text of turn k add no event. */
  lemma RepeatsAddNothing(polls: seq<Poll>, k: nat)
    requires forall i :: 0 <= i < |polls| ==> SummaryLine(polls[i].summary)
    requires k < |polls| && forall m :: k < m < |polls| ==> polls[m].summary == polls[k].summary
    ensures Events(StreamBytes(polls), START) == Events(StreamBytes(polls[..k + 1]), START)
  {
    DistinctTail(Texts(polls), k);
    assert Texts(polls[..k + 1]) == Texts(polls)[..k + 1];
    SummariesDelivered(polls);
    SummariesDelivered(polls[..k + 1]);
  }

  lemma TurnIsOneLine(p: Printer, states: seq<State>, turns: seq<Turn>, polls: seq<Poll>, m: nat)
    requires Streams(p, states, turns, polls) && m < |polls|
    ensures SummaryLine(polls[m].summary)
  {
    var pc := ReturnedPc(states, turns[m]);
    SummaryIsOneLine(SummaryOf(p, pc.rows, pc.counts));
    assert polls[m].summary == SummaryBytes(p, pc.rows, pc.counts);
  }

  /** The stream falls silent: after the first complete summary only keep-alives follow, so that the client has
      all its events then. */
  lemma CompletionEndsEvents(c: Catalog, p: Printer, states: seq<State>, actions: seq<Action>,
                             turns: seq<Turn>, polls: seq<Poll>, k: nat)
    requires ValidCatalog(c) && ValidRun(c, states, actions) && Streams(p, states, turns, polls)
    requires forall i :: 0 <= i < |actions| ==> !ActivatesEnded(states[i], actions[i])
    requires k < |turns| && Complete(ReturnedPc(states, turns[k]).counts)
    ensures Events(StreamBytes(polls), START) == Events(StreamBytes(polls[..k + 1]), START)
  {
    forall m | k < m < |polls| ensures polls[m].summary == polls[k].summary {
      LaterTurnsPrintAlike(c, p, states, actions, turns, polls, k, m);
    }
    forall m | 0 <= m < |polls| ensures SummaryLine(polls[m].summary) {
      TurnIsOneLine(p, states, turns, polls, m);
    }
    RepeatsAddNothing(polls, k);
  }
}
