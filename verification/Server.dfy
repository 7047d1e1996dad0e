/**
  The mutable session and execution objects, and the routines of the server that change them.

  Each routine is given as it runs when nothing interleaves with it; its contract ties the new
  state to the worlds of module Worlds. The lemmas of module Uninterrupted say that the handler of
  the step system, run alone from its arrival to its end, reaches the same world.
 */
module Server {
  import opened Bytes
  import opened Execution
  import opened Lifecycle
  import opened Worlds
  import opened Requests
  import opened Invariant
  import opened Commas
  import opened JsonPrinter
  import opened Spelled
  import opened SummaryText
  import opened Views

  // ------------------------------------------------------------------------ objects

  class Sockets {
    var closed: seq<Fd>

    method Close(fd: Fd)
      modifies this
      ensures closed == old(closed) + [fd]
    {
      closed := closed + [fd];
    }
  }

  class Session {
    var activeFeatureId: Id

    method ClearActiveFeature(id: Id)
      modifies this
      ensures activeFeatureId == ClearedSlot(old(activeFeatureId), id)
    {
      if activeFeatureId == id {
        activeFeatureId := "";
      }
    }
  }

  class FeatureExecution {
    const id: Id
    const definition: Definition
    var state: FeatureState
    var message: Bytes
    var evidenceKind: Bytes
    var evidenceText: Bytes
    var reportText: Bytes
    var contractJson: Bytes
    var networkComplete: bool
    var agentComplete: bool
    var activeFds: seq<Fd>
    var assocIds: seq<Bytes>
    var startedAt: Time
    var deadlineAt: Time
    var finishedAt: Time

    constructor (id: Id, definition: Definition)
      ensures Value() == NOT_STARTED && this.id == id && this.definition == definition
      ensures state == Pending && message == "not started" && contractJson == "" && !networkComplete && !agentComplete
      ensures evidenceKind == evidenceText == reportText == "" && activeFds == [] && assocIds == []
      ensures startedAt == deadlineAt == finishedAt == 0
    {
      this.id, this.definition := id, definition;
      state, message := Pending, NEW;
      evidenceKind, evidenceText, reportText, contractJson := "", "", "", "";
      networkComplete, agentComplete := false, false;
      activeFds, assocIds := [], [];
      startedAt, deadlineAt, finishedAt := 0, 0, 0;
    }

    function Value(): Exec
      reads this
    {
      Exec(state, message, evidenceKind, evidenceText, reportText, contractJson, networkComplete,
           agentComplete, activeFds, assocIds, startedAt, deadlineAt, finishedAt)
    }

    method SetActiveFds(fds: seq<Fd>)
      modifies this
      ensures Value() == old(Value()).(fds := fds)
    {
      activeFds := fds;
    }

    method TakeActiveFds() returns (fds: seq<Fd>)
      modifies this
      ensures fds == old(activeFds) && Value() == old(Value()).(fds := [])
    {
      fds := activeFds;
      activeFds := [];
    }

    method EndAs(state: FeatureState, message: Bytes, now: Time)
      modifies this
      ensures Value() == old(Value()).(state := state, message := message, finishedAt := now)
    {
      this.state := state;
      this.message := message;
      finishedAt := now;
    }

    method RecordReport(r: Report)
      modifies this
      ensures Value() == old(Value()).(
        assocIds := if definition.distinctAssocs then r.assocIds else old(assocIds),
        agentComplete := true,
        evidenceKind := r.evidenceKind, evidenceText := r.evidenceText, reportText := r.reportText)
    {
      if definition.distinctAssocs {
        assocIds := r.assocIds;
      }
      agentComplete := true;
      evidenceKind := r.evidenceKind;
      evidenceText := r.evidenceText;
      reportText := r.reportText;
    }

    method Activate(now: Time)
      modifies this
      ensures Value() == ActivateSection(definition, old(Value()), now)
    {
      state := Active;
      message := if definition.mode == AgentReported then AWAITING_CLIENT else ACTIVE_TEXT;
      startedAt := now;
      deadlineAt := startedAt + definition.timeout;
    }
  }

  function Here(session: Session, e: FeatureExecution, os: Sockets): World
    reads session, e, os
  {
    World(e.Value(), session.activeFeatureId, os.closed)
  }

  // ------------------------------------------------------------- the finishing routines

  method CloseActiveFds(e: FeatureExecution, os: Sockets)
    modifies e, os
    ensures e.Value() == old(e.Value()).(fds := [])
    ensures os.closed == old(os.closed) + old(e.activeFds)
  {
    var fds := e.TakeActiveFds();
    for i := 0 to |fds|
      invariant e.Value() == old(e.Value()).(fds := [])
      invariant os.closed == old(os.closed) + fds[..i]
    {
      os.Close(fds[i]);
    }
    assert fds[..|fds|] == fds;
  }

  /** The tail of every finishing routine. */
  method Release(session: Session, e: FeatureExecution, os: Sockets)
    modifies session, e, os
    ensures Here(session, e, os) == Finish(old(Here(session, e, os)), e.id, (old(e.Value()), CloseAndClear))
  {
    CloseActiveFds(e, os);
    session.ClearActiveFeature(e.id);
  }

  method MarkFailed(session: Session, e: FeatureExecution, os: Sockets, message: Bytes, now: Time)
    modifies session, e, os
    ensures Here(session, e, os) == Finish(old(Here(session, e, os)), e.id, FailSection(old(e.Value()), message, now))
    ensures Fails(old(Here(session, e, os)), Here(session, e, os), e.id, message, now)
  {
    if e.state != Active {
      return;
    }
    e.EndAs(Failed, message, now);
    Release(session, e, os);
  }

  method MarkNetworkComplete(session: Session, e: FeatureExecution, os: Sockets, now: Time)
    modifies session, e, os
    ensures Here(session, e, os) ==
      Finish(old(Here(session, e, os)), e.id, NetworkSection(e.definition, old(e.Value()), now))
    ensures Observes(e.definition, old(Here(session, e, os)), Here(session, e, os), e.id, now)
  {
    ObservationSpelled(e.definition, Here(session, e, os), e.id, now, now);
    var finished := false;
    if e.state != Active {
      return;
    }
    e.networkComplete := true;
    if e.definition.mode == ServerObserved || e.agentComplete {
      e.EndAs(Passed, COMPLETED, now);
      finished := true;
    } else {
      e.message := OBSERVED;
    }
    CloseActiveFds(e, os);
    if finished {
      session.ClearActiveFeature(e.id);
    }
  }

  method MaybeTimeout(session: Session, e: FeatureExecution, os: Sockets, now: Time, later: Time)
    modifies session, e, os
    ensures Here(session, e, os) == Finish(old(Here(session, e, os)), e.id, TimeoutSection(old(e.Value()), now, later))
    ensures Expires(old(Here(session, e, os)), Here(session, e, os), e.id, now, later)
  {
    if e.state != Active || now < e.deadlineAt {
      return;
    }
    e.EndAs(TimedOut, OVERDUE, later);
    Release(session, e, os);
  }

  method RecordCompletion(session: Session, e: FeatureExecution, os: Sockets, r: Report, now: Time)
    returns (response: Response)
    modifies session, e, os
    ensures Here(session, e, os) ==
      Finish(old(Here(session, e, os)), e.id, CompleteSection(e.definition, old(e.Value()), r, now))
    ensures response == CompleteResponse(e.definition, old(e.Value()), r)
    ensures Reports(e.definition, old(Here(session, e, os)), Here(session, e, os), e.id, r, now, response)
  {
    ReportSpelled(e.definition, Here(session, e, os), e.id, r, now);
    if e.state != Active {
      return Answer(409, "feature is not active");
    }
    if e.definition.mode == ServerObserved {
      return Answer(409, "feature does not accept client completion reports");
    }
    if e.definition.distinctAssocs {
      if |r.assocIds| != 2 {
        return Answer(400, "assoc_ids must include exactly two distinct association ids");
      }
      if !DistinctAssocs(r.assocIds) {
        return Answer(400, "assoc_ids must include two distinct non-zero association ids");
      }
    }
    e.RecordReport(r);
    if e.definition.mode == AgentReported || e.networkComplete {
      e.EndAs(Passed, COMPLETED, now);
      Release(session, e, os);
    } else {
      e.message := AWAITING_SERVER;
    }
    return ANSWERED;
  }

  method CompleteFeature(session: Session, e: FeatureExecution, os: Sockets, body: Bytes, now: Time)
    returns (response: Response)
    modifies session, e, os
    ensures var w := TimedWorld(old(Here(session, e, os)), e.id, now);
      && Here(session, e, os) == CompletedWorld(e.definition, w, e.id, BodyOf(CompletionReading(body)), now)
      && response == match CompletionReading(body)
                     case Refused(error) => Answer(400, error)
                     case Accepted(report) => CompleteResponse(e.definition, w.exec, report)
    ensures var w := TimedWorld(old(Here(session, e, os)), e.id, now);
      && Expires(old(Here(session, e, os)), w, e.id, now, now)
      && match CompletionReading(body)
         case Refused(error) => Here(session, e, os) == w && response == Answer(400, error)
         case Accepted(report) => Reports(e.definition, w, Here(session, e, os), e.id, report, now, response)
  {
    DeadlineSpelled(e.definition, Here(session, e, os), e.id, ThenDone, now, now);
    MaybeTimeout(session, e, os, now, now);
    var reading := ReadCompletion(body);
    if reading.Refused? {
      return Answer(400, reading.error);
    }
    response := RecordCompletion(session, e, os, reading.report, now);
  }

  method RecordUnsupported(session: Session, e: FeatureExecution, os: Sockets, r: Report, now: Time)
    returns (response: Response)
    modifies session, e, os
    ensures Here(session, e, os) ==
      Finish(old(Here(session, e, os)), e.id, UnsupportedSection(old(e.Value()), r, now))
    ensures response == UnsupportedResponse(old(e.Value()))
    ensures Withdraws(old(Here(session, e, os)), Here(session, e, os), e.id, r, now, response)
  {
    WithdrawalSpelled(Here(session, e, os), e.id, r, now);
    if e.state == Passed {
      return Answer(409, "feature already passed and cannot be marked unsupported");
    }
    if e.state != Pending && e.state != Active {
      return Answer(409, "feature is already in a terminal state");
    }
    e.EndAs(Unsupported, r.reason, now);
    e.evidenceKind := r.evidenceKind;
    e.evidenceText := r.evidenceText;
    Release(session, e, os);
    return ANSWERED;
  }

  method UnsupportedFeature(session: Session, e: FeatureExecution, os: Sockets, body: Bytes, now: Time)
    returns (response: Response)
    modifies session, e, os
    ensures var w := TimedWorld(old(Here(session, e, os)), e.id, now);
      && Here(session, e, os) == UnsupportedWorld(w, e.id, BodyOf(UnsupportedReading(body)), now)
      && response == match UnsupportedReading(body)
                     case Refused(error) => Answer(400, error)
                     case Accepted(report) => UnsupportedResponse(w.exec)
    ensures var w := TimedWorld(old(Here(session, e, os)), e.id, now);
      && Expires(old(Here(session, e, os)), w, e.id, now, now)
      && match UnsupportedReading(body)
         case Refused(error) => Here(session, e, os) == w && response == Answer(400, error)
         case Accepted(report) => Withdraws(w, Here(session, e, os), e.id, report, now, response)
  {
    DeadlineSpelled(e.definition, Here(session, e, os), e.id, ThenDone, now, now);
    MaybeTimeout(session, e, os, now, now);
    var reading := ReadUnsupported(body);
    if reading.Refused? {
      return Answer(400, reading.error);
    }
    response := RecordUnsupported(session, e, os, reading.report, now);
  }

  // --------------------------------------------------------------------------- starting

  method OpenListeners(os: Sockets, count: nat, grants: seq<Fd>) returns (ok: bool, fds: seq<Fd>)
    modifies os
    ensures ok <==> count <= |grants|
    ensures ok ==> fds == grants[..count] && os.closed == old(os.closed)
    ensures !ok ==> os.closed == old(os.closed) + grants
  {
    fds := [];
    for i := 0 to count
      invariant i <= |grants| && fds == grants[..i] && os.closed == old(os.closed)
    {
      if i >= |grants| {
        for k := 0 to |fds|
          invariant os.closed == old(os.closed) + fds[..k]
        {
          os.Close(fds[k]);
        }
        assert fds[..|fds|] == grants;
        return false, [];
      }
      fds := fds + [grants[i]];
    }
    ok := true;
  }

  /** `error` is what create_listening_socket says when it fails. */
  method StartFeature(session: Session, e: FeatureExecution, os: Sockets, grants: seq<Fd>, error: string,
                      contract: Bytes, now: Time)
    returns (response: Response)
    modifies session, e, os
    ensures var w := TimedWorld(old(Here(session, e, os)), e.id, now);
      && Here(session, e, os) == Started(e.definition, w, e.id, grants, contract, now)
      && response == StartResponse(e.definition, w, grants, error)
      && Expires(old(Here(session, e, os)), w, e.id, now, now)
      && Starts(e.definition, w, Here(session, e, os), e.id, grants, error, contract, now, response)
  {
    DeadlineSpelled(e.definition, Here(session, e, os), e.id, ThenDone, now, now);
    MaybeTimeout(session, e, os, now, now);
    StartSpelled(e.definition, Here(session, e, os), e.id, grants, error, contract, now);
    if session.activeFeatureId != "" {
      return Answer(409, "another feature is already active in this session");
    }
    if e.state != Pending {
      return Answer(409, "feature has already been started in this session");
    }
    if e.definition.kind == ReceiveMessagesMultiTarget && e.definition.targets == 0 {
      return Answer(409, "one-to-many feature is missing expected associations");
    }
    var ok, fds := OpenListeners(os, SocketCount(e.definition), grants);
    if !ok {
      return Answer(409, error);
    }
    BeginFeature(session, e, fds, contract, now);
    return ANSWERED;
  }

  /** The writes of a start that nothing refuses any more. */
  method BeginFeature(session: Session, e: FeatureExecution, fds: seq<Fd>, contract: Bytes, now: Time)
    modifies session, e
    ensures e.Value() == Begun(e.definition, old(e.Value()), fds, contract, now) && session.activeFeatureId == e.id
  {
    e.Activate(now);
    if e.definition.kind != AgentOnly {
      e.SetActiveFds(fds);
    }
    session.activeFeatureId := e.id;
    e.contractJson := contract;
    e.message := if e.state == Active && e.message == ACTIVE_TEXT && e.definition.mode == AgentReported
      then AWAITING_CLIENT else e.message;
  }

  // --------------------------------------------------------------------------- the summary

  function Values(es: seq<FeatureExecution>): (r: seq<Exec>)
    reads es
    ensures |r| == |es| && forall i :: 0 <= i < |r| ==> r[i] == es[i].Value()
  {
    seq(|es|, i requires 0 <= i < |es| reads es => es[i].Value())
  }

  function Ids(es: seq<FeatureExecution>): (r: seq<Id>)
    ensures |r| == |es| && forall i :: 0 <= i < |r| ==> r[i] == es[i].id
  {
    seq(|es|, i requires 0 <= i < |es| => es[i].id)
  }

  /** The rows of a summary over executions with these values. */
  function RowsFor(ids: seq<Id>, values: seq<Exec>): (r: seq<Row>)
    requires |ids| == |values|
    ensures |r| == |ids| && forall i :: 0 <= i < |r| ==> r[i] == Row(ids[i], View(values[i]))
  {
    seq(|ids|, i requires 0 <= i < |ids| => Row(ids[i], View(values[i])))
  }

  /** What the timeout checks of a summary do to slot and log, feature after feature. */
  function Swept(slot: Id, closed: seq<Fd>, ids: seq<Id>, values: seq<Exec>, now: Time): (Id, seq<Fd>)
    requires |ids| == |values|
  {
    if ids == [] then (slot, closed)
    else
      var n := |ids| - 1;
      var (slot', closed') := Swept(slot, closed, ids[..n], values[..n], now);
      var w := TimedWorld(World(values[n], slot', closed'), ids[n], now);
      (w.slot, w.closed)
  }

  /** What a timeout check leaves of an execution, whatever slot and log are. */
  function Timed(e: Exec, now: Time): Exec {
    TimedWorld(World(e, "", []), "", now).exec
  }

  method CountState(k: Counts, state: FeatureState) returns (k': Counts)
    ensures k' == CountIn(k, state)
  {
    match state
    case Passed => k' := k.(passed := k.passed + 1);
    case Failed => k' := k.(failed := k.failed + 1);
    case Unsupported => k' := k.(unsupported := k.unsupported + 1);
    case TimedOut => k' := k.(timedOut := k.timedOut + 1);
    case Pending => k' := k.(pending := k.pending + 1);
    case Active => k' := k.(active := k.active + 1);
  }

  function Shown(show: Row -> Bytes, rows: seq<Row>): (r: seq<Bytes>)
    ensures |r| == |rows| && forall i :: 0 <= i < |r| ==> r[i] == show(rows[i])
  {
    seq(|rows|, i requires 0 <= i < |rows| => show(rows[i]))
  }

  /** Counts and list of the rows read so far. */
  ghost predicate Printed(show: Row -> Bytes, rows: seq<Row>, counts: Counts, features: Bytes) {
    counts == Tally(rows) && features == ['['] + Join(Shown(show, rows))
  }

  lemma NothingPrinted(show: Row -> Bytes)
    ensures Printed(show, [], NO_COUNTS, ['['])
  {
    assert Shown(show, []) == [];
  }

  /** The finished list. */
  ghost predicate Listed(show: Row -> Bytes, rows: seq<Row>, counts: Counts, list: Bytes) {
    counts == Tally(rows) && list == ['['] + Join(Shown(show, rows)) + [']']
  }

  method FinishList(show: Row -> Bytes, ghost rows: seq<Row>, counts: Counts, features: Bytes) returns (list: Bytes)
    requires Printed(show, rows, counts, features)
    ensures Listed(show, rows, counts, list)
  {
    list := features + [']'];
  }

  /** One turn of the loop, after the timeout check. */
  method PrintRow(show: Row -> Bytes, row: Row, counts: Counts, features: Bytes, ghost rows: seq<Row>, i: nat)
    returns (counts': Counts, features': Bytes)
    requires Printed(show, rows, counts, features) && i == |rows|
    ensures Printed(show, rows + [row], counts', features')
  {
    assert (rows + [row])[..|rows|] == rows;
    assert Shown(show, rows + [row]) == Shown(show, rows) + [show(row)];
    counts' := CountState(counts, row.view.state);
    features' := AppendPart(features, '[', Shown(show, rows), i, show(row));
  }

  function TimedAll(values: seq<Exec>, now: Time): (r: seq<Exec>)
    ensures |r| == |values| && forall i :: 0 <= i < |r| ==> r[i] == Timed(values[i], now)
  {
    seq(|values|, i requires 0 <= i < |values| => Timed(values[i], now))
  }

  /** The first i features are checked, the others untouched. */
  function Mixed(values: seq<Exec>, i: nat, now: Time): (r: seq<Exec>)
    requires i <= |values|
    ensures |r| == |values|
  {
    TimedAll(values[..i], now) + values[i..]
  }

  lemma SweptNext(slot: Id, closed: seq<Fd>, ids: seq<Id>, values: seq<Exec>, i: nat, now: Time)
    requires i < |ids| == |values|
    ensures var (slot', closed') := Swept(slot, closed, ids[..i], values[..i], now);
      var w := TimedWorld(World(values[i], slot', closed'), ids[i], now);
      Swept(slot, closed, ids[..i + 1], values[..i + 1], now) == (w.slot, w.closed)
  {
    assert ids[..i + 1][..i] == ids[..i] && values[..i + 1][..i] == values[..i];
  }

  /** One more feature is checked. */
  method SweepOne(session: Session, es: seq<FeatureExecution>, os: Sockets, ghost values: seq<Exec>, i: nat,
                  ghost slot: Id, ghost closed: seq<Fd>, now: Time)
    requires i < |es| == |values| && Values(es) == Mixed(values, i, now)
    requires forall j, k :: 0 <= j < k < |es| ==> es[j] != es[k]
    requires (session.activeFeatureId, os.closed) == Swept(slot, closed, Ids(es)[..i], values[..i], now)
    modifies session, es[i], os
    ensures Values(es) == Mixed(values, i + 1, now) && es[i].Value() == Timed(values[i], now)
    ensures (session.activeFeatureId, os.closed) == Swept(slot, closed, Ids(es)[..i + 1], values[..i + 1], now)
  {
    assert Values(es)[i] == values[i];
    ghost var before := Values(es);
    MaybeTimeout(session, es[i], os, now, now);
    SweptNext(slot, closed, Ids(es), values, i, now);
    assert Values(es) == before[i := Timed(values[i], now)];
    MixedNext(values, i, now);
  }

  lemma MixedNext(values: seq<Exec>, i: nat, now: Time)
    requires i < |values|
    ensures Mixed(values, i + 1, now) == Mixed(values, i, now)[i := Timed(values[i], now)]
  {
  }

  lemma RowsNext(ids: seq<Id>, values: seq<Exec>, i: nat, now: Time)
    requires i < |ids| == |values|
    ensures RowsFor(ids[..i + 1], TimedAll(values[..i + 1], now)) ==
            RowsFor(ids[..i], TimedAll(values[..i], now)) + [Row(ids[i], View(Timed(values[i], now)))]
  {
  }

  lemma AllMixed(values: seq<Exec>, now: Time)
    ensures Mixed(values, 0, now) == values && Mixed(values, |values|, now) == TimedAll(values, now)
    ensures values[..|values|] == values
  {
  }

  /** The state of the loop before feature i. */
  ghost predicate Looped(session: Session, es: seq<FeatureExecution>, os: Sockets, values: seq<Exec>, i: nat,
                         slot: Id, closed: seq<Fd>, now: Time)
    requires i <= |es| == |values|
    reads session, es, os
  {
    && Values(es) == Mixed(values, i, now)
    && (session.activeFeatureId, os.closed) == Swept(slot, closed, Ids(es)[..i], values[..i], now)
  }

  function RowsTo(ids: seq<Id>, values: seq<Exec>, i: nat, now: Time): seq<Row>
    requires i <= |ids| == |values|
  {
    RowsFor(ids[..i], TimedAll(values[..i], now))
  }

  /** One turn: the timeout check, the count and the text of one feature. `show` prints a feature. */
  method SummaryTurn(session: Session, es: seq<FeatureExecution>, os: Sockets, show: Row -> Bytes,
                     counts: Counts, features: Bytes, ghost values: seq<Exec>, i: nat,
                     ghost slot: Id, ghost closed: seq<Fd>, now: Time)
    returns (counts': Counts, features': Bytes)
    requires i < |es| == |values| && Looped(session, es, os, values, i, slot, closed, now)
    requires forall j, k :: 0 <= j < k < |es| ==> es[j] != es[k]
    requires Printed(show, RowsTo(Ids(es), values, i, now), counts, features)
    modifies session, es[i], os
    ensures Looped(session, es, os, values, i + 1, slot, closed, now)
    ensures Printed(show, RowsTo(Ids(es), values, i + 1, now), counts', features')
  {
    SweepOne(session, es, os, values, i, slot, closed, now);
    RowsNext(Ids(es), values, i, now);
    var row := Row(es[i].id, View(es[i].Value()));
    counts', features' := PrintRow(show, row, counts, features, RowsTo(Ids(es), values, i, now), i);
  }

  lemma RowsEnds(ids: seq<Id>, values: seq<Exec>, now: Time)
    requires |ids| == |values|
    ensures ids[..|ids|] == ids && RowsTo(ids, values, 0, now) == []
    ensures RowsTo(ids, values, |ids|, now) == RowsFor(ids, TimedAll(values, now))
  {
    assert values[..|values|] == values;
  }

  method SummaryLoop(session: Session, es: seq<FeatureExecution>, os: Sockets, show: Row -> Bytes, now: Time)
    returns (counts: Counts, list: Bytes)
    requires forall i, j :: 0 <= i < j < |es| ==> es[i] != es[j]
    modifies session, es, os
    ensures Values(es) == TimedAll(old(Values(es)), now)
    ensures (session.activeFeatureId, os.closed) ==
              Swept(old(session.activeFeatureId), old(os.closed), Ids(es), old(Values(es)), now)
    ensures Listed(show, RowsFor(Ids(es), Values(es)), counts, list)
  {
    counts := NO_COUNTS;
    var features: Bytes := ['['];
    NothingPrinted(show);
    ghost var values, slot, closed := Values(es), session.activeFeatureId, os.closed;
    AllMixed(values, now);
    RowsEnds(Ids(es), values, now);
    for i := 0 to |es|
      invariant Looped(session, es, os, values, i, slot, closed, now)
      invariant Printed(show, RowsTo(Ids(es), values, i, now), counts, features)
    {
      counts, features := SummaryTurn(session, es, os, show, counts, features, values, i, slot, closed, now);
    }
    list := FinishList(show, RowsTo(Ids(es), values, |es|, now), counts, features);
  }

  function Showing(p: Printer): Row -> Bytes {
    row => FeatureText(FieldsOf(p, row))
  }

  lemma ShownFeatures(p: Printer, rows: seq<Row>)
    ensures Shown(Showing(p), rows) == FeatureTexts(AllFields(p, rows))
  {
  }

  lemma PrintedWhole(p: Printer, rows: seq<Row>, counts: Counts, list: Bytes)
    requires Listed(Showing(p), rows, counts, list)
    ensures SummaryWith(SummaryOf(p, [], counts), list) == SummaryBytes(p, rows, Tally(rows))
  {
    ShownFeatures(p, rows);
    SameCounts(SummaryOf(p, [], counts), AllFields(p, rows), list);
  }

  method SummaryJson(session: Session, es: seq<FeatureExecution>, os: Sockets, p: Printer, now: Time)
    returns (out: Bytes)
    requires forall i, j :: 0 <= i < j < |es| ==> es[i] != es[j]
    modifies session, es, os
    ensures Values(es) == TimedAll(old(Values(es)), now)
    ensures (session.activeFeatureId, os.closed) ==
              Swept(old(session.activeFeatureId), old(os.closed), Ids(es), old(Values(es)), now)
    ensures var rows := RowsFor(Ids(es), Values(es));
      out == SummaryBytes(p, rows, Tally(rows))
    ensures out == SummaryLetters(p, Ids(es), Values(es))
  {
    var counts, list := SummaryLoop(session, es, os, Showing(p), now);
    PrintedWhole(p, RowsFor(Ids(es), Values(es)), counts, list);
    SummarySpelled(p, RowsFor(Ids(es), Values(es)), Ids(es), Values(es));
    out := SummaryWith(SummaryOf(p, [], counts), list);
  }
}
