/**
  What a whole routine does to what it can see: its execution, the slot of the session and the log
  of close() calls.
 */
module Worlds {
  import opened Bytes
  import opened Execution
  import opened Lifecycle

  /** What one routine can see and change: its execution, the slot of the session, the log of close() calls. */
  datatype World = World(exec: Exec, slot: Id, closed: seq<Fd>)

  function ClearedSlot(slot: Id, id: Id): Id {
    if slot == id then "" else slot
  }

  /** A section followed by the tail it leaves behind. */
  function Finish(w: World, id: Id, outcome: (Exec, Tail)): World {
    match outcome.1
    case NoTail => w.(exec := outcome.0)
    case CloseOnly => w.(exec := outcome.0.(fds := []), closed := w.closed + outcome.0.fds)
    case CloseAndClear =>
      World(outcome.0.(fds := []), ClearedSlot(w.slot, id), w.closed + outcome.0.fds)
  }

  /** The timeout check in front of every handler, the clock read once. */
  function TimedWorld(w: World, id: Id, now: Time): World {
    Finish(w, id, TimeoutSection(w.exec, now, now))
  }

  /** A report after its timeout check; a malformed body changes nothing more. */
  function CompletedWorld(def: Definition, w: World, id: Id, body: Body, now: Time): World {
    if body.Malformed? then w else Finish(w, id, CompleteSection(def, w.exec, body.report, now))
  }

  function UnsupportedWorld(w: World, id: Id, body: Body, now: Time): World {
    if body.Malformed? then w else Finish(w, id, UnsupportedSection(w.exec, body.report, now))
  }

  // ------------------------------------------------------------------------ answers

  datatype Response = Answer(status: nat, error: string)

  const ANSWERED := Answer(200, "")

  function CompleteResponse(def: Definition, e: Exec, r: Report): Response {
    if e.state != Active then Answer(409, "feature is not active")
    else if def.mode == ServerObserved then Answer(409, "feature does not accept client completion reports")
    else if def.distinctAssocs && |r.assocIds| != 2 then
      Answer(400, "assoc_ids must include exactly two distinct association ids")
    else if def.distinctAssocs && !DistinctAssocs(r.assocIds) then
      Answer(400, "assoc_ids must include two distinct non-zero association ids")
    else ANSWERED
  }

  function UnsupportedResponse(e: Exec): Response {
    if e.state == Passed then Answer(409, "feature already passed and cannot be marked unsupported")
    else if Terminal(e.state) then Answer(409, "feature is already in a terminal state")
    else ANSWERED
  }

  // ------------------------------------------------------------------------ starting

  /** The refusals of a start before any socket is opened. */
  function StartRefusal(def: Definition, w: World): Response {
    if w.slot != "" then Answer(409, "another feature is already active in this session")
    else if w.exec.state != Pending then Answer(409, "feature has already been started in this session")
    else if def.kind == ReceiveMessagesMultiTarget && def.targets == 0 then
      Answer(409, "one-to-many feature is missing expected associations")
    else ANSWERED
  }

  /**
    A whole start after its timeout check. `grants` are the sockets the system would hand out:
    creating the k-th listener succeeds exactly when k < |grants|.
   */
  function Started(def: Definition, w: World, id: Id, grants: seq<Fd>, contract: Bytes, now: Time): World {
    if StartRefusal(def, w) != ANSWERED then w
    else if |grants| < SocketCount(def) then w.(closed := w.closed + grants)
    else
      World(Begun(def, w.exec, grants[..SocketCount(def)], contract, now), id, w.closed)
  }

  function StartResponse(def: Definition, w: World, grants: seq<Fd>, error: string): Response {
    if StartRefusal(def, w) != ANSWERED then StartRefusal(def, w)
    else if |grants| < SocketCount(def) then Answer(409, error)
    else ANSWERED
  }

  function Begun(def: Definition, e: Exec, fds: seq<Fd>, contract: Bytes, now: Time): Exec {
    StartedMessageSection(def, ActivateSection(def, e, now).(
      fds := if def.kind == AgentOnly then e.fds else fds,
      contract := contract))
  }

  // ------------------------------------------------------------------------ effects, spelled out

  /** The feature has ended with record e: its sockets are closed, in order, it holds none, and the slot is empty
      if it named the feature. */
  predicate Ends(w: World, w': World, id: Id, e: Exec) {
    w' == World(e.(fds := []), if w.slot == id then "" else w.slot, w.closed + w.exec.fds)
  }

  /** The feature has begun with sockets fds, and the slot names it. */
  predicate Begins(def: Definition, w: World, w': World, id: Id, fds: seq<Fd>, contract: Bytes, now: Time) {
    w' == World(
      w.exec.(state := Active,
              message := if def.mode == AgentReported then "waiting for client completion report"
                         else "scenario active",
              startedAt := now, deadlineAt := now + def.timeout, fds := fds, contract := contract),
      id, w.closed)
  }

  /** A failing worker ends an active feature with its message, and does nothing to another one. */
  predicate Fails(w: World, w': World, id: Id, message: Bytes, now: Time) {
    if w.exec.state == Active then Ends(w, w', id, w.exec.(state := Failed, message := message, finishedAt := now))
    else w' == w
  }

  /** The network's report on an active feature is recorded; it ends the feature when the server alone decides or the
      client has reported, and else closes the sockets and leaves the slot alone. */
  predicate Observes(def: Definition, w: World, w': World, id: Id, now: Time) {
    if w.exec.state != Active then w' == w
    else if def.mode == ServerObserved || w.exec.agentComplete then
      Ends(w, w', id, w.exec.(networkComplete := true, state := Passed, message := "scenario completed successfully",
                              finishedAt := now))
    else
      w' == World(w.exec.(networkComplete := true, fds := [],
                          message := "server observed SCTP behavior; " + "waiting for client completion report"),
                  w.slot, w.closed + w.exec.fds)
  }

  /** A timeout check ends an active feature from its deadline on. */
  predicate Expires(w: World, w': World, id: Id, now: Time, later: Time) {
    if w.exec.state == Active && w.exec.deadlineAt <= now then
      Ends(w, w', id, w.exec.(state := TimedOut, message := "scenario timed out", finishedAt := later))
    else w' == w
  }

  /** Two association numbers, neither of them empty or zero, and not the same. */
  predicate TwoAssocs(ids: seq<Bytes>) {
    |ids| == 2 && ids[0] != ids[1] && forall i :: 0 <= i < 2 ==> ids[i] != "" && ids[i] != "0"
  }

  /** The record with what an accepted report says. */
  function Noted(def: Definition, e: Exec, r: Report): Exec {
    Exec(e.state, e.message, r.evidenceKind, r.evidenceText, r.reportText, e.contract, e.networkComplete, true,
         e.fds, if def.distinctAssocs then r.assocIds else e.assocIds, e.startedAt, e.deadlineAt, e.finishedAt)
  }

  /** A client report and its answer: three refusals that change nothing, the end of the feature, or the wait for
      the network. */
  predicate Reports(def: Definition, w: World, w': World, id: Id, r: Report, now: Time, response: Response) {
    if w.exec.state != Active then w' == w && response == Answer(409, "feature is not active")
    else if def.mode == ServerObserved then
      w' == w && response == Answer(409, "feature does not accept client completion reports")
    else if def.distinctAssocs && |r.assocIds| != 2 then
      w' == w && response == Answer(400, "assoc_ids must include exactly two distinct association ids")
    else if def.distinctAssocs && !TwoAssocs(r.assocIds) then
      w' == w && response == Answer(400, "assoc_ids must include two distinct non-zero association ids")
    else
      && response == Answer(200, "")
      && if def.mode == AgentReported || w.exec.networkComplete then
           Ends(w, w', id, Noted(def, w.exec, r).(state := Passed, message := "scenario completed successfully",
                                                  finishedAt := now))
         else w' == w.(exec := Noted(def, w.exec, r).(message := "waiting for server-side SCTP observation"))
  }

  /** An unsupported request and its answer: it ends a feature that is pending or active. */
  predicate Withdraws(w: World, w': World, id: Id, r: Report, now: Time, response: Response) {
    if w.exec.state == Passed then
      w' == w && response == Answer(409, "feature already passed and cannot be marked unsupported")
    else if w.exec.state in {Failed, Unsupported, TimedOut} then
      w' == w && response == Answer(409, "feature is already in a terminal state")
    else
      && response == Answer(200, "")
      && Ends(w, w', id, w.exec.(state := Unsupported, message := r.reason, evidenceKind := r.evidenceKind,
                                 evidenceText := r.evidenceText, finishedAt := now))
  }

  /** A start and its answer, for sockets the system hands out in this order and an error text when it has no more:
      no socket is opened for a feature without listeners, one for each target of a multi-target feature, one for
      any other; when one is missing, those opened are closed again. */
  predicate Starts(def: Definition, w: World, w': World, id: Id, grants: seq<Fd>, error: string, contract: Bytes,
                   now: Time, response: Response)
  {
    if w.slot != "" then w' == w && response == Answer(409, "another feature is already active in this session")
    else if w.exec.state != Pending then
      w' == w && response == Answer(409, "feature has already been started in this session")
    else
      match def.kind
      case AgentOnly => Begins(def, w, w', id, w.exec.fds, contract, now) && response == Answer(200, "")
      case ReceiveMessagesMultiTarget =>
        if def.targets == 0 then
          w' == w && response == Answer(409, "one-to-many feature is missing expected associations")
        else if |grants| < def.targets then
          w' == w.(closed := w.closed + grants) && response == Answer(409, error)
        else Begins(def, w, w', id, grants[..def.targets], contract, now) && response == Answer(200, "")
      case _ =>
        if grants == [] then w' == w && response == Answer(409, error)
        else Begins(def, w, w', id, [grants[0]], contract, now) && response == Answer(200, "")
  }

  lemma FailureSpelled(def: Definition, w: World, id: Id, message: Bytes, now: Time, later: Time)
    ensures Fails(w, Finish(w, id, Outcome(def, w.exec, WorkerFail(message), now, later)), id, message, now)
  {
  }

  lemma ObservationSpelled(def: Definition, w: World, id: Id, now: Time, later: Time)
    ensures Observes(def, w, Finish(w, id, Outcome(def, w.exec, WorkerNetwork, now, later)), id, now)
  {
  }

  lemma DeadlineSpelled(def: Definition, w: World, id: Id, next: Then, now: Time, later: Time)
    ensures Expires(w, Finish(w, id, Outcome(def, w.exec, TimeoutCheck(next), now, later)), id, now, later)
    ensures Expires(w, TimedWorld(w, id, now), id, now, now)
  {
  }

  lemma ReportSpelled(def: Definition, w: World, id: Id, r: Report, now: Time)
    ensures Reports(def, w, CompletedWorld(def, w, id, Parsed(r), now), id, r, now, CompleteResponse(def, w.exec, r))
  {
  }

  lemma WithdrawalSpelled(w: World, id: Id, r: Report, now: Time)
    ensures Withdraws(w, UnsupportedWorld(w, id, Parsed(r), now), id, r, now, UnsupportedResponse(w.exec))
  {
  }

  lemma BegunSpelled(def: Definition, w: World, id: Id, fds: seq<Fd>, contract: Bytes, now: Time)
    ensures Begins(def, w, World(Begun(def, w.exec, fds, contract, now), id, w.closed), id,
                   if def.kind == AgentOnly then w.exec.fds else fds, contract, now)
  {
  }

  lemma StartSpelled(def: Definition, w: World, id: Id, grants: seq<Fd>, error: string, contract: Bytes, now: Time)
    ensures Starts(def, w, Started(def, w, id, grants, contract, now), id, grants, error, contract, now,
                   StartResponse(def, w, grants, error))
  {
    if StartRefusal(def, w) == ANSWERED {
      if |grants| >= SocketCount(def) {
        BegunSpelled(def, w, id, grants[..SocketCount(def)], contract, now);
        assert SocketCount(def) == 1 ==> grants[..1] == [grants[0]];
      } else {
        assert grants == [] ==> w.closed + grants == w.closed;
      }
    }
  }

  // ------------------------------------------------------------------------ consequences

  /** Whatever section ends a feature, be it of a worker, a reader or a report: with its tail run, the sockets
      the feature held are closed, it holds none, and the slot is free if it was the feature's. */
  lemma FinishReleases(def: Definition, w: World, id: Id, pc: Pc, now: Time, later: Time)
    requires AtSection(pc) && !Terminal(w.exec.state)
    ensures var w' := Finish(w, id, Outcome(def, w.exec, pc, now, later));
      Terminal(w'.exec.state) ==>
        w'.exec.fds == [] && w'.closed == w.closed + w.exec.fds && w'.slot == ClearedSlot(w.slot, id)
  {
  }

  predicate Accepted(def: Definition, r: Report) {
    def.distinctAssocs ==> DistinctAssocs(r.assocIds)
  }

  /** For a hybrid feature the network's report and a client report, the first made now and the second later, reach
      the same state, flags, times, slot and closed sockets in either order if and only if: an accepted client
      report adds nothing to an earlier one, and the order does not decide which of the two reports ends the
      feature, or both are made at the same time. Without an earlier report of either kind they commute. */
  lemma HybridReportsCommuteIff(def: Definition, w: World, id: Id, r: Report, now: Time, later: Time)
    requires def.mode == Hybrid
    ensures var networkFirst := Finish(w, id, NetworkSection(def, w.exec, now));
      var agentFirst := Finish(w, id, CompleteSection(def, w.exec, r, now));
      Finish(networkFirst, id, CompleteSection(def, networkFirst.exec, r, later))
        == Finish(agentFirst, id, NetworkSection(def, agentFirst.exec, later))
      <==> (w.exec.state == Active ==>
              if Accepted(def, r) then
                && (w.exec.agentComplete ==> Reported(def, w.exec, r) == w.exec)
                && (w.exec.agentComplete != w.exec.networkComplete ==> now == later)
              else w.exec.agentComplete ==> now == later)
  {
  }

  /** A start either refuses and leaves everything but the log alone, or names the feature in the free slot. */
  lemma StartIsAllOrNothing(def: Definition, w: World, id: Id, grants: seq<Fd>, contract: Bytes, now: Time)
    requires w.exec.state == Pending ==> w.exec.fds == []
    ensures var w' := Started(def, w, id, grants, contract, now);
      || (w'.exec == w.exec && w'.slot == w.slot && (w'.closed == w.closed || w'.closed == w.closed + grants))
      || (w.slot == "" && w.exec.state == Pending && w'.exec.state == Active && w'.slot == id &&
          w'.closed == w.closed && w'.exec.deadlineAt == now + def.timeout &&
          |w'.exec.fds| == SocketCount(def) && w'.exec.fds <= grants)
  {
  }
}
