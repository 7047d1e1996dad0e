/**
  One feature execution and the lock sections that change it.

  Every function whose name ends in `Section` is what one critical section of the
  execution's mutex does to the execution. The value `Tail` says what the thread
  still owes after it has left that section: closing the listening sockets, and
  clearing the session's active slot.
 */
module Execution {
  import opened Bytes

  // The messages of an execution.
  const NEW: Bytes := "not started"
  const ACTIVE_TEXT: Bytes := "scenario active"
  const AWAITING_CLIENT: Bytes := "waiting for client completion report"
  const AWAITING_SERVER: Bytes := "waiting for server-side SCTP observation"
  const OBSERVED: Bytes := "server observed SCTP behavior; " + AWAITING_CLIENT
  const COMPLETED: Bytes := "scenario completed successfully"
  const OVERDUE: Bytes := "scenario timed out"

  type Id = string
  type Time = nat
  type Fd = nat

  datatype CompletionMode = ServerObserved | AgentReported | Hybrid

  datatype ScenarioKind =
    | AgentOnly
    | ReceiveMessages
    | ReceiveMessagesMultiTarget
    | SendAfterTrigger
    | ReceivePRMessages

  datatype FeatureState = Pending | Active | Passed | Failed | Unsupported | TimedOut

  predicate Terminal(state: FeatureState) {
    state != Pending && state != Active
  }

  /** The immutable catalog entry. `targets` is the number of listeners a multi-target scenario asks for. */
  datatype Definition = Definition(
    mode: CompletionMode,
    kind: ScenarioKind,
    timeout: Time,
    targets: nat,
    distinctAssocs: bool)

  function SocketCount(def: Definition): nat {
    match def.kind
    case AgentOnly => 0
    case ReceiveMessagesMultiTarget => def.targets
    case _ => 1
  }

  datatype Exec = Exec(
    state: FeatureState,
    message: Bytes,
    evidenceKind: Bytes,
    evidenceText: Bytes,
    reportText: Bytes,
    contract: Bytes,
    networkComplete: bool,
    agentComplete: bool,
    fds: seq<Fd>,
    assocIds: seq<Bytes>,
    startedAt: Time,
    deadlineAt: Time,
    finishedAt: Time)

  const NOT_STARTED := Exec(Pending, NEW, "", "", "", "", false, false, [], [], 0, 0, 0)

  /** The client's report: what the JSON body of a complete or unsupported request carries. */
  datatype Report = Report(
    reason: Bytes,
    evidenceKind: Bytes,
    evidenceText: Bytes,
    reportText: Bytes,
    assocIds: seq<Bytes>)

  datatype Tail = NoTail | CloseOnly | CloseAndClear

  /** What the mode asks for before an execution may pass. */
  predicate EvidenceComplete(mode: CompletionMode, e: Exec) {
    match mode
    case ServerObserved => e.networkComplete
    case AgentReported => e.agentComplete
    case Hybrid => e.networkComplete && e.agentComplete
  }

  /** Everything a summary or a feature snapshot without its contract shows. */
  datatype Visible = Visible(
    state: FeatureState,
    message: Bytes,
    startedAt: Time,
    deadlineAt: Time,
    finishedAt: Time,
    evidenceKind: Bytes,
    evidenceText: Bytes,
    reportText: Bytes,
    assocIds: seq<Bytes>)

  function View(e: Exec): Visible {
    Visible(e.state, e.message, e.startedAt, e.deadlineAt, e.finishedAt,
            e.evidenceKind, e.evidenceText, e.reportText, e.assocIds)
  }

  function ActivateSection(def: Definition, e: Exec, now: Time): Exec {
    e.(state := Active,
       message := if def.mode == AgentReported then AWAITING_CLIENT else ACTIVE_TEXT,
       startedAt := now,
       deadlineAt := now + def.timeout)
  }

  function FailSection(e: Exec, message: Bytes, now: Time): (Exec, Tail) {
    if e.state != Active then (e, NoTail)
    else (e.(state := Failed, message := message, finishedAt := now), CloseAndClear)
  }

  function NetworkSection(def: Definition, e: Exec, now: Time): (Exec, Tail) {
    if e.state != Active then (e, NoTail)
    else if def.mode == ServerObserved || e.agentComplete then
      (e.(networkComplete := true, state := Passed, message := COMPLETED, finishedAt := now),
       CloseAndClear)
    else
      (e.(networkComplete := true,
          message := OBSERVED),
       CloseOnly)
  }

  /** The clock is read once for the comparison (`now`) and again for the finish time (`later`). */
  function TimeoutSection(e: Exec, now: Time, later: Time): (Exec, Tail) {
    if e.state != Active || now < e.deadlineAt then (e, NoTail)
    else (e.(state := TimedOut, message := OVERDUE, finishedAt := later), CloseAndClear)
  }

  predicate DistinctAssocs(ids: seq<Bytes>) {
    && |ids| == 2
    && ids[0] != "" && ids[1] != "" && ids[0] != "0" && ids[1] != "0"
    && ids[0] != ids[1]
  }

  /** What an accepted report writes. */
  function Reported(def: Definition, e: Exec, r: Report): Exec {
    e.(assocIds := if def.distinctAssocs then r.assocIds else e.assocIds,
       agentComplete := true,
       evidenceKind := r.evidenceKind,
       evidenceText := r.evidenceText,
       reportText := r.reportText)
  }

  function CompleteSection(def: Definition, e: Exec, r: Report, now: Time): (Exec, Tail) {
    if e.state != Active || def.mode == ServerObserved then (e, NoTail)
    else if def.distinctAssocs && !DistinctAssocs(r.assocIds) then (e, NoTail)
    else
      var reported := Reported(def, e, r);
      if def.mode == AgentReported || e.networkComplete then
        (reported.(state := Passed, message := COMPLETED, finishedAt := now), CloseAndClear)
      else
        (reported.(message := AWAITING_SERVER), NoTail)
  }

  function UnsupportedSection(e: Exec, r: Report, now: Time): (Exec, Tail) {
    if e.state != Pending && e.state != Active then (e, NoTail)
    else
      (e.(state := Unsupported, message := r.reason, evidenceKind := r.evidenceKind,
          evidenceText := r.evidenceText, finishedAt := now),
       CloseAndClear)
  }

  /** The last section of a start: the message is refined only when nobody has moved the execution on. */
  function StartedMessageSection(def: Definition, e: Exec): Exec {
    if e.state == Active && e.message == ACTIVE_TEXT && def.mode == AgentReported
    then e.(message := AWAITING_CLIENT)
    else e
  }
}
