/**
  The concurrent step system of one session.

  Each step is one lock section, one close() call, or one piece of thread-local work of
  one thread. Handlers, workers and summary readers interleave freely.
  `owner`, `starter`, `finisher` and `closed` are history: the feature each socket was opened
  for, the thread that activated each feature, the thread that moved it to its terminal state,
  and the log of close() calls.
 */
module Lifecycle {
  import opened Bytes
  import opened Execution

  type Tid = nat

  datatype Catalog = Catalog(order: seq<Id>, defs: map<Id, Definition>)

  ghost predicate ValidCatalog(c: Catalog) {
    && "" !in c.defs
    && (forall i :: 0 <= i < |c.order| ==> c.order[i] in c.defs)
    && (forall f :: f in c.defs ==> f in c.order)
    && (forall i, j :: 0 <= i < j < |c.order| ==> c.order[i] != c.order[j])
  }

  datatype Row = Row(feature: Id, view: Visible)

  datatype Counts = Counts(passed: nat, failed: nat, unsupported: nat, timedOut: nat, pending: nat, active: nat)

  const NO_COUNTS := Counts(0, 0, 0, 0, 0, 0)

  function CountIn(k: Counts, state: FeatureState): Counts {
    match state
    case Passed => k.(passed := k.passed + 1)
    case Failed => k.(failed := k.failed + 1)
    case Unsupported => k.(unsupported := k.unsupported + 1)
    case TimedOut => k.(timedOut := k.timedOut + 1)
    case Pending => k.(pending := k.pending + 1)
    case Active => k.(active := k.active + 1)
  }

  /** What the thread does once its timeout check, or its closing and clearing, is over. */
  datatype Then =
    | ThenTimeout(next: Then)
    | ThenStart
    | ThenComplete(body: Body)
    | ThenUnsupported(body: Body)
    | ThenCount(rows: seq<Row>, counts: Counts)
    | ThenDone

  /** A request body that the JSON parser rejects leads to a 400 answer and changes nothing. */
  datatype Body = Malformed | Parsed(report: Report)

  datatype Verdict = Bad(message: Bytes) | Good

  datatype Pc =
    | TimeoutCheck(next: Then)
    | TakeFds(clear: bool, next: Then)
    | CloseFds(fds: seq<Fd>, clear: bool, next: Then)
    | ClearSlot(next: Then)
    | StartCheckSlot
    | StartCheckState
    | StartOpen(fds: seq<Fd>, left: nat)
    | StartAbort(fds: seq<Fd>)
    | StartActivate(fds: seq<Fd>)
    | StartSetFds(fds: seq<Fd>)
    | StartSetSlot
    | StartSpawn
    | StartContract
    | StartMessage
    | CompleteReport(body: Body)
    | UnsupportedReport(body: Body)
    | WorkerReceive
    | WorkerFail(message: Bytes)
    | WorkerNetwork
    | Count(rows: seq<Row>, counts: Counts)
    | SummaryDone(rows: seq<Row>, counts: Counts)
    | Done

  datatype Thread = Thread(feature: Id, pc: Pc)

  datatype State = State(
    now: Time,
    slot: Id,
    execs: map<Id, Exec>,
    threads: map<Tid, Thread>,
    nextFd: Fd,
    owner: map<Fd, Id>,
    starter: map<Id, Tid>,
    finisher: map<Id, Tid>,
    closed: seq<Fd>)

  function Init(c: Catalog, now: Time): State {
    State(now, "", map f | f in c.defs :: NOT_STARTED, map[], 0, map[], map[], map[], [])
  }

  datatype Request =
    | GetFeature(feature: Id)
    | StartFeature(feature: Id)
    | CompleteFeature(feature: Id, body: Body)
    | UnsupportedFeature(feature: Id, body: Body)
    | Summary

  /** The oracle's part of a step: the clock, whether a socket could be created, what the worker saw. */
  datatype Choice = Choice(later: Time, created: bool, worker: Tid, verdict: Verdict, contract: Bytes)

  datatype Action =
    | Tick(to: Time)
    | Arrive(t: Tid, request: Request)
    | Run(t: Tid, choice: Choice)

  /** The routing code checks timeouts before it dispatches, and each mutating handler checks again. */
  function NewThread(c: Catalog, request: Request): Thread {
    match request
    case GetFeature(f) => Thread(f, TimeoutCheck(ThenDone))
    case StartFeature(f) => Thread(f, TimeoutCheck(ThenTimeout(ThenStart)))
    case CompleteFeature(f, body) => Thread(f, TimeoutCheck(ThenTimeout(ThenComplete(body))))
    case UnsupportedFeature(f, body) => Thread(f, TimeoutCheck(ThenTimeout(ThenUnsupported(body))))
    case Summary => NextRow(c, "", [], NO_COUNTS)
  }

  function NextRow(c: Catalog, feature: Id, rows: seq<Row>, counts: Counts): Thread {
    if |rows| < |c.order| then Thread(c.order[|rows|], TimeoutCheck(ThenCount(rows, counts)))
    else Thread(feature, SummaryDone(rows, counts))
  }

  function Resume(next: Then): Pc {
    match next
    case ThenTimeout(k) => TimeoutCheck(k)
    case ThenStart => StartCheckSlot
    case ThenComplete(body) => CompleteReport(body)
    case ThenUnsupported(body) => UnsupportedReport(body)
    case ThenCount(rows, counts) => Count(rows, counts)
    case ThenDone => Done
  }

  function Goto(s: State, t: Tid, pc: Pc): State
    requires t in s.threads
  {
    s.(threads := s.threads[t := s.threads[t].(pc := pc)])
  }

  /** Store the outcome of an execution section and continue with the tail it left behind. */
  function Leave(s: State, t: Tid, outcome: (Exec, Tail), next: Then): State
    requires t in s.threads
  {
    var f := s.threads[t].feature;
    var s1 := s.(execs := s.execs[f := outcome.0]);
    match outcome.1
    case NoTail => Goto(s1, t, Resume(next))
    case CloseOnly => Goto(s1, t, TakeFds(false, next))
    case CloseAndClear => Goto(s1.(finisher := s1.finisher[f := t]), t, TakeFds(true, next))
  }

  predicate Enabled(c: Catalog, s: State, a: Action) {
    match a
    case Tick(to) => s.now <= to
    case Arrive(t, request) => t !in s.threads && (request.Summary? || request.feature in c.defs)
    case Run(t, choice) =>
      && t in s.threads
      && s.threads[t].feature in c.defs
      && s.threads[t].feature in s.execs
      && !s.threads[t].pc.Done?
      && !s.threads[t].pc.SummaryDone?
      && s.now <= choice.later
      && (s.threads[t].pc.StartSpawn? ==> choice.worker !in s.threads)
  }

  function Next(c: Catalog, s: State, a: Action): State
    requires Enabled(c, s, a)
  {
    match a
    case Tick(to) => s.(now := to)
    case Arrive(t, request) => s.(threads := s.threads[t := NewThread(c, request)])
    case Run(t, choice) => RunThread(c, s, t, choice)
  }

  /** The program points at which a thread is about to enter a section that may finish the feature. */
  predicate AtSection(pc: Pc) {
    pc.TimeoutCheck? || pc.CompleteReport? || pc.UnsupportedReport? || pc.WorkerFail? || pc.WorkerNetwork?
  }

  function Outcome(def: Definition, e: Exec, pc: Pc, now: Time, later: Time): (Exec, Tail)
    requires AtSection(pc)
  {
    match pc
    case TimeoutCheck(_) => TimeoutSection(e, now, later)
    case CompleteReport(body) => if body.Malformed? then (e, NoTail) else CompleteSection(def, e, body.report, now)
    case UnsupportedReport(body) => if body.Malformed? then (e, NoTail) else UnsupportedSection(e, body.report, now)
    case WorkerFail(message) => FailSection(e, message, now)
    case WorkerNetwork => NetworkSection(def, e, now)
  }

  function SectionNext(pc: Pc): Then {
    if pc.TimeoutCheck? then pc.next else ThenDone
  }

  function RunThread(c: Catalog, s: State, t: Tid, choice: Choice): State
    requires Enabled(c, s, Run(t, choice))
  {
    var th := s.threads[t];
    if AtSection(th.pc) then
      Leave(if th.pc.TimeoutCheck? then s.(now := choice.later) else s, t,
            Outcome(c.defs[th.feature], s.execs[th.feature], th.pc, s.now, choice.later),
            SectionNext(th.pc))
    else if AtTail(th.pc) then RunTail(s, t)
    else if AtStart(th.pc) then RunStart(c, s, t, choice)
    else RunOther(c, s, t, choice)
  }

  predicate AtTail(pc: Pc) {
    pc.TakeFds? || pc.CloseFds? || pc.ClearSlot?
  }

  /** The finishing tail shared by workers, readers and reports: take the sockets, close them, clear the slot. */
  function RunTail(s: State, t: Tid): State
    requires t in s.threads && s.threads[t].feature in s.execs && AtTail(s.threads[t].pc)
  {
    var f := s.threads[t].feature;
    var e := s.execs[f];
    match s.threads[t].pc
    case TakeFds(clear, next) =>
      Goto(s.(execs := s.execs[f := e.(fds := [])]), t, CloseFds(e.fds, clear, next))
    case CloseFds(fds, clear, next) =>
      if fds != [] then Goto(s.(closed := s.closed + [fds[0]]), t, CloseFds(fds[1..], clear, next))
      else if clear then Goto(s, t, ClearSlot(next))
      else Goto(s, t, Resume(next))
    case ClearSlot(next) => Goto(s.(slot := if s.slot == f then "" else s.slot), t, Resume(next))
  }

  predicate AtStart(pc: Pc) {
    pc.StartOpen? || pc.StartAbort? || pc.StartActivate? || pc.StartSetFds? || pc.StartSetSlot? || pc.StartSpawn?
  }

  function RunStart(c: Catalog, s: State, t: Tid, choice: Choice): State
    requires Enabled(c, s, Run(t, choice)) && AtStart(s.threads[t].pc)
  {
    var f := s.threads[t].feature;
    var e := s.execs[f];
    var def := c.defs[f];
    match s.threads[t].pc
    case StartOpen(fds, left) =>
      if left == 0 then Goto(s, t, StartActivate(fds))
      else if choice.created then
        Goto(s.(nextFd := s.nextFd + 1, owner := s.owner[s.nextFd := f]), t, StartOpen(fds + [s.nextFd], left - 1))
      else Goto(s, t, StartAbort(fds))
    case StartAbort(fds) =>
      if fds != [] then Goto(s.(closed := s.closed + [fds[0]]), t, StartAbort(fds[1..]))
      else Goto(s, t, Done)
    case StartActivate(fds) =>
      Goto(s.(execs := s.execs[f := ActivateSection(def, e, s.now)], starter := s.starter[f := t]), t,
           if def.kind == AgentOnly then StartSetSlot else StartSetFds(fds))
    case StartSetFds(fds) => Goto(s.(execs := s.execs[f := e.(fds := fds)]), t, StartSetSlot)
    case StartSetSlot => Goto(s.(slot := f), t, if def.kind == AgentOnly then StartContract else StartSpawn)
    case StartSpawn =>
      Goto(s.(threads := s.threads[choice.worker := Thread(f, WorkerReceive)]), t, StartContract)
  }

  /** Steps that neither finish a feature, nor move a socket, nor write the slot. */
  function RunOther(c: Catalog, s: State, t: Tid, choice: Choice): State
    requires Enabled(c, s, Run(t, choice))
  {
    var f := s.threads[t].feature;
    var e := s.execs[f];
    var def := c.defs[f];
    match s.threads[t].pc
    case StartCheckSlot => Goto(s, t, if s.slot != "" then Done else StartCheckState)
    case StartCheckState => Goto(s, t, AfterStateCheck(def, e))
    case StartContract => Goto(s.(execs := s.execs[f := e.(contract := choice.contract)]), t, StartMessage)
    case StartMessage => Goto(s.(execs := s.execs[f := StartedMessageSection(def, e)]), t, Done)
    case WorkerReceive =>
      Goto(s, t, if choice.verdict.Good? then WorkerNetwork else WorkerFail(choice.verdict.message))
    case Count(rows, counts) =>
      s.(threads := s.threads[t := NextRow(c, f, rows + [Row(f, View(e))], CountIn(counts, e.state))])
    case _ => s
  }

  /** The branch of a start on the state check and the scenario kind. */
  function AfterStateCheck(def: Definition, e: Exec): Pc {
    if e.state != Pending then Done
    else if def.kind == AgentOnly then StartActivate([])
    else if def.kind == ReceiveMessagesMultiTarget && def.targets == 0 then Done
    else StartOpen([], SocketCount(def))
  }

  // ------------------------------------------------------------------ runs

  ghost predicate ValidRun(c: Catalog, states: seq<State>, actions: seq<Action>) {
    && |states| == |actions| + 1
    && (exists t0 :: states[0] == Init(c, t0))
    && forall i :: 0 <= i < |actions| ==> StepAt(c, states, actions, i)
  }

  ghost predicate StepAt(c: Catalog, states: seq<State>, actions: seq<Action>, i: nat)
    requires i < |actions| && |states| == |actions| + 1
  {
    Enabled(c, states[i], actions[i]) && states[i + 1] == Next(c, states[i], actions[i])
  }

  // ---------------------------------------------- the environment assumption

  /** The critical region of a start: from its passed state check until it has set the slot. */
  predicate InStart(th: Thread) {
    th.pc.StartOpen? || th.pc.StartActivate? || InWindow(th)
  }

  /** The start window: the execution is active but the slot does not name it yet. */
  predicate InWindow(th: Thread) {
    th.pc.StartSetFds? || th.pc.StartSetSlot?
  }

  /** The step by which a start passes its state check and enters its critical region. */
  predicate Enters(c: Catalog, s: State, t: Tid)
    requires t in s.threads && s.threads[t].feature in c.defs && s.threads[t].feature in s.execs
  {
    var th := s.threads[t];
    th.pc.StartCheckState? && InStart(th.(pc := AfterStateCheck(c.defs[th.feature], s.execs[th.feature])))
  }

  /** The step by which a section ends an execution, or takes away its sockets. */
  predicate Acts(c: Catalog, s: State, t: Tid, choice: Choice)
    requires Enabled(c, s, Run(t, choice))
  {
    var th := s.threads[t];
    AtSection(th.pc) && Outcome(c.defs[th.feature], s.execs[th.feature], th.pc, s.now, choice.later).1 != NoTail
  }

  /** When a start passes its state check, what its slot check saw still holds: the slot is empty, and no
      other start is in its critical region. */
  ghost predicate EntersAlone(c: Catalog, s: State, a: Action)
    requires Enabled(c, s, a)
  {
    a.Run? && Enters(c, s, a.t) ==>
      s.slot == "" && forall u :: u in s.threads && u != a.t ==> !InStart(s.threads[u])
  }

  /** No section acts on an execution while another thread is starting it. */
  ghost predicate SparesStarts(c: Catalog, s: State, a: Action)
    requires Enabled(c, s, a)
  {
    a.Run? && Acts(c, s, a.t, a.choice) ==>
      forall u :: u in s.threads && u != a.t && InStart(s.threads[u]) ==>
        s.threads[u].feature != s.threads[a.t].feature
  }

  /** What the server relies on without enforcing it, step by step. */
  ghost predicate Env(c: Catalog, s: State, a: Action)
    requires Enabled(c, s, a)
  {
    EntersAlone(c, s, a) && SparesStarts(c, s, a)
  }

  ghost predicate EnvAt(c: Catalog, states: seq<State>, actions: seq<Action>, i: nat)
    requires i < |actions| && |states| == |actions| + 1
  {
    Enabled(c, states[i], actions[i]) && Env(c, states[i], actions[i])
  }

  ghost predicate EnvRun(c: Catalog, states: seq<State>, actions: seq<Action>) {
    ValidRun(c, states, actions) && forall i :: 0 <= i < |actions| ==> EnvAt(c, states, actions, i)
  }
}
