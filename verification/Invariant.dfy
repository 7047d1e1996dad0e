/**
  The inductive invariant of the step system under the environment assumption.
 */
module Invariant {
  import opened Execution
  import opened Lifecycle

  // ------------------------------------------------------------------ summaries

  function Tally(rows: seq<Row>): Counts {
    if rows == [] then NO_COUNTS
    else CountIn(Tally(rows[..|rows| - 1]), rows[|rows| - 1].view.state)
  }

  function NextOf(pc: Pc): Then {
    match pc
    case TimeoutCheck(next) => next
    case TakeFds(_, next) => next
    case CloseFds(_, _, next) => next
    case ClearSlot(next) => next
    case _ => ThenDone
  }

  predicate Summarising(pc: Pc) {
    NextOf(pc).ThenCount? || pc.Count? || pc.SummaryDone?
  }

  function RowsOf(pc: Pc): seq<Row>
    requires Summarising(pc)
  {
    match pc
    case Count(rows, _) => rows
    case SummaryDone(rows, _) => rows
    case _ => NextOf(pc).rows
  }

  function CountsOf(pc: Pc): Counts
    requires Summarising(pc)
  {
    match pc
    case Count(_, counts) => counts
    case SummaryDone(_, counts) => counts
    case _ => NextOf(pc).counts
  }

  /** A row that shows a terminal feature shows what that feature still looks like now. */
  ghost predicate RowsOk(c: Catalog, s: State, rows: seq<Row>) {
    && |rows| <= |c.order|
    && forall j {:trigger RowOk(c, s, rows[j], j)} :: 0 <= j < |rows| ==> RowOk(c, s, rows[j], j)
  }

  predicate RowOk(c: Catalog, s: State, row: Row, j: nat)
    requires j < |c.order|
  {
    && row.feature == c.order[j]
    && row.feature in s.execs
    && (Terminal(row.view.state) ==> View(s.execs[row.feature]) == row.view)
  }

  // ---------------------------------------------------------------------- threads

  predicate OwesClearPc(pc: Pc) {
    (pc.TakeFds? && pc.clear) || (pc.CloseFds? && pc.clear) || pc.ClearSlot?
  }

  /** The thread that finished f has not yet reached the end of its clear of the slot. */
  predicate OwesClear(s: State, f: Id) {
    && f in s.finisher && s.finisher[f] in s.threads
    && s.threads[s.finisher[f]].feature == f
    && OwesClearPc(s.threads[s.finisher[f]].pc)
  }

  predicate OwesTake(s: State, f: Id) {
    OwesClear(s, f) && s.threads[s.finisher[f]].pc.TakeFds?
  }

  predicate Starting(s: State, f: Id) {
    && f in s.starter && s.starter[f] in s.threads
    && s.threads[s.starter[f]].feature == f
    && InWindow(s.threads[s.starter[f]])
  }

  predicate PlainNext(next: Then) {
    next.ThenTimeout? ==> next.next.ThenStart? || next.next.ThenComplete? || next.next.ThenUnsupported?
  }

  predicate StartOk(c: Catalog, s: State, th: Thread)
    requires th.feature in c.defs && th.feature in s.execs
  {
    var e, def := s.execs[th.feature], c.defs[th.feature];
    match th.pc
    case StartOpen(_, _) => s.slot == "" && e.state == Pending && def.kind != AgentOnly
    case StartActivate(fds) => s.slot == "" && e.state == Pending && (def.kind == AgentOnly ==> fds == [])
    case StartSetFds(_) => s.slot == "" && e.state == Active && e.fds == []
    case StartSetSlot => s.slot == "" && e.state == Active
    case _ => true
  }

  /** A worker exists only once the slot has named its feature. */
  predicate Established(pc: Pc) {
    pc.StartSpawn? || pc.WorkerReceive? || pc.WorkerFail? || pc.WorkerNetwork?
  }

  ghost predicate ThreadOk(c: Catalog, s: State, th: Thread) {
    if th.pc.SummaryDone? then
      RowsOk(c, s, th.pc.rows) && |th.pc.rows| == |c.order| && th.pc.counts == Tally(th.pc.rows)
    else
      && th.feature in c.defs && th.feature in s.execs
      && PlainNext(NextOf(th.pc))
      && (OwesClearPc(th.pc) ==> Terminal(s.execs[th.feature].state))
      && (Established(th.pc) ==> s.execs[th.feature].state != Pending &&
                                 (s.execs[th.feature].state == Active ==> s.slot == th.feature))
      && StartOk(c, s, th)
      && (Summarising(th.pc) ==>
            && RowsOk(c, s, RowsOf(th.pc))
            && |RowsOf(th.pc)| < |c.order|
            && th.feature == c.order[|RowsOf(th.pc)|]
            && CountsOf(th.pc) == Tally(RowsOf(th.pc)))
  }

  // ------------------------------------------------------------------- executions

  predicate ExecOk(c: Catalog, s: State, f: Id)
    requires f in c.defs && f in s.execs
  {
    var e := s.execs[f];
    && (e.state == Pending ==> e.fds == [] && !e.networkComplete && !e.agentComplete)
    && (e.state == Active ==> s.slot == f || Starting(s, f))
    && (Terminal(e.state) ==> e.fds == [] || OwesTake(s, f))
    && (e.state == Passed <==> EvidenceComplete(c.defs[f].mode, e))
    && (e.state == TimedOut ==> e.deadlineAt <= e.finishedAt)
  }

  predicate SlotOk(s: State) {
    s.slot != "" ==>
      && s.slot in s.execs
      && s.execs[s.slot].state != Pending
      && (Terminal(s.execs[s.slot].state) ==> OwesClear(s, s.slot))
  }

  /** Two starts are never in their critical regions together. */
  ghost predicate Apart(s: State) {
    forall t, u :: t in s.threads && u in s.threads && t != u ==> !(InStart(s.threads[t]) && InStart(s.threads[u]))
  }

  ghost predicate Core(c: Catalog, s: State) {
    && s.execs.Keys == c.defs.Keys
    && (forall t {:trigger ThreadOk(c, s, s.threads[t])} :: t in s.threads ==> ThreadOk(c, s, s.threads[t]))
    && (forall f {:trigger ExecOk(c, s, f)} :: f in c.defs ==> ExecOk(c, s, f))
    && SlotOk(s)
  }

  // ------------------------------------------------------- what one section does

  predicate VerdictOk(mode: CompletionMode, e: Exec) {
    && (e.state == Pending ==> !e.networkComplete && !e.agentComplete)
    && (e.state == Passed <==> EvidenceComplete(mode, e))
    && (e.state == TimedOut ==> e.deadlineAt <= e.finishedAt)
  }

  /** A section acts only on an unfinished feature, and owes the clear exactly when it finishes it. */
  lemma OutcomeShape(def: Definition, e: Exec, pc: Pc, now: Time, later: Time)
    requires AtSection(pc)
    ensures var (e', tail) := Outcome(def, e, pc, now, later);
      && (Terminal(e.state) ==> e' == e && tail == NoTail)
      && (tail == CloseAndClear <==> Terminal(e'.state) && !Terminal(e.state))
      && (tail != CloseAndClear ==> e'.state == e.state)
      && e'.fds == e.fds
  {
  }

  lemma OutcomeVerdict(def: Definition, e: Exec, pc: Pc, now: Time, later: Time)
    requires AtSection(pc) && now <= later && VerdictOk(def.mode, e)
    ensures VerdictOk(def.mode, Outcome(def, e, pc, now, later).0)
  {
    match pc
    case TimeoutCheck(_) =>
    case CompleteReport(body) =>
    case UnsupportedReport(body) =>
    case WorkerFail(_) =>
    case WorkerNetwork =>
  }

  // ------------------------------------------------------------------------ frames

  /** Terminal features stay as they are shown, started features stay started. */
  predicate Monotone(e: Exec, e': Exec) {
    && (Terminal(e.state) ==> View(e') == View(e))
    && (e.state != Pending ==> e'.state != Pending)
  }

  /** The slot is only filled when empty and only emptied for a terminal feature. */
  predicate SlotStep(s: State, s': State) {
    || s'.slot == s.slot
    || s.slot == ""
    || (s'.slot == "" && s.slot in s'.execs && Terminal(s'.execs[s.slot].state))
  }

  /** A step of thread t touches its own entry, its feature, the slot, and may add new threads. */
  ghost predicate Local(s: State, s': State, t: Tid) {
    && t in s.threads && s.threads[t].feature in s.execs
    && s'.execs.Keys == s.execs.Keys
    && (forall g :: g in s.execs && g != s.threads[t].feature ==> s'.execs[g] == s.execs[g])
    && (forall u :: u in s.threads ==> u in s'.threads && (u != t ==> s'.threads[u] == s.threads[u]))
    && (forall g :: g in s.starter && g != s.threads[t].feature ==> g in s'.starter && s'.starter[g] == s.starter[g])
    && (forall g :: g in s.finisher && g != s.threads[t].feature ==>
      g in s'.finisher && s'.finisher[g] == s.finisher[g])
  }

  /** A start in its critical region is not disturbed. */
  predicate Undisturbed(s: State, s': State, th: Thread) {
    InStart(th) && th.feature in s.execs && th.feature in s'.execs ==>
      && s'.slot == s.slot
      && s'.execs[th.feature].state == s.execs[th.feature].state
      && (s.execs[th.feature].fds == [] ==> s'.execs[th.feature].fds == [])
  }

  lemma RowsFrame(c: Catalog, s: State, s': State, rows: seq<Row>)
    requires RowsOk(c, s, rows) && s'.execs.Keys == s.execs.Keys
    requires forall g {:trigger Monotone(s.execs[g], s'.execs[g])} :: g in s.execs ==> Monotone(s.execs[g], s'.execs[g])
    ensures RowsOk(c, s', rows)
  {
    forall j | 0 <= j < |rows| ensures RowOk(c, s', rows[j], j) {
      assert RowOk(c, s, rows[j], j);
      assert Monotone(s.execs[rows[j].feature], s'.execs[rows[j].feature]);
    }
  }

  lemma ThreadFrame(c: Catalog, s: State, s': State, th: Thread)
    requires ValidCatalog(c)
    requires ThreadOk(c, s, th) && s'.execs.Keys == s.execs.Keys
    requires forall g {:trigger Monotone(s.execs[g], s'.execs[g])} :: g in s.execs ==> Monotone(s.execs[g], s'.execs[g])
    requires SlotStep(s, s') && Undisturbed(s, s', th)
    ensures ThreadOk(c, s', th)
  {
    if Summarising(th.pc) {
      RowsFrame(c, s, s', RowsOf(th.pc));
    }
    if !th.pc.SummaryDone? {
      assert Monotone(s.execs[th.feature], s'.execs[th.feature]);
      assert th.feature in c.defs && th.feature != "";
    }
  }

  lemma ExecFrame(c: Catalog, s: State, s': State, t: Tid, g: Id)
    requires ValidCatalog(c) && Local(s, s', t) && SlotStep(s, s')
    requires g in c.defs && g in s.execs && g != s.threads[t].feature && ExecOk(c, s, g)
    ensures ExecOk(c, s', g)
  {
    if Starting(s, g) {
      assert s'.threads[s.starter[g]] == s.threads[s.starter[g]];
      assert Starting(s', g);
    }
    if OwesTake(s, g) {
      assert s'.threads[s.finisher[g]] == s.threads[s.finisher[g]];
      assert OwesTake(s', g);
    }
  }

  lemma SlotFrame(s: State, s': State, t: Tid)
    requires Local(s, s', t) && SlotOk(s)
    requires s'.slot == s.threads[t].feature || s'.slot == "" || s'.slot == s.slot
    requires s'.slot == s.threads[t].feature ==> SlotOk(s')
    ensures SlotOk(s')
  {
    var f := s.threads[t].feature;
    if s'.slot != "" && s'.slot != f && OwesClear(s, s.slot) {
      assert s'.threads[s.finisher[s.slot]] == s.threads[s.finisher[s.slot]];
      assert OwesClear(s', s.slot);
    }
  }

  lemma ThreadsFrame(c: Catalog, s: State, s': State, t: Tid)
    requires ValidCatalog(c) && s'.execs.Keys == s.execs.Keys && SlotStep(s, s')
    requires forall u {:trigger ThreadOk(c, s, s.threads[u])} :: u in s.threads ==> ThreadOk(c, s, s.threads[u])
    requires forall u :: u in s.threads && u != t ==> u in s'.threads && s'.threads[u] == s.threads[u]
    requires forall g {:trigger Monotone(s.execs[g], s'.execs[g])} :: g in s.execs ==> Monotone(s.execs[g], s'.execs[g])
    requires forall u {:trigger Undisturbed(s, s', s.threads[u])} :: u in s.threads && u != t ==>
      Undisturbed(s, s', s.threads[u])
    requires forall u {:trigger ThreadOk(c, s', s'.threads[u])} ::
      u in s'.threads && (u == t || u !in s.threads) ==> ThreadOk(c, s', s'.threads[u])
    ensures forall u {:trigger ThreadOk(c, s', s'.threads[u])} :: u in s'.threads ==> ThreadOk(c, s', s'.threads[u])
  {
    forall u | u in s'.threads ensures ThreadOk(c, s', s'.threads[u]) {
      if u in s.threads && u != t {
        ThreadFrame(c, s, s', s.threads[u]);
      }
    }
  }

  lemma ExecsFrame(c: Catalog, s: State, s': State, t: Tid)
    requires ValidCatalog(c) && Local(s, s', t) && SlotStep(s, s') && s.execs.Keys == c.defs.Keys
    requires forall g {:trigger ExecOk(c, s, g)} :: g in c.defs ==> ExecOk(c, s, g)
    requires ExecOk(c, s', s.threads[t].feature)
    ensures forall g {:trigger ExecOk(c, s', g)} :: g in c.defs ==> ExecOk(c, s', g)
  {
    forall g | g in c.defs ensures ExecOk(c, s', g) {
      if g != s.threads[t].feature {
        assert ExecOk(c, s, g);
        ExecFrame(c, s, s', t, g);
      }
    }
  }

  lemma MonotoneFrame(s: State, s': State, t: Tid)
    requires Local(s, s', t) && Monotone(s.execs[s.threads[t].feature], s'.execs[s.threads[t].feature])
    ensures forall g {:trigger Monotone(s.execs[g], s'.execs[g])} :: g in s.execs ==> Monotone(s.execs[g], s'.execs[g])
  {
  }

  lemma CoreFrame(c: Catalog, s: State, s': State, t: Tid)
    requires ValidCatalog(c) && Core(c, s) && Local(s, s', t) && SlotStep(s, s')
    requires s.threads[t].feature in c.defs
    requires Monotone(s.execs[s.threads[t].feature], s'.execs[s.threads[t].feature])
    requires ExecOk(c, s', s.threads[t].feature)
    requires s'.slot == s.threads[t].feature || s'.slot == "" || s'.slot == s.slot
    requires s'.slot == s.threads[t].feature ==> SlotOk(s')
    requires forall u {:trigger Undisturbed(s, s', s.threads[u])} :: u in s.threads && u != t ==>
      Undisturbed(s, s', s.threads[u])
    requires forall u {:trigger ThreadOk(c, s', s'.threads[u])} ::
      u in s'.threads && (u == t || u !in s.threads) ==> ThreadOk(c, s', s'.threads[u])
    ensures Core(c, s')
  {
    MonotoneFrame(s, s', t);
    ThreadsFrame(c, s, s', t);
    ExecsFrame(c, s, s', t);
    SlotFrame(s, s', t);
  }

  // ------------------------------------------------------------------------- steps

  /** Continuing after a section or a tail is always admissible. */
  lemma ResumeOk(c: Catalog, s: State, s': State, th: Thread)
    requires ThreadOk(c, s, th) && !th.pc.SummaryDone? && (AtSection(th.pc) || AtTail(th.pc))
    requires s'.execs.Keys == s.execs.Keys
    requires forall g {:trigger Monotone(s.execs[g], s'.execs[g])} :: g in s.execs ==> Monotone(s.execs[g], s'.execs[g])
    ensures ThreadOk(c, s', th.(pc := Resume(if AtSection(th.pc) then SectionNext(th.pc) else NextOf(th.pc))))
  {
    if Summarising(th.pc) {
      RowsFrame(c, s, s', RowsOf(th.pc));
    }
  }
}
