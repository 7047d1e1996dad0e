/**
  Every step keeps the invariant.
 */
module Steps {
  import opened Execution
  import opened Lifecycle
  import opened Invariant
  import opened Shapes

  // ------------------------------------------------------------------------ sections

  function AfterSection(c: Catalog, s: State, t: Tid, later: Time): State
    requires t in s.threads && AtSection(s.threads[t].pc)
    requires s.threads[t].feature in c.defs && s.threads[t].feature in s.execs
  {
    var th := s.threads[t];
    Leave(if th.pc.TimeoutCheck? then s.(now := later) else s, t,
          Outcome(c.defs[th.feature], s.execs[th.feature], th.pc, s.now, later), SectionNext(th.pc))
  }

  lemma LeaveLocal(s: State, s': State, t: Tid, outcome: (Exec, Tail))
    requires t in s.threads && s.threads[t].feature in s.execs && t in s'.threads
    requires s'.execs == s.execs[s.threads[t].feature := outcome.0] && s'.starter == s.starter
    requires s'.threads == s.threads[t := s'.threads[t]]
    requires s'.finisher == s.finisher || s'.finisher == s.finisher[s.threads[t].feature := t]
    ensures Local(s, s', t)
  {
  }

  lemma SectionExecOk(c: Catalog, s: State, s': State, t: Tid, later: Time)
    requires t in s.threads && AtSection(s.threads[t].pc) && s.now <= later
    requires s.threads[t].feature in c.defs && s.threads[t].feature in s.execs
    requires ExecOk(c, s, s.threads[t].feature)
    requires Local(s, s', t) && s'.slot == s.slot && s'.starter == s.starter
    requires var th := s.threads[t];
      var (e', tail) := Outcome(c.defs[th.feature], s.execs[th.feature], th.pc, s.now, later);
      && s'.execs[th.feature] == e'
      && (tail == CloseAndClear ==> OwesTake(s', th.feature))
      && (tail != CloseAndClear ==> s'.finisher == s.finisher)
    ensures ExecOk(c, s', s.threads[t].feature)
  {
    var th := s.threads[t];
    var f := th.feature;
    var e := s.execs[f];
    OutcomeShape(c.defs[f], e, th.pc, s.now, later);
    OutcomeVerdict(c.defs[f], e, th.pc, s.now, later);
    if Starting(s, f) {
      assert s.starter[f] != t;
      assert Starting(s', f);
    }
    if OwesTake(s, f) && Terminal(e.state) {
      assert s.finisher[f] != t;
      assert OwesTake(s', f);
    }
  }

  lemma SectionSlotOk(c: Catalog, s: State, s': State, t: Tid, later: Time)
    requires t in s.threads && AtSection(s.threads[t].pc)
    requires s.threads[t].feature in c.defs && s.threads[t].feature in s.execs
    requires SlotOk(s) && Local(s, s', t) && s'.slot == s.slot == s.threads[t].feature
    requires var th := s.threads[t];
      var (e', tail) := Outcome(c.defs[th.feature], s.execs[th.feature], th.pc, s.now, later);
      && s'.execs[th.feature] == e'
      && (tail == CloseAndClear ==> OwesTake(s', th.feature))
      && (tail != CloseAndClear ==> s'.finisher == s.finisher)
    ensures SlotOk(s')
  {
    var th := s.threads[t];
    OutcomeShape(c.defs[th.feature], s.execs[th.feature], th.pc, s.now, later);
    if s.slot != "" && OwesClear(s, s.slot) && Terminal(s.execs[s.slot].state) {
      assert s.finisher[s.slot] != t;
      assert OwesClear(s', s.slot);
    }
  }

  lemma SectionThreadOk(c: Catalog, s: State, s': State, t: Tid, tail: Tail)
    requires t in s.threads && AtSection(s.threads[t].pc)
    requires ThreadOk(c, s, s.threads[t])
    requires s'.execs.Keys == s.execs.Keys
    requires forall g {:trigger Monotone(s.execs[g], s'.execs[g])} :: g in s.execs ==> Monotone(s.execs[g], s'.execs[g])
    requires tail == CloseAndClear ==> Terminal(s'.execs[s.threads[t].feature].state)
    ensures ThreadOk(c, s', s.threads[t].(pc :=
      match tail
      case NoTail => Resume(SectionNext(s.threads[t].pc))
      case CloseOnly => TakeFds(false, SectionNext(s.threads[t].pc))
      case CloseAndClear => TakeFds(true, SectionNext(s.threads[t].pc))))
  {
    if tail == NoTail {
      ResumeOk(c, s, s', s.threads[t]);
    } else if Summarising(s.threads[t].pc) {
      RowsFrame(c, s, s', RowsOf(s.threads[t].pc));
    }
  }

  /** A section that leaves the executions being started by others alone. */
  ghost predicate Gentle(c: Catalog, s: State, t: Tid, later: Time)
    requires t in s.threads && AtSection(s.threads[t].pc)
    requires s.threads[t].feature in c.defs && s.threads[t].feature in s.execs
  {
    var th := s.threads[t];
    Outcome(c.defs[th.feature], s.execs[th.feature], th.pc, s.now, later).1 != NoTail ==>
      forall u :: u in s.threads && u != t && InStart(s.threads[u]) ==> s.threads[u].feature != th.feature
  }

  lemma SectionUndisturbs(c: Catalog, s: State, s': State, t: Tid, u: Tid, later: Time)
    requires Core(c, s) && t in s.threads && u in s.threads && u != t && AtSection(s.threads[t].pc)
    requires s.threads[t].feature in c.defs && Gentle(c, s, t, later)
    requires s'.slot == s.slot && s'.execs == s.execs[s.threads[t].feature :=
      Outcome(c.defs[s.threads[t].feature], s.execs[s.threads[t].feature], s.threads[t].pc, s.now, later).0]
    ensures Undisturbed(s, s', s.threads[u])
  {
    var th := s.threads[t];
    if InStart(s.threads[u]) && s.threads[u].feature == th.feature {
      OutcomeShape(c.defs[th.feature], s.execs[th.feature], th.pc, s.now, later);
    }
  }

  lemma SectionCore(c: Catalog, s: State, t: Tid, later: Time)
    requires ValidCatalog(c) && Core(c, s) && s.now <= later
    requires t in s.threads && AtSection(s.threads[t].pc) && s.threads[t].feature in c.defs
    requires Gentle(c, s, t, later)
    ensures Core(c, AfterSection(c, s, t, later))
  {
    var th := s.threads[t];
    var f := th.feature;
    var outcome := Outcome(c.defs[f], s.execs[f], th.pc, s.now, later);
    var s1 := if th.pc.TimeoutCheck? then s.(now := later) else s;
    var s' := Leave(s1, t, outcome, SectionNext(th.pc));
    LeaveShape(s1, t, outcome, SectionNext(th.pc));
    LeaveLocal(s, s', t, outcome);
    OutcomeShape(c.defs[f], s.execs[f], th.pc, s.now, later);
    MonotoneFrame(s, s', t);
    SectionExecOk(c, s, s', t, later);
    if s.slot == f {
      SectionSlotOk(c, s, s', t, later);
    }
    SectionThreadOk(c, s, s', t, outcome.1);
    forall u | u in s.threads && u != t ensures Undisturbed(s, s', s.threads[u]) {
      SectionUndisturbs(c, s, s', t, u, later);
    }
    CoreFrame(c, s, s', t);
  }

  // --------------------------------------------------------------------------- tails

  lemma GotoLocal(s: State, s1: State, t: Tid, pc: Pc)
    requires t in s.threads && s.threads[t].feature in s.execs && s1.execs.Keys == s.execs.Keys
    requires s1.threads == s.threads && s1.finisher == s.finisher
    requires forall g :: g in s.execs && g != s.threads[t].feature ==> s1.execs[g] == s.execs[g]
    requires forall g :: g in s.starter && g != s.threads[t].feature ==>
      g in s1.starter && s1.starter[g] == s.starter[g]
    ensures Local(s, Goto(s1, t, pc), t)
  {
  }

  /** Steps that leave the state of the feature and the history alone keep its facts. */
  lemma QuietExecOk(c: Catalog, s: State, s': State, t: Tid)
    requires Local(s, s', t) && s.threads[t].feature in c.defs && ExecOk(c, s, s.threads[t].feature)
    requires s'.starter == s.starter && s'.finisher == s.finisher
    requires !InWindow(s.threads[t])
    requires var f := s.threads[t].feature;
      && View(s'.execs[f]).state == s.execs[f].state
      && s'.execs[f].networkComplete == s.execs[f].networkComplete
      && s'.execs[f].agentComplete == s.execs[f].agentComplete
      && s'.execs[f].deadlineAt == s.execs[f].deadlineAt
      && s'.execs[f].finishedAt == s.execs[f].finishedAt
      && (s'.execs[f].fds == [] || (s'.execs[f].fds == s.execs[f].fds && !s.threads[t].pc.TakeFds?))
      && (s'.slot == s.slot || s.slot == "" || Terminal(s.execs[f].state))
    requires s.threads[t].feature != ""
    ensures ExecOk(c, s', s.threads[t].feature)
  {
    var f := s.threads[t].feature;
    if Starting(s, f) {
      assert Starting(s', f);
    }
    if OwesTake(s, f) && !s.threads[t].pc.TakeFds? {
      assert s.finisher[f] != t;
      assert OwesTake(s', f);
    }
  }

  lemma QuietSlotOk(s: State, s': State, t: Tid)
    requires Local(s, s', t) && SlotOk(s) && s'.slot == s.slot == s.threads[t].feature
    requires s'.finisher == s.finisher && s'.execs[s.slot].state == s.execs[s.slot].state
    requires OwesClearPc(s.threads[t].pc) ==>
      OwesClearPc(s'.threads[t].pc) && s'.threads[t].feature == s.threads[t].feature
    ensures SlotOk(s')
  {
    if s.slot != "" && OwesClear(s, s.slot) && s.finisher[s.slot] != t {
      assert s'.threads[s.finisher[s.slot]] == s.threads[s.finisher[s.slot]];
    }
  }

  predicate MayRun(c: Catalog, s: State, t: Tid) {
    t in s.threads && s.threads[t].feature in c.defs && s.threads[t].feature in s.execs
  }

  /** The facts that a step keeps when it leaves state, verdict, history and slot alone. */
  predicate Quiet(s: State, s': State, t: Tid)
    requires t in s.threads && s.threads[t].feature in s.execs && s.threads[t].feature in s'.execs
    requires t in s'.threads
  {
    var f := s.threads[t].feature;
    && s'.slot == s.slot && s'.starter == s.starter && s'.finisher == s.finisher
    && !InWindow(s.threads[t])
    && s'.execs[f].state == s.execs[f].state
    && (Terminal(s.execs[f].state) ==> View(s'.execs[f]) == View(s.execs[f]))
    && s'.execs[f].networkComplete == s.execs[f].networkComplete
    && s'.execs[f].agentComplete == s.execs[f].agentComplete
    && s'.execs[f].deadlineAt == s.execs[f].deadlineAt
    && s'.execs[f].finishedAt == s.execs[f].finishedAt
    && (s'.execs[f].fds == [] || (s'.execs[f].fds == s.execs[f].fds && !s.threads[t].pc.TakeFds?))
    && (OwesClearPc(s.threads[t].pc) ==>
          OwesClearPc(s'.threads[t].pc) && s'.threads[t].feature == s.threads[t].feature)
  }

  lemma QuietCore(c: Catalog, s: State, s': State, t: Tid)
    requires ValidCatalog(c) && Core(c, s) && Local(s, s', t) && Quiet(s, s', t)
    requires s.threads[t].feature in c.defs
    requires forall u {:trigger ThreadOk(c, s', s'.threads[u])} ::
      u in s'.threads && (u == t || u !in s.threads) ==> ThreadOk(c, s', s'.threads[u])
    ensures Core(c, s')
  {
    MonotoneFrame(s, s', t);
    QuietExecOk(c, s, s', t);
    if s.slot == s.threads[t].feature { QuietSlotOk(s, s', t); }
    forall u | u in s.threads && u != t ensures Undisturbed(s, s', s.threads[u]) { }
    CoreFrame(c, s, s', t);
  }

  /** A thread whose own facts do not depend on its program point moves on. */
  lemma MovedThreadOk(c: Catalog, s: State, s': State, t: Tid, pc': Pc)
    requires t in s.threads && ThreadOk(c, s, s.threads[t]) && !s.threads[t].pc.SummaryDone?
    requires s'.execs.Keys == s.execs.Keys && s.threads[t].feature in s.execs
    requires forall g {:trigger Monotone(s.execs[g], s'.execs[g])} :: g in s.execs ==> Monotone(s.execs[g], s'.execs[g])
    requires NextOf(pc') == NextOf(s.threads[t].pc) && !pc'.Count? && !pc'.SummaryDone?
    requires OwesClearPc(pc') ==> OwesClearPc(s.threads[t].pc)
    requires Established(pc') ==> Established(s.threads[t].pc)
    requires Established(pc') ==> s'.slot == s.slot
    requires Established(pc') ==> s'.execs[s.threads[t].feature].state == s.execs[s.threads[t].feature].state
    requires !InStart(Thread(s.threads[t].feature, pc'))
    ensures ThreadOk(c, s', s.threads[t].(pc := pc'))
  {
    assert Monotone(s.execs[s.threads[t].feature], s'.execs[s.threads[t].feature]);
    if Summarising(pc') {
      RowsFrame(c, s, s', RowsOf(pc'));
    }
  }

  /** A quiet step whose thread lands in an admissible place. */
  lemma GotoCore(c: Catalog, s: State, s1: State, t: Tid, pc': Pc)
    requires ValidCatalog(c) && Core(c, s) && MayRun(c, s, t)
    requires s1.threads == s.threads && s1.execs.Keys == s.execs.Keys
    requires forall g :: g in s.execs && g != s.threads[t].feature ==> s1.execs[g] == s.execs[g]
    requires Quiet(s, Goto(s1, t, pc'), t)
    requires ThreadOk(c, Goto(s1, t, pc'), s.threads[t].(pc := pc'))
    ensures Core(c, Goto(s1, t, pc'))
  {
    GotoLocal(s, s1, t, pc');
    QuietCore(c, s, Goto(s1, t, pc'), t);
  }

  /** Program points that carry no obligation. */
  lemma PlainThreadOk(c: Catalog, s: State, th: Thread)
    requires th.feature in c.defs && th.feature in s.execs
    requires th.pc.Done? || th.pc.StartCheckSlot? || th.pc.StartContract? || th.pc.StartMessage? || th.pc.StartAbort?
    ensures ThreadOk(c, s, th)
  {
  }

  lemma TakeCore(c: Catalog, s: State, t: Tid)
    requires ValidCatalog(c) && Core(c, s) && t in s.threads && s.threads[t].pc.TakeFds?
    requires s.threads[t].feature in c.defs
    ensures Core(c, RunTail(s, t))
  {
    var th := s.threads[t];
    var f := th.feature;
    var s1 := s.(execs := s.execs[f := s.execs[f].(fds := [])]);
    var pc' := CloseFds(s.execs[f].fds, th.pc.clear, th.pc.next);
    var s' := Goto(s1, t, pc');
    assert RunTail(s, t) == s';
    GotoLocal(s, s1, t, pc');
    MonotoneFrame(s, s', t);
    MovedThreadOk(c, s, s', t, pc');
    QuietCore(c, s, s', t);
  }

  lemma CloseCore(c: Catalog, s: State, t: Tid)
    requires ValidCatalog(c) && Core(c, s) && t in s.threads && s.threads[t].pc.CloseFds?
    requires s.threads[t].feature in c.defs
    ensures Core(c, RunTail(s, t))
  {
    var th := s.threads[t];
    if th.pc.fds != [] {
      var s1 := s.(closed := s.closed + [th.pc.fds[0]]);
      MoveCore(c, s, s1, t, CloseFds(th.pc.fds[1..], th.pc.clear, th.pc.next));
    } else if th.pc.clear {
      MoveCore(c, s, s, t, ClearSlot(th.pc.next));
    } else {
      var s' := Goto(s, t, Resume(th.pc.next));
      GotoLocal(s, s, t, Resume(th.pc.next));
      MonotoneFrame(s, s', t);
      ResumeOk(c, s, s', th);
      QuietCore(c, s, s', t);
    }
  }

  /** A step that only moves the thread's program point, and perhaps the log or the counters. */
  lemma MoveCore(c: Catalog, s: State, s1: State, t: Tid, pc': Pc)
    requires ValidCatalog(c) && Core(c, s) && t in s.threads && s.threads[t].feature in c.defs
    requires s1 == s.(closed := s1.closed, nextFd := s1.nextFd, owner := s1.owner)
    requires !s.threads[t].pc.SummaryDone? && !s.threads[t].pc.TakeFds? && !InWindow(s.threads[t])
    requires NextOf(pc') == NextOf(s.threads[t].pc) && !pc'.Count? && !pc'.SummaryDone?
    requires OwesClearPc(pc') <==> OwesClearPc(s.threads[t].pc)
    requires Established(pc') ==> Established(s.threads[t].pc)
    requires !InStart(Thread(s.threads[t].feature, pc'))
    ensures Core(c, Goto(s1, t, pc'))
  {
    var s' := Goto(s1, t, pc');
    GotoLocal(s, s1, t, pc');
    MonotoneFrame(s, s', t);
    MovedThreadOk(c, s, s', t, pc');
    QuietCore(c, s, s', t);
  }

  lemma ClearUndisturbed(c: Catalog, s: State, s': State, t: Tid)
    requires Core(c, s) && t in s.threads && s'.execs == s.execs
    requires s'.slot == s.slot || s.slot != ""
    ensures forall u {:trigger Undisturbed(s, s', s.threads[u])} :: u in s.threads && u != t ==>
      Undisturbed(s, s', s.threads[u])
  {
    forall u | u in s.threads && u != t ensures Undisturbed(s, s', s.threads[u]) {
      assert ThreadOk(c, s, s.threads[u]);
    }
  }

  lemma ClearCore(c: Catalog, s: State, t: Tid)
    requires ValidCatalog(c) && Core(c, s) && t in s.threads && s.threads[t].pc.ClearSlot?
    requires s.threads[t].feature in c.defs
    ensures Core(c, RunTail(s, t))
  {
    var th := s.threads[t];
    var s1 := s.(slot := if s.slot == th.feature then "" else s.slot);
    var s' := Goto(s1, t, Resume(th.pc.next));
    assert Terminal(s.execs[th.feature].state) by { assert ThreadOk(c, s, th); }
    GotoLocal(s, s1, t, Resume(th.pc.next));
    MonotoneFrame(s, s', t);
    QuietExecOk(c, s, s', t);
    ResumeOk(c, s, s', th);
    ClearUndisturbed(c, s, s', t);
    CoreFrame(c, s, s', t);
  }

  // -------------------------------------------------------------------------- starts

  /** A thread whose start obligations hold in the new state. */
  lemma StartThreadOk(c: Catalog, s: State, th: Thread)
    requires th.feature in c.defs && th.feature in s.execs && (InStart(th) || th.pc.StartAbort?)
    requires StartOk(c, s, th)
    ensures ThreadOk(c, s, th)
  {
  }

  /** Two starts are never in their critical regions together, so nobody else is disturbed. */
  lemma AloneInStart(s: State, s': State, t: Tid)
    requires Apart(s) && t in s.threads && InStart(s.threads[t])
    ensures forall u {:trigger Undisturbed(s, s', s.threads[u])} :: u in s.threads && u != t ==>
      Undisturbed(s, s', s.threads[u])
  {
  }

  lemma OpenCore(c: Catalog, s: State, s1: State, t: Tid, pc': Pc)
    requires ValidCatalog(c) && Core(c, s) && MayRun(c, s, t) && s.threads[t].pc.StartOpen?
    requires pc'.StartOpen? || pc'.StartAbort? || (pc'.StartActivate? && s1 == s)
    requires s1 == s.(nextFd := s1.nextFd, owner := s1.owner)
    ensures Core(c, Goto(s1, t, pc'))
  {
    assert ThreadOk(c, s, s.threads[t]);
    StartThreadOk(c, Goto(s1, t, pc'), s.threads[t].(pc := pc'));
    GotoCore(c, s, s1, t, pc');
  }

  lemma ActivateFacts(c: Catalog, s: State, s1: State, t: Tid, pc': Pc)
    requires ValidCatalog(c) && Core(c, s) && MayRun(c, s, t) && s.threads[t].pc.StartActivate?
    requires var f := s.threads[t].feature;
      s1 == s.(execs := s.execs[f := ActivateSection(c.defs[f], s.execs[f], s.now)], starter := s.starter[f := t])
    requires pc' == if c.defs[s.threads[t].feature].kind == AgentOnly then StartSetSlot
      else StartSetFds(s.threads[t].pc.fds)
    ensures var f, s' := s.threads[t].feature, Goto(s1, t, pc');
      && ExecOk(c, s', f) && ThreadOk(c, s', s'.threads[t])
      && s.slot == "" && Monotone(s.execs[f], s'.execs[f])
  {
    var f, s' := s.threads[t].feature, Goto(s1, t, pc');
    assert ThreadOk(c, s, s.threads[t]) && ExecOk(c, s, f);
    assert Starting(s', f);
    StartThreadOk(c, s', s'.threads[t]);
  }

  lemma ActivateCore(c: Catalog, s: State, t: Tid)
    requires ValidCatalog(c) && Core(c, s) && Apart(s) && MayRun(c, s, t) && s.threads[t].pc.StartActivate?
    ensures var f := s.threads[t].feature;
      Core(c, Goto(s.(execs := s.execs[f := ActivateSection(c.defs[f], s.execs[f], s.now)],
                      starter := s.starter[f := t]), t,
                   if c.defs[f].kind == AgentOnly then StartSetSlot else StartSetFds(s.threads[t].pc.fds)))
  {
    var f := s.threads[t].feature;
    var s1 := s.(execs := s.execs[f := ActivateSection(c.defs[f], s.execs[f], s.now)], starter := s.starter[f := t]);
    var pc' := if c.defs[f].kind == AgentOnly then StartSetSlot else StartSetFds(s.threads[t].pc.fds);
    var s' := Goto(s1, t, pc');
    GotoLocal(s, s1, t, pc');
    ActivateFacts(c, s, s1, t, pc');
    AloneInStart(s, s', t);
    CoreFrame(c, s, s', t);
  }

  lemma SetFdsFacts(c: Catalog, s: State, s': State, t: Tid)
    requires ValidCatalog(c) && Core(c, s) && MayRun(c, s, t) && s.threads[t].pc.StartSetFds?
    requires var f := s.threads[t].feature;
      s' == Goto(s.(execs := s.execs[f := s.execs[f].(fds := s.threads[t].pc.fds)]), t, StartSetSlot)
    ensures ExecOk(c, s', s.threads[t].feature) && s.slot == ""
    ensures ThreadOk(c, s', s'.threads[t])
  {
    var f := s.threads[t].feature;
    assert ThreadOk(c, s, s.threads[t]) && ExecOk(c, s, f);
    if Starting(s, f) { assert Starting(s', f); }
    StartThreadOk(c, s', s'.threads[t]);
  }

  lemma SetFdsCore(c: Catalog, s: State, t: Tid)
    requires ValidCatalog(c) && Core(c, s) && Apart(s) && MayRun(c, s, t) && s.threads[t].pc.StartSetFds?
    ensures var f := s.threads[t].feature;
      Core(c, Goto(s.(execs := s.execs[f := s.execs[f].(fds := s.threads[t].pc.fds)]), t, StartSetSlot))
  {
    var f := s.threads[t].feature;
    var s1 := s.(execs := s.execs[f := s.execs[f].(fds := s.threads[t].pc.fds)]);
    var s' := Goto(s1, t, StartSetSlot);
    GotoLocal(s, s1, t, StartSetSlot);
    SetFdsFacts(c, s, s', t);
    AloneInStart(s, s', t);
    CoreFrame(c, s, s', t);
  }

  /** Naming an active feature in the empty slot. */
  lemma SetSlotFacts(c: Catalog, s: State, s': State, t: Tid, pc': Pc)
    requires ValidCatalog(c) && Core(c, s) && MayRun(c, s, t) && s.threads[t].pc.StartSetSlot?
    requires pc'.StartContract? || pc'.StartSpawn?
    requires s' == Goto(s.(slot := s.threads[t].feature), t, pc')
    ensures ExecOk(c, s', s.threads[t].feature) && SlotOk(s') && s.slot == ""
    ensures ThreadOk(c, s', s'.threads[t])
  {
    assert ThreadOk(c, s, s.threads[t]) && ExecOk(c, s, s.threads[t].feature);
  }

  lemma SetSlotCore(c: Catalog, s: State, t: Tid, pc': Pc)
    requires ValidCatalog(c) && Core(c, s) && Apart(s) && MayRun(c, s, t) && s.threads[t].pc.StartSetSlot?
    requires pc'.StartContract? || pc'.StartSpawn?
    ensures Core(c, Goto(s.(slot := s.threads[t].feature), t, pc'))
  {
    var s1 := s.(slot := s.threads[t].feature);
    var s' := Goto(s1, t, pc');
    GotoLocal(s, s1, t, pc');
    SetSlotFacts(c, s, s', t, pc');
    AloneInStart(s, s', t);
    CoreFrame(c, s, s', t);
  }

  lemma SpawnFacts(c: Catalog, s: State, s': State, th: Thread)
    requires ThreadOk(c, s, th) && th.pc.StartSpawn? && s'.execs == s.execs && s'.slot == s.slot
    ensures ThreadOk(c, s', Thread(th.feature, WorkerReceive))
    ensures ThreadOk(c, s', Thread(th.feature, StartContract))
  {
  }

  lemma SpawnLocal(s: State, s': State, t: Tid, w: Tid)
    requires t in s.threads && s.threads[t].feature in s.execs && w !in s.threads
    requires s'.execs == s.execs && s'.starter == s.starter && s'.finisher == s.finisher
    requires t in s'.threads && w in s'.threads && s'.threads == s.threads[w := s'.threads[w]][t := s'.threads[t]]
    ensures Local(s, s', t)
  {
  }

  lemma SpawnCore(c: Catalog, s: State, t: Tid, w: Tid)
    requires ValidCatalog(c) && Core(c, s) && MayRun(c, s, t) && s.threads[t].pc.StartSpawn? && w !in s.threads
    ensures Core(c, Goto(s.(threads := s.threads[w := Thread(s.threads[t].feature, WorkerReceive)]), t, StartContract))
  {
    var th := s.threads[t];
    assert ThreadOk(c, s, th);
    var s' := Goto(s.(threads := s.threads[w := Thread(th.feature, WorkerReceive)]), t, StartContract);
    SpawnLocal(s, s', t, w);
    SpawnFacts(c, s, s', th);
    QuietCore(c, s, s', t);
  }

  lemma OpenStep(c: Catalog, s: State, t: Tid, choice: Choice)
    requires ValidCatalog(c) && Core(c, s) && Enabled(c, s, Run(t, choice)) && s.threads[t].pc.StartOpen?
    ensures Core(c, RunStart(c, s, t, choice))
  {
    var fds, left := s.threads[t].pc.fds, s.threads[t].pc.left;
    if left == 0 {
      OpenCore(c, s, s, t, StartActivate(fds));
    } else if choice.created {
      OpenCore(c, s, s.(nextFd := s.nextFd + 1, owner := s.owner[s.nextFd := s.threads[t].feature]), t,
               StartOpen(fds + [s.nextFd], left - 1));
    } else {
      OpenCore(c, s, s, t, StartAbort(fds));
    }
  }

  lemma AbortStep(c: Catalog, s: State, t: Tid, choice: Choice)
    requires ValidCatalog(c) && Core(c, s) && Enabled(c, s, Run(t, choice)) && s.threads[t].pc.StartAbort?
    ensures Core(c, RunStart(c, s, t, choice))
  {
    var fds := s.threads[t].pc.fds;
    if fds != [] {
      MoveCore(c, s, s.(closed := s.closed + [fds[0]]), t, StartAbort(fds[1..]));
    } else {
      MoveCore(c, s, s, t, Done);
    }
  }

  lemma StartCore(c: Catalog, s: State, t: Tid, choice: Choice)
    requires ValidCatalog(c) && Core(c, s) && Apart(s)
    requires Enabled(c, s, Run(t, choice)) && AtStart(s.threads[t].pc)
    ensures Core(c, RunStart(c, s, t, choice))
  {
    match s.threads[t].pc
    case StartOpen(_, _) => OpenStep(c, s, t, choice);
    case StartAbort(_) => AbortStep(c, s, t, choice);
    case StartActivate(_) => ActivateCore(c, s, t);
    case StartSetFds(_) => SetFdsCore(c, s, t);
    case StartSetSlot =>
      SetSlotCore(c, s, t, if c.defs[s.threads[t].feature].kind == AgentOnly then StartContract else StartSpawn);
    case StartSpawn => SpawnCore(c, s, t, choice.worker);
  }

  // ------------------------------------------------------------------------ the rest

  lemma TailCore(c: Catalog, s: State, t: Tid)
    requires ValidCatalog(c) && Core(c, s) && MayRun(c, s, t) && AtTail(s.threads[t].pc)
    ensures Core(c, RunTail(s, t))
  {
    match s.threads[t].pc
    case TakeFds(_, _) => TakeCore(c, s, t);
    case CloseFds(_, _, _) => CloseCore(c, s, t);
    case ClearSlot(_) => ClearCore(c, s, t);
  }

  lemma CheckCore(c: Catalog, s: State, t: Tid, pc': Pc)
    requires ValidCatalog(c) && Core(c, s) && MayRun(c, s, t)
    requires var th := s.threads[t];
      || (th.pc.StartCheckSlot? && pc' == if s.slot != "" then Done else StartCheckState)
      || (th.pc.StartCheckState? && pc' == AfterStateCheck(c.defs[th.feature], s.execs[th.feature])
          && (InStart(th.(pc := pc')) ==> s.slot == ""))
      || (th.pc.WorkerReceive? && (pc'.WorkerNetwork? || pc'.WorkerFail?))
    ensures Core(c, Goto(s, t, pc'))
  {
    var th := s.threads[t].(pc := pc');
    assert ThreadOk(c, s, s.threads[t]);
    if pc'.Done? {
      PlainThreadOk(c, Goto(s, t, pc'), th);
    } else if InStart(th) {
      StartThreadOk(c, Goto(s, t, pc'), th);
    }
    GotoCore(c, s, s, t, pc');
  }

  lemma TextCore(c: Catalog, s: State, t: Tid, e': Exec, pc': Pc)
    requires ValidCatalog(c) && Core(c, s) && MayRun(c, s, t)
    requires var th, e := s.threads[t], s.execs[s.threads[t].feature];
      || (th.pc.StartContract? && pc' == StartMessage && e' == e.(contract := e'.contract))
      || (th.pc.StartMessage? && pc' == Done && e' == StartedMessageSection(c.defs[th.feature], e))
    ensures Core(c, Goto(s.(execs := s.execs[s.threads[t].feature := e']), t, pc'))
  {
    var s1 := s.(execs := s.execs[s.threads[t].feature := e']);
    PlainThreadOk(c, Goto(s1, t, pc'), s.threads[t].(pc := pc'));
    GotoCore(c, s, s1, t, pc');
  }

  /** Adding the row of the feature just read keeps the summary truthful. */
  lemma CountFacts(c: Catalog, s: State, s': State, th: Thread)
    requires ThreadOk(c, s, th) && th.pc.Count?
    requires th.feature in c.defs && th.feature in s.execs && s'.execs == s.execs
    requires s.execs.Keys == c.defs.Keys && ValidCatalog(c)
    ensures ThreadOk(c, s', NextRow(c, th.feature, th.pc.rows + [Row(th.feature, View(s.execs[th.feature]))],
                                    CountIn(th.pc.counts, s.execs[th.feature].state)))
  {
    var rows := th.pc.rows + [Row(th.feature, View(s.execs[th.feature]))];
    assert rows[..|rows| - 1] == th.pc.rows;
    forall j | 0 <= j < |rows| ensures RowOk(c, s', rows[j], j) {
      if j < |th.pc.rows| { assert RowOk(c, s, th.pc.rows[j], j); }
    }
    assert RowsOk(c, s', rows);
  }

  lemma CountCore(c: Catalog, s: State, t: Tid)
    requires ValidCatalog(c) && Core(c, s) && MayRun(c, s, t) && s.threads[t].pc.Count?
    ensures var th := s.threads[t];
      Core(c, s.(threads := s.threads[t := NextRow(c, th.feature,
        th.pc.rows + [Row(th.feature, View(s.execs[th.feature]))],
        CountIn(th.pc.counts, s.execs[th.feature].state))]))
  {
    var th := s.threads[t];
    var next := NextRow(c, th.feature, th.pc.rows + [Row(th.feature, View(s.execs[th.feature]))],
                        CountIn(th.pc.counts, s.execs[th.feature].state));
    var s' := s.(threads := s.threads[t := next]);
    assert ThreadOk(c, s, th);
    CountFacts(c, s, s', th);
    assert Local(s, s', t);
    QuietCore(c, s, s', t);
  }

  lemma OtherCore(c: Catalog, s: State, t: Tid, choice: Choice)
    requires ValidCatalog(c) && Core(c, s) && Enabled(c, s, Run(t, choice)) && Env(c, s, Run(t, choice))
    requires !AtSection(s.threads[t].pc) && !AtTail(s.threads[t].pc) && !AtStart(s.threads[t].pc)
    ensures Core(c, RunOther(c, s, t, choice))
  {
    var f := s.threads[t].feature;
    var e := s.execs[f];
    match s.threads[t].pc
    case StartCheckSlot => CheckCore(c, s, t, if s.slot != "" then Done else StartCheckState);
    case StartCheckState => CheckCore(c, s, t, AfterStateCheck(c.defs[f], e));
    case StartContract => TextCore(c, s, t, e.(contract := choice.contract), StartMessage);
    case StartMessage => TextCore(c, s, t, StartedMessageSection(c.defs[f], e), Done);
    case WorkerReceive =>
      CheckCore(c, s, t, if choice.verdict.Good? then WorkerNetwork else WorkerFail(choice.verdict.message));
    case Count(_, _) => CountCore(c, s, t);
    case _ =>
  }

  /** Time passes or a request arrives: no execution, slot or existing thread changes. */
  lemma IdleCore(c: Catalog, s: State, s': State)
    requires ValidCatalog(c) && Core(c, s)
    requires s'.execs == s.execs && s'.slot == s.slot && s'.starter == s.starter && s'.finisher == s.finisher
    requires forall u :: u in s.threads ==> u in s'.threads && s'.threads[u] == s.threads[u]
    requires forall u {:trigger ThreadOk(c, s', s'.threads[u])} :: u in s'.threads && u !in s.threads ==>
      ThreadOk(c, s', s'.threads[u])
    ensures Core(c, s')
  {
    forall u | u in s'.threads ensures ThreadOk(c, s', s'.threads[u]) {
      if u in s.threads {
        assert ThreadOk(c, s, s.threads[u]);
        ThreadFrame(c, s, s', s.threads[u]);
      }
    }
    forall f | f in c.defs ensures ExecOk(c, s', f) { assert ExecOk(c, s, f); }
  }

  lemma ArriveCore(c: Catalog, s: State, t: Tid, request: Request)
    requires ValidCatalog(c) && Core(c, s) && t !in s.threads && (request.Summary? || request.feature in c.defs)
    ensures Core(c, s.(threads := s.threads[t := NewThread(c, request)]))
  {
    var s' := s.(threads := s.threads[t := NewThread(c, request)]);
    assert ThreadOk(c, s', NewThread(c, request));
    IdleCore(c, s, s');
  }

  lemma CoreStep(c: Catalog, s: State, a: Action)
    requires ValidCatalog(c) && Core(c, s) && Apart(s) && Enabled(c, s, a) && Env(c, s, a)
    ensures Core(c, Next(c, s, a))
  {
    match a
    case Tick(to) => IdleCore(c, s, s.(now := to));
    case Arrive(t, request) => ArriveCore(c, s, t, request);
    case Run(t, choice) =>
      if AtSection(s.threads[t].pc) {
        SectionCore(c, s, t, choice.later);
      } else if AtTail(s.threads[t].pc) {
        TailCore(c, s, t);
      } else if AtStart(s.threads[t].pc) {
        StartCore(c, s, t, choice);
      } else {
        OtherCore(c, s, t, choice);
      }
  }

  lemma ApartStep(c: Catalog, s: State, a: Action)
    requires Apart(s) && Enabled(c, s, a) && Env(c, s, a)
    ensures Apart(Next(c, s, a))
  {
    match a
    case Tick(_) =>
    case Arrive(_, _) =>
    case Run(t, choice) =>
      OthersStay(c, s, t, choice);
      var s' := RunThread(c, s, t, choice);
      if !InStart(s.threads[t]) && !Enters(c, s, t) {
        StaysOutside(c, s, t, choice);
      }
      ApartThreads(s, s', t, !InStart(s.threads[t]) && Enters(c, s, t));
  }

  lemma ApartThreads(s: State, s': State, t: Tid, entered: bool)
    requires Apart(s) && t in s.threads && t in s'.threads
    requires forall u :: u in s.threads && u != t ==> u in s'.threads && s'.threads[u] == s.threads[u]
    requires forall u :: u in s'.threads && u !in s.threads ==> s'.threads[u].pc.WorkerReceive?
    requires InStart(s'.threads[t]) ==> InStart(s.threads[t]) || entered
    requires entered ==> forall u :: u in s.threads && u != t ==> !InStart(s.threads[u])
    ensures Apart(s')
  {
  }

  lemma {:induction false} CoreAlways(c: Catalog, states: seq<State>, actions: seq<Action>, i: nat)
    requires ValidCatalog(c) && EnvRun(c, states, actions) && i < |states|
    ensures Core(c, states[i]) && Apart(states[i])
  {
    if i == 0 {
      forall f | f in c.defs ensures ExecOk(c, states[0], f) { }
    } else {
      CoreAlways(c, states, actions, i - 1);
      assert StepAt(c, states, actions, i - 1) && EnvAt(c, states, actions, i - 1);
      CoreStep(c, states[i - 1], actions[i - 1]);
      ApartStep(c, states[i - 1], actions[i - 1]);
    }
  }
}
