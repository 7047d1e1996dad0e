/**
  Runs that show what becomes of a session without the environment assumption. The checks and the
  effects of a start sit in separate lock sections, and each of these runs tears them apart.
 */
module Witnesses {
  import opened Execution
  import opened Lifecycle
  import opened Sockets
  import opened Invariant
  import opened Shapes
  import opened Guards
  import opened Conservation
  import opened Runs
  import opened Solo
  import opened Uninterrupted
  import opened Worlds
  import opened Necessity

  // ------------------------------------------------------------------------ bringing a start on its way

  predicate Startable(def: Definition) {
    def.kind == ReceiveMessagesMultiTarget ==> def.targets != 0
  }

  predicate Ready(c: Catalog, s: State, f: Id) {
    f in c.defs && f in s.execs && s.execs[f].state == Pending && s.slot == "" && Startable(c.defs[f])
  }

  /** A request of thread t that has changed nothing so far. */
  function With(s: State, t: Tid, f: Id, pc: Pc): State {
    s.(threads := s.threads[t := Thread(f, pc)])
  }

  /** A start of a pending feature can be brought past its checks. */
  lemma ReachStart(c: Catalog, r: State, s: State, t: Tid, f: Id)
    requires Reaches(c, r, s) && Ready(c, s, f) && t !in s.threads
    ensures Reaches(c, r, With(s, t, f, AfterStateCheck(c.defs[f], s.execs[f])))
    ensures AfterStateCheck(c.defs[f], s.execs[f]) ==
              if c.defs[f].kind == AgentOnly then StartActivate([]) else StartOpen([], SocketCount(c.defs[f]))
  {
    Extend(c, r, s, Arrive(t, Request.StartFeature(f)));
    QuietMove(c, r, s, t, f, TimeoutCheck(ThenTimeout(ThenStart)), TimeoutCheck(ThenStart));
    QuietMove(c, r, s, t, f, TimeoutCheck(ThenStart), StartCheckSlot);
    QuietMove(c, r, s, t, f, StartCheckSlot, StartCheckState);
    QuietMove(c, r, s, t, f, StartCheckState, AfterStateCheck(c.defs[f], s.execs[f]));
  }

  lemma QuietMove(c: Catalog, r: State, s: State, t: Tid, f: Id, pc: Pc, pc': Pc)
    requires Reaches(c, r, With(s, t, f, pc)) && Ready(c, s, f)
    requires
      || (pc.TimeoutCheck? && pc' == Resume(pc.next))
      || (pc == StartCheckSlot && pc' == StartCheckState)
      || (pc == StartCheckState && pc' == AfterStateCheck(c.defs[f], s.execs[f]))
    ensures Reaches(c, r, With(s, t, f, pc'))
  {
    var s1 := With(s, t, f, pc);
    Extend(c, r, s1, Run(t, Now(s1)));
    assert s1.execs[f := s1.execs[f]] == s1.execs;
    assert s1.threads[t := Thread(f, pc')] == s.threads[t := Thread(f, pc')];
    assert Next(c, s1, Run(t, Now(s1))) == With(s, t, f, pc');
  }

  /** From the initial state to a start of f that is about to activate it. */
  lemma ReachOne(c: Catalog, f: Id) returns (s: State)
    requires f in c.defs && Startable(c.defs[f])
    ensures Reaches(c, Init(c, 0), s) && s.execs == Init(c, 0).execs && s.slot == "" && s.now == 0
    ensures s.threads.Keys == {0} && s.threads[0].feature == f && s.threads[0].pc.StartActivate?
    ensures |s.threads[0].pc.fds| == SocketCount(c.defs[f])
  {
    var r := Init(c, 0);
    Start(c, r);
    ReachStart(c, r, r, 0, f);
    s := ReachActivate(c, r, With(r, 0, f, AfterStateCheck(c.defs[f], r.execs[f])), 0);
    assert s.threads.Keys == {0};
  }

  // ------------------------------------------------------------------------ two active features

  /** Two starts in their windows, both features active, the slot still empty. */
  lemma ReachBoth(c: Catalog, f: Id, g: Id) returns (s: State)
    requires f in c.defs && g in c.defs && f != g && Startable(c.defs[f]) && Startable(c.defs[g])
    ensures Reaches(c, Init(c, 0), s) && Known(c, s, 0) && Known(c, s, 1)
    ensures s.threads[0].feature == f && s.threads[1].feature == g && s.slot == ""
    ensures InWindow(s.threads[0]) && InWindow(s.threads[1])
    ensures s.execs[f].state == Active && s.execs[g].state == Active
  {
    var r := Init(c, 0);
    var s1 := ReachOne(c, f);
    ReachStart(c, r, s1, 1, g);
    var s2 := ReachActive(c, r, With(s1, 1, g, AfterStateCheck(c.defs[g], s1.execs[g])), 1);
    s := ReachActive(c, r, s2, 0);
  }

  /** Two overlapping starts make two features of one session active at the same time. */
  lemma OverlappingStartsBreakOneActive(c: Catalog, f: Id, g: Id)
    requires f in c.defs && g in c.defs && f != g && Startable(c.defs[f]) && Startable(c.defs[g])
    ensures exists s :: Reachable(c, s) && f in s.execs && g in s.execs &&
                        s.execs[f].state == Active && s.execs[g].state == Active
  {
    var s := ReachBoth(c, f, g);
    assert Reachable(c, s);
  }

  /** A start names its feature. */
  lemma ReachNamed(c: Catalog, r: State, s: State, u: Tid) returns (s': State)
    requires Reaches(c, r, s) && Known(c, s, u) && InWindow(s.threads[u])
    ensures Reaches(c, r, s') && s'.slot == s.threads[u].feature && s'.execs.Keys == s.execs.Keys
    ensures forall g :: g in s.execs ==> s'.execs[g].state == s.execs[g].state
    ensures forall v :: v in s.threads && v != u ==> v in s'.threads && s'.threads[v] == s.threads[v]
  {
    var s1 := ReachSetSlot(c, r, s, u);
    SetSlotMoves(c, s1, u);
    Extend(c, r, s1, Run(u, Now(s1)));
    s' := Next(c, s1, Run(u, Now(s1)));
  }

  /** Two overlapping starts of two features: the second takes the slot from the first, which is still active. */
  lemma OverlappingStartsTakeSlot(c: Catalog, f: Id, g: Id)
    requires f in c.defs && g in c.defs && f != g && f != "" && g != ""
    requires Startable(c.defs[f]) && Startable(c.defs[g])
    ensures exists s, a :: Reachable(c, s) && Enabled(c, s, a) && TakesSlot(s, Next(c, s, a)) &&
                           s.slot == f && f in s.execs && s.execs[f].state == Active
  {
    var s := ReachBoth(c, f, g);
    var s1 := ReachNamed(c, Init(c, 0), s, 0);
    var s2 := ReachSetSlot(c, Init(c, 0), s1, 1);
    SetSlotMoves(c, s2, 1);
    assert Reachable(c, s2) && TakesSlot(s2, Next(c, s2, Run(1, Now(s2))));
  }

  // ------------------------------------------------------------------------ a revived feature

  /** A client that reports a feature as unsupported while it is being started gets its answer, and then the
      activation makes the ended feature active again, to end a second time. */
  lemma ReportDuringStartIsUndone(c: Catalog, f: Id, report: Report)
    requires f in c.defs && Startable(c.defs[f])
    ensures exists s, s', s'' ::
      && Reachable(c, s) && Reaches(c, s, s') && Reaches(c, s', s'')
      && f in s.execs && s.execs[f].state == Unsupported
      && f in s'.execs && s'.execs[f].state == Active
      && f in s''.execs && s''.execs[f].state == TimedOut
  {
    var r := Init(c, 0);
    var s1 := ReachOne(c, f);
    var s := ReachUnsupported(c, r, s1, f, report);
    Start(c, s);
    var s' := ReachActive(c, s, s, 0);
    var s'' := EndAgain(c, s', f);
    assert Reachable(c, s);
  }

  /** Time passes until a reader finds f overdue. */
  lemma EndAgain(c: Catalog, s: State, f: Id) returns (s': State)
    requires f in c.defs && f in s.execs && s.execs[f].state == Active && s.now <= s.execs[f].deadlineAt
    ensures Reaches(c, s, s') && f in s'.execs && s'.execs[f].state == TimedOut
  {
    var deadline := s.execs[f].deadlineAt;
    Start(c, s);
    Extend(c, s, s, Tick(deadline));
    var v := Bound(s.threads.Keys);
    s' := ReachTimedOut(c, s, Next(c, s, Tick(deadline)), v, f);
  }

  lemma ReachUnsupported(c: Catalog, r: State, s: State, f: Id, report: Report) returns (s': State)
    requires Reaches(c, r, s) && f in c.defs && f in s.execs && s.execs[f].state == Pending && s.threads.Keys == {0}
    ensures Reaches(c, r, s') && f in s'.execs && s'.execs[f].state == Unsupported
    ensures 0 in s'.threads && s'.threads[0] == s.threads[0]
  {
    var request := Request.UnsupportedFeature(f, Parsed(report));
    Extend(c, r, s, Arrive(1, request));
    UnsupportedAlone(c, s, 1, f, Parsed(report), Oracle(0, 2, ""));
    var s1 := Next(c, s, Arrive(1, request));
    AloneReaches(c, r, s1, 1, Oracle(0, 2, ""), 0);
    s' := Alone(c, s1, 1, Oracle(0, 2, ""), 0);
    UnsupportedEnds(WorldOf(s, f), f, report, s.now);
    assert WorldOf(s', f).exec.state == Unsupported;
  }

  lemma UnsupportedEnds(w: World, f: Id, report: Report, now: Time)
    requires w.exec.state == Pending
    ensures UnsupportedWorld(TimedWorld(w, f, now), f, Parsed(report), now).exec.state == Unsupported
  {
  }

  /** Two overlapping starts of one feature: it passes on the client's report after the first, and the second makes
      it active again with the evidence recorded. */
  lemma OverlappingStartsVoidVerdict(c: Catalog, f: Id, report: Report)
    requires f in c.defs && Startable(c.defs[f]) && c.defs[f].mode == AgentReported && c.defs[f].timeout > 0
    requires Accepted(c.defs[f], report)
    ensures exists s :: Reachable(c, s) && f in s.execs && s.execs[f].state == Active && s.execs[f].agentComplete
  {
    var r := Init(c, 0);
    var s1 := ReachOne(c, f);
    ReachStart(c, r, s1, 1, f);
    var s2 := ReachActive(c, r, With(s1, 1, f, AfterStateCheck(c.defs[f], s1.execs[f])), 1);
    var s3 := ReachPassed(c, r, s2, f, report);
    var s4 := ReachActive(c, r, s3, 0);
    assert Reachable(c, s4);
  }

  lemma ReachPassed(c: Catalog, r: State, s: State, f: Id, report: Report) returns (s': State)
    requires Reaches(c, r, s) && f in c.defs && c.defs[f].mode == AgentReported && Accepted(c.defs[f], report)
    requires f in s.execs && s.execs[f].state == Active && s.now < s.execs[f].deadlineAt && s.threads.Keys == {0, 1}
    ensures Reaches(c, r, s') && f in s'.execs && s'.execs[f].state == Passed && s'.execs[f].agentComplete
    ensures 0 in s'.threads && s'.threads[0] == s.threads[0]
  {
    var request := Request.CompleteFeature(f, Parsed(report));
    Extend(c, r, s, Arrive(2, request));
    CompleteAlone(c, s, 2, f, Parsed(report), Oracle(0, 3, ""));
    var s1 := Next(c, s, Arrive(2, request));
    AloneReaches(c, r, s1, 2, Oracle(0, 3, ""), 0);
    s' := Alone(c, s1, 2, Oracle(0, 3, ""), 0);
    ReportPasses(c.defs[f], WorldOf(s, f), f, report, s.now);
    assert WorldOf(s', f).exec.state == Passed;
  }

  lemma ReportPasses(def: Definition, w: World, f: Id, report: Report, now: Time)
    requires def.mode == AgentReported && Accepted(def, report) && w.exec.state == Active && now < w.exec.deadlineAt
    ensures var e := CompletedWorld(def, TimedWorld(w, f, now), f, Parsed(report), now).exec;
      e.state == Passed && e.agentComplete
  {
  }

  // ------------------------------------------------------------------------ a lost slot

  /** A start in its window whose feature has ended in the meantime, and nobody owes anything. */
  ghost predicate Overtaken(c: Catalog, s: State, f: Id) {
    && f in c.defs && f in s.execs && s.execs[f].state == TimedOut && s.slot == ""
    && s.threads.Keys == {0, 1} && s.threads[1] == Thread(f, Done)
    && s.threads[0].feature == f && InWindow(s.threads[0])
    && WindowFds(c.defs[f], s.threads[0].pc, SocketCount(c.defs[f]))
  }

  /** A reader that finds f overdue and runs to its end before the start goes on. */
  lemma Overtake(c: Catalog, f: Id) returns (s: State)
    requires f in c.defs && Startable(c.defs[f])
    ensures Reaches(c, Init(c, 0), s) && Overtaken(c, s, f)
  {
    var r := Init(c, 0);
    var s0 := ReachOne(c, f);
    var s1 := ReachActive(c, r, s0, 0);
    var deadline := s1.execs[f].deadlineAt;
    Extend(c, r, s1, Tick(deadline));
    s := ReachRead(c, r, Next(c, s1, Tick(deadline)), 1, f);
  }

  /** A reader that has just found f overdue. */
  lemma FoundOverdue(c: Catalog, s: State, v: Tid, f: Id)
    requires v !in s.threads && f in c.defs && f in s.execs
    requires s.execs[f].state == Active && s.execs[f].deadlineAt <= s.now
    ensures var s1 := With(s, v, f, TimeoutCheck(ThenDone));
      && s1 == Next(c, s, Arrive(v, GetFeature(f))) && Enabled(c, s1, Run(v, Now(s1)))
      && var s2 := Next(c, s1, Run(v, Now(s1)));
        && f in s2.execs && s2.execs[f].state == TimedOut && s2.slot == s.slot
        && s2.threads == s.threads[v := Thread(f, TakeFds(true, ThenDone))]
  {
    var s1 := With(s, v, f, TimeoutCheck(ThenDone));
    LeaveShape(s1.(now := s1.now), v, TimeoutSection(s1.execs[f], s1.now, s1.now), ThenDone);
  }

  lemma ReachRead(c: Catalog, r: State, s: State, v: Tid, f: Id) returns (s': State)
    requires Reaches(c, r, s) && v !in s.threads && f in c.defs && f in s.execs
    requires s.execs[f].state == Active && s.execs[f].deadlineAt <= s.now && s.slot == ""
    ensures Reaches(c, r, s') && f in s'.execs && s'.execs[f].state == TimedOut && s'.slot == ""
    ensures s'.threads == s.threads[v := Thread(f, Done)]
  {
    FoundOverdue(c, s, v, f);
    Extend(c, r, s, Arrive(v, GetFeature(f)));
    var s1 := With(s, v, f, TimeoutCheck(ThenDone));
    Extend(c, r, s1, Run(v, Now(s1)));
    var s2 := Next(c, s1, Run(v, Now(s1)));
    s' := ReachDrained(c, r, s2, v);
    DrainTaking(s2, v);
    assert s'.threads == s.threads[v := Thread(f, Done)];
  }

  /** A deadline that falls inside the start window leaves the slot naming a timed-out feature for good: no
      thread is left that owes the clear. */
  lemma LateStartLosesSlot(c: Catalog, f: Id)
    requires f in c.defs && Startable(c.defs[f]) && f != ""
    ensures exists s :: Reachable(c, s) && Stuck(s, f) && s.execs[f].state == TimedOut
  {
    var r := Init(c, 0);
    var s := Overtake(c, f);
    var s1 := ReachSetSlot(c, r, s, 0);
    SetSlotMoves(c, s1, 0);
    Extend(c, r, s1, Run(0, Now(s1)));
    var s2 := Next(c, s1, Run(0, Now(s1)));
    SetSlotHarmless(c, s1, 0);
    assert forall t :: t in s2.threads ==> t == 0 || s2.threads[t] == Thread(f, Done);
    assert Stuck(s2, f);
    assert Reachable(c, s2);
  }

  lemma SetSlotHarmless(c: Catalog, s: State, u: Tid)
    requires Known(c, s, u) && s.threads[u].pc.StartSetSlot?
    ensures Enabled(c, s, Run(u, Now(s))) && u in Next(c, s, Run(u, Now(s))).threads
    ensures Harmless(Next(c, s, Run(u, Now(s))).threads[u], s.threads[u].feature)
  {
  }

  // ------------------------------------------------------------------------ lost sockets

  lemma ReachableUnique(c: Catalog, s: State)
    requires Reachable(c, s)
    ensures Unique(s)
  {
    var t0 :| Reaches(c, Init(c, t0), s);
    var states, actions :| Path(c, states, actions, Init(c, t0), s);
    UniqueAlways(c, states, actions, |actions|);
  }

  /** A second start of the same feature drops the sockets of the first. */
  lemma OverlappingStartsLoseSockets(c: Catalog, f: Id)
    requires f in c.defs && Startable(c.defs[f]) && c.defs[f].kind != AgentOnly
    ensures exists s, x {:trigger Astray(s, x)} :: Reachable(c, s) && Astray(s, x)
  {
    var r := Init(c, 0);
    var s1 := ReachOne(c, f);
    ReachStart(c, r, s1, 1, f);
    var s2 := ReachActive(c, r, With(s1, 1, f, AfterStateCheck(c.defs[f], s1.execs[f])), 1);
    var s3 := ReachActive(c, r, s2, 0);
    var x := s3.threads[0].pc.fds[0];
    SetFdsMoves(c, s3, 0);
    Extend(c, r, s3, Run(0, Now(s3)));
    var s4 := Next(c, s3, Run(0, Now(s3)));
    assert Reachable(c, s4);
    ReachableUnique(c, s4);
    StoringLoses(c, s4, 1, Now(s4), x);
    Extend(c, r, s4, Run(1, Now(s4)));
    assert Reachable(c, Next(c, s4, Run(1, Now(s4)))) && Astray(Next(c, s4, Run(1, Now(s4))), x);
  }

  /** An ended feature that holds sockets although no thread will take them any more. */
  ghost predicate Leaked(s: State, f: Id) {
    && f in s.execs && Terminal(s.execs[f].state) && Unique(s)
    && forall t :: t in s.threads && s.threads[t].feature == f ==> Aside(s.threads[t].pc)
  }

  predicate Aside(pc: Pc) {
    !pc.StartOpen? && !pc.StartActivate? && !pc.StartSetFds? && !pc.TakeFds?
  }

  /** A deadline that falls between the activation and the storing of the sockets: the start hands its listeners
      to a feature that has already been closed. */
  lemma LateStartLeaksSockets(c: Catalog, f: Id)
    requires f in c.defs && Startable(c.defs[f]) && c.defs[f].kind != AgentOnly
    ensures exists s :: Reachable(c, s) && Leaked(s, f) && s.execs[f].state == TimedOut && s.execs[f].fds != []
  {
    var r := Init(c, 0);
    var s := Overtake(c, f);
    SetFdsMoves(c, s, 0);
    Extend(c, r, s, Run(0, Now(s)));
    var s' := Next(c, s, Run(0, Now(s)));
    assert Reachable(c, s');
    ReachableUnique(c, s');
    assert Leaked(s', f);
  }

  lemma LeakedSection(c: Catalog, s: State, t: Tid, choice: Choice, f: Id)
    requires Leaked(s, f) && Enabled(c, s, Run(t, choice)) && AtSection(s.threads[t].pc)
    ensures var s' := RunThread(c, s, t, choice);
      && f in s'.execs && Terminal(s'.execs[f].state) && s'.execs[f].fds == s.execs[f].fds
      && t in s'.threads && s'.threads[t].feature == s.threads[t].feature
      && (s.threads[t].feature == f ==> Aside(s'.threads[t].pc))
  {
    var th := s.threads[t];
    OutcomeShape(c.defs[th.feature], s.execs[th.feature], th.pc, s.now, choice.later);
    LeaveShape(if th.pc.TimeoutCheck? then s.(now := choice.later) else s, t,
               Outcome(c.defs[th.feature], s.execs[th.feature], th.pc, s.now, choice.later), SectionNext(th.pc));
  }

  lemma LeakedTail(s: State, t: Tid, f: Id)
    requires t in s.threads && s.threads[t].feature in s.execs && AtTail(s.threads[t].pc) && f in s.execs
    requires s.threads[t].feature == f ==> Aside(s.threads[t].pc)
    ensures var s' := RunTail(s, t);
      && f in s'.execs && s'.execs[f].state == s.execs[f].state && s'.execs[f].fds == s.execs[f].fds
      && t in s'.threads && s'.threads[t].feature == s.threads[t].feature
      && (s.threads[t].feature == f ==> Aside(s'.threads[t].pc))
  {
    match s.threads[t].pc
    case TakeFds(_, _) =>
    case CloseFds(_, _, _) =>
    case ClearSlot(_) =>
  }

  lemma LeakedStart(c: Catalog, s: State, t: Tid, choice: Choice, f: Id)
    requires Enabled(c, s, Run(t, choice)) && AtStart(s.threads[t].pc) && f in s.execs
    requires s.threads[t].feature == f ==> Aside(s.threads[t].pc)
    ensures var s' := RunStart(c, s, t, choice);
      && f in s'.execs && s'.execs[f].state == s.execs[f].state && s'.execs[f].fds == s.execs[f].fds
      && t in s'.threads && s'.threads[t].feature == s.threads[t].feature
      && (s.threads[t].feature == f ==> Aside(s'.threads[t].pc))
  {
    match s.threads[t].pc
    case StartOpen(_, _) =>
    case StartAbort(_) =>
    case StartActivate(_) =>
    case StartSetFds(_) =>
    case StartSetSlot =>
    case StartSpawn =>
  }

  lemma LeakedOther(c: Catalog, s: State, t: Tid, choice: Choice, f: Id)
    requires Enabled(c, s, Run(t, choice)) && f in s.execs && Terminal(s.execs[f].state)
    requires !AtSection(s.threads[t].pc) && !AtTail(s.threads[t].pc) && !AtStart(s.threads[t].pc)
    ensures var s' := RunOther(c, s, t, choice);
      && f in s'.execs && s'.execs[f].state == s.execs[f].state && s'.execs[f].fds == s.execs[f].fds
      && t in s'.threads && (s'.threads[t].feature == f ==> Aside(s'.threads[t].pc))
  {
    match s.threads[t].pc
    case StartCheckSlot =>
    case StartCheckState =>
    case StartContract =>
    case StartMessage =>
    case WorkerReceive =>
    case Count(_, _) =>
    case _ =>
  }

  lemma LeakedMoves(c: Catalog, s: State, t: Tid, choice: Choice, f: Id)
    requires Leaked(s, f) && Enabled(c, s, Run(t, choice))
    ensures var s' := RunThread(c, s, t, choice);
      && f in s'.execs && Terminal(s'.execs[f].state) && s'.execs[f].fds == s.execs[f].fds
      && t in s'.threads && (s'.threads[t].feature == f ==> Aside(s'.threads[t].pc))
  {
    if AtSection(s.threads[t].pc) {
      LeakedSection(c, s, t, choice, f);
    } else if AtTail(s.threads[t].pc) {
      LeakedTail(s, t, f);
    } else if AtStart(s.threads[t].pc) {
      LeakedStart(c, s, t, choice, f);
    } else {
      LeakedOther(c, s, t, choice, f);
    }
  }

  /** Leaked sockets stay open in any interleaving: the ended feature keeps them, and none is ever closed. */
  lemma LeakedForever(c: Catalog, s: State, a: Action, f: Id)
    requires Leaked(s, f) && Enabled(c, s, a)
    ensures Leaked(Next(c, s, a), f) && Next(c, s, a).execs[f].fds == s.execs[f].fds
    ensures forall x :: x in s.execs[f].fds ==> x !in Next(c, s, a).closed
  {
    UniqueStep(c, s, a);
    if a.Run? {
      LeakedMoves(c, s, a.t, a.choice, f);
      OthersStay(c, s, a.t, a.choice);
    }
    var s' := Next(c, s, a);
    forall x | x in s.execs[f].fds ensures x !in s'.closed {
      assert x in Held(s', InExec(f));
      assert Held(s', InLog) == s'.closed;
    }
  }

  // ------------------------------------------------------------------------ the lost slot stays lost

  /** The slot names a terminal feature and nobody owes the clear, nor has passed the slot check. */
  ghost predicate Stuck(s: State, f: Id) {
    && f != "" && s.slot == f && f in s.execs && Terminal(s.execs[f].state)
    && forall t :: t in s.threads ==> Harmless(s.threads[t], f)
  }

  predicate Harmless(th: Thread, f: Id) {
    !InStart(th) && !th.pc.StartCheckState? && (th.feature == f ==> !OwesClearPc(th.pc)) && PlainNext(NextOf(th.pc))
  }

  lemma StuckSection(c: Catalog, s: State, t: Tid, choice: Choice, f: Id)
    requires Stuck(s, f) && Enabled(c, s, Run(t, choice)) && AtSection(s.threads[t].pc)
    ensures Stuck(RunThread(c, s, t, choice), f)
  {
    var th := s.threads[t];
    var s1 := if th.pc.TimeoutCheck? then s.(now := choice.later) else s;
    var outcome := Outcome(c.defs[th.feature], s.execs[th.feature], th.pc, s.now, choice.later);
    OutcomeShape(c.defs[th.feature], s.execs[th.feature], th.pc, s.now, choice.later);
    assert Harmless(th, f);
    StuckLeave(s, s1, t, outcome, SectionNext(th.pc), f);
  }

  lemma StuckLeave(s: State, s1: State, t: Tid, outcome: (Exec, Tail), next: Then, f: Id)
    requires Stuck(s, f) && t in s.threads && s.threads[t].feature in s.execs && PlainNext(next)
    requires s1.threads == s.threads && s1.execs == s.execs && s1.slot == s.slot
    requires s.threads[t].feature == f ==> outcome.1 != CloseAndClear && Terminal(outcome.0.state)
    ensures Stuck(Leave(s1, t, outcome, next), f)
  {
    LeaveShape(s1, t, outcome, next);
    assert Harmless(Leave(s1, t, outcome, next).threads[t], f);
  }

  lemma StuckTail(s: State, t: Tid, f: Id)
    requires Stuck(s, f) && t in s.threads && s.threads[t].feature in s.execs && AtTail(s.threads[t].pc)
    ensures Stuck(RunTail(s, t), f)
  {
    assert Harmless(s.threads[t], f);
    TailShape(s, t);
    TailHarmless(s, t, f);
    TailStuckExec(s, t, f);
  }

  lemma TailHarmless(s: State, t: Tid, f: Id)
    requires t in s.threads && s.threads[t].feature in s.execs && AtTail(s.threads[t].pc) && Harmless(s.threads[t], f)
    ensures t in RunTail(s, t).threads && Harmless(RunTail(s, t).threads[t], f)
  {
    match s.threads[t].pc
    case TakeFds(_, _) =>
    case CloseFds(_, _, _) =>
    case ClearSlot(_) =>
  }

  lemma TailStuckExec(s: State, t: Tid, f: Id)
    requires t in s.threads && s.threads[t].feature in s.execs && AtTail(s.threads[t].pc) && Harmless(s.threads[t], f)
    requires f in s.execs && s.slot == f
    ensures f in RunTail(s, t).execs && RunTail(s, t).execs[f].state == s.execs[f].state && RunTail(s, t).slot == f
  {
    match s.threads[t].pc
    case TakeFds(_, _) =>
    case CloseFds(_, _, _) =>
    case ClearSlot(_) =>
  }

  lemma StuckStart(c: Catalog, s: State, t: Tid, choice: Choice, f: Id)
    requires Stuck(s, f) && Enabled(c, s, Run(t, choice)) && AtStart(s.threads[t].pc)
    ensures Stuck(RunStart(c, s, t, choice), f)
  {
    assert Harmless(s.threads[t], f);
    StartShape(c, s, t, choice);
    assert Harmless(RunStart(c, s, t, choice).threads[t], f);
  }

  lemma OtherHarmless(c: Catalog, s: State, t: Tid, choice: Choice, f: Id)
    requires Enabled(c, s, Run(t, choice)) && s.slot != "" && Harmless(s.threads[t], f)
    requires !AtSection(s.threads[t].pc) && !AtTail(s.threads[t].pc) && !AtStart(s.threads[t].pc)
    ensures t in RunOther(c, s, t, choice).threads && Harmless(RunOther(c, s, t, choice).threads[t], f)
  {
    match s.threads[t].pc
    case StartCheckSlot =>
    case StartContract =>
    case StartMessage =>
    case WorkerReceive =>
    case Count(_, _) =>
    case _ =>
  }

  lemma StuckOther(c: Catalog, s: State, t: Tid, choice: Choice, f: Id)
    requires Stuck(s, f) && Enabled(c, s, Run(t, choice))
    requires !AtSection(s.threads[t].pc) && !AtTail(s.threads[t].pc) && !AtStart(s.threads[t].pc)
    ensures Stuck(RunOther(c, s, t, choice), f)
  {
    OtherHarmless(c, s, t, choice, f);
    OtherShape(c, s, t, choice);
    OtherStuckExec(c, s, t, choice, f);
  }

  lemma OtherStuckExec(c: Catalog, s: State, t: Tid, choice: Choice, f: Id)
    requires Enabled(c, s, Run(t, choice)) && f in s.execs && Terminal(s.execs[f].state)
    requires !AtSection(s.threads[t].pc) && !AtTail(s.threads[t].pc) && !AtStart(s.threads[t].pc)
    ensures RunOther(c, s, t, choice).slot == s.slot
    ensures f in RunOther(c, s, t, choice).execs && RunOther(c, s, t, choice).execs[f].state == s.execs[f].state
  {
    OtherEffect(c, s, t, choice);
  }

  /** A lost slot is never cleared again, in any interleaving: every later start of the session is refused. */
  lemma StuckForever(c: Catalog, s: State, a: Action, f: Id)
    requires Stuck(s, f) && Enabled(c, s, a)
    ensures Stuck(Next(c, s, a), f)
  {
    match a
    case Tick(_) =>
    case Arrive(t, request) => assert Harmless(NewThread(c, request), f);
    case Run(t, choice) =>
      if AtSection(s.threads[t].pc) {
        StuckSection(c, s, t, choice, f);
      } else if AtTail(s.threads[t].pc) {
        StuckTail(s, t, f);
      } else if AtStart(s.threads[t].pc) {
        StuckStart(c, s, t, choice, f);
      } else {
        StuckOther(c, s, t, choice, f);
      }
  }
}
