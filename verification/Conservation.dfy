/**
  Where the listening sockets are, in every run whatsoever. No socket is lost exactly when no start
  stores its sockets over others; none stays with an ended feature exactly when no start stores its
  sockets there too late.
 */
module Conservation {
  import opened Execution
  import opened Lifecycle
  import opened Sockets
  import opened Invariant
  import opened Shapes
  import opened Guards

  /** Socket x is at place p, and p belongs to the feature x was opened for. */
  predicate At(s: State, p: Place, x: Fd) {
    && x in s.owner
    && x in Held(s, p)
    && match p
       case InExec(f) => s.owner[x] == f
       case InThread(t) => t in s.threads && s.owner[x] == s.threads[t].feature
       case InLog => true
  }

  ghost predicate Located(s: State, x: Fd) {
    exists p :: At(s, p, x)
  }

  ghost predicate Conserved(s: State) {
    forall x: Fd {:trigger Located(s, x)} :: x < s.nextFd ==> Located(s, x)
  }

  // ------------------------------------------------------------------------ starts without listeners

  /** Starts of features without listeners carry no sockets. */
  ghost predicate Bare(c: Catalog, s: State) {
    forall t :: t in s.threads ==> BareThread(c, s.threads[t])
  }

  predicate BareThread(c: Catalog, th: Thread) {
    th.feature in c.defs && c.defs[th.feature].kind == AgentOnly ==>
      !th.pc.StartOpen? && (th.pc.StartActivate? ==> th.pc.fds == [])
  }

  lemma BareRun(c: Catalog, s: State, t: Tid, choice: Choice)
    requires Enabled(c, s, Run(t, choice)) && BareThread(c, s.threads[t])
    ensures t in RunThread(c, s, t, choice).threads && BareThread(c, RunThread(c, s, t, choice).threads[t])
  {
    if s.threads[t].pc.StartOpen? {
      StartShape(c, s, t, choice);
    } else if Enters(c, s, t) {
      assert RunThread(c, s, t, choice).threads[t].pc == AfterStateCheck(c.defs[s.threads[t].feature],
                                                                       s.execs[s.threads[t].feature]);
    } else if InStart(s.threads[t]) {
      StartShape(c, s, t, choice);
    } else {
      StaysOutside(c, s, t, choice);
    }
  }

  lemma BareStep(c: Catalog, s: State, a: Action)
    requires Bare(c, s) && Enabled(c, s, a)
    ensures Bare(c, Next(c, s, a))
  {
    if a.Run? {
      OthersStay(c, s, a.t, a.choice);
      BareRun(c, s, a.t, a.choice);
    }
  }

  // ------------------------------------------------------------------------ sockets stay somewhere

  /** Steps that leave every socket where it is. */
  lemma StaysLocated(s: State, s': State, t: Tid, x: Fd)
    requires Located(s, x) && t in s.threads && s.threads[t].feature in s.execs && t in s'.threads
    requires s'.owner == s.owner && s'.closed == s.closed
    requires s.threads[t].feature in s'.execs
    requires s'.execs == s.execs[s.threads[t].feature := s'.execs[s.threads[t].feature]]
    requires s'.execs[s.threads[t].feature].fds == s.execs[s.threads[t].feature].fds
    requires s'.threads == s.threads[t := s'.threads[t]]
    requires PcFds(s.threads[t].pc) == [] ||
      (PcFds(s.threads[t].pc) == PcFds(s'.threads[t].pc) && s'.threads[t].feature == s.threads[t].feature)
    ensures Located(s', x)
  {
    var p :| At(s, p, x);
    assert At(s', p, x);
  }

  lemma TailLocated(c: Catalog, s: State, t: Tid, x: Fd)
    requires t in s.threads && s.threads[t].feature in s.execs && AtTail(s.threads[t].pc) && Located(s, x)
    ensures Located(RunTail(s, t), x)
  {
    var s' := RunTail(s, t);
    var f := s.threads[t].feature;
    var p :| At(s, p, x);
    match s.threads[t].pc
    case TakeFds(_, _) => assert At(s', if p == InExec(f) then InThread(t) else p, x);
    case CloseFds(fds, _, _) =>
      if p == InThread(t) {
        assert At(s', if x == fds[0] then InLog else p, x);
      } else {
        assert At(s', p, x);
      }
    case ClearSlot(_) => assert At(s', p, x);
  }

  lemma AbortLocated(c: Catalog, s: State, t: Tid, choice: Choice, x: Fd)
    requires Enabled(c, s, Run(t, choice)) && s.threads[t].pc.StartAbort? && Located(s, x)
    ensures Located(RunStart(c, s, t, choice), x)
  {
    var fds := s.threads[t].pc.fds;
    var p :| At(s, p, x);
    assert At(RunStart(c, s, t, choice), if p == InThread(t) && x == fds[0] then InLog else p, x);
  }

  /** When the sockets a start hands over find the feature empty, nothing is overwritten. */
  lemma SetFdsLocated(c: Catalog, s: State, t: Tid, choice: Choice, x: Fd)
    requires Enabled(c, s, Run(t, choice)) && s.threads[t].pc.StartSetFds? && Located(s, x)
    requires s.execs[s.threads[t].feature].fds == []
    ensures Located(RunStart(c, s, t, choice), x)
  {
    var f := s.threads[t].feature;
    var p :| At(s, p, x);
    assert At(RunStart(c, s, t, choice), if p == InThread(t) then InExec(f) else p, x);
  }

  lemma OpenLocated(c: Catalog, s: State, t: Tid, choice: Choice, x: Fd)
    requires Enabled(c, s, Run(t, choice)) && s.threads[t].pc.StartOpen? && Located(s, x) && x < s.nextFd
    ensures Located(RunStart(c, s, t, choice), x)
  {
    match s.threads[t].pc
    case StartOpen(fds, left) =>
      var s' := RunStart(c, s, t, choice);
      var p :| At(s, p, x);
      if p == InThread(t) {
        assert x in fds && x in PcFds(s'.threads[t].pc);
      }
      assert At(s', p, x);
  }

  lemma PlainStartLocated(c: Catalog, s: State, t: Tid, choice: Choice, x: Fd)
    requires Enabled(c, s, Run(t, choice)) && BareThread(c, s.threads[t]) && Located(s, x)
    requires s.threads[t].pc.StartActivate? || s.threads[t].pc.StartSetSlot? || s.threads[t].pc.StartSpawn?
    ensures Located(RunStart(c, s, t, choice), x)
  {
    var p :| At(s, p, x);
    assert At(RunStart(c, s, t, choice), p, x);
  }

  lemma StartLocated(c: Catalog, s: State, t: Tid, choice: Choice, x: Fd)
    requires Enabled(c, s, Run(t, choice)) && AtStart(s.threads[t].pc) && BareThread(c, s.threads[t])
    requires !StoresOver(s, Run(t, choice)) && Located(s, x) && x < s.nextFd
    ensures Located(RunStart(c, s, t, choice), x)
  {
    match s.threads[t].pc
    case StartOpen(_, _) => OpenLocated(c, s, t, choice, x);
    case StartAbort(_) => AbortLocated(c, s, t, choice, x);
    case StartSetFds(_) => SetFdsLocated(c, s, t, choice, x);
    case _ => PlainStartLocated(c, s, t, choice, x);
  }

  lemma LeaveHistory(s: State, t: Tid, outcome: (Exec, Tail), next: Then)
    requires t in s.threads
    ensures Leave(s, t, outcome, next).owner == s.owner && Leave(s, t, outcome, next).closed == s.closed
    ensures Leave(s, t, outcome, next).nextFd == s.nextFd
  {
  }

  lemma SectionLocated(c: Catalog, s: State, t: Tid, choice: Choice, x: Fd)
    requires Enabled(c, s, Run(t, choice)) && AtSection(s.threads[t].pc) && Located(s, x)
    ensures Located(RunThread(c, s, t, choice), x)
  {
    var th := s.threads[t];
    var outcome := Outcome(c.defs[th.feature], s.execs[th.feature], th.pc, s.now, choice.later);
    OutcomeKeepsFds(c.defs[th.feature], s.execs[th.feature], th.pc, s.now, choice.later);
    var s1 := if th.pc.TimeoutCheck? then s.(now := choice.later) else s;
    LeaveShape(s1, t, outcome, SectionNext(th.pc));
    LeaveHistory(s1, t, outcome, SectionNext(th.pc));
    StaysLocated(s, Leave(s1, t, outcome, SectionNext(th.pc)), t, x);
  }

  lemma OtherLocated(c: Catalog, s: State, t: Tid, choice: Choice, x: Fd)
    requires Enabled(c, s, Run(t, choice)) && Located(s, x)
    requires !AtSection(s.threads[t].pc) && !AtTail(s.threads[t].pc) && !AtStart(s.threads[t].pc)
    ensures Located(RunOther(c, s, t, choice), x)
  {
    OtherShape(c, s, t, choice);
    OtherEffect(c, s, t, choice);
    OtherHistory(c, s, t, choice);
    StaysLocated(s, RunOther(c, s, t, choice), t, x);
  }

  lemma OtherHistory(c: Catalog, s: State, t: Tid, choice: Choice)
    requires Enabled(c, s, Run(t, choice))
    requires !AtSection(s.threads[t].pc) && !AtTail(s.threads[t].pc) && !AtStart(s.threads[t].pc)
    ensures var s' := RunOther(c, s, t, choice);
      s'.owner == s.owner && s'.closed == s.closed && s'.nextFd == s.nextFd
  {
    match s.threads[t].pc
    case StartCheckSlot =>
    case StartCheckState =>
    case StartContract =>
    case StartMessage =>
    case WorkerReceive =>
    case Count(_, _) =>
    case _ =>
  }

  lemma OpenedLocated(c: Catalog, s: State, t: Tid, choice: Choice)
    requires Enabled(c, s, Run(t, choice)) && AtStart(s.threads[t].pc)
    ensures s.nextFd <= RunStart(c, s, t, choice).nextFd <= s.nextFd + 1
    ensures RunStart(c, s, t, choice).nextFd == s.nextFd + 1 ==> Located(RunStart(c, s, t, choice), s.nextFd)
  {
    var s' := RunStart(c, s, t, choice);
    if s'.nextFd == s.nextFd + 1 {
      assert At(s', InThread(t), s.nextFd);
    }
  }

  /** Only a start opens sockets. */
  lemma OpensOnlyInStart(c: Catalog, s: State, t: Tid, choice: Choice)
    requires Enabled(c, s, Run(t, choice)) && !AtStart(s.threads[t].pc)
    ensures RunThread(c, s, t, choice).nextFd == s.nextFd
  {
    var th := s.threads[t];
    if AtSection(th.pc) {
      LeaveHistory(if th.pc.TimeoutCheck? then s.(now := choice.later) else s, t,
                   Outcome(c.defs[th.feature], s.execs[th.feature], th.pc, s.now, choice.later), SectionNext(th.pc));
    } else if !AtTail(th.pc) {
      OtherHistory(c, s, t, choice);
    }
  }

  lemma LocatedRun(c: Catalog, s: State, t: Tid, choice: Choice, x: Fd)
    requires Bare(c, s) && Conserved(s) && Enabled(c, s, Run(t, choice)) && !StoresOver(s, Run(t, choice))
    requires x < RunThread(c, s, t, choice).nextFd
    ensures Located(RunThread(c, s, t, choice), x)
  {
    if AtStart(s.threads[t].pc) {
      OpenedLocated(c, s, t, choice);
      if x < s.nextFd {
        assert Located(s, x);
        StartLocated(c, s, t, choice, x);
      }
    } else {
      OpensOnlyInStart(c, s, t, choice);
      assert Located(s, x);
      if AtSection(s.threads[t].pc) {
        SectionLocated(c, s, t, choice, x);
      } else if AtTail(s.threads[t].pc) {
        TailLocated(c, s, t, x);
      } else {
        OtherLocated(c, s, t, choice, x);
      }
    }
  }

  /** No step but one that stores over held sockets loses a socket. */
  lemma ConservedStep(c: Catalog, s: State, a: Action)
    requires Bare(c, s) && Conserved(s) && Enabled(c, s, a) && !StoresOver(s, a)
    ensures Conserved(Next(c, s, a))
  {
    var s' := Next(c, s, a);
    forall x: Fd | x < s'.nextFd ensures Located(s', x) {
      if a.Run? {
        LocatedRun(c, s, a.t, a.choice, x);
      } else {
        assert Located(s, x);
        var p :| At(s, p, x);
        assert At(s', p, x);
      }
    }
  }

  // ------------------------------------------------------------------------ lost sockets

  /** An open socket that nobody knows any more. */
  ghost predicate Astray(s: State, x: Fd) {
    x < s.nextFd && forall p :: x !in Held(s, p)
  }

  /** Storing over held sockets loses each of them. */
  lemma StoringLoses(c: Catalog, s: State, t: Tid, choice: Choice, x: Fd)
    requires Unique(s) && Enabled(c, s, Run(t, choice)) && s.threads[t].pc.StartSetFds?
    requires x in s.execs[s.threads[t].feature].fds
    ensures Astray(RunThread(c, s, t, choice), x)
  {
    var f := s.threads[t].feature;
    var s' := RunThread(c, s, t, choice);
    assert x in Held(s, InExec(f));
    forall p ensures x !in Held(s', p) {
      if p == InExec(f) {
        assert Held(s', p) == Held(s, InThread(t));
      } else if p != InThread(t) {
        assert Held(s', p) == Held(s, p);
      }
    }
  }

  /** What a thread holds after its step it held before, or took from its feature, or has just opened. */
  lemma HeldByThread(c: Catalog, s: State, t: Tid, choice: Choice, x: Fd)
    requires Enabled(c, s, Run(t, choice)) && x < s.nextFd
    requires x !in PcFds(s.threads[t].pc) && x !in s.execs[s.threads[t].feature].fds && x !in s.closed
    ensures var s' := RunThread(c, s, t, choice);
      t in s'.threads && x !in PcFds(s'.threads[t].pc) && x !in s'.closed && s.nextFd <= s'.nextFd
  {
    var th := s.threads[t];
    if AtSection(th.pc) {
      var s1 := if th.pc.TimeoutCheck? then s.(now := choice.later) else s;
      var outcome := Outcome(c.defs[th.feature], s.execs[th.feature], th.pc, s.now, choice.later);
      LeaveShape(s1, t, outcome, SectionNext(th.pc));
      LeaveHistory(s1, t, outcome, SectionNext(th.pc));
    } else if AtTail(th.pc) {
      HeldByTail(s, t, x);
    } else if AtStart(th.pc) {
      HeldByStart(c, s, t, choice, x);
    } else {
      HeldByOther(c, s, t, choice);
      OtherHistory(c, s, t, choice);
    }
  }

  lemma HeldByTail(s: State, t: Tid, x: Fd)
    requires t in s.threads && s.threads[t].feature in s.execs && AtTail(s.threads[t].pc)
    requires x !in PcFds(s.threads[t].pc) && x !in s.execs[s.threads[t].feature].fds && x !in s.closed
    ensures var s' := RunTail(s, t);
      t in s'.threads && x !in PcFds(s'.threads[t].pc) && x !in s'.closed && s.nextFd == s'.nextFd
  {
    match s.threads[t].pc
    case TakeFds(_, _) =>
    case CloseFds(_, _, _) =>
    case ClearSlot(_) =>
  }

  lemma HeldByStart(c: Catalog, s: State, t: Tid, choice: Choice, x: Fd)
    requires Enabled(c, s, Run(t, choice)) && AtStart(s.threads[t].pc) && x < s.nextFd
    requires x !in PcFds(s.threads[t].pc) && x !in s.closed
    ensures var s' := RunStart(c, s, t, choice);
      t in s'.threads && x !in PcFds(s'.threads[t].pc) && x !in s'.closed && s.nextFd <= s'.nextFd
  {
    match s.threads[t].pc
    case StartOpen(_, _) =>
    case StartAbort(_) =>
    case StartActivate(_) =>
    case StartSetFds(_) =>
    case StartSetSlot =>
    case StartSpawn =>
  }

  lemma HeldByOther(c: Catalog, s: State, t: Tid, choice: Choice)
    requires Enabled(c, s, Run(t, choice))
    requires !AtSection(s.threads[t].pc) && !AtTail(s.threads[t].pc) && !AtStart(s.threads[t].pc)
    ensures t in RunOther(c, s, t, choice).threads && PcFds(RunOther(c, s, t, choice).threads[t].pc) == []
  {
    match s.threads[t].pc
    case StartCheckSlot =>
    case StartCheckState =>
    case StartContract =>
    case StartMessage =>
    case WorkerReceive =>
    case Count(_, _) =>
    case _ =>
  }

  lemma StoredAfter(def: Definition, e: Exec, pc: Pc, now: Time, choice: Choice, x: Fd)
    requires x !in e.fds && x !in PcFds(pc)
    ensures x !in ExecAfter(def, e, pc, now, choice).fds
  {
    if AtSection(pc) {
      OutcomeKeepsFds(def, e, pc, now, choice.later);
    }
  }

  /** A lost socket stays lost. */
  lemma AstrayStep(c: Catalog, s: State, a: Action, x: Fd)
    requires Astray(s, x) && Enabled(c, s, a)
    ensures Astray(Next(c, s, a), x)
  {
    var s' := Next(c, s, a);
    if a.Run? {
      var th := s.threads[a.t];
      assert x !in Held(s, InThread(a.t)) && x !in Held(s, InExec(th.feature)) && x !in Held(s, InLog);
      RunEffect(c, s, a.t, a.choice);
      OthersStay(c, s, a.t, a.choice);
      HeldByThread(c, s, a.t, a.choice, x);
      StoredAfter(c.defs[th.feature], s.execs[th.feature], th.pc, s.now, a.choice, x);
    }
    forall p ensures x !in Held(s', p) {
      assert x !in Held(s, p);
    }
  }

  // ------------------------------------------------------------------------ the exact condition

  lemma {:induction false} BareAlways(c: Catalog, states: seq<State>, actions: seq<Action>, n: nat)
    requires ValidRun(c, states, actions) && n < |states|
    ensures Bare(c, states[n])
  {
    if n > 0 {
      BareAlways(c, states, actions, n - 1);
      assert StepAt(c, states, actions, n - 1);
      BareStep(c, states[n - 1], actions[n - 1]);
    }
  }

  lemma {:induction false} ConservedTo(c: Catalog, states: seq<State>, actions: seq<Action>, n: nat)
    requires ValidRun(c, states, actions) && n < |states|
    requires forall k :: 0 <= k < n ==> !StoresOver(states[k], actions[k])
    ensures Conserved(states[n])
  {
    if n > 0 {
      ConservedTo(c, states, actions, n - 1);
      BareAlways(c, states, actions, n - 1);
      assert StepAt(c, states, actions, n - 1);
      ConservedStep(c, states[n - 1], actions[n - 1]);
    }
  }

  lemma {:induction false} AstrayFrom(c: Catalog, states: seq<State>, actions: seq<Action>, k: nat, n: nat, x: Fd)
    requires ValidRun(c, states, actions) && k <= n < |states| && Astray(states[k], x)
    ensures Astray(states[n], x)
    decreases n
  {
    if k < n {
      AstrayFrom(c, states, actions, k, n - 1, x);
      assert StepAt(c, states, actions, n - 1);
      AstrayStep(c, states[n - 1], actions[n - 1], x);
    }
  }

  lemma LostFrom(c: Catalog, states: seq<State>, actions: seq<Action>, k: nat, n: nat)
    requires ValidRun(c, states, actions) && k < n < |states| && StoresOver(states[k], actions[k])
    ensures !Conserved(states[n])
  {
    var s, t := states[k], actions[k].t;
    var x := s.execs[s.threads[t].feature].fds[0];
    UniqueAlways(c, states, actions, k);
    assert StepAt(c, states, actions, k);
    StoringLoses(c, s, t, actions[k].choice, x);
    AstrayFrom(c, states, actions, k + 1, n, x);
    assert !Located(states[n], x);
  }

  /** In every run and at every moment of it: all sockets opened so far are held by their feature, in transit in a
      thread of it, or closed, if and only if no start has stored its sockets over others. */
  lemma ConservedIff(c: Catalog, states: seq<State>, actions: seq<Action>, n: nat)
    requires ValidRun(c, states, actions) && n < |states|
    ensures Conserved(states[n]) <==> forall k :: 0 <= k < n ==> !StoresOver(states[k], actions[k])
  {
    if forall k :: 0 <= k < n ==> !StoresOver(states[k], actions[k]) {
      ConservedTo(c, states, actions, n);
    } else {
      var k :| 0 <= k < n && StoresOver(states[k], actions[k]);
      LostFrom(c, states, actions, k, n);
    }
  }

  /** While no start has stored over others, opened sockets are exactly those held, in transit or closed, and each
      sits in exactly one place. */
  lemma SocketConservation(c: Catalog, states: seq<State>, actions: seq<Action>, i: nat, x: Fd)
    requires ValidRun(c, states, actions) && i < |states|
    requires forall k :: 0 <= k < i ==> !StoresOver(states[k], actions[k])
    ensures x < states[i].nextFd <==> exists p :: x in Held(states[i], p)
    ensures x < states[i].nextFd ==> exists p :: At(states[i], p, x) && forall q :: x in Held(states[i], q) ==> q == p
  {
    ConservedTo(c, states, actions, i);
    UniqueAlways(c, states, actions, i);
    if x < states[i].nextFd {
      assert Located(states[i], x);
      var p :| At(states[i], p, x);
      assert x in Held(states[i], p);
    }
  }

  // ------------------------------------------------------------------------ one start of a feature at a time

  /** No two starts of one feature are past their state checks together. */
  ghost predicate Single(s: State) {
    forall t, u :: t in s.threads && u in s.threads && t != u && s.threads[t].feature == s.threads[u].feature ==>
      !(InStart(s.threads[t]) && InStart(s.threads[u]))
  }

  /** A start that still holds its sockets. */
  predicate Loaded(pc: Pc) {
    pc.StartOpen? || pc.StartActivate? || pc.StartSetFds?
  }

  /** A feature holds no sockets before it is active, nor while a start has still to store some. */
  ghost predicate Unstocked(s: State) {
    && (forall f :: f in s.execs && s.execs[f].state == Pending ==> s.execs[f].fds == [])
    && (forall t :: t in s.threads && s.threads[t].feature in s.execs ==> UnstockedBy(s, s.threads[t]))
  }

  predicate UnstockedBy(s: State, th: Thread)
    requires th.feature in s.execs
  {
    && (InWindow(th) ==> s.execs[th.feature].state != Pending)
    && (Loaded(th.pc) ==> s.execs[th.feature].fds == [])
  }

  lemma UnstockedAfter(def: Definition, e: Exec, pc: Pc, now: Time, choice: Choice)
    ensures var e' := ExecAfter(def, e, pc, now, choice);
      && (e'.state == Pending ==> e.state == Pending)
      && (e'.fds == e.fds || e'.fds == [] || pc.StartSetFds?)
      && (pc.StartActivate? ==> e'.state == Active && e'.fds == e.fds)
  {
    if AtSection(pc) {
      OutcomeKeepsFds(def, e, pc, now, choice.later);
      OutcomeStarted(def, e, pc, now, choice.later);
    }
  }

  lemma OutcomeStarted(def: Definition, e: Exec, pc: Pc, now: Time, later: Time)
    requires AtSection(pc)
    ensures Outcome(def, e, pc, now, later).0.state == Pending ==> e.state == Pending
  {
  }

  /** How a start moves on between its state check and the storing of its sockets. */
  lemma LoadedMoves(c: Catalog, s: State, t: Tid, choice: Choice)
    requires Enabled(c, s, Run(t, choice))
    ensures var th, s' := s.threads[t], RunThread(c, s, t, choice);
      && t in s'.threads
      && (InStart(s'.threads[t]) ==> s'.threads[t].feature == th.feature)
      && (Loaded(s'.threads[t].pc) ==> Enters(c, s, t) || (Loaded(th.pc) && !th.pc.StartSetFds?))
      && (InWindow(s'.threads[t]) ==> th.pc.StartActivate? || InWindow(th))
  {
    var th := s.threads[t];
    if InStart(th) {
      StartShape(c, s, t, choice);
    } else {
      WindowOnlyFromStart(c, s, t, choice);
      if Enters(c, s, t) {
        OtherShape(c, s, t, choice);
      } else {
        StaysOutside(c, s, t, choice);
      }
    }
  }

  lemma UnstockedRun(c: Catalog, s: State, t: Tid, choice: Choice)
    requires Unstocked(s) && Single(s) && Enabled(c, s, Run(t, choice))
    ensures Unstocked(RunThread(c, s, t, choice))
  {
    var th, s' := s.threads[t], RunThread(c, s, t, choice);
    RunEffect(c, s, t, choice);
    OthersStay(c, s, t, choice);
    LoadedMoves(c, s, t, choice);
    UnstockedAfter(c.defs[th.feature], s.execs[th.feature], th.pc, s.now, choice);
    assert UnstockedBy(s, th);
    forall u | u in s'.threads && s'.threads[u].feature in s'.execs ensures UnstockedBy(s', s'.threads[u]) {
      if u in s.threads && u != t {
        assert UnstockedBy(s, s.threads[u]);
      }
    }
  }

  lemma UnstockedStep(c: Catalog, s: State, a: Action)
    requires Unstocked(s) && Single(s) && Enabled(c, s, a)
    ensures Unstocked(Next(c, s, a))
  {
    match a
    case Tick(_) =>
      forall u | u in s.threads && s.threads[u].feature in s.execs
        ensures UnstockedBy(Next(c, s, a), s.threads[u])
      {
        assert UnstockedBy(s, s.threads[u]);
      }
    case Arrive(t, request) =>
      var s' := Next(c, s, a);
      forall u | u in s'.threads && s'.threads[u].feature in s'.execs ensures UnstockedBy(s', s'.threads[u]) {
        if u in s.threads {
          assert UnstockedBy(s, s.threads[u]);
        }
      }
    case Run(t, choice) => UnstockedRun(c, s, t, choice);
  }

  lemma {:induction false} UnstockedTo(c: Catalog, states: seq<State>, actions: seq<Action>, n: nat)
    requires ValidRun(c, states, actions) && n < |states|
    requires forall k :: 0 <= k < n ==> Single(states[k])
    ensures Unstocked(states[n])
  {
    if n > 0 {
      UnstockedTo(c, states, actions, n - 1);
      assert StepAt(c, states, actions, n - 1);
      UnstockedStep(c, states[n - 1], actions[n - 1]);
    }
  }

  /** When no two starts of one feature are past their state checks together, no start stores over others, whatever
      else overlaps. */
  lemma SingleStartsNeverStoreOver(c: Catalog, states: seq<State>, actions: seq<Action>, i: nat)
    requires ValidRun(c, states, actions) && i < |actions|
    requires forall k :: 0 <= k < i ==> Single(states[k])
    ensures !StoresOver(states[i], actions[i])
  {
    UnstockedTo(c, states, actions, i);
  }

  // ------------------------------------------------------------------------ leaked sockets

  /** A feature that holds sockets is active, or a thread of it is about to take them. */
  ghost predicate Guarded(s: State) {
    forall f :: f in s.execs && s.execs[f].fds != [] ==> s.execs[f].state == Active || Taking(s, f)
  }

  lemma StillTaking(c: Catalog, s: State, t: Tid, choice: Choice, f: Id)
    requires Enabled(c, s, Run(t, choice)) && Taking(s, f)
    requires !(s.threads[t].pc.TakeFds? && s.threads[t].feature == f)
    ensures Taking(RunThread(c, s, t, choice), f)
  {
    OthersStay(c, s, t, choice);
    var u :| u in s.threads && s.threads[u].feature == f && s.threads[u].pc.TakeFds?;
    assert RunThread(c, s, t, choice).threads[u] == s.threads[u];
  }

  /** A section that ends an active feature goes on to take its sockets. */
  lemma EndsTaking(c: Catalog, s: State, t: Tid, choice: Choice)
    requires Enabled(c, s, Run(t, choice)) && s.execs[s.threads[t].feature].state == Active
    ensures var f, s' := s.threads[t].feature, RunThread(c, s, t, choice);
      f in s'.execs && (s'.execs[f].state == Active || Taking(s', f))
  {
    var th := s.threads[t];
    RunEffect(c, s, t, choice);
    if AtSection(th.pc) {
      OutcomeShape(c.defs[th.feature], s.execs[th.feature], th.pc, s.now, choice.later);
      OutcomeEnds(c.defs[th.feature], s.execs[th.feature], th.pc, s.now, choice.later);
      LeaveShape(if th.pc.TimeoutCheck? then s.(now := choice.later) else s, t,
                 Outcome(c.defs[th.feature], s.execs[th.feature], th.pc, s.now, choice.later), SectionNext(th.pc));
    }
  }

  /** After a late store nobody is about to take the sockets. */
  lemma LateStays(c: Catalog, s: State, t: Tid, choice: Choice)
    requires Enabled(c, s, Run(t, choice)) && StoresLate(s, Run(t, choice))
    ensures var f, s' := s.threads[t].feature, RunThread(c, s, t, choice);
      f in s'.execs && s'.execs[f].fds != [] && s'.execs[f].state != Active && !Taking(s', f)
  {
    var f, s' := s.threads[t].feature, RunThread(c, s, t, choice);
    RunEffect(c, s, t, choice);
    OthersStay(c, s, t, choice);
    assert s'.threads[t].pc == StartSetSlot;
  }

  lemma GuardedRun(c: Catalog, s: State, t: Tid, choice: Choice)
    requires Guarded(s) && Enabled(c, s, Run(t, choice)) && !StoresLate(s, Run(t, choice))
    ensures Guarded(RunThread(c, s, t, choice))
  {
    var th, s' := s.threads[t], RunThread(c, s, t, choice);
    RunEffect(c, s, t, choice);
    UnstockedAfter(c.defs[th.feature], s.execs[th.feature], th.pc, s.now, choice);
    forall f | f in s'.execs && s'.execs[f].fds != [] ensures s'.execs[f].state == Active || Taking(s', f) {
      if f == th.feature && s.execs[f].state == Active {
        EndsTaking(c, s, t, choice);
      } else if s.execs[f].state != Active && Taking(s, f) && !(th.pc.TakeFds? && th.feature == f) {
        StillTaking(c, s, t, choice, f);
      }
    }
  }

  lemma GuardedStep(c: Catalog, s: State, a: Action)
    requires Guarded(s) && Enabled(c, s, a)
    ensures Guarded(Next(c, s, a)) <==> !StoresLate(s, a)
  {
    match a
    case Tick(_) => assert forall f :: Taking(s, f) ==> Taking(Next(c, s, a), f);
    case Arrive(t, request) =>
      forall f | Taking(s, f) ensures Taking(Next(c, s, a), f) {
        var u :| u in s.threads && s.threads[u].feature == f && s.threads[u].pc.TakeFds?;
        assert Next(c, s, a).threads[u] == s.threads[u];
      }
    case Run(t, choice) =>
      if StoresLate(s, a) {
        LateStays(c, s, t, choice);
      } else {
        GuardedRun(c, s, t, choice);
      }
  }

  lemma {:induction false} GuardedTo(c: Catalog, states: seq<State>, actions: seq<Action>, n: nat)
    requires ValidRun(c, states, actions) && n < |states|
    requires forall k :: 0 <= k < n ==> !StoresLate(states[k], actions[k])
    ensures Guarded(states[n])
  {
    if n > 0 {
      GuardedTo(c, states, actions, n - 1);
      assert StepAt(c, states, actions, n - 1);
      GuardedStep(c, states[n - 1], actions[n - 1]);
    }
  }

  /** Throughout a run only active features, and those whose sockets are about to be taken, hold sockets, if and
      only if no start stores sockets in a feature that is not active and that nobody will empty. */
  lemma GuardedIff(c: Catalog, states: seq<State>, actions: seq<Action>)
    requires ValidRun(c, states, actions)
    ensures (forall i :: 0 <= i < |states| ==> Guarded(states[i]))
       <==> (forall i :: 0 <= i < |actions| ==> !StoresLate(states[i], actions[i]))
  {
    if forall i :: 0 <= i < |actions| ==> !StoresLate(states[i], actions[i]) {
      forall n | 0 <= n < |states| ensures Guarded(states[n]) {
        GuardedTo(c, states, actions, n);
      }
    }
    if forall i :: 0 <= i < |states| ==> Guarded(states[i]) {
      forall i | 0 <= i < |actions| ensures !StoresLate(states[i], actions[i]) {
        assert StepAt(c, states, actions, i);
        assert Guarded(states[i]) && Guarded(states[i + 1]);
        GuardedStep(c, states[i], actions[i]);
      }
    }
  }

  // ------------------------------------------------------------------------ settled features

  /** No thread still works on the sockets or the slot of f. */
  ghost predicate Settled(s: State, f: Id) {
    forall t :: t in s.threads && s.threads[t].feature == f ==>
      !AtTail(s.threads[t].pc) && !AtStart(s.threads[t].pc)
  }

  /** A feature that is not active and has no thread left at work on its sockets: all of them are closed, unless a
      start has stored over others or too late. This covers the ended features and those whose start failed part
      way. */
  lemma SettledReleases(c: Catalog, states: seq<State>, actions: seq<Action>, i: nat, f: Id)
    requires ValidRun(c, states, actions) && i < |states|
    requires forall k :: 0 <= k < i ==> !StoresOver(states[k], actions[k]) && !StoresLate(states[k], actions[k])
    requires f in states[i].execs && states[i].execs[f].state != Active && Settled(states[i], f)
    ensures forall x :: x in states[i].owner && states[i].owner[x] == f && x < states[i].nextFd ==>
      x in states[i].closed
  {
    var s := states[i];
    ConservedTo(c, states, actions, i);
    GuardedTo(c, states, actions, i);
    assert s.execs[f].fds == [];
    forall x | x in s.owner && s.owner[x] == f && x < s.nextFd ensures x in s.closed {
      assert Located(s, x);
      var p :| At(s, p, x);
    }
  }

  /** And the slot does not name it, unless a start has named a feature too late. */
  lemma SettledFreesSlot(c: Catalog, states: seq<State>, actions: seq<Action>, i: nat, f: Id)
    requires ValidCatalog(c) && ValidRun(c, states, actions) && i < |states| && f in c.defs
    requires forall k :: 0 <= k < i ==> !NamesLate(states[k], actions[k])
    requires f in states[i].execs && states[i].execs[f].state != Active && Settled(states[i], f)
    ensures states[i].slot != f
  {
    SlotKeptTo(c, states, actions, i);
  }
}
