/**
  A thread that runs without interruption. The lock sections of a request handler, one after the
  other, do to the session what the handler does when it is read as one sequential routine.
 */
module Solo {
  import opened Bytes
  import opened Execution
  import opened Lifecycle
  import opened Runs
  import opened Worlds

  // ------------------------------------------------------------------------ running alone

  /** What a handler that runs alone meets: how many sockets it can still open, the number of the
      worker it may create, and the contract it builds. */
  datatype Oracle = Oracle(grants: nat, worker: Tid, contract: Bytes)

  function NextRank(next: Then): nat {
    match next
    case ThenTimeout(k) => NextRank(k) + 10
    case ThenStart => 30
    case ThenComplete(_) => 20
    case ThenUnsupported(_) => 20
    case ThenCount(_, _) => 0
    case ThenDone => 0
  }

  /** How far a handler is from its end; a worker, a summary at its next row, and a finished thread rank zero. */
  function Rank(pc: Pc): nat {
    match pc
    case TimeoutCheck(next) => NextRank(next) + 9
    case TakeFds(_, next) => NextRank(next) + 8
    case CloseFds(_, _, next) => NextRank(next) + 7
    case ClearSlot(next) => NextRank(next) + 6
    case StartCheckSlot => 29
    case StartCheckState => 28
    case StartOpen(_, _) => 27
    case StartActivate(_) => 26
    case StartAbort(_) => 25
    case StartSetFds(_) => 24
    case StartSetSlot => 23
    case StartSpawn => 22
    case StartContract => 21
    case StartMessage => 20
    case CompleteReport(_) => 19
    case UnsupportedReport(_) => 19
    case _ => 0
  }

  /** Progress within one rank. */
  function Left(pc: Pc): nat {
    match pc
    case StartOpen(_, left) => left
    case StartAbort(fds) => |fds|
    case CloseFds(fds, _, _) => |fds|
    case _ => 0
  }

  predicate Runnable(c: Catalog, s: State, t: Tid, o: Oracle) {
    && t in s.threads && s.threads[t].feature in c.defs && s.threads[t].feature in s.execs
    && (Rank(s.threads[t].pc) >= 22 ==> o.worker !in s.threads)
  }

  function Choose(s: State, t: Tid, o: Oracle): Choice
    requires t in s.threads
  {
    var pc := s.threads[t].pc;
    Choice(s.now, pc.StartOpen? && |pc.fds| < o.grants, o.worker, Good, o.contract)
  }

  /** One step of thread t on its own. */
  function Once(c: Catalog, s: State, t: Tid, o: Oracle): State
    requires Runnable(c, s, t, o) && Rank(s.threads[t].pc) > 0
  {
    RunThread(c, s, t, Choose(s, t, o))
  }

  lemma ResumeRank(next: Then)
    ensures Rank(Resume(next)) <= NextRank(next) + 5
  {
  }

  lemma OnceSection(c: Catalog, s: State, t: Tid, o: Oracle)
    requires Runnable(c, s, t, o) && AtSection(s.threads[t].pc) && Rank(s.threads[t].pc) > 0
    ensures Runnable(c, Once(c, s, t, o), t, o)
    ensures Once(c, s, t, o).threads[t].feature == s.threads[t].feature
    ensures Rank(Once(c, s, t, o).threads[t].pc) < Rank(s.threads[t].pc)
  {
    ResumeRank(SectionNext(s.threads[t].pc));
  }

  lemma OnceTail(c: Catalog, s: State, t: Tid, o: Oracle)
    requires Runnable(c, s, t, o) && AtTail(s.threads[t].pc)
    ensures var th, th' := s.threads[t], Once(c, s, t, o).threads[t];
      && Runnable(c, Once(c, s, t, o), t, o) && th'.feature == th.feature
      && (Rank(th'.pc) < Rank(th.pc) || (Rank(th'.pc) == Rank(th.pc) && Left(th'.pc) < Left(th.pc)))
  {
    match s.threads[t].pc
    case TakeFds(_, _) =>
    case CloseFds(_, _, next) => ResumeRank(next);
    case ClearSlot(next) => ResumeRank(next);
  }

  lemma OnceOpening(c: Catalog, s: State, t: Tid, o: Oracle)
    requires Runnable(c, s, t, o) && (s.threads[t].pc.StartOpen? || s.threads[t].pc.StartAbort?)
    ensures var th, th' := s.threads[t], Once(c, s, t, o).threads[t];
      && Runnable(c, Once(c, s, t, o), t, o) && th'.feature == th.feature
      && (Rank(th'.pc) < Rank(th.pc) || (Rank(th'.pc) == Rank(th.pc) && Left(th'.pc) < Left(th.pc)))
  {
    match s.threads[t].pc
    case StartOpen(_, _) =>
    case StartAbort(_) =>
  }

  lemma OnceStart(c: Catalog, s: State, t: Tid, o: Oracle)
    requires Runnable(c, s, t, o) && AtStart(s.threads[t].pc)
    requires !s.threads[t].pc.StartOpen? && !s.threads[t].pc.StartAbort?
    ensures Runnable(c, Once(c, s, t, o), t, o)
    ensures Once(c, s, t, o).threads[t].feature == s.threads[t].feature
    ensures Rank(Once(c, s, t, o).threads[t].pc) < Rank(s.threads[t].pc)
  {
    match s.threads[t].pc
    case StartActivate(_) =>
    case StartSetFds(_) =>
    case StartSetSlot =>
    case StartSpawn =>
  }

  lemma OnceOther(c: Catalog, s: State, t: Tid, o: Oracle)
    requires Runnable(c, s, t, o) && Rank(s.threads[t].pc) > 0
    requires !AtSection(s.threads[t].pc) && !AtTail(s.threads[t].pc) && !AtStart(s.threads[t].pc)
    ensures Runnable(c, Once(c, s, t, o), t, o)
    ensures Once(c, s, t, o).threads[t].feature == s.threads[t].feature
    ensures Rank(Once(c, s, t, o).threads[t].pc) < Rank(s.threads[t].pc)
  {
    match s.threads[t].pc
    case StartCheckSlot =>
    case StartCheckState =>
    case StartContract =>
    case StartMessage =>
  }

  lemma OnceDescends(c: Catalog, s: State, t: Tid, o: Oracle)
    requires Runnable(c, s, t, o) && Rank(s.threads[t].pc) > 0
    ensures var th, th' := s.threads[t], Once(c, s, t, o).threads[t];
      && Runnable(c, Once(c, s, t, o), t, o) && th'.feature == th.feature
      && (Rank(th'.pc) < Rank(th.pc) || (Rank(th'.pc) == Rank(th.pc) && Left(th'.pc) < Left(th.pc)))
  {
    if AtSection(s.threads[t].pc) {
      OnceSection(c, s, t, o);
    } else if AtTail(s.threads[t].pc) {
      OnceTail(c, s, t, o);
    } else if s.threads[t].pc.StartOpen? || s.threads[t].pc.StartAbort? {
      OnceOpening(c, s, t, o);
    } else if AtStart(s.threads[t].pc) {
      OnceStart(c, s, t, o);
    } else {
      OnceOther(c, s, t, o);
    }
  }

  /** Thread t runs alone until its rank is at most n. */
  function Alone(c: Catalog, s: State, t: Tid, o: Oracle, n: nat): State
    requires Runnable(c, s, t, o)
    decreases Rank(s.threads[t].pc), Left(s.threads[t].pc)
  {
    if Rank(s.threads[t].pc) <= n then s
    else
      OnceDescends(c, s, t, o);
      Alone(c, Once(c, s, t, o), t, o, n)
  }

  /** Running alone is a run of the step system. */
  lemma {:induction false} AloneReaches(c: Catalog, r: State, s: State, t: Tid, o: Oracle, n: nat)
    requires Runnable(c, s, t, o) && Reaches(c, r, s)
    ensures Reaches(c, r, Alone(c, s, t, o, n))
    decreases Rank(s.threads[t].pc), Left(s.threads[t].pc)
  {
    if Rank(s.threads[t].pc) > n {
      OnceDescends(c, s, t, o);
      Extend(c, r, s, Run(t, Choose(s, t, o)));
      AloneReaches(c, r, Once(c, s, t, o), t, o, n);
    }
  }

  // ------------------------------------------------------------------------ the finishing tail

  function TailLength(s: State, t: Tid): nat
    requires t in s.threads && s.threads[t].feature in s.execs
  {
    match s.threads[t].pc
    case TakeFds(_, _) => |s.execs[s.threads[t].feature].fds| + 3
    case CloseFds(fds, _, _) => |fds| + 2
    case ClearSlot(_) => 1
    case _ => 0
  }

  /** Thread t runs its finishing tail without interruption. */
  function Drain(s: State, t: Tid): State
    requires t in s.threads && s.threads[t].feature in s.execs
    decreases TailLength(s, t)
  {
    if AtTail(s.threads[t].pc) then Drain(RunTail(s, t), t) else s
  }

  lemma {:induction false} DrainClosing(s: State, t: Tid)
    requires t in s.threads && s.threads[t].feature in s.execs && s.threads[t].pc.CloseFds?
    ensures var th := s.threads[t];
      Drain(s, t) == s.(closed := s.closed + th.pc.fds,
                        slot := if th.pc.clear then ClearedSlot(s.slot, th.feature) else s.slot,
                        threads := s.threads[t := Thread(th.feature, Resume(th.pc.next))])
    decreases |s.threads[t].pc.fds|
  {
    var th := s.threads[t];
    var fds := th.pc.fds;
    var s1 := RunTail(s, t);
    if fds != [] {
      DrainClosing(s1, t);
      assert s.closed + [fds[0]] + fds[1..] == s.closed + fds;
      assert s1.threads[t := Thread(th.feature, Resume(th.pc.next))] ==
        s.threads[t := Thread(th.feature, Resume(th.pc.next))];
    } else {
      assert s.closed + fds == s.closed;
      if th.pc.clear {
        assert Drain(s1, t) == RunTail(s1, t);
        assert RunTail(s1, t).threads == s.threads[t := Thread(th.feature, Resume(th.pc.next))];
      }
    }
  }

  lemma DrainTaking(s: State, t: Tid)
    requires t in s.threads && s.threads[t].feature in s.execs && s.threads[t].pc.TakeFds?
    ensures var th := s.threads[t];
      var e := s.execs[th.feature];
      Drain(s, t) == s.(execs := s.execs[th.feature := e.(fds := [])],
                        closed := s.closed + e.fds,
                        slot := if th.pc.clear then ClearedSlot(s.slot, th.feature) else s.slot,
                        threads := s.threads[t := Thread(th.feature, Resume(th.pc.next))])
  {
    var th := s.threads[t];
    var s1 := RunTail(s, t);
    DrainClosing(s1, t);
    assert s1.threads[t := Thread(th.feature, Resume(th.pc.next))] ==
      s.threads[t := Thread(th.feature, Resume(th.pc.next))];
  }

  /** The uninterrupted tail of a thread that has just left a section is what the routines above do. */
  lemma DrainIsFinish(s: State, t: Tid, outcome: (Exec, Tail), next: Then)
    requires t in s.threads && s.threads[t].feature in s.execs
    ensures var f := s.threads[t].feature;
      var s' := Drain(Leave(s, t, outcome, next), t);
      && f in s'.execs && t in s'.threads && s'.threads[t] == Thread(f, Resume(next))
      && World(s'.execs[f], s'.slot, s'.closed) == Finish(World(s.execs[f], s.slot, s.closed), f, outcome)
  {
    match outcome.1
    case NoTail => assert !AtTail(Resume(next));
    case CloseOnly => DrainLeft(s, t, outcome, next);
    case CloseAndClear => DrainLeft(s, t, outcome, next);
  }

  lemma DrainLeft(s: State, t: Tid, outcome: (Exec, Tail), next: Then)
    requires t in s.threads && s.threads[t].feature in s.execs && outcome.1 != NoTail
    ensures var f := s.threads[t].feature;
      var s' := Drain(Leave(s, t, outcome, next), t);
      && f in s'.execs && t in s'.threads && s'.threads[t] == Thread(f, Resume(next))
      && s'.execs[f] == outcome.0.(fds := []) && s'.closed == s.closed + outcome.0.fds
      && s'.slot == if outcome.1 == CloseAndClear then ClearedSlot(s.slot, f) else s.slot
  {
    DrainTaking(Leave(s, t, outcome, next), t);
  }
}
