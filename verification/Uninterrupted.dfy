/**
  Whole requests served without interruption: the lock sections of a start, a completion or an
  unsupported request, run one after the other, do what the sequential routines do.
 */
module Uninterrupted {
  import opened Bytes
  import opened Execution
  import opened Lifecycle
  import opened Solo
  import opened Worlds

  /** What the routines see of a session when they work on feature f. */
  function WorldOf(s: State, f: Id): World
    requires f in s.execs
  {
    World(s.execs[f], s.slot, s.closed)
  }

  /** Outside of thread t and feature f nothing has changed. */
  ghost predicate Rest(s: State, s': State, t: Tid, f: Id) {
    && s'.now == s.now && s'.execs.Keys == s.execs.Keys
    && (forall g :: g in s.execs && g != f ==> s'.execs[g] == s.execs[g])
    && (forall u :: u in s.threads && u != t ==> u in s'.threads && s'.threads[u] == s.threads[u])
  }

  lemma RestTrans(a: State, b: State, d: State, t: Tid, f: Id)
    requires Rest(a, b, t, f) && Rest(b, d, t, f)
    ensures Rest(a, d, t, f)
  {
  }

  // ------------------------------------------------------------------------ the finishing tail

  function TailNext(pc: Pc): Then {
    match pc
    case TakeFds(_, next) => next
    case CloseFds(_, _, next) => next
    case ClearSlot(next) => next
    case _ => ThenDone
  }

  lemma {:induction false} AloneDrains(c: Catalog, s: State, t: Tid, o: Oracle, n: nat)
    requires Runnable(c, s, t, o) && AtTail(s.threads[t].pc) && n <= NextRank(TailNext(s.threads[t].pc)) + 5
    ensures Runnable(c, Drain(s, t), t, o) && Alone(c, s, t, o, n) == Alone(c, Drain(s, t), t, o, n)
    decreases Rank(s.threads[t].pc), Left(s.threads[t].pc)
  {
    var s1 := RunTail(s, t);
    OnceDescends(c, s, t, o);
    assert Once(c, s, t, o) == s1;
    if AtTail(s1.threads[t].pc) {
      TailKeepsNext(s, t);
      AloneDrains(c, s1, t, o, n);
    }
  }

  lemma TailKeepsNext(s: State, t: Tid)
    requires t in s.threads && s.threads[t].feature in s.execs && AtTail(s.threads[t].pc)
    requires t in RunTail(s, t).threads && AtTail(RunTail(s, t).threads[t].pc)
    ensures TailNext(RunTail(s, t).threads[t].pc) == TailNext(s.threads[t].pc)
  {
    match s.threads[t].pc
    case TakeFds(_, _) =>
    case CloseFds(_, _, _) =>
    case ClearSlot(_) =>
  }

  lemma LeaveRest(s: State, t: Tid, outcome: (Exec, Tail), next: Then)
    requires t in s.threads && s.threads[t].feature in s.execs
    ensures var f, s' := s.threads[t].feature, Leave(s, t, outcome, next);
      && Rest(s, s', t, f) && s'.nextFd == s.nextFd && t in s'.threads && s'.threads[t].feature == f
      && s'.threads == s.threads[t := s'.threads[t]]
      && s'.threads[t].pc == match outcome.1
                             case NoTail => Resume(next)
                             case CloseOnly => TakeFds(false, next)
                             case CloseAndClear => TakeFds(true, next)
  {
  }

  lemma DrainRest(s: State, t: Tid)
    requires t in s.threads && s.threads[t].feature in s.execs && s.threads[t].pc.TakeFds?
    ensures Rest(s, Drain(s, t), t, s.threads[t].feature) && Drain(s, t).nextFd == s.nextFd
  {
    DrainTaking(s, t);
  }

  /** A section and its tail, run alone. */
  lemma AloneSection(c: Catalog, s: State, t: Tid, o: Oracle, n: nat) returns (s': State)
    requires Runnable(c, s, t, o) && AtSection(s.threads[t].pc)
    requires !s.threads[t].pc.WorkerFail? && !s.threads[t].pc.WorkerNetwork?
    requires n <= NextRank(SectionNext(s.threads[t].pc)) + 5
    ensures Runnable(c, s', t, o) && Alone(c, s, t, o, n) == Alone(c, s', t, o, n)
    ensures var f := s.threads[t].feature;
      && Rest(s, s', t, f) && s'.nextFd == s.nextFd
      && s'.threads[t] == Thread(f, Resume(SectionNext(s.threads[t].pc)))
      && WorldOf(s', f) == Finish(WorldOf(s, f), f, Outcome(c.defs[f], s.execs[f], s.threads[t].pc, s.now, s.now))
  {
    var th := s.threads[t];
    OnceDescends(c, s, t, o);
    SectionOnce(c, s, t, o);
    var outcome := Outcome(c.defs[th.feature], s.execs[th.feature], th.pc, s.now, s.now);
    s' := AloneLeaves(c, s, t, o, n, outcome, SectionNext(th.pc));
  }

  /** What a section has left behind, run alone. */
  lemma AloneLeaves(c: Catalog, s: State, t: Tid, o: Oracle, n: nat, outcome: (Exec, Tail), next: Then)
    returns (s': State)
    requires t in s.threads && s.threads[t].feature in s.execs && n <= NextRank(next) + 5
    requires Runnable(c, Leave(s, t, outcome, next), t, o)
    ensures Runnable(c, s', t, o) && Alone(c, Leave(s, t, outcome, next), t, o, n) == Alone(c, s', t, o, n)
    ensures var f := s.threads[t].feature;
      && Rest(s, s', t, f) && s'.nextFd == s.nextFd && s'.threads[t] == Thread(f, Resume(next))
      && WorldOf(s', f) == Finish(WorldOf(s, f), f, outcome)
  {
    var s1 := Leave(s, t, outcome, next);
    LeaveRest(s, t, outcome, next);
    DrainIsFinish(s, t, outcome, next);
    s' := s1;
    if outcome.1 == NoTail {
      NotAtTail(next);
    } else {
      DrainRest(s1, t);
      RestTrans(s, s1, Drain(s1, t), t, s.threads[t].feature);
      AloneDrains(c, s1, t, o, n);
      s' := Drain(s1, t);
    }
  }

  lemma SectionOnce(c: Catalog, s: State, t: Tid, o: Oracle)
    requires Runnable(c, s, t, o) && AtSection(s.threads[t].pc) && Rank(s.threads[t].pc) > 0
    ensures var th := s.threads[t];
      Once(c, s, t, o) ==
        Leave(s, t, Outcome(c.defs[th.feature], s.execs[th.feature], th.pc, s.now, s.now), SectionNext(th.pc))
  {
    assert s.(now := s.now) == s;
  }

  lemma NotAtTail(next: Then)
    ensures !AtTail(Resume(next))
  {
  }

  /** The two timeout checks before a handler act once at most. */
  lemma TimeoutTwice(w: World, id: Id, now: Time)
    ensures var w1 := Finish(w, id, TimeoutSection(w.exec, now, now));
      Finish(w1, id, TimeoutSection(w1.exec, now, now)) == w1
  {
  }

  lemma AloneTimeouts(c: Catalog, s: State, t: Tid, o: Oracle, next: Then, n: nat) returns (s': State)
    requires Runnable(c, s, t, o) && s.threads[t].pc == TimeoutCheck(ThenTimeout(next)) && n <= NextRank(next) + 5
    ensures Runnable(c, s', t, o) && Alone(c, s, t, o, n) == Alone(c, s', t, o, n)
    ensures var f := s.threads[t].feature;
      && Rest(s, s', t, f) && s'.nextFd == s.nextFd && s'.threads[t] == Thread(f, Resume(next))
      && WorldOf(s', f) == Finish(WorldOf(s, f), f, TimeoutSection(s.execs[f], s.now, s.now))
  {
    var f := s.threads[t].feature;
    var s1 := AloneSection(c, s, t, o, n);
    s' := AloneSection(c, s1, t, o, n);
    RestTrans(s, s1, s', t, f);
    TimeoutTwice(WorldOf(s, f), f, s.now);
  }

  // ------------------------------------------------------------------------ reports

  lemma Arrives(c: Catalog, s: State, t: Tid, request: Request, o: Oracle)
    requires Enabled(c, s, Arrive(t, request)) && !request.Summary? && request.feature in s.execs
    requires o.worker !in s.threads && o.worker != t
    ensures var s0 := Next(c, s, Arrive(t, request));
      Runnable(c, s0, t, o) && Rest(s, s0, t, request.feature) && s0.nextFd == s.nextFd
      && WorldOf(s0, request.feature) == WorldOf(s, request.feature)
      && s0.threads[t].feature == request.feature
  {
  }

  function ReportedWorld(def: Definition, w: World, id: Id, next: Then, now: Time): World {
    match next
    case ThenComplete(body) => CompletedWorld(def, w, id, body, now)
    case ThenUnsupported(body) => UnsupportedWorld(w, id, body, now)
    case _ => w
  }

  lemma AloneReport(c: Catalog, s: State, t: Tid, o: Oracle, next: Then)
    requires Runnable(c, s, t, o) && s.threads[t].pc == Resume(next) && (next.ThenComplete? || next.ThenUnsupported?)
    ensures var f, s' := s.threads[t].feature, Alone(c, s, t, o, 0);
      && Rest(s, s', t, f) && t in s'.threads && s'.threads[t] == Thread(f, Done)
      && WorldOf(s', f) == ReportedWorld(c.defs[f], WorldOf(s, f), f, next, s.now)
  {
    var f := s.threads[t].feature;
    var s' := AloneSection(c, s, t, o, 0);
    ReportedOutcome(c.defs[f], WorldOf(s, f), f, next, s.now);
    DoneAlone(c, s', t, o);
  }

  lemma DoneAlone(c: Catalog, s: State, t: Tid, o: Oracle)
    requires Runnable(c, s, t, o) && s.threads[t].pc.Done?
    ensures Alone(c, s, t, o, 0) == s
  {
  }

  lemma ReportedOutcome(def: Definition, w: World, id: Id, next: Then, now: Time)
    requires next.ThenComplete? || next.ThenUnsupported?
    ensures AtSection(Resume(next)) && SectionNext(Resume(next)) == ThenDone
    ensures Finish(w, id, Outcome(def, w.exec, Resume(next), now, now)) == ReportedWorld(def, w, id, next, now)
  {
    assert w.(exec := w.exec) == w;
  }

  lemma AloneChecked(c: Catalog, s: State, t: Tid, o: Oracle, next: Then)
    requires Runnable(c, s, t, o) && s.threads[t].pc == TimeoutCheck(ThenTimeout(next))
    requires next.ThenComplete? || next.ThenUnsupported?
    ensures var f, s' := s.threads[t].feature, Alone(c, s, t, o, 0);
      && Rest(s, s', t, f) && t in s'.threads && s'.threads[t] == Thread(f, Done)
      && WorldOf(s', f) == ReportedWorld(c.defs[f], TimedWorld(WorldOf(s, f), f, s.now), f, next, s.now)
  {
    var s1 := AloneTimeouts(c, s, t, o, next, 0);
    AloneReport(c, s1, t, o, next);
    RestTrans(s, s1, Alone(c, s1, t, o, 0), t, s.threads[t].feature);
  }

  /** A client report served alone has exactly the effect of the sequential routine. */
  lemma CompleteAlone(c: Catalog, s: State, t: Tid, f: Id, body: Body, o: Oracle)
    requires Enabled(c, s, Arrive(t, Request.CompleteFeature(f, body))) && f in s.execs
    requires o.worker !in s.threads && o.worker != t
    ensures var s0 := Next(c, s, Arrive(t, Request.CompleteFeature(f, body)));
      Runnable(c, s0, t, o) &&
      var s' := Alone(c, s0, t, o, 0);
      && Rest(s, s', t, f) && t in s'.threads && s'.threads[t] == Thread(f, Done)
      && WorldOf(s', f) == CompletedWorld(c.defs[f], TimedWorld(WorldOf(s, f), f, s.now), f, body, s.now)
  {
    Arrives(c, s, t, Request.CompleteFeature(f, body), o);
    var s0 := Next(c, s, Arrive(t, Request.CompleteFeature(f, body)));
    AloneChecked(c, s0, t, o, ThenComplete(body));
    RestTrans(s, s0, Alone(c, s0, t, o, 0), t, f);
  }

  /** An unsupported request served alone has exactly the effect of the sequential routine. */
  lemma UnsupportedAlone(c: Catalog, s: State, t: Tid, f: Id, body: Body, o: Oracle)
    requires Enabled(c, s, Arrive(t, Request.UnsupportedFeature(f, body))) && f in s.execs
    requires o.worker !in s.threads && o.worker != t
    ensures var s0 := Next(c, s, Arrive(t, Request.UnsupportedFeature(f, body)));
      Runnable(c, s0, t, o) &&
      var s' := Alone(c, s0, t, o, 0);
      && Rest(s, s', t, f) && t in s'.threads && s'.threads[t] == Thread(f, Done)
      && WorldOf(s', f) == UnsupportedWorld(TimedWorld(WorldOf(s, f), f, s.now), f, body, s.now)
  {
    Arrives(c, s, t, Request.UnsupportedFeature(f, body), o);
    var s0 := Next(c, s, Arrive(t, Request.UnsupportedFeature(f, body)));
    AloneChecked(c, s0, t, o, ThenUnsupported(body));
    RestTrans(s, s0, Alone(c, s0, t, o, 0), t, f);
  }

  // ------------------------------------------------------------------------ starts

  /** The next n socket tokens. */
  function Fresh(base: Fd, n: nat): (fds: seq<Fd>)
    ensures |fds| == n && forall i :: 0 <= i < n ==> fds[i] == base + i
  {
    seq(n, i => base + i)
  }

  /** Opening listeners: all of them, or as many as the system grants and then the way out. */
  lemma {:induction false} AloneOpens(c: Catalog, s: State, t: Tid, o: Oracle, n: nat, base: Fd) returns (s': State)
    requires Runnable(c, s, t, o) && s.threads[t].pc.StartOpen? && n < 25
    requires s.threads[t].pc.fds == Fresh(base, |s.threads[t].pc.fds|) && s.nextFd == base + |s.threads[t].pc.fds|
    requires |s.threads[t].pc.fds| <= o.grants
    ensures Runnable(c, s', t, o) && Alone(c, s, t, o, n) == Alone(c, s', t, o, n)
    ensures var f, pc := s.threads[t].feature, s.threads[t].pc;
      var all := |pc.fds| + pc.left;
      && Rest(s, s', t, f) && WorldOf(s', f) == WorldOf(s, f)
      && s'.threads[t] == Thread(f, if all <= o.grants then StartActivate(Fresh(base, all))
        else StartAbort(Fresh(base, o.grants)))
    decreases s.threads[t].pc.left
  {
    var f, pc := s.threads[t].feature, s.threads[t].pc;
    OnceDescends(c, s, t, o);
    s' := Once(c, s, t, o);
    if pc.left != 0 && |pc.fds| < o.grants {
      OpensOne(c, s, t, o, base);
      var s1 := s';
      s' := AloneOpens(c, s1, t, o, n, base);
      RestTrans(s, s1, s', t, f);
    } else {
      OpensNone(c, s, t, o);
    }
  }

  lemma OpensNone(c: Catalog, s: State, t: Tid, o: Oracle)
    requires Runnable(c, s, t, o) && s.threads[t].pc.StartOpen?
    requires s.threads[t].pc.left == 0 || |s.threads[t].pc.fds| >= o.grants
    ensures var f, pc, s' := s.threads[t].feature, s.threads[t].pc, Once(c, s, t, o);
      && t in s'.threads && f in s'.execs && Rest(s, s', t, f) && WorldOf(s', f) == WorldOf(s, f)
      && s'.threads[t] == Thread(f, if pc.left == 0 then StartActivate(pc.fds) else StartAbort(pc.fds))
  {
  }

  lemma OpensOne(c: Catalog, s: State, t: Tid, o: Oracle, base: Fd)
    requires Runnable(c, s, t, o) && s.threads[t].pc.StartOpen? && s.threads[t].pc.left != 0
    requires s.threads[t].pc.fds == Fresh(base, |s.threads[t].pc.fds|) && s.nextFd == base + |s.threads[t].pc.fds|
    requires |s.threads[t].pc.fds| < o.grants
    ensures var f, pc, s' := s.threads[t].feature, s.threads[t].pc, Once(c, s, t, o);
      && t in s'.threads && f in s'.execs && Rest(s, s', t, f) && WorldOf(s', f) == WorldOf(s, f)
      && s'.threads[t] == Thread(f, StartOpen(Fresh(base, |pc.fds| + 1), pc.left - 1)) && s'.nextFd == s.nextFd + 1
  {
    var pc := s.threads[t].pc;
    assert pc.fds + [s.nextFd] == Fresh(base, |pc.fds| + 1);
  }

  /** The way out of a start that fails part way closes what it opened. */
  lemma {:induction false} AloneAborts(c: Catalog, s: State, t: Tid, o: Oracle)
    requires Runnable(c, s, t, o) && s.threads[t].pc.StartAbort?
    ensures var f, s' := s.threads[t].feature, Alone(c, s, t, o, 0);
      && f in s'.execs && Rest(s, s', t, f) && t in s'.threads && s'.threads[t] == Thread(f, Done)
      && WorldOf(s', f) == WorldOf(s, f).(closed := s.closed + s.threads[t].pc.fds)
    decreases |s.threads[t].pc.fds|
  {
    var f, fds := s.threads[t].feature, s.threads[t].pc.fds;
    OnceDescends(c, s, t, o);
    AbortsOne(c, s, t, o);
    var s1 := Once(c, s, t, o);
    if fds != [] {
      AloneAborts(c, s1, t, o);
      RestTrans(s, s1, Alone(c, s1, t, o, 0), t, f);
      assert s.closed + [fds[0]] + fds[1..] == s.closed + fds;
    } else {
      assert s.closed + fds == s.closed;
      DoneAlone(c, s1, t, o);
    }
  }

  lemma AbortsOne(c: Catalog, s: State, t: Tid, o: Oracle)
    requires Runnable(c, s, t, o) && s.threads[t].pc.StartAbort?
    ensures var f, fds, s' := s.threads[t].feature, s.threads[t].pc.fds, Once(c, s, t, o);
      && t in s'.threads && f in s'.execs && Rest(s, s', t, f)
      && WorldOf(s', f) == WorldOf(s, f).(closed := if fds == [] then s.closed else s.closed + [fds[0]])
      && s'.threads[t] == Thread(f, if fds == [] then Done else StartAbort(fds[1..]))
  {
  }

  // ------------------------------------------------------------------------ the acting half of a start

  predicate Beginning(pc: Pc) {
    || pc.StartActivate? || pc.StartSetFds? || pc.StartSetSlot? || pc.StartSpawn? || pc.StartContract? ||
      pc.StartMessage?
  }

  function BeginPc(def: Definition, pc: Pc): (pc': Pc)
    requires Beginning(pc)
    ensures Rank(pc') < Rank(pc) && (Beginning(pc') || pc' == Done)
  {
    match pc
    case StartActivate(fds) => if def.kind == AgentOnly then StartSetSlot else StartSetFds(fds)
    case StartSetFds(_) => StartSetSlot
    case StartSetSlot => if def.kind == AgentOnly then StartContract else StartSpawn
    case StartSpawn => StartContract
    case StartContract => StartMessage
    case StartMessage => Done
  }

  function BeginWorld(def: Definition, w: World, id: Id, pc: Pc, contract: Bytes, now: Time): World
    requires Beginning(pc)
  {
    match pc
    case StartActivate(_) => w.(exec := ActivateSection(def, w.exec, now))
    case StartSetFds(fds) => w.(exec := w.exec.(fds := fds))
    case StartSetSlot => w.(slot := id)
    case StartSpawn => w
    case StartContract => w.(exec := w.exec.(contract := contract))
    case StartMessage => w.(exec := StartedMessageSection(def, w.exec))
  }

  /** What is left of a start from a program point on. */
  function BeginRest(def: Definition, w: World, id: Id, pc: Pc, contract: Bytes, now: Time): World
    requires Beginning(pc) || pc == Done
    decreases Rank(pc)
  {
    if pc == Done then w
    else BeginRest(def, BeginWorld(def, w, id, pc, contract, now), id, BeginPc(def, pc), contract, now)
  }

  lemma BeginsOne(c: Catalog, s: State, t: Tid, o: Oracle)
    requires Runnable(c, s, t, o) && Beginning(s.threads[t].pc)
    ensures var f, pc, s' := s.threads[t].feature, s.threads[t].pc, Once(c, s, t, o);
      && t in s'.threads && f in s'.execs && Rest(s, s', t, f)
      && WorldOf(s', f) == BeginWorld(c.defs[f], WorldOf(s, f), f, pc, o.contract, s.now)
      && s'.threads[t] == Thread(f, BeginPc(c.defs[f], pc))
  {
    match s.threads[t].pc
    case StartActivate(_) =>
    case StartSetFds(_) =>
    case StartSetSlot =>
    case StartSpawn =>
    case StartContract =>
    case StartMessage =>
  }

  lemma {:induction false} AloneBegins(c: Catalog, s: State, t: Tid, o: Oracle)
    requires Runnable(c, s, t, o) && Beginning(s.threads[t].pc)
    ensures var f, s' := s.threads[t].feature, Alone(c, s, t, o, 0);
      && f in s'.execs && Rest(s, s', t, f) && t in s'.threads && s'.threads[t] == Thread(f, Done)
      && WorldOf(s', f) == BeginRest(c.defs[f], WorldOf(s, f), f, s.threads[t].pc, o.contract, s.now)
    decreases Rank(s.threads[t].pc)
  {
    var f := s.threads[t].feature;
    OnceDescends(c, s, t, o);
    BeginsOne(c, s, t, o);
    var s1 := Once(c, s, t, o);
    if s1.threads[t].pc.Done? {
      DoneAlone(c, s1, t, o);
    } else {
      AloneBegins(c, s1, t, o);
      RestTrans(s, s1, Alone(c, s1, t, o, 0), t, f);
    }
  }

  lemma BegunWhole(def: Definition, w: World, id: Id, fds: seq<Fd>, contract: Bytes, now: Time)
    ensures BeginRest(def, w, id, StartActivate(fds), contract, now) ==
      World(Begun(def, w.exec, fds, contract, now), id, w.closed)
  {
    var w1 := BeginWorld(def, w, id, StartActivate(fds), contract, now);
    var w2 := if def.kind == AgentOnly then w1 else BeginWorld(def, w1, id, StartSetFds(fds), contract, now);
    var w3 := BeginWorld(def, w2, id, StartSetSlot, contract, now);
    var w4 := BeginWorld(def, w3, id, StartContract, contract, now);
    assert BeginRest(def, w4, id, StartMessage, contract, now) == BeginWorld(def, w4, id, StartMessage, contract, now);
    assert BeginRest(def, w3, id, StartContract, contract, now) == BeginRest(def, w4, id, StartMessage, contract, now);
    assert BeginRest(def, w2, id, StartSetSlot, contract, now) == BeginRest(def, w3, id, StartContract, contract, now);
  }

  // ------------------------------------------------------------------------ the whole start

  /** From the slot check on. */
  lemma AloneStarts(c: Catalog, s: State, t: Tid, o: Oracle)
    requires Runnable(c, s, t, o) && s.threads[t].pc == StartCheckSlot
    ensures var f, s' := s.threads[t].feature, Alone(c, s, t, o, 0);
      && f in s'.execs && Rest(s, s', t, f) && t in s'.threads && s'.threads[t] == Thread(f, Done)
      && WorldOf(s', f) == Started(c.defs[f], WorldOf(s, f), f, Fresh(s.nextFd, o.grants), o.contract, s.now)
  {
    var f := s.threads[t].feature;
    var s2 := AloneChecks(c, s, t, o, 0);
    AlonePasses(c, s, s2, t, o);
    RestTrans(s, s2, Alone(c, s2, t, o, 0), t, f);
  }

  /** Behind the checks. */
  lemma AlonePasses(c: Catalog, s: State, s2: State, t: Tid, o: Oracle)
    requires Runnable(c, s, t, o) && Runnable(c, s2, t, o) && s2.now == s.now && s2.nextFd == s.nextFd
    requires var f := s.threads[t].feature;
      && s2.threads[t] == Thread(f, if s.slot != "" then Done else AfterStateCheck(c.defs[f], s.execs[f]))
      && WorldOf(s2, f) == WorldOf(s, f)
    ensures var f, s' := s.threads[t].feature, Alone(c, s2, t, o, 0);
      && f in s'.execs && Rest(s2, s', t, f) && t in s'.threads && s'.threads[t] == Thread(f, Done)
      && WorldOf(s', f) == Started(c.defs[f], WorldOf(s, f), f, Fresh(s.nextFd, o.grants), o.contract, s.now)
  {
    var f := s.threads[t].feature;
    var def := c.defs[f];
    var pc := s2.threads[t].pc;
    StartedCases(def, WorldOf(s, f), f, Fresh(s.nextFd, o.grants), o.contract, s.now);
    if pc.Done? {
      DoneAlone(c, s2, t, o);
    } else if pc.StartActivate? {
      AloneBegins(c, s2, t, o);
      BegunWhole(def, WorldOf(s2, f), f, [], o.contract, s.now);
    } else if o.grants < SocketCount(def) {
      AloneFails(c, s2, t, o);
    } else {
      assert Fresh(s.nextFd, o.grants)[..SocketCount(def)] == Fresh(s.nextFd, SocketCount(def));
      AloneListens(c, s2, t, o);
    }
  }

  /** The two checks and the branch on the scenario. */
  lemma AloneChecks(c: Catalog, s: State, t: Tid, o: Oracle, n: nat) returns (s': State)
    requires Runnable(c, s, t, o) && s.threads[t].pc == StartCheckSlot && n < 28
    ensures Runnable(c, s', t, o) && Alone(c, s, t, o, n) == Alone(c, s', t, o, n)
    ensures var f := s.threads[t].feature;
      && Rest(s, s', t, f) && WorldOf(s', f) == WorldOf(s, f) && s'.nextFd == s.nextFd
      && s'.threads[t] == Thread(f, if s.slot != "" then Done else AfterStateCheck(c.defs[f], s.execs[f]))
  {
    OnceDescends(c, s, t, o);
    s' := Once(c, s, t, o);
    if s.slot == "" {
      OnceDescends(c, s', t, o);
      s' := Once(c, s', t, o);
    }
  }

  /** The scenarios with listeners, when the system refuses one of them. */
  lemma AloneFails(c: Catalog, s: State, t: Tid, o: Oracle)
    requires Runnable(c, s, t, o) && o.grants < SocketCount(c.defs[s.threads[t].feature])
    requires s.threads[t].pc == StartOpen([], SocketCount(c.defs[s.threads[t].feature]))
    ensures var f, s' := s.threads[t].feature, Alone(c, s, t, o, 0);
      && f in s'.execs && Rest(s, s', t, f) && t in s'.threads && s'.threads[t] == Thread(f, Done)
      && WorldOf(s', f) == WorldOf(s, f).(closed := s.closed + Fresh(s.nextFd, o.grants))
  {
    var s1 := AloneOpens(c, s, t, o, 0, s.nextFd);
    AloneAborts(c, s1, t, o);
    RestTrans(s, s1, Alone(c, s1, t, o, 0), t, s.threads[t].feature);
  }

  /** The scenarios with listeners, when the system grants all of them. */
  lemma AloneListens(c: Catalog, s: State, t: Tid, o: Oracle)
    requires Runnable(c, s, t, o) && o.grants >= SocketCount(c.defs[s.threads[t].feature])
    requires s.threads[t].pc == StartOpen([], SocketCount(c.defs[s.threads[t].feature]))
    ensures var f, s' := s.threads[t].feature, Alone(c, s, t, o, 0);
      && f in s'.execs && Rest(s, s', t, f) && t in s'.threads && s'.threads[t] == Thread(f, Done)
      && WorldOf(s', f) ==
           World(Begun(c.defs[f], s.execs[f], Fresh(s.nextFd, SocketCount(c.defs[f])), o.contract, s.now), f, s.closed)
  {
    var f := s.threads[t].feature;
    var s1 := AloneOpens(c, s, t, o, 0, s.nextFd);
    AloneBegins(c, s1, t, o);
    BegunWhole(c.defs[f], WorldOf(s1, f), f, Fresh(s.nextFd, SocketCount(c.defs[f])), o.contract, s.now);
    RestTrans(s, s1, Alone(c, s1, t, o, 0), t, f);
  }

  lemma StartedCases(def: Definition, w: World, id: Id, grants: seq<Fd>, contract: Bytes, now: Time)
    ensures w.slot != "" || AfterStateCheck(def, w.exec).Done? ==> Started(def, w, id, grants, contract, now) == w
    ensures w.slot == "" && AfterStateCheck(def, w.exec).StartActivate? ==>
      Started(def, w, id, grants, contract, now) == World(Begun(def, w.exec, [], contract, now), id, w.closed)
    ensures w.slot == "" && AfterStateCheck(def, w.exec).StartOpen? ==>
      && AfterStateCheck(def, w.exec) == StartOpen([], SocketCount(def))
      && Started(def, w, id, grants, contract, now) ==
           if |grants| < SocketCount(def) then w.(closed := w.closed + grants)
           else World(Begun(def, w.exec, grants[..SocketCount(def)], contract, now), id, w.closed)
  {
  }

  /** A start served alone has exactly the effect of the sequential routine, for every number of sockets the
      system grants. */
  lemma StartAlone(c: Catalog, s: State, t: Tid, f: Id, o: Oracle)
    requires Enabled(c, s, Arrive(t, Request.StartFeature(f))) && f in s.execs
    requires o.worker !in s.threads && o.worker != t
    ensures var s0 := Next(c, s, Arrive(t, Request.StartFeature(f)));
      Runnable(c, s0, t, o) &&
      var s' := Alone(c, s0, t, o, 0);
      && Rest(s, s', t, f) && t in s'.threads && s'.threads[t] == Thread(f, Done)
      && WorldOf(s', f) ==
           Started(c.defs[f], TimedWorld(WorldOf(s, f), f, s.now), f, Fresh(s.nextFd, o.grants), o.contract, s.now)
  {
    Arrives(c, s, t, Request.StartFeature(f), o);
    var s0 := Next(c, s, Arrive(t, Request.StartFeature(f)));
    var s1 := AloneTimeouts(c, s0, t, o, ThenStart, 0);
    AloneStarts(c, s1, t, o);
    RestTrans(s, s0, s1, t, f);
    RestTrans(s, s1, Alone(c, s1, t, o, 0), t, f);
  }

  // ------------------------------------------------------------------------ the effects, spelled out

  lemma LeftDrained(s: State, t: Tid, outcome: (Exec, Tail))
    requires t in s.threads && s.threads[t].feature in s.execs
    ensures var f, s' := s.threads[t].feature, Drain(Leave(s, t, outcome, ThenDone), t);
      && Rest(s, s', t, f) && f in s'.execs && t in s'.threads && s'.threads[t] == Thread(f, Done)
      && WorldOf(s', f) == Finish(WorldOf(s, f), f, outcome)
  {
    var s1 := Leave(s, t, outcome, ThenDone);
    LeaveRest(s, t, outcome, ThenDone);
    DrainIsFinish(s, t, outcome, ThenDone);
    if outcome.1 != NoTail {
      DrainRest(s1, t);
      RestTrans(s, s1, Drain(s1, t), t, s.threads[t].feature);
    }
  }

  /** A worker or reader that enters its last section and is not interrupted behind it. */
  lemma SectionDrained(c: Catalog, s: State, t: Tid, choice: Choice)
    requires Enabled(c, s, Run(t, choice)) && (s.threads[t].pc.WorkerFail? || s.threads[t].pc.WorkerNetwork?)
    ensures var f, s' := s.threads[t].feature, Drain(RunThread(c, s, t, choice), t);
      && Rest(s, s', t, f) && f in s'.execs && t in s'.threads && s'.threads[t] == Thread(f, Done)
      && WorldOf(s', f) ==
           Finish(WorldOf(s, f), f, Outcome(c.defs[f], s.execs[f], s.threads[t].pc, s.now, choice.later))
  {
    var f := s.threads[t].feature;
    LeftDrained(s, t, Outcome(c.defs[f], s.execs[f], s.threads[t].pc, s.now, choice.later));
  }

  /** A worker that reports a failure ends an active feature with its message, closes its sockets and frees the slot,
      and touches nothing else; it does nothing to a feature that is not active. */
  lemma FailureAlone(c: Catalog, s: State, t: Tid, choice: Choice)
    requires Enabled(c, s, Run(t, choice)) && s.threads[t].pc.WorkerFail?
    ensures var f, s' := s.threads[t].feature, Drain(RunThread(c, s, t, choice), t);
      && Rest(s, s', t, f) && f in s'.execs && t in s'.threads && s'.threads[t] == Thread(f, Done)
      && Fails(WorldOf(s, f), WorldOf(s', f), f, s.threads[t].pc.message, s.now)
  {
    var f := s.threads[t].feature;
    SectionDrained(c, s, t, choice);
    FailureSpelled(c.defs[f], WorldOf(s, f), f, s.threads[t].pc.message, s.now, choice.later);
  }

  /** The same for a worker that has observed what was expected. */
  lemma ObservationAlone(c: Catalog, s: State, t: Tid, choice: Choice)
    requires Enabled(c, s, Run(t, choice)) && s.threads[t].pc.WorkerNetwork?
    ensures var f, s' := s.threads[t].feature, Drain(RunThread(c, s, t, choice), t);
      && Rest(s, s', t, f) && f in s'.execs && t in s'.threads && s'.threads[t] == Thread(f, Done)
      && Observes(c.defs[f], WorldOf(s, f), WorldOf(s', f), f, s.now)
  {
    var f := s.threads[t].feature;
    SectionDrained(c, s, t, choice);
    ObservationSpelled(c.defs[f], WorldOf(s, f), f, s.now, choice.later);
  }

  /** What a start served alone comes to, when the system hands out its sockets in order and has o.grants of them. */
  lemma StartAloneSpelled(c: Catalog, s: State, t: Tid, f: Id, o: Oracle, error: string)
    returns (w: World, grants: seq<Fd>, response: Response)
    requires Enabled(c, s, Arrive(t, Request.StartFeature(f))) && f in s.execs
    requires o.worker !in s.threads && o.worker != t
    ensures |grants| == o.grants && forall i :: 0 <= i < |grants| ==> grants[i] == s.nextFd + i
    ensures Expires(WorldOf(s, f), w, f, s.now, s.now)
    ensures var s0 := Next(c, s, Arrive(t, Request.StartFeature(f)));
      && Runnable(c, s0, t, o) && f in Alone(c, s0, t, o, 0).execs
      && Starts(c.defs[f], w, WorldOf(Alone(c, s0, t, o, 0), f), f, grants, error, o.contract, s.now, response)
  {
    w, grants := TimedWorld(WorldOf(s, f), f, s.now), Fresh(s.nextFd, o.grants);
    response := StartResponse(c.defs[f], w, grants, error);
    StartAlone(c, s, t, f, o);
    DeadlineSpelled(c.defs[f], WorldOf(s, f), f, ThenDone, s.now, s.now);
    StartSpelled(c.defs[f], w, f, grants, error, o.contract, s.now);
  }

  /** What a client report served alone comes to, and a body that is none. */
  lemma CompleteAloneSpelled(c: Catalog, s: State, t: Tid, f: Id, body: Body, o: Oracle)
    returns (w: World, response: Response)
    requires Enabled(c, s, Arrive(t, Request.CompleteFeature(f, body))) && f in s.execs
    requires o.worker !in s.threads && o.worker != t
    ensures Expires(WorldOf(s, f), w, f, s.now, s.now)
    ensures var s0 := Next(c, s, Arrive(t, Request.CompleteFeature(f, body)));
      && Runnable(c, s0, t, o) && f in Alone(c, s0, t, o, 0).execs
      && if body.Malformed? then WorldOf(Alone(c, s0, t, o, 0), f) == w
         else Reports(c.defs[f], w, WorldOf(Alone(c, s0, t, o, 0), f), f, body.report, s.now, response)
  {
    w := TimedWorld(WorldOf(s, f), f, s.now);
    response := ANSWERED;
    CompleteAlone(c, s, t, f, body, o);
    DeadlineSpelled(c.defs[f], WorldOf(s, f), f, ThenDone, s.now, s.now);
    if body.Parsed? {
      response := CompleteResponse(c.defs[f], w.exec, body.report);
      ReportSpelled(c.defs[f], w, f, body.report, s.now);
    }
  }

  /** What an unsupported request served alone comes to, and a body that is none. */
  lemma UnsupportedAloneSpelled(c: Catalog, s: State, t: Tid, f: Id, body: Body, o: Oracle)
    returns (w: World, response: Response)
    requires Enabled(c, s, Arrive(t, Request.UnsupportedFeature(f, body))) && f in s.execs
    requires o.worker !in s.threads && o.worker != t
    ensures Expires(WorldOf(s, f), w, f, s.now, s.now)
    ensures var s0 := Next(c, s, Arrive(t, Request.UnsupportedFeature(f, body)));
      && Runnable(c, s0, t, o) && f in Alone(c, s0, t, o, 0).execs
      && if body.Malformed? then WorldOf(Alone(c, s0, t, o, 0), f) == w
         else Withdraws(w, WorldOf(Alone(c, s0, t, o, 0), f), f, body.report, s.now, response)
  {
    w := TimedWorld(WorldOf(s, f), f, s.now);
    response := UnsupportedResponse(w.exec);
    UnsupportedAlone(c, s, t, f, body, o);
    DeadlineSpelled(c.defs[f], WorldOf(s, f), f, ThenDone, s.now, s.now);
    if body.Parsed? {
      WithdrawalSpelled(w, f, body.report, s.now);
    }
  }
}
