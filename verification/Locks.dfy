/**
  The mutexes of the server as non-recursive locks. Every routine acquires them along one strict
  order, so no interleaving of handlers, workers and streams can deadlock.
 */
module Locks {
  type SessionId = string
  type FeatureId = string
  type Tid = nat

  datatype Lock =
    | SessionsMutex
    | SessionMutex(session: SessionId)
    | ExecutionMutex(session: SessionId, feature: FeatureId)

  function Rank(l: Lock): nat {
    match l
    case SessionsMutex => 0
    case SessionMutex(_) => 1
    case ExecutionMutex(_, _) => 2
  }

  datatype Op = Acquire(l: Lock) | Release(l: Lock)

  /** What a thread holds, innermost last, and the lock operations it still has to perform. */
  datatype Thread = Thread(held: seq<Lock>, rest: seq<Op>)

  datatype State = State(threads: map<Tid, Thread>, owner: map<Lock, Tid>)

  /** Scoped locking: ordered acquisition, release of the innermost lock, nothing held at the end. */
  predicate Ordered(held: seq<Lock>, ops: seq<Op>)
    decreases |ops|
  {
    if ops == [] then held == []
    else match ops[0]
      case Acquire(l) => (forall h :: h in held ==> Rank(h) < Rank(l)) && Ordered(held + [l], ops[1..])
      case Release(l) => held != [] && held[|held| - 1] == l && Ordered(held[..|held| - 1], ops[1..])
  }

  predicate Waiting(s: State, t: Tid) {
    t in s.threads && s.threads[t].rest != [] && s.threads[t].rest[0].Acquire? && s.threads[t].rest[0].l in s.owner
  }

  predicate WaitsFor(s: State, t: Tid, u: Tid) {
    Waiting(s, t) && s.owner[s.threads[t].rest[0].l] == u
  }

  predicate CanStep(s: State, t: Tid) {
    && t in s.threads && s.threads[t].rest != []
    && match s.threads[t].rest[0]
       case Acquire(l) => l !in s.owner
       case Release(l) =>
         && l in s.owner && s.owner[l] == t
         && s.threads[t].held != [] && s.threads[t].held[|s.threads[t].held| - 1] == l
  }

  function Step(s: State, t: Tid): State
    requires CanStep(s, t)
  {
    var th := s.threads[t];
    match th.rest[0]
    case Acquire(l) => State(s.threads[t := Thread(th.held + [l], th.rest[1..])], s.owner[l := t])
    case Release(l) => State(s.threads[t := Thread(th.held[..|th.held| - 1], th.rest[1..])], s.owner - {l})
  }

  datatype Action = Run(t: Tid) | Begin(t: Tid, routine: Routine)

  predicate Enabled(s: State, a: Action) {
    match a
    case Run(t) => CanStep(s, t)
    case Begin(t, r) => t !in s.threads && WellFormed(r)
  }

  function Next(s: State, a: Action): State
    requires Enabled(s, a)
  {
    match a
    case Run(t) => Step(s, t)
    case Begin(t, r) => s.(threads := s.threads[t := Thread([], Program(r))])
  }

  ghost predicate ValidRun(states: seq<State>, actions: seq<Action>) {
    && |states| == |actions| + 1
    && states[0] == State(map[], map[])
    && forall i :: 0 <= i < |actions| ==> StepAt(states, actions, i)
  }

  ghost predicate StepAt(states: seq<State>, actions: seq<Action>, i: nat)
    requires i < |actions| && |states| == |actions| + 1
  {
    Enabled(states[i], actions[i]) && states[i + 1] == Next(states[i], actions[i])
  }

  ghost predicate Increasing(held: seq<Lock>) {
    forall i, j :: 0 <= i < j < |held| ==> Rank(held[i]) < Rank(held[j])
  }

  ghost predicate ThreadOk(th: Thread) {
    Ordered(th.held, th.rest) && Increasing(th.held)
  }

  predicate OwnerHolds(s: State, l: Lock) {
    l in s.owner ==> s.owner[l] in s.threads && l in s.threads[s.owner[l]].held
  }

  predicate HolderOwns(s: State, t: Tid, l: Lock) {
    t in s.threads && l in s.threads[t].held ==> l in s.owner && s.owner[l] == t
  }

  ghost predicate Inv(s: State) {
    && (forall t {:trigger ThreadOk(s.threads[t])} :: t in s.threads ==> ThreadOk(s.threads[t]))
    && (forall l {:trigger OwnerHolds(s, l)} :: OwnerHolds(s, l))
    && (forall t, l {:trigger HolderOwns(s, t, l)} :: HolderOwns(s, t, l))
  }

  lemma InvAcquire(s: State, t: Tid)
    requires Inv(s) && CanStep(s, t) && s.threads[t].rest[0].Acquire?
    ensures Inv(Step(s, t))
  {
    var s' := Step(s, t);
    assert ThreadOk(s.threads[t]);
    forall u | u in s'.threads ensures ThreadOk(s'.threads[u]) {
      if u != t { assert ThreadOk(s.threads[u]); }
    }
    forall m ensures OwnerHolds(s', m) { assert OwnerHolds(s, m); }
    forall u, m ensures HolderOwns(s', u, m) { assert HolderOwns(s, u, m); }
  }

  lemma InvRelease(s: State, t: Tid)
    requires Inv(s) && CanStep(s, t) && s.threads[t].rest[0].Release?
    ensures Inv(Step(s, t))
  {
    var th := s.threads[t];
    var l := th.rest[0].l;
    var held' := th.held[..|th.held| - 1];
    assert ThreadOk(th);
    assert th.held == held' + [l] && l !in held';
    var s' := Step(s, t);
    forall u | u in s'.threads ensures ThreadOk(s'.threads[u]) {
      if u != t { assert ThreadOk(s.threads[u]); }
    }
    forall m ensures OwnerHolds(s', m) { assert OwnerHolds(s, m); }
    forall u, m ensures HolderOwns(s', u, m) { assert HolderOwns(s, u, m) && HolderOwns(s, u, l); }
  }

  lemma InvBegin(s: State, t: Tid, r: Routine)
    requires Inv(s) && t !in s.threads && WellFormed(r)
    ensures Inv(s.(threads := s.threads[t := Thread([], Program(r))]))
  {
    var s' := s.(threads := s.threads[t := Thread([], Program(r))]);
    RoutinesAreOrdered(r);
    forall u | u in s'.threads ensures ThreadOk(s'.threads[u]) {
      if u != t { assert ThreadOk(s.threads[u]); }
    }
    forall m ensures OwnerHolds(s', m) { assert OwnerHolds(s, m); }
    forall u, m ensures HolderOwns(s', u, m) { assert HolderOwns(s, u, m); }
  }

  lemma {:induction false} InvAlways(states: seq<State>, actions: seq<Action>, i: nat)
    requires ValidRun(states, actions) && i < |states|
    ensures Inv(states[i])
  {
    if i > 0 {
      InvAlways(states, actions, i - 1);
      assert StepAt(states, actions, i - 1);
      var s := states[i - 1];
      match actions[i - 1]
      case Run(t) =>
        if s.threads[t].rest[0].Acquire? { InvAcquire(s, t); } else { InvRelease(s, t); }
      case Begin(t, r) => InvBegin(s, t, r);
    }
  }

  /** No thread ever waits for a lock it holds itself. */
  lemma NoSelfWait(states: seq<State>, actions: seq<Action>, i: nat, t: Tid)
    requires ValidRun(states, actions) && i < |states|
    ensures !WaitsFor(states[i], t, t)
  {
    InvAlways(states, actions, i);
    if WaitsFor(states[i], t, t) {
      WaitClimbs(states[i], t, t, t);
    }
  }

  /** The lock a holder waits for is of strictly higher rank than any lock it holds. */
  lemma WaitClimbs(s: State, t: Tid, u: Tid, v: Tid)
    requires Inv(s) && WaitsFor(s, t, u) && WaitsFor(s, u, v)
    ensures Rank(s.threads[t].rest[0].l) < Rank(s.threads[u].rest[0].l)
  {
    assert OwnerHolds(s, s.threads[t].rest[0].l);
    assert ThreadOk(s.threads[u]);
  }

  ghost predicate WaitPath(s: State, path: seq<Tid>) {
    forall k :: 0 <= k < |path| - 1 ==> WaitsFor(s, path[k], path[k + 1])
  }

  lemma {:induction false} PathClimbs(s: State, path: seq<Tid>, next: Tid, k: nat)
    requires Inv(s) && WaitPath(s, path) && 0 < k < |path| && WaitsFor(s, path[|path| - 1], next)
    ensures Waiting(s, path[0]) && Waiting(s, path[k])
    ensures Rank(s.threads[path[0]].rest[0].l) < Rank(s.threads[path[k]].rest[0].l)
  {
    assert WaitsFor(s, path[k - 1], path[k]);
    if k < |path| - 1 {
      assert WaitsFor(s, path[k], path[k + 1]);
      WaitClimbs(s, path[k - 1], path[k], path[k + 1]);
    } else {
      WaitClimbs(s, path[k - 1], path[k], next);
    }
    if k > 1 {
      PathClimbs(s, path, next, k - 1);
    }
  }

  /** The waits-for graph of every reachable state is acyclic. */
  lemma WaitsForAcyclic(states: seq<State>, actions: seq<Action>, i: nat, path: seq<Tid>)
    requires ValidRun(states, actions) && i < |states| && WaitPath(states[i], path) && |path| >= 2
    ensures path[0] != path[|path| - 1]
  {
    var s := states[i];
    InvAlways(states, actions, i);
    assert WaitsFor(s, path[0], path[1]);
    if path[0] == path[|path| - 1] {
      PathClimbs(s, path, path[1], |path| - 1);
    }
  }

  /** From a blocked thread the chain of holders ends, after at most three locks, in a thread that can run. */
  lemma {:induction false} HolderCanStep(s: State, t: Tid) returns (u: Tid)
    requires Inv(s) && t in s.threads && s.threads[t].rest != []
    ensures CanStep(s, u)
    decreases if Waiting(s, t) then 3 - Rank(s.threads[t].rest[0].l) else 0
  {
    assert ThreadOk(s.threads[t]);
    if Waiting(s, t) {
      var v := s.owner[s.threads[t].rest[0].l];
      assert OwnerHolds(s, s.threads[t].rest[0].l) && ThreadOk(s.threads[v]);
      if Waiting(s, v) {
        WaitClimbs(s, t, v, s.owner[s.threads[v].rest[0].l]);
      }
      u := HolderCanStep(s, v);
    } else {
      if s.threads[t].rest[0].Release? { assert HolderOwns(s, t, s.threads[t].rest[0].l); }
      u := t;
    }
  }

  /** Deadlock freedom: while any thread is unfinished, some thread can proceed. */
  lemma DeadlockFree(states: seq<State>, actions: seq<Action>, i: nat, t: Tid)
    requires ValidRun(states, actions) && i < |states| && t in states[i].threads && states[i].threads[t].rest != []
    ensures exists u :: CanStep(states[i], u)
  {
    InvAlways(states, actions, i);
    var u := HolderCanStep(states[i], t);
  }

  // ------------------------------------------------------------- the routines' lock programs

  /** Run from `held`, the operations respect the order and give everything back. */
  predicate Fits(held: seq<Lock>, ops: seq<Op>, after: seq<Op>) {
    Ordered(held, after) ==> Ordered(held, ops + after)
  }

  function Section(l: Lock): seq<Op> {
    [Acquire(l), Release(l)]
  }

  lemma SectionFits(held: seq<Lock>, l: Lock, after: seq<Op>)
    requires forall h :: h in held ==> Rank(h) < Rank(l)
    ensures Fits(held, Section(l), after)
  {
    var ops := Section(l) + after;
    assert ops[1..] == [Release(l)] + after;
    assert ops[1..][1..] == after;
    assert (held + [l])[..|held|] == held;
  }

  lemma GuardFits(held: seq<Lock>, l: Lock, body: seq<Op>, after: seq<Op>)
    requires forall h :: h in held ==> Rank(h) < Rank(l)
    requires Fits(held + [l], body, [Release(l)] + after)
    ensures Fits(held, [Acquire(l)] + body + [Release(l)], after)
  {
    var inner := [Release(l)] + after;
    assert inner[1..] == after && (held + [l])[..|held|] == held;
    var ops := [Acquire(l)] + body + [Release(l)] + after;
    assert ops[1..] == body + inner;
  }

  lemma ConcatFits(held: seq<Lock>, a: seq<Op>, b: seq<Op>, after: seq<Op>)
    requires Fits(held, a, b + after) && Fits(held, b, after)
    ensures Fits(held, a + b, after)
  {
    assert a + b + after == a + (b + after);
  }

  /** A flat list of sections, one lock at a time, fits wherever each of its locks does. */
  function Sections(ls: seq<Lock>): seq<Op> {
    if ls == [] then [] else Section(ls[0]) + Sections(ls[1..])
  }

  lemma {:induction false} SectionsFit(held: seq<Lock>, ls: seq<Lock>, after: seq<Op>)
    requires forall h, l :: h in held && l in ls ==> Rank(h) < Rank(l)
    ensures Fits(held, Sections(ls), after)
  {
    if ls == [] {
      assert [] + after == after;
    } else {
      SectionsFit(held, ls[1..], after);
      SectionFits(held, ls[0], Sections(ls[1..]) + after);
      ConcatFits(held, Section(ls[0]), Sections(ls[1..]), after);
    }
  }

  // The locks each routine takes one after another. The flags stand for its early returns.

  function CloseActiveFds(s: SessionId, f: FeatureId): seq<Lock> {
    [ExecutionMutex(s, f)]
  }

  function FinishingRoutine(s: SessionId, f: FeatureId, acted: bool, finished: bool): seq<Lock> {
    [ExecutionMutex(s, f)]
    + (if acted then CloseActiveFds(s, f) else [])
    + (if acted && finished then [SessionMutex(s)] else [])
  }

  function MaybeTimeout(s: SessionId, f: FeatureId, fired: bool): seq<Lock> {
    FinishingRoutine(s, f, fired, true)
  }

  /** Summary and stream: for each feature a timeout check, then a read. */
  function SummaryJson(s: SessionId, fs: seq<FeatureId>, fired: seq<bool>): seq<Lock>
    requires |fs| == |fired|
  {
    if fs == [] then []
    else MaybeTimeout(s, fs[0], fired[0]) + [ExecutionMutex(s, fs[0])] + SummaryJson(s, fs[1..], fired[1..])
  }

  function Stream(s: SessionId, fs: seq<FeatureId>, polls: seq<seq<bool>>): seq<Lock>
    requires forall p :: p in polls ==> |p| == |fs|
  {
    if polls == [] then [] else SummaryJson(s, fs, polls[0]) + Stream(s, fs, polls[1..])
  }

  datatype StartEnd = SlotTaken | NotPending | NoSocket | AgentStarted | ListenerStarted

  function StartFeature(s: SessionId, f: FeatureId, fired: bool, end: StartEnd): seq<Lock> {
    MaybeTimeout(s, f, fired) + [SessionMutex(s)]
    + match end
      case SlotTaken => []
      case NotPending => [ExecutionMutex(s, f)]
      case NoSocket => [ExecutionMutex(s, f)]
      case AgentStarted => [ExecutionMutex(s, f), ExecutionMutex(s, f), SessionMutex(s), ExecutionMutex(s, f),
        ExecutionMutex(s, f), ExecutionMutex(s, f)]
      case ListenerStarted =>
        [ExecutionMutex(s, f), ExecutionMutex(s, f), ExecutionMutex(s, f), SessionMutex(s), ExecutionMutex(s, f),
          ExecutionMutex(s, f), ExecutionMutex(s, f)]
  }

  /** A report is answered from its body alone, refused in the section that would record it, or recorded. */
  datatype ReportEnd = Malformed | Refused | Held | Finishing

  function ReportFeature(s: SessionId, f: FeatureId, fired: bool, outcome: ReportEnd): seq<Lock> {
    MaybeTimeout(s, f, fired)
    + match outcome
      case Malformed => []
      case Refused => [ExecutionMutex(s, f)]
      case Held => [ExecutionMutex(s, f), ExecutionMutex(s, f)]
      case Finishing => FinishingRoutine(s, f, true, true) + [ExecutionMutex(s, f)]
  }

  /** The session snapshot nests: the session mutex is held while each execution is read. */
  function SessionJson(s: SessionId, fs: seq<FeatureId>): seq<Op> {
    [Acquire(SessionMutex(s))]
    + Sections(seq(|fs|, i requires 0 <= i < |fs| => ExecutionMutex(s, fs[i])))
    + [Release(SessionMutex(s))]
  }

  /** The index page nests: the table of sessions is held while each session is read. */
  function SessionIndex(ss: seq<SessionId>): seq<Op> {
    [Acquire(SessionsMutex)]
    + Sections(seq(|ss|, i requires 0 <= i < |ss| => SessionMutex(ss[i])))
    + [Release(SessionsMutex)]
  }

  /** Everything a thread of the server may be asked to run. A feature request looks its session up
      and checks the timeout before it dispatches. */
  datatype Routine =
    | Worker(session: SessionId, feature: FeatureId, acted: bool, finished: bool)
    | Get(session: SessionId, feature: FeatureId, fired: bool)
    | Start(session: SessionId, feature: FeatureId, fired: bool, again: bool, end: StartEnd)
    | Report(session: SessionId, feature: FeatureId, fired: bool, again: bool, outcome: ReportEnd)
    | SummaryStream(session: SessionId, features: seq<FeatureId>, polls: seq<seq<bool>>)
    | Snapshot(session: SessionId, features: seq<FeatureId>)
    | Index(sessions: seq<SessionId>)

  predicate WellFormed(r: Routine) {
    r.SummaryStream? ==> forall p :: p in r.polls ==> |p| == |r.features|
  }

  /** The routines that never hold two locks at once. */
  function FlatLocks(r: Routine): seq<Lock>
    requires WellFormed(r) && !r.Snapshot? && !r.Index?
  {
    match r
    case Worker(s, f, acted, finished) => FinishingRoutine(s, f, acted, finished)
    case Get(s, f, fired) => [SessionsMutex] + MaybeTimeout(s, f, fired) + [ExecutionMutex(s, f)]
    case Start(s, f, fired, again, end) =>
      [SessionsMutex] + MaybeTimeout(s, f, fired) + StartFeature(s, f, again, end)
    case Report(s, f, fired, again, outcome) =>
      [SessionsMutex] + MaybeTimeout(s, f, fired) + ReportFeature(s, f, again, outcome)
    case SummaryStream(s, fs, polls) => [SessionsMutex] + Stream(s, fs, polls)
  }

  function Program(r: Routine): seq<Op>
    requires WellFormed(r)
  {
    match r
    case Snapshot(s, fs) => Section(SessionsMutex) + SessionJson(s, fs)
    case Index(ss) => SessionIndex(ss)
    case _ => Sections(FlatLocks(r))
  }

  lemma SessionJsonFits(s: SessionId, fs: seq<FeatureId>, after: seq<Op>)
    ensures Fits([], SessionJson(s, fs), after)
  {
    var ls := seq(|fs|, i requires 0 <= i < |fs| => ExecutionMutex(s, fs[i]));
    SectionsFit([SessionMutex(s)], ls, [Release(SessionMutex(s))] + after);
    assert [] + [SessionMutex(s)] == [SessionMutex(s)];
    GuardFits([], SessionMutex(s), Sections(ls), after);
  }

  lemma SessionIndexFits(ss: seq<SessionId>, after: seq<Op>)
    ensures Fits([], SessionIndex(ss), after)
  {
    var ls := seq(|ss|, i requires 0 <= i < |ss| => SessionMutex(ss[i]));
    SectionsFit([SessionsMutex], ls, [Release(SessionsMutex)] + after);
    assert [] + [SessionsMutex] == [SessionsMutex];
    GuardFits([], SessionsMutex, Sections(ls), after);
  }

  /** Every routine of the server acquires its locks in order and gives them all back. */
  lemma RoutinesAreOrdered(r: Routine)
    requires WellFormed(r)
    ensures Ordered([], Program(r))
  {
    assert Ordered([], []);
    match r
    case Snapshot(s, fs) =>
      SessionJsonFits(s, fs, []);
      assert SessionJson(s, fs) + [] == SessionJson(s, fs);
      SectionFits([], SessionsMutex, SessionJson(s, fs));
    case Index(ss) =>
      SessionIndexFits(ss, []);
      assert SessionIndex(ss) + [] == SessionIndex(ss);
    case _ =>
      SectionsFit([], FlatLocks(r), []);
      assert Sections(FlatLocks(r)) + [] == Sections(FlatLocks(r));
  }
}
