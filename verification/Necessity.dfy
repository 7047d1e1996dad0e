/**
  The environment assumption is exact: a run that keeps it never breaks the session, and every step
  that violates it can be continued to a step that does.
 */
module Necessity {
  import opened Execution
  import opened Lifecycle
  import opened Invariant
  import opened Shapes
  import opened Steps
  import opened Guards
  import opened Runs
  import opened Solo
  import opened Uninterrupted

  // ------------------------------------------------------------------------ broken sessions

  /** A terminal execution comes back. */
  predicate Revives(s: State, s': State) {
    exists f :: f in s.execs && f in s'.execs && Terminal(s.execs[f].state) && !Terminal(s'.execs[f].state)
  }

  /** The slot names a feature that has ended, and no thread of that feature will clear it. */
  predicate LostSlot(s: State) {
    && s.slot != "" && s.slot in s.execs && Terminal(s.execs[s.slot].state)
    && forall t :: t in s.threads && s.threads[t].feature == s.slot ==> !OwesClearPc(s.threads[t].pc)
  }

  predicate Breaks(s: State, s': State) {
    TwoActive(s') || Revives(s, s') || LostSlot(s') || TakesSlot(s, s')
  }

  /** A run that keeps the assumption never breaks the session. */
  lemma EnvSuffices(c: Catalog, states: seq<State>, actions: seq<Action>, i: nat)
    requires ValidCatalog(c) && EnvRun(c, states, actions) && i < |actions|
    ensures !Breaks(states[i], states[i + 1])
  {
    forall k | 0 <= k < |actions|
      ensures !ActivatesBeside(states[k], actions[k]) && !ActivatesEnded(states[k], actions[k])
      ensures !NamesLate(states[k], actions[k]) && !NamesOver(states[k], actions[k])
    {
      EnvAvoids(c, states, actions, k);
    }
    assert StepAt(c, states, actions, i);
    OneActiveTo(c, states, actions, i + 1);
    AbsorbsStep(c, states[i], actions[i]);
    SlotKeptTo(c, states, actions, i + 1);
    TakesStep(c, states[i], actions[i]);
    NotRevived(states[i], states[i + 1]);
  }

  lemma NotRevived(s: State, s': State)
    requires Absorbs(s, s')
    ensures !Revives(s, s')
  {
    forall f | f in s.execs && f in s'.execs && Terminal(s.execs[f].state) ensures Terminal(s'.execs[f].state) {
      assert View(s'.execs[f]) == View(s.execs[f]);
    }
  }

  // ------------------------------------------------------------------------ driving threads

  /** Some continuation of s breaks the session. */
  ghost predicate Doomed(c: Catalog, s: State) {
    exists s1, b {:trigger BreaksAt(c, s1, b)} :: Reaches(c, s, s1) && BreaksAt(c, s1, b)
  }

  predicate BreaksAt(c: Catalog, s: State, b: Action) {
    Enabled(c, s, b) && Breaks(s, Next(c, s, b))
  }

  function Now(s: State): Choice {
    Choice(s.now, true, 0, Good, [])
  }

  /** Thread u has moved, nothing else has that matters to executions and slot. */
  ghost predicate Moved(s: State, s': State, u: Tid) {
    && s'.execs == s.execs && s'.slot == s.slot && s'.now == s.now
    && u in s.threads && u in s'.threads && s'.threads == s.threads[u := s'.threads[u]]
    && s'.threads[u].feature == s.threads[u].feature
  }

  predicate Known(c: Catalog, s: State, u: Tid) {
    u in s.threads && s.threads[u].feature in c.defs && s.threads[u].feature in s.execs
  }

  /** The listeners a start has opened or still has to open. */
  function Listeners(pc: Pc): nat {
    match pc
    case StartOpen(fds, left) => |fds| + left
    case StartActivate(fds) => |fds|
    case _ => 0
  }

  /** A start that has passed its checks can be brought to its activation. */
  lemma {:induction false} ReachActivate(c: Catalog, r: State, s: State, u: Tid) returns (s': State)
    requires Reaches(c, r, s) && Known(c, s, u) && (s.threads[u].pc.StartOpen? || s.threads[u].pc.StartActivate?)
    ensures Reaches(c, r, s') && Moved(s, s', u) && s'.threads[u].pc.StartActivate?
    ensures |s'.threads[u].pc.fds| == Listeners(s.threads[u].pc)
    decreases if s.threads[u].pc.StartOpen? then s.threads[u].pc.left + 1 else 0
  {
    s' := s;
    if s.threads[u].pc.StartOpen? {
      var s1 := Next(c, s, Run(u, Now(s)));
      Extend(c, r, s, Run(u, Now(s)));
      OpenMoves(c, s, u);
      s' := ReachActivate(c, r, s1, u);
    }
  }

  lemma OpenMoves(c: Catalog, s: State, u: Tid)
    requires Known(c, s, u) && s.threads[u].pc.StartOpen?
    ensures Enabled(c, s, Run(u, Now(s)))
    ensures var s', pc := Next(c, s, Run(u, Now(s))), s.threads[u].pc;
      && Moved(s, s', u) && Listeners(s'.threads[u].pc) == Listeners(pc)
      && (if pc.left == 0 then s'.threads[u].pc.StartActivate?
          else s'.threads[u].pc.StartOpen? && s'.threads[u].pc.left == pc.left - 1)
  {
  }

  lemma ActivateMoves(c: Catalog, s: State, u: Tid)
    requires Known(c, s, u) && s.threads[u].pc.StartActivate?
    ensures Enabled(c, s, Run(u, Now(s)))
    ensures var s', f := Next(c, s, Run(u, Now(s))), s.threads[u].feature;
      && s'.execs == s.execs[f := ActivateSection(c.defs[f], s.execs[f], s.now)] && s'.slot == s.slot && s'.now == s.now
      && u in s'.threads && s'.threads == s.threads[u := s'.threads[u]] && s'.threads[u].feature == f
      && InWindow(s'.threads[u]) && WindowFds(c.defs[f], s'.threads[u].pc, |s.threads[u].pc.fds|)
  {
  }

  /** A start with listeners holds as many of them at the beginning of its window. */
  predicate WindowFds(def: Definition, pc: Pc, n: nat) {
    def.kind != AgentOnly ==> pc.StartSetFds? && |pc.fds| == n
  }

  /** From a start that has passed its checks to the state in which its feature is active. */
  lemma ReachActive(c: Catalog, r: State, s: State, u: Tid) returns (s': State)
    requires Reaches(c, r, s) && Known(c, s, u) && (s.threads[u].pc.StartOpen? || s.threads[u].pc.StartActivate?)
    ensures Reaches(c, r, s')
    ensures var f := s.threads[u].feature;
      && s'.execs == s.execs[f := ActivateSection(c.defs[f], s.execs[f], s.now)] && s'.slot == s.slot && s'.now == s.now
      && u in s'.threads && s'.threads == s.threads[u := s'.threads[u]] && s'.threads[u].feature == f
      && InWindow(s'.threads[u]) && WindowFds(c.defs[f], s'.threads[u].pc, Listeners(s.threads[u].pc))
  {
    var s1 := ReachActivate(c, r, s, u);
    ActivateMoves(c, s1, u);
    Extend(c, r, s1, Run(u, Now(s1)));
    s' := Next(c, s1, Run(u, Now(s1)));
  }

  lemma SetFdsMoves(c: Catalog, s: State, u: Tid)
    requires Known(c, s, u) && s.threads[u].pc.StartSetFds?
    ensures Enabled(c, s, Run(u, Now(s)))
    ensures var s', f := Next(c, s, Run(u, Now(s))), s.threads[u].feature;
      && s'.execs == s.execs[f := s.execs[f].(fds := s.threads[u].pc.fds)] && s'.slot == s.slot && s'.now == s.now
      && s'.threads == s.threads[u := Thread(f, StartSetSlot)] && s'.closed == s.closed && s'.nextFd == s.nextFd
  {
  }

  lemma SetSlotMoves(c: Catalog, s: State, u: Tid)
    requires Known(c, s, u) && s.threads[u].pc.StartSetSlot?
    ensures Enabled(c, s, Run(u, Now(s)))
    ensures var s', f := Next(c, s, Run(u, Now(s))), s.threads[u].feature;
      && s'.execs == s.execs && s'.slot == f
      && u in s'.threads && s'.threads == s.threads[u := s'.threads[u]] && s'.threads[u].feature == f
      && !OwesClearPc(s'.threads[u].pc)
  {
  }

  /** From the start window to the write of the slot. */
  lemma ReachSetSlot(c: Catalog, r: State, s: State, u: Tid) returns (s': State)
    requires Reaches(c, r, s) && Known(c, s, u) && InWindow(s.threads[u])
    ensures Reaches(c, r, s') && Known(c, s', u)
    ensures var f := s.threads[u].feature;
      && s'.execs.Keys == s.execs.Keys && s'.execs[f].state == s.execs[f].state && s'.slot == s.slot
      && s'.threads == s.threads[u := Thread(f, StartSetSlot)]
      && forall g :: g in s.execs && g != f ==> s'.execs[g] == s.execs[g]
  {
    s' := s;
    if s.threads[u].pc.StartSetFds? {
      SetFdsMoves(c, s, u);
      Extend(c, r, s, Run(u, Now(s)));
      s' := Next(c, s, Run(u, Now(s)));
    }
  }

  /** From the start of a finishing tail to its end. */
  lemma {:induction false} ReachDrained(c: Catalog, r: State, s: State, t: Tid) returns (s': State)
    requires Reaches(c, r, s) && Known(c, s, t)
    ensures s' == Drain(s, t) && Reaches(c, r, s')
    decreases TailLength(s, t)
  {
    s' := s;
    if AtTail(s.threads[t].pc) {
      Extend(c, r, s, Run(t, Now(s)));
      TailKnown(c, s, t);
      s' := ReachDrained(c, r, RunTail(s, t), t);
    }
  }

  lemma TailKnown(c: Catalog, s: State, t: Tid)
    requires Known(c, s, t) && AtTail(s.threads[t].pc)
    ensures Known(c, RunTail(s, t), t) && TailLength(RunTail(s, t), t) < TailLength(s, t)
  {
    match s.threads[t].pc
    case TakeFds(_, _) =>
    case CloseFds(_, _, next) => NotAtTail(next);
    case ClearSlot(next) => NotAtTail(next);
  }

  lemma {:induction false} Bound(threads: set<Tid>) returns (t: Tid)
    ensures forall u :: u in threads ==> u < t
  {
    t := 0;
    if threads != {} {
      var v :| v in threads;
      var b := Bound(threads - {v});
      t := b + v + 1;
      forall u | u in threads ensures u < t {
        if u != v { assert u in threads - {v}; }
      }
    }
  }

  // ------------------------------------------------------------------------ acting on a start

  /** A section that ends the feature another thread is about to activate: the activation revives it. */
  lemma ActsBeforeActivation(c: Catalog, s: State, u: Tid)
    requires Known(c, s, u) && Terminal(s.execs[s.threads[u].feature].state)
    requires s.threads[u].pc.StartOpen? || s.threads[u].pc.StartActivate?
    ensures Doomed(c, s)
  {
    Start(c, s);
    var s1 := ReachActivate(c, s, s, u);
    ActivateMoves(c, s1, u);
    var f := s.threads[u].feature;
    assert Terminal(s1.execs[f].state) && !Terminal(Next(c, s1, Run(u, Now(s1))).execs[f].state);
    assert BreaksAt(c, s1, Run(u, Now(s1)));
  }

  /** A section that ends a feature in its start window: its clear finds nothing to clear, and the start
      then names the ended feature. */
  lemma ActsInWindow(c: Catalog, s: State, t: Tid, u: Tid)
    requires Known(c, s, t) && Known(c, s, u) && t != u && s.threads[t].feature == s.threads[u].feature
    requires s.threads[t].pc.TakeFds? && InWindow(s.threads[u]) && s.threads[u].feature != ""
    requires Terminal(s.execs[s.threads[u].feature].state)
    requires forall v :: v in s.threads && v != t && s.threads[v].feature == s.threads[u].feature ==>
      !OwesClearPc(s.threads[v].pc)
    ensures Doomed(c, s)
  {
    var f := s.threads[u].feature;
    Start(c, s);
    var s1 := ReachDrained(c, s, s, t);
    DrainTaking(s, t);
    NotAtTail(s.threads[t].pc.next);
    var s2 := ReachSetSlot(c, s, s1, u);
    SetSlotMoves(c, s2, u);
    LosesSlot(s2, Next(c, s2, Run(u, Now(s2))), u);
    assert BreaksAt(c, s2, Run(u, Now(s2)));
  }

  lemma LosesSlot(s: State, s': State, u: Tid)
    requires u in s.threads && u in s'.threads && s'.threads == s.threads[u := s'.threads[u]]
    requires s'.execs == s.execs && s'.slot == s.threads[u].feature && s'.slot != ""
    requires s'.slot in s.execs && Terminal(s.execs[s'.slot].state) && !OwesClearPc(s'.threads[u].pc)
    requires forall v :: v in s.threads && v != u && s.threads[v].feature == s'.slot ==> !OwesClearPc(s.threads[v].pc)
    ensures LostSlot(s')
  {
  }

  /** A network report cannot reach a feature that is still being started. */
  lemma ActsByEnding(c: Catalog, s: State, t: Tid, u: Tid, choice: Choice)
    requires ValidCatalog(c) && Core(c, s) && Enabled(c, s, Run(t, choice)) && Acts(c, s, t, choice)
    requires u in s.threads && u != t && InStart(s.threads[u]) && s.threads[u].feature == s.threads[t].feature
    ensures var th := s.threads[t];
      Outcome(c.defs[th.feature], s.execs[th.feature], th.pc, s.now, choice.later).1 == CloseAndClear
  {
    assert ThreadOk(c, s, s.threads[t]) && ThreadOk(c, s, s.threads[u]);
    assert s.slot == "";
    match s.threads[t].pc
    case TimeoutCheck(_) =>
    case CompleteReport(_) =>
    case UnsupportedReport(_) =>
    case WorkerFail(_) =>
    case WorkerNetwork =>
  }

  lemma ActsDooms(c: Catalog, s: State, t: Tid, u: Tid, choice: Choice)
    requires ValidCatalog(c) && Core(c, s) && Enabled(c, s, Run(t, choice)) && Acts(c, s, t, choice)
    requires u in s.threads && u != t && InStart(s.threads[u]) && s.threads[u].feature == s.threads[t].feature
    ensures Doomed(c, RunThread(c, s, t, choice))
  {
    var th := s.threads[t];
    var f := th.feature;
    var outcome := Outcome(c.defs[f], s.execs[f], th.pc, s.now, choice.later);
    ActsByEnding(c, s, t, u, choice);
    OutcomeShape(c.defs[f], s.execs[f], th.pc, s.now, choice.later);
    LeaveShape(if th.pc.TimeoutCheck? then s.(now := choice.later) else s, t, outcome, SectionNext(th.pc));
    var s' := RunThread(c, s, t, choice);
    if InWindow(s.threads[u]) {
      forall v | v in s'.threads && v != t && s'.threads[v].feature == f ensures !OwesClearPc(s'.threads[v].pc) {
        assert ThreadOk(c, s, s.threads[v]);
      }
      assert f in c.defs && f != "";
      ActsInWindow(c, s', t, u);
    } else {
      ActsBeforeActivation(c, s', u);
    }
  }

  // ------------------------------------------------------------------------ entering too soon

  /** A start that goes on although the slot is taken ends by overwriting it. */
  lemma EntersTaken(c: Catalog, s: State, t: Tid)
    requires Known(c, s, t) && (s.threads[t].pc.StartOpen? || s.threads[t].pc.StartActivate?)
    requires s.slot != "" && s.threads[t].feature != "" && s.slot != s.threads[t].feature
    ensures Doomed(c, s)
  {
    Start(c, s);
    var s1 := ReachActive(c, s, s, t);
    var s2 := ReachSetSlot(c, s, s1, t);
    SetSlotMoves(c, s2, t);
    assert TakesSlot(s2, Next(c, s2, Run(t, Now(s2))));
    assert BreaksAt(c, s2, Run(t, Now(s2)));
  }

  /** A start that goes on beside an active feature makes a second one active. */
  lemma GoesOnBeside(c: Catalog, r: State, s: State, t: Tid, g: Id)
    requires Reaches(c, r, s) && Known(c, s, t) && (s.threads[t].pc.StartOpen? || s.threads[t].pc.StartActivate?)
    requires g in s.execs && s.execs[g].state == Active && g != s.threads[t].feature
    ensures Doomed(c, r)
  {
    var s1 := ReachActivate(c, r, s, t);
    ActivateMoves(c, s1, t);
    var s' := Next(c, s1, Run(t, Now(s1)));
    var f := s.threads[t].feature;
    assert s'.execs[f].state == Active && s'.execs[g].state == Active;
    assert TwoActive(s');
    assert BreaksAt(c, s1, Run(t, Now(s1)));
  }

  /** Two starts of one feature: the first one's feature times out, the second one revives it. */
  lemma EntersSame(c: Catalog, s: State, t: Tid, u: Tid)
    requires Known(c, s, t) && Known(c, s, u) && t != u && s.threads[t].feature == s.threads[u].feature
    requires s.threads[t].pc.StartOpen? || s.threads[t].pc.StartActivate?
    requires s.threads[u].pc.StartOpen? || s.threads[u].pc.StartActivate?
    ensures Doomed(c, s)
  {
    var f := s.threads[t].feature;
    Start(c, s);
    var s1 := ReachActive(c, s, s, u);
    var deadline := s1.execs[f].deadlineAt;
    Extend(c, s, s1, Tick(deadline));
    var s2 := Next(c, s1, Tick(deadline));
    var v := Bound(s2.threads.Keys);
    var s3 := ReachTimedOut(c, s, s2, v, f);
    var s4 := ReachActivate(c, s, s3, t);
    ActivateMoves(c, s4, t);
    assert Terminal(s4.execs[f].state) && !Terminal(Next(c, s4, Run(t, Now(s4))).execs[f].state);
    assert BreaksAt(c, s4, Run(t, Now(s4)));
  }

  /** A reader finds f overdue. */
  lemma ReachTimedOut(c: Catalog, r: State, s: State, v: Tid, f: Id) returns (s': State)
    requires Reaches(c, r, s) && v !in s.threads && f in c.defs && f in s.execs
    requires s.execs[f].state == Active && s.execs[f].deadlineAt <= s.now
    ensures Reaches(c, r, s') && s'.execs.Keys == s.execs.Keys && s'.execs[f].state == TimedOut
    ensures forall u :: u in s.threads ==> u in s'.threads && s'.threads[u] == s.threads[u]
  {
    Extend(c, r, s, Arrive(v, GetFeature(f)));
    var s1 := Next(c, s, Arrive(v, GetFeature(f)));
    Extend(c, r, s1, Run(v, Now(s1)));
    s' := Next(c, s1, Run(v, Now(s1)));
    SectionShape(c, s1, v, Now(s1));
    LeaveShape(s1.(now := s1.now), v, TimeoutSection(s1.execs[f], s1.now, s1.now), ThenDone);
  }

  lemma EntersDooms(c: Catalog, s: State, t: Tid, choice: Choice)
    requires ValidCatalog(c) && Core(c, s) && Enabled(c, s, Run(t, choice)) && Enters(c, s, t)
    requires s.slot != "" || exists u :: u in s.threads && u != t && InStart(s.threads[u])
    ensures Doomed(c, RunThread(c, s, t, choice))
  {
    var f := s.threads[t].feature;
    var s' := RunThread(c, s, t, choice);
    assert s' == Goto(s, t, AfterStateCheck(c.defs[f], s.execs[f]));
    assert f in c.defs && f != "";
    if s.slot != "" {
      EntersTaken(c, s', t);
    } else {
      var u :| u in s.threads && u != t && InStart(s.threads[u]);
      assert ThreadOk(c, s, s.threads[u]);
      EntersBeside(c, s', t, u, s.threads[u]);
    }
  }

  lemma EntersBeside(c: Catalog, s: State, t: Tid, u: Tid, th: Thread)
    requires Known(c, s, t) && Known(c, s, u) && t != u && s.threads[u] == th && InStart(th)
    requires s.threads[t].pc.StartOpen? || s.threads[t].pc.StartActivate?
    requires s.execs[s.threads[t].feature].state == Pending
    requires InWindow(th) ==> s.execs[th.feature].state == Active
    ensures Doomed(c, s)
  {
    Start(c, s);
    if th.feature == s.threads[t].feature {
      EntersSame(c, s, t, u);
    } else if InWindow(th) {
      GoesOnBeside(c, s, s, t, th.feature);
    } else {
      var s1 := ReachActive(c, s, s, u);
      GoesOnBeside(c, s, s1, t, th.feature);
    }
  }

  /** The assumption is needed step by step: after the first step that violates it, the run can be continued
      to a step that breaks the session. */
  lemma EnvIsNecessary(c: Catalog, states: seq<State>, actions: seq<Action>, a: Action)
    requires ValidCatalog(c) && EnvRun(c, states, actions) && Enabled(c, states[|actions|], a)
    requires !Env(c, states[|actions|], a)
    ensures Doomed(c, Next(c, states[|actions|], a))
  {
    var s := states[|actions|];
    CoreAlways(c, states, actions, |actions|);
    if Acts(c, s, a.t, a.choice) &&
       exists u :: u in s.threads && u != a.t && InStart(s.threads[u]) &&
         s.threads[u].feature == s.threads[a.t].feature {
      var u :| u in s.threads && u != a.t && InStart(s.threads[u]) && s.threads[u].feature == s.threads[a.t].feature;
      ActsDooms(c, s, a.t, u, a.choice);
    } else {
      EntersDooms(c, s, a.t, a.choice);
    }
  }
}
