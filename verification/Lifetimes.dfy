/**
  What single executions and whole summaries are guaranteed over runs.
 */
module Lifetimes {
  import opened Execution
  import opened Lifecycle
  import opened Invariant
  import opened Shapes
  import opened Steps
  import opened Guards
  import opened Conservation

  // -------------------------------------------------------------------- one active feature

  lemma StartingSeesEmptySlot(c: Catalog, s: State, f: Id)
    requires Core(c, s) && f in c.defs
    ensures Starting(s, f) ==> s.slot == ""
  {
    if Starting(s, f) {
      assert ThreadOk(c, s, s.threads[s.starter[f]]);
    }
  }

  /** At most one execution of the session is active. */
  lemma OneActive(c: Catalog, states: seq<State>, actions: seq<Action>, i: nat, f: Id, g: Id)
    requires ValidCatalog(c) && EnvRun(c, states, actions) && i < |states|
    requires f in states[i].execs && states[i].execs[f].state == Active
    requires g in states[i].execs && states[i].execs[g].state == Active
    ensures f == g
  {
    CoreAlways(c, states, actions, i);
    assert ExecOk(c, states[i], f) && ExecOk(c, states[i], g);
    StartingSeesEmptySlot(c, states[i], f);
    StartingSeesEmptySlot(c, states[i], g);
  }

  /** Outside a start window the active execution is exactly the one the slot names. */
  lemma ActiveIsNamed(c: Catalog, states: seq<State>, actions: seq<Action>, i: nat, f: Id)
    requires ValidCatalog(c) && EnvRun(c, states, actions) && i < |states|
    requires f in states[i].execs && states[i].execs[f].state == Active
    ensures states[i].slot == f || exists t ::
      t in states[i].threads && states[i].threads[t].feature == f && InWindow(states[i].threads[t])
  {
    CoreAlways(c, states, actions, i);
    assert ExecOk(c, states[i], f);
  }

  /** A filled slot names an active feature, or one whose finishing thread still owes the clear. */
  lemma SlotIsTruthful(c: Catalog, states: seq<State>, actions: seq<Action>, i: nat)
    requires ValidCatalog(c) && EnvRun(c, states, actions) && i < |states| && states[i].slot != ""
    ensures var s := states[i];
      && s.slot in s.execs
      && (s.execs[s.slot].state == Active ||
          (Terminal(s.execs[s.slot].state) &&
           exists t :: t in s.threads && s.threads[t].feature == s.slot && OwesClearPc(s.threads[t].pc)))
  {
    CoreAlways(c, states, actions, i);
  }

  /** A step empties the slot only for a terminal feature, and only by a thread of that feature. */
  lemma SlotClearedForItsOwner(c: Catalog, states: seq<State>, actions: seq<Action>, i: nat)
    requires ValidCatalog(c) && EnvRun(c, states, actions) && i + 1 < |states|
    requires states[i].slot != "" && states[i + 1].slot != states[i].slot
    ensures states[i + 1].slot == ""
    ensures states[i].slot in states[i].execs && Terminal(states[i].execs[states[i].slot].state)
    ensures actions[i].Run? && actions[i].t in states[i].threads
    ensures states[i].threads[actions[i].t].feature == states[i].slot
  {
    CoreAlways(c, states, actions, i);
    assert StepAt(c, states, actions, i);
    if actions[i].Run? {
      SlotCleared(c, states[i], actions[i].t, actions[i].choice);
    }
  }

  lemma SlotCleared(c: Catalog, s: State, t: Tid, choice: Choice)
    requires Core(c, s) && Enabled(c, s, Run(t, choice)) && s.slot != "" && RunThread(c, s, t, choice).slot != s.slot
    ensures RunThread(c, s, t, choice).slot == "" && s.threads[t].feature == s.slot
    ensures s.slot in s.execs && Terminal(s.execs[s.slot].state)
  {
    assert ThreadOk(c, s, s.threads[t]);
    RunEffect(c, s, t, choice);
  }

  // --------------------------------------------------------------- verdicts and absorption

  /** While no start has activated a passed feature, an execution has passed exactly when all the evidence its mode
      needs is recorded. */
  lemma VerdictIsEvidence(c: Catalog, states: seq<State>, actions: seq<Action>, i: nat, f: Id)
    requires ValidRun(c, states, actions) && i < |states| && f in c.defs
    requires forall k :: 0 <= k < i ==> !ActivatesPassed(states[k], actions[k])
    ensures f in states[i].execs
    ensures states[i].execs[f].state == Passed <==> EvidenceComplete(c.defs[f].mode, states[i].execs[f])
  {
    KeysAlways(c, states, actions, i);
    JustifiedTo(c, states, actions, i);
  }

  /** Whatever the order of the two reports: with both recorded and no thread left on the feature, it has
      passed, the slot does not name it and all its sockets are closed, unless a start has activated a passed
      feature, stored its sockets over others or too late, or named its feature too late. */
  lemma HybridSettles(c: Catalog, states: seq<State>, actions: seq<Action>, i: nat, f: Id)
    requires ValidCatalog(c) && ValidRun(c, states, actions) && i < |states|
    requires forall k :: 0 <= k < i ==> !ActivatesPassed(states[k], actions[k]) && !StoresOver(states[k], actions[k])
    requires forall k :: 0 <= k < i ==> !StoresLate(states[k], actions[k]) && !NamesLate(states[k], actions[k])
    requires f in c.defs && c.defs[f].mode == Hybrid
    requires f in states[i].execs && states[i].execs[f].networkComplete && states[i].execs[f].agentComplete
    requires Settled(states[i], f)
    ensures states[i].execs[f].state == Passed && states[i].slot != f
    ensures forall x :: x in states[i].owner && states[i].owner[x] == f && x < states[i].nextFd ==>
      x in states[i].closed
  {
    VerdictIsEvidence(c, states, actions, i, f);
    SettledReleases(c, states, actions, i, f);
    SettledFreesSlot(c, states, actions, i, f);
  }

  function Rank(state: FeatureState): nat {
    match state
    case Pending => 2
    case Active => 1
    case _ => 0
  }

  /** Forward only: Pending, then Active, then a terminal state that nothing alters. */
  predicate Forward(e: Exec, e': Exec) {
    && Rank(e'.state) <= Rank(e.state)
    && (Rank(e'.state) == Rank(e.state) ==> e'.state == e.state)
    && Absorbed(e, e')
  }

  /** The start and the deadline stay while the execution is active. */
  predicate KeepsTimes(e: Exec, e': Exec) {
    e'.state == Active ==> e'.startedAt == e.startedAt && e'.deadlineAt == e.deadlineAt
  }

  lemma ForwardAfter(def: Definition, e: Exec, pc: Pc, now: Time, choice: Choice)
    ensures var e' := ExecAfter(def, e, pc, now, choice);
      && (Forward(e, e') <==> !(pc.StartActivate? && Terminal(e.state)))
      && (e.state == Active && !pc.StartActivate? ==> KeepsTimes(e, e'))
  {
    match pc
    case TimeoutCheck(_) =>
    case CompleteReport(_) =>
    case UnsupportedReport(_) =>
    case WorkerFail(_) =>
    case WorkerNetwork =>
    case _ =>
  }

  /** A step moves every execution only forward, unless it activates one that has ended. The times of an active one
      are kept unless it is activated again. */
  lemma ForwardStep(c: Catalog, s: State, a: Action)
    requires Enabled(c, s, a)
    ensures (forall f :: f in s.execs ==> f in Next(c, s, a).execs && Forward(s.execs[f], Next(c, s, a).execs[f]))
       <==> !ActivatesEnded(s, a)
    ensures forall f :: f in s.execs && s.execs[f].state == Active ==>
      (Activating(s, a) && s.threads[a.t].feature == f) || KeepsTimes(s.execs[f], Next(c, s, a).execs[f])
  {
    if a.Run? {
      var th := s.threads[a.t];
      RunEffect(c, s, a.t, a.choice);
      ForwardAfter(c.defs[th.feature], s.execs[th.feature], th.pc, s.now, a.choice);
    }
  }

  /** Terminal states absorb: nothing that a snapshot shows, and no evidence flag, ever changes again, while no
      start activates an ended feature. */
  lemma TerminalAbsorbs(c: Catalog, states: seq<State>, actions: seq<Action>, i: nat, j: nat, f: Id)
    requires ValidRun(c, states, actions) && i <= j < |states|
    requires forall k :: i <= k < j ==> !ActivatesEnded(states[k], actions[k])
    requires f in states[i].execs && Terminal(states[i].execs[f].state)
    ensures f in states[j].execs && View(states[j].execs[f]) == View(states[i].execs[f])
    ensures states[j].execs[f].networkComplete == states[i].execs[f].networkComplete
    ensures states[j].execs[f].agentComplete == states[i].execs[f].agentComplete
  {
    AbsorbsBetween(c, states, actions, i, j);
  }

  /** How often the state of f changes between states i and j. */
  function Changes(states: seq<State>, i: nat, j: nat, f: Id): nat
    requires i <= j < |states| && forall k :: i <= k <= j ==> f in states[k].execs
  {
    if i == j then 0
    else Changes(states, i, j - 1, f) + (if states[j - 1].execs[f].state == states[j].execs[f].state then 0 else 1)
  }

  lemma {:induction false} ChangesCostRank(c: Catalog, states: seq<State>, actions: seq<Action>, i: nat, j: nat, f: Id)
    requires ValidRun(c, states, actions) && i <= j < |states|
    requires forall k :: i <= k < j ==> !ActivatesEnded(states[k], actions[k])
    requires forall k :: i <= k <= j ==> f in states[k].execs
    ensures Changes(states, i, j, f) + Rank(states[j].execs[f].state) <= Rank(states[i].execs[f].state)
    decreases j
  {
    if i < j {
      ChangesCostRank(c, states, actions, i, j - 1, f);
      assert StepAt(c, states, actions, j - 1);
      ForwardStep(c, states[j - 1], actions[j - 1]);
      assert f in states[j - 1].execs;
    }
  }

  /** Bounded progress: the state of a feature changes at most twice, while no start activates an ended one. */
  lemma AtMostTwoChanges(c: Catalog, states: seq<State>, actions: seq<Action>, j: nat, f: Id)
    requires ValidRun(c, states, actions) && j < |states| && f in c.defs
    requires forall k :: 0 <= k < j ==> !ActivatesEnded(states[k], actions[k])
    ensures forall k :: 0 <= k <= j ==> f in states[k].execs
    ensures Changes(states, 0, j, f) <= 2
  {
    forall k | 0 <= k <= j ensures f in states[k].execs {
      KeysAlways(c, states, actions, k);
    }
    ChangesCostRank(c, states, actions, 0, j, f);
  }

  lemma LateAfter(def: Definition, e: Exec, pc: Pc, now: Time, choice: Choice)
    requires now <= choice.later && (e.state == TimedOut ==> e.deadlineAt <= e.finishedAt)
    ensures var e' := ExecAfter(def, e, pc, now, choice);
      e'.state == TimedOut ==> e'.deadlineAt <= e'.finishedAt
  {
  }

  /** In every run a feature times out no earlier than its deadline. */
  lemma {:induction false} TimedOutAfterDeadline(c: Catalog, states: seq<State>, actions: seq<Action>, i: nat)
    requires ValidRun(c, states, actions) && i < |states|
    ensures forall f :: f in states[i].execs && states[i].execs[f].state == TimedOut ==>
      states[i].execs[f].deadlineAt <= states[i].execs[f].finishedAt
  {
    if i > 0 {
      TimedOutAfterDeadline(c, states, actions, i - 1);
      var s, a := states[i - 1], actions[i - 1];
      assert StepAt(c, states, actions, i - 1);
      if a.Run? {
        var th := s.threads[a.t];
        RunEffect(c, s, a.t, a.choice);
        LateAfter(c.defs[th.feature], s.execs[th.feature], th.pc, s.now, a.choice);
      }
    }
  }
}
