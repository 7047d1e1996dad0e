/**
  What each property of a session needs, in every run whatsoever. A property fails exactly when a
  start takes one particular step in one particular state; the guard names that step.
 */
module Guards {
  import opened Execution
  import opened Lifecycle
  import opened Invariant
  import opened Shapes
  import opened Steps

  // ------------------------------------------------------------------------ the steps of a start

  predicate Activating(s: State, a: Action) {
    a.Run? && a.t in s.threads && s.threads[a.t].feature in s.execs && s.threads[a.t].pc.StartActivate?
  }

  predicate Storing(s: State, a: Action) {
    a.Run? && a.t in s.threads && s.threads[a.t].feature in s.execs && s.threads[a.t].pc.StartSetFds?
  }

  predicate Naming(s: State, a: Action) {
    a.Run? && a.t in s.threads && s.threads[a.t].feature in s.execs && s.threads[a.t].pc.StartSetSlot?
  }

  // ------------------------------------------------------------------------ guards

  /** A start activates its feature beside another active one. */
  predicate ActivatesBeside(s: State, a: Action) {
    Activating(s, a) && exists g :: g in s.execs && g != s.threads[a.t].feature && s.execs[g].state == Active
  }

  /** A start activates a feature that has ended. */
  predicate ActivatesEnded(s: State, a: Action) {
    Activating(s, a) && Terminal(s.execs[s.threads[a.t].feature].state)
  }

  /** A start activates a feature that has passed. */
  predicate ActivatesPassed(s: State, a: Action) {
    Activating(s, a) && s.execs[s.threads[a.t].feature].state == Passed
  }

  /** A start stores its sockets over others that the feature still holds. */
  predicate StoresOver(s: State, a: Action) {
    Storing(s, a) && s.execs[s.threads[a.t].feature].fds != []
  }

  /** Some thread of f is about to take its sockets. */
  predicate Taking(s: State, f: Id) {
    exists t :: t in s.threads && s.threads[t].feature == f && s.threads[t].pc.TakeFds?
  }

  /** A start stores sockets in a feature that is not active and whose sockets nobody will take. */
  predicate StoresLate(s: State, a: Action) {
    && Storing(s, a) && s.threads[a.t].pc.fds != []
    && s.execs[s.threads[a.t].feature].state != Active && !Taking(s, s.threads[a.t].feature)
  }

  /** Some thread of f has still to clear the slot. */
  predicate Clearing(s: State, f: Id) {
    exists t :: t in s.threads && s.threads[t].feature == f && OwesClearPc(s.threads[t].pc)
  }

  /** A start names a feature that is not active and that nobody will clear from the slot. */
  predicate NamesLate(s: State, a: Action) {
    Naming(s, a) && s.execs[s.threads[a.t].feature].state != Active && !Clearing(s, s.threads[a.t].feature)
  }

  /** A start names its feature while the slot names another one. */
  predicate NamesOver(s: State, a: Action) {
    Naming(s, a) && s.slot != "" && s.slot != s.threads[a.t].feature
  }

  /** Some start of f has activated it and has still to name it. */
  predicate Windowed(s: State, f: Id) {
    exists t :: t in s.threads && s.threads[t].feature == f && InWindow(s.threads[t])
  }

  /** A thread that owes the clear finds the slot naming its feature, which has not ended after all. */
  predicate ClearsLive(s: State, a: Action) {
    && a.Run? && a.t in s.threads && s.threads[a.t].feature in s.execs && s.threads[a.t].pc.ClearSlot?
    && s.slot == s.threads[a.t].feature && !Terminal(s.execs[s.slot].state)
  }

  /** The slot is taken from an active feature that no start has still to name. */
  predicate Unnames(s: State, a: Action) {
    && s.slot in s.execs && s.execs[s.slot].state == Active && !Windowed(s, s.slot)
    && (ClearsLive(s, a) || (Naming(s, a) && s.threads[a.t].feature != s.slot))
  }

  // ------------------------------------------------------------------------ one active feature

  predicate TwoActive(s: State) {
    exists f, g :: f in s.execs && g in s.execs && f != g && s.execs[f].state == Active && s.execs[g].state == Active
  }

  lemma OutcomeActive(def: Definition, e: Exec, pc: Pc, now: Time, choice: Choice)
    ensures ExecAfter(def, e, pc, now, choice).state == Active ==> e.state == Active || pc.StartActivate?
    ensures pc.StartActivate? ==> ExecAfter(def, e, pc, now, choice).state == Active
  {
  }

  lemma OneActiveStep(c: Catalog, s: State, a: Action)
    requires Enabled(c, s, a) && !TwoActive(s)
    ensures TwoActive(Next(c, s, a)) <==> ActivatesBeside(s, a)
  {
    if a.Run? {
      var th := s.threads[a.t];
      var s' := Next(c, s, a);
      RunEffect(c, s, a.t, a.choice);
      OutcomeActive(c.defs[th.feature], s.execs[th.feature], th.pc, s.now, a.choice);
      if ActivatesBeside(s, a) {
        var g :| g in s.execs && g != th.feature && s.execs[g].state == Active;
        assert s'.execs[g].state == Active && s'.execs[th.feature].state == Active;
      }
    }
  }

  lemma {:induction false} OneActiveTo(c: Catalog, states: seq<State>, actions: seq<Action>, n: nat)
    requires ValidRun(c, states, actions) && n < |states|
    requires forall i :: 0 <= i < n ==> !ActivatesBeside(states[i], actions[i])
    ensures !TwoActive(states[n])
  {
    if n > 0 {
      OneActiveTo(c, states, actions, n - 1);
      assert StepAt(c, states, actions, n - 1);
      OneActiveStep(c, states[n - 1], actions[n - 1]);
    }
  }

  /** At most one feature is active throughout a run if and only if no start activates beside an active one. */
  lemma OneActiveIff(c: Catalog, states: seq<State>, actions: seq<Action>)
    requires ValidRun(c, states, actions)
    ensures (forall i :: 0 <= i < |states| ==> !TwoActive(states[i]))
       <==> (forall i :: 0 <= i < |actions| ==> !ActivatesBeside(states[i], actions[i]))
  {
    if forall i :: 0 <= i < |actions| ==> !ActivatesBeside(states[i], actions[i]) {
      forall n | 0 <= n < |states| ensures !TwoActive(states[n]) {
        OneActiveTo(c, states, actions, n);
      }
    }
    if forall i :: 0 <= i < |states| ==> !TwoActive(states[i]) {
      forall i | 0 <= i < |actions| ensures !ActivatesBeside(states[i], actions[i]) {
        assert StepAt(c, states, actions, i);
        assert !TwoActive(states[i]) && !TwoActive(states[i + 1]);
        OneActiveStep(c, states[i], actions[i]);
      }
    }
  }

  // ------------------------------------------------------------------------ terminal states

  /** What a snapshot shows of an ended execution, and its evidence flags, stay. */
  predicate Absorbed(e: Exec, e': Exec) {
    Terminal(e.state) ==>
      View(e') == View(e) && e'.networkComplete == e.networkComplete && e'.agentComplete == e.agentComplete
  }

  ghost predicate Absorbs(s: State, s': State) {
    forall f :: f in s.execs ==> f in s'.execs && Absorbed(s.execs[f], s'.execs[f])
  }

  lemma AbsorbedAfter(def: Definition, e: Exec, pc: Pc, now: Time, choice: Choice)
    ensures Absorbed(e, ExecAfter(def, e, pc, now, choice)) <==> !(pc.StartActivate? && Terminal(e.state))
  {
  }

  lemma AbsorbsStep(c: Catalog, s: State, a: Action)
    requires Enabled(c, s, a)
    ensures Absorbs(s, Next(c, s, a)) <==> !ActivatesEnded(s, a)
  {
    if a.Run? {
      var th := s.threads[a.t];
      RunEffect(c, s, a.t, a.choice);
      AbsorbedAfter(c.defs[th.feature], s.execs[th.feature], th.pc, s.now, a.choice);
    }
  }

  /** Ended executions never change in a run if and only if no start activates one. */
  lemma AbsorbsIff(c: Catalog, states: seq<State>, actions: seq<Action>)
    requires ValidRun(c, states, actions)
    ensures (forall i :: 0 <= i < |actions| ==> Absorbs(states[i], states[i + 1]))
       <==> (forall i :: 0 <= i < |actions| ==> !ActivatesEnded(states[i], actions[i]))
  {
    forall i | 0 <= i < |actions| ensures Absorbs(states[i], states[i + 1]) <==>
      !ActivatesEnded(states[i], actions[i]) {
      assert StepAt(c, states, actions, i);
      AbsorbsStep(c, states[i], actions[i]);
    }
    if forall i :: 0 <= i < |actions| ==> Absorbs(states[i], states[i + 1]) {
      forall i | 0 <= i < |actions| ensures !ActivatesEnded(states[i], actions[i]) {
        assert Absorbs(states[i], states[i + 1]);
      }
    }
  }

  /** Over any stretch of a run in which no start activates an ended feature, ended executions stay. */
  lemma {:induction false} AbsorbsBetween(c: Catalog, states: seq<State>, actions: seq<Action>, i: nat, j: nat)
    requires ValidRun(c, states, actions) && i <= j < |states|
    requires forall k :: i <= k < j ==> !ActivatesEnded(states[k], actions[k])
    ensures Absorbs(states[i], states[j])
    decreases j
  {
    if i < j {
      AbsorbsBetween(c, states, actions, i, j - 1);
      assert StepAt(c, states, actions, j - 1);
      AbsorbsStep(c, states[j - 1], actions[j - 1]);
    }
  }

  // ------------------------------------------------------------------------ verdicts

  ghost predicate Justified(c: Catalog, s: State) {
    forall f :: f in c.defs && f in s.execs ==>
      (s.execs[f].state == Passed <==> EvidenceComplete(c.defs[f].mode, s.execs[f]))
  }

  lemma JustifiedAfter(def: Definition, e: Exec, pc: Pc, now: Time, choice: Choice)
    requires e.state == Passed <==> EvidenceComplete(def.mode, e)
    ensures var e' := ExecAfter(def, e, pc, now, choice);
      (e'.state == Passed <==> EvidenceComplete(def.mode, e')) <==> !(pc.StartActivate? && e.state == Passed)
  {
    match pc
    case TimeoutCheck(_) =>
    case CompleteReport(_) =>
    case UnsupportedReport(_) =>
    case WorkerFail(_) =>
    case WorkerNetwork =>
    case _ =>
  }

  lemma JustifiedStep(c: Catalog, s: State, a: Action)
    requires Enabled(c, s, a) && Justified(c, s)
    ensures Justified(c, Next(c, s, a)) <==> !ActivatesPassed(s, a)
  {
    if a.Run? {
      var th := s.threads[a.t];
      RunEffect(c, s, a.t, a.choice);
      JustifiedAfter(c.defs[th.feature], s.execs[th.feature], th.pc, s.now, a.choice);
    }
  }

  lemma {:induction false} JustifiedTo(c: Catalog, states: seq<State>, actions: seq<Action>, n: nat)
    requires ValidRun(c, states, actions) && n < |states|
    requires forall i :: 0 <= i < n ==> !ActivatesPassed(states[i], actions[i])
    ensures Justified(c, states[n])
  {
    if n > 0 {
      JustifiedTo(c, states, actions, n - 1);
      assert StepAt(c, states, actions, n - 1);
      JustifiedStep(c, states[n - 1], actions[n - 1]);
    }
  }

  /** Passing is equivalent to the evidence throughout a run if and only if no start activates a passed feature. */
  lemma JustifiedIff(c: Catalog, states: seq<State>, actions: seq<Action>)
    requires ValidRun(c, states, actions)
    ensures (forall i :: 0 <= i < |states| ==> Justified(c, states[i]))
       <==> (forall i :: 0 <= i < |actions| ==> !ActivatesPassed(states[i], actions[i]))
  {
    if forall i :: 0 <= i < |actions| ==> !ActivatesPassed(states[i], actions[i]) {
      forall n | 0 <= n < |states| ensures Justified(c, states[n]) {
        JustifiedTo(c, states, actions, n);
      }
    }
    if forall i :: 0 <= i < |states| ==> Justified(c, states[i]) {
      forall i | 0 <= i < |actions| ensures !ActivatesPassed(states[i], actions[i]) {
        assert StepAt(c, states, actions, i);
        assert Justified(c, states[i]) && Justified(c, states[i + 1]);
        JustifiedStep(c, states[i], actions[i]);
      }
    }
  }

  // ------------------------------------------------------------------------ the slot

  /** A filled slot names an active feature, or one that a thread will clear. */
  predicate SlotKept(s: State) {
    s.slot != "" ==> s.slot in s.execs && (s.execs[s.slot].state == Active || Clearing(s, s.slot))
  }

  /** How a thread that has to clear the slot goes on. */
  lemma TailOwes(s: State, t: Tid)
    requires t in s.threads && s.threads[t].feature in s.execs && AtTail(s.threads[t].pc)
    ensures var s' := RunTail(s, t);
      && t in s'.threads
      && (OwesClearPc(s.threads[t].pc) && !s.threads[t].pc.ClearSlot? ==>
            s'.threads[t].feature == s.threads[t].feature && OwesClearPc(s'.threads[t].pc))
  {
    match s.threads[t].pc
    case TakeFds(_, _) =>
    case CloseFds(_, _, _) =>
    case ClearSlot(_) =>
  }

  /** A thread that has to clear the slot of f is still there, or is the one that has just cleared it. */
  lemma StillClearing(c: Catalog, s: State, t: Tid, choice: Choice, f: Id)
    requires Enabled(c, s, Run(t, choice)) && Clearing(s, f)
    requires !(s.threads[t].pc.ClearSlot? && s.threads[t].feature == f)
    ensures Clearing(RunThread(c, s, t, choice), f)
  {
    OthersStay(c, s, t, choice);
    var u :| u in s.threads && s.threads[u].feature == f && OwesClearPc(s.threads[u].pc);
    if u == t {
      TailOwes(s, t);
    }
    assert RunThread(c, s, t, choice).threads[u].feature == f;
  }

  /** A section that ends an active feature owes the clear. */
  lemma EndsClearing(c: Catalog, s: State, t: Tid, choice: Choice)
    requires Enabled(c, s, Run(t, choice)) && s.execs[s.threads[t].feature].state == Active
    ensures var f, s' := s.threads[t].feature, RunThread(c, s, t, choice);
      f in s'.execs && (s'.execs[f].state == Active || Clearing(s', f))
  {
    var th := s.threads[t];
    RunEffect(c, s, t, choice);
    if AtSection(th.pc) {
      OutcomeShape(c.defs[th.feature], s.execs[th.feature], th.pc, s.now, choice.later);
      OutcomeEnds(c.defs[th.feature], s.execs[th.feature], th.pc, s.now, choice.later);
      LeaveShape(if th.pc.TimeoutCheck? then s.(now := choice.later) else s, t,
                 Outcome(c.defs[th.feature], s.execs[th.feature], th.pc, s.now, choice.later), SectionNext(th.pc));
    }
  }

  lemma OutcomeEnds(def: Definition, e: Exec, pc: Pc, now: Time, later: Time)
    requires AtSection(pc) && e.state == Active
    ensures Outcome(def, e, pc, now, later).0.state != Pending
  {
  }

  lemma SlotStays(c: Catalog, s: State, t: Tid, choice: Choice)
    requires Enabled(c, s, Run(t, choice)) && SlotKept(s) && RunThread(c, s, t, choice).slot == s.slot
    requires !(s.threads[t].pc.ClearSlot? && s.threads[t].feature == s.slot)
    ensures SlotKept(RunThread(c, s, t, choice))
  {
    RunEffect(c, s, t, choice);
    if s.slot != "" {
      if s.execs[s.slot].state != Active {
        StillClearing(c, s, t, choice, s.slot);
      } else if s.threads[t].feature == s.slot {
        EndsClearing(c, s, t, choice);
      }
    }
  }

  lemma SlotNamed(c: Catalog, s: State, t: Tid, choice: Choice)
    requires Enabled(c, s, Run(t, choice)) && s.threads[t].pc.StartSetSlot? && s.threads[t].feature != ""
    ensures SlotKept(RunThread(c, s, t, choice)) <==> !NamesLate(s, Run(t, choice))
  {
    var f := s.threads[t].feature;
    var s' := RunThread(c, s, t, choice);
    RunEffect(c, s, t, choice);
    OthersStay(c, s, t, choice);
    NamedMoves(c, s, t, choice);
    if Clearing(s, f) {
      StillClearing(c, s, t, choice, f);
    }
    if Clearing(s', f) {
      var u :| u in s'.threads && s'.threads[u].feature == f && OwesClearPc(s'.threads[u].pc);
      assert u in s.threads && s.threads[u].feature == f;
    }
  }

  lemma NamedMoves(c: Catalog, s: State, t: Tid, choice: Choice)
    requires Enabled(c, s, Run(t, choice)) && s.threads[t].pc.StartSetSlot?
    ensures t in RunThread(c, s, t, choice).threads && !OwesClearPc(RunThread(c, s, t, choice).threads[t].pc)
  {
  }

  lemma SlotKeptStep(c: Catalog, s: State, a: Action)
    requires ValidCatalog(c) && Enabled(c, s, a) && SlotKept(s)
    ensures SlotKept(Next(c, s, a)) <==> !NamesLate(s, a)
  {
    match a
    case Tick(_) => assert forall f :: Clearing(s, f) ==> Clearing(Next(c, s, a), f);
    case Arrive(t, request) =>
      if Clearing(s, s.slot) {
        var u :| u in s.threads && s.threads[u].feature == s.slot && OwesClearPc(s.threads[u].pc);
        assert Next(c, s, a).threads[u] == s.threads[u];
      }
    case Run(t, choice) =>
      RunEffect(c, s, t, choice);
      assert s.threads[t].feature in c.defs && s.threads[t].feature != "";
      if s.threads[t].pc.StartSetSlot? {
        SlotNamed(c, s, t, choice);
      } else if !(s.threads[t].pc.ClearSlot? && s.threads[t].feature == s.slot) {
        SlotStays(c, s, t, choice);
      }
  }

  lemma {:induction false} SlotKeptTo(c: Catalog, states: seq<State>, actions: seq<Action>, n: nat)
    requires ValidCatalog(c) && ValidRun(c, states, actions) && n < |states|
    requires forall i :: 0 <= i < n ==> !NamesLate(states[i], actions[i])
    ensures SlotKept(states[n])
  {
    if n > 0 {
      SlotKeptTo(c, states, actions, n - 1);
      assert StepAt(c, states, actions, n - 1);
      SlotKeptStep(c, states[n - 1], actions[n - 1]);
    }
  }

  /** A filled slot names a live feature throughout a run if and only if no start names one that is not active and
      that nobody will clear. */
  lemma SlotKeptIff(c: Catalog, states: seq<State>, actions: seq<Action>)
    requires ValidCatalog(c) && ValidRun(c, states, actions)
    ensures (forall i :: 0 <= i < |states| ==> SlotKept(states[i]))
       <==> (forall i :: 0 <= i < |actions| ==> !NamesLate(states[i], actions[i]))
  {
    if forall i :: 0 <= i < |actions| ==> !NamesLate(states[i], actions[i]) {
      forall n | 0 <= n < |states| ensures SlotKept(states[n]) {
        SlotKeptTo(c, states, actions, n);
      }
    }
    if forall i :: 0 <= i < |states| ==> SlotKept(states[i]) {
      forall i | 0 <= i < |actions| ensures !NamesLate(states[i], actions[i]) {
        assert StepAt(c, states, actions, i);
        assert SlotKept(states[i]) && SlotKept(states[i + 1]);
        SlotKeptStep(c, states[i], actions[i]);
      }
    }
  }

  /** The slot of one feature is overwritten by another. */
  predicate TakesSlot(s: State, s': State) {
    s.slot != "" && s'.slot != "" && s'.slot != s.slot
  }

  /** The slot of a feature is never taken over in a run if and only if no start names its feature over another. */
  lemma SlotOwnedIff(c: Catalog, states: seq<State>, actions: seq<Action>)
    requires ValidCatalog(c) && ValidRun(c, states, actions)
    ensures (forall i :: 0 <= i < |actions| ==> !TakesSlot(states[i], states[i + 1]))
       <==> (forall i :: 0 <= i < |actions| ==> !NamesOver(states[i], actions[i]))
  {
    forall i | 0 <= i < |actions| ensures TakesSlot(states[i], states[i + 1]) <==> NamesOver(states[i], actions[i]) {
      assert StepAt(c, states, actions, i);
      TakesStep(c, states[i], actions[i]);
    }
    if forall i :: 0 <= i < |actions| ==> !TakesSlot(states[i], states[i + 1]) {
      forall i | 0 <= i < |actions| ensures !NamesOver(states[i], actions[i]) {
        assert !TakesSlot(states[i], states[i + 1]);
      }
    }
  }

  lemma TakesStep(c: Catalog, s: State, a: Action)
    requires ValidCatalog(c) && Enabled(c, s, a)
    ensures TakesSlot(s, Next(c, s, a)) <==> NamesOver(s, a)
  {
    if a.Run? {
      RunEffect(c, s, a.t, a.choice);
      assert s.threads[a.t].feature in c.defs && s.threads[a.t].feature != "";
    }
  }

  /** The slot is emptied for a feature that has ended. */
  predicate FairlyCleared(s: State, s': State) {
    s.slot != "" && s'.slot == "" ==> s.slot in s.execs && Terminal(s.execs[s.slot].state)
  }

  /** Only ended features are cleared from the slot in a run if and only if no clear finds its feature alive. */
  lemma FairlyClearedIff(c: Catalog, states: seq<State>, actions: seq<Action>)
    requires ValidCatalog(c) && ValidRun(c, states, actions)
    ensures (forall i :: 0 <= i < |actions| ==> FairlyCleared(states[i], states[i + 1]))
       <==> (forall i :: 0 <= i < |actions| ==> !ClearsLive(states[i], actions[i]))
  {
    forall i | 0 <= i < |actions| ensures FairlyCleared(states[i], states[i + 1]) <==>
                                          !ClearsLive(states[i], actions[i]) {
      assert StepAt(c, states, actions, i);
      FairlyClearedStep(c, states[i], actions[i]);
    }
    if forall i :: 0 <= i < |actions| ==> FairlyCleared(states[i], states[i + 1]) {
      forall i | 0 <= i < |actions| ensures !ClearsLive(states[i], actions[i]) {
        assert FairlyCleared(states[i], states[i + 1]);
      }
    }
  }

  lemma FairlyClearedStep(c: Catalog, s: State, a: Action)
    requires ValidCatalog(c) && Enabled(c, s, a)
    ensures FairlyCleared(s, Next(c, s, a)) <==> !ClearsLive(s, a)
  {
    if a.Run? {
      RunEffect(c, s, a.t, a.choice);
      assert s.threads[a.t].feature in c.defs && s.threads[a.t].feature != "";
    }
  }

  /** Every active feature is named by the slot or is about to be. */
  ghost predicate Named(s: State) {
    forall f :: f in s.execs && s.execs[f].state == Active ==> s.slot == f || Windowed(s, f)
  }

  /** Outside of its critical region a start can at most pass its checks. */
  lemma WindowOnlyFromStart(c: Catalog, s: State, t: Tid, choice: Choice)
    requires Enabled(c, s, Run(t, choice)) && !InStart(s.threads[t])
    ensures t in RunThread(c, s, t, choice).threads && !InWindow(RunThread(c, s, t, choice).threads[t])
  {
    if Enters(c, s, t) {
      assert RunThread(c, s, t, choice).threads[t].pc == AfterStateCheck(c.defs[s.threads[t].feature],
                                                                       s.execs[s.threads[t].feature]);
    } else {
      StaysOutside(c, s, t, choice);
    }
  }

  /** A start leaves its window only by naming its feature, and enters it by activating it. */
  lemma WindowMoves(c: Catalog, s: State, t: Tid, choice: Choice)
    requires Enabled(c, s, Run(t, choice))
    ensures var th, s' := s.threads[t], RunThread(c, s, t, choice);
      && t in s'.threads
      && (InWindow(th) && !th.pc.StartSetSlot? ==> InWindow(s'.threads[t]) && s'.threads[t].feature == th.feature)
      && (th.pc.StartActivate? ==> InWindow(s'.threads[t]) && s'.threads[t].feature == th.feature)
      && (InWindow(s'.threads[t]) ==> th.pc.StartActivate? || th.pc.StartSetFds?)
  {
    var th := s.threads[t];
    if InStart(th) {
      StartShape(c, s, t, choice);
    } else {
      WindowOnlyFromStart(c, s, t, choice);
    }
  }

  lemma StillWindowed(c: Catalog, s: State, t: Tid, choice: Choice, f: Id)
    requires Enabled(c, s, Run(t, choice)) && Windowed(s, f)
    requires !(s.threads[t].pc.StartSetSlot? && s.threads[t].feature == f)
    ensures Windowed(RunThread(c, s, t, choice), f)
  {
    OthersStay(c, s, t, choice);
    WindowMoves(c, s, t, choice);
    var u :| u in s.threads && s.threads[u].feature == f && InWindow(s.threads[u]);
    assert RunThread(c, s, t, choice).threads[u].feature == f;
  }

  lemma NotYetWindowed(c: Catalog, s: State, t: Tid, choice: Choice, f: Id)
    requires Enabled(c, s, Run(t, choice)) && !Windowed(s, f) && !s.threads[t].pc.StartActivate?
    ensures !Windowed(RunThread(c, s, t, choice), f)
  {
    var s' := RunThread(c, s, t, choice);
    OthersStay(c, s, t, choice);
    WindowMoves(c, s, t, choice);
  }

  lemma NamedRun(c: Catalog, s: State, t: Tid, choice: Choice)
    requires Enabled(c, s, Run(t, choice)) && Named(s) && !Unnames(s, Run(t, choice))
    ensures Named(RunThread(c, s, t, choice))
  {
    var th, s' := s.threads[t], RunThread(c, s, t, choice);
    RunEffect(c, s, t, choice);
    OutcomeActive(c.defs[th.feature], s.execs[th.feature], th.pc, s.now, choice);
    forall f | f in s'.execs && s'.execs[f].state == Active ensures s'.slot == f || Windowed(s', f) {
      if s.execs[f].state != Active {
        WindowMoves(c, s, t, choice);
      } else if Windowed(s, f) && s'.slot != f {
        StillWindowed(c, s, t, choice, f);
      }
    }
  }

  lemma NamedStep(c: Catalog, s: State, a: Action)
    requires ValidCatalog(c) && Enabled(c, s, a) && Named(s)
    ensures Named(Next(c, s, a)) <==> !Unnames(s, a)
  {
    match a
    case Tick(_) => assert forall f :: Windowed(s, f) ==> Windowed(Next(c, s, a), f);
    case Arrive(t, request) =>
      forall f | Windowed(s, f) ensures Windowed(Next(c, s, a), f) {
        var u :| u in s.threads && s.threads[u].feature == f && InWindow(s.threads[u]);
        assert Next(c, s, a).threads[u] == s.threads[u];
      }
    case Run(t, choice) =>
      if Unnames(s, a) {
        RunEffect(c, s, t, choice);
        NotYetWindowed(c, s, t, choice, s.slot);
        assert s.slot in Next(c, s, a).execs && Next(c, s, a).execs[s.slot].state == Active;
      } else {
        NamedRun(c, s, t, choice);
      }
  }

  lemma {:induction false} NamedTo(c: Catalog, states: seq<State>, actions: seq<Action>, n: nat)
    requires ValidCatalog(c) && ValidRun(c, states, actions) && n < |states|
    requires forall i :: 0 <= i < n ==> !Unnames(states[i], actions[i])
    ensures Named(states[n])
  {
    if n > 0 {
      NamedTo(c, states, actions, n - 1);
      assert StepAt(c, states, actions, n - 1);
      NamedStep(c, states[n - 1], actions[n - 1]);
    }
  }

  /** Throughout a run active features are named by the slot or about to be, if and only if the slot is never taken
      from an active feature that no start has still to name. */
  lemma NamedIff(c: Catalog, states: seq<State>, actions: seq<Action>)
    requires ValidCatalog(c) && ValidRun(c, states, actions)
    ensures (forall i :: 0 <= i < |states| ==> Named(states[i]))
       <==> (forall i :: 0 <= i < |actions| ==> !Unnames(states[i], actions[i]))
  {
    if forall i :: 0 <= i < |actions| ==> !Unnames(states[i], actions[i]) {
      forall n | 0 <= n < |states| ensures Named(states[n]) {
        NamedTo(c, states, actions, n);
      }
    }
    if forall i :: 0 <= i < |states| ==> Named(states[i]) {
      forall i | 0 <= i < |actions| ensures !Unnames(states[i], actions[i]) {
        assert StepAt(c, states, actions, i);
        assert Named(states[i]) && Named(states[i + 1]);
        NamedStep(c, states[i], actions[i]);
      }
    }
  }

  // ------------------------------------------------------------------------ what every run keeps

  /** The executions are those of the catalog. */
  lemma {:induction false} KeysAlways(c: Catalog, states: seq<State>, actions: seq<Action>, n: nat)
    requires ValidRun(c, states, actions) && n < |states|
    ensures states[n].execs.Keys == c.defs.Keys
  {
    if n > 0 {
      KeysAlways(c, states, actions, n - 1);
      assert StepAt(c, states, actions, n - 1);
      if actions[n - 1].Run? {
        RunEffect(c, states[n - 1], actions[n - 1].t, actions[n - 1].choice);
      }
    }
  }

  // ------------------------------------------------------------------------ what keeps the guards away

  /** Under the environment assumption none of these steps is ever taken. */
  lemma EnvAvoids(c: Catalog, states: seq<State>, actions: seq<Action>, i: nat)
    requires ValidCatalog(c) && EnvRun(c, states, actions) && i < |actions|
    ensures !ActivatesBeside(states[i], actions[i]) && !ActivatesEnded(states[i], actions[i])
    ensures !ActivatesPassed(states[i], actions[i])
    ensures !StoresOver(states[i], actions[i]) && !StoresLate(states[i], actions[i])
    ensures !NamesLate(states[i], actions[i]) && !NamesOver(states[i], actions[i])
    ensures !ClearsLive(states[i], actions[i]) && !Unnames(states[i], actions[i])
  {
    CoreAlways(c, states, actions, i);
    assert StepAt(c, states, actions, i);
    if actions[i].Run? {
      CoreAvoids(c, states[i], actions[i]);
    }
  }

  lemma CoreAvoids(c: Catalog, s: State, a: Action)
    requires ValidCatalog(c) && Core(c, s) && Apart(s) && Enabled(c, s, a) && a.Run?
    ensures !ActivatesBeside(s, a) && !ActivatesEnded(s, a) && !ActivatesPassed(s, a)
    ensures !StoresOver(s, a) && !StoresLate(s, a) && !NamesLate(s, a) && !NamesOver(s, a)
    ensures !ClearsLive(s, a) && !Unnames(s, a)
  {
    assert ThreadOk(c, s, s.threads[a.t]);
    if ActivatesBeside(s, a) {
      var g :| g in s.execs && g != s.threads[a.t].feature && s.execs[g].state == Active;
      assert g in c.defs && g != "" && ExecOk(c, s, g);
      assert Starting(s, g) && InStart(s.threads[s.starter[g]]) && InStart(s.threads[a.t]);
    }
  }

  /** The features in their start window are active. */
  ghost predicate WindowsActive(s: State) {
    forall t :: t in s.threads && InWindow(s.threads[t]) ==>
      s.threads[t].feature in s.execs && s.execs[s.threads[t].feature].state == Active
  }

  /** A step that does not end a feature being started leaves it active. */
  lemma SparedStaysActive(c: Catalog, s: State, t: Tid, choice: Choice, u: Tid)
    requires Enabled(c, s, Run(t, choice)) && SparesStarts(c, s, Run(t, choice))
    requires u in s.threads && u != t && InWindow(s.threads[u])
    requires s.threads[u].feature in s.execs && s.execs[s.threads[u].feature].state == Active
    ensures var g, s' := s.threads[u].feature, RunThread(c, s, t, choice);
      g in s'.execs && s'.execs[g].state == Active
  {
    var th := s.threads[t];
    RunEffect(c, s, t, choice);
    if AtSection(th.pc) {
      OutcomeShape(c.defs[th.feature], s.execs[th.feature], th.pc, s.now, choice.later);
    }
  }

  /** A thread comes into its window by activating its feature. */
  lemma EntersWindow(c: Catalog, s: State, t: Tid, choice: Choice)
    requires Enabled(c, s, Run(t, choice))
    requires InWindow(s.threads[t]) ==> s.execs[s.threads[t].feature].state == Active
    ensures var s' := RunThread(c, s, t, choice);
      && t in s'.threads
      && (InWindow(s'.threads[t]) ==>
            s'.threads[t].feature in s'.execs && s'.execs[s'.threads[t].feature].state == Active)
  {
    var th := s.threads[t];
    RunEffect(c, s, t, choice);
    if !InStart(th) {
      WindowOnlyFromStart(c, s, t, choice);
    } else {
      StartShape(c, s, t, choice);
    }
  }

  lemma WindowsActiveStep(c: Catalog, s: State, a: Action)
    requires WindowsActive(s) && Enabled(c, s, a) && SparesStarts(c, s, a)
    ensures WindowsActive(Next(c, s, a))
  {
    if a.Run? {
      var s' := Next(c, s, a);
      OthersStay(c, s, a.t, a.choice);
      EntersWindow(c, s, a.t, a.choice);
      forall u | u in s'.threads && InWindow(s'.threads[u])
        ensures s'.threads[u].feature in s'.execs && s'.execs[s'.threads[u].feature].state == Active
      {
        if u != a.t {
          SparedStaysActive(c, s, a.t, a.choice, u);
        }
      }
    }
  }

  /** No step of the run acts on a feature that another thread is starting. */
  ghost predicate SparingRun(c: Catalog, states: seq<State>, actions: seq<Action>) {
    ValidRun(c, states, actions) && forall i :: 0 <= i < |actions| ==> SparesAt(c, states, actions, i)
  }

  ghost predicate SparesAt(c: Catalog, states: seq<State>, actions: seq<Action>, i: nat)
    requires i < |actions| && |states| == |actions| + 1
  {
    Enabled(c, states[i], actions[i]) && SparesStarts(c, states[i], actions[i])
  }

  lemma {:induction false} WindowsActiveTo(c: Catalog, states: seq<State>, actions: seq<Action>, n: nat)
    requires SparingRun(c, states, actions) && n < |states|
    ensures WindowsActive(states[n])
  {
    if n > 0 {
      WindowsActiveTo(c, states, actions, n - 1);
      assert StepAt(c, states, actions, n - 1) && SparesAt(c, states, actions, n - 1);
      WindowsActiveStep(c, states[n - 1], actions[n - 1]);
    }
  }

  /** Overlapping starts alone neither leak a socket nor leave the slot behind: that takes a section that ends the
      feature while it is being started. */
  lemma SparedStartsAreInTime(c: Catalog, states: seq<State>, actions: seq<Action>, i: nat)
    requires SparingRun(c, states, actions) && i < |actions|
    ensures !StoresLate(states[i], actions[i]) && !NamesLate(states[i], actions[i])
  {
    WindowsActiveTo(c, states, actions, i);
  }
}
