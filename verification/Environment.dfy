/**
  The documented use of the server satisfies the environment assumption: requests that change a
  session are issued one at a time, and no start takes as long as its feature's timeout.
 */
module Environment {
  import opened Execution
  import opened Lifecycle
  import opened Invariant
  import opened Shapes
  import opened Steps

  /** A start, complete or unsupported request that has not been answered yet. */
  predicate Mutating(pc: Pc) {
    || pc.StartCheckSlot? || pc.StartCheckState? || AtStart(pc) || pc.StartContract? || pc.StartMessage?
    || pc.CompleteReport? || pc.UnsupportedReport?
    || (pc.TimeoutCheck? &&
        (pc.next.ThenTimeout? || pc.next.ThenStart? || pc.next.ThenComplete? || pc.next.ThenUnsupported?))
  }

  ghost predicate Serial(s: State) {
    forall t, u :: t in s.threads && u in s.threads && t != u ==>
      !(Mutating(s.threads[t].pc) && Mutating(s.threads[u].pc))
  }

  /** Between activating its feature and setting the slot a start spends less than the feature's timeout. */
  ghost predicate Prompt(c: Catalog, s: State) {
    forall t :: t in s.threads && InWindow(s.threads[t]) ==>
      var f := s.threads[t].feature;
      f in s.execs && f in c.defs ==> s.now < s.execs[f].startedAt + c.defs[f].timeout
  }

  /** The deadline of an active execution is its start plus its timeout. */
  ghost predicate Timed(c: Catalog, s: State) {
    forall f :: f in c.defs && f in s.execs && s.execs[f].state == Active ==>
      s.execs[f].deadlineAt == s.execs[f].startedAt + c.defs[f].timeout
  }

  /** While nobody else may change the session, what the slot check saw still holds at the state check. */
  predicate Checked(s: State) {
    forall t :: t in s.threads && s.threads[t].pc.StartCheckState? ==> s.slot == ""
  }

  lemma OutcomeTimes(def: Definition, e: Exec, pc: Pc, now: Time, later: Time)
    requires AtSection(pc)
    ensures var e' := Outcome(def, e, pc, now, later).0;
      && e'.startedAt == e.startedAt && e'.deadlineAt == e.deadlineAt
      && (e'.state == Active ==> e.state == Active)
  {
  }

  lemma TimedSection(c: Catalog, s: State, t: Tid, choice: Choice)
    requires Timed(c, s) && Enabled(c, s, Run(t, choice)) && AtSection(s.threads[t].pc)
    ensures Timed(c, RunThread(c, s, t, choice))
  {
    var th := s.threads[t];
    var s1 := if th.pc.TimeoutCheck? then s.(now := choice.later) else s;
    var outcome := Outcome(c.defs[th.feature], s.execs[th.feature], th.pc, s.now, choice.later);
    OutcomeTimes(c.defs[th.feature], s.execs[th.feature], th.pc, s.now, choice.later);
    LeaveShape(s1, t, outcome, SectionNext(th.pc));
  }

  lemma TimedTail(c: Catalog, s: State, t: Tid)
    requires Timed(c, s) && t in s.threads && s.threads[t].feature in s.execs && AtTail(s.threads[t].pc)
    ensures Timed(c, RunTail(s, t))
  {
    match s.threads[t].pc
    case TakeFds(_, _) =>
    case CloseFds(_, _, _) =>
    case ClearSlot(_) =>
  }

  lemma TimedStart(c: Catalog, s: State, t: Tid, choice: Choice)
    requires Timed(c, s) && Enabled(c, s, Run(t, choice)) && AtStart(s.threads[t].pc)
    ensures Timed(c, RunStart(c, s, t, choice))
  {
    match s.threads[t].pc
    case StartOpen(_, _) =>
    case StartAbort(_) =>
    case StartActivate(_) =>
    case StartSetFds(_) =>
    case StartSetSlot =>
    case StartSpawn =>
  }

  lemma TimedOther(c: Catalog, s: State, t: Tid, choice: Choice)
    requires Timed(c, s) && Enabled(c, s, Run(t, choice))
    requires !AtSection(s.threads[t].pc) && !AtTail(s.threads[t].pc) && !AtStart(s.threads[t].pc)
    ensures Timed(c, RunOther(c, s, t, choice)) && RunOther(c, s, t, choice).slot == s.slot
  {
    match s.threads[t].pc
    case StartCheckSlot =>
    case StartCheckState =>
    case StartContract =>
    case StartMessage =>
    case WorkerReceive =>
    case Count(_, _) =>
    case _ =>
  }

  lemma TimedStep(c: Catalog, s: State, a: Action)
    requires Timed(c, s) && Enabled(c, s, a)
    ensures Timed(c, Next(c, s, a))
  {
    match a
    case Tick(_) =>
    case Arrive(_, _) =>
    case Run(t, choice) =>
      if AtSection(s.threads[t].pc) {
        TimedSection(c, s, t, choice);
      } else if AtTail(s.threads[t].pc) {
        TimedTail(c, s, t);
      } else if AtStart(s.threads[t].pc) {
        TimedStart(c, s, t, choice);
      } else {
        TimedOther(c, s, t, choice);
      }
  }

  /** Only a start fills the slot, and it is a mutating request. */
  lemma SlotFilledByStart(c: Catalog, s: State, t: Tid, choice: Choice)
    requires Enabled(c, s, Run(t, choice)) && !s.threads[t].pc.StartSetSlot?
    ensures RunThread(c, s, t, choice).slot in {s.slot, ""}
  {
    var th := s.threads[t];
    if AtSection(th.pc) {
      LeaveShape(if th.pc.TimeoutCheck? then s.(now := choice.later) else s, t,
                 Outcome(c.defs[th.feature], s.execs[th.feature], th.pc, s.now, choice.later), SectionNext(th.pc));
    } else if !AtTail(th.pc) && !AtStart(th.pc) {
      OtherSlot(c, s, t, choice);
    }
  }

  lemma OtherSlot(c: Catalog, s: State, t: Tid, choice: Choice)
    requires Enabled(c, s, Run(t, choice))
    requires !AtSection(s.threads[t].pc) && !AtTail(s.threads[t].pc) && !AtStart(s.threads[t].pc)
    ensures RunOther(c, s, t, choice).slot == s.slot
    ensures t in RunOther(c, s, t, choice).threads
    ensures RunOther(c, s, t, choice).threads[t].pc.StartCheckState? ==> s.slot == ""
  {
    match s.threads[t].pc
    case StartCheckSlot =>
    case StartCheckState =>
    case StartContract =>
    case StartMessage =>
    case WorkerReceive =>
    case Count(_, _) =>
    case _ =>
  }

  /** The state check is reached only through the slot check. */
  lemma CheckReached(c: Catalog, s: State, t: Tid, choice: Choice)
    requires Enabled(c, s, Run(t, choice))
    ensures var s' := RunThread(c, s, t, choice);
      t in s'.threads && (s'.threads[t].pc.StartCheckState? ==> s'.slot == "")
  {
    var th := s.threads[t];
    if AtSection(th.pc) {
      LeaveShape(if th.pc.TimeoutCheck? then s.(now := choice.later) else s, t,
                 Outcome(c.defs[th.feature], s.execs[th.feature], th.pc, s.now, choice.later), SectionNext(th.pc));
    } else if AtTail(th.pc) {
      TailCheck(s, t);
    } else if AtStart(th.pc) {
      StartCheck(c, s, t, choice);
    } else {
      OtherSlot(c, s, t, choice);
    }
  }

  lemma TailCheck(s: State, t: Tid)
    requires t in s.threads && s.threads[t].feature in s.execs && AtTail(s.threads[t].pc)
    ensures t in RunTail(s, t).threads && !RunTail(s, t).threads[t].pc.StartCheckState?
  {
    match s.threads[t].pc
    case TakeFds(_, _) =>
    case CloseFds(_, _, _) =>
    case ClearSlot(_) =>
  }

  lemma StartCheck(c: Catalog, s: State, t: Tid, choice: Choice)
    requires Enabled(c, s, Run(t, choice)) && AtStart(s.threads[t].pc)
    ensures t in RunStart(c, s, t, choice).threads && !RunStart(c, s, t, choice).threads[t].pc.StartCheckState?
  {
    match s.threads[t].pc
    case StartOpen(_, _) =>
    case StartAbort(_) =>
    case StartActivate(_) =>
    case StartSetFds(_) =>
    case StartSetSlot =>
    case StartSpawn =>
  }

  lemma CheckedStep(c: Catalog, s: State, a: Action)
    requires Checked(s) && Serial(s) && Enabled(c, s, a)
    ensures Checked(Next(c, s, a))
  {
    match a
    case Tick(_) =>
    case Arrive(_, _) =>
    case Run(t, choice) =>
      OthersStay(c, s, t, choice);
      CheckReached(c, s, t, choice);
      if !s.threads[t].pc.StartSetSlot? {
        SlotFilledByStart(c, s, t, choice);
      }
  }

  /** In serial and prompt use no section finds an execution that another thread is starting open to it. */
  lemma NobodyActs(c: Catalog, s: State, t: Tid, u: Tid, choice: Choice)
    requires ValidCatalog(c) && Core(c, s) && Serial(s) && Prompt(c, s) && Timed(c, s)
    requires Enabled(c, s, Run(t, choice)) && u in s.threads && u != t && InStart(s.threads[u])
    requires s.threads[u].feature == s.threads[t].feature
    ensures !Acts(c, s, t, choice)
  {
    var th := s.threads[t];
    assert ThreadOk(c, s, th) && ThreadOk(c, s, s.threads[u]);
    assert Mutating(s.threads[u].pc);
  }

  lemma EnvStep(c: Catalog, s: State, a: Action)
    requires ValidCatalog(c) && Core(c, s) && Serial(s) && Prompt(c, s) && Timed(c, s) && Checked(s)
    requires Enabled(c, s, a)
    ensures Env(c, s, a)
  {
    if a.Run? {
      forall u | u in s.threads && u != a.t && InStart(s.threads[u])
        ensures !Enters(c, s, a.t)
        ensures Acts(c, s, a.t, a.choice) ==> s.threads[u].feature != s.threads[a.t].feature
      {
        assert Mutating(s.threads[u].pc);
        if s.threads[u].feature == s.threads[a.t].feature {
          NobodyActs(c, s, a.t, u, a.choice);
        }
      }
    }
  }

  ghost predicate UsedAsDocumented(c: Catalog, states: seq<State>) {
    forall i :: 0 <= i < |states| ==> Serial(states[i]) && Prompt(c, states[i])
  }

  lemma {:induction false} DocumentedPrefix(c: Catalog, states: seq<State>, actions: seq<Action>, n: nat)
    requires ValidCatalog(c) && ValidRun(c, states, actions) && UsedAsDocumented(c, states) && n < |states|
    ensures EnvRun(c, states[..n + 1], actions[..n]) && Timed(c, states[n]) && Checked(states[n])
  {
    if n > 0 {
      var k := n - 1;
      DocumentedPrefix(c, states, actions, k);
      CoreAlways(c, states[..n], actions[..k], k);
      assert StepAt(c, states, actions, k);
      EnvStep(c, states[k], actions[k]);
      TimedStep(c, states[k], actions[k]);
      CheckedStep(c, states[k], actions[k]);
      ExtendPrefix(c, states, actions, k);
    }
    if n == 0 {
      assert states[..1][0] == states[0];
    }
  }

  lemma ExtendPrefix(c: Catalog, states: seq<State>, actions: seq<Action>, k: nat)
    requires ValidRun(c, states, actions) && k < |actions| && EnvRun(c, states[..k + 1], actions[..k])
    requires EnvAt(c, states, actions, k)
    ensures EnvRun(c, states[..k + 2], actions[..k + 1])
  {
    var ss, as' := states[..k + 2], actions[..k + 1];
    forall i | 0 <= i < |as'| ensures StepAt(c, ss, as', i) && EnvAt(c, ss, as', i) {
      assert StepAt(c, states, actions, i);
      if i < k {
        assert EnvAt(c, states[..k + 1], actions[..k], i);
      }
    }
    assert ss[0] == states[0];
  }

  /** Every run in which the mutating requests of the session are issued one at a time and no start takes as
      long as its timeout satisfies the environment assumption throughout. */
  lemma SerialUseSuffices(c: Catalog, states: seq<State>, actions: seq<Action>)
    requires ValidCatalog(c) && ValidRun(c, states, actions) && UsedAsDocumented(c, states)
    ensures EnvRun(c, states, actions)
  {
    DocumentedPrefix(c, states, actions, |actions|);
    assert states[..|actions| + 1] == states && actions[..|actions|] == actions;
  }
}
