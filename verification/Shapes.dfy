/**
  What a step does to the table of threads: it moves its own thread, may add a worker, and leaves
  the other threads alone.
 */
module Shapes {
  import opened Execution
  import opened Lifecycle
  import opened Invariant

  /** The shape of the state after a section, without the case analysis over what the section did. */
  lemma LeaveShape(s: State, t: Tid, outcome: (Exec, Tail), next: Then)
    requires t in s.threads && s.threads[t].feature in s.execs
    ensures var f, s' := s.threads[t].feature, Leave(s, t, outcome, next);
      && s'.slot == s.slot && s'.execs == s.execs[f := outcome.0]
      && s'.starter == s.starter
      && t in s'.threads && s'.threads == s.threads[t := s'.threads[t]]
      && s'.threads[t] == Thread(f, match outcome.1
                                    case NoTail => Resume(next)
                                    case CloseOnly => TakeFds(false, next)
                                    case CloseAndClear => TakeFds(true, next))
      && s'.finisher == (if outcome.1 == CloseAndClear then s.finisher[f := t] else s.finisher)
  {
  }

  /** Starts touch no summary: their thread stays a start, and they may add a worker. */
  lemma StartShape(c: Catalog, s: State, t: Tid, choice: Choice)
    requires Enabled(c, s, Run(t, choice)) && AtStart(s.threads[t].pc)
    ensures var s' := RunStart(c, s, t, choice);
      && t in s'.threads && s'.threads[t].feature == s.threads[t].feature
      && !Summarising(s'.threads[t].pc)
      && (s'.threads == s.threads[t := s'.threads[t]] ||
          s'.threads == s.threads[choice.worker := Thread(s.threads[t].feature, WorkerReceive)][t := s'.threads[t]])
  {
    match s.threads[t].pc
    case StartOpen(_, _) =>
    case StartAbort(_) =>
    case StartActivate(_) =>
    case StartSetFds(_) =>
    case StartSetSlot =>
    case StartSpawn =>
  }

  lemma OtherShape(c: Catalog, s: State, t: Tid, choice: Choice)
    requires Enabled(c, s, Run(t, choice))
    requires !AtSection(s.threads[t].pc) && !AtTail(s.threads[t].pc) && !AtStart(s.threads[t].pc)
    ensures var s', th := RunOther(c, s, t, choice), s.threads[t];
      && t in s'.threads && s'.threads == s.threads[t := s'.threads[t]]
      && (if th.pc.Count? then
            s'.threads[t] == NextRow(c, th.feature, th.pc.rows + [Row(th.feature, View(s.execs[th.feature]))],
                                     CountIn(th.pc.counts, s.execs[th.feature].state))
          else !Summarising(s'.threads[t].pc))
  {
    match s.threads[t].pc
    case StartCheckSlot =>
    case StartCheckState =>
    case StartContract =>
    case StartMessage =>
    case WorkerReceive =>
    case Count(_, _) =>
    case _ =>
  }

  lemma TailShape(s: State, t: Tid)
    requires t in s.threads && s.threads[t].feature in s.execs && AtTail(s.threads[t].pc)
    ensures var s' := RunTail(s, t);
      t in s'.threads && s'.threads == s.threads[t := s'.threads[t]]
  {
  }

  lemma SectionShape(c: Catalog, s: State, t: Tid, choice: Choice)
    requires Enabled(c, s, Run(t, choice)) && AtSection(s.threads[t].pc)
    ensures var s' := RunThread(c, s, t, choice);
      t in s'.threads && s'.threads == s.threads[t := s'.threads[t]]
  {
    var th := s.threads[t];
    LeaveShape(if th.pc.TimeoutCheck? then s.(now := choice.later) else s, t,
               Outcome(c.defs[th.feature], s.execs[th.feature], th.pc, s.now, choice.later), SectionNext(th.pc));
  }

  lemma RunShape(c: Catalog, s: State, t: Tid, choice: Choice)
    requires Enabled(c, s, Run(t, choice))
    ensures var s' := RunThread(c, s, t, choice);
      && t in s'.threads
      && (s'.threads == s.threads[t := s'.threads[t]] ||
          s'.threads == s.threads[choice.worker := Thread(s.threads[t].feature, WorkerReceive)][t := s'.threads[t]] )
      && (s'.threads != s.threads[t := s'.threads[t]] ==> choice.worker !in s.threads)
  {
    if AtSection(s.threads[t].pc) {
      SectionShape(c, s, t, choice);
    } else if AtTail(s.threads[t].pc) {
      TailShape(s, t);
    } else if AtStart(s.threads[t].pc) {
      StartShape(c, s, t, choice);
    } else {
      OtherShape(c, s, t, choice);
    }
  }

  /** What a step does to the threads it does not run. */
  lemma OthersStay(c: Catalog, s: State, t: Tid, choice: Choice)
    requires Enabled(c, s, Run(t, choice))
    ensures var s' := RunThread(c, s, t, choice);
      && (forall u :: u in s.threads && u != t ==> u in s'.threads && s'.threads[u] == s.threads[u])
      && (forall u :: u in s'.threads && u !in s.threads ==> s'.threads[u].pc.WorkerReceive?)
  {
    RunShape(c, s, t, choice);
  }

  lemma StartStays(c: Catalog, s: State, t: Tid, choice: Choice)
    requires Enabled(c, s, Run(t, choice)) && AtStart(s.threads[t].pc) && !InStart(s.threads[t])
    ensures t in RunStart(c, s, t, choice).threads && !InStart(RunStart(c, s, t, choice).threads[t])
  {
    match s.threads[t].pc
    case StartAbort(_) =>
    case StartSpawn =>
  }

  lemma OtherStays(c: Catalog, s: State, t: Tid, choice: Choice)
    requires Enabled(c, s, Run(t, choice)) && !InStart(s.threads[t]) && !Enters(c, s, t)
    requires !AtSection(s.threads[t].pc) && !AtTail(s.threads[t].pc) && !AtStart(s.threads[t].pc)
    ensures t in RunOther(c, s, t, choice).threads && !InStart(RunOther(c, s, t, choice).threads[t])
  {
    match s.threads[t].pc
    case StartCheckSlot =>
    case StartCheckState =>
    case StartContract =>
    case StartMessage =>
    case WorkerReceive =>
    case Count(_, _) =>
    case _ =>
  }

  lemma TailStays(s: State, t: Tid)
    requires t in s.threads && s.threads[t].feature in s.execs && AtTail(s.threads[t].pc)
    ensures t in RunTail(s, t).threads && !InStart(RunTail(s, t).threads[t])
  {
    match s.threads[t].pc
    case TakeFds(_, _) =>
    case CloseFds(_, _, _) =>
    case ClearSlot(_) =>
  }

  /** Only a passed state check brings a thread into the critical region. */
  lemma StaysOutside(c: Catalog, s: State, t: Tid, choice: Choice)
    requires Enabled(c, s, Run(t, choice)) && !InStart(s.threads[t]) && !Enters(c, s, t)
    ensures t in RunThread(c, s, t, choice).threads && !InStart(RunThread(c, s, t, choice).threads[t])
  {
    var th := s.threads[t];
    if AtSection(th.pc) {
      LeaveShape(if th.pc.TimeoutCheck? then s.(now := choice.later) else s, t,
                 Outcome(c.defs[th.feature], s.execs[th.feature], th.pc, s.now, choice.later), SectionNext(th.pc));
    } else if AtTail(th.pc) {
      TailStays(s, t);
    } else if AtStart(th.pc) {
      StartStays(c, s, t, choice);
    } else {
      OtherStays(c, s, t, choice);
    }
  }

  // ------------------------------------------------------------------------ effects of a step

  /** What a step of a thread at pc makes of its execution. */
  function ExecAfter(def: Definition, e: Exec, pc: Pc, now: Time, choice: Choice): Exec {
    if AtSection(pc) then Outcome(def, e, pc, now, choice.later).0
    else
      match pc
      case TakeFds(_, _) => e.(fds := [])
      case StartActivate(_) => ActivateSection(def, e, now)
      case StartSetFds(fds) => e.(fds := fds)
      case StartContract => e.(contract := choice.contract)
      case StartMessage => StartedMessageSection(def, e)
      case _ => e
  }

  lemma TailEffect(s: State, t: Tid, def: Definition, choice: Choice)
    requires t in s.threads && s.threads[t].feature in s.execs && AtTail(s.threads[t].pc)
    ensures var f := s.threads[t].feature;
      RunTail(s, t).execs == s.execs[f := ExecAfter(def, s.execs[f], s.threads[t].pc, s.now, choice)]
    ensures RunTail(s, t).slot ==
      if s.threads[t].pc.ClearSlot? && s.slot == s.threads[t].feature then "" else s.slot
  {
    match s.threads[t].pc
    case TakeFds(_, _) =>
    case CloseFds(_, _, _) =>
    case ClearSlot(_) =>
  }

  lemma StartEffect(c: Catalog, s: State, t: Tid, choice: Choice)
    requires Enabled(c, s, Run(t, choice)) && AtStart(s.threads[t].pc)
    ensures var f := s.threads[t].feature;
      RunStart(c, s, t, choice).execs == s.execs[f := ExecAfter(c.defs[f], s.execs[f], s.threads[t].pc, s.now, choice)]
    ensures RunStart(c, s, t, choice).slot == if s.threads[t].pc.StartSetSlot? then s.threads[t].feature else s.slot
  {
    match s.threads[t].pc
    case StartOpen(_, _) =>
    case StartAbort(_) =>
    case StartActivate(_) =>
    case StartSetFds(_) =>
    case StartSetSlot =>
    case StartSpawn =>
  }

  lemma OtherEffect(c: Catalog, s: State, t: Tid, choice: Choice)
    requires Enabled(c, s, Run(t, choice))
    requires !AtSection(s.threads[t].pc) && !AtTail(s.threads[t].pc) && !AtStart(s.threads[t].pc)
    ensures var f := s.threads[t].feature;
      RunOther(c, s, t, choice).execs == s.execs[f := ExecAfter(c.defs[f], s.execs[f], s.threads[t].pc, s.now, choice)]
    ensures RunOther(c, s, t, choice).slot == s.slot
  {
    match s.threads[t].pc
    case StartCheckSlot =>
    case StartCheckState =>
    case StartContract =>
    case StartMessage =>
    case WorkerReceive =>
    case Count(_, _) =>
    case _ =>
  }

  /** A step changes one execution at most, and only two program points write the slot. */
  lemma RunEffect(c: Catalog, s: State, t: Tid, choice: Choice)
    requires Enabled(c, s, Run(t, choice))
    ensures var f, pc, s' := s.threads[t].feature, s.threads[t].pc, RunThread(c, s, t, choice);
      && s'.execs == s.execs[f := ExecAfter(c.defs[f], s.execs[f], pc, s.now, choice)]
      && s'.slot == if pc.StartSetSlot? then f else if pc.ClearSlot? && s.slot == f then "" else s.slot
  {
    var th := s.threads[t];
    if AtSection(th.pc) {
      LeaveShape(if th.pc.TimeoutCheck? then s.(now := choice.later) else s, t,
                 Outcome(c.defs[th.feature], s.execs[th.feature], th.pc, s.now, choice.later), SectionNext(th.pc));
    } else if AtTail(th.pc) {
      TailEffect(s, t, c.defs[th.feature], choice);
    } else if AtStart(th.pc) {
      StartEffect(c, s, t, choice);
    } else {
      OtherEffect(c, s, t, choice);
    }
  }
}
