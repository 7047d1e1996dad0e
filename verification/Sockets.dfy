/**
  Listening sockets as unique tokens: in every interleaving, with or without the environment
  assumption, a socket sits in at most one place and is closed at most once.
 */
module Sockets {
  import opened Execution
  import opened Lifecycle

  datatype Place = InExec(f: Id) | InThread(t: Tid) | InLog

  function PcFds(pc: Pc): seq<Fd> {
    match pc
    case CloseFds(fds, _, _) => fds
    case StartOpen(fds, _) => fds
    case StartAbort(fds) => fds
    case StartActivate(fds) => fds
    case StartSetFds(fds) => fds
    case _ => []
  }

  function Held(s: State, p: Place): seq<Fd> {
    match p
    case InExec(f) => if f in s.execs then s.execs[f].fds else []
    case InThread(t) => if t in s.threads then PcFds(s.threads[t].pc) else []
    case InLog => s.closed
  }

  ghost predicate NoDup(fds: seq<Fd>) {
    forall i, j :: 0 <= i < j < |fds| ==> fds[i] != fds[j]
  }

  ghost predicate Unique(s: State) {
    && (forall p :: NoDup(Held(s, p)))
    && (forall p, x :: x in Held(s, p) ==> x < s.nextFd)
    && (forall p, q, x :: x in Held(s, p) && x in Held(s, q) ==> p == q)
  }

  /** Nothing is held anywhere that was not held there before. */
  lemma UniqueShrinks(s: State, s': State)
    requires Unique(s) && s.nextFd <= s'.nextFd
    requires forall p :: Held(s', p) == Held(s, p) || Held(s', p) == []
    ensures Unique(s')
  {
    forall p ensures NoDup(Held(s', p)) {
      assert NoDup(Held(s, p));
    }
    forall p, q, x | x in Held(s', p) && x in Held(s', q) ensures p == q {
      assert x in Held(s, p) && x in Held(s, q);
    }
    forall p, x | x in Held(s', p) ensures x < s'.nextFd {
      assert x in Held(s, p);
    }
  }

  /** Everything held at one place moves to another one, whose old contents are dropped. */
  lemma UniqueMove(s: State, s': State, source: Place, target: Place)
    requires Unique(s) && s.nextFd == s'.nextFd && source != target
    requires Held(s', target) == Held(s, source) && Held(s', source) == []
    requires forall p :: p != source && p != target ==> Held(s', p) == Held(s, p)
    ensures Unique(s')
  {
    forall p ensures NoDup(Held(s', p)) {
      assert NoDup(Held(s, p)) && NoDup(Held(s, source));
    }
    forall p, x | x in Held(s', p) ensures x < s'.nextFd {
      assert x in Held(s, p) || x in Held(s, source);
    }
    forall p, q, x | x in Held(s', p) && x in Held(s', q) ensures p == q {
      var p0 := if p == target then source else p;
      var q0 := if q == target then source else q;
      assert x in Held(s, p0) && x in Held(s, q0);
    }
  }

  /** One socket is closed: it leaves the front of its thread's list for the log. */
  lemma UniqueClose(s: State, s': State, source: Place)
    requires Unique(s) && s.nextFd == s'.nextFd && source != InLog
    requires Held(s, source) != []
    requires Held(s', source) == Held(s, source)[1..]
    requires s'.closed == s.closed + [Held(s, source)[0]]
    requires forall p :: p != source && p != InLog ==> Held(s', p) == Held(s, p)
    ensures Unique(s')
  {
    var fds := Held(s, source);
    assert NoDup(fds);
    assert fds[0] in Held(s, source);
    assert Held(s, InLog) == s.closed;
    forall p ensures NoDup(Held(s', p)) {
      assert NoDup(Held(s, p));
    }
    forall p, x | x in Held(s', p) ensures x < s'.nextFd {
      assert x in Held(s, p) || x in fds;
    }
    forall p, q, x | x in Held(s', p) && x in Held(s', q) ensures p == q {
      var p0 := if p == InLog && x == fds[0] then source else p;
      var q0 := if q == InLog && x == fds[0] then source else q;
      assert x in Held(s, p0) && x in Held(s, q0);
    }
  }

  /** A new token appears at the end of one list. */
  lemma UniqueOpen(s: State, s': State, target: Place)
    requires Unique(s) && s'.nextFd == s.nextFd + 1 && target != InLog
    requires Held(s', target) == Held(s, target) + [s.nextFd]
    requires forall p :: p != target ==> Held(s', p) == Held(s, p)
    ensures Unique(s')
  {
    forall p ensures NoDup(Held(s', p)) {
      assert NoDup(Held(s, p));
      forall x | x in Held(s, p) ensures x < s.nextFd { }
      forall i, j | 0 <= i < j < |Held(s', p)| ensures Held(s', p)[i] != Held(s', p)[j] {
        assert Held(s, p)[i] in Held(s, p);
      }
    }
    forall p, x | x in Held(s', p) ensures x < s'.nextFd {
      assert x in Held(s, p) || x == s.nextFd;
    }
    forall p, q, x | x in Held(s', p) && x in Held(s', q) ensures p == q {
      if x != s.nextFd {
        assert x in Held(s, p) && x in Held(s, q);
      } else {
        assert x !in Held(s, p) && x !in Held(s, q);
      }
    }
  }

  lemma OutcomeKeepsFds(def: Definition, e: Exec, pc: Pc, now: Time, later: Time)
    requires AtSection(pc)
    ensures Outcome(def, e, pc, now, later).0.fds == e.fds
  {
  }

  lemma GotoHeld(s: State, t: Tid, pc: Pc, p: Place)
    requires t in s.threads
    ensures Held(Goto(s, t, pc), p) == if p == InThread(t) then PcFds(pc) else Held(s, p)
  {
  }

  lemma GotoUnique(s: State, t: Tid, pc: Pc)
    requires t in s.threads && Unique(s)
    requires PcFds(pc) == PcFds(s.threads[t].pc) || PcFds(pc) == []
    ensures Unique(Goto(s, t, pc))
  {
    forall p ensures Held(Goto(s, t, pc), p) == Held(s, p) || Held(Goto(s, t, pc), p) == [] {
      GotoHeld(s, t, pc, p);
    }
    UniqueShrinks(s, Goto(s, t, pc));
  }

  /** Updating an execution without touching its sockets. */
  lemma ExecUnique(s: State, s': State, f: Id, e: Exec)
    requires Unique(s) && f in s.execs && e.fds == s.execs[f].fds
    requires s'.execs == s.execs[f := e]
    requires s'.threads == s.threads && s'.closed == s.closed && s'.nextFd == s.nextFd
    ensures Unique(s')
  {
    forall p ensures Held(s', p) == Held(s, p) { }
    UniqueShrinks(s, s');
  }

  lemma SectionUnique(c: Catalog, s: State, t: Tid, choice: Choice)
    requires Unique(s) && Enabled(c, s, Run(t, choice)) && AtSection(s.threads[t].pc)
    ensures Unique(RunThread(c, s, t, choice))
  {
    var th := s.threads[t];
    var e := s.execs[th.feature];
    var outcome := Outcome(c.defs[th.feature], e, th.pc, s.now, choice.later);
    OutcomeKeepsFds(c.defs[th.feature], e, th.pc, s.now, choice.later);
    var s1 := if th.pc.TimeoutCheck? then s.(now := choice.later) else s;
    var s2 := s1.(execs := s1.execs[th.feature := outcome.0]);
    ExecUnique(s, s2, th.feature, outcome.0);
    LeaveUnique(s1, s2, t, outcome, SectionNext(th.pc));
  }

  lemma LeaveUnique(s: State, s2: State, t: Tid, outcome: (Exec, Tail), next: Then)
    requires t in s.threads && s2 == s.(execs := s.execs[s.threads[t].feature := outcome.0])
    requires Unique(s2)
    ensures Unique(Leave(s, t, outcome, next))
  {
    match outcome.1
    case NoTail => GotoUnique(s2, t, Resume(next));
    case CloseOnly => GotoUnique(s2, t, TakeFds(false, next));
    case CloseAndClear =>
      var s3 := s2.(finisher := s2.finisher[s.threads[t].feature := t]);
      forall p ensures Held(s3, p) == Held(s2, p) { }
      UniqueShrinks(s2, s3);
      GotoUnique(s3, t, TakeFds(true, next));
  }

  lemma TakeUnique(s: State, s': State, t: Tid, pc: Pc)
    requires Unique(s) && t in s.threads && s.threads[t].feature in s.execs && PcFds(s.threads[t].pc) == []
    requires var f := s.threads[t].feature;
      && PcFds(pc) == s.execs[f].fds
      && s' == Goto(s.(execs := s.execs[f := s.execs[f].(fds := [])]), t, pc)
    ensures Unique(s')
  {
    var f := s.threads[t].feature;
    var s1 := s.(execs := s.execs[f := s.execs[f].(fds := [])]);
    forall p ensures Held(s', p) == if p == InThread(t) then PcFds(pc) else Held(s1, p) {
      GotoHeld(s1, t, pc, p);
    }
    UniqueMove(s, s', InExec(f), InThread(t));
  }

  lemma CloseUnique(s: State, s': State, t: Tid, pc: Pc)
    requires Unique(s) && t in s.threads && PcFds(s.threads[t].pc) != []
    requires PcFds(pc) == PcFds(s.threads[t].pc)[1..]
    requires s' == Goto(s.(closed := s.closed + [PcFds(s.threads[t].pc)[0]]), t, pc)
    ensures Unique(s')
  {
    var s1 := s.(closed := s.closed + [PcFds(s.threads[t].pc)[0]]);
    forall p ensures Held(s', p) == if p == InThread(t) then PcFds(pc) else Held(s1, p) {
      GotoHeld(s1, t, pc, p);
    }
    UniqueClose(s, s', InThread(t));
  }

  lemma TailUnique(s: State, t: Tid)
    requires Unique(s) && t in s.threads && s.threads[t].feature in s.execs && AtTail(s.threads[t].pc)
    ensures Unique(RunTail(s, t))
  {
    match s.threads[t].pc
    case TakeFds(clear, next) =>
      TakeUnique(s, RunTail(s, t), t, CloseFds(s.execs[s.threads[t].feature].fds, clear, next));
    case CloseFds(fds, clear, next) =>
      if fds != [] {
        CloseUnique(s, RunTail(s, t), t, CloseFds(fds[1..], clear, next));
      } else {
        GotoUnique(s, t, if clear then ClearSlot(next) else Resume(next));
      }
    case ClearSlot(next) =>
      var s1 := s.(slot := if s.slot == s.threads[t].feature then "" else s.slot);
      forall p ensures Held(s1, p) == Held(s, p) { }
      UniqueShrinks(s, s1);
      GotoUnique(s1, t, Resume(next));
  }

  lemma OpenUnique(s: State, s': State, t: Tid, pc: Pc)
    requires Unique(s) && t in s.threads
    requires PcFds(pc) == PcFds(s.threads[t].pc) + [s.nextFd]
    requires s' == Goto(s.(nextFd := s.nextFd + 1, owner := s'.owner), t, pc)
    ensures Unique(s')
  {
    forall p ensures Held(s', p) == if p == InThread(t) then PcFds(pc) else Held(s, p) {
      GotoHeld(s.(nextFd := s.nextFd + 1, owner := s'.owner), t, pc, p);
    }
    UniqueOpen(s, s', InThread(t));
  }

  lemma ListenUnique(c: Catalog, s: State, t: Tid, choice: Choice)
    requires Unique(s) && Enabled(c, s, Run(t, choice)) && (s.threads[t].pc.StartOpen? || s.threads[t].pc.StartAbort?)
    ensures Unique(RunStart(c, s, t, choice))
  {
    var s' := RunStart(c, s, t, choice);
    match s.threads[t].pc
    case StartOpen(fds, left) =>
      if left == 0 {
        GotoUnique(s, t, StartActivate(fds));
      } else if choice.created {
        OpenUnique(s, s', t, StartOpen(fds + [s.nextFd], left - 1));
      } else {
        GotoUnique(s, t, StartAbort(fds));
      }
    case StartAbort(fds) =>
      if fds != [] {
        CloseUnique(s, s', t, StartAbort(fds[1..]));
      } else {
        GotoUnique(s, t, Done);
      }
  }

  lemma StartUnique(c: Catalog, s: State, t: Tid, choice: Choice)
    requires Unique(s) && Enabled(c, s, Run(t, choice)) && AtStart(s.threads[t].pc)
    ensures Unique(RunStart(c, s, t, choice))
  {
    var s' := RunStart(c, s, t, choice);
    var f := s.threads[t].feature;
    match s.threads[t].pc
    case StartOpen(fds, left) => ListenUnique(c, s, t, choice);
    case StartAbort(fds) => ListenUnique(c, s, t, choice);
    case StartActivate(fds) =>
      var e := ActivateSection(c.defs[f], s.execs[f], s.now);
      var s1 := s.(execs := s.execs[f := e], starter := s.starter[f := t]);
      ExecUnique(s, s1, f, e);
      GotoUnique(s1, t, if c.defs[f].kind == AgentOnly then StartSetSlot else StartSetFds(fds));
    case StartSetFds(fds) =>
      var s1 := s.(execs := s.execs[f := s.execs[f].(fds := fds)]);
      forall p ensures Held(s', p) == if p == InThread(t) then [] else Held(s1, p) {
        GotoHeld(s1, t, StartSetSlot, p);
      }
      UniqueMove(s, s', InThread(t), InExec(f));
    case StartSetSlot =>
      var s1 := s.(slot := f);
      forall p ensures Held(s1, p) == Held(s, p) { }
      UniqueShrinks(s, s1);
      GotoUnique(s1, t, if c.defs[f].kind == AgentOnly then StartContract else StartSpawn);
    case StartSpawn =>
      var s1 := s.(threads := s.threads[choice.worker := Thread(f, WorkerReceive)]);
      forall p ensures Held(s1, p) == Held(s, p) { }
      UniqueShrinks(s, s1);
      GotoUnique(s1, t, StartContract);
  }

  lemma OtherUnique(c: Catalog, s: State, t: Tid, choice: Choice)
    requires Unique(s) && Enabled(c, s, Run(t, choice))
    requires !AtSection(s.threads[t].pc) && !AtTail(s.threads[t].pc) && !AtStart(s.threads[t].pc)
    ensures Unique(RunOther(c, s, t, choice))
  {
    var s' := RunOther(c, s, t, choice);
    forall p ensures Held(s', p) == Held(s, p) || Held(s', p) == [] { }
    UniqueShrinks(s, s');
  }

  lemma UniqueStep(c: Catalog, s: State, a: Action)
    requires Unique(s) && Enabled(c, s, a)
    ensures Unique(Next(c, s, a))
  {
    match a
    case Tick(to) =>
      forall p ensures Held(Next(c, s, a), p) == Held(s, p) { }
      UniqueShrinks(s, Next(c, s, a));
    case Arrive(_, _) =>
      forall p ensures Held(Next(c, s, a), p) == Held(s, p) { }
      UniqueShrinks(s, Next(c, s, a));
    case Run(t, choice) =>
      if AtSection(s.threads[t].pc) {
        SectionUnique(c, s, t, choice);
      } else if AtTail(s.threads[t].pc) {
        TailUnique(s, t);
      } else if AtStart(s.threads[t].pc) {
        StartUnique(c, s, t, choice);
      } else {
        OtherUnique(c, s, t, choice);
      }
  }

  lemma {:induction false} UniqueAlways(c: Catalog, states: seq<State>, actions: seq<Action>, i: nat)
    requires ValidRun(c, states, actions) && i < |states|
    ensures Unique(states[i])
  {
    if i > 0 {
      UniqueAlways(c, states, actions, i - 1);
      assert StepAt(c, states, actions, i - 1);
      UniqueStep(c, states[i - 1], actions[i - 1]);
    }
  }

  /** No close() is ever issued twice for one socket, in any interleaving whatsoever. */
  lemma NoDoubleClose(c: Catalog, states: seq<State>, actions: seq<Action>, i: nat)
    requires ValidRun(c, states, actions) && i < |states|
    ensures NoDup(states[i].closed)
    ensures forall x :: x in states[i].closed ==> x < states[i].nextFd
  {
    UniqueAlways(c, states, actions, i);
    assert Held(states[i], InLog) == states[i].closed;
    assert NoDup(Held(states[i], InLog));
  }
}
