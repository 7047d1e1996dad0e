/**
  The counts of a summary, which add up in every interleaving.
 */
module Counting {
  import opened Execution
  import opened Lifecycle
  import opened Invariant
  import opened Shapes

  function Total(k: Counts): nat {
    k.passed + k.failed + k.unsupported + k.timedOut + k.pending + k.active
  }

  lemma {:induction false} TallyTotal(rows: seq<Row>)
    ensures Total(Tally(rows)) == |rows|
  {
    if rows != [] {
      TallyTotal(rows[..|rows| - 1]);
    }
  }

  /** The counts of a summary are those of its rows; it reads the catalog in order and returns with a row for
      each feature. */
  predicate CountOk(c: Catalog, th: Thread) {
    && PlainNext(NextOf(th.pc))
    && (Summarising(th.pc) ==>
          && CountsOf(th.pc) == Tally(RowsOf(th.pc))
          && (if th.pc.SummaryDone? then |RowsOf(th.pc)| == |c.order|
              else |RowsOf(th.pc)| < |c.order| && th.feature == c.order[|RowsOf(th.pc)|]))
  }

  lemma RowCounted(c: Catalog, feature: Id, rows: seq<Row>, row: Row)
    requires |rows| < |c.order|
    ensures CountOk(c, NextRow(c, feature, rows + [row], CountIn(Tally(rows), row.view.state)))
  {
    var all := rows + [row];
    assert all[..|all| - 1] == rows && all[|all| - 1] == row;
  }

  lemma ResumeCounted(c: Catalog, th: Thread, pc': Pc)
    requires CountOk(c, th) && !th.pc.SummaryDone? && !th.pc.Count?
    requires (NextOf(pc') == NextOf(th.pc) && !pc'.Count? && !pc'.SummaryDone?) || pc' == Resume(NextOf(th.pc))
    ensures CountOk(c, th.(pc := pc'))
  {
  }

  lemma SectionCounted(c: Catalog, s: State, t: Tid, choice: Choice)
    requires Enabled(c, s, Run(t, choice)) && AtSection(s.threads[t].pc) && CountOk(c, s.threads[t])
    ensures t in RunThread(c, s, t, choice).threads && CountOk(c, RunThread(c, s, t, choice).threads[t])
  {
    var th := s.threads[t];
    LeaveShape(if th.pc.TimeoutCheck? then s.(now := choice.later) else s, t,
               Outcome(c.defs[th.feature], s.execs[th.feature], th.pc, s.now, choice.later), SectionNext(th.pc));
    ResumeCounted(c, th, RunThread(c, s, t, choice).threads[t].pc);
  }

  lemma TailStep(s: State, t: Tid)
    requires t in s.threads && s.threads[t].feature in s.execs && AtTail(s.threads[t].pc)
    ensures var pc, s' := s.threads[t].pc, RunTail(s, t);
      && t in s'.threads && s'.threads[t].feature == s.threads[t].feature
      && ((NextOf(s'.threads[t].pc) == NextOf(pc) && !s'.threads[t].pc.Count? && !s'.threads[t].pc.SummaryDone?)
          || s'.threads[t].pc == Resume(NextOf(pc)))
  {
    match s.threads[t].pc
    case TakeFds(_, _) =>
    case CloseFds(_, _, _) =>
    case ClearSlot(_) =>
  }

  lemma TailCounted(c: Catalog, s: State, t: Tid)
    requires t in s.threads && s.threads[t].feature in s.execs && AtTail(s.threads[t].pc) && CountOk(c, s.threads[t])
    ensures t in RunTail(s, t).threads && CountOk(c, RunTail(s, t).threads[t])
  {
    TailStep(s, t);
    ResumeCounted(c, s.threads[t], RunTail(s, t).threads[t].pc);
  }

  lemma OtherCounted(c: Catalog, s: State, t: Tid, choice: Choice)
    requires Enabled(c, s, Run(t, choice)) && CountOk(c, s.threads[t])
    requires !AtSection(s.threads[t].pc) && !AtTail(s.threads[t].pc) && !AtStart(s.threads[t].pc)
    ensures t in RunOther(c, s, t, choice).threads && CountOk(c, RunOther(c, s, t, choice).threads[t])
  {
    var th := s.threads[t];
    OtherShape(c, s, t, choice);
    if th.pc.Count? {
      RowCounted(c, th.feature, th.pc.rows, Row(th.feature, View(s.execs[th.feature])));
    } else {
      OtherPlain(c, s, t, choice);
    }
  }

  lemma OtherPlain(c: Catalog, s: State, t: Tid, choice: Choice)
    requires Enabled(c, s, Run(t, choice)) && PlainNext(NextOf(s.threads[t].pc)) && !s.threads[t].pc.Count?
    requires !AtSection(s.threads[t].pc) && !AtTail(s.threads[t].pc) && !AtStart(s.threads[t].pc)
    ensures t in RunOther(c, s, t, choice).threads && PlainNext(NextOf(RunOther(c, s, t, choice).threads[t].pc))
  {
    match s.threads[t].pc
    case StartCheckSlot =>
    case StartCheckState =>
    case StartContract =>
    case StartMessage =>
    case WorkerReceive =>
    case _ =>
  }

  lemma StartPlain(c: Catalog, s: State, t: Tid, choice: Choice)
    requires Enabled(c, s, Run(t, choice)) && AtStart(s.threads[t].pc)
    ensures t in RunStart(c, s, t, choice).threads && CountOk(c, RunStart(c, s, t, choice).threads[t])
  {
    StartShape(c, s, t, choice);
  }

  lemma NewCounted(c: Catalog, request: Request)
    ensures CountOk(c, NewThread(c, request))
  {
    assert Tally([]) == NO_COUNTS;
  }

  lemma CountedStep(c: Catalog, s: State, a: Action, u: Tid)
    requires Enabled(c, s, a) && u in Next(c, s, a).threads
    requires u in s.threads ==> CountOk(c, s.threads[u])
    ensures CountOk(c, Next(c, s, a).threads[u])
  {
    match a
    case Tick(_) =>
    case Arrive(t, request) => NewCounted(c, request);
    case Run(t, choice) =>
      if t != u {
        RunShape(c, s, t, choice);
      } else if AtSection(s.threads[u].pc) {
        SectionCounted(c, s, u, choice);
      } else if AtTail(s.threads[u].pc) {
        TailCounted(c, s, u);
      } else if AtStart(s.threads[u].pc) {
        StartPlain(c, s, u, choice);
      } else {
        OtherCounted(c, s, u, choice);
      }
  }

  lemma {:induction false} CountedAlways(c: Catalog, states: seq<State>, actions: seq<Action>, i: nat, t: Tid)
    requires ValidRun(c, states, actions) && i < |states| && t in states[i].threads
    ensures CountOk(c, states[i].threads[t])
  {
    if i > 0 {
      assert StepAt(c, states, actions, i - 1);
      if t in states[i - 1].threads {
        CountedAlways(c, states, actions, i - 1, t);
      }
      CountedStep(c, states[i - 1], actions[i - 1], t);
    }
  }

  /** The six counts of every returned summary sum to the size of the catalog, in every interleaving
      whatsoever. */
  lemma CountsSumToCatalog(c: Catalog, states: seq<State>, actions: seq<Action>, i: nat, t: Tid)
    requires ValidRun(c, states, actions) && i < |states|
    requires t in states[i].threads && states[i].threads[t].pc.SummaryDone?
    ensures Total(states[i].threads[t].pc.counts) == |c.order|
  {
    CountedAlways(c, states, actions, i, t);
    TallyTotal(states[i].threads[t].pc.rows);
  }

  // ------------------------------------------------------------------------ what the counts count

  /** The rows of a summary that show a feature in this state. */
  function InState(rows: seq<Row>, state: FeatureState): set<nat> {
    set i: nat | i < |rows| && rows[i].view.state == state
  }

  ghost predicate CountsAre(k: Counts, rows: seq<Row>) {
    && k.passed == |InState(rows, Passed)| && k.failed == |InState(rows, Failed)|
    && k.unsupported == |InState(rows, Unsupported)| && k.timedOut == |InState(rows, TimedOut)|
    && k.pending == |InState(rows, Pending)| && k.active == |InState(rows, Active)|
  }

  lemma InStateSnoc(rows: seq<Row>, row: Row, state: FeatureState)
    ensures |InState(rows + [row], state)| == |InState(rows, state)| + (if row.view.state == state then 1 else 0)
  {
    if row.view.state == state {
      assert InState(rows + [row], state) == InState(rows, state) + {|rows|};
    } else {
      assert InState(rows + [row], state) == InState(rows, state);
    }
  }

  lemma CountsGrow(k: Counts, rows: seq<Row>, row: Row)
    requires CountsAre(k, rows)
    ensures CountsAre(CountIn(k, row.view.state), rows + [row])
  {
    InStateSnoc(rows, row, Passed);
    InStateSnoc(rows, row, Failed);
    InStateSnoc(rows, row, Unsupported);
    InStateSnoc(rows, row, TimedOut);
    InStateSnoc(rows, row, Pending);
    InStateSnoc(rows, row, Active);
  }

  lemma {:induction false} TallyCounts(rows: seq<Row>)
    ensures CountsAre(Tally(rows), rows)
  {
    if rows == [] {
      assert forall state :: InState(rows, state) == {};
    } else {
      var front, last := rows[..|rows| - 1], rows[|rows| - 1];
      TallyCounts(front);
      CountsGrow(Tally(front), front, last);
      assert front + [last] == rows;
    }
  }

  /** In every run, each of the six counts of a summary, returned or under way, is the number of its rows in that
      state. */
  lemma CountsCountRows(c: Catalog, states: seq<State>, actions: seq<Action>, i: nat, t: Tid)
    requires ValidRun(c, states, actions) && i < |states| && t in states[i].threads
    requires Summarising(states[i].threads[t].pc)
    ensures CountsAre(CountsOf(states[i].threads[t].pc), RowsOf(states[i].threads[t].pc))
  {
    CountedAlways(c, states, actions, i, t);
    TallyCounts(RowsOf(states[i].threads[t].pc));
  }
}
