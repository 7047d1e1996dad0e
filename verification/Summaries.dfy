/**
  Summaries are read one execution at a time, without a snapshot. Their counts still add up, a
  summary that reports completion is final, and overdue features never show as active.
 */
module Summaries {
  import opened Execution
  import opened Lifecycle
  import opened Invariant
  import opened Shapes
  import opened Guards
  import opened Lifetimes
  import opened Counting

  /** The `complete` field of the summary. */
  predicate Complete(k: Counts) {
    k.pending == 0 && k.active == 0
  }

  lemma {:induction false} TallyComplete(rows: seq<Row>)
    ensures Complete(Tally(rows)) <==> forall j :: 0 <= j < |rows| ==> Terminal(rows[j].view.state)
  {
    if rows != [] {
      var front := rows[..|rows| - 1];
      TallyComplete(front);
      assert forall j :: 0 <= j < |front| ==> front[j] == rows[j];
    }
  }

  lemma {:induction false} TallyActive(rows: seq<Row>)
    ensures Tally(rows).active == 0 <==> forall j :: 0 <= j < |rows| ==> rows[j].view.state != Active
  {
    if rows != [] {
      var front := rows[..|rows| - 1];
      TallyActive(front);
      assert forall j :: 0 <= j < |front| ==> front[j] == rows[j];
    }
  }

  function RowNow(c: Catalog, s: State, j: nat): Row
    requires j < |c.order| && c.order[j] in s.execs
  {
    Row(c.order[j], View(s.execs[c.order[j]]))
  }

  /** The rows show the state s. */
  ghost predicate RowsAre(c: Catalog, s: State, rows: seq<Row>) {
    && |rows| <= |c.order|
    && forall j {:trigger RowIs(c, s, rows[j], j)} :: 0 <= j < |rows| ==> RowIs(c, s, rows[j], j)
  }

  predicate RowIs(c: Catalog, s: State, row: Row, j: nat)
    requires j < |c.order|
  {
    c.order[j] in s.execs && row == RowNow(c, s, j)
  }

  // ------------------------------------------------------------------ how summaries grow

  predicate Grows(s: State, th: Thread, th': Thread) {
    Summarising(th'.pc) ==>
      && Summarising(th.pc)
      && (RowsOf(th'.pc) == RowsOf(th.pc) ||
          (th.pc.Count? && th.feature in s.execs &&
           RowsOf(th'.pc) == RowsOf(th.pc) + [Row(th.feature, View(s.execs[th.feature]))]))
  }

  lemma ResumeGrows(s: State, th: Thread, pc': Pc)
    requires !th.pc.SummaryDone? && !th.pc.Count? && PlainNext(NextOf(th.pc))
    requires (NextOf(pc') == NextOf(th.pc) && !pc'.Count? && !pc'.SummaryDone?) || pc' == Resume(NextOf(th.pc))
    ensures Grows(s, th, th.(pc := pc'))
  {
  }

  lemma SectionGrows(c: Catalog, s: State, t: Tid, choice: Choice)
    requires Enabled(c, s, Run(t, choice)) && AtSection(s.threads[t].pc) && PlainNext(NextOf(s.threads[t].pc))
    ensures t in RunThread(c, s, t, choice).threads
    ensures Grows(s, s.threads[t], RunThread(c, s, t, choice).threads[t])
  {
    var th := s.threads[t];
    LeaveShape(if th.pc.TimeoutCheck? then s.(now := choice.later) else s, t,
               Outcome(c.defs[th.feature], s.execs[th.feature], th.pc, s.now, choice.later), SectionNext(th.pc));
    ResumeGrows(s, th, RunThread(c, s, t, choice).threads[t].pc);
  }

  lemma TailGrows(s: State, t: Tid)
    requires t in s.threads && s.threads[t].feature in s.execs && AtTail(s.threads[t].pc)
    requires PlainNext(NextOf(s.threads[t].pc))
    ensures t in RunTail(s, t).threads && Grows(s, s.threads[t], RunTail(s, t).threads[t])
  {
    TailStep(s, t);
    ResumeGrows(s, s.threads[t], RunTail(s, t).threads[t].pc);
  }

  /** A step leaves the threads it does not run alone; new ones have read nothing yet. */
  lemma OthersKept(c: Catalog, s: State, a: Action, u: Tid)
    requires Enabled(c, s, a) && u in Next(c, s, a).threads && !(a.Run? && a.t == u)
    ensures u in s.threads ==> Next(c, s, a).threads[u] == s.threads[u]
    ensures u !in s.threads ==> Unread(Next(c, s, a).threads[u].pc)
  {
    if a.Run? {
      RunShape(c, s, a.t, a.choice);
    }
  }

  predicate Unread(pc: Pc) {
    Summarising(pc) ==> RowsOf(pc) == [] && (pc.TimeoutCheck? || pc.SummaryDone?)
  }

  lemma SummaryStep(c: Catalog, s: State, a: Action, u: Tid)
    requires Enabled(c, s, a) && u in Next(c, s, a).threads
    requires u in s.threads ==> PlainNext(NextOf(s.threads[u].pc))
    ensures u in s.threads ==> Grows(s, s.threads[u], Next(c, s, a).threads[u])
    ensures u !in s.threads ==> Unread(Next(c, s, a).threads[u].pc)
  {
    if a.Run? && a.t == u {
      if AtSection(s.threads[u].pc) {
        SectionGrows(c, s, u, a.choice);
      } else if AtTail(s.threads[u].pc) {
        TailGrows(s, u);
      } else if AtStart(s.threads[u].pc) {
        StartShape(c, s, u, a.choice);
      } else {
        OtherShape(c, s, u, a.choice);
      }
    } else {
      OthersKept(c, s, a, u);
    }
  }

  // ------------------------------------------------------------- completion is permanent

  /** What a row shows of an ended feature stays true while ended features stay. */
  lemma RowsAbsorb(c: Catalog, s: State, s': State, rows: seq<Row>)
    requires RowsOk(c, s, rows) && Absorbs(s, s')
    ensures RowsOk(c, s', rows)
  {
    forall j | 0 <= j < |rows| ensures RowOk(c, s', rows[j], j) {
      assert RowOk(c, s, rows[j], j);
    }
  }

  lemma RowsExtend(c: Catalog, s: State, s': State, rows: seq<Row>, f: Id)
    requires RowsOk(c, s, rows) && Absorbs(s, s') && |rows| < |c.order| && f == c.order[|rows|] && f in s.execs
    ensures RowsOk(c, s', rows + [Row(f, View(s.execs[f]))])
  {
    RowsAbsorb(c, s, s', rows);
    var all := rows + [Row(f, View(s.execs[f]))];
    forall j | 0 <= j < |all| ensures RowOk(c, s', all[j], j) {
      if j < |rows| {
        assert RowOk(c, s', rows[j], j);
      }
    }
  }

  /** While no start activates an ended feature, the rows read so far show ended features as they still are. */
  lemma {:induction false} RowsHold(c: Catalog, states: seq<State>, actions: seq<Action>, n: nat, u: Tid)
    requires ValidRun(c, states, actions) && n < |states|
    requires forall k :: 0 <= k < n ==> !ActivatesEnded(states[k], actions[k])
    requires u in states[n].threads && Summarising(states[n].threads[u].pc)
    ensures RowsOk(c, states[n], RowsOf(states[n].threads[u].pc))
  {
    if n > 0 {
      var s, s' := states[n - 1], states[n];
      assert StepAt(c, states, actions, n - 1);
      AbsorbsStep(c, s, actions[n - 1]);
      if u in s.threads {
        CountedAlways(c, states, actions, n - 1, u);
      }
      SummaryStep(c, s, actions[n - 1], u);
      if u in s.threads {
        RowsHold(c, states, actions, n - 1, u);
        var th := s.threads[u];
        RowsAbsorb(c, s, s', RowsOf(th.pc));
        if RowsOf(s'.threads[u].pc) != RowsOf(th.pc) {
          RowsExtend(c, s, s', RowsOf(th.pc), th.feature);
        }
      }
    }
  }

  /** A summary that reports completion is true of the moment it returns, while no start has activated an ended
      feature. */
  lemma CompleteIsTrue(c: Catalog, states: seq<State>, actions: seq<Action>, i: nat, t: Tid)
    requires ValidCatalog(c) && ValidRun(c, states, actions) && i < |states|
    requires forall k :: 0 <= k < i ==> !ActivatesEnded(states[k], actions[k])
    requires t in states[i].threads && states[i].threads[t].pc.SummaryDone?
    requires Complete(states[i].threads[t].pc.counts)
    ensures forall f :: f in c.defs ==> f in states[i].execs && Terminal(states[i].execs[f].state)
    ensures RowsAre(c, states[i], states[i].threads[t].pc.rows)
    ensures |states[i].threads[t].pc.rows| == |c.order|
  {
    var s := states[i];
    var rows := s.threads[t].pc.rows;
    CountedAlways(c, states, actions, i, t);
    RowsHold(c, states, actions, i, t);
    TallyComplete(rows);
    forall f | f in c.defs ensures f in s.execs && Terminal(s.execs[f].state) {
      var j :| 0 <= j < |c.order| && c.order[j] == f;
      assert RowOk(c, s, rows[j], j);
    }
    forall j | 0 <= j < |rows| ensures RowIs(c, s, rows[j], j) {
      assert RowOk(c, s, rows[j], j);
    }
  }

  ghost predicate AllTerminal(c: Catalog, s: State) {
    forall f :: f in c.defs ==> f in s.execs && Terminal(s.execs[f].state)
  }

  lemma RowsGrow(c: Catalog, s0: State, rows: seq<Row>, row: Row)
    requires RowsAre(c, s0, rows) && |rows| < |c.order| && c.order[|rows|] in s0.execs
    requires row == RowNow(c, s0, |rows|)
    ensures RowsAre(c, s0, rows + [row])
  {
    forall j | 0 <= j < |rows| + 1 ensures RowIs(c, s0, (rows + [row])[j], j) {
      if j < |rows| { assert RowIs(c, s0, rows[j], j); }
    }
  }

  /** What a summary begun after everything was terminal has read so far is the terminal picture. */
  lemma {:induction false} LateRows(c: Catalog, states: seq<State>, actions: seq<Action>, i: nat, j: nat, u: Tid)
    requires ValidCatalog(c) && ValidRun(c, states, actions) && i <= j < |states|
    requires forall k :: i <= k < j ==> !ActivatesEnded(states[k], actions[k])
    requires AllTerminal(c, states[i]) && u !in states[i].threads
    requires u in states[j].threads && Summarising(states[j].threads[u].pc)
    ensures RowsAre(c, states[i], RowsOf(states[j].threads[u].pc))
    decreases j
  {
    if i < j {
      if u in states[j - 1].threads && Summarising(states[j - 1].threads[u].pc) {
        LateRows(c, states, actions, i, j - 1, u);
      }
      LateStep(c, states, actions, i, j - 1, u);
    }
  }

  lemma LateStep(c: Catalog, states: seq<State>, actions: seq<Action>, i: nat, j: nat, u: Tid)
    requires ValidCatalog(c) && ValidRun(c, states, actions) && i <= j && j + 1 < |states|
    requires forall k :: i <= k < j ==> !ActivatesEnded(states[k], actions[k])
    requires AllTerminal(c, states[i])
    requires u in states[j + 1].threads && Summarising(states[j + 1].threads[u].pc)
    requires u in states[j].threads && Summarising(states[j].threads[u].pc) ==>
      RowsAre(c, states[i], RowsOf(states[j].threads[u].pc))
    ensures RowsAre(c, states[i], RowsOf(states[j + 1].threads[u].pc))
  {
    var s := states[j];
    assert StepAt(c, states, actions, j);
    if u in s.threads {
      CountedAlways(c, states, actions, j, u);
    }
    SummaryStep(c, s, actions[j], u);
    if u in s.threads && RowsOf(states[j + 1].threads[u].pc) != RowsOf(s.threads[u].pc) {
      var th := s.threads[u];
      assert th.feature in c.defs;
      AbsorbsBetween(c, states, actions, i, j);
      RowsGrow(c, states[i], th.pc.rows, Row(th.feature, View(s.execs[th.feature])));
    }
  }

  /** Once a summary has reported completion, every summary begun later is identical to it, while no start activates
      an ended feature. */
  lemma CompletionIsPermanent(c: Catalog, states: seq<State>, actions: seq<Action>, i: nat, t: Tid, j: nat, u: Tid)
    requires ValidCatalog(c) && ValidRun(c, states, actions) && i <= j < |states|
    requires forall k :: 0 <= k < j ==> !ActivatesEnded(states[k], actions[k])
    requires t in states[i].threads && states[i].threads[t].pc.SummaryDone?
    requires Complete(states[i].threads[t].pc.counts)
    requires u !in states[i].threads && u in states[j].threads && states[j].threads[u].pc.SummaryDone?
    ensures states[j].threads[u].pc.rows == states[i].threads[t].pc.rows
    ensures states[j].threads[u].pc.counts == states[i].threads[t].pc.counts
  {
    CompleteIsTrue(c, states, actions, i, t);
    LateRows(c, states, actions, i, j, u);
    CountedAlways(c, states, actions, i, t);
    CountedAlways(c, states, actions, j, u);
    var rows, rows' := states[i].threads[t].pc.rows, states[j].threads[u].pc.rows;
    forall k | 0 <= k < |rows| ensures rows'[k] == rows[k] {
      assert RowIs(c, states[i], rows'[k], k) && RowIs(c, states[i], rows[k], k);
    }
    assert rows' == rows;
  }

  // -------------------------------------------------------------- overdue features

  ghost predicate NoneStarting(s: State) {
    forall t :: t in s.threads ==> !InStart(s.threads[t])
  }

  /** Every active execution has reached its deadline. */
  ghost predicate AllOverdue(s: State) {
    forall f :: f in s.execs && s.execs[f].state == Active ==> s.execs[f].deadlineAt <= s.now
  }

  /** Only a start makes an execution active. */
  lemma NoActivation(c: Catalog, s: State, a: Action, f: Id)
    requires Enabled(c, s, a) && NoneStarting(s) && f in s.execs
    ensures f in Next(c, s, a).execs
    ensures Next(c, s, a).execs[f].state == Active ==> s.execs[f].state == Active
  {
    if a.Run? {
      var th := s.threads[a.t];
      assert !InStart(th);
      RunEffect(c, s, a.t, a.choice);
      OutcomeActive(c.defs[th.feature], s.execs[th.feature], th.pc, s.now, a.choice);
    }
  }

  lemma ClockMonotone(c: Catalog, s: State, a: Action)
    requires Enabled(c, s, a)
    ensures s.now <= Next(c, s, a).now
  {
    if a.Run? && AtSection(s.threads[a.t].pc) {
      var th := s.threads[a.t];
      LeaveNow(if th.pc.TimeoutCheck? then s.(now := a.choice.later) else s, a.t,
               Outcome(c.defs[th.feature], s.execs[th.feature], th.pc, s.now, a.choice.later), SectionNext(th.pc));
    }
  }

  lemma LeaveNow(s: State, t: Tid, outcome: (Exec, Tail), next: Then)
    requires t in s.threads
    ensures Leave(s, t, outcome, next).now == s.now
  {
  }

  lemma OverdueStep(c: Catalog, s: State, a: Action)
    requires Enabled(c, s, a) && NoneStarting(s) && AllOverdue(s)
    ensures AllOverdue(Next(c, s, a))
  {
    var s' := Next(c, s, a);
    ClockMonotone(c, s, a);
    SameKeys(c, s, a);
    ForwardStep(c, s, a);
    assert !Activating(s, a);
    forall f | f in s'.execs && s'.execs[f].state == Active ensures s'.execs[f].deadlineAt <= s'.now {
      NoActivation(c, s, a, f);
    }
  }

  lemma SameKeys(c: Catalog, s: State, a: Action)
    requires Enabled(c, s, a)
    ensures Next(c, s, a).execs.Keys == s.execs.Keys
  {
    if a.Run? {
      RunEffect(c, s, a.t, a.choice);
    }
  }

  /** A summary past its timeout check of a feature does not find it active any more. */
  predicate CheckedIdle(s: State, th: Thread) {
    Summarising(th.pc) && !th.pc.TimeoutCheck? && !th.pc.SummaryDone? ==>
      th.feature in s.execs && s.execs[th.feature].state != Active
  }

  predicate NoActiveRow(rows: seq<Row>) {
    forall j :: 0 <= j < |rows| ==> rows[j].view.state != Active
  }

  lemma CheckedSection(c: Catalog, s: State, u: Tid, choice: Choice)
    requires Enabled(c, s, Run(u, choice)) && AllOverdue(s) && AtSection(s.threads[u].pc)
    requires PlainNext(NextOf(s.threads[u].pc))
    ensures u in RunThread(c, s, u, choice).threads
    ensures CheckedIdle(RunThread(c, s, u, choice), RunThread(c, s, u, choice).threads[u])
  {
    var th := s.threads[u];
    LeaveShape(if th.pc.TimeoutCheck? then s.(now := choice.later) else s, u,
               Outcome(c.defs[th.feature], s.execs[th.feature], th.pc, s.now, choice.later), SectionNext(th.pc));
    OutcomeShape(c.defs[th.feature], s.execs[th.feature], th.pc, s.now, choice.later);
  }

  lemma CheckedTail(s: State, u: Tid)
    requires u in s.threads && s.threads[u].feature in s.execs && AtTail(s.threads[u].pc)
    requires CheckedIdle(s, s.threads[u]) && PlainNext(NextOf(s.threads[u].pc))
    ensures u in RunTail(s, u).threads
    ensures CheckedIdle(RunTail(s, u), RunTail(s, u).threads[u])
  {
    match s.threads[u].pc
    case TakeFds(_, _) =>
    case CloseFds(_, _, _) =>
    case ClearSlot(_) =>
  }

  lemma CheckedStep(c: Catalog, s: State, a: Action, u: Tid)
    requires Enabled(c, s, a) && NoneStarting(s) && AllOverdue(s)
    requires u in s.threads && u in Next(c, s, a).threads && CheckedIdle(s, s.threads[u])
    requires PlainNext(NextOf(s.threads[u].pc))
    ensures CheckedIdle(Next(c, s, a), Next(c, s, a).threads[u])
  {
    var th := s.threads[u];
    if a.Run? && a.t == u {
      if AtSection(th.pc) {
        CheckedSection(c, s, u, a.choice);
      } else if AtTail(th.pc) {
        CheckedTail(s, u);
      } else if AtStart(th.pc) {
        StartShape(c, s, u, a.choice);
      } else {
        OtherShape(c, s, u, a.choice);
      }
    } else {
      OthersKept(c, s, a, u);
      if th.feature in s.execs {
        NoActivation(c, s, a, th.feature);
      }
    }
  }

  lemma {:induction false} OverdueRows(c: Catalog, states: seq<State>, actions: seq<Action>, i: nat, j: nat, u: Tid)
    requires ValidRun(c, states, actions) && i <= j < |states|
    requires AllOverdue(states[i]) && u !in states[i].threads
    requires forall k :: i <= k <= j ==> NoneStarting(states[k])
    ensures AllOverdue(states[j])
    ensures u in states[j].threads ==> CheckedIdle(states[j], states[j].threads[u])
    ensures u in states[j].threads && Summarising(states[j].threads[u].pc) ==>
      NoActiveRow(RowsOf(states[j].threads[u].pc))
    decreases j
  {
    if i < j {
      var s := states[j - 1];
      OverdueRows(c, states, actions, i, j - 1, u);
      assert StepAt(c, states, actions, j - 1);
      OverdueStep(c, s, actions[j - 1]);
      if u in s.threads {
        CountedAlways(c, states, actions, j - 1, u);
      }
      OverdueRowsStep(c, s, actions[j - 1], u);
    }
  }

  lemma OverdueRowsStep(c: Catalog, s: State, a: Action, u: Tid)
    requires Enabled(c, s, a) && NoneStarting(s) && AllOverdue(s)
    requires u in s.threads ==> CheckedIdle(s, s.threads[u]) && PlainNext(NextOf(s.threads[u].pc))
    requires u in s.threads && Summarising(s.threads[u].pc) ==> NoActiveRow(RowsOf(s.threads[u].pc))
    ensures var s' := Next(c, s, a);
      && (u in s'.threads ==> CheckedIdle(s', s'.threads[u]))
      && (u in s'.threads && Summarising(s'.threads[u].pc) ==> NoActiveRow(RowsOf(s'.threads[u].pc)))
  {
    if u in Next(c, s, a).threads {
      SummaryStep(c, s, a, u);
      if u in s.threads {
        CheckedStep(c, s, a, u);
      }
    }
  }

  /** In every run, a summary begun when every active deadline has passed, with no start in progress until it
      returns, reports no active feature. */
  lemma OverdueSummaryHasNoActive(c: Catalog, states: seq<State>, actions: seq<Action>, i: nat, j: nat, u: Tid)
    requires ValidRun(c, states, actions) && i <= j < |states|
    requires AllOverdue(states[i]) && u !in states[i].threads
    requires forall k :: i <= k <= j ==> NoneStarting(states[k])
    requires u in states[j].threads && states[j].threads[u].pc.SummaryDone?
    ensures states[j].threads[u].pc.counts.active == 0
  {
    OverdueRows(c, states, actions, i, j, u);
    CountedAlways(c, states, actions, j, u);
    TallyActive(states[j].threads[u].pc.rows);
  }
}
