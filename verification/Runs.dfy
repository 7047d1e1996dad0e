/**
  Reachability by steps, without any assumption on the environment.
 */
module Runs {
  import opened Lifecycle

  /** A path of steps from r to s. */
  ghost predicate Path(c: Catalog, states: seq<State>, actions: seq<Action>, r: State, s: State) {
    && |states| == |actions| + 1 && states[0] == r && states[|actions|] == s
    && forall i :: 0 <= i < |actions| ==> StepAt(c, states, actions, i)
  }

  ghost predicate Reaches(c: Catalog, r: State, s: State) {
    exists states, actions :: Path(c, states, actions, r, s)
  }

  ghost predicate Reachable(c: Catalog, s: State) {
    exists t0 :: Reaches(c, Init(c, t0), s)
  }

  lemma Start(c: Catalog, r: State)
    ensures Reaches(c, r, r)
  {
    assert Path(c, [r], [], r, r);
  }

  lemma Extend(c: Catalog, r: State, s: State, a: Action)
    requires Reaches(c, r, s) && Enabled(c, s, a)
    ensures Reaches(c, r, Next(c, s, a))
  {
    var states, actions :| Path(c, states, actions, r, s);
    var s' := Next(c, s, a);
    var states', actions' := states + [s'], actions + [a];
    forall i | 0 <= i < |actions'| ensures StepAt(c, states', actions', i) {
      if i < |actions| {
        assert StepAt(c, states, actions, i);
      }
    }
    assert Path(c, states', actions', r, s');
  }
}
