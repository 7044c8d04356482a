/** Runs of a transition system given by a partial step function, and the ways of
    reasoning about all of them. `step(s, a)` is `None` when action `a` is not
    enabled in state `s`. */
module Runs {
  import opened Wrappers

  /** The state after performing `actions` from `init`, if all were enabled. */
  function Run<S, A>(step: (S, A) -> Option<S>, init: S, actions: seq<A>): Option<S>
    decreases |actions|
  {
    if actions == [] then Some(init)
    else
      match Run(step, init, actions[..|actions| - 1])
      case None => None
      case Some(s) => step(s, actions[|actions| - 1])
  }

  /** What holds at the start and is kept by every step holds after every run. */
  lemma {:induction false} Invariant<S(!new), A(!new)>(
    step: (S, A) -> Option<S>, init: S, actions: seq<A>, inv: S -> bool)
    requires inv(init)
    requires forall s, a :: inv(s) && step(s, a).Some? ==> inv(step(s, a).value)
    ensures Run(step, init, actions).Some? ==> inv(Run(step, init, actions).value)
    decreases |actions|
  {
    if actions != [] {
      Invariant(step, init, actions[..|actions| - 1], inv);
    }
  }

  /** A preorder that relates the two ends of every step relates a run to each of its
      prefixes. */
  lemma {:induction false} Monotone<S(!new), A(!new)>(
    step: (S, A) -> Option<S>, init: S, actions: seq<A>, p: nat, rel: (S, S) -> bool)
    requires p <= |actions| && Run(step, init, actions).Some?
    requires forall s :: rel(s, s)
    requires forall s, t, u :: rel(s, t) && rel(t, u) ==> rel(s, u)
    requires forall s, a :: step(s, a).Some? ==> rel(s, step(s, a).value)
    ensures Run(step, init, actions[..p]).Some?
    ensures rel(Run(step, init, actions[..p]).value, Run(step, init, actions).value)
    decreases |actions|
  {
    if p == |actions| {
      assert actions[..p] == actions;
    } else {
      var front := actions[..|actions| - 1];
      Monotone(step, init, front, p, rel);
      assert front[..p] == actions[..p];
    }
  }

  /** One run after another. */
  lemma {:induction false} RunAppend<S, A>(step: (S, A) -> Option<S>, init: S, a: seq<A>, b: seq<A>)
    requires Run(step, init, a).Some?
    ensures Run(step, init, a + b) == Run(step, Run(step, init, a).value, b)
    decreases |b|
  {
    if b == [] {
      assert a + b == a;
    } else {
      assert (a + b)[..|a + b| - 1] == a + b[..|b| - 1];
      RunAppend(step, init, a, b[..|b| - 1]);
    }
  }

  lemma RunOne<S, A>(step: (S, A) -> Option<S>, init: S, a: A)
    ensures Run(step, init, [a]) == step(init, a)
  {
    assert [a][..0] == [];
  }

  /** `next` chooses an allowed step that keeps the invariant and lowers the rank. */
  ghost predicate Lowers<S(!new), A(!new)>(
    step: (S, A) -> Option<S>, inv: S -> bool, allowed: A -> bool, rank: S -> nat, next: S -> A)
  {
    forall s {:trigger next(s)} :: inv(s) && rank(s) > 0 ==>
      allowed(next(s)) && step(s, next(s)).Some? && inv(step(s, next(s)).value) && rank(step(s, next(s)).value) < rank(s)
  }

  /** Such steps lead to rank zero. */
  lemma {:induction false} RankFalls<S(!new), A(!new)>(
    step: (S, A) -> Option<S>, s: S, inv: S -> bool, allowed: A -> bool, rank: S -> nat, next: S -> A) returns (more: seq<A>)
    requires inv(s) && Lowers(step, inv, allowed, rank, next)
    ensures Run(step, s, more).Some? && inv(Run(step, s, more).value) && rank(Run(step, s, more).value) == 0
    ensures forall i | 0 <= i < |more| :: allowed(more[i])
    decreases rank(s)
  {
    more := [];
    if rank(s) > 0 {
      var a := next(s);
      var rest := RankFalls(step, step(s, a).value, inv, allowed, rank, next);
      RunOne(step, s, a);
      RunAppend(step, s, [a], rest);
      more := [a] + rest;
    }
  }

  /** A run is determined by the states it passes through. */
  lemma {:induction false} Path<S, A>(step: (S, A) -> Option<S>, path: seq<S>, actions: seq<A>)
    requires |path| == |actions| + 1
    requires forall i | 0 <= i < |actions| :: step(path[i], actions[i]) == Some(path[i + 1])
    ensures Run(step, path[0], actions) == Some(path[|actions|])
    decreases |actions|
  {
    if actions != [] {
      Path(step, path[..|actions|], actions[..|actions| - 1]);
      var n := |actions| - 1;
      assert step(path[n], actions[n]) == Some(path[n + 1]);
    }
  }
}
