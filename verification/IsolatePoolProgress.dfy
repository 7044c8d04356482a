/** Nobody waits for ever: borrowed threads can always come back, and then any caller that
    asks can have one. */
module IsolatePoolProgress {
  import opened Wrappers
  import opened Runs
  import opened IsolatePool
  import opened IsolatePoolProof

  /** Steps of calls that were already admitted. */
  predicate Continues(a: Action) {
    a.PopThread? || a.Leave? || a.FinishLeaving?
  }

  predicate AtRest(r: Runner) {
    r == Asking || r == Finished
  }

  /** The first `k` of `n` calls hold nothing, and call `r` still asks. */
  ghost predicate Settled(threads: seq<Thread>, s: State, n: nat, k: nat, r: nat) {
    && Inv(threads, s) && |s.runners| == n && k <= n && r < n && s.runners[r] == Asking
    && forall j | 0 <= j < k :: AtRest(s.runners[j])
  }

  /** How many more steps call `k` takes until it holds nothing. */
  function CallRank(s: State, k: nat): nat {
    if k >= |s.runners| then 0
    else
      match s.runners[k]
      case Permitted => 3
      case Guarding(_) => 2
      case ThreadReturned => 1
      case _ => 0
  }

  function CallAction(s: State, k: nat): Action {
    if k >= |s.runners| then Enter
    else
      match s.runners[k]
      case Permitted => PopThread(k)
      case Guarding(_) => Leave(k)
      case _ => FinishLeaving(k)
  }

  lemma CallSteps(threads: seq<Thread>, s: State, k: nat)
    requires Inv(threads, s) && CallRank(s, k) > 0
    ensures var a := CallAction(s, k); Continues(a) && Next(s, a).Some? && CallRank(Next(s, a).value, k) < CallRank(s, k)
  {
  }

  lemma OthersStay(s: State, k: nat)
    requires k < |s.runners| && Continues(CallAction(s, k)) && Next(s, CallAction(s, k)).Some?
    ensures var t := Next(s, CallAction(s, k)).value;
            |t.runners| == |s.runners| && forall j | 0 <= j < |s.runners| && j != k :: t.runners[j] == s.runners[j]
  {
  }

  lemma CallAdvances(threads: seq<Thread>, s: State, n: nat, k: nat, r: nat)
    requires Settled(threads, s, n, k, r) && CallRank(s, k) > 0
    ensures var a := CallAction(s, k);
            Continues(a) && Next(s, a).Some? && Settled(threads, Next(s, a).value, n, k, r) && CallRank(Next(s, a).value, k) < CallRank(s, k)
  {
    CallSteps(threads, s, k);
    OthersStay(s, k);
    NextKeeps(threads, s, CallAction(s, k));
  }

  lemma CallLowers(threads: seq<Thread>, n: nat, k: nat, r: nat)
    ensures Lowers(Next, (s: State) => Settled(threads, s, n, k, r), Continues, (s: State) => CallRank(s, k), (s: State) => CallAction(s, k))
  {
    forall s: State | Settled(threads, s, n, k, r) && CallRank(s, k) > 0
      ensures Continues(CallAction(s, k)) && Next(s, CallAction(s, k)).Some?
      ensures Settled(threads, Next(s, CallAction(s, k)).value, n, k, r) && CallRank(Next(s, CallAction(s, k)).value, k) < CallRank(s, k)
    {
      CallAdvances(threads, s, n, k, r);
    }
  }

  lemma OneMoreSettled(threads: seq<Thread>, s: State, n: nat, k: nat, r: nat)
    requires Settled(threads, s, n, k, r) && k < n && CallRank(s, k) == 0
    ensures Settled(threads, s, n, k + 1, r)
  {
  }

  lemma {:induction false} CallsLeave(threads: seq<Thread>, s: State, n: nat, k: nat, r: nat) returns (more: seq<Action>)
    requires Settled(threads, s, n, k, r)
    ensures Run(Next, s, more).Some? && Settled(threads, Run(Next, s, more).value, n, n, r)
    ensures forall i | 0 <= i < |more| :: Continues(more[i])
    decreases n - k
  {
    more := [];
    if k < n {
      CallLowers(threads, n, k, r);
      var first := RankFalls(Next, s, (s: State) => Settled(threads, s, n, k, r), Continues,
                            (s: State) => CallRank(s, k), (s: State) => CallAction(s, k));
      var t := Run(Next, s, first).value;
      OneMoreSettled(threads, t, n, k, r);
      var rest := CallsLeave(threads, t, n, k + 1, r);
      RunAppend(Next, s, first, rest);
      more := first + rest;
    }
  }

  /** When nobody holds anything every permit is free. */
  lemma AllPermitsFree(threads: seq<Thread>, s: State, n: nat, r: nat)
    requires Settled(threads, s, n, n, r)
    ensures s.permits == |threads| && |s.idle| == |threads|
  {
    GatherNothing(ThreadOf, s.runners);
    GatherNothing(BarePermit, s.runners);
    assert |multiset(s.idle)| == |s.idle| && |multiset(threads)| == |threads|;
  }

  lemma AskerIsServed(threads: seq<Thread>, s: State, n: nat, r: nat)
    requires Settled(threads, s, n, n, r) && threads != []
    ensures Run(Next, s, [TakePermit(r), PopThread(r)]).Some?
    ensures var t := Run(Next, s, [TakePermit(r), PopThread(r)]).value;
            |t.runners| == n && t.runners[r].Guarding? && t.runners[r := Asking] == s.runners
  {
    AllPermitsFree(threads, s, n, r);
    var t := Next(s, TakePermit(r)).value;
    var path, actions := [s, t, Next(t, PopThread(r)).value], [TakePermit(r), PopThread(r)];
    Path(Next, path, actions);
    assert s.runners[r := Permitted][r := path[2].runners[r]] == path[2].runners;
  }

  /** Call `r` has a thread, and nobody else holds anything. */
  ghost predicate Served(s: State, r: nat) {
    r < |s.runners| && s.runners[r].Guarding? && forall i | 0 <= i < |s.runners| && i != r :: AtRest(s.runners[i])
  }

  lemma SettledThenServed(threads: seq<Thread>, s: State, n: nat, r: nat, t: State)
    requires Settled(threads, s, n, n, r) && |t.runners| == n && t.runners[r].Guarding? && t.runners[r := Asking] == s.runners
    ensures Served(t, r)
  {
    forall i | 0 <= i < n && i != r ensures AtRest(t.runners[i]) {
      assert t.runners[i] == s.runners[i];
    }
  }

  lemma ServedFrom(threads: seq<Thread>, s: State, r: nat) returns (more: seq<Action>)
    requires Settled(threads, s, |s.runners|, 0, r) && threads != []
    ensures forall i | 0 <= i < |more| :: Continues(more[i]) || more[i] == TakePermit(r)
    ensures Run(Next, s, more).Some? && Served(Run(Next, s, more).value, r)
  {
    var n := |s.runners|;
    var first := CallsLeave(threads, s, n, 0, r);
    var t := Run(Next, s, first).value;
    var last := [TakePermit(r), PopThread(r)];
    AskerIsServed(threads, t, n, r);
    SettledThenServed(threads, t, n, r, Run(Next, t, last).value);
    RunAppend(Next, s, first, last);
    more := first + last;
  }

  /** From every state of every run, whoever has a permit or a thread can go on to give both
      back without help from others, after which any call that still asks, and is not
      cancelled, can hold a thread. */
  lemma AskersCanBeServed(threads: seq<Thread>, actions: seq<Action>, r: nat) returns (more: seq<Action>)
    requires RunFrom(true, threads, actions).Some? && threads != []
    requires r < |RunFrom(true, threads, actions).value.runners| && RunFrom(true, threads, actions).value.runners[r] == Asking
    ensures forall i | 0 <= i < |more| :: Continues(more[i]) || more[i] == TakePermit(r)
    ensures RunFrom(true, threads, actions + more).Some?
    ensures var t := RunFrom(true, threads, actions + more).value;
            r < |t.runners| && t.runners[r].Guarding? && forall i | 0 <= i < |t.runners| && i != r :: AtRest(t.runners[i])
  {
    RunsKeepInvariant(threads, actions);
    more := ServedFrom(threads, RunFrom(true, threads, actions).value, r);
    RunAppend(Next, Init(true, threads), actions, more);
    assert Served(RunFrom(true, threads, actions + more).value, r);
  }
}
