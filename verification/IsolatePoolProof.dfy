/** The isolate pool keeps its threads, and whoever has a permit finds one. */
module IsolatePoolProof {
  import opened Wrappers
  import opened Runs
  import opened Bags
  import opened IsolatePool

  // ----- Who holds what --------------------------------------------------------------------

  function ThreadOf(r: Runner): multiset<Thread> {
    if r.Guarding? || r.PermitReturned? then multiset{r.thread} else multiset{}
  }

  /** One element for a permit without a thread, in either order of dropping. */
  function BarePermit(r: Runner): multiset<int> {
    if r == Permitted || r == ThreadReturned then multiset{0} else multiset{}
  }

  function Borrowed(s: State): multiset<Thread> { Gather(ThreadOf, s.runners) }

  function BarePermits(s: State): multiset<int> { Gather(BarePermit, s.runners) }

  /** No thread is lost or duplicated, and the idle threads are the free permits plus one
      for each permit that has no thread, so whoever has a permit finds a thread. */
  ghost predicate Inv(threads: seq<Thread>, s: State) {
    && s.guardFirst
    && multiset(s.idle) + Borrowed(s) == multiset(threads)
    && |s.idle| == s.permits + |BarePermits(s)|
    && forall r | 0 <= r < |s.runners| :: s.runners[r] != Panicked && !s.runners[r].PermitReturned?
  }

  /** Replacing one runner changes what is gathered by that runner's share. */
  lemma ReplaceOne<U>(f: Runner -> multiset<U>, runners: seq<Runner>, r: nat, runner: Runner)
    requires r < |runners|
    ensures Gather(f, runners[r := runner]) + f(runners[r]) == Gather(f, runners) + f(runner)
  {
    GatherAt(f, runners, r);
    GatherUpdate(f, runners, r, runner);
    Swap(Gather(f, Without(runners, r)), f(runner), f(runners[r]));
  }

  lemma Replace(s: State, r: nat, runner: Runner, n: State)
    requires r < |s.runners| && n.runners == s.runners[r := runner]
    ensures ThreadOf(runner) == ThreadOf(s.runners[r]) ==> Borrowed(n) == Borrowed(s)
    ensures ThreadOf(runner) == multiset{} ==> Borrowed(s) == Borrowed(n) + ThreadOf(s.runners[r])
    ensures ThreadOf(s.runners[r]) == multiset{} ==> Borrowed(n) == Borrowed(s) + ThreadOf(runner)
    ensures |BarePermits(n)| + |BarePermit(s.runners[r])| == |BarePermits(s)| + |BarePermit(runner)|
  {
    ReplaceOne(ThreadOf, s.runners, r, runner);
    ReplaceOne(BarePermit, s.runners, r, runner);
    var x, y, u, v := Borrowed(s), Borrowed(n), ThreadOf(s.runners[r]), ThreadOf(runner);
    Sizes(BarePermits(n), BarePermit(s.runners[r]), BarePermits(s), BarePermit(runner));
    Shares(y, u, x, v);
  }

  lemma Sizes(a: multiset<int>, b: multiset<int>, c: multiset<int>, d: multiset<int>)
    requires a + b == c + d
    ensures |a| + |b| == |c| + |d|
  {
    assert |a + b| == |a| + |b| && |c + d| == |c| + |d|;
  }

  lemma Shares(a: multiset<Thread>, b: multiset<Thread>, c: multiset<Thread>, d: multiset<Thread>)
    requires a + b == c + d
    ensures b == d ==> a == c
    ensures d == multiset{} ==> c == a + b
    ensures b == multiset{} ==> a == c + d
  {
    if b == d {
      forall x: Thread ensures a[x] == c[x] {
        assert (a + b)[x] == (c + d)[x];
      }
    }
    assert d == multiset{} ==> c + d == c;
    assert b == multiset{} ==> a + b == a;
  }

  lemma BarePermitCounts(s: State, r: nat)
    requires r < |s.runners| && s.runners[r] == Permitted
    ensures |BarePermits(s)| >= 1
  {
    GatherAt(BarePermit, s.runners, r);
    assert |BarePermits(s)| == |Gather(BarePermit, Without(s.runners, r))| + |BarePermit(s.runners[r])|;
  }

  lemma EnterKeeps(threads: seq<Thread>, s: State)
    requires Inv(threads, s)
    ensures Inv(threads, Next(s, Enter).value)
  {
    var n := Next(s, Enter).value;
    GatherPush(ThreadOf, s.runners, Asking);
    GatherPush(BarePermit, s.runners, Asking);
    assert n.runners == s.runners + [Asking];
    assert Borrowed(n) == Borrowed(s) && BarePermits(n) == BarePermits(s);
  }

  /** A step of one runner that keeps the two equations keeps the invariant. */
  lemma StepKeeps(threads: seq<Thread>, s: State, r: nat, runner: Runner, n: State)
    requires Inv(threads, s) && r < |s.runners| && n.runners == s.runners[r := runner] && n.guardFirst
    requires runner != Panicked && !runner.PermitReturned?
    requires multiset(n.idle) + Borrowed(n) == multiset(s.idle) + Borrowed(s)
    requires |n.idle| == n.permits + |BarePermits(n)|
    ensures Inv(threads, n)
  {
  }

  lemma CancelKeeps(threads: seq<Thread>, s: State, r: nat)
    requires Inv(threads, s) && Next(s, Cancel(r)).Some?
    ensures Inv(threads, Next(s, Cancel(r)).value)
  {
    var n := Next(s, Cancel(r)).value;
    Replace(s, r, Finished, n);
    StepKeeps(threads, s, r, Finished, n);
  }

  lemma TakePermitKeeps(threads: seq<Thread>, s: State, r: nat)
    requires Inv(threads, s) && Next(s, TakePermit(r)).Some?
    ensures Inv(threads, Next(s, TakePermit(r)).value)
  {
    var n := Next(s, TakePermit(r)).value;
    Replace(s, r, Permitted, n);
    StepKeeps(threads, s, r, Permitted, n);
  }

  lemma PopLast(idle: seq<Thread>)
    requires idle != []
    ensures multiset(idle) == multiset(idle[..|idle| - 1]) + multiset{idle[|idle| - 1]}
  {
    assert idle == idle[..|idle| - 1] + [idle[|idle| - 1]];
  }

  lemma MoveOut(front: multiset<Thread>, idle: multiset<Thread>, a: multiset<Thread>, b: multiset<Thread>, t: multiset<Thread>)
    requires idle == front + t && b == a + t
    ensures front + b == idle + a
  {
  }

  lemma PopThreadTo(threads: seq<Thread>, s: State, r: nat, n: State)
    requires Inv(threads, s) && r < |s.runners| && s.runners[r] == Permitted && s.idle != []
    requires n == s.(idle := s.idle[..|s.idle| - 1], runners := s.runners[r := Guarding(s.idle[|s.idle| - 1])])
    ensures Inv(threads, n)
  {
    var t := s.idle[|s.idle| - 1];
    PopLast(s.idle);
    Replace(s, r, Guarding(t), n);
    MoveOut(multiset(n.idle), multiset(s.idle), Borrowed(s), Borrowed(n), multiset{t});
    StepKeeps(threads, s, r, Guarding(t), n);
  }

  /** Whoever holds a bare permit finds a thread. */
  lemma PopThreadKeeps(threads: seq<Thread>, s: State, r: nat)
    requires Inv(threads, s) && Next(s, PopThread(r)).Some?
    ensures Inv(threads, Next(s, PopThread(r)).value)
  {
    BarePermitCounts(s, r);
    assert s.idle != [];
    PopThreadTo(threads, s, r, Next(s, PopThread(r)).value);
  }

  lemma LeaveKeeps(threads: seq<Thread>, s: State, r: nat)
    requires Inv(threads, s) && Next(s, Leave(r)).Some?
    ensures Inv(threads, Next(s, Leave(r)).value)
  {
    var n := Next(s, Leave(r)).value;
    Replace(s, r, ThreadReturned, n);
    QueuePush(s.idle, s.runners[r].thread);
    StepKeeps(threads, s, r, ThreadReturned, n);
  }

  lemma FinishKeeps(threads: seq<Thread>, s: State, r: nat)
    requires Inv(threads, s) && Next(s, FinishLeaving(r)).Some?
    ensures Inv(threads, Next(s, FinishLeaving(r)).value)
  {
    var n := Next(s, FinishLeaving(r)).value;
    Replace(s, r, Finished, n);
    StepKeeps(threads, s, r, Finished, n);
  }

  lemma NextKeeps(threads: seq<Thread>, s: State, a: Action)
    requires Inv(threads, s) && Next(s, a).Some?
    ensures Inv(threads, Next(s, a).value)
  {
    match a
    case Enter => EnterKeeps(threads, s);
    case Cancel(r) => CancelKeeps(threads, s, r);
    case TakePermit(r) => TakePermitKeeps(threads, s, r);
    case PopThread(r) => PopThreadKeeps(threads, s, r);
    case Leave(r) => LeaveKeeps(threads, s, r);
    case FinishLeaving(r) => FinishKeeps(threads, s, r);
  }

  // ----- Theorems --------------------------------------------------------------------------

  lemma RunsKeepInvariant(threads: seq<Thread>, actions: seq<Action>)
    requires RunFrom(true, threads, actions).Some?
    ensures Inv(threads, RunFrom(true, threads, actions).value)
  {
    forall s, a | Inv(threads, s) && Next(s, a).Some? ensures Inv(threads, Next(s, a).value) {
      NextKeeps(threads, s, a);
    }
    Invariant(Next, Init(true, threads), actions, s => Inv(threads, s));
  }

  /** In every interleaving, with cancellation at any await: idle and borrowed threads
      together are the pool, idle threads are at least as many as free permits, and nobody
      with a permit ever finds the stack empty. */
  lemma PermitMeansThread(threads: seq<Thread>, actions: seq<Action>)
    requires RunFrom(true, threads, actions).Some?
    ensures var s := RunFrom(true, threads, actions).value;
            && multiset(s.idle) + Borrowed(s) == multiset(threads)
            && |s.idle| >= s.permits
            && forall r | 0 <= r < |s.runners| :: s.runners[r] != Panicked
  {
    RunsKeepInvariant(threads, actions);
  }

  /** Distinct threads are never handed to two callers. */
  lemma ThreadsAreExclusive(threads: seq<Thread>, actions: seq<Action>, q: nat, r: nat)
    requires RunFrom(true, threads, actions).Some?
    requires forall i, j | 0 <= i < j < |threads| :: threads[i] != threads[j]
    requires var s := RunFrom(true, threads, actions).value;
             q < r < |s.runners| && s.runners[q].Guarding? && s.runners[r].Guarding?
    ensures var s := RunFrom(true, threads, actions).value; s.runners[q].thread != s.runners[r].thread
    ensures var s := RunFrom(true, threads, actions).value; s.runners[q].thread !in s.idle
  {
    RunsKeepInvariant(threads, actions);
    var s := RunFrom(true, threads, actions).value;
    var a, b := s.runners[q].thread, s.runners[r].thread;
    var rest := Without(s.runners, r);
    GatherAt(ThreadOf, s.runners, r);
    GatherAt(ThreadOf, rest, q);
    assert rest[q] == s.runners[q];
    assert Borrowed(s) == Gather(ThreadOf, Without(rest, q)) + multiset{a} + multiset{b};
    OnlyOnce(threads, a);
    assert multiset(threads)[a] == multiset(s.idle)[a] + Borrowed(s)[a];
  }

  lemma {:induction false} OnlyOnce(threads: seq<Thread>, t: Thread)
    requires forall i, j | 0 <= i < j < |threads| :: threads[i] != threads[j]
    ensures multiset(threads)[t] <= 1
    decreases |threads|
  {
    if threads != [] {
      var n := |threads| - 1;
      assert threads == threads[..n] + [threads[n]];
      OnlyOnce(threads[..n], t);
    }
  }

  /** When every call has finished, the pool is full again. */
  lemma PoolIsRestored(threads: seq<Thread>, actions: seq<Action>)
    requires RunFrom(true, threads, actions).Some?
    requires var s := RunFrom(true, threads, actions).value;
             forall r | 0 <= r < |s.runners| :: s.runners[r] == Finished || s.runners[r] == Asking
    ensures var s := RunFrom(true, threads, actions).value;
            s.permits == |threads| && multiset(s.idle) == multiset(threads)
  {
    RunsKeepInvariant(threads, actions);
    var s := RunFrom(true, threads, actions).value;
    GatherNothing(ThreadOf, s.runners);
    GatherNothing(BarePermit, s.runners);
    assert |multiset(s.idle)| == |s.idle| && |multiset(threads)| == |threads|;
  }

  lemma {:induction false} GatherNothing<T, U>(f: T -> multiset<U>, s: seq<T>)
    requires forall i | 0 <= i < |s| :: f(s[i]) == multiset{}
    ensures Gather(f, s) == multiset{}
    decreases |s|
  {
    if s != [] {
      GatherNothing(f, s[..|s| - 1]);
    }
  }

  lemma SetBoth(x: Runner, y: Runner, z: Runner)
    ensures [x, y][0 := z] == [z, y] && [x, y][1 := z] == [x, z]
  {
  }

  /** With the drops in the other order one thread and two callers suffice to panic. */
  lemma PermitFirstPanics()
    ensures var actions := [Enter, Enter, TakePermit(0), PopThread(0), Leave(0), TakePermit(1), PopThread(1)];
            && RunFrom(false, [7], actions).Some?
            && RunFrom(false, [7], actions).value.runners == [PermitReturned(7), Panicked]
  {
    var s0 := Init(false, [7]);
    var s1 := State(false, 1, [7], [Asking]);
    var s2 := State(false, 1, [7], [Asking, Asking]);
    var s3 := State(false, 0, [7], [Permitted, Asking]);
    var s4 := State(false, 0, [], [Guarding(7), Asking]);
    var s5 := State(false, 1, [], [PermitReturned(7), Asking]);
    var s6 := State(false, 0, [], [PermitReturned(7), Permitted]);
    var s7 := State(false, 0, [], [PermitReturned(7), Panicked]);
    assert [] + [Asking] == [Asking] && [Asking] + [Asking] == [Asking, Asking];
    assert [7][..0] == [];
    SetBoth(Asking, Asking, Permitted);
    SetBoth(Permitted, Asking, Guarding(7));
    SetBoth(Guarding(7), Asking, PermitReturned(7));
    SetBoth(PermitReturned(7), Asking, Permitted);
    SetBoth(PermitReturned(7), Permitted, Panicked);
    assert Next(s0, Enter) == Some(s1) && Next(s1, Enter) == Some(s2) && Next(s2, TakePermit(0)) == Some(s3);
    assert Next(s3, PopThread(0)) == Some(s4) && Next(s4, Leave(0)) == Some(s5);
    assert Next(s5, TakePermit(1)) == Some(s6) && Next(s6, PopThread(1)) == Some(s7);
    Path(Next, [s0, s1, s2, s3, s4, s5, s6, s7],
         [Enter, Enter, TakePermit(0), PopThread(0), Leave(0), TakePermit(1), PopThread(1)]);
  }
}
