/** The queue of ready instances of one application in the proxy. */
module ReadyPool {
  import opened Wrappers

  datatype Instance = Instance(id: nat, lastActive: nat)

  /** Expired after more than `ttl` since it was last active; clocks do not go back. */
  predicate Usable(i: Instance, now: nat, ttl: nat) {
    now <= i.lastActive + ttl
  }

  /** How many instances at the head are collected: whatever is over the limit, and then
      every unusable one up to the first that is usable. */
  function Stale(queue: seq<Instance>, max: nat, now: nat, ttl: nat): (n: nat)
    ensures n <= |queue|
  {
    if queue == [] then 0
    else if |queue| > max || !Usable(queue[0], now, ttl) then 1 + Stale(queue[1..], max, now, ttl)
    else 0
  }

  /** The collection takes the shortest head after which the queue is within its limit and
      begins with a usable instance. */
  lemma {:induction false} StaleIsLeast(queue: seq<Instance>, max: nat, now: nat, ttl: nat)
    ensures var n := Stale(queue, max, now, ttl);
            && |queue| - n <= max && (n < |queue| ==> Usable(queue[n], now, ttl))
            && forall j | 0 <= j < n :: |queue| - j > max || !Usable(queue[j], now, ttl)
    decreases |queue|
  {
    if queue != [] && (|queue| > max || !Usable(queue[0], now, ttl)) {
      StaleIsLeast(queue[1..], max, now, ttl);
      forall j | 0 <= j < Stale(queue, max, now, ttl) ensures |queue| - j > max || !Usable(queue[j], now, ttl) {
        if j > 0 {
          assert queue[1..][j - 1] == queue[j];
        }
      }
    }
  }

  /** Every instance from position `from` on can be handed out. */
  ghost predicate UsableFrom(queue: seq<Instance>, from: nat, now: nat, ttl: nat) {
    forall i | from <= i < |queue| :: Usable(queue[i], now, ttl)
  }

  /** From position `from` on no usable instance stands before an unusable one. */
  ghost predicate ExpiredFirst(queue: seq<Instance>, from: nat, now: nat, ttl: nat) {
    forall i, j | from <= i < j < |queue| && Usable(queue[i], now, ttl) :: Usable(queue[j], now, ttl)
  }

  /** Where the last `max` instances begin. */
  function Cut(queue: seq<Instance>, max: nat): nat {
    if |queue| <= max then 0 else |queue| - max
  }

  /** The collection leaves only usable instances exactly when, among the last `max`, no
      usable one stands before an unusable one. */
  lemma {:induction false} FreshIff(queue: seq<Instance>, max: nat, now: nat, ttl: nat)
    ensures UsableFrom(queue[Stale(queue, max, now, ttl)..], 0, now, ttl) <==> ExpiredFirst(queue, Cut(queue, max), now, ttl)
  {
    var n := Stale(queue, max, now, ttl);
    StaleIsLeast(queue, max, now, ttl);
    assert UsableFrom(queue[n..], 0, now, ttl) <==> UsableFrom(queue, n, now, ttl) by {
      RestIsUsable(queue, n, now, ttl);
    }
    if ExpiredFirst(queue, Cut(queue, max), now, ttl) {
      assert forall i | n < i < |queue| :: Usable(queue[n], now, ttl) && Usable(queue[i], now, ttl);
    }
  }

  lemma {:induction false} RestIsUsable(queue: seq<Instance>, n: nat, now: nat, ttl: nat)
    requires n <= |queue|
    ensures UsableFrom(queue[n..], 0, now, ttl) <==> UsableFrom(queue, n, now, ttl)
  {
    var rest := queue[n..];
    assert forall i | 0 <= i < |rest| :: rest[i] == queue[n + i];
    if UsableFrom(rest, 0, now, ttl) {
      forall i | n <= i < |queue| ensures Usable(queue[i], now, ttl) {
        assert queue[i] == rest[i - n];
      }
    }
  }

  /** A queue on which the condition fails: an expired instance behind a usable one. */
  lemma OnlyTheHead()
    ensures var queue := [Instance(1, 10), Instance(2, 0)];
            Stale(queue, 5, 10, 3) == 0 && !UsableFrom(queue, 0, 10, 3) && !ExpiredFirst(queue, 0, 10, 3)
  {
    var queue := [Instance(1, 10), Instance(2, 0)];
    assert Usable(queue[0], 10, 3) && !Usable(queue[1], 10, 3);
  }

  lemma HeadMoves(terminated: seq<Instance>, extra: seq<Instance>, all: seq<Instance>, n: nat)
    requires n <= |all|
    ensures multiset(all[n..]) + multiset(terminated + extra + all[..n]) == multiset(terminated) + multiset(extra) + multiset(all)
  {
    assert all == all[..n] + all[n..];
  }

  class AppState {
    var ready: seq<Instance>
    /** Instances handed to the terminate queue. */
    var terminated: seq<Instance>
    const max: nat
    const ttl: nat

    constructor (max: nat, ttl: nat)
      ensures ready == [] && terminated == [] && this.max == max && this.ttl == ttl
    {
      ready, terminated, this.max, this.ttl := [], [], max, ttl;
    }

    /** Two loops: down to the limit, then up to the first usable instance. */
    method GcReadyInstances(now: nat)
      modifies this
      ensures var n := Stale(old(ready), max, now, ttl);
              ready == old(ready)[n..] && terminated == old(terminated) + old(ready)[..n]
    {
      ghost var n := Stale(ready, max, now, ttl);
      ghost var k := 0;
      assert ready == ready[0..];
      while |ready| > max
        invariant 0 <= k <= |old(ready)| && ready == old(ready)[k..] && terminated == old(terminated) + old(ready)[..k]
        invariant n == k + Stale(ready, max, now, ttl)
      {
        assert old(ready)[..k + 1] == old(ready)[..k] + [ready[0]];
        ready, terminated := ready[1..], terminated + [ready[0]];
        k := k + 1;
      }
      while |ready| > 0 && !Usable(ready[0], now, ttl)
        invariant 0 <= k <= |old(ready)| && ready == old(ready)[k..] && terminated == old(terminated) + old(ready)[..k]
        invariant n == k + Stale(ready, max, now, ttl) && |ready| <= max
        decreases |ready|
      {
        assert old(ready)[..k + 1] == old(ready)[..k] + [ready[0]];
        ready, terminated := ready[1..], terminated + [ready[0]];
        k := k + 1;
      }
    }

    /** The instance goes to the end of the queue, or is terminated when it is dropped; then
        the stale head is terminated. No instance is lost. */
    method PoolInstance(inst: Instance, dropped: bool, now: nat)
      modifies this
      ensures multiset(ready) + multiset(terminated) == old(multiset(ready) + multiset(terminated)) + multiset{inst}
      ensures |ready| <= max && (ready != [] ==> Usable(ready[0], now, ttl))
      ensures var all := if dropped then old(ready) else old(ready) + [inst];
              var n := Stale(all, max, now, ttl);
              && ready == all[n..]
              && terminated == old(terminated) + (if dropped then [inst] else []) + all[..n]
    {
      ghost var was, extra := terminated, if dropped then [inst] else [];
      ghost var all := if dropped then ready else ready + [inst];
      if dropped {
        terminated := terminated + [inst];
      } else {
        ready := ready + [inst];
      }
      assert terminated == was + extra && ready == all;
      StaleIsLeast(all, max, now, ttl);
      HeadMoves(was, extra, all, Stale(all, max, now, ttl));
      GcReadyInstances(now);
    }

    /** A pooled instance, if one is left after the collection, leaves the queue with its
        time refreshed; otherwise one has to be spawned. */
    method GetInstance(now: nat) returns (inst: Option<Instance>)
      modifies this
      ensures var n := Stale(old(ready), max, now, ttl);
              if n == |old(ready)| then inst == None && ready == []
              else
                && inst == Some(old(ready)[n].(lastActive := now)) && ready == old(ready)[n + 1..]
                && Usable(old(ready)[n], now, ttl)
      ensures terminated == old(terminated) + old(ready)[..Stale(old(ready), max, now, ttl)]
    {
      StaleIsLeast(ready, max, now, ttl);
      GcReadyInstances(now);
      if ready == [] { return None; }
      inst := Some(ready[0].(lastActive := now));
      ready := ready[1..];
    }
  }
}
