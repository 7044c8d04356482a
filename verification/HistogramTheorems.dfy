/** What holds of every run of the two-shard histogram. */
module HistogramTheorems {
  import opened Wrappers
  import opened Runs
  import opened Buckets
  import opened HistogramProtocol
  import opened HistogramTallies
  import opened HistogramProof

  // ----- Single steps ----------------------------------------------------------

  /** The total of all increments of the packed word. */
  function Total(s: State): nat {
    Weight(s.ops, |s.ops|)
  }

  /** Reservations keep their order and values; new ones are appended. */
  ghost predicate Extends(s: State, s': State) {
    SameValues(s.ops, s'.ops) && Total(s) <= Total(s') && s'.bounds == s.bounds
  }

  lemma StepExtends(s: State, a: Action)
    requires Next(s, a).Some?
    ensures Extends(s, Next(s, a).value)
    ensures a.Reserve? ==> Total(Next(s, a).value) == Total(s) + |a.values|
    ensures !a.Reserve? ==> Total(Next(s, a).value) == Total(s)
  {
    var s' := Next(s, a).value;
    ReservedFrame(s.ops, s'.ops, |s.ops|);
    WeightGrows(s'.ops, |s.ops|, |s'.ops|);
  }

  lemma StepKeepsAccounts(s: State, a: Action)
    requires Accounted(s) && Next(s, a).Some? && Total(Next(s, a).value) < TWO_63
    ensures Accounted(Next(s, a).value)
  {
    StepExtends(s, a);
    match a
    case Reserve(values, batch) => ReserveKeepsAccounts(s, values, batch);
    case AddBucket(k) => AddBucketKeepsAccounts(s, k);
    case LoadSum(k) => LoadSumKeepsAccounts(s, k);
    case ExchangeSum(k, spurious) => ExchangeSumKeepsAccounts(s, k, spurious);
    case AddOpCount(k) => AddOpCountKeepsAccounts(s, k);
    case FlipBit => FlipKeepsAccounts(s);
    case SpinOnce(spurious) => SpinKeepsAccounts(s, spurious);
    case SwapSum => SwapSumKeepsAccounts(s);
    case SwapBucket => SwapBucketKeepsAccounts(s);
    case MergeBucket => MergeBucketKeepsAccounts(s);
    case MergeCount => MergeCountKeepsAccounts(s);
    case LoadHotSum => LoadHotSumKeepsAccounts(s);
    case ExchangeHotSum(spurious) => ExchangeHotSumKeepsAccounts(s, spurious);
    case UnlockCollected => UnlockKeepsAccounts(s);
    case _ => LockKeepsAccounts(s, a);
  }

  /** A collection's cut is fixed by the flip; only its end returns a result. */
  ghost predicate CollectsBy(s: State, a: Action, s': State) {
    && (AfterFlip(s'.holder) ==>
          if a == FlipBit then s'.holder.cut == |s.ops|
          else AfterFlip(s.holder) && s'.holder.cut == s.holder.cut)
    && (if a == UnlockCollected then
          && InPhase(s, Return)
          && s'.results == s.results + [Collected(Snapshot(s.holder.overall, s.holder.sum, s.holder.cumulative), s.holder.cut)]
        else s'.results == s.results)
  }

  lemma StepCollects(s: State, a: Action)
    requires Next(s, a).Some?
    ensures CollectsBy(s, a, Next(s, a).value)
  {
  }

  // ----- Along a run -------------------------------------------------------------

  lemma RunExtends(bounds: seq<real>, actions: seq<Action>, p: nat)
    requires p <= |actions| && RunFrom(bounds, actions).Some?
    ensures RunFrom(bounds, actions[..p]).Some?
    ensures Extends(RunFrom(bounds, actions[..p]).value, RunFrom(bounds, actions).value)
  {
    forall s, a | Next(s, a).Some? ensures Extends(s, Next(s, a).value) {
      StepExtends(s, a);
    }
    Monotone(Next, Init(bounds), actions, p, (s, s') => Extends(s, s'));
  }

  /** Shard accounting holds after every run whose total fits in 63 bits. */
  lemma RunsAreAccounted(bounds: seq<real>, actions: seq<Action>)
    requires RunFrom(bounds, actions).Some? && Total(RunFrom(bounds, actions).value) < TWO_63
    ensures Accounted(RunFrom(bounds, actions).value) && RunFrom(bounds, actions).value.bounds == bounds
  {
    var inv := (s: State) => s.bounds == bounds && (Total(s) < TWO_63 ==> Accounted(s));
    assert inv(Init(bounds)) by {
      forall c: Cell | ValidCell(Init(bounds), c) ensures CellOk(Init(bounds), c) {
      }
    }
    forall s, a | inv(s) && Next(s, a).Some? ensures inv(Next(s, a).value) {
      StepExtends(s, a);
      if Total(Next(s, a).value) < TWO_63 {
        StepKeepsAccounts(s, a);
      }
    }
    Invariant(Next, Init(bounds), actions, inv);
  }

  /** Whenever the collect lock is free the cold shard is zero, nobody writes to it,
      and the hot count plus the weight still under way is the 63-bit count. */
  ghost predicate FreeLockAccounting(s: State)
    requires WellFormed(s)
  {
    var hot := ShardOf(s.word);
    && s.shards[1 - hot] == ZeroShard(|s.bounds|)
    && (forall k | 0 <= k < |s.ops| && !s.ops[k].counted :: s.ops[k].shard == hot)
    && CountOf(s.word) == Total(s)
    && s.shards[hot].count + InFlight(s.ops, |s.ops|) == CountOf(s.word)
    && s.shards[hot].count == Applied(s.bounds, s.ops, 0, |s.ops|, Count) <= Total(s)
    && (s.shards[hot].count == CountOf(s.word) <==> forall k | 0 <= k < |s.ops| :: s.ops[k].counted)
  }

  lemma AccountedWhenFree(s: State)
    requires Accounted(s) && s.holder == Free && Total(s) < TWO_63
    ensures FreeLockAccounting(s)
  {
    WordDecodes(s);
    assert CellOk(s, Count);
    forall i | 0 <= i < |s.bounds| ensures s.shards[Cold(s)].buckets[i] == 0 {
      assert CellOk(s, Bucket(i));
    }
    CountedIffFull(s.bounds, s.ops, |s.ops|);
    CountedAndInFlight(s.bounds, s.ops, |s.ops|);
  }

  lemma FreeLockIsAccounted(bounds: seq<real>, actions: seq<Action>, s: State)
    requires RunFrom(bounds, actions) == Some(s) && s.holder == Free && Total(s) < TWO_63
    ensures WellFormed(s) && FreeLockAccounting(s)
  {
    RunsAreAccounted(bounds, actions);
    AccountedWhenFree(s);
  }

  /** While a collector spins, it can leave the loop if and only if no operation is
      left on the cold shard, and no later operation can join that shard. */
  lemma SpinSeesQuietColdShard(bounds: seq<real>, actions: seq<Action>, s: State)
    requires RunFrom(bounds, actions) == Some(s) && InPhase(s, Spin) && Total(s) < TWO_63
    ensures WellFormed(s)
    ensures s.shards[s.holder.cold].count == s.holder.overall
       <==> forall k | 0 <= k < s.holder.cut <= |s.ops| :: s.ops[k].counted
    ensures forall k | s.holder.cut <= k < |s.ops| && !s.ops[k].counted :: s.ops[k].shard != s.holder.cold
    ensures ShardOf(s.word) != s.holder.cold
  {
    RunsAreAccounted(bounds, actions);
    SpinEndsIffColdIsQuiet(s);
    WordDecodes(s);
  }

  // ----- The packed word, without any bound on the total ----------------------

  lemma AddModulo(x: nat, word: nat, delta: nat)
    requires word == x % TWO_64
    ensures (word + delta) % TWO_64 == (x + delta) % TWO_64
  {
    var q := x / TWO_64;
    assert x + delta == word + delta + q * TWO_64;
  }

  /** Flips and observations share one 64-bit counter. */
  predicate Modular(s: State) {
    s.word == (s.flips * TWO_63 + Total(s)) % TWO_64
  }

  lemma StepIsModular(s: State, a: Action)
    requires Modular(s) && Next(s, a).Some?
    ensures Modular(Next(s, a).value)
  {
    StepExtends(s, a);
    AddModulo(s.flips * TWO_63 + Total(s), s.word, if a.Reserve? then |a.values| else TWO_63);
  }

  lemma SplitModulo(flips: nat, total: nat)
    ensures var word := (flips * TWO_63 + total) % TWO_64;
            ShardOf(word) == flips % 2 && CountOf(word) == total <==> total < TWO_63
  {
    if total < TWO_63 {
      var q, bit := flips / 2, flips % 2;
      assert flips * TWO_63 + total == bit * TWO_63 + total + q * TWO_64;
      assert bit * TWO_63 + total < TWO_64;
    }
  }

  lemma RunsAreModular(bounds: seq<real>, actions: seq<Action>)
    requires RunFrom(bounds, actions).Some?
    ensures Modular(RunFrom(bounds, actions).value)
  {
    forall s, a | Modular(s) && Next(s, a).Some? ensures Modular(Next(s, a).value) {
      StepIsModular(s, a);
    }
    Invariant(Next, Init(bounds), actions, Modular);
  }

  /** The word decodes to the right shard and the full count exactly while the total
      of all increments is below 2^63. */
  lemma WordDecodesIff(bounds: seq<real>, actions: seq<Action>, s: State)
    requires RunFrom(bounds, actions) == Some(s)
    ensures ShardOf(s.word) == s.flips % 2 && CountOf(s.word) == Total(s) <==> Total(s) < TWO_63
  {
    RunsAreModular(bounds, actions);
    SplitModulo(s.flips, Total(s));
  }

  /** One reserved batch of 2^63 values, with the given word, flips and lock holder. */
  function CarryState(values: seq<real>, word: nat, holder: Holder, flips: nat): State {
    State([], word, [Shard(0, 0.0, []), Shard(0, 0.0, [])], [Op(values, true, 0, 0, Load, false)], holder, flips, [])
  }

  lemma CarryReserves(values: seq<real>)
    requires |values| == TWO_63
    ensures Next(Init([]), Reserve(values, true)) == Some(CarryState(values, TWO_63, Free, 0))
    ensures Next(CarryState(values, TWO_63, Free, 0), LockToCollect)
         == Some(CarryState(values, TWO_63, Collecting(Flip, 0, 0, 0.0, [], 0), 0))
  {
    var s := Init([]);
    assert ZeroShard(0) == Shard(0, 0.0, []);
    assert s.ops + [Op(values, true, 0, 0, Load, false)] == [Op(values, true, 0, 0, Load, false)];
    assert s.shards == [Shard(0, 0.0, []), Shard(0, 0.0, [])];
    assert Add64(0, |values|) == TWO_63 && ShardOf(0) == 0;
  }

  lemma CarryFlips(values: seq<real>)
    ensures Next(CarryState(values, TWO_63, Collecting(Flip, 0, 0, 0.0, [], 0), 0), FlipBit)
         == Some(CarryState(values, 0, Collecting(Spin, 1, 0, 0.0, [], 1), 1))
    ensures Next(CarryState(values, 0, Collecting(Spin, 1, 0, 0.0, [], 1), 1), SpinOnce(false))
         == Some(CarryState(values, 0, Collecting(TakeSum, 1, 0, 0.0, [], 1), 1))
  {
    var shards := [Shard(0, 0.0, []), Shard(0, 0.0, [])];
    assert shards[1 := Shard(0, 0.0, [])] == shards;
  }

  /** The collector that was misled, in phase `p` with both shards empty. */
  function Misled(values: seq<real>, p: Phase): State {
    CarryState(values, 0, Collecting(p, 1, 0, 0.0, [], 1), 1)
  }

  lemma CarryDrains(values: seq<real>)
    ensures Next(Misled(values, TakeSum), SwapSum) == Some(Misled(values, Drain(0)))
    ensures Next(Misled(values, Drain(0)), SwapBucket) == Some(Misled(values, AddCount))
    ensures Next(Misled(values, AddCount), MergeCount) == Some(Misled(values, AddSum(Load)))
  {
    var shards := [Shard(0, 0.0, []), Shard(0, 0.0, [])];
    assert shards[1 := Shard(0, 0.0, [])] == shards && shards[0 := Shard(0, 0.0, [])] == shards;
  }

  lemma CarryReturns(values: seq<real>)
    ensures Next(Misled(values, AddSum(Load)), LoadHotSum) == Some(Misled(values, AddSum(Exchange(0.0))))
    ensures Next(Misled(values, AddSum(Exchange(0.0))), ExchangeHotSum(false)) == Some(Misled(values, Return))
    ensures var r := Collected(Snapshot(0, 0.0, []), 1);
            Next(Misled(values, Return), UnlockCollected)
            == Some(CarryState(values, 0, Free, 1).(results := [r]))
  {
    var shards := [Shard(0, 0.0, []), Shard(0, 0.0, [])];
    assert shards[0 := Shard(0, 0.0, [])] == shards;
    var r := Collected(Snapshot(0, 0.0, []), 1);
    assert [] + [r] == [r];
  }

  /** The run of the next theorem. */
  function CarryRun(values: seq<real>): seq<Action> {
    [Reserve(values, true), LockToCollect, FlipBit, SpinOnce(false), SwapSum, SwapBucket, MergeCount, LoadHotSum,
     ExchangeHotSum(false), UnlockCollected]
  }

  /** At a total of 2^63 the carry flips the shard bit. After one flushed batch of that
      size has been reserved, a collector is handed the wrong shard and a count of 0,
      leaves its spin loop although the batch before its cut has written nothing, and
      returns a snapshot that is not the histogram of what was reserved before its flip:
      the bound of `SnapshotsAreLinearizable` is the least possible. */
  lemma CarryDefeatsSpin(values: seq<real>) returns (spun: State, s: State)
    requires |values| == TWO_63
    ensures RunFrom([], CarryRun(values)[..4]) == Some(spun) && InPhase(spun, TakeSum)
    ensures |spun.ops| == 1 && !spun.ops[0].counted
    ensures RunFrom([], CarryRun(values)) == Some(s) && Total(s) == TWO_63
    ensures |s.results| == 1 && s.results[0].cut == 1 && RunFrom([], CarryRun(values)[..2]).Some?
    ensures Observed(CarryRun(values)[..2]) == values
    ensures s.results[0].snapshot != HistogramOf([], values)
  {
    CarryReserves(values);
    CarryFlips(values);
    CarryDrains(values);
    CarryReturns(values);
    spun := Misled(values, TakeSum);
    s := CarryState(values, 0, Free, 1).(results := [Collected(Snapshot(0, 0.0, []), 1)]);
    var locked := CarryState(values, TWO_63, Collecting(Flip, 0, 0, 0.0, [], 0), 0);
    var path := [Init([]), CarryState(values, TWO_63, Free, 0), locked, Misled(values, Spin), spun,
                 Misled(values, Drain(0)), Misled(values, AddCount), Misled(values, AddSum(Load)),
                 Misled(values, AddSum(Exchange(0.0))), Misled(values, Return), s];
    var actions := CarryRun(values);
    Path(Next, path, actions);
    Path(Next, path[..5], actions[..4]);
    Path(Next, path[..3], actions[..2]);
    OnlyReserved(s.ops);
    OnlyReserved(locked.ops);
    ReservedIsObserved([], actions[..2]);
  }

  lemma OnlyReserved(ops: seq<Op>)
    requires |ops| == 1
    ensures Reserved(ops, 1) == ops[0].values && Weight(ops, 1) == |ops[0].values|
  {
    assert Reserved(ops, 0) + ops[0].values == ops[0].values;
  }

  // ----- Linearizability -------------------------------------------------------

  /** A collector that has swapped out everything holds the sequential histogram of
      the operations before its cut. */
  lemma CollectedIsHistogram(s: State)
    requires Accounted(s) && InPhase(s, Return) && Increasing(s.bounds)
    ensures var h := s.holder;
            Snapshot(h.overall, h.sum, h.cumulative) == HistogramOf(s.bounds, Reserved(s.ops, h.cut))
  {
    var h := s.holder;
    AppliedWhenDone(s.bounds, s.ops, h.cut, Count);
    forall i | 0 <= i < |s.bounds|
      ensures h.cumulative[i] == CountAtMost(Reserved(s.ops, h.cut), s.bounds[i])
    {
      RunningAppliedWhenDone(s.bounds, s.ops, h.cut, i);
      RunningCountIsCumulative(s.bounds, Reserved(s.ops, h.cut), i);
    }
  }

  /** The collection that is under way after `actions` flipped the bit at step `p`,
      after `cut` reservations. */
  ghost predicate FlippedAt(
    step: (State, Action) -> Option<State>, init: State, actions: seq<Action>, p: nat, cut: nat)
  {
    && p < |actions| && actions[p] == FlipBit
    && (forall j | p < j < |actions| :: actions[j] != FlipBit)
    && Run(step, init, actions[..p]).Some? && |Run(step, init, actions[..p]).value.ops| == cut
  }

  lemma {:induction false} OpenCollectionFlipped(
    step: (State, Action) -> Option<State>, init: State, actions: seq<Action>)
    requires forall s, a :: step(s, a).Some? ==> CollectsBy(s, a, step(s, a).value)
    requires Run(step, init, actions).Some? && AfterFlip(Run(step, init, actions).value.holder)
    requires !AfterFlip(init.holder)
    ensures exists p: nat :: FlippedAt(step, init, actions, p, Run(step, init, actions).value.holder.cut)
    decreases |actions|
  {
    var front, a := actions[..|actions| - 1], actions[|actions| - 1];
    var before := Run(step, init, front).value;
    var cut := Run(step, init, actions).value.holder.cut;
    if a == FlipBit {
      assert FlippedAt(step, init, actions, |actions| - 1, cut);
    } else {
      OpenCollectionFlipped(step, init, front);
      var p: nat :| FlippedAt(step, init, front, p, cut);
      assert actions[..p] == front[..p];
      assert FlippedAt(step, init, actions, p, cut);
    }
  }

  /** Result `r` was returned at step `q` by the collection that had flipped the bit
      at step `p`. */
  ghost predicate ReturnedBy(
    step: (State, Action) -> Option<State>, init: State, actions: seq<Action>, p: nat, q: nat, r: Collected)
  {
    && q < |actions| && actions[q] == UnlockCollected
    && FlippedAt(step, init, actions[..q], p, r.cut)
    && Run(step, init, actions[..q]).Some?
    && var h := Run(step, init, actions[..q]).value.holder;
       && h.Collecting? && h.phase == Return
       && r == Collected(Snapshot(h.overall, h.sum, h.cumulative), h.cut)
  }

  lemma {:induction false} ResultsAreReturned(
    step: (State, Action) -> Option<State>, init: State, actions: seq<Action>, j: nat)
    requires forall s, a :: step(s, a).Some? ==> CollectsBy(s, a, step(s, a).value)
    requires !AfterFlip(init.holder) && init.results == []
    requires Run(step, init, actions).Some? && j < |Run(step, init, actions).value.results|
    ensures exists p: nat, q: nat :: ReturnedBy(step, init, actions, p, q, Run(step, init, actions).value.results[j])
    decreases |actions|
  {
    var n := |actions| - 1;
    var front, a := actions[..n], actions[n];
    var before := Run(step, init, front).value;
    var r := Run(step, init, actions).value.results[j];
    if j < |before.results| {
      ResultsAreReturned(step, init, front, j);
      var p: nat, q: nat :| ReturnedBy(step, init, front, p, q, r);
      assert actions[..q] == front[..q];
      assert ReturnedBy(step, init, actions, p, q, r);
    } else {
      OpenCollectionFlipped(step, init, front);
      var p: nat :| FlippedAt(step, init, front, p, r.cut);
      assert ReturnedBy(step, init, actions, p, n, r);
    }
  }

  /** The observations that a list of actions reserves, in order. */
  function Observed(actions: seq<Action>): seq<real> {
    if actions == [] then []
    else
      var a := actions[|actions| - 1];
      Observed(actions[..|actions| - 1]) + if a.Reserve? then a.values else []
  }

  lemma StepReserves(s: State, a: Action)
    requires Next(s, a).Some?
    ensures var t := Next(s, a).value;
            Reserved(t.ops, |t.ops|) == Reserved(s.ops, |s.ops|) + if a.Reserve? then a.values else []
  {
    var t := Next(s, a).value;
    ReservedFrame(s.ops, t.ops, |s.ops|);
    if !a.Reserve? {
      assert |t.ops| == |s.ops|;
      assert Reserved(s.ops, |s.ops|) + [] == Reserved(s.ops, |s.ops|);
    }
  }

  /** What the operations of a run have reserved is what its actions asked for. */
  lemma {:induction false} ReservedIsObserved(bounds: seq<real>, actions: seq<Action>)
    requires RunFrom(bounds, actions).Some?
    ensures var s := RunFrom(bounds, actions).value; Reserved(s.ops, |s.ops|) == Observed(actions)
    decreases |actions|
  {
    if actions != [] {
      var front := actions[..|actions| - 1];
      ReservedIsObserved(bounds, front);
      StepReserves(RunFrom(bounds, front).value, actions[|actions| - 1]);
    }
  }

  /** In every interleaving of observers, flushers and collectors, every snapshot is
      the sequential histogram of exactly the observations whose increment of the
      packed word came before the flip of the collection that returned it. */
  lemma SnapshotsAreLinearizable(bounds: seq<real>, actions: seq<Action>, s: State, j: nat) returns (p: nat, q: nat)
    requires Increasing(bounds)
    requires RunFrom(bounds, actions) == Some(s) && Total(s) < TWO_63 && j < |s.results|
    ensures ReturnedBy(Next, Init(bounds), actions, p, q, s.results[j])
    ensures p < |actions| && RunFrom(bounds, actions[..p]).Some?
    ensures s.results[j].snapshot == HistogramOf(bounds, Observed(actions[..p]))
  {
    forall s, a | Next(s, a).Some? ensures CollectsBy(s, a, Next(s, a).value) {
      StepCollects(s, a);
    }
    ResultsAreReturned(Next, Init(bounds), actions, j);
    p, q :| ReturnedBy(Next, Init(bounds), actions, p, q, s.results[j]);
    SnapshotAtReturn(bounds, actions, p, q, s.results[j]);
  }

  lemma SnapshotAtReturn(bounds: seq<real>, actions: seq<Action>, p: nat, q: nat, r: Collected)
    requires Increasing(bounds)
    requires RunFrom(bounds, actions).Some? && Total(RunFrom(bounds, actions).value) < TWO_63
    requires ReturnedBy(Next, Init(bounds), actions, p, q, r)
    ensures p < |actions| && RunFrom(bounds, actions[..p]).Some?
    ensures r.snapshot == HistogramOf(bounds, Observed(actions[..p]))
  {
    var front := actions[..q];
    RunExtends(bounds, actions, q);
    RunsAreAccounted(bounds, front);
    CollectedIsHistogram(RunFrom(bounds, front).value);
    assert front[..p] == actions[..p];
    RunExtends(bounds, front, p);
    ReservedFrame(RunFrom(bounds, front[..p]).value.ops, RunFrom(bounds, front).value.ops, r.cut);
    ReservedIsObserved(bounds, front[..p]);
  }

  // ----- Local batching --------------------------------------------------------

  /** No call is under way. */
  predicate Quiescent(s: State) {
    s.holder == Free && forall k | 0 <= k < |s.ops| :: s.ops[k].counted
  }

  /** `shard` holds the tally of `values`. */
  ghost predicate Holds(bounds: seq<real>, shard: Shard, values: seq<real>) {
    && shard.count == |values| && shard.sum == SumOf(values)
    && |shard.buckets| == |bounds|
    && forall i | 0 <= i < |bounds| :: shard.buckets[i] == BucketCount(bounds, values, i)
  }

  lemma {:induction false} WeightIsLength(ops: seq<Op>, n: nat)
    requires n <= |ops|
    ensures Weight(ops, n) == |Reserved(ops, n)|
    decreases n
  {
    if n > 0 {
      WeightIsLength(ops, n - 1);
    }
  }

  /** With no call under way the hot shard holds the tally of everything that the run has
      observed, and the other is zero. */
  lemma QuiescentShards(bounds: seq<real>, actions: seq<Action>, s: State)
    requires RunFrom(bounds, actions) == Some(s) && Total(s) < TWO_63 && Quiescent(s)
    ensures |s.shards| == 2 && Holds(bounds, s.shards[ShardOf(s.word)], Observed(actions))
    ensures s.shards[1 - ShardOf(s.word)] == ZeroShard(|bounds|)
    ensures CountOf(s.word) == |Observed(actions)|
  {
    RunsAreAccounted(bounds, actions);
    ReservedIsObserved(bounds, actions);
    TallyWhenQuiescent(s);
  }

  lemma TallyWhenQuiescent(s: State)
    requires Accounted(s) && Total(s) < TWO_63 && Quiescent(s)
    ensures Holds(s.bounds, s.shards[ShardOf(s.word)], Reserved(s.ops, |s.ops|))
    ensures s.shards[1 - ShardOf(s.word)] == ZeroShard(|s.bounds|)
    ensures CountOf(s.word) == |Reserved(s.ops, |s.ops|)|
  {
    AccountedWhenFree(s);
    AppliedWhenDone(s.bounds, s.ops, |s.ops|, Count);
    WordDecodes(s);
    forall i | 0 <= i < |s.bounds|
      ensures s.shards[Hot(s)].buckets[i] == BucketCount(s.bounds, Reserved(s.ops, |s.ops|), i)
    {
      assert CellOk(s, Bucket(i));
      AppliedWhenDone(s.bounds, s.ops, |s.ops|, Bucket(i));
    }
  }

  /** Local batching refines direct observation: two runs that recorded the same
      values in the same order, however they were cut into `observe` calls and
      flushed batches and however they interleaved with collections, leave the same
      contents in the hot shard once all calls have returned. */
  lemma BatchingIsInvisible(bounds: seq<real>, direct: seq<Action>, batched: seq<Action>, s: State, t: State)
    requires RunFrom(bounds, direct) == Some(s) && Quiescent(s) && Total(s) < TWO_63
    requires RunFrom(bounds, batched) == Some(t) && Quiescent(t)
    requires Observed(direct) == Observed(batched)
    ensures |s.shards| == |t.shards| == 2 && s.shards[ShardOf(s.word)] == t.shards[ShardOf(t.word)]
    ensures s.shards[1 - ShardOf(s.word)] == t.shards[1 - ShardOf(t.word)]
    ensures CountOf(s.word) == CountOf(t.word)
  {
    TotalIsObserved(bounds, direct, s);
    TotalIsObserved(bounds, batched, t);
    QuiescentShards(bounds, direct, s);
    QuiescentShards(bounds, batched, t);
    assert s.shards[ShardOf(s.word)].buckets == t.shards[ShardOf(t.word)].buckets;
  }

  lemma TotalIsObserved(bounds: seq<real>, actions: seq<Action>, s: State)
    requires RunFrom(bounds, actions) == Some(s)
    ensures Total(s) == |Observed(actions)|
  {
    ReservedIsObserved(bounds, actions);
    WeightIsLength(s.ops, |s.ops|);
  }

  lemma {:induction false} BlockOfReserved(ops: seq<Op>, cut: nat, k: nat) returns (after: seq<real>)
    requires k < cut <= |ops|
    ensures Reserved(ops, cut) == Reserved(ops, k) + ops[k].values + after
    decreases cut
  {
    if k == cut - 1 {
      after := [];
    } else {
      after := BlockOfReserved(ops, cut - 1, k);
      assert Reserved(ops, k) + ops[k].values + after + ops[cut - 1].values
          == Reserved(ops, k) + ops[k].values + (after + ops[cut - 1].values);
      after := after + ops[cut - 1].values;
    }
  }

  /** The snapshot of an initial stretch of `all` that contains the whole of `values`,
      reserved as one operation after `before`; or of one that ends before them. */
  ghost predicate WhollyOrNot(
    bounds: seq<real>, snapshot: Snapshot, all: seq<real>, before: seq<real>, values: seq<real>)
  {
    || (exists after :: before + values + after <= all && snapshot == HistogramOf(bounds, before + values + after))
    || (exists n: nat | n <= |before| :: snapshot == HistogramOf(bounds, before[..n]))
  }

  /** In every run, for every returned snapshot and every operation, observed directly or
      flushed as a batch: the snapshot is the histogram of the values reserved up to some
      point of the run, which lies after all of the operation's values or before all of
      them. */
  lemma BatchesAreNotSplit(bounds: seq<real>, actions: seq<Action>, s: State, j: nat, k: nat)
    requires Increasing(bounds)
    requires RunFrom(bounds, actions) == Some(s) && Total(s) < TWO_63 && j < |s.results| && k < |s.ops|
    ensures WhollyOrNot(bounds, s.results[j].snapshot, Observed(actions), Reserved(s.ops, k), s.ops[k].values)
  {
    var p, q := SnapshotsAreLinearizable(bounds, actions, s, j);
    var r := s.results[j];
    RunExtends(bounds, actions, p);
    ReservedIsObserved(bounds, actions);
    ReservedIsObserved(bounds, actions[..p]);
    var t := RunFrom(bounds, actions[..p]).value;
    var cut := |t.ops|;
    ReservedFrame(t.ops, s.ops, cut);
    assert r.snapshot == HistogramOf(bounds, Reserved(s.ops, cut));
    if k < cut {
      var after := BlockOfReserved(s.ops, cut, k);
      ReservedPrefix(s.ops, cut, |s.ops|);
    } else {
      ReservedPrefix(s.ops, cut, k);
      assert Reserved(s.ops, k)[..|Reserved(s.ops, cut)|] == Reserved(s.ops, cut);
    }
  }

  lemma {:induction false} ReservedPrefix(ops: seq<Op>, lo: nat, hi: nat)
    requires lo <= hi <= |ops|
    ensures Reserved(ops, lo) <= Reserved(ops, hi)
    decreases hi
  {
    if lo < hi {
      ReservedPrefix(ops, lo, hi - 1);
    }
  }

  // ----- sample_sum --------------------------------------------------------------

  /** `sample_sum`, under the collect lock, reads the sum of exactly those operations
      that have completed their float addition. */
  lemma SampleSumIsStoredSum(bounds: seq<real>, actions: seq<Action>, s: State)
    requires RunFrom(bounds, actions) == Some(s) && Total(s) < TWO_63 && s.holder.ReadingSum?
    ensures s.shards[s.holder.shard].sum == SumApplied(s.ops, 0, |s.ops|)
  {
    RunsAreAccounted(bounds, actions);
  }
}
