/** The two-shard histogram as a transition system.

    One `Action` is one atomic memory operation of the source. Any number of
    `observe` and `flush` calls may be in flight; `ops` lists them in the order
    of their increment of the packed word, which is also the order in which they
    are linearized. At most one collector holds the collect lock. Atomics are
    sequentially consistent; a weak compare-exchange may fail spuriously. */
module HistogramProtocol {
  import opened Wrappers
  import opened Buckets
  import opened Runs

  const TWO_63: nat := 0x8000_0000_0000_0000
  const TWO_64: nat := 0x1_0000_0000_0000_0000

  /** `fetch_add` on an unsigned 64-bit word. */
  function Add64(x: nat, delta: nat): nat {
    (x + delta) % TWO_64
  }

  /** The top bit selects the hot shard, the other 63 bits count observations. */
  function ShardOf(word: nat): nat {
    word / TWO_63 % 2
  }

  function CountOf(word: nat): nat {
    word % TWO_63
  }

  datatype Shard = Shard(count: nat, sum: real, buckets: seq<nat>)

  function ZeroShard(n: nat): Shard {
    Shard(0, 0.0, seq(n, i => 0))
  }

  /** Program counter of the compare-exchange loop that adds to a float. */
  datatype FloatAdd = Load | Exchange(current: real) | Stored

  /** One `observe` (a single value) or one local `flush` (a batch). Buckets from
      `next` on are still to be updated. */
  datatype Op = Op(values: seq<real>, batch: bool, shard: nat, next: nat, sumAdd: FloatAdd, counted: bool)

  datatype Phase =
    | Flip
    | Spin
    | TakeSum
    | Drain(i: nat)
    | Merge(i: nat, taken: nat)
    | AddCount
    | AddSum(add: FloatAdd)
    | Return

  /** What the holder of the collect lock is doing. `cut` is the number of
      operations that had incremented the packed word when the bit was flipped. */
  datatype Holder =
    | Free
    | Reading
    | ReadingSum(shard: nat)
    | Collecting(phase: Phase, cold: nat, overall: nat, sum: real, cumulative: seq<nat>, cut: nat)

  /** A snapshot returned by `proto`, with its place in the order of operations. */
  datatype Collected = Collected(snapshot: Snapshot, cut: nat)

  datatype State = State(
    bounds: seq<real>,
    word: nat,
    shards: seq<Shard>,
    ops: seq<Op>,
    holder: Holder,
    flips: nat,
    results: seq<Collected>)

  datatype Action =
    | Reserve(values: seq<real>, batch: bool)
    | AddBucket(k: nat)
    | LoadSum(k: nat)
    | ExchangeSum(k: nat, spurious: bool)
    | AddOpCount(k: nat)
    | LockToCollect
    | FlipBit
    | SpinOnce(spurious: bool)
    | SwapSum
    | SwapBucket
    | MergeBucket
    | MergeCount
    | LoadHotSum
    | ExchangeHotSum(spurious: bool)
    | UnlockCollected
    | LockToRead
    | ReadWord
    | ReadSum

  function Init(bounds: seq<real>): State {
    State(bounds, 0, [ZeroShard(|bounds|), ZeroShard(|bounds|)], [], Free, 0, [])
  }

  /** What a finished operation adds to bucket `i`. */
  function BucketDelta(bounds: seq<real>, op: Op, i: nat): nat {
    BucketCount(bounds, op.values, i)
  }

  function AddToBucket(s: Shard, i: nat, delta: nat): Shard {
    if i < |s.buckets| then s.(buckets := s.buckets[i := Add64(s.buckets[i], delta)]) else s
  }

  function AddToCount(s: Shard, delta: nat): Shard {
    s.(count := Add64(s.count, delta))
  }

  predicate WellFormed(s: State) {
    && |s.shards| == 2
    && (forall x | 0 <= x < 2 :: |s.shards[x].buckets| == |s.bounds|)
    && (forall k | 0 <= k < |s.ops| :: s.ops[k].shard < 2)
    && (s.holder.ReadingSum? ==> s.holder.shard < 2)
    && (s.holder.Collecting? ==> s.holder.cold < 2)
  }

  /** `shards[x] := shard` */
  function WithShard(s: State, x: nat, shard: Shard): State
    requires WellFormed(s) && x < 2
  {
    s.(shards := s.shards[x := shard])
  }

  function WithOp(s: State, k: nat, op: Op): State
    requires k < |s.ops|
  {
    s.(ops := s.ops[k := op])
  }

  /** The first step of `observe` and `flush`: increment the packed word. */
  function DoReserve(s: State, values: seq<real>, batch: bool): Option<State>
    requires WellFormed(s)
  {
    if values == [] || (!batch && |values| != 1) then None
    else
      Some(s.(
           word := Add64(s.word, |values|),
           ops := s.ops + [Op(values, batch, ShardOf(s.word), 0, Load, false)]))
  }

  /** One bucket update: `observe` finds its bucket and is done with buckets,
      `flush` handles the next entry of its local counts. */
  function DoAddBucket(s: State, k: nat): Option<State>
    requires WellFormed(s)
  {
    if k >= |s.ops| || s.ops[k].next >= |s.bounds| then None
    else
      var op := s.ops[k];
      var shard := s.shards[op.shard];
      if op.batch then
        var delta := BucketDelta(s.bounds, op, op.next);
        var shard' := if delta > 0 then AddToBucket(shard, op.next, delta) else shard;
        Some(WithOp(WithShard(s, op.shard, shard'), k, op.(next := op.next + 1)))
      else if op.values == [] then None
      else
        var shard' := AddToBucket(shard, FirstBucket(s.bounds, op.values[0]), 1);
        Some(WithOp(WithShard(s, op.shard, shard'), k, op.(next := |s.bounds|)))
  }

  function DoLoadSum(s: State, k: nat): Option<State>
    requires WellFormed(s)
  {
    if k >= |s.ops| || s.ops[k].next < |s.bounds| || s.ops[k].sumAdd != Load then None
    else Some(WithOp(s, k, s.ops[k].(sumAdd := Exchange(s.shards[s.ops[k].shard].sum))))
  }

  function DoExchangeSum(s: State, k: nat, spurious: bool): Option<State>
    requires WellFormed(s)
  {
    if k >= |s.ops| || !s.ops[k].sumAdd.Exchange? then None
    else
      var op := s.ops[k];
      var shard := s.shards[op.shard];
      if !spurious && shard.sum == op.sumAdd.current then
        var shard' := shard.(sum := op.sumAdd.current + SumOf(op.values));
        Some(WithOp(WithShard(s, op.shard, shard'), k, op.(sumAdd := Stored)))
      else
        Some(WithOp(s, k, op.(sumAdd := Load)))
  }

  function DoAddOpCount(s: State, k: nat): Option<State>
    requires WellFormed(s)
  {
    if k >= |s.ops| || s.ops[k].sumAdd != Stored || s.ops[k].counted then None
    else
      var op := s.ops[k];
      Some(WithOp(WithShard(s, op.shard, AddToCount(s.shards[op.shard], |op.values|)), k, op.(counted := true)))
  }

  predicate InPhase(s: State, p: Phase) {
    s.holder.Collecting? && s.holder.phase == p
  }

  function DoFlip(s: State): Option<State>
    requires WellFormed(s)
  {
    if !InPhase(s, Flip) then None
    else
      Some(s.(
           word := Add64(s.word, TWO_63),
           flips := s.flips + 1,
           holder := Collecting(Spin, ShardOf(s.word), CountOf(s.word), 0.0, [], |s.ops|)))
  }

  function DoSpin(s: State, spurious: bool): Option<State>
    requires WellFormed(s)
  {
    if !InPhase(s, Spin) then None
    else
      var cold := s.shards[s.holder.cold];
      if !spurious && cold.count == s.holder.overall then
        Some(WithShard(s, s.holder.cold, cold.(count := 0)).(holder := s.holder.(phase := TakeSum)))
      else Some(s)
  }

  function DoSwapSum(s: State): Option<State>
    requires WellFormed(s)
  {
    if !InPhase(s, TakeSum) then None
    else
      var cold := s.shards[s.holder.cold];
      Some(WithShard(s, s.holder.cold, cold.(sum := 0.0)).(holder := s.holder.(phase := Drain(0), sum := cold.sum)))
  }

  function DoSwapBucket(s: State): Option<State>
    requires WellFormed(s)
  {
    if !(s.holder.Collecting? && s.holder.phase.Drain?) then None
    else
      var i := s.holder.phase.i;
      if i >= |s.bounds| then Some(s.(holder := s.holder.(phase := AddCount)))
      else
        var cold := s.shards[s.holder.cold];
        Some(WithShard(s, s.holder.cold, cold.(buckets := cold.buckets[i := 0]))
             .(holder := s.holder.(phase := Merge(i, cold.buckets[i]))))
  }

  function Last(counts: seq<nat>): nat {
    if counts == [] then 0 else counts[|counts| - 1]
  }

  function DoMergeBucket(s: State): Option<State>
    requires WellFormed(s)
  {
    if !(s.holder.Collecting? && s.holder.phase.Merge?) then None
    else
      var (i, taken) := (s.holder.phase.i, s.holder.phase.taken);
      var hot := 1 - s.holder.cold;
      Some(WithShard(s, hot, AddToBucket(s.shards[hot], i, taken))
           .(holder := s.holder.(
             phase := Drain(i + 1),
             cumulative := s.holder.cumulative + [Add64(Last(s.holder.cumulative), taken)])))
  }

  function DoMergeCount(s: State): Option<State>
    requires WellFormed(s)
  {
    if !InPhase(s, AddCount) then None
    else
      var hot := 1 - s.holder.cold;
      Some(WithShard(s, hot, AddToCount(s.shards[hot], s.holder.overall))
           .(holder := s.holder.(phase := AddSum(Load))))
  }

  function DoLoadHotSum(s: State): Option<State>
    requires WellFormed(s)
  {
    if !InPhase(s, AddSum(Load)) then None
    else Some(s.(holder := s.holder.(phase := AddSum(Exchange(s.shards[1 - s.holder.cold].sum)))))
  }

  function DoExchangeHotSum(s: State, spurious: bool): Option<State>
    requires WellFormed(s)
  {
    if !(s.holder.Collecting? && s.holder.phase.AddSum? && s.holder.phase.add.Exchange?) then None
    else
      var hot := 1 - s.holder.cold;
      var current := s.holder.phase.add.current;
      if !spurious && s.shards[hot].sum == current then
        Some(WithShard(s, hot, s.shards[hot].(sum := current + s.holder.sum)).(holder := s.holder.(phase := Return)))
      else
        Some(s.(holder := s.holder.(phase := AddSum(Load))))
  }

  function DoUnlockCollected(s: State): Option<State>
    requires WellFormed(s)
  {
    if !InPhase(s, Return) then None
    else
      var h := s.holder;
      Some(s.(holder := Free, results := s.results + [Collected(Snapshot(h.overall, h.sum, h.cumulative), h.cut)]))
  }

  function Apply(s: State, a: Action): (r: Option<State>)
    requires WellFormed(s)
    ensures r.Some? ==> WellFormed(r.value) && r.value.bounds == s.bounds
  {
    match a
    case Reserve(values, batch) => DoReserve(s, values, batch)
    case AddBucket(k) => DoAddBucket(s, k)
    case LoadSum(k) => DoLoadSum(s, k)
    case ExchangeSum(k, spurious) => DoExchangeSum(s, k, spurious)
    case AddOpCount(k) => DoAddOpCount(s, k)
    case LockToCollect =>
      if s.holder != Free then None else Some(s.(holder := Collecting(Flip, 0, 0, 0.0, [], 0)))
    case FlipBit => DoFlip(s)
    case SpinOnce(spurious) => DoSpin(s, spurious)
    case SwapSum => DoSwapSum(s)
    case SwapBucket => DoSwapBucket(s)
    case MergeBucket => DoMergeBucket(s)
    case MergeCount => DoMergeCount(s)
    case LoadHotSum => DoLoadHotSum(s)
    case ExchangeHotSum(spurious) => DoExchangeHotSum(s, spurious)
    case UnlockCollected => DoUnlockCollected(s)
    case LockToRead => if s.holder != Free then None else Some(s.(holder := Reading))
    case ReadWord => if s.holder != Reading then None else Some(s.(holder := ReadingSum(ShardOf(s.word))))
    case ReadSum => if !s.holder.ReadingSum? then None else Some(s.(holder := Free))
  }

  /** The step function of the transition system. */
  function Next(s: State, a: Action): Option<State> {
    if WellFormed(s) then Apply(s, a) else None
  }

  function RunFrom(bounds: seq<real>, actions: seq<Action>): Option<State> {
    Run(Next, Init(bounds), actions)
  }
}
