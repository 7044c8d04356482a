/** Safety of the two-shard histogram over all runs: shard accounting and
    linearizability of snapshots. */
module HistogramProof {
  import opened Wrappers
  import opened Buckets
  import opened HistogramProtocol
  import opened HistogramTallies

  // ----- The shard accounting invariant ------------------------------------

  predicate AfterFlip(h: Holder) {
    h.Collecting? && h.phase != Flip
  }

  predicate AfterSpin(h: Holder) {
    AfterFlip(h) && h.phase != Spin
  }

  function Hot(s: State): nat {
    s.flips % 2
  }

  function Cold(s: State): nat {
    1 - s.flips % 2
  }

  /** Operations before the cut belong to the cold shard, the others to the hot one. */
  function Cut(s: State): nat {
    if AfterFlip(s.holder) then s.holder.cut else 0
  }

  /** The collector has not yet emptied this cell of the cold shard. */
  predicate InCold(h: Holder, c: Cell) {
    !AfterFlip(h) ||
    match h.phase
    case Spin => true
    case TakeSum => c.Bucket?
    case Drain(i) => c.Bucket? && i <= c.i
    case Merge(i, _) => c.Bucket? && i < c.i
    case _ => false
  }

  /** The collector has already merged this cell into the hot shard. */
  predicate InHot(h: Holder, c: Cell) {
    AfterFlip(h) &&
    match h.phase
    case Drain(i) => c.Bucket? && c.i < i
    case Merge(i, _) => c.Bucket? && c.i < i
    case AddCount => c.Bucket?
    case AddSum(_) => true
    case Return => true
    case _ => false
  }

  predicate SumInCold(h: Holder) {
    !AfterFlip(h) || h.phase == Spin || h.phase == TakeSum
  }

  predicate SumInHot(h: Holder) {
    AfterFlip(h) && h.phase == Return
  }

  function ColdValue(s: State, c: Cell): nat
    requires Cut(s) <= |s.ops|
  {
    if InCold(s.holder, c) then Applied(s.bounds, s.ops, 0, Cut(s), c) else 0
  }

  function HotValue(s: State, c: Cell): nat
    requires Cut(s) <= |s.ops|
  {
    Applied(s.bounds, s.ops, Cut(s), |s.ops|, c)
    + if InHot(s.holder, c) then Applied(s.bounds, s.ops, 0, Cut(s), c) else 0
  }

  predicate ValidCell(s: State, c: Cell) {
    c.Bucket? ==> c.i < |s.bounds|
  }

  /** Each integer cell holds the finished work of its side of the cut, wherever the
      collector has put it by now. */
  ghost predicate CellsOk(s: State)
    requires WellFormed(s) && Cut(s) <= |s.ops|
  {
    forall c: Cell | ValidCell(s, c) :: CellOk(s, c)
  }

  predicate CellOk(s: State, c: Cell)
    requires WellFormed(s) && Cut(s) <= |s.ops| && ValidCell(s, c)
  {
    && CellOf(s.shards[Cold(s)], c) == ColdValue(s, c)
    && CellOf(s.shards[Hot(s)], c) == HotValue(s, c)
  }

  predicate SumsOk(s: State)
    requires WellFormed(s) && Cut(s) <= |s.ops|
  {
    && s.shards[Cold(s)].sum == (if SumInCold(s.holder) then SumApplied(s.ops, 0, Cut(s)) else 0.0)
    && s.shards[Hot(s)].sum
       == SumApplied(s.ops, Cut(s), |s.ops|) + (if SumInHot(s.holder) then SumApplied(s.ops, 0, Cut(s)) else 0.0)
  }

  predicate Drained(s: State)
    requires Cut(s) <= |s.ops|
  {
    var h := s.holder;
    AfterSpin(h) ==>
      && (h.phase != TakeSum ==> h.sum == SumApplied(s.ops, 0, h.cut))
      && (h.phase.Drain? ==> |h.cumulative| == h.phase.i <= |s.bounds|)
      && (h.phase.Merge? ==>
            && |h.cumulative| == h.phase.i < |s.bounds|
            && h.phase.taken == Applied(s.bounds, s.ops, 0, h.cut, Bucket(h.phase.i)))
      && (h.phase.AddCount? || h.phase.AddSum? || h.phase.Return? ==> |h.cumulative| == |s.bounds|)
      && forall i | 0 <= i < |h.cumulative| :: h.cumulative[i] == RunningApplied(s.bounds, s.ops, h.cut, i)
  }

  predicate HolderOk(s: State) {
    var h := s.holder;
    && (AfterFlip(h) ==> h.cut <= |s.ops| && h.cold == Cold(s) && h.overall == Weight(s.ops, h.cut))
    && (AfterFlip(h) && (h.phase == Spin || h.phase == TakeSum) ==> h.cumulative == [])
    && (h.ReadingSum? ==> h.shard == Hot(s))
    && (AfterSpin(h) ==> forall k | 0 <= k < h.cut :: s.ops[k].counted)
  }

  /** An operation under way writes to the shard of its side of the cut. */
  predicate SidesOk(s: State) {
    forall k | 0 <= k < |s.ops| ::
      s.ops[k].counted || s.ops[k].shard == if k < Cut(s) then Cold(s) else Hot(s)
  }

  predicate WordOk(s: State) {
    s.word == s.flips % 2 * TWO_63 + Weight(s.ops, |s.ops|)
  }

  ghost predicate Accounted(s: State) {
    && WellFormed(s)
    && OpsOk(s.bounds, s.ops)
    && HolderOk(s)
    && SidesOk(s)
    && WordOk(s)
    && CellsOk(s)
    && SumsOk(s)
    && Drained(s)
  }

  // ----- Steps of an operation ----------------------------------------------

  /** The cells of a shard have room for what its operations still have to add. */
  lemma NoWrap(s: State, k: nat, op: Op, c: Cell)
    requires Accounted(s) && Weight(s.ops, |s.ops|) < TWO_63
    requires k < |s.ops| && !s.ops[k].counted && ValidCell(s, c)
    requires op.values == s.ops[k].values
    ensures CellOf(s.shards[s.ops[k].shard], c) + Done(s.bounds, op, c) <= TWO_63 - 1 + Done(s.bounds, s.ops[k], c)
  {
    var n := |s.ops|;
    var ops' := s.ops[k := op];
    AppliedUpdate(s.bounds, s.ops, k, op, 0, n, c);
    AppliedBound(s.bounds, ops', n, c);
    ReservedFrame(s.ops, ops', n);
    AppliedSplit(s.bounds, s.ops, Cut(s), n, c);
  }

  /** `op'` is the next program counter of operation `k`, `shard'` its shard after
      writing the difference. */
  ghost predicate Advances(bounds: seq<real>, op: Op, shard: Shard, op': Op, shard': Shard) {
    && !op.counted
    && OpOk(bounds, op')
    && op'.values == op.values && op'.shard == op.shard
    && |shard'.buckets| == |bounds| == |shard.buckets|
    && (forall c: Cell | c.Bucket? ==> c.i < |bounds| :: CellAdvances(bounds, op, shard, op', shard', c))
    && shard'.sum == shard.sum - SumDone(op) + SumDone(op')
  }

  predicate CellAdvances(bounds: seq<real>, op: Op, shard: Shard, op': Op, shard': Shard, c: Cell)
    requires |shard'.buckets| == |bounds| == |shard.buckets|
    requires c.Bucket? ==> c.i < |bounds|
  {
    CellOf(shard', c) + Done(bounds, op, c) == CellOf(shard, c) + Done(bounds, op', c)
  }

  /** Where operation `k` may still write. */
  ghost predicate Writable(s: State, k: nat)
    requires WellFormed(s) && Cut(s) <= |s.ops|
  {
    && k < |s.ops| && !s.ops[k].counted
    && s.ops[k].shard == (if k < Cut(s) then Cold(s) else Hot(s))
    && (AfterSpin(s.holder) ==> Cut(s) <= k)
  }

  lemma AdvanceApplied(s: State, k: nat, op': Op, c: Cell)
    requires Cut(s) <= |s.ops| && k < |s.ops|
    ensures var ops', n, cut := s.ops[k := op'], |s.ops|, Cut(s);
            && Applied(s.bounds, ops', 0, cut, c) == Applied(s.bounds, s.ops, 0, cut, c)
                 + (if k < cut then Done(s.bounds, op', c) - Done(s.bounds, s.ops[k], c) else 0)
            && Applied(s.bounds, ops', cut, n, c) == Applied(s.bounds, s.ops, cut, n, c)
                 + (if k < cut then 0 else Done(s.bounds, op', c) - Done(s.bounds, s.ops[k], c))
  {
    var ops' := s.ops[k := op'];
    if k < Cut(s) {
      AppliedUpdate(s.bounds, s.ops, k, op', 0, Cut(s), c);
      AppliedFrame(s.bounds, s.ops, ops', Cut(s), |s.ops|, c);
    } else {
      AppliedUpdate(s.bounds, s.ops, k, op', Cut(s), |s.ops|, c);
      AppliedFrame(s.bounds, s.ops, ops', 0, Cut(s), c);
    }
  }

  lemma AdvanceCell(s: State, k: nat, op': Op, shard': Shard, c: Cell)
    requires WellFormed(s) && Cut(s) <= |s.ops| && Writable(s, k)
    requires ValidCell(s, c) && CellOk(s, c)
    requires |shard'.buckets| == |s.bounds| && op'.shard == s.ops[k].shard
    requires CellAdvances(s.bounds, s.ops[k], s.shards[s.ops[k].shard], op', shard', c)
    ensures CellOk(WithOp(WithShard(s, s.ops[k].shard, shard'), k, op'), c)
  {
    AdvanceApplied(s, k, op', c);
  }

  lemma AdvanceCells(s: State, k: nat, op': Op, shard': Shard)
    requires WellFormed(s) && Cut(s) <= |s.ops| && Writable(s, k) && CellsOk(s)
    requires Advances(s.bounds, s.ops[k], s.shards[s.ops[k].shard], op', shard')
    ensures CellsOk(WithOp(WithShard(s, s.ops[k].shard, shard'), k, op'))
  {
    var s' := WithOp(WithShard(s, s.ops[k].shard, shard'), k, op');
    forall c: Cell | ValidCell(s', c) ensures CellOk(s', c) {
      assert CellOk(s, c) && CellAdvances(s.bounds, s.ops[k], s.shards[s.ops[k].shard], op', shard', c);
      AdvanceCell(s, k, op', shard', c);
    }
  }

  lemma AdvanceSums(s: State, k: nat, op': Op, shard': Shard)
    requires WellFormed(s) && Cut(s) <= |s.ops| && Writable(s, k) && SumsOk(s)
    requires |shard'.buckets| == |s.bounds| && op'.shard == s.ops[k].shard
    requires shard'.sum == s.shards[s.ops[k].shard].sum - SumDone(s.ops[k]) + SumDone(op')
    ensures SumsOk(WithOp(WithShard(s, s.ops[k].shard, shard'), k, op'))
  {
    var ops', n, cut := s.ops[k := op'], |s.ops|, Cut(s);
    if k < cut {
      AppliedUpdate(s.bounds, s.ops, k, op', 0, cut, Count);
      AppliedFrame(s.bounds, s.ops, ops', cut, n, Count);
    } else {
      AppliedUpdate(s.bounds, s.ops, k, op', cut, n, Count);
      AppliedFrame(s.bounds, s.ops, ops', 0, cut, Count);
    }
  }

  /** The collector's own books only depend on operations before the cut. */
  lemma DrainedFrame(s: State, s': State)
    requires Cut(s) <= |s.ops| <= |s'.ops| && Drained(s)
    requires s'.holder == s.holder && s'.bounds == s.bounds
    requires AfterSpin(s.holder) ==> forall k | 0 <= k < Cut(s) :: s.ops[k] == s'.ops[k]
    ensures Drained(s')
  {
    var h := s.holder;
    if AfterSpin(h) {
      forall i | 0 <= i < |h.cumulative|
        ensures h.cumulative[i] == RunningApplied(s.bounds, s'.ops, h.cut, i)
      {
        RunningAppliedFrame(s.bounds, s.ops, s'.ops, h.cut, i);
      }
      AppliedFrame(s.bounds, s.ops, s'.ops, 0, h.cut, if h.phase.Merge? then Bucket(h.phase.i) else Count);
    }
  }

  lemma AdvanceKeepsAccounts(s: State, k: nat, op': Op, shard': Shard)
    requires Accounted(s) && k < |s.ops|
    requires Advances(s.bounds, s.ops[k], s.shards[s.ops[k].shard], op', shard')
    ensures Accounted(WithOp(WithShard(s, s.ops[k].shard, shard'), k, op'))
  {
    var s' := WithOp(WithShard(s, s.ops[k].shard, shard'), k, op');
    AdvanceCells(s, k, op', shard');
    AdvanceSums(s, k, op', shard');
    DrainedFrame(s, s');
    ReservedFrame(s.ops, s'.ops, |s.ops|);
    ReservedFrame(s.ops, s'.ops, Cut(s));
  }

  lemma AddBucketAdvances(bounds: seq<real>, op: Op, shard: Shard)
    requires OpOk(bounds, op) && op.next < |bounds| == |shard.buckets|
    requires forall c: Cell, op': Op | (c.Bucket? ==> c.i < |bounds|) && op'.values == op.values ::
               CellOf(shard, c) + Done(bounds, op', c) < TWO_63 + Done(bounds, op, c)
    ensures op.batch ==>
      var delta := BucketDelta(bounds, op, op.next);
      Advances(bounds, op, shard, op.(next := op.next + 1),
               if delta > 0 then AddToBucket(shard, op.next, delta) else shard)
    ensures !op.batch ==>
      Advances(bounds, op, shard, op.(next := |bounds|), AddToBucket(shard, FirstBucket(bounds, op.values[0]), 1))
  {
    if op.batch {
      assert Done(bounds, op.(next := op.next + 1), Bucket(op.next)) == BucketDelta(bounds, op, op.next);
    } else {
      var i := FirstBucket(bounds, op.values[0]);
      assert op.values[..|op.values| - 1] == [];
      assert forall j: nat :: BucketCount(bounds, op.values, j) == if j == i then 1 else 0;
      if i < |bounds| {
        assert Done(bounds, op.(next := |bounds|), Bucket(i)) == 1;
      }
    }
  }

  lemma RoomInCells(s: State, k: nat)
    requires Accounted(s) && Weight(s.ops, |s.ops|) < TWO_63
    requires k < |s.ops| && !s.ops[k].counted
    ensures forall c: Cell, op': Op | (c.Bucket? ==> c.i < |s.bounds|) && op'.values == s.ops[k].values ::
              CellOf(s.shards[s.ops[k].shard], c) + Done(s.bounds, op', c) < TWO_63 + Done(s.bounds, s.ops[k], c)
  {
    forall c: Cell, op': Op | (c.Bucket? ==> c.i < |s.bounds|) && op'.values == s.ops[k].values
      ensures CellOf(s.shards[s.ops[k].shard], c) + Done(s.bounds, op', c) < TWO_63 + Done(s.bounds, s.ops[k], c)
    {
      NoWrap(s, k, op', c);
    }
  }

  lemma AddBucketKeepsAccounts(s: State, k: nat)
    requires Accounted(s) && Weight(s.ops, |s.ops|) < TWO_63
    requires DoAddBucket(s, k).Some?
    ensures Accounted(DoAddBucket(s, k).value)
  {
    var op := s.ops[k];
    var shard := s.shards[op.shard];
    RoomInCells(s, k);
    AddBucketAdvances(s.bounds, op, shard);
    var delta := BucketDelta(s.bounds, op, op.next);
    var op' := if op.batch then op.(next := op.next + 1) else op.(next := |s.bounds|);
    var shard' :=
      if op.batch then if delta > 0 then AddToBucket(shard, op.next, delta) else shard
      else AddToBucket(shard, FirstBucket(s.bounds, op.values[0]), 1);
    AdvanceKeepsAccounts(s, k, op', shard');
    assert DoAddBucket(s, k).value == WithOp(WithShard(s, op.shard, shard'), k, op');
  }

  /** A step that only moves the program counter of operation `k`. */
  lemma PcKeepsAccounts(s: State, k: nat, op': Op)
    requires Accounted(s) && k < |s.ops|
    requires Advances(s.bounds, s.ops[k], s.shards[s.ops[k].shard], op', s.shards[s.ops[k].shard])
    ensures Accounted(WithOp(s, k, op'))
  {
    var x := s.ops[k].shard;
    AdvanceKeepsAccounts(s, k, op', s.shards[x]);
    assert s.shards[x := s.shards[x]] == s.shards;
  }

  lemma SumStepAdvances(bounds: seq<real>, op: Op, shard: Shard)
    requires OpOk(bounds, op) && !op.counted && op.sumAdd != Stored && op.next == |bounds| == |shard.buckets|
    ensures Advances(bounds, op, shard, op.(sumAdd := Exchange(shard.sum)), shard)
    ensures Advances(bounds, op, shard, op.(sumAdd := Load), shard)
    ensures Advances(bounds, op, shard, op.(sumAdd := Stored), shard.(sum := shard.sum + SumOf(op.values)))
  {
  }

  lemma LoadSumKeepsAccounts(s: State, k: nat)
    requires Accounted(s) && DoLoadSum(s, k).Some?
    ensures Accounted(DoLoadSum(s, k).value)
  {
    var op := s.ops[k];
    SumStepAdvances(s.bounds, op, s.shards[op.shard]);
    PcKeepsAccounts(s, k, op.(sumAdd := Exchange(s.shards[op.shard].sum)));
  }

  lemma ExchangeSumKeepsAccounts(s: State, k: nat, spurious: bool)
    requires Accounted(s) && DoExchangeSum(s, k, spurious).Some?
    ensures Accounted(DoExchangeSum(s, k, spurious).value)
  {
    var op := s.ops[k];
    var shard := s.shards[op.shard];
    SumStepAdvances(s.bounds, op, shard);
    if !spurious && shard.sum == op.sumAdd.current {
      var shard' := shard.(sum := shard.sum + SumOf(op.values));
      AdvanceKeepsAccounts(s, k, op.(sumAdd := Stored), shard');
      assert DoExchangeSum(s, k, spurious).value == WithOp(WithShard(s, op.shard, shard'), k, op.(sumAdd := Stored));
    } else {
      PcKeepsAccounts(s, k, op.(sumAdd := Load));
      assert DoExchangeSum(s, k, spurious).value == WithOp(s, k, op.(sumAdd := Load));
    }
  }

  lemma AddOpCountKeepsAccounts(s: State, k: nat)
    requires Accounted(s) && Weight(s.ops, |s.ops|) < TWO_63
    requires DoAddOpCount(s, k).Some?
    ensures Accounted(DoAddOpCount(s, k).value)
  {
    var op := s.ops[k];
    var shard := s.shards[op.shard];
    var op', shard' := op.(counted := true), AddToCount(shard, |op.values|);
    NoWrap(s, k, op', Count);
    assert CellAdvances(s.bounds, op, shard, op', shard', Count);
    assert Advances(s.bounds, op, shard, op', shard');
    AdvanceKeepsAccounts(s, k, op', shard');
  }

  lemma AppendCells(s: State, s': State)
    requires WellFormed(s) && WellFormed(s') && Cut(s) <= |s.ops| && CellsOk(s) && SumsOk(s)
    requires |s'.ops| == |s.ops| + 1 && s'.ops[..|s.ops|] == s.ops
    requires s' == s.(word := s'.word, ops := s'.ops)
    requires var op := s'.ops[|s.ops|]; op.next == 0 && op.sumAdd == Load && !op.counted
    ensures CellsOk(s') && SumsOk(s')
  {
    var n := |s.ops|;
    forall c: Cell | ValidCell(s', c) ensures CellOk(s', c) {
      assert CellOk(s, c);
      AppliedFrame(s.bounds, s.ops, s'.ops, 0, Cut(s), c);
      AppliedFrame(s.bounds, s.ops, s'.ops, Cut(s), n, c);
    }
    AppliedFrame(s.bounds, s.ops, s'.ops, 0, Cut(s), Count);
    AppliedFrame(s.bounds, s.ops, s'.ops, Cut(s), n, Count);
  }

  /** Decoding and incrementing a word whose count part still fits in 63 bits. */
  lemma WordArithmetic(bit: nat, count: nat, delta: nat)
    requires bit < 2 && count + delta < TWO_63
    ensures ShardOf(bit * TWO_63 + count) == bit && CountOf(bit * TWO_63 + count) == count
    ensures Add64(bit * TWO_63 + count, delta) == bit * TWO_63 + (count + delta)
    ensures Add64(bit * TWO_63 + count, TWO_63) == (1 - bit) * TWO_63 + count
  {
  }

  lemma WordDecodes(s: State)
    requires WordOk(s) && Weight(s.ops, |s.ops|) < TWO_63
    ensures ShardOf(s.word) == Hot(s) && CountOf(s.word) == Weight(s.ops, |s.ops|)
  {
    WordArithmetic(Hot(s), Weight(s.ops, |s.ops|), 0);
  }

  /** Increments of the packed word never reach the bit while the total fits. */
  lemma ReserveKeepsAccounts(s: State, values: seq<real>, batch: bool)
    requires Accounted(s) && DoReserve(s, values, batch).Some?
    requires Weight(s.ops, |s.ops|) + |values| < TWO_63
    ensures Accounted(DoReserve(s, values, batch).value)
  {
    var s' := DoReserve(s, values, batch).value;
    WordDecodes(s);
    assert WellFormed(s') && OpsOk(s'.bounds, s'.ops) && SidesOk(s');
    AppendCells(s, s');
    ReservedFrame(s.ops, s'.ops, |s.ops|);
    ReservedFrame(s.ops, s'.ops, Cut(s));
    assert WordOk(s') by {
      WordArithmetic(Hot(s), Weight(s.ops, |s.ops|), |values|);
    }
    DrainedFrame(s, s');
  }

  // ----- Steps of the collector ---------------------------------------------

  /** Flipping the bit turns the finished hot shard into the cold one. */
  lemma FlipKeepsAccounts(s: State)
    requires Accounted(s) && Weight(s.ops, |s.ops|) < TWO_63
    requires DoFlip(s).Some?
    ensures Accounted(DoFlip(s).value)
  {
    var s' := DoFlip(s).value;
    var n := |s.ops|;
    WordDecodes(s);
    assert Cut(s) == 0 && Cut(s') == n && Cold(s') == Hot(s) && Hot(s') == Cold(s);
    assert WordOk(s') by {
      WordArithmetic(Hot(s), Weight(s.ops, n), 0);
    }
    forall c: Cell | ValidCell(s', c) ensures CellOk(s', c) {
      assert CellOk(s, c);
    }
  }

  /** The spin loop can end only when no operation is left on the cold shard, and
      it can end as soon as that is so. */
  lemma SpinEndsIffColdIsQuiet(s: State)
    requires Accounted(s) && InPhase(s, Spin)
    ensures s.shards[s.holder.cold].count == s.holder.overall
       <==> forall k | 0 <= k < s.holder.cut :: s.ops[k].counted
    ensures forall k | s.holder.cut <= k < |s.ops| && !s.ops[k].counted :: s.ops[k].shard != s.holder.cold
  {
    assert CellOk(s, Count);
    CountedIffFull(s.bounds, s.ops, s.holder.cut);
  }

  lemma SpinKeepsAccounts(s: State, spurious: bool)
    requires Accounted(s) && DoSpin(s, spurious).Some?
    ensures Accounted(DoSpin(s, spurious).value)
  {
    var s' := DoSpin(s, spurious).value;
    if s' != s {
      SpinEndsIffColdIsQuiet(s);
      forall c: Cell | ValidCell(s', c) ensures CellOk(s', c) {
        assert CellOk(s, c);
      }
    }
  }

  lemma SwapSumKeepsAccounts(s: State)
    requires Accounted(s) && DoSwapSum(s).Some?
    ensures Accounted(DoSwapSum(s).value)
  {
    var s' := DoSwapSum(s).value;
    forall c: Cell | ValidCell(s', c) ensures CellOk(s', c) {
      assert CellOk(s, c);
    }
  }

  lemma SwapBucketKeepsAccounts(s: State)
    requires Accounted(s) && DoSwapBucket(s).Some?
    ensures Accounted(DoSwapBucket(s).value)
  {
    var s' := DoSwapBucket(s).value;
    forall c: Cell | ValidCell(s', c) ensures CellOk(s', c) {
      assert CellOk(s, c);
    }
    if s.holder.phase.i < |s.bounds| {
      assert CellOk(s, Bucket(s.holder.phase.i));
    }
  }

  /** What the collector moves to the hot shard fits beside what is there. */
  lemma MergeFits(s: State, c: Cell)
    requires OpsOk(s.bounds, s.ops) && Cut(s) <= |s.ops| && Weight(s.ops, |s.ops|) < TWO_63
    ensures Applied(s.bounds, s.ops, 0, Cut(s), c) + Applied(s.bounds, s.ops, Cut(s), |s.ops|, c) < TWO_63
  {
    AppliedSplit(s.bounds, s.ops, Cut(s), |s.ops|, c);
    AppliedBound(s.bounds, s.ops, |s.ops|, c);
  }

  lemma MergeBucketCell(s: State, c: Cell)
    requires WellFormed(s) && Cut(s) <= |s.ops| && HolderOk(s) && Drained(s)
    requires DoMergeBucket(s).Some? && ValidCell(s, c) && CellOk(s, c) && CellOk(s, Bucket(s.holder.phase.i))
    requires OpsOk(s.bounds, s.ops) && Weight(s.ops, |s.ops|) < TWO_63
    ensures CellOk(DoMergeBucket(s).value, c)
  {
    var s', i := DoMergeBucket(s).value, s.holder.phase.i;
    if c == Bucket(i) {
      MergeFits(s, c);
    } else {
      assert forall x | 0 <= x < 2 :: CellOf(s'.shards[x], c) == CellOf(s.shards[x], c);
      assert ColdValue(s', c) == ColdValue(s, c) && HotValue(s', c) == HotValue(s, c);
    }
  }

  lemma MergeBucketDrains(s: State)
    requires WellFormed(s) && HolderOk(s) && Drained(s) && OpsOk(s.bounds, s.ops)
    requires DoMergeBucket(s).Some? && Weight(s.ops, |s.ops|) < TWO_63
    ensures Drained(DoMergeBucket(s).value)
  {
    var i := s.holder.phase.i;
    RunningAppliedBound(s.bounds, s.ops, s.holder.cut, i);
    WeightGrows(s.ops, s.holder.cut, |s.ops|);
    assert DoMergeBucket(s).value.holder.cumulative[i] == RunningApplied(s.bounds, s.ops, s.holder.cut, i);
  }

  lemma MergeBucketKeepsAccounts(s: State)
    requires Accounted(s) && Weight(s.ops, |s.ops|) < TWO_63
    requires DoMergeBucket(s).Some?
    ensures Accounted(DoMergeBucket(s).value)
  {
    var s' := DoMergeBucket(s).value;
    MergeBucketDrains(s);
    assert CellOk(s, Bucket(s.holder.phase.i));
    forall c: Cell | ValidCell(s', c) ensures CellOk(s', c) {
      assert CellOk(s, c);
      MergeBucketCell(s, c);
    }
  }

  lemma MergeCountKeepsAccounts(s: State)
    requires Accounted(s) && Weight(s.ops, |s.ops|) < TWO_63
    requires DoMergeCount(s).Some?
    ensures Accounted(DoMergeCount(s).value)
  {
    var s' := DoMergeCount(s).value;
    MergeFits(s, Count);
    CountedIffFull(s.bounds, s.ops, s.holder.cut);
    forall c: Cell | ValidCell(s', c) ensures CellOk(s', c) {
      assert CellOk(s, c);
    }
  }

  lemma LoadHotSumKeepsAccounts(s: State)
    requires Accounted(s) && DoLoadHotSum(s).Some?
    ensures Accounted(DoLoadHotSum(s).value)
  {
    var s' := DoLoadHotSum(s).value;
    forall c: Cell | ValidCell(s', c) ensures CellOk(s', c) {
      assert CellOk(s, c);
    }
  }

  lemma ExchangeHotSumKeepsAccounts(s: State, spurious: bool)
    requires Accounted(s) && DoExchangeHotSum(s, spurious).Some?
    ensures Accounted(DoExchangeHotSum(s, spurious).value)
  {
    var s' := DoExchangeHotSum(s, spurious).value;
    assert SumsOk(s');
    forall c: Cell | ValidCell(s', c) ensures CellOk(s', c) {
      assert CellOk(s, c);
    }
  }

  /** The holder changes, the shards and operations do not. */
  lemma HolderKeepsAccounts(s: State, h: Holder)
    requires Accounted(s) && !AfterFlip(s.holder) && !AfterFlip(h)
    requires (h.ReadingSum? ==> h.shard == Hot(s)) && (h.Collecting? ==> h.cold < 2)
    ensures Accounted(s.(holder := h))
  {
    var s' := s.(holder := h);
    forall c: Cell | ValidCell(s', c) ensures CellOk(s', c) {
      assert CellOk(s, c);
    }
  }

  lemma LockKeepsAccounts(s: State, a: Action)
    requires Accounted(s) && Weight(s.ops, |s.ops|) < TWO_63
    requires a == LockToCollect || a == LockToRead || a == ReadWord || a == ReadSum
    requires Apply(s, a).Some?
    ensures Accounted(Apply(s, a).value)
  {
    WordDecodes(s);
    HolderKeepsAccounts(s, Apply(s, a).value.holder);
  }

  /** After the merge both sides of the cut are together again in the hot shard. */
  lemma UnlockKeepsAccounts(s: State)
    requires Accounted(s) && DoUnlockCollected(s).Some?
    ensures Accounted(DoUnlockCollected(s).value)
  {
    var s' := DoUnlockCollected(s).value;
    forall c: Cell | ValidCell(s', c) ensures CellOk(s', c) {
      assert CellOk(s, c);
      AppliedSplit(s.bounds, s.ops, Cut(s), |s.ops|, c);
    }
    AppliedSplit(s.bounds, s.ops, Cut(s), |s.ops|, Count);
  }
}
