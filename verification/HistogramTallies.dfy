/** Sums over ranges of operations: what a range has already written, and what it
    will have written once all its operations are done. */
module HistogramTallies {
  import opened Buckets
  import opened HistogramProtocol

  /** The integer cells of a shard. */
  datatype Cell = Count | Bucket(i: nat)

  function CellOf(s: Shard, c: Cell): nat
    requires c.Bucket? ==> c.i < |s.buckets|
  {
    match c
    case Count => s.count
    case Bucket(i) => s.buckets[i]
  }

  function Tally(bounds: seq<real>, values: seq<real>, c: Cell): nat {
    match c
    case Count => |values|
    case Bucket(i) => BucketCount(bounds, values, i)
  }

  /** What `op` has added to cell `c` so far. */
  function Done(bounds: seq<real>, op: Op, c: Cell): nat {
    match c
    case Count => if op.counted then |op.values| else 0
    case Bucket(i) => if i < op.next then BucketCount(bounds, op.values, i) else 0
  }

  function SumDone(op: Op): real {
    if op.sumAdd == Stored then SumOf(op.values) else 0.0
  }

  function Applied(bounds: seq<real>, ops: seq<Op>, lo: nat, hi: nat, c: Cell): nat
    requires lo <= hi <= |ops|
  {
    if lo == hi then 0 else Applied(bounds, ops, lo, hi - 1, c) + Done(bounds, ops[hi - 1], c)
  }

  function SumApplied(ops: seq<Op>, lo: nat, hi: nat): real
    requires lo <= hi <= |ops|
  {
    if lo == hi then 0.0 else SumApplied(ops, lo, hi - 1) + SumDone(ops[hi - 1])
  }

  /** Values of the first `hi` operations, in the order of their reservation. */
  function Reserved(ops: seq<Op>, hi: nat): seq<real>
    requires hi <= |ops|
  {
    if hi == 0 then [] else Reserved(ops, hi - 1) + ops[hi - 1].values
  }

  /** Total of all increments of the packed word by the first `hi` operations. */
  function Weight(ops: seq<Op>, hi: nat): (w: nat)
    requires hi <= |ops|
    ensures w == |Reserved(ops, hi)|
  {
    if hi == 0 then 0 else Weight(ops, hi - 1) + |ops[hi - 1].values|
  }

  function RunningApplied(bounds: seq<real>, ops: seq<Op>, hi: nat, i: nat): nat
    requires hi <= |ops|
  {
    Applied(bounds, ops, 0, hi, Bucket(i)) + if i == 0 then 0 else RunningApplied(bounds, ops, hi, i - 1)
  }

  /** Program counters only move forward: buckets, then sum, then count. */
  predicate OpOk(bounds: seq<real>, op: Op) {
    && op.values != []
    && (!op.batch ==> |op.values| == 1)
    && op.next <= |bounds|
    && (!op.batch ==> op.next == 0 || op.next == |bounds|)
    && (op.sumAdd != Load ==> op.next == |bounds|)
    && (op.counted ==> op.sumAdd == Stored && op.next == |bounds|)
  }

  predicate OpsOk(bounds: seq<real>, ops: seq<Op>) {
    forall k | 0 <= k < |ops| :: OpOk(bounds, ops[k])
  }

  lemma {:induction false} AppliedFrame(bounds: seq<real>, ops: seq<Op>, ops': seq<Op>, lo: nat, hi: nat, c: Cell)
    requires lo <= hi <= |ops| && hi <= |ops'|
    requires forall k | lo <= k < hi :: ops[k] == ops'[k]
    ensures Applied(bounds, ops, lo, hi, c) == Applied(bounds, ops', lo, hi, c)
    ensures SumApplied(ops, lo, hi) == SumApplied(ops', lo, hi)
    decreases hi
  {
    if lo < hi {
      AppliedFrame(bounds, ops, ops', lo, hi - 1, c);
    }
  }

  lemma {:induction false} AppliedUpdate(bounds: seq<real>, ops: seq<Op>, k: nat, op: Op, lo: nat, hi: nat, c: Cell)
    requires lo <= k < hi <= |ops|
    ensures Applied(bounds, ops[k := op], lo, hi, c) + Done(bounds, ops[k], c)
         == Applied(bounds, ops, lo, hi, c) + Done(bounds, op, c)
    ensures SumApplied(ops[k := op], lo, hi) == SumApplied(ops, lo, hi) - SumDone(ops[k]) + SumDone(op)
    decreases hi
  {
    if k == hi - 1 {
      AppliedFrame(bounds, ops, ops[k := op], lo, hi - 1, c);
    } else {
      AppliedUpdate(bounds, ops, k, op, lo, hi - 1, c);
    }
  }

  lemma {:induction false} AppliedSplit(bounds: seq<real>, ops: seq<Op>, mid: nat, hi: nat, c: Cell)
    requires mid <= hi <= |ops|
    ensures Applied(bounds, ops, 0, hi, c) == Applied(bounds, ops, 0, mid, c) + Applied(bounds, ops, mid, hi, c)
    ensures SumApplied(ops, 0, hi) == SumApplied(ops, 0, mid) + SumApplied(ops, mid, hi)
    decreases hi
  {
    if mid < hi {
      AppliedSplit(bounds, ops, mid, hi - 1, c);
    }
  }

  lemma {:induction false} AppliedBound(bounds: seq<real>, ops: seq<Op>, hi: nat, c: Cell)
    requires hi <= |ops|
    ensures Applied(bounds, ops, 0, hi, c) <= Weight(ops, hi)
    decreases hi
  {
    if 0 < hi {
      AppliedBound(bounds, ops, hi - 1, c);
      if c.Bucket? {
        BucketCountBound(bounds, ops[hi - 1].values, c.i);
      }
    }
  }

  /** Reservations are only ever appended: later steps change program counters. */
  ghost predicate SameValues(ops: seq<Op>, ops': seq<Op>) {
    |ops| <= |ops'| && forall k | 0 <= k < |ops| :: ops'[k].values == ops[k].values
  }

  lemma {:induction false} ReservedFrame(ops: seq<Op>, ops': seq<Op>, hi: nat)
    requires SameValues(ops, ops') && hi <= |ops|
    ensures Reserved(ops, hi) == Reserved(ops', hi) && Weight(ops, hi) == Weight(ops', hi)
    decreases hi
  {
    if 0 < hi {
      ReservedFrame(ops, ops', hi - 1);
    }
  }

  lemma {:induction false} WeightGrows(ops: seq<Op>, lo: nat, hi: nat)
    requires lo <= hi <= |ops|
    ensures Weight(ops, lo) <= Weight(ops, hi)
    decreases hi
  {
    if lo < hi {
      WeightGrows(ops, lo, hi - 1);
    }
  }

  /** The shard count reaches the reserved weight exactly when no operation of the
      range is still under way. */
  lemma {:induction false} CountedIffFull(bounds: seq<real>, ops: seq<Op>, hi: nat)
    requires hi <= |ops| && OpsOk(bounds, ops)
    ensures Applied(bounds, ops, 0, hi, Count) <= Weight(ops, hi)
    ensures Applied(bounds, ops, 0, hi, Count) == Weight(ops, hi)
       <==> forall k | 0 <= k < hi :: ops[k].counted
    decreases hi
  {
    if 0 < hi {
      CountedIffFull(bounds, ops, hi - 1);
    }
  }

  /** Weight of those of the first `hi` operations that are still under way. */
  function InFlight(ops: seq<Op>, hi: nat): nat
    requires hi <= |ops|
  {
    if hi == 0 then 0 else InFlight(ops, hi - 1) + if ops[hi - 1].counted then 0 else |ops[hi - 1].values|
  }

  lemma {:induction false} CountedAndInFlight(bounds: seq<real>, ops: seq<Op>, hi: nat)
    requires hi <= |ops|
    ensures Applied(bounds, ops, 0, hi, Count) + InFlight(ops, hi) == Weight(ops, hi)
    decreases hi
  {
    if 0 < hi {
      CountedAndInFlight(bounds, ops, hi - 1);
    }
  }

  /** Once every operation of a prefix is done, its cells hold the sequential tally. */
  lemma {:induction false} AppliedWhenDone(bounds: seq<real>, ops: seq<Op>, hi: nat, c: Cell)
    requires hi <= |ops| && OpsOk(bounds, ops)
    requires forall k | 0 <= k < hi :: ops[k].counted
    requires c.Bucket? ==> c.i < |bounds|
    ensures Applied(bounds, ops, 0, hi, c) == Tally(bounds, Reserved(ops, hi), c)
    ensures SumApplied(ops, 0, hi) == SumOf(Reserved(ops, hi))
    decreases hi
  {
    if 0 < hi {
      AppliedWhenDone(bounds, ops, hi - 1, c);
      SumOfAppend(Reserved(ops, hi - 1), ops[hi - 1].values);
      if c.Bucket? {
        BucketCountAppend(bounds, Reserved(ops, hi - 1), ops[hi - 1].values, c.i);
      }
    }
  }

  lemma {:induction false} RunningAppliedWhenDone(bounds: seq<real>, ops: seq<Op>, hi: nat, i: nat)
    requires hi <= |ops| && OpsOk(bounds, ops)
    requires forall k | 0 <= k < hi :: ops[k].counted
    requires i < |bounds|
    ensures RunningApplied(bounds, ops, hi, i) == RunningCount(bounds, Reserved(ops, hi), i)
    decreases i
  {
    AppliedWhenDone(bounds, ops, hi, Bucket(i));
    if 0 < i {
      RunningAppliedWhenDone(bounds, ops, hi, i - 1);
    }
  }

  lemma {:induction false} RunningAppliedBound(bounds: seq<real>, ops: seq<Op>, hi: nat, i: nat)
    requires hi <= |ops| && OpsOk(bounds, ops)
    requires forall k | 0 <= k < hi :: ops[k].counted
    requires i < |bounds|
    ensures RunningApplied(bounds, ops, hi, i) <= Weight(ops, hi)
  {
    RunningAppliedWhenDone(bounds, ops, hi, i);
    RunningCountBound(bounds, Reserved(ops, hi), i);
  }

  lemma {:induction false} RunningAppliedFrame(bounds: seq<real>, ops: seq<Op>, ops': seq<Op>, hi: nat, i: nat)
    requires hi <= |ops| && hi <= |ops'|
    requires forall k | 0 <= k < hi :: ops[k] == ops'[k]
    ensures RunningApplied(bounds, ops, hi, i) == RunningApplied(bounds, ops', hi, i)
    decreases i
  {
    AppliedFrame(bounds, ops, ops', 0, hi, Bucket(i));
    if 0 < i {
      RunningAppliedFrame(bounds, ops, ops', hi, i - 1);
    }
  }
}
