/** The unsynchronized local histogram and its flush, as objects with fields. */
module LocalHistogram {
  import opened Buckets
  import opened HistogramProtocol
  import opened HistogramTheorems

  /** What a shard holds after recording `values` on top of `s`. */
  function Absorb(bounds: seq<real>, s: Shard, values: seq<real>): Shard
    requires |s.buckets| == |bounds|
  {
    Shard(s.count + |values|, s.sum + SumOf(values),
          seq(|bounds|, i requires 0 <= i < |bounds| => s.buckets[i] + BucketCount(bounds, values, i)))
  }

  /** Direct observations one by one. */
  function AbsorbEach(bounds: seq<real>, s: Shard, values: seq<real>): (r: Shard)
    requires |s.buckets| == |bounds|
    ensures |r.buckets| == |bounds|
  {
    if values == [] then s
    else Absorb(bounds, AbsorbEach(bounds, s, values[..|values| - 1]), [values[|values| - 1]])
  }

  /** One batch leaves what the same observations one by one would leave. */
  lemma {:induction false} BatchIsObservations(bounds: seq<real>, s: Shard, values: seq<real>)
    requires |s.buckets| == |bounds|
    ensures Absorb(bounds, s, values) == AbsorbEach(bounds, s, values)
    decreases |values|
  {
    if values == [] {
      assert Absorb(bounds, s, values).buckets == s.buckets;
    } else {
      var front, last := values[..|values| - 1], [values[|values| - 1]];
      BatchIsObservations(bounds, s, front);
      assert values == front + last;
      SumOfAppend(front, last);
      forall i | 0 <= i < |bounds|
        ensures BucketCount(bounds, values, i) == BucketCount(bounds, front, i) + BucketCount(bounds, last, i)
      {
        BucketCountAppend(bounds, front, last, i);
      }
      assert Absorb(bounds, s, values).buckets == Absorb(bounds, Absorb(bounds, s, front), last).buckets;
    }
  }

  /** The shared histogram while no collector and no other observer interferes: the
      packed word and the two shards. */
  class SharedHistogram {
    const bounds: seq<real>
    var word: nat
    var shards: seq<Shard>

    ghost predicate Valid()
      reads this
    {
      && word < TWO_64 && |shards| == 2
      && |shards[0].buckets| == |bounds| && |shards[1].buckets| == |bounds|
    }

    constructor (bounds: seq<real>)
      ensures Valid() && this.bounds == bounds && word == 0
      ensures shards == [ZeroShard(|bounds|), ZeroShard(|bounds|)]
    {
      this.bounds := bounds;
      word := 0;
      shards := [ZeroShard(|bounds|), ZeroShard(|bounds|)];
    }

    /** Fetch-and-add on the packed word; returns the index of the hot shard. */
    method IncBy(delta: nat) returns (shard: nat)
      requires Valid()
      modifies this`word
      ensures Valid() && shard == ShardOf(old(word)) < 2
      ensures word == Add64(old(word), delta)
    {
      shard := ShardOf(word);
      word := Add64(word, delta);
    }

    /** A direct observation. */
    method Observe(v: real)
      requires Valid()
      modifies this`word, this`shards
      ensures Valid() && word == Add64(old(word), 1)
      ensures var hot := ShardOf(old(word));
              shards == old(shards)[hot := Absorb(bounds, old(shards)[hot], [v])]
    {
      var x := IncBy(1);
      ghost var before := shards[x];
      var i := 0;
      while i < |bounds| && bounds[i] < v
        invariant 0 <= i <= |bounds|
        invariant forall k :: 0 <= k < i ==> bounds[k] < v
        invariant shards == old(shards)
      {
        i := i + 1;
      }
      SingleCount(bounds, v, i);
      if i < |bounds| {
        shards := shards[x := shards[x].(buckets := shards[x].buckets[i := shards[x].buckets[i] + 1])];
      }
      shards := shards[x := shards[x].(sum := shards[x].sum + v)];
      shards := shards[x := shards[x].(count := shards[x].count + 1)];
      SumOfOne(v);
      assert shards[x].buckets == Absorb(bounds, before, [v]).buckets;
    }
  }

  lemma SingleCount(bounds: seq<real>, v: real, i: nat)
    requires i <= |bounds| && (i < |bounds| ==> v <= bounds[i])
    requires forall k :: 0 <= k < i ==> bounds[k] < v
    ensures forall j: nat :: BucketCount(bounds, [v], j) == if j == i then 1 else 0
  {
    assert [v][..0] == [];
  }

  class LocalHistogramCore {
    const shared: SharedHistogram
    const counts: array<nat>
    var count: nat
    var sum: real
    /** Values observed since the last flush or clear. */
    ghost var pending: seq<real>

    ghost predicate Valid()
      reads this, counts
    {
      && counts.Length == |shared.bounds|
      && count == |pending| && sum == SumOf(pending)
      && forall i :: 0 <= i < counts.Length ==> counts[i] == BucketCount(shared.bounds, pending, i)
    }

    constructor (shared: SharedHistogram)
      ensures Valid() && this.shared == shared && pending == [] && fresh(counts)
    {
      this.shared := shared;
      counts := new nat[|shared.bounds|](i => 0);
      count, sum, pending := 0, 0.0, [];
    }

    method Observe(v: real)
      requires Valid()
      modifies this, counts
      ensures Valid() && pending == old(pending) + [v]
    {
      var bounds := shared.bounds;
      var i := 0;
      while i < |bounds| && bounds[i] < v
        invariant 0 <= i <= |bounds|
        invariant forall k :: 0 <= k < i ==> bounds[k] < v
      {
        i := i + 1;
      }
      SingleCount(bounds, v, i);
      forall k: nat
        ensures BucketCount(bounds, pending + [v], k) == BucketCount(bounds, pending, k) + if k == i then 1 else 0
      {
        BucketCountAppend(bounds, pending, [v], k);
      }
      assert (pending + [v])[..|pending|] == pending;
      if i < |bounds| {
        counts[i] := counts[i] + 1;
      }
      count := count + 1;
      sum := sum + v;
      pending := pending + [v];
    }

    method Clear()
      requires Valid()
      modifies this, counts
      ensures Valid() && pending == []
    {
      var i := 0;
      while i < counts.Length
        invariant 0 <= i <= counts.Length
        invariant forall k :: 0 <= k < i ==> counts[k] == 0
      {
        counts[i] := 0;
        i := i + 1;
      }
      count, sum, pending := 0, 0.0, [];
    }

    /** Hands everything pending to the shared histogram and forgets it: what was
        local is now in the shard that was hot, nothing else changes. */
    method Flush()
      requires Valid() && shared.Valid()
      modifies this, counts, shared`word, shared`shards
      ensures Valid() && shared.Valid() && pending == []
      ensures shared.word == if old(pending) == [] then old(shared.word) else Add64(old(shared.word), |old(pending)|)
      ensures var hot := ShardOf(old(shared.word));
              shared.shards == old(shared.shards)[hot := Absorb(shared.bounds, old(shared.shards)[hot], old(pending))]
    {
      ghost var hot := ShardOf(shared.word);
      ghost var before := shared.shards[hot];
      if count == 0 {
        assert Absorb(shared.bounds, before, []).buckets == before.buckets;
        assert shared.shards[hot := before] == shared.shards;
        return;
      }
      var x := shared.IncBy(count);
      var i := 0;
      while i < counts.Length
        invariant 0 <= i <= counts.Length
        invariant shared.Valid() && Valid() && pending == old(pending)
        invariant shared.word == Add64(old(shared.word), |old(pending)|)
        invariant shared.shards == old(shared.shards)[x := shared.shards[x]]
        invariant shared.shards[x].count == before.count && shared.shards[x].sum == before.sum
        invariant forall k :: 0 <= k < i ==> shared.shards[x].buckets[k] == before.buckets[k] + counts[k]
        invariant forall k :: i <= k < counts.Length ==> shared.shards[x].buckets[k] == before.buckets[k]
        modifies shared`shards
      {
        if counts[i] > 0 {
          var shard := shared.shards[x];
          shared.shards := shared.shards[x := shard.(buckets := shard.buckets[i := shard.buckets[i] + counts[i]])];
        }
        i := i + 1;
      }
      shared.shards := shared.shards[x := shared.shards[x].(sum := shared.shards[x].sum + sum)];
      shared.shards := shared.shards[x := shared.shards[x].(count := shared.shards[x].count + count)];
      assert shared.shards[x].buckets == Absorb(shared.bounds, before, pending).buckets;
      Clear();
    }
  }

  /** Flushing in two batches or in one is the same, so local plus flushed content is
      conserved whenever the flush happens. */
  lemma AbsorbAppend(bounds: seq<real>, s: Shard, a: seq<real>, b: seq<real>)
    requires |s.buckets| == |bounds|
    ensures Absorb(bounds, Absorb(bounds, s, a), b) == Absorb(bounds, s, a + b)
  {
    SumOfAppend(a, b);
    forall i | 0 <= i < |bounds|
      ensures BucketCount(bounds, a + b, i) == BucketCount(bounds, a, i) + BucketCount(bounds, b, i)
    {
      BucketCountAppend(bounds, a, b, i);
    }
    assert Absorb(bounds, Absorb(bounds, s, a), b).buckets == Absorb(bounds, s, a + b).buckets;
  }

  /** A shard that holds a tally still does after absorbing more values: the object
      and the transition system agree on what a histogram contains. */
  lemma AbsorbKeepsTally(bounds: seq<real>, s: Shard, recorded: seq<real>, values: seq<real>)
    requires Holds(bounds, s, recorded)
    ensures Holds(bounds, Absorb(bounds, s, values), recorded + values)
  {
    SumOfAppend(recorded, values);
    forall i | 0 <= i < |bounds|
      ensures Absorb(bounds, s, values).buckets[i] == BucketCount(bounds, recorded + values, i)
    {
      BucketCountAppend(bounds, recorded, values, i);
    }
  }
}
