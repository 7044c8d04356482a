/** Gathering: metric families merged by name, sorted, and written out with the common
    prefix and labels. */
module Gathering {
  import opened Wrappers
  import Bags

  datatype LabelPair = LabelPair(name: string, value: string)

  datatype Metric = Metric(labels: seq<LabelPair>, timestamp: int, value: int)

  datatype Family = Family(name: string, help: string, metrics: seq<Metric>)

  // ----- The comparator ------------------------------------------------------------------

  /** Lexicographic order of strings: negative, zero or positive. */
  function CompareText(a: string, b: string): int {
    if a == "" then if b == "" then 0 else -1
    else if b == "" then 1
    else if a[0] != b[0] then if a[0] < b[0] then -1 else 1
    else CompareText(a[1..], b[1..])
  }

  /** Label values in order; the first difference decides. */
  function CompareValues(a: seq<LabelPair>, b: seq<LabelPair>): int
    requires |a| == |b|
  {
    if a == [] then 0
    else if a[0].value != b[0].value then CompareText(a[0].value, b[0].value)
    else CompareValues(a[1..], b[1..])
  }

  function CompareInt(a: int, b: int): int {
    if a < b then -1 else if a > b then 1 else 0
  }

  /** The closure passed to `sort_by`. */
  function Compare(a: Metric, b: Metric): int {
    if |a.labels| != |b.labels| then CompareInt(|a.labels|, |b.labels|)
    else
      var c := CompareValues(a.labels, b.labels);
      if c != 0 then c else CompareInt(a.timestamp, b.timestamp)
  }

  lemma {:induction false} TextOrder(a: string, b: string)
    ensures CompareText(a, b) == -CompareText(b, a)
    ensures CompareText(a, b) == 0 <==> a == b
    decreases |a|
  {
    if a != "" && b != "" {
      TextOrder(a[1..], b[1..]);
      assert a == [a[0]] + a[1..] && b == [b[0]] + b[1..];
    }
  }

  lemma {:induction false} TextTransitive(a: string, b: string, c: string)
    requires CompareText(a, b) <= 0 && CompareText(b, c) <= 0
    ensures CompareText(a, c) <= 0
    decreases |a|
  {
    if a != "" && b != "" && c != "" && a[0] == b[0] == c[0] {
      TextTransitive(a[1..], b[1..], c[1..]);
    }
  }

  ghost predicate SameValues(a: seq<LabelPair>, b: seq<LabelPair>) {
    |a| == |b| && forall i | 0 <= i < |a| :: a[i].value == b[i].value
  }

  lemma {:induction false} ValuesOrder(a: seq<LabelPair>, b: seq<LabelPair>)
    requires |a| == |b|
    ensures CompareValues(a, b) == -CompareValues(b, a)
    ensures CompareValues(a, b) == 0 <==> SameValues(a, b)
    decreases |a|
  {
    if a != [] {
      TextOrder(a[0].value, b[0].value);
      ValuesOrder(a[1..], b[1..]);
      assert a == [a[0]] + a[1..] && b == [b[0]] + b[1..];
    }
  }

  lemma {:induction false} ValuesTransitive(a: seq<LabelPair>, b: seq<LabelPair>, c: seq<LabelPair>)
    requires |a| == |b| == |c| && CompareValues(a, b) <= 0 && CompareValues(b, c) <= 0
    ensures CompareValues(a, c) <= 0
    decreases |a|
  {
    if a != [] {
      var x, y, z := a[0].value, b[0].value, c[0].value;
      if x == y == z {
        ValuesTransitive(a[1..], b[1..], c[1..]);
      } else {
        TextOrder(x, y);
        TextOrder(y, z);
        TextOrder(x, z);
        TextTransitive(x, y, z);
      }
    }
  }

  lemma {:induction false} SameValuesCompare(a: seq<LabelPair>, b: seq<LabelPair>, c: seq<LabelPair>)
    requires SameValues(a, b) && |b| == |c|
    ensures CompareValues(a, c) == CompareValues(b, c)
    decreases |a|
  {
    if a != [] {
      SameValuesCompare(a[1..], b[1..], c[1..]);
    }
  }

  /** The comparator is a total preorder, as `sort_by` demands; it is zero exactly for
      metrics with the same label values and the same timestamp. */
  lemma ComparatorIsPreorder(a: Metric, b: Metric, c: Metric)
    ensures Compare(a, b) == -Compare(b, a)
    ensures Compare(a, b) == 0 <==> SameValues(a.labels, b.labels) && a.timestamp == b.timestamp
    ensures Compare(a, b) <= 0 && Compare(b, c) <= 0 ==> Compare(a, c) <= 0
  {
    if |a.labels| == |b.labels| {
      ValuesOrder(a.labels, b.labels);
      if |b.labels| == |c.labels| {
        ValuesOrder(b.labels, c.labels);
        ValuesOrder(a.labels, c.labels);
        if Compare(a, b) <= 0 && Compare(b, c) <= 0 {
          ValuesTransitive(a.labels, b.labels, c.labels);
          if CompareValues(a.labels, c.labels) == 0 {
            SameValuesCompare(a.labels, c.labels, b.labels);
          }
        }
      }
    }
  }

  // ----- What the comparator means -----------------------------------------------------------

  /** At position `k` the two texts differ for the first time, and `a` is the lower one. */
  predicate BelowAt(a: string, b: string, k: nat) {
    && k <= |a| && k <= |b| && a[..k] == b[..k]
    && ((|a| == k < |b|) || (k < |a| && k < |b| && a[k] < b[k]))
  }

  /** Lexicographic order, a shorter text before its extensions. */
  ghost predicate TextBelow(a: string, b: string) {
    exists k: nat :: BelowAt(a, b, k)
  }

  lemma BelowAtNext(a: string, b: string, k: nat)
    requires a != "" && b != "" && a[0] == b[0]
    ensures BelowAt(a, b, k + 1) <==> BelowAt(a[1..], b[1..], k)
  {
    if k < |a| && k < |b| {
      assert a[..k + 1] == [a[0]] + a[1..][..k] && b[..k + 1] == [b[0]] + b[1..][..k];
      assert a[1..][..k] == a[..k + 1][1..] && b[1..][..k] == b[..k + 1][1..];
    }
  }

  lemma {:induction false} CompareTextIff(a: string, b: string)
    ensures CompareText(a, b) < 0 <==> TextBelow(a, b)
    decreases |a|
  {
    assert a[..0] == b[..0];
    assert BelowAt(a, b, 0) <==> (a == "" != b) || (a != "" && b != "" && a[0] < b[0]);
    if a != "" && b != "" && a[0] == b[0] {
      CompareTextIff(a[1..], b[1..]);
      forall k: nat ensures BelowAt(a, b, k + 1) <==> BelowAt(a[1..], b[1..], k) {
        BelowAtNext(a, b, k);
      }
      if TextBelow(a, b) {
        var k: nat :| BelowAt(a, b, k);
        assert BelowAt(a[1..], b[1..], k - 1);
      }
      if TextBelow(a[1..], b[1..]) {
        var k: nat :| BelowAt(a[1..], b[1..], k);
        assert BelowAt(a, b, k + 1);
      }
    } else {
      forall k: nat | BelowAt(a, b, k) ensures k == 0 {
        if k > 0 {
          BelowLater(a, b, k);
        }
      }
    }
  }

  lemma BelowLater(a: string, b: string, k: nat)
    requires k > 0 && BelowAt(a, b, k)
    ensures a != "" && b != "" && a[0] == b[0]
  {
    assert a[..k][0] == b[..k][0];
  }

  /** Position `k` is the first with different values, and `a` has the lower one. */
  ghost predicate ValueBelowAt(a: seq<LabelPair>, b: seq<LabelPair>, k: nat) {
    && k < |a| && k < |b| && (forall i | 0 <= i < k :: a[i].value == b[i].value)
    && TextBelow(a[k].value, b[k].value)
  }

  /** Fewer labels; or as many and a lower value at the first difference; or the same values
      and a smaller timestamp. */
  ghost predicate MetricBelow(a: Metric, b: Metric) {
    || |a.labels| < |b.labels|
    || (|a.labels| == |b.labels| && exists k: nat :: ValueBelowAt(a.labels, b.labels, k))
    || (SameValues(a.labels, b.labels) && a.timestamp < b.timestamp)
  }

  lemma {:induction false} CompareValuesIff(a: seq<LabelPair>, b: seq<LabelPair>)
    requires |a| == |b|
    ensures CompareValues(a, b) < 0 <==> exists k: nat :: ValueBelowAt(a, b, k)
    decreases |a|
  {
    if a != [] {
      CompareTextIff(a[0].value, b[0].value);
      TextOrder(a[0].value, b[0].value);
      assert ValueBelowAt(a, b, 0) <==> TextBelow(a[0].value, b[0].value);
      if a[0].value == b[0].value {
        CompareValuesIff(a[1..], b[1..]);
        assert forall i | 0 < i < |a| :: a[i] == a[1..][i - 1] && b[i] == b[1..][i - 1];
        if k: nat :| ValueBelowAt(a, b, k) {
          assert ValueBelowAt(a[1..], b[1..], k - 1);
        }
        if k: nat :| ValueBelowAt(a[1..], b[1..], k) {
          assert ValueBelowAt(a, b, k + 1);
        }
      }
    }
  }

  /** The comparator is negative exactly for a metric that comes before the other. */
  lemma CompareIff(a: Metric, b: Metric)
    ensures Compare(a, b) < 0 <==> MetricBelow(a, b)
  {
    if |a.labels| == |b.labels| {
      CompareValuesIff(a.labels, b.labels);
      ValuesOrder(a.labels, b.labels);
    }
  }

  /** No metric comes after one that it is below. */
  ghost predicate InOrder(metrics: seq<Metric>) {
    forall i, j | 0 <= i < j < |metrics| :: !MetricBelow(metrics[j], metrics[i])
  }

  lemma SortedIsInOrder(metrics: seq<Metric>)
    requires Sorted(metrics)
    ensures InOrder(metrics)
  {
    forall i, j | 0 <= i < j < |metrics| ensures !MetricBelow(metrics[j], metrics[i]) {
      CompareIff(metrics[j], metrics[i]);
      ComparatorIsPreorder(metrics[i], metrics[j], metrics[j]);
    }
  }

  // ----- Sorting ---------------------------------------------------------------------------

  ghost predicate Sorted(metrics: seq<Metric>) {
    forall i, j | 0 <= i < j < |metrics| :: Compare(metrics[i], metrics[j]) <= 0
  }

  /** Stable insertion: after everything that is not greater. */
  function Insert(sorted: seq<Metric>, m: Metric): seq<Metric> {
    if sorted == [] then [m]
    else
      var last := sorted[|sorted| - 1];
      if Compare(last, m) <= 0 then sorted + [m] else Insert(sorted[..|sorted| - 1], m) + [last]
  }

  /** A stable sort, which is what `sort_by` is. */
  function Sort(metrics: seq<Metric>): seq<Metric> {
    if metrics == [] then [] else Insert(Sort(metrics[..|metrics| - 1]), metrics[|metrics| - 1])
  }

  lemma {:induction false} InsertKeepsAll(sorted: seq<Metric>, m: Metric)
    ensures multiset(Insert(sorted, m)) == multiset(sorted) + multiset{m}
    decreases |sorted|
  {
    if sorted != [] {
      var n := |sorted| - 1;
      assert sorted == sorted[..n] + [sorted[n]];
      InsertKeepsAll(sorted[..n], m);
    }
  }

  /** A metric that is not below the last one of a sorted sequence goes to its end. */
  lemma SortedPush(sorted: seq<Metric>, m: Metric)
    requires Sorted(sorted) && (sorted != [] ==> Compare(sorted[|sorted| - 1], m) <= 0)
    ensures Sorted(sorted + [m])
  {
    if sorted != [] {
      var last := sorted[|sorted| - 1];
      forall i | 0 <= i < |sorted| ensures Compare(sorted[i], m) <= 0 {
        ComparatorIsPreorder(sorted[i], last, m);
      }
    }
  }

  lemma {:induction false} InsertSorts(sorted: seq<Metric>, m: Metric)
    requires Sorted(sorted)
    ensures Sorted(Insert(sorted, m)) && multiset(Insert(sorted, m)) == multiset(sorted) + multiset{m}
    decreases |sorted|
  {
    InsertKeepsAll(sorted, m);
    if sorted != [] {
      var n := |sorted| - 1;
      var last, front := sorted[n], sorted[..n];
      if Compare(last, m) <= 0 {
        SortedPush(sorted, m);
      } else {
        InsertSorts(front, m);
        ComparatorIsPreorder(last, m, m);
        LastIsGreatest(front, m, last);
        SortedPush(Insert(front, m), last);
      }
    }
  }

  lemma LastIsGreatest(front: seq<Metric>, m: Metric, last: Metric)
    requires Compare(m, last) <= 0 && forall i | 0 <= i < |front| :: Compare(front[i], last) <= 0
    ensures forall x | x in Insert(front, m) :: Compare(x, last) <= 0
  {
    InsertKeepsAll(front, m);
    forall x | x in Insert(front, m) ensures Compare(x, last) <= 0 {
      assert x in multiset(Insert(front, m));
      assert x in front || x == m;
    }
  }

  lemma {:induction false} SortSorts(metrics: seq<Metric>)
    ensures Sorted(Sort(metrics)) && multiset(Sort(metrics)) == multiset(metrics)
    decreases |metrics|
  {
    if metrics != [] {
      var n := |metrics| - 1;
      assert metrics == metrics[..n] + [metrics[n]];
      SortSorts(metrics[..n]);
      InsertSorts(Sort(metrics[..n]), metrics[n]);
    }
  }

  /** The metrics that compare equal to `x`, in order. */
  function Alike(metrics: seq<Metric>, x: Metric): seq<Metric> {
    if metrics == [] then []
    else
      var front, m := Alike(metrics[..|metrics| - 1], x), metrics[|metrics| - 1];
      if Compare(m, x) == 0 then front + [m] else front
  }

  lemma AlikePush(metrics: seq<Metric>, m: Metric, x: Metric)
    ensures Alike(metrics + [m], x) == if Compare(m, x) == 0 then Alike(metrics, x) + [m] else Alike(metrics, x)
  {
    assert (metrics + [m])[..|metrics|] == metrics;
  }

  lemma {:induction false} InsertIsStable(sorted: seq<Metric>, m: Metric, x: Metric)
    ensures Alike(Insert(sorted, m), x) == Alike(sorted + [m], x)
    decreases |sorted|
  {
    AlikePush(sorted, m, x);
    if sorted == [] {
      assert [] + [m] == [m];
    } else {
      var front, last := sorted[..|sorted| - 1], sorted[|sorted| - 1];
      if Compare(last, m) > 0 {
        InsertIsStable(front, m, x);
        AlikePush(front, m, x);
        AlikePush(Insert(front, m), last, x);
        NotBothAlike(last, m, x);
      }
    }
  }

  lemma NotBothAlike(a: Metric, b: Metric, x: Metric)
    requires Compare(a, b) > 0
    ensures Compare(a, x) != 0 || Compare(b, x) != 0
  {
    ComparatorIsPreorder(a, x, b);
    ComparatorIsPreorder(b, x, a);
  }

  /** Metrics that compare equal keep their order. */
  lemma {:induction false} SortIsStable(metrics: seq<Metric>, x: Metric)
    ensures Alike(Sort(metrics), x) == Alike(metrics, x)
    decreases |metrics|
  {
    if metrics != [] {
      var front, m := metrics[..|metrics| - 1], metrics[|metrics| - 1];
      SortIsStable(front, x);
      InsertIsStable(Sort(front), m, x);
      AlikePush(Sort(front), m, x);
    }
  }

  // ----- Common labels and prefix -------------------------------------------------------------

  function WithLabels(m: Metric, extra: seq<LabelPair>): Metric {
    m.(labels := m.labels + extra)
  }

  function AllWithLabels(metrics: seq<Metric>, extra: seq<LabelPair>): (r: seq<Metric>)
    ensures |r| == |metrics| && forall i | 0 <= i < |r| :: r[i] == WithLabels(metrics[i], extra)
  {
    seq(|metrics|, i requires 0 <= i < |metrics| => WithLabels(metrics[i], extra))
  }

  lemma {:induction false} LabelsKeepValues(a: seq<LabelPair>, b: seq<LabelPair>, extra: seq<LabelPair>)
    requires |a| == |b|
    ensures CompareValues(a + extra, b + extra) == CompareValues(a, b)
    decreases |a|
  {
    if a == [] {
      assert a + extra == extra && b + extra == extra;
      ValuesOrder(extra, extra);
    } else {
      assert (a + extra)[1..] == a[1..] + extra && (b + extra)[1..] == b[1..] + extra;
      LabelsKeepValues(a[1..], b[1..], extra);
    }
  }

  /** The common labels do not disturb the order. */
  lemma LabelsKeepOrder(a: Metric, b: Metric, extra: seq<LabelPair>)
    ensures Compare(WithLabels(a, extra), WithLabels(b, extra)) == Compare(a, b)
  {
    if |a.labels| == |b.labels| {
      LabelsKeepValues(a.labels, b.labels, extra);
    }
  }

  function Prefixed(prefix: Option<string>, name: string): string {
    if prefix.Some? then prefix.value + "_" + name else name
  }

  // ----- The specification -----------------------------------------------------------------------

  /** The metrics that one collected family contributes to the output family `name`. */
  function Contribution(name: string, f: Family): multiset<Metric> {
    if f.name == name then multiset(f.metrics) else multiset{}
  }

  function Contributions(name: string): Family -> multiset<Metric> {
    f => Contribution(name, f)
  }

  /** All metrics collected under `name`. */
  function Expected(name: string, families: seq<Family>): multiset<Metric> {
    Bags.Gather(Contributions(name), families)
  }

  function Flatten(collected: seq<seq<Family>>): seq<Family> {
    if collected == [] then [] else Flatten(collected[..|collected| - 1]) + collected[|collected| - 1]
  }

  lemma ExpectedPush(name: string, families: seq<Family>, f: Family)
    ensures Expected(name, families + [f]) == Expected(name, families) + Contribution(name, f)
  {
    Bags.GatherPush(Contributions(name), families, f);
  }

  lemma WithoutCounts<T>(s: seq<T>, i: nat)
    requires i < |s|
    ensures multiset(s) == multiset(Bags.Without(s, i)) + multiset{s[i]}
  {
    assert s == s[..i] + [s[i]] + s[i + 1..];
  }

  /** The collected families, whatever the order of the collectors, matter only as a
      multiset. */
  lemma {:induction false} ExpectedIgnoresOrder(name: string, a: seq<Family>, b: seq<Family>)
    requires multiset(a) == multiset(b)
    ensures Expected(name, a) == Expected(name, b)
    decreases |a|
  {
    if a == [] {
      assert |multiset(b)| == 0;
    } else {
      var n := |a| - 1;
      assert a[n] in multiset(b);
      var j :| 0 <= j < |b| && b[j] == a[n];
      var c, d := Bags.Without(a, n), Bags.Without(b, j);
      WithoutCounts(a, n);
      WithoutCounts(b, j);
      Cancel(multiset(c), multiset(d), a[n]);
      ExpectedIgnoresOrder(name, c, d);
      Bags.GatherAt(Contributions(name), a, n);
      Bags.GatherAt(Contributions(name), b, j);
    }
  }

  lemma Cancel<T>(a: multiset<T>, b: multiset<T>, x: T)
    requires a + multiset{x} == b + multiset{x}
    ensures a == b
  {
    forall y ensures a[y] == b[y] {
      assert (a + multiset{x})[y] == (b + multiset{x})[y];
    }
  }

  /** The collected families of a name that have metrics, in order. */
  function Named(name: string, families: seq<Family>): seq<Family> {
    if families == [] then []
    else
      var front, f := Named(name, families[..|families| - 1]), families[|families| - 1];
      if f.name == name && f.metrics != [] then front + [f] else front
  }

  /** Their metrics, one family after the other. */
  function Metrics(families: seq<Family>): seq<Metric> {
    if families == [] then [] else Metrics(families[..|families| - 1]) + families[|families| - 1].metrics
  }

  lemma NamedPush(name: string, families: seq<Family>, f: Family)
    ensures var before, after := Named(name, families), Named(name, families + [f]);
            if f.name == name && f.metrics != []
            then after == before + [f] && Metrics(after) == Metrics(before) + f.metrics
            else after == before
  {
    assert (families + [f])[..|families|] == families;
    assert (Named(name, families) + [f])[..|Named(name, families)|] == Named(name, families);
  }

  /** Counted without order they are what was expected, and there are none exactly when
      nothing was. */
  lemma {:induction false} NamedAsExpected(name: string, families: seq<Family>)
    ensures multiset(Metrics(Named(name, families))) == Expected(name, families)
    ensures Named(name, families) != [] <==> Metrics(Named(name, families)) != []
    decreases |families|
  {
    if families != [] {
      var front, f := families[..|families| - 1], families[|families| - 1];
      NamedAsExpected(name, front);
      NamedPush(name, front, f);
      ExpectedPush(name, front, f);
      assert families == front + [f];
    }
  }

  /** What the map of families holds under `n` after merging `families`: all their metrics in
      the order of collection, and the help text of the first family. */
  ghost predicate MergedAt(byName: map<string, Family>, families: seq<Family>, n: string) {
    var named := Named(n, families);
    if n in byName then named != [] && byName[n] == Family(n, named[0].help, Metrics(named))
    else named == []
  }

  ghost predicate Merged(byName: map<string, Family>, families: seq<Family>) {
    forall n: string :: MergedAt(byName, families, n)
  }

  function Merge(byName: map<string, Family>, f: Family): map<string, Family> {
    if f.metrics == [] then byName
    else if f.name in byName then byName[f.name := byName[f.name].(metrics := byName[f.name].metrics + f.metrics)]
    else byName[f.name := f]
  }

  lemma MergeAt(byName: map<string, Family>, families: seq<Family>, f: Family, n: string)
    requires MergedAt(byName, families, n)
    ensures MergedAt(Merge(byName, f), families + [f], n)
  {
    NamedPush(n, families, f);
    if n == f.name && f.metrics != [] && n !in byName {
      assert Named(n, families) == [] && [] + f.metrics == f.metrics;
    }
  }

  lemma MergeOne(byName: map<string, Family>, families: seq<Family>, f: Family)
    requires Merged(byName, families)
    ensures Merged(Merge(byName, f), families + [f])
  {
    forall n: string ensures MergedAt(Merge(byName, f), families + [f], n) {
      assert MergedAt(byName, families, n);
      MergeAt(byName, families, f, n);
    }
  }

  // ----- The three loops of gather ------------------------------------------------------------------

  /** One collector's families are merged into the map; empty ones are pruned. */
  method MergeFamilies(start: map<string, Family>, mfs: seq<Family>, ghost before: seq<Family>)
    returns (byName: map<string, Family>)
    requires Merged(start, before)
    ensures Merged(byName, before + mfs)
  {
    byName := start;
    var j := 0;
    assert before + mfs[..0] == before;
    while j < |mfs|
      invariant j <= |mfs| && Merged(byName, before + mfs[..j])
    {
      MergeOne(byName, before + mfs[..j], mfs[j]);
      assert before + mfs[..j + 1] == before + mfs[..j] + [mfs[j]];
      byName := MergeFamily(byName, mfs[j]);
      j := j + 1;
    }
    assert mfs[..j] == mfs;
  }

  method MergeFamily(byName: map<string, Family>, mf: Family) returns (r: map<string, Family>)
    ensures r == Merge(byName, mf)
  {
    if mf.metrics == [] { return byName; }
    if mf.name !in byName { return byName[mf.name := mf]; }
    var existing, j := byName[mf.name].metrics, 0;
    while j < |mf.metrics|
      invariant j <= |mf.metrics| && existing == byName[mf.name].metrics + mf.metrics[..j]
    {
      existing := existing + [mf.metrics[j]];
      j := j + 1;
    }
    assert mf.metrics[..j] == mf.metrics;
    return byName[mf.name := byName[mf.name].(metrics := existing)];
  }

  /** Families with the same name are merged, collector by collector. */
  method MergeAll(collected: seq<seq<Family>>) returns (byName: map<string, Family>)
    ensures Merged(byName, Flatten(collected))
  {
    byName := map[];
    var i := 0;
    while i < |collected|
      invariant i <= |collected| && Merged(byName, Flatten(collected[..i]))
    {
      byName := MergeFamilies(byName, collected[i], Flatten(collected[..i]));
      FlattenNext(collected, i);
      i := i + 1;
    }
    assert collected[..i] == collected;
  }

  lemma FlattenNext(collected: seq<seq<Family>>, i: nat)
    requires i < |collected|
    ensures Flatten(collected[..i + 1]) == Flatten(collected[..i]) + collected[i]
  {
    assert collected[..i + 1][..i] == collected[..i];
  }

  /** Every family's metrics are sorted in place. */
  method SortAll(byName: map<string, Family>) returns (sorted: map<string, Family>)
    ensures sorted.Keys == byName.Keys
    ensures forall n | n in byName :: sorted[n] == byName[n].(metrics := Sort(byName[n].metrics))
  {
    sorted := byName;
    var left := byName.Keys;
    while left != {}
      invariant left <= byName.Keys && sorted.Keys == byName.Keys
      invariant forall n | n in byName :: sorted[n] == if n in left then byName[n] else byName[n].(metrics := Sort(byName[n].metrics))
      decreases left
    {
      var n :| n in left;
      sorted := sorted[n := sorted[n].(metrics := Sort(sorted[n].metrics))];
      left := left - {n};
    }
  }

  /** The finished family. */
  function Finished(f: Family, prefix: Option<string>, extra: Option<seq<LabelPair>>): Family {
    Family(Prefixed(prefix, f.name), f.help, if extra.Some? then AllWithLabels(f.metrics, extra.value) else f.metrics)
  }

  ghost predicate Increasing(names: seq<string>) {
    forall i, j | 0 <= i < j < |names| :: TextBelow(names[i], names[j])
  }

  lemma LeastName(names: set<string>) returns (least: string)
    requires names != {}
    ensures least in names && forall n | n in names :: CompareText(least, n) <= 0
    decreases names
  {
    var some :| some in names;
    TextOrder(some, some);
    if names == {some} {
      least := some;
    } else {
      var rest := LeastName(names - {some});
      TextOrder(some, rest);
      if CompareText(some, rest) <= 0 {
        least := some;
        forall n | n in names ensures CompareText(least, n) <= 0 {
          if n != some {
            TextTransitive(some, rest, n);
          }
        }
      } else {
        least := rest;
      }
    }
  }

  /** Families leave the map in the order of their names. */
  method WriteOut(byName: map<string, Family>, prefix: Option<string>, extra: Option<seq<LabelPair>>)
    returns (names: seq<string>, out: seq<Family>)
    ensures Increasing(names) && (set n | n in names) == byName.Keys && |out| == |names|
    ensures forall i | 0 <= i < |out| :: names[i] in byName && out[i] == Finished(byName[names[i]], prefix, extra)
  {
    names, out := [], [];
    var left := byName.Keys;
    while left != {}
      invariant left <= byName.Keys && Increasing(names) && |out| == |names|
      invariant (set n | n in names) == byName.Keys - left
      invariant forall i, n | 0 <= i < |names| && n in left :: TextBelow(names[i], n)
      invariant forall i | 0 <= i < |out| :: names[i] in byName && out[i] == Finished(byName[names[i]], prefix, extra)
      decreases left
    {
      ghost var least := LeastName(left);
      var n :| n in left && forall m | m in left :: CompareText(n, m) <= 0;
      assert (set x | x in names + [n]) == (set x | x in names) + {n};
      names := names + [n];
      out := out + [Finished(byName[n], prefix, extra)];
      forall m | m in left - {n} ensures TextBelow(n, m) {
        TextOrder(n, m);
        CompareTextIff(n, m);
      }
      left := left - {n};
    }
  }

  // ----- gather ---------------------------------------------------------------------------------------

  function Common(extra: Option<seq<LabelPair>>): seq<LabelPair> { extra.GetOr([]) }

  /** The metrics of an output family, as they were collected, with the common labels. */
  function Labelled(metrics: multiset<Metric>, extra: seq<LabelPair>, m: Metric): nat {
    if |m.labels| >= |extra| && m.labels[|m.labels| - |extra|..] == extra
    then metrics[m.(labels := m.labels[..|m.labels| - |extra|])] else 0
  }

  lemma {:induction false} LabelsCount(metrics: seq<Metric>, extra: seq<LabelPair>, m: Metric)
    ensures multiset(AllWithLabels(metrics, extra))[m] == Labelled(multiset(metrics), extra, m)
    decreases |metrics|
  {
    if metrics == [] {
      assert AllWithLabels(metrics, extra) == [];
    } else {
      var n := |metrics| - 1;
      var front, last := metrics[..n], metrics[n];
      LabelsCount(front, extra, m);
      assert AllWithLabels(metrics, extra) == AllWithLabels(front, extra) + [WithLabels(last, extra)];
      assert metrics == front + [last];
      LabelsInvert(last, extra, m);
    }
  }

  /** A metric with the common labels comes from exactly one without them. */
  lemma LabelsInvert(last: Metric, extra: seq<LabelPair>, m: Metric)
    ensures WithLabels(last, extra) == m <==>
            && |m.labels| >= |extra| && m.labels[|m.labels| - |extra|..] == extra
            && m.(labels := m.labels[..|m.labels| - |extra|]) == last
  {
    if |m.labels| >= |extra| {
      var cut := |m.labels| - |extra|;
      assert m.labels == m.labels[..cut] + m.labels[cut..];
    }
    assert (last.labels + extra)[..|last.labels|] == last.labels;
    assert (last.labels + extra)[|last.labels|..] == extra;
  }

  /** For any order of the collectors: the output families have strictly increasing names
      (before the prefix), one for each name under which something was collected; each has
      the help text of the first family collected under that name, and its metrics are in
      order, exactly those collected under that name, each with the common labels appended.
      Metrics that compare equal stay in the order of collection (`SortIsStable`). */
  method Gather(collected: seq<seq<Family>>, prefix: Option<string>, extra: Option<seq<LabelPair>>)
    returns (names: seq<string>, out: seq<Family>)
    ensures |out| == |names| && forall i, j | 0 <= i < j < |names| :: TextBelow(names[i], names[j])
    ensures forall n :: n in names <==> Expected(n, Flatten(collected)) != multiset{}
    ensures forall i | 0 <= i < |out| ::
              var named := Named(names[i], Flatten(collected));
              && named != [] && out[i].name == Prefixed(prefix, names[i]) && out[i].help == named[0].help
              && out[i].metrics == AllWithLabels(Sort(Metrics(named)), Common(extra)) && InOrder(out[i].metrics)
    ensures forall i, m | 0 <= i < |out| ::
              multiset(out[i].metrics)[m] == Labelled(Expected(names[i], Flatten(collected)), Common(extra), m)
  {
    var byName := MergeAll(collected);
    var sorted := SortAll(byName);
    names, out := WriteOut(sorted, prefix, extra);
    ghost var families := Flatten(collected);
    forall n ensures n in names <==> Expected(n, families) != multiset{} {
      assert n in names <==> n in (set x | x in names);
      assert MergedAt(byName, families, n);
      NamedAsExpected(n, families);
    }
    forall i | 0 <= i < |out|
      ensures var named := Named(names[i], families);
              && named != [] && out[i].name == Prefixed(prefix, names[i]) && out[i].help == named[0].help
              && out[i].metrics == AllWithLabels(Sort(Metrics(named)), Common(extra)) && InOrder(out[i].metrics)
      ensures forall m :: multiset(out[i].metrics)[m] == Labelled(Expected(names[i], families), Common(extra), m)
    {
      var f := byName[names[i]];
      assert MergedAt(byName, families, names[i]);
      NamedAsExpected(names[i], families);
      FinishedIsRight(f, prefix, extra);
    }
  }

  lemma FinishedIsRight(f: Family, prefix: Option<string>, extra: Option<seq<LabelPair>>)
    ensures var out := Finished(f.(metrics := Sort(f.metrics)), prefix, extra);
            && out.metrics == AllWithLabels(Sort(f.metrics), Common(extra)) && InOrder(out.metrics)
            && forall m :: multiset(out.metrics)[m] == Labelled(multiset(f.metrics), Common(extra), m)
  {
    SortSorts(f.metrics);
    var s, out := Sort(f.metrics), Finished(f.(metrics := Sort(f.metrics)), prefix, extra);
    assert out.metrics == AllWithLabels(s, Common(extra)) by {
      if extra == None {
        assert forall i | 0 <= i < |s| :: WithLabels(s[i], []) == s[i] by {
          assert forall i | 0 <= i < |s| :: s[i].labels + [] == s[i].labels;
        }
      }
    }
    forall i, j | 0 <= i < j < |out.metrics| ensures Compare(out.metrics[i], out.metrics[j]) <= 0 {
      LabelsKeepOrder(s[i], s[j], Common(extra));
    }
    SortedIsInOrder(out.metrics);
    forall m ensures multiset(out.metrics)[m] == Labelled(multiset(f.metrics), Common(extra), m) {
      LabelsCount(s, Common(extra), m);
    }
  }
}
