/** Registering and unregistering collectors. */
module Registry {
  import opened Wrappers
  import opened Runs

  /** Identifiers and their sums are 64-bit words. */
  const WORD: nat := 0x1_0000_0000_0000_0000

  datatype Desc = Desc(fqName: string, id: nat, dimHash: nat)

  datatype Collector = Collector(tag: nat, descs: seq<Desc>)

  datatype Error = AlreadyReg | Inconsistent | DuplicateDesc | NotRegistered

  datatype Core = Core(collectors: map<nat, Collector>, dims: map<string, nat>, ids: set<nat>)

  const Empty := Core(map[], map[], {})

  function IdSet(descs: seq<Desc>): set<nat> {
    set i | 0 <= i < |descs| :: descs[i].id
  }

  /** The wrapping sum of the distinct ids. */
  function Sum(descs: seq<Desc>): (r: nat)
    ensures r < WORD
  {
    if descs == [] then 0
    else
      var front, d := descs[..|descs| - 1], descs[|descs| - 1];
      if d.id in IdSet(front) then Sum(front) else (Sum(front) + d.id) % WORD
  }

  /** The checks on the first descriptors, which bind their names as they go. */
  function Scan(core: Core, descs: seq<Desc>): Result<map<string, nat>, (Error, map<string, nat>)> {
    if descs == [] then Success(core.dims)
    else
      var front, d := descs[..|descs| - 1], descs[|descs| - 1];
      match Scan(core, front)
      case Failure(e) => Failure(e)
      case Success(dims) =>
        if d.id in core.ids then Failure((AlreadyReg, dims))
        else if d.fqName in dims && dims[d.fqName] != d.dimHash then Failure((Inconsistent, dims))
        else if d.id in IdSet(front) then Failure((DuplicateDesc, dims[d.fqName := d.dimHash]))
        else Success(dims[d.fqName := d.dimHash])
  }

  function AfterRegister(core: Core, c: Collector): (Core, Option<Error>) {
    match Scan(core, c.descs)
    case Failure((e, dims)) => (core.(dims := dims), Some(e))
    case Success(dims) =>
      var id := Sum(c.descs);
      if id in core.collectors then (core.(dims := dims), Some(AlreadyReg))
      else (Core(core.collectors[id := c], dims, core.ids + IdSet(c.descs)), None)
  }

  function AfterUnregister(core: Core, c: Collector): (Core, Option<Error>) {
    var id := Sum(c.descs);
    if id !in core.collectors then (core, Some(NotRegistered))
    else (core.(collectors := core.collectors - {id}, ids := core.ids - IdSet(c.descs)), None)
  }

  // ----- The sum depends on the set alone ----------------------------------------------------

  /** All descriptors but those with identifier `id`. */
  function Others(descs: seq<Desc>, id: nat): seq<Desc> {
    if descs == [] then []
    else
      var front, d := Others(descs[..|descs| - 1], id), descs[|descs| - 1];
      if d.id == id then front else front + [d]
  }

  lemma IdsPush(descs: seq<Desc>, d: Desc)
    ensures IdSet(descs + [d]) == IdSet(descs) + {d.id}
  {
    var all := descs + [d];
    assert forall i | 0 <= i < |descs| :: all[i] == descs[i];
    assert all[|descs|] == d;
  }

  lemma IdsFront(descs: seq<Desc>)
    requires descs != []
    ensures IdSet(descs) == IdSet(descs[..|descs| - 1]) + {descs[|descs| - 1].id}
  {
    IdsPush(descs[..|descs| - 1], descs[|descs| - 1]);
    assert descs == descs[..|descs| - 1] + [descs[|descs| - 1]];
  }

  lemma {:induction false} OthersIds(descs: seq<Desc>, id: nat)
    ensures IdSet(Others(descs, id)) == IdSet(descs) - {id}
    decreases |descs|
  {
    if descs != [] {
      var front, d := descs[..|descs| - 1], descs[|descs| - 1];
      OthersIds(front, id);
      IdsFront(descs);
      if d.id != id {
        IdsPush(Others(front, id), d);
      }
    }
  }

  lemma AddTwo(a: nat, x: nat, y: nat)
    ensures ((a + x) % WORD + y) % WORD == ((a + y) % WORD + x) % WORD
  {
  }

  lemma SumPush(descs: seq<Desc>, d: Desc)
    ensures Sum(descs + [d]) == if d.id in IdSet(descs) then Sum(descs) else (Sum(descs) + d.id) % WORD
  {
    assert (descs + [d])[..|descs|] == descs;
  }

  /** Any identifier can be split off the sum. */
  lemma {:induction false} SumSplits(descs: seq<Desc>, id: nat)
    requires id in IdSet(descs)
    ensures Sum(descs) == (Sum(Others(descs, id)) + id) % WORD
    decreases |descs|
  {
    var front, d := descs[..|descs| - 1], descs[|descs| - 1];
    IdsFront(descs);
    OthersIds(front, id);
    if d.id == id {
      if id in IdSet(front) {
        SumSplits(front, id);
      } else {
        OthersAbsent(front, id);
      }
    } else {
      SumSplits(front, id);
      SumPush(Others(front, id), d);
      AddTwo(Sum(Others(front, id)), id, d.id);
    }
  }

  lemma {:induction false} OthersAbsent(descs: seq<Desc>, id: nat)
    requires id !in IdSet(descs)
    ensures Others(descs, id) == descs
    decreases |descs|
  {
    if descs != [] {
      IdsFront(descs);
      OthersAbsent(descs[..|descs| - 1], id);
      assert descs == descs[..|descs| - 1] + [descs[|descs| - 1]];
    }
  }

  lemma SomeId(descs: seq<Desc>)
    requires descs != []
    ensures IdSet(descs) != {}
  {
    assert descs[0].id in IdSet(descs);
  }

  /** Equal sets of identifiers, listed in any order and with any repetition, have equal
      sums. */
  lemma {:induction false} SumOfSet(a: seq<Desc>, b: seq<Desc>)
    requires IdSet(a) == IdSet(b)
    ensures Sum(a) == Sum(b)
    decreases |IdSet(a)|
  {
    if a == [] {
      if b != [] {
        SomeId(b);
      }
    } else {
      var id := a[0].id;
      assert id in IdSet(a);
      OthersIds(a, id);
      OthersIds(b, id);
      SumOfSet(Others(a, id), Others(b, id));
      SumSplits(a, id);
      SumSplits(b, id);
    }
  }

  // ----- When registration succeeds -------------------------------------------------------------

  ghost predicate Distinct(descs: seq<Desc>) {
    forall i, j | 0 <= i < j < |descs| :: descs[i].id != descs[j].id
  }

  /** No name is bound to two dimension hashes, within the collector or with `dims`. */
  ghost predicate Agree(dims: map<string, nat>, descs: seq<Desc>) {
    && (forall i | 0 <= i < |descs| && descs[i].fqName in dims :: dims[descs[i].fqName] == descs[i].dimHash)
    && (forall i, j | 0 <= i < j < |descs| && descs[i].fqName == descs[j].fqName :: descs[i].dimHash == descs[j].dimHash)
  }

  ghost predicate Fits(core: Core, descs: seq<Desc>) {
    Distinct(descs) && IdSet(descs) !! core.ids && Agree(core.dims, descs)
  }

  /** `dims` extended by the names of `descs` and nothing else. */
  ghost predicate Bound(before: map<string, nat>, descs: seq<Desc>, after: map<string, nat>) {
    && (forall n | n in before :: n in after && after[n] == before[n])
    && (forall n | n in after && n !in before :: exists i | 0 <= i < |descs| :: descs[i].fqName == n && descs[i].dimHash == after[n])
  }

  ghost predicate AllBound(descs: seq<Desc>, after: map<string, nat>) {
    forall i | 0 <= i < |descs| :: descs[i].fqName in after && after[descs[i].fqName] == descs[i].dimHash
  }

  /** The dimension hashes after a scan, successful or not. */
  function DimsOf(r: Result<map<string, nat>, (Error, map<string, nat>)>): map<string, nat> {
    if r.Success? then r.value else r.error.1
  }

  /** The scan succeeds exactly when the descriptors fit; either way bound names keep
      their hashes. */
  lemma {:induction false} ScanIff(core: Core, descs: seq<Desc>)
    ensures Scan(core, descs).Success? <==> Fits(core, descs)
    ensures Bound(core.dims, descs, DimsOf(Scan(core, descs)))
    ensures Scan(core, descs).Success? ==> AllBound(descs, Scan(core, descs).value)
    decreases |descs|
  {
    if descs != [] {
      var front, d := descs[..|descs| - 1], descs[|descs| - 1];
      ScanIff(core, front);
      IdsFront(descs);
      ScanLast(core, front, d);
      assert descs == front + [d];
    }
  }

  lemma ScanLast(core: Core, front: seq<Desc>, d: Desc)
    requires Scan(core, front).Success? <==> Fits(core, front)
    requires Bound(core.dims, front, DimsOf(Scan(core, front)))
    requires Scan(core, front).Success? ==> AllBound(front, Scan(core, front).value)
    ensures var descs := front + [d];
            && (Scan(core, descs).Success? <==> Fits(core, descs))
            && Bound(core.dims, descs, DimsOf(Scan(core, descs)))
            && (Scan(core, descs).Success? ==> AllBound(descs, Scan(core, descs).value))
  {
    var descs := front + [d];
    assert descs[..|descs| - 1] == front && descs[|front|] == d;
    IdsPush(front, d);
    assert forall i | 0 <= i < |front| :: descs[i] == front[i];
    if Scan(core, front).Success? {
      LastFits(core, front, d, Scan(core, front).value);
    } else {
      assert Fits(core, descs) ==> Fits(core, front);
    }
    LastBinds(core, front, d);
  }

  lemma LastFits(core: Core, front: seq<Desc>, d: Desc, dims: map<string, nat>)
    requires Fits(core, front) && Bound(core.dims, front, dims) && AllBound(front, dims)
    ensures Fits(core, front + [d]) <==>
            d.id !in core.ids && (d.fqName in dims ==> dims[d.fqName] == d.dimHash) && d.id !in IdSet(front)
  {
    var descs := front + [d];
    IdsPush(front, d);
    assert forall i | 0 <= i < |front| :: descs[i] == front[i];
    assert descs[|front|] == d;
    if d.id in IdSet(front) {
      var i :| 0 <= i < |front| && front[i].id == d.id;
      assert descs[i].id == descs[|front|].id;
    }
    if d.fqName in dims && dims[d.fqName] != d.dimHash && d.fqName !in core.dims {
      var i :| 0 <= i < |front| && front[i].fqName == d.fqName && front[i].dimHash == dims[d.fqName];
      assert descs[i].fqName == descs[|front|].fqName;
    }
  }

  lemma LastBinds(core: Core, front: seq<Desc>, d: Desc)
    requires Bound(core.dims, front, DimsOf(Scan(core, front)))
    requires Scan(core, front).Success? ==> AllBound(front, Scan(core, front).value)
    ensures var descs := front + [d];
            && Bound(core.dims, descs, DimsOf(Scan(core, descs)))
            && (Scan(core, descs).Success? ==> AllBound(descs, Scan(core, descs).value))
  {
    var descs := front + [d];
    assert descs[..|descs| - 1] == front && descs[|front|] == d;
    assert forall i | 0 <= i < |front| :: descs[i] == front[i];
    var before, after := DimsOf(Scan(core, front)), DimsOf(Scan(core, descs));
    assert after == before || after == before[d.fqName := d.dimHash];
    forall n | n in after && n !in core.dims
      ensures exists i | 0 <= i < |descs| :: descs[i].fqName == n && descs[i].dimHash == after[n]
    {
      if n in before && after[n] == before[n] {
        var i :| 0 <= i < |front| && front[i].fqName == n && front[i].dimHash == before[n];
        assert descs[i].fqName == n;
      } else {
        assert descs[|front|].fqName == n;
      }
    }
  }

  /** Registration succeeds exactly when the descriptors have distinct identifiers, none
      of them registered, dimension hashes consistent with the names bound so far, and a
      sum under which nothing is stored. */
  lemma RegisterIff(core: Core, c: Collector)
    ensures AfterRegister(core, c).1 == None <==> Fits(core, c.descs) && Sum(c.descs) !in core.collectors
  {
    ScanIff(core, c.descs);
  }

  /** Descriptor `i` names something that is bound to another dimension hash, by `core` or by
      an earlier descriptor. */
  ghost predicate Conflicts(core: Core, descs: seq<Desc>, i: nat)
    requires i < |descs|
  {
    || (descs[i].fqName in core.dims && core.dims[descs[i].fqName] != descs[i].dimHash)
    || exists j | 0 <= j < i :: descs[j].fqName == descs[i].fqName && descs[j].dimHash != descs[i].dimHash
  }

  /** What is wrong with descriptor `i`; a registered identifier comes before a conflicting
      name, and that before a repeated identifier. */
  ghost predicate Wrong(core: Core, descs: seq<Desc>, i: nat, e: Error)
    requires i < |descs|
  {
    match e
    case AlreadyReg => descs[i].id in core.ids
    case Inconsistent => descs[i].id !in core.ids && Conflicts(core, descs, i)
    case DuplicateDesc => descs[i].id !in core.ids && !Conflicts(core, descs, i) && exists j | 0 <= j < i :: descs[j].id == descs[i].id
    case NotRegistered => false
  }

  /** Descriptor `i` is the first that does not fit. */
  ghost predicate FirstMisfit(core: Core, descs: seq<Desc>, i: nat) {
    i < |descs| && Fits(core, descs[..i]) && !Fits(core, descs[..i + 1])
  }

  lemma {:induction false} FitsOrMisfit(core: Core, descs: seq<Desc>) returns (i: nat)
    ensures if Fits(core, descs) then i == |descs| else FirstMisfit(core, descs, i)
    decreases |descs|
  {
    if descs == [] {
      i := 0;
    } else {
      var n := |descs| - 1;
      i := FitsOrMisfit(core, descs[..n]);
      assert descs[..n + 1] == descs;
      if i < n {
        assert descs[..n][..i] == descs[..i] && descs[..n][..i + 1] == descs[..i + 1];
        if Fits(core, descs) {
          FitsShrinks(core, descs, n);
        }
      } else if Fits(core, descs) {
        i := n + 1;
      }
    }
  }

  lemma FitsShrinks(core: Core, descs: seq<Desc>, n: nat)
    requires n <= |descs| && Fits(core, descs)
    ensures Fits(core, descs[..n])
  {
    var front := descs[..n];
    assert forall i | 0 <= i < n :: front[i] == descs[i];
    forall id | id in IdSet(front) ensures id in IdSet(descs) {
      var i :| 0 <= i < n && front[i].id == id;
      assert descs[i].id == id;
    }
  }

  /** The name is bound to another hash when the scan comes to descriptor `i`. */
  lemma BoundApart(core: Core, descs: seq<Desc>, i: nat, dims: map<string, nat>)
    requires i < |descs| && Bound(core.dims, descs[..i], dims) && AllBound(descs[..i], dims)
    ensures descs[i].fqName in dims && dims[descs[i].fqName] != descs[i].dimHash <==> Conflicts(core, descs, i)
  {
    var front, d := descs[..i], descs[i];
    if d.fqName in dims && dims[d.fqName] != d.dimHash && d.fqName !in core.dims {
      var j :| 0 <= j < |front| && front[j].fqName == d.fqName && front[j].dimHash == dims[d.fqName];
      assert descs[j].fqName == d.fqName;
    }
    if j :| 0 <= j < i && descs[j].fqName == d.fqName && descs[j].dimHash != d.dimHash {
      assert front[j].fqName in dims && dims[front[j].fqName] == front[j].dimHash;
    }
  }

  lemma IdsOfPrefix(descs: seq<Desc>, i: nat)
    requires i < |descs|
    ensures descs[i].id in IdSet(descs[..i]) <==> exists j | 0 <= j < i :: descs[j].id == descs[i].id
  {
    assert forall j | 0 <= j < i :: descs[..i][j] == descs[j];
  }

  lemma ScanAtMisfit(core: Core, descs: seq<Desc>, i: nat)
    requires FirstMisfit(core, descs, i)
    ensures Scan(core, descs[..i + 1]).Failure? && Wrong(core, descs, i, Scan(core, descs[..i + 1]).error.0)
  {
    var front, d := descs[..i], descs[i];
    var all := descs[..i + 1];
    assert all[..|all| - 1] == front && all[|all| - 1] == d;
    ScanIff(core, front);
    ScanIff(core, all);
    var dims := Scan(core, front).value;
    BoundApart(core, descs, i, dims);
    IdsOfPrefix(descs, i);
  }

  /** Which error a failed registration reports: what is wrong with the first descriptor that
      does not fit, or `AlreadyReg` when all fit and something is stored under the sum. */
  lemma RegisterError(core: Core, c: Collector, i: nat)
    ensures FirstMisfit(core, c.descs, i) ==>
              exists e :: AfterRegister(core, c).1 == Some(e) && Wrong(core, c.descs, i, e)
    ensures Fits(core, c.descs) && Sum(c.descs) in core.collectors ==> AfterRegister(core, c).1 == Some(AlreadyReg)
    ensures AfterRegister(core, c).1.Some? ==> Fits(core, c.descs) || exists k: nat :: FirstMisfit(core, c.descs, k)
  {
    ScanIff(core, c.descs);
    if FirstMisfit(core, c.descs, i) {
      ScanAtMisfit(core, c.descs, i);
      ScanStops(core, c.descs, i + 1);
    }
    var k := FitsOrMisfit(core, c.descs);
  }

  // ----- The invariant ------------------------------------------------------------------------------

  /** Every collector is stored under its sum, their identifiers are disjoint, and
      `desc_ids` is exactly their union. */
  ghost predicate Valid(core: Core) {
    && (forall k | k in core.collectors :: Sum(core.collectors[k].descs) == k && Distinct(core.collectors[k].descs))
    && (forall k, l | k in core.collectors && l in core.collectors && k != l ::
          IdSet(core.collectors[k].descs) !! IdSet(core.collectors[l].descs))
    && (forall id :: id in core.ids <==> exists k :: k in core.collectors && id in IdSet(core.collectors[k].descs))
  }

  lemma RegisterKeeps(core: Core, c: Collector)
    requires Valid(core)
    ensures Valid(AfterRegister(core, c).0)
  {
    ScanIff(core, c.descs);
    var n, id := AfterRegister(core, c).0, Sum(c.descs);
    if AfterRegister(core, c).1 == None {
      forall k, l | k in n.collectors && l in n.collectors && k != l
        ensures IdSet(n.collectors[k].descs) !! IdSet(n.collectors[l].descs)
      {
        var other := if k == id then l else k;
        assert other in core.collectors ==> forall x | x in IdSet(core.collectors[other].descs) :: x in core.ids;
      }
      forall x ensures x in n.ids <==> exists k :: k in n.collectors && x in IdSet(n.collectors[k].descs) {
        if x in IdSet(c.descs) {
          assert id in n.collectors && x in IdSet(n.collectors[id].descs);
        } else if x in core.ids {
          var k :| k in core.collectors && x in IdSet(core.collectors[k].descs);
          assert k in n.collectors && n.collectors[k] == core.collectors[k];
        }
      }
    }
  }

  /** The exact condition under which a successful `unregister` keeps the invariant: among
      the registered identifiers, the given collector names exactly those of the collector
      that is stored under its sum. */
  lemma UnregisterKeepsIff(core: Core, c: Collector)
    requires Valid(core) && AfterUnregister(core, c).1 == None
    ensures Valid(AfterUnregister(core, c).0) <==>
            core.ids * IdSet(c.descs) == IdSet(core.collectors[Sum(c.descs)].descs)
  {
    var n, id := AfterUnregister(core, c).0, Sum(c.descs);
    var given, stored := IdSet(c.descs), IdSet(core.collectors[id].descs);
    assert stored <= core.ids by {
      assert forall x | x in stored :: x in core.ids;
    }
    assert forall x :: x in core.ids - stored <==> exists k :: k in n.collectors && x in IdSet(n.collectors[k].descs) by {
      StoredApart(core, id);
    }
    if core.ids * given == stored {
      assert n.ids == core.ids - stored;
    }
    assert Valid(n) ==> forall x :: x in n.ids <==> x in core.ids - stored;
    assert (forall x :: x in core.ids - given <==> x in core.ids - stored) ==> core.ids * given == stored;
  }

  /** What is left when one collector's identifiers are taken away. */
  lemma StoredApart(core: Core, id: nat)
    requires Valid(core) && id in core.collectors
    ensures var rest := core.collectors - {id};
            forall x :: x in core.ids - IdSet(core.collectors[id].descs) <==> exists k :: k in rest && x in IdSet(rest[k].descs)
  {
    var rest, stored := core.collectors - {id}, IdSet(core.collectors[id].descs);
    forall x ensures x in core.ids - stored <==> exists k :: k in rest && x in IdSet(rest[k].descs) {
      if x in core.ids - stored {
        var k :| k in core.collectors && x in IdSet(core.collectors[k].descs);
        assert k in rest && x in IdSet(rest[k].descs);
      }
      if k :| k in rest && x in IdSet(rest[k].descs) {
        assert IdSet(core.collectors[k].descs) !! stored;
        assert k in core.collectors && x in IdSet(core.collectors[k].descs);
      }
    }
  }

  /** One descriptor, stored under its own identifier. */
  function Single(tag: nat, name: string, id: nat): Collector {
    Collector(tag, [Desc(name, id, 0)])
  }

  const Three: Core :=
    Core(map[5 := Single(0, "a", 5), 2 := Single(1, "b", 2), 3 := Single(2, "c", 3)], map["a" := 0, "b" := 0, "c" := 0], {5, 2, 3})

  lemma ThreeAreValid()
    ensures Valid(Three)
  {
    forall k | k in Three.collectors ensures Three.collectors[k].descs == [Three.collectors[k].descs[0]] && IdSet(Three.collectors[k].descs) == {k} && Sum(Three.collectors[k].descs) == k {
      assert k == 5 || k == 2 || k == 3;
      SumOfOne(Three.collectors[k].descs[0]);
    }
    forall x ensures x in Three.ids <==> exists k :: k in Three.collectors && x in IdSet(Three.collectors[k].descs) {
      if x in Three.ids {
        assert x in Three.collectors && x in IdSet(Three.collectors[x].descs);
      }
    }
  }

  /** Three collectors and a fourth with a colliding sum: unregistering the fourth removes
      the first one, takes the identifiers of the other two away, and leaves the first
      one's behind. */
  lemma CollidingSums()
    ensures var both := Collector(3, [Desc("b", 2, 0), Desc("c", 3, 0)]);
            && Valid(Three) && AfterUnregister(Three, both).1 == None && !Valid(AfterUnregister(Three, both).0)
  {
    ThreeAreValid();
    TwoAndThree();
    SumOfOne(Desc("a", 5, 0));
    CollisionBreaks(Three, Collector(3, [Desc("b", 2, 0), Desc("c", 3, 0)]), 2);
  }

  lemma CollisionBreaks(core: Core, c: Collector, x: nat)
    requires Valid(core) && Sum(c.descs) in core.collectors
    requires x in core.ids && x in IdSet(c.descs) && x !in IdSet(core.collectors[Sum(c.descs)].descs)
    ensures AfterUnregister(core, c).1 == None && !Valid(AfterUnregister(core, c).0)
  {
    UnregisterKeepsIff(core, c);
  }

  lemma TwoAndThree()
    ensures var descs := [Desc("b", 2, 0), Desc("c", 3, 0)]; Sum(descs) == 5 && IdSet(descs) == {2, 3}
  {
    var b, c := Desc("b", 2, 0), Desc("c", 3, 0);
    SumOfOne(b);
    SumPush([b], c);
    IdsPush([b], c);
    assert [b] + [c] == [b, c];
  }

  lemma SumOfOne(d: Desc)
    requires d.id < WORD
    ensures Sum([d]) == d.id && IdSet([d]) == {d.id}
  {
    SumPush([], d);
    assert [] + [d] == [d];
    assert [d][0] == d;
  }

  // ----- Runs ---------------------------------------------------------------------------------------------

  datatype Action = DoRegister(c: Collector) | DoUnregister(c: Collector)

  /** Collectors whose identifier sets differ have different sums. */
  ghost predicate NoCollisions(universe: set<Collector>) {
    forall a, b | a in universe && b in universe && IdSet(a.descs) != IdSet(b.descs) :: Sum(a.descs) != Sum(b.descs)
  }

  /** A call with a collector of the universe, successful or not. */
  function Next(universe: set<Collector>, core: Core, a: Action): Option<Core> {
    if a.c !in universe then None
    else Some(if a.DoRegister? then AfterRegister(core, a.c).0 else AfterUnregister(core, a.c).0)
  }

  function RunFrom(universe: set<Collector>, actions: seq<Action>): Option<Core> {
    Run((core, a) => Next(universe, core, a), Empty, actions)
  }

  ghost predicate From(universe: set<Collector>, core: Core) {
    forall k | k in core.collectors :: core.collectors[k] in universe
  }

  lemma NextKeeps(universe: set<Collector>, core: Core, a: Action)
    requires NoCollisions(universe) && Valid(core) && From(universe, core) && a.c in universe
    ensures Valid(Next(universe, core, a).value) && From(universe, Next(universe, core, a).value)
  {
    if a.DoRegister? {
      RegisterKeeps(core, a.c);
    } else if AfterUnregister(core, a.c).1 == None {
      var stored := core.collectors[Sum(a.c.descs)];
      assert IdSet(stored.descs) == IdSet(a.c.descs);
      assert forall x | x in IdSet(stored.descs) :: x in core.ids;
      assert core.ids * IdSet(a.c.descs) == IdSet(stored.descs);
      UnregisterKeepsIff(core, a.c);
    }
  }

  /** After any run of register and unregister calls without colliding sums the registered
      collectors have disjoint identifier sets, `desc_ids` is their union, and each is
      stored under its own sum. */
  lemma RunsStayValid(universe: set<Collector>, actions: seq<Action>)
    requires NoCollisions(universe) && RunFrom(universe, actions).Some?
    ensures Valid(RunFrom(universe, actions).value)
  {
    forall core, a | Valid(core) && From(universe, core) && Next(universe, core, a).Some?
      ensures Valid(Next(universe, core, a).value) && From(universe, Next(universe, core, a).value)
    {
      NextKeeps(universe, core, a);
    }
    Invariant((core, a) => Next(universe, core, a), Empty, actions, core => Valid(core) && From(universe, core));
  }

  ghost predicate DimsStay(s: Core, t: Core) {
    forall n | n in s.dims :: n in t.dims && t.dims[n] == s.dims[n]
  }

  /** Between any two points of a run, with or without collisions, a name once bound keeps
      its dimension hash. */
  lemma DimHashesNeverChange(universe: set<Collector>, actions: seq<Action>, p: nat)
    requires p <= |actions| && RunFrom(universe, actions).Some?
    ensures RunFrom(universe, actions[..p]).Some?
    ensures DimsStay(RunFrom(universe, actions[..p]).value, RunFrom(universe, actions).value)
  {
    var step := (core, a) => Next(universe, core, a);
    forall core, a | step(core, a).Some? ensures DimsStay(core, step(core, a).value) {
      ScanIff(core, a.c.descs);
    }
    Monotone(step, Empty, actions, p, (s, t) => DimsStay(s, t));
  }

  /** A call that fails leaves the collectors and their identifiers alone; it can only
      have bound names. */
  lemma FailureChangesNothing(core: Core, c: Collector)
    ensures AfterRegister(core, c).1.Some? ==>
              AfterRegister(core, c).0 == core.(dims := AfterRegister(core, c).0.dims) && DimsStay(core, AfterRegister(core, c).0)
    ensures AfterUnregister(core, c).1.Some? ==> AfterUnregister(core, c).0 == core
  {
    ScanIff(core, c.descs);
  }

  /** Unregistering any collector with the same identifiers undoes a registration, except
      for the bound names. */
  lemma UnregisterUndoes(core: Core, c: Collector, same: Collector)
    requires AfterRegister(core, c).1 == None && IdSet(same.descs) == IdSet(c.descs)
    ensures var r := AfterUnregister(AfterRegister(core, c).0, same);
            r.1 == None && r.0 == core.(dims := AfterRegister(core, c).0.dims)
  {
    SumOfSet(c.descs, same.descs);
    RegisterIff(core, c);
    var n := AfterRegister(core, c).0;
    assert n.ids - IdSet(same.descs) == core.ids;
    assert n.collectors - {Sum(c.descs)} == core.collectors;
  }

  // ----- The registry as an object ------------------------------------------------------------------

  class RegistryCore {
    var collectorsById: map<nat, Collector>
    var dimHashesByName: map<string, nat>
    var descIds: set<nat>

    ghost function Value(): Core
      reads this
    {
      Core(collectorsById, dimHashesByName, descIds)
    }

    constructor ()
      ensures Value() == Empty
    {
      collectorsById, dimHashesByName, descIds := map[], map[], {};
    }

    method Contains(c: Collector) returns (found: bool)
      ensures found <==> !(IdSet(c.descs) !! descIds)
    {
      var i := 0;
      while i < |c.descs|
        invariant i <= |c.descs| && forall j | 0 <= j < i :: c.descs[j].id !in descIds
      {
        if c.descs[i].id in descIds {
          assert c.descs[i].id in IdSet(c.descs);
          return true;
        }
        i := i + 1;
      }
      return false;
    }

    /** The new state and the error are those of the specification; by `RegisterIff` it
        succeeds exactly when the collector fits. */
    method Register(c: Collector) returns (e: Option<Error>)
      modifies this
      ensures (Value(), e) == AfterRegister(old(Value()), c)
    {
      var descIdSet: set<nat>, collectorId: nat := {}, 0;
      var i := 0;
      while i < |c.descs|
        invariant i <= |c.descs| && descIdSet == IdSet(c.descs[..i]) && collectorId == Sum(c.descs[..i])
        invariant collectorsById == old(collectorsById) && descIds == old(descIds)
        invariant Scan(old(Value()), c.descs[..i]) == Success(dimHashesByName)
      {
        var desc := c.descs[i];
        ghost var done := c.descs[..i + 1];
        assert done[..|done| - 1] == c.descs[..i];
        IdsFront(done);
        if desc.id in descIds {
          ScanStops(old(Value()), c.descs, i + 1);
          return Some(AlreadyReg);
        }
        if desc.fqName in dimHashesByName && dimHashesByName[desc.fqName] != desc.dimHash {
          ScanStops(old(Value()), c.descs, i + 1);
          return Some(Inconsistent);
        }
        dimHashesByName := dimHashesByName[desc.fqName := desc.dimHash];
        if desc.id in descIdSet {
          ScanStops(old(Value()), c.descs, i + 1);
          return Some(DuplicateDesc);
        }
        descIdSet := descIdSet + {desc.id};
        collectorId := (collectorId + desc.id) % WORD;
        i := i + 1;
      }
      assert c.descs[..i] == c.descs;
      if collectorId in collectorsById { return Some(AlreadyReg); }
      descIds := descIds + descIdSet;
      collectorsById := collectorsById[collectorId := c];
      return None;
    }

    method Unregister(c: Collector) returns (e: Option<Error>)
      modifies this
      ensures (Value(), e) == AfterUnregister(old(Value()), c)
    {
      var idSet: seq<nat>, collectorId: nat := [], 0;
      var i := 0;
      while i < |c.descs|
        invariant i <= |c.descs| && (set x | x in idSet) == IdSet(c.descs[..i])
        invariant collectorId == Sum(c.descs[..i]) && Value() == old(Value())
      {
        ghost var done := c.descs[..i + 1];
        assert done[..|done| - 1] == c.descs[..i];
        IdsFront(done);
        if c.descs[i].id !in idSet {
          idSet := idSet + [c.descs[i].id];
          collectorId := (collectorId + c.descs[i].id) % WORD;
        }
        i := i + 1;
      }
      assert c.descs[..i] == c.descs;
      if collectorId !in collectorsById { return Some(NotRegistered); }
      collectorsById := collectorsById - {collectorId};
      var j := 0;
      while j < |idSet|
        invariant j <= |idSet| && descIds == old(descIds) - set x | x in idSet[..j]
        invariant collectorsById == old(collectorsById) - {collectorId} && dimHashesByName == old(dimHashesByName)
      {
        descIds := descIds - {idSet[j]};
        j := j + 1;
      }
      assert idSet[..j] == idSet;
      assert (set x | x in idSet) == IdSet(c.descs);
      assert descIds == old(descIds) - IdSet(c.descs);
      return None;
    }
  }

  /** A failed scan of the first descriptors is the scan's result. */
  lemma {:induction false} ScanStops(core: Core, descs: seq<Desc>, n: nat)
    requires n <= |descs| && Scan(core, descs[..n]).Failure?
    ensures Scan(core, descs) == Scan(core, descs[..n])
    decreases |descs|
  {
    if n == |descs| {
      assert descs[..n] == descs;
    } else {
      var front := descs[..|descs| - 1];
      assert front[..n] == descs[..n];
      ScanStops(core, front, n);
    }
  }
}
