/** Nobody gets stuck: from every state of every run the calls under way can all return. */
module HistogramProgress {
  import opened Wrappers
  import opened Runs
  import opened Buckets
  import opened HistogramProtocol
  import opened HistogramTallies
  import opened HistogramProof
  import opened HistogramTheorems

  // ----- One operation -------------------------------------------------------------------

  /** Steps of calls that are already under way. */
  predicate Continues(a: Action) {
    !a.Reserve? && !a.LockToCollect? && !a.LockToRead?
  }

  /** Accounting holds, and the first `k` of `n` operations have returned. */
  ghost predicate Settled(s: State, n: nat, k: nat) {
    && Accounted(s) && Total(s) < TWO_63 && |s.ops| == n && k <= n
    && forall j | 0 <= j < k :: s.ops[j].counted
  }

  /** How many more steps operation `k` takes when nobody interferes: an exchange whose
      value is no longer current has to load again. */
  function OpRank(s: State, k: nat): nat {
    if !WellFormed(s) || k >= |s.ops| || s.ops[k].counted then 0
    else
      var op := s.ops[k];
      match op.sumAdd
      case Stored => 1
      case Exchange(current) => if current == s.shards[op.shard].sum then 2 else 4
      case Load => 3 + if op.next < |s.bounds| then |s.bounds| - op.next else 0
  }

  /** What operation `k` does next. */
  function OpAction(s: State, k: nat): Action {
    if k >= |s.ops| then ReadWord
    else
      match s.ops[k].sumAdd
      case Stored => AddOpCount(k)
      case Exchange(_) => ExchangeSum(k, false)
      case Load => if s.ops[k].next < |s.bounds| then AddBucket(k) else LoadSum(k)
  }

  lemma OpSteps(s: State, k: nat)
    requires WellFormed(s) && OpsOk(s.bounds, s.ops) && OpRank(s, k) > 0 && !s.ops[k].sumAdd.Load?
    ensures var a := OpAction(s, k); Next(s, a).Some? && OpRank(Next(s, a).value, k) < OpRank(s, k)
  {
    assert OpOk(s.bounds, s.ops[k]);
  }

  lemma OpLoads(s: State, k: nat)
    requires WellFormed(s) && OpsOk(s.bounds, s.ops) && OpRank(s, k) > 0 && s.ops[k].sumAdd.Load?
    ensures var a := OpAction(s, k); Next(s, a).Some? && OpRank(Next(s, a).value, k) < OpRank(s, k)
  {
    assert OpOk(s.bounds, s.ops[k]);
  }

  /** The step of one operation leaves those that have returned alone. */
  lemma OthersStay(s: State, k: nat, j: nat)
    requires Next(s, OpAction(s, k)).Some? && k < |s.ops| && j < |s.ops| && s.ops[j].counted
    ensures var t := Next(s, OpAction(s, k)).value; |t.ops| == |s.ops| && t.ops[j].counted
  {
  }

  lemma StepSettles(s: State, n: nat, k: nat)
    requires Settled(s, n, k) && Next(s, OpAction(s, k)).Some? && k < n
    ensures Settled(Next(s, OpAction(s, k)).value, n, k)
  {
    var a := OpAction(s, k);
    StepExtends(s, a);
    StepKeepsAccounts(s, a);
    forall j | 0 <= j < k ensures Next(s, a).value.ops[j].counted {
      OthersStay(s, k, j);
    }
    OpsStay(s, k);
  }

  lemma OpsStay(s: State, k: nat)
    requires Next(s, OpAction(s, k)).Some? && k < |s.ops|
    ensures |Next(s, OpAction(s, k)).value.ops| == |s.ops| && Continues(OpAction(s, k))
  {
  }

  lemma OpAdvances(s: State, k: nat)
    requires WellFormed(s) && OpsOk(s.bounds, s.ops) && OpRank(s, k) > 0
    ensures var a := OpAction(s, k);
            Continues(a) && Next(s, a).Some? && OpRank(Next(s, a).value, k) < OpRank(s, k)
  {
    if s.ops[k].sumAdd.Load? {
      OpLoads(s, k);
    } else {
      OpSteps(s, k);
    }
    OpsStay(s, k);
  }

  lemma OpLowers(n: nat, k: nat)
    requires k < n
    ensures Lowers(Next, (s: State) => Settled(s, n, k), Continues, (s: State) => OpRank(s, k), (s: State) => OpAction(s, k))
  {
    forall s: State | Settled(s, n, k) && OpRank(s, k) > 0
      ensures Continues(OpAction(s, k)) && Next(s, OpAction(s, k)).Some?
      ensures Settled(Next(s, OpAction(s, k)).value, n, k) && OpRank(Next(s, OpAction(s, k)).value, k) < OpRank(s, k)
    {
      OpAdvances(s, k);
      StepSettles(s, n, k);
    }
  }

  lemma OneMoreSettled(s: State, n: nat, k: nat)
    requires Settled(s, n, k) && k < n && OpRank(s, k) == 0
    ensures Settled(s, n, k + 1)
  {
  }

  lemma OpReturns(s: State, n: nat, k: nat) returns (more: seq<Action>)
    requires Settled(s, n, k) && k < n
    ensures Run(Next, s, more).Some? && Settled(Run(Next, s, more).value, n, k + 1)
    ensures forall i | 0 <= i < |more| :: Continues(more[i])
  {
    OpLowers(n, k);
    more := RankFalls(Next, s, (s: State) => Settled(s, n, k), Continues, (s: State) => OpRank(s, k), (s: State) => OpAction(s, k));
    OneMoreSettled(Run(Next, s, more).value, n, k);
  }

  lemma {:induction false} OpsReturn(s: State, n: nat, k: nat) returns (more: seq<Action>)
    requires Settled(s, n, k)
    ensures Run(Next, s, more).Some? && Settled(Run(Next, s, more).value, n, n)
    ensures forall i | 0 <= i < |more| :: Continues(more[i])
    decreases n - k
  {
    more := [];
    if k < n {
      var first := OpReturns(s, n, k);
      var rest := OpsReturn(Run(Next, s, first).value, n, k + 1);
      RunAppend(Next, s, first, rest);
      more := first + rest;
    }
  }

  // ----- The holder of the lock --------------------------------------------------------------

  /** How many more steps the holder takes once every operation has returned. */
  function HolderRank(s: State): nat {
    var b := |s.bounds|;
    match s.holder
    case Free => 0
    case Reading => 2
    case ReadingSum(_) => 1
    case Collecting(phase, cold, _, _, _, _) =>
      match phase
      case Return => 1
      case AddSum(Load) => 3
      case AddSum(Exchange(current)) => if |s.shards| == 2 && cold < 2 && current == s.shards[1 - cold].sum then 2 else 4
      case AddSum(Stored) => 1
      case AddCount => 5
      case Drain(i) => 6 + if i < b then 2 * (b - i) else 0
      case Merge(i, _) => 5 + if i < b then 2 * (b - i) else 0
      case TakeSum => 7 + 2 * b
      case Spin => 8 + 2 * b
      case Flip => 9 + 2 * b
  }

  /** The float addition of the collector is never left stored: it returns at once. */
  ghost predicate Idle(s: State, n: nat) {
    Settled(s, n, n) && !InPhase(s, AddSum(Stored))
  }

  /** What the holder does next. */
  function HolderAction(s: State): Action {
    match s.holder
    case Free => LockToRead
    case Reading => ReadWord
    case ReadingSum(_) => ReadSum
    case Collecting(phase, _, _, _, _, _) =>
      match phase
      case Return => UnlockCollected
      case AddSum(Load) => LoadHotSum
      case AddSum(_) => ExchangeHotSum(false)
      case AddCount => MergeCount
      case Drain(_) => SwapBucket
      case Merge(_, _) => MergeBucket
      case TakeSum => SwapSum
      case Spin => SpinOnce(false)
      case Flip => FlipBit
  }

  lemma HolderLocks(s: State, n: nat)
    requires Idle(s, n) && HolderRank(s) > 0 && !AfterSpin(s.holder)
    ensures var a := HolderAction(s); Next(s, a).Some? && HolderRank(Next(s, a).value) < HolderRank(s)
  {
    if InPhase(s, Spin) {
      SpinEndsIffColdIsQuiet(s);
    }
  }

  lemma HolderDrains(s: State, n: nat)
    requires Idle(s, n) && AfterSpin(s.holder) && (s.holder.phase == TakeSum || s.holder.phase.Drain? || s.holder.phase.Merge?)
    ensures var a := HolderAction(s); Next(s, a).Some? && HolderRank(Next(s, a).value) < HolderRank(s)
  {
  }

  lemma HolderMerges(s: State, n: nat)
    requires Idle(s, n) && AfterSpin(s.holder) && (s.holder.phase == AddCount || s.holder.phase.AddSum? || s.holder.phase == Return)
    ensures var a := HolderAction(s); Next(s, a).Some? && HolderRank(Next(s, a).value) < HolderRank(s)
  {
  }

  lemma HolderKeepsOps(s: State)
    requires Next(s, HolderAction(s)).Some? && !InPhase(s, AddSum(Stored))
    ensures Next(s, HolderAction(s)).value.ops == s.ops && !InPhase(Next(s, HolderAction(s)).value, AddSum(Stored))
  {
  }

  lemma HolderAdvances(s: State, n: nat)
    requires Idle(s, n) && HolderRank(s) > 0
    ensures var a := HolderAction(s);
            Continues(a) && Next(s, a).Some? && Idle(Next(s, a).value, n) && HolderRank(Next(s, a).value) < HolderRank(s)
  {
    if !AfterSpin(s.holder) {
      HolderLocks(s, n);
    } else if s.holder.phase == TakeSum || s.holder.phase.Drain? || s.holder.phase.Merge? {
      HolderDrains(s, n);
    } else {
      HolderMerges(s, n);
    }
    HolderKeepsOps(s);
    StepExtends(s, HolderAction(s));
    StepKeepsAccounts(s, HolderAction(s));
  }

  lemma HolderLowers(n: nat)
    ensures Lowers(Next, (s: State) => Idle(s, n), Continues, HolderRank, HolderAction)
  {
    forall s: State | Idle(s, n) && HolderRank(s) > 0
      ensures Continues(HolderAction(s)) && Next(s, HolderAction(s)).Some?
      ensures Idle(Next(s, HolderAction(s)).value, n) && HolderRank(Next(s, HolderAction(s)).value) < HolderRank(s)
    {
      HolderAdvances(s, n);
    }
  }

  lemma NothingLeft(s: State, n: nat)
    requires Idle(s, n) && HolderRank(s) == 0
    ensures Quiescent(s)
  {
  }

  lemma HolderReturns(s: State, n: nat) returns (more: seq<Action>)
    requires Idle(s, n)
    ensures Run(Next, s, more).Some? && Quiescent(Run(Next, s, more).value)
    ensures forall i | 0 <= i < |more| :: Continues(more[i])
  {
    HolderLowers(n);
    more := RankFalls(Next, s, (s: State) => Idle(s, n), Continues, HolderRank, HolderAction);
    NothingLeft(Run(Next, s, more).value, n);
  }

  // ----- The theorem ---------------------------------------------------------------------------

  lemma NeverStored(bounds: seq<real>, actions: seq<Action>)
    ensures RunFrom(bounds, actions).Some? ==> !InPhase(RunFrom(bounds, actions).value, AddSum(Stored))
  {
    Invariant(Next, Init(bounds), actions, s => !InPhase(s, AddSum(Stored)));
  }

  lemma OpsLeaveHolder(s: State, more: seq<Action>)
    requires Run(Next, s, more).Some? && !InPhase(s, AddSum(Stored))
    ensures !InPhase(Run(Next, s, more).value, AddSum(Stored))
  {
    Invariant(Next, s, more, s => !InPhase(s, AddSum(Stored)));
  }

  /** From every state of every run below the limit, steps of the calls already under way
      lead to a state in which all have returned: no observer, flusher or collector can be
      stuck, in particular none in the spin loop. */
  lemma CallsCanReturn(bounds: seq<real>, actions: seq<Action>, s: State) returns (more: seq<Action>)
    requires RunFrom(bounds, actions) == Some(s) && Total(s) < TWO_63
    ensures forall i | 0 <= i < |more| :: Continues(more[i])
    ensures RunFrom(bounds, actions + more).Some? && Quiescent(RunFrom(bounds, actions + more).value)
  {
    RunsAreAccounted(bounds, actions);
    NeverStored(bounds, actions);
    var n := |s.ops|;
    var first := OpsReturn(s, n, 0);
    var t := Run(Next, s, first).value;
    OpsLeaveHolder(s, first);
    var rest := HolderReturns(t, n);
    RunAppend(Next, s, first, rest);
    RunAppend(Next, Init(bounds), actions, first + rest);
    more := first + rest;
  }
}
