/** No termination call is blocked for ever by the generation lock. */
module GenerationProgress {
  import opened Wrappers
  import opened Runs
  import opened Generations
  import opened GenerationProof

  // ----- Who holds a lock ----------------------------------------------------------------

  /** What the holder `o` of isolate `i`'s lock has to be. */
  ghost predicate HeldBy(s: State, i: nat, o: Owner)
    requires InRange(s)
  {
    match o
    case Thread => i == Live(s) && HoldsLock(s.worker)
    case Caller(c) => c < |s.calls| && InCritical(s.calls[c].progress) && IsolateOf(s, c) == i
  }

  /** The holder of a lock is inside the critical section of that isolate. */
  ghost predicate Held(s: State) {
    && InRange(s)
    && forall i, o | 0 <= i < |s.isolates| && s.isolates[i].lock == Some(o) :: HeldBy(s, i, o)
  }

  ghost predicate Sound(s: State) {
    Inv(s) && Held(s)
  }

  lemma ThreadFrame(s: State, a: Action)
    requires InRange(s) && Next(s, a).Some? && !a.Step?
    ensures var t := Next(s, a).value;
            && InRange(t) && |s.calls| <= |t.calls| && |s.isolates| <= |t.isolates|
            && forall c | 0 <= c < |s.calls| :: t.calls[c] == s.calls[c] && IsolateOf(t, c) == IsolateOf(s, c)
  {
  }

  lemma ThreadLocks(s: State, a: Action, i: nat)
    requires InRange(s) && Next(s, a).Some? && !a.Step? && i < |Next(s, a).value.isolates|
    ensures var t := Next(s, a).value;
            t.isolates[i].lock ==
              if i >= |s.isolates| then None
              else if i == Live(s) && a == LockGeneration then Some(Thread)
              else if i == Live(s) && a == UnlockGeneration then None
              else s.isolates[i].lock
    ensures HoldsLock(Next(s, a).value.worker) <==> a == LockGeneration || (HoldsLock(s.worker) && a != UnlockGeneration)
    ensures |Next(s, a).value.isolates| == |s.isolates| || !HoldsLock(s.worker)
  {
  }

  lemma ThreadHolds(s: State, a: Action)
    requires Held(s) && Next(s, a).Some? && !a.Step?
    ensures Held(Next(s, a).value)
  {
    var t := Next(s, a).value;
    ThreadFrame(s, a);
    forall i, o | 0 <= i < |t.isolates| && t.isolates[i].lock == Some(o) ensures HeldBy(t, i, o) {
      ThreadLocks(s, a, i);
      if i < |s.isolates| && s.isolates[i].lock == Some(o) {
        assert HeldBy(s, i, o);
      }
    }
  }

  lemma CallFrame(s: State, c: nat)
    requires InRange(s) && Next(s, Step(c)).Some?
    ensures var t := Next(s, Step(c)).value;
            && InRange(t) && |s.calls| == |t.calls| && |s.isolates| == |t.isolates| && c < |s.calls| && t.worker == s.worker
            && (forall d | 0 <= d < |s.calls| :: IsolateOf(t, d) == IsolateOf(s, d) && (d != c ==> t.calls[d] == s.calls[d]))
            && (InCritical(s.calls[c].progress) && !s.calls[c].progress.Leaving? ==> InCritical(t.calls[c].progress))
  {
  }

  lemma CallLocks(s: State, c: nat, i: nat)
    requires InRange(s) && Next(s, Step(c)).Some? && c < |s.calls| && i < |s.isolates| == |Next(s, Step(c)).value.isolates|
    ensures var t := Next(s, Step(c)).value;
            t.isolates[i].lock ==
              if i != IsolateOf(s, c) then s.isolates[i].lock
              else if s.calls[c].progress == Entering then Some(Caller(c))
              else if s.calls[c].progress.Leaving? then None
              else s.isolates[i].lock
    ensures s.calls[c].progress == Entering ==> InCritical(Next(s, Step(c)).value.calls[c].progress)
  {
  }

  lemma CallHolds(s: State, c: nat)
    requires Held(s) && Next(s, Step(c)).Some?
    ensures Held(Next(s, Step(c)).value)
  {
    var t := Next(s, Step(c)).value;
    CallFrame(s, c);
    forall i, o | 0 <= i < |t.isolates| && t.isolates[i].lock == Some(o) ensures HeldBy(t, i, o) {
      CallLocks(s, c, i);
      if s.isolates[i].lock == Some(o) {
        assert HeldBy(s, i, o);
      }
    }
  }

  lemma StepIsSound(s: State, a: Action)
    requires Sound(s) && Next(s, a).Some?
    ensures Sound(Next(s, a).value)
  {
    NextKeeps(s, a);
    if a.Step? {
      CallHolds(s, a.call);
    } else {
      ThreadHolds(s, a);
    }
  }

  lemma RunsAreSound(actions: seq<Action>)
    requires RunFrom(actions).Some?
    ensures Sound(RunFrom(actions).value)
  {
    forall s, a | Sound(s) && Next(s, a).Some? ensures Sound(Next(s, a).value) {
      StepIsSound(s, a);
    }
    Invariant(Next, Init, actions, s => Sound(s));
  }

  // ----- The lock is released --------------------------------------------------------------

  /** Steps that need nobody's consent: of calls under way, and of the thread under the lock. */
  predicate Continues(a: Action) {
    a.Step? || a == Bump || a == CancelTermination || a == UnlockGeneration
  }

  /** How many more steps the holder of isolate `i`'s lock takes. */
  function LockRank(s: State, i: nat): nat {
    if i >= |s.isolates| then 0
    else
      match s.isolates[i].lock
      case None => 0
      case Some(Thread) => if s.worker.Bumping? then 3 else if s.worker.Cancelling? then 2 else 1
      case Some(Caller(c)) => if c < |s.calls| then CallRank(s.calls[c].progress) else 1
  }

  function CallRank(p: Progress): nat {
    match p
    case Entering => 5
    case Checking => 4
    case Recording => 3
    case Terminating => 2
    case Leaving(_) => 1
    case Returned => 0
  }

  function LockAction(s: State, i: nat): Action {
    if i >= |s.isolates| then TakeJob
    else
      match s.isolates[i].lock
      case None => TakeJob
      case Some(Thread) => if s.worker.Bumping? then Bump else if s.worker.Cancelling? then CancelTermination else UnlockGeneration
      case Some(Caller(c)) => Step(c)
  }

  /** Call `c` still waits for the lock of isolate `i`. */
  ghost predicate Waits(s: State, i: nat, c: nat) {
    Sound(s) && c < |s.calls| && s.calls[c].progress == Entering && IsolateOf(s, c) == i
  }

  lemma LockAdvances(s: State, i: nat, c: nat)
    requires Waits(s, i, c) && LockRank(s, i) > 0
    ensures var a := LockAction(s, i);
            Continues(a) && Next(s, a).Some? && Waits(Next(s, a).value, i, c) && LockRank(Next(s, a).value, i) < LockRank(s, i)
  {
    var a := LockAction(s, i);
    assert s.isolates[i].lock.Some?;
    HolderSteps(s, i);
    StepIsSound(s, a);
    OthersWait(s, a, c);
  }

  lemma HolderSteps(s: State, i: nat)
    requires Sound(s) && i < |s.isolates| && s.isolates[i].lock.Some?
    ensures var a := LockAction(s, i); Continues(a) && Next(s, a).Some? && LockRank(Next(s, a).value, i) < LockRank(s, i)
  {
  }

  lemma OthersWait(s: State, a: Action, c: nat)
    requires Sound(s) && Next(s, a).Some? && Continues(a) && c < |s.calls| && a != Step(c)
    ensures var t := Next(s, a).value;
            InRange(t) && c < |t.calls| && t.calls[c] == s.calls[c] && IsolateOf(t, c) == IsolateOf(s, c)
  {
    NextKeeps(s, a);
  }

  lemma LockLowers(i: nat, c: nat)
    ensures Lowers(Next, (s: State) => Waits(s, i, c), Continues, (s: State) => LockRank(s, i), (s: State) => LockAction(s, i))
  {
    forall s: State | Waits(s, i, c) && LockRank(s, i) > 0
      ensures Continues(LockAction(s, i)) && Next(s, LockAction(s, i)).Some?
      ensures Waits(Next(s, LockAction(s, i)).value, i, c) && LockRank(Next(s, LockAction(s, i)).value, i) < LockRank(s, i)
    {
      LockAdvances(s, i, c);
    }
  }

  // ----- The call returns ---------------------------------------------------------------------

  /** Call `c` is inside, or finds the lock free, or has returned. */
  ghost predicate Enters(s: State, c: nat) {
    && Sound(s) && c < |s.calls|
    && (s.calls[c].progress == Entering ==> s.isolates[IsolateOf(s, c)].lock == None)
  }

  function OwnRank(s: State, c: nat): nat {
    if c < |s.calls| then CallRank(s.calls[c].progress) else 0
  }

  lemma CallAdvances(s: State, c: nat)
    requires Enters(s, c) && OwnRank(s, c) > 0
    ensures Next(s, Step(c)).Some? && Enters(Next(s, Step(c)).value, c) && OwnRank(Next(s, Step(c)).value, c) < OwnRank(s, c)
  {
    StepIsSound(s, Step(c));
  }

  lemma CallLowers(c: nat)
    ensures Lowers(Next, (s: State) => Enters(s, c), Continues, (s: State) => OwnRank(s, c), (s: State) => Step(c))
  {
    forall s: State | Enters(s, c) && OwnRank(s, c) > 0
      ensures Next(s, Step(c)).Some? && Enters(Next(s, Step(c)).value, c) && OwnRank(Next(s, Step(c)).value, c) < OwnRank(s, c)
    {
      CallAdvances(s, c);
    }
  }

  lemma LockIsFreed(s: State, c: nat) returns (more: seq<Action>)
    requires Sound(s) && c < |s.calls|
    ensures forall j | 0 <= j < |more| :: Continues(more[j])
    ensures Run(Next, s, more).Some? && Enters(Run(Next, s, more).value, c)
  {
    more := [];
    if s.calls[c].progress == Entering {
      var i := IsolateOf(s, c);
      LockLowers(i, c);
      more := RankFalls(Next, s, (s: State) => Waits(s, i, c), Continues, (s: State) => LockRank(s, i), (s: State) => LockAction(s, i));
      NoRankNoLock(Run(Next, s, more).value, i, c);
    }
  }

  lemma NoRankNoLock(s: State, i: nat, c: nat)
    requires Waits(s, i, c) && LockRank(s, i) == 0
    ensures Enters(s, c)
  {
  }

  lemma CallReturnsFrom(s: State, c: nat) returns (more: seq<Action>)
    requires Sound(s) && c < |s.calls|
    ensures forall j | 0 <= j < |more| :: Continues(more[j])
    ensures Run(Next, s, more).Some? && c < |Run(Next, s, more).value.calls| && Run(Next, s, more).value.calls[c].progress == Returned
  {
    var first := LockIsFreed(s, c);
    var t := Run(Next, s, first).value;
    CallLowers(c);
    var rest := RankFalls(Next, t, (s: State) => Enters(s, c), Continues, (s: State) => OwnRank(s, c), (s: State) => Step(c));
    RunAppend(Next, s, first, rest);
    more := first + rest;
  }

  /** From every state of every run any termination call can return: whoever is under the
      lock of its isolate, another call or the isolate thread, leaves it without waiting for
      anything. */
  lemma CallsCanReturn(actions: seq<Action>, c: nat) returns (more: seq<Action>)
    requires RunFrom(actions).Some? && c < |RunFrom(actions).value.calls|
    ensures forall j | 0 <= j < |more| :: Continues(more[j])
    ensures RunFrom(actions + more).Some?
    ensures var t := RunFrom(actions + more).value; c < |t.calls| && t.calls[c].progress == Returned
  {
    RunsAreSound(actions);
    more := CallReturnsFrom(RunFrom(actions).value, c);
    RunAppend(Next, Init, actions, more);
  }
}
