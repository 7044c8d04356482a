/** What every step of remote termination keeps, and what follows for all runs. */
module GenerationProof {
  import opened Wrappers
  import opened Runs
  import opened Generations

  // ----- Invariants ------------------------------------------------------------------------

  predicate InCritical(p: Progress) {
    p.Checking? || p.Recording? || p.Terminating? || p.Leaving?
  }

  predicate HoldsLock(w: Worker) {
    w.Bumping? || w.Cancelling? || w.Unlocking?
  }

  ghost predicate InRange(s: State) {
    && s.isolates != []
    && (forall h | 0 <= h < |s.handles| :: s.handles[h].isolate < |s.isolates|)
    && (forall c | 0 <= c < |s.calls| :: s.calls[c].handle < |s.handles|)
  }

  function IsolateOf(s: State, c: nat): nat
    requires InRange(s) && c < |s.calls|
  {
    s.handles[s.calls[c].handle].isolate
  }

  /** The lock of an isolate is held by exactly those inside the critical section. */
  ghost predicate Locked(s: State)
    requires InRange(s)
  {
    && (forall c | 0 <= c < |s.calls| :: InCritical(s.calls[c].progress) ==> s.isolates[IsolateOf(s, c)].lock == Some(Caller(c)))
    && (HoldsLock(s.worker) <==> s.isolates[Live(s)].lock == Some(Thread))
  }

  /** Past the check the generation is the handle's own. */
  ghost predicate Checked(s: State)
    requires InRange(s)
  {
    forall c | 0 <= c < |s.calls| ::
      s.calls[c].progress.Recording? || s.calls[c].progress.Terminating?
      ==> s.handles[s.calls[c].handle].generation == s.isolates[IsolateOf(s, c)].generation
  }

  /** The handle of the job that is running, or whose generation is not over yet. */
  function Instance(w: Worker): Option<nat> {
    if w.Running? || w.Finished? then w.instance else None
  }

  /** Before the generation is bumped only the job's own handle carries it; afterwards no
      handle does. */
  ghost predicate Own(s: State)
    requires InRange(s)
  {
    && (forall h | 0 <= h < |s.handles| ::
          && s.handles[h].generation <= s.isolates[s.handles[h].isolate].generation
          && (s.handles[h].isolate == Live(s) && s.handles[h].generation == s.isolates[Live(s)].generation
              ==> s.worker == Bumping || Instance(s.worker) == Some(h)))
    && (Instance(s.worker).Some? ==>
          && Instance(s.worker).value < |s.handles|
          && s.handles[Instance(s.worker).value].isolate == Live(s)
          && s.handles[Instance(s.worker).value].generation == s.isolates[Live(s)].generation)
  }

  /** A set flag was set by the running job's own handle; after the cancellation it is
      clear. */
  ghost predicate Flagged(s: State)
    requires InRange(s)
  {
    s.isolates[Live(s)].flag ==>
      s.worker == Bumping || s.worker == Cancelling || Instance(s.worker) == Some(s.isolates[Live(s)].setter)
  }

  /** A termination that reaches its own generation has set the flag. */
  ghost predicate Hit(s: State)
    requires InRange(s)
  {
    forall c | 0 <= c < |s.calls| ::
      s.calls[c].progress.Leaving? && IsolateOf(s, c) == Live(s)
      && s.handles[s.calls[c].handle].generation == s.isolates[Live(s)].generation
      ==> s.calls[c].progress.hit && s.isolates[Live(s)].flag
  }

  ghost predicate Inv(s: State) {
    InRange(s) && Locked(s) && Checked(s) && Own(s) && Flagged(s) && Hit(s)
  }

  // ----- Steps of the thread -----------------------------------------------------------------

  lemma TakeJobKeeps(s: State)
    requires Inv(s) && OnThread(s, TakeJob).Some?
    ensures Inv(OnThread(s, TakeJob).value)
  {
  }

  lemma MakeInstanceKeeps(s: State)
    requires Inv(s) && OnThread(s, MakeInstance).Some?
    ensures Inv(OnThread(s, MakeInstance).value)
  {
    var n := OnThread(s, MakeInstance).value;
    assert forall c | 0 <= c < |s.calls| :: IsolateOf(n, c) == IsolateOf(s, c);
  }

  lemma RestartKeeps(s: State)
    requires Inv(s) && !HoldsLock(s.worker)
    ensures Inv(Restart(s))
  {
    var n := Restart(s);
    assert forall c | 0 <= c < |s.calls| :: IsolateOf(n, c) == IsolateOf(s, c);
  }

  lemma FinishJobKeeps(s: State, poisoned: bool)
    requires Inv(s) && OnThread(s, FinishJob(poisoned)).Some?
    ensures Inv(OnThread(s, FinishJob(poisoned)).value)
  {
    if poisoned {
      RestartKeeps(s);
    }
  }

  lemma LockKeeps(s: State)
    requires Inv(s) && OnThread(s, LockGeneration).Some?
    ensures Inv(OnThread(s, LockGeneration).value)
  {
    var n := OnThread(s, LockGeneration).value;
    assert forall c | 0 <= c < |s.calls| :: IsolateOf(n, c) == IsolateOf(s, c);
  }

  /** While the thread holds the lock nobody else is past the check. */
  lemma NobodyInside(s: State, c: nat)
    requires Inv(s) && HoldsLock(s.worker) && c < |s.calls| && IsolateOf(s, c) == Live(s)
    ensures !InCritical(s.calls[c].progress)
  {
  }

  lemma BumpKeeps(s: State)
    requires Inv(s) && OnThread(s, Bump).Some?
    ensures Inv(OnThread(s, Bump).value)
  {
    var n := OnThread(s, Bump).value;
    assert forall c | 0 <= c < |s.calls| :: IsolateOf(n, c) == IsolateOf(s, c);
    forall c | 0 <= c < |s.calls| && IsolateOf(s, c) == Live(s) ensures !InCritical(s.calls[c].progress) {
      NobodyInside(s, c);
    }
  }

  lemma CancelKeeps(s: State)
    requires Inv(s) && OnThread(s, CancelTermination).Some?
    ensures Inv(OnThread(s, CancelTermination).value)
  {
    var n := OnThread(s, CancelTermination).value;
    assert forall c | 0 <= c < |s.calls| :: IsolateOf(n, c) == IsolateOf(s, c);
    forall c | 0 <= c < |s.calls| && IsolateOf(s, c) == Live(s) ensures !InCritical(s.calls[c].progress) {
      NobodyInside(s, c);
    }
  }

  lemma UnlockKeeps(s: State)
    requires Inv(s) && OnThread(s, UnlockGeneration).Some?
    ensures Inv(OnThread(s, UnlockGeneration).value)
  {
    var n := OnThread(s, UnlockGeneration).value;
    assert forall c | 0 <= c < |s.calls| :: IsolateOf(n, c) == IsolateOf(s, c);
    forall c | 0 <= c < |s.calls| && IsolateOf(s, c) == Live(s) ensures !InCritical(s.calls[c].progress) {
      NobodyInside(s, c);
    }
  }

  lemma CleanupKeeps(s: State, success: bool)
    requires Inv(s) && OnThread(s, Cleanup(success)).Some?
    ensures Inv(OnThread(s, Cleanup(success)).value)
  {
    if !success {
      RestartKeeps(s);
    }
  }

  // ----- Steps of the calls --------------------------------------------------------------------

  lemma StartCallKeeps(s: State, handle: nat, reason: Option<Reason>)
    requires Inv(s) && Next(s, StartCall(handle, reason)).Some?
    ensures Inv(Next(s, StartCall(handle, reason)).value)
  {
    var n := Next(s, StartCall(handle, reason)).value;
    assert forall c | 0 <= c < |s.calls| :: n.calls[c] == s.calls[c] && IsolateOf(n, c) == IsolateOf(s, c);
  }

  lemma EnteringKeeps(s: State, c: nat)
    requires Inv(s) && OnCall(s, c).Some? && s.calls[c].progress == Entering
    ensures Inv(OnCall(s, c).value)
  {
    var n := OnCall(s, c).value;
    assert forall d | 0 <= d < |s.calls| :: IsolateOf(n, d) == IsolateOf(s, d);
  }

  lemma CheckingKeeps(s: State, c: nat)
    requires Inv(s) && OnCall(s, c).Some? && s.calls[c].progress == Checking
    ensures Inv(OnCall(s, c).value)
  {
    var n := OnCall(s, c).value;
    assert forall d | 0 <= d < |s.calls| :: IsolateOf(n, d) == IsolateOf(s, d);
  }

  lemma RecordingKeeps(s: State, c: nat)
    requires Inv(s) && OnCall(s, c).Some? && s.calls[c].progress == Recording
    ensures Inv(OnCall(s, c).value)
  {
    var n := OnCall(s, c).value;
    assert forall h | 0 <= h < |s.handles| :: n.handles[h] == s.handles[h].(reason := n.handles[h].reason);
    assert forall d | 0 <= d < |s.calls| :: IsolateOf(n, d) == IsolateOf(s, d);
  }

  lemma TerminatingKeeps(s: State, c: nat)
    requires Inv(s) && OnCall(s, c).Some? && s.calls[c].progress == Terminating
    ensures Inv(OnCall(s, c).value)
  {
    var n := OnCall(s, c).value;
    assert forall d | 0 <= d < |s.calls| :: IsolateOf(n, d) == IsolateOf(s, d);
    assert s.isolates[IsolateOf(s, c)].lock == Some(Caller(c));
    assert s.handles[s.calls[c].handle].generation == s.isolates[IsolateOf(s, c)].generation;
  }

  lemma LeavingKeeps(s: State, c: nat)
    requires Inv(s) && OnCall(s, c).Some? && s.calls[c].progress.Leaving?
    ensures Inv(OnCall(s, c).value)
  {
    var n := OnCall(s, c).value;
    assert forall d | 0 <= d < |s.calls| :: IsolateOf(n, d) == IsolateOf(s, d);
    assert s.isolates[IsolateOf(s, c)].lock == Some(Caller(c));
  }

  lemma OnCallKeeps(s: State, c: nat)
    requires Inv(s) && OnCall(s, c).Some?
    ensures Inv(OnCall(s, c).value)
  {
    match s.calls[c].progress
    case Entering => EnteringKeeps(s, c);
    case Checking => CheckingKeeps(s, c);
    case Recording => RecordingKeeps(s, c);
    case Terminating => TerminatingKeeps(s, c);
    case Leaving(_) => LeavingKeeps(s, c);
    case Returned =>
  }

  lemma NextKeeps(s: State, a: Action)
    requires Inv(s) && Next(s, a).Some?
    ensures Inv(Next(s, a).value)
  {
    match a
    case TakeJob => TakeJobKeeps(s);
    case MakeInstance => MakeInstanceKeeps(s);
    case FinishJob(poisoned) => FinishJobKeeps(s, poisoned);
    case LockGeneration => LockKeeps(s);
    case Bump => BumpKeeps(s);
    case CancelTermination => CancelKeeps(s);
    case UnlockGeneration => UnlockKeeps(s);
    case Cleanup(success) => CleanupKeeps(s, success);
    case StartCall(handle, reason) => StartCallKeeps(s, handle, reason);
    case Step(c) => OnCallKeeps(s, c);
  }

  lemma RunsKeepInvariant(actions: seq<Action>)
    requires RunFrom(actions).Some?
    ensures Inv(RunFrom(actions).value)
  {
    forall s, a | Inv(s) && Next(s, a).Some? ensures Inv(Next(s, a).value) {
      NextKeeps(s, a);
    }
    Invariant(Next, Init, actions, s => Inv(s));
  }

  // ----- Theorems ------------------------------------------------------------------------------

  /** While a job runs, only the handle of that very job can have set the terminate flag,
      and it was created in the current generation: no timeout or drop that belongs to an
      earlier job reaches it, however long it was delayed. */
  lemma OnlyOwnTermination(actions: seq<Action>)
    requires RunFrom(actions).Some? && RunFrom(actions).value.worker.Running?
    ensures var s := RunFrom(actions).value;
            && s.isolates != []
            && var i := s.isolates[Live(s)];
               i.flag ==>
                 && s.worker == Running(Some(i.setter)) && i.setter < |s.handles|
                 && s.handles[i.setter].isolate == Live(s) && s.handles[i.setter].generation == i.generation
  {
    RunsKeepInvariant(actions);
  }

  /** A job starts with the flag clear. */
  lemma JobsStartUnterminated(actions: seq<Action>)
    requires RunFrom(actions).Some? && (RunFrom(actions).value.worker == Ready || RunFrom(actions).value.worker == Running(None))
    ensures var s := RunFrom(actions).value; s.isolates != [] && !s.isolates[Live(s)].flag
  {
    RunsKeepInvariant(actions);
  }

  /** A termination call on the running job's handle is not lost: when it is about to
      return, the flag is set. */
  lemma TerminationTakesEffect(actions: seq<Action>, c: nat)
    requires RunFrom(actions).Some? && RunFrom(actions).value.worker.Running?
    requires var s := RunFrom(actions).value;
             c < |s.calls| && s.calls[c].progress.Leaving? && s.worker.instance == Some(s.calls[c].handle)
    ensures var s := RunFrom(actions).value; s.isolates != [] && s.calls[c].progress.hit && s.isolates[Live(s)].flag
  {
    RunsKeepInvariant(actions);
  }

  /** At most one thread is inside the critical section of an isolate. */
  lemma MutualExclusion(actions: seq<Action>, c: nat, d: nat)
    requires RunFrom(actions).Some?
    requires var s := RunFrom(actions).value;
             && c < |s.calls| && d < |s.calls| && InCritical(s.calls[c].progress) && InCritical(s.calls[d].progress)
    ensures var s := RunFrom(actions).value;
            InRange(s) && (IsolateOf(s, c) == IsolateOf(s, d) ==> c == d)
            && (IsolateOf(s, c) == Live(s) ==> !HoldsLock(s.worker))
  {
    RunsKeepInvariant(actions);
  }

  /** Handles are never forgotten, and a reason once given stays. */
  ghost predicate ReasonsStay(s: State, t: State) {
    && |s.handles| <= |t.handles|
    && forall h | 0 <= h < |s.handles| ::
         && t.handles[h].isolate == s.handles[h].isolate && t.handles[h].generation == s.handles[h].generation
         && (s.handles[h].reason != Unknown ==> t.handles[h].reason == s.handles[h].reason)
  }

  lemma NextKeepsReasons(s: State, a: Action)
    requires Next(s, a).Some?
    ensures ReasonsStay(s, Next(s, a).value)
  {
  }

  /** Between any two points of a run a termination reason changes only away from
      `Unknown`, hence at most once. */
  lemma ReasonChangesOnce(actions: seq<Action>, p: nat)
    requires p <= |actions| && RunFrom(actions).Some?
    ensures RunFrom(actions[..p]).Some?
    ensures ReasonsStay(RunFrom(actions[..p]).value, RunFrom(actions).value)
  {
    forall s, a | Next(s, a).Some? ensures ReasonsStay(s, Next(s, a).value) {
      NextKeepsReasons(s, a);
    }
    Monotone(Next, Init, actions, p, (s, t) => ReasonsStay(s, t));
  }

  // ----- Which reason is recorded -----------------------------------------------------------------

  /** A termination for a reason has been recorded before it takes effect. */
  ghost predicate Justified(s: State) {
    && (forall c | 0 <= c < |s.calls| :: s.calls[c].handle < |s.handles| && s.calls[c].reason != Some(Unknown))
    && forall c | 0 <= c < |s.calls| && s.calls[c].reason.Some? ::
         s.calls[c].progress == Terminating || s.calls[c].progress == Leaving(true)
         ==> s.handles[s.calls[c].handle].reason != Unknown
  }

  lemma StepJustifies(s: State, a: Action)
    requires Justified(s) && Next(s, a).Some?
    ensures Justified(Next(s, a).value)
  {
    NextKeepsReasons(s, a);
    var n := Next(s, a).value;
    if a.Step? {
      assert forall c | 0 <= c < |s.calls| && c != a.call :: n.calls[c] == s.calls[c];
    } else {
      assert forall c | 0 <= c < |s.calls| :: n.calls[c] == s.calls[c];
    }
  }

  lemma RunsJustify(actions: seq<Action>)
    requires RunFrom(actions).Some?
    ensures Justified(RunFrom(actions).value)
  {
    forall s, a | Justified(s) && Next(s, a).Some? ensures Justified(Next(s, a).value) {
      StepJustifies(s, a);
    }
    Invariant(Next, Init, actions, s => Justified(s));
  }

  /** In every run: a call that was given a reason and terminates, or has terminated, finds
      a reason recorded on its handle. */
  lemma TerminationIsJustified(actions: seq<Action>, c: nat)
    requires RunFrom(actions).Some? && c < |RunFrom(actions).value.calls|
    requires var call := RunFrom(actions).value.calls[c];
             call.reason.Some? && (call.progress == Terminating || call.progress == Leaving(true))
    ensures var s := RunFrom(actions).value;
            s.calls[c].handle < |s.handles| && s.handles[s.calls[c].handle].reason != Unknown
  {
    RunsJustify(actions);
  }

  /** From `s` action `a` is the recording step of a call for reason `r` on handle `h`. */
  predicate Records(s: State, a: Action, h: nat, r: Reason) {
    a.Step? && a.call < |s.calls| && s.calls[a.call] == Call(h, Some(r), Recording)
  }

  ghost predicate RecordsAt(actions: seq<Action>, j: nat, h: nat, r: Reason) {
    j < |actions| && RunFrom(actions[..j]).Some? && Records(RunFrom(actions[..j]).value, actions[j], h, r)
  }

  function ReasonOf(s: State, h: nat): Reason {
    if h < |s.handles| then s.handles[h].reason else Unknown
  }

  lemma StepRecords(s: State, a: Action, h: nat)
    requires Justified(s) && Next(s, a).Some?
    ensures var t := Next(s, a).value;
            if ReasonOf(s, h) == Unknown && a.Step? && a.call < |s.calls| && s.calls[a.call].handle == h
               && s.calls[a.call].progress == Recording && s.calls[a.call].reason.Some?
            then Records(s, a, h, ReasonOf(t, h)) && ReasonOf(t, h) != Unknown
            else ReasonOf(t, h) == ReasonOf(s, h)
  {
  }

  lemma RecordsAtFront(actions: seq<Action>, j: nat, h: nat, r: Reason)
    requires j + 1 < |actions|
    ensures RecordsAt(actions, j, h, r) <==> RecordsAt(actions[..|actions| - 1], j, h, r)
  {
    assert actions[..|actions| - 1][..j] == actions[..j];
  }

  /** In every run a handle's reason is that of the first call for a reason that made its
      recording step on it, and `Unknown` exactly when there was none. */
  lemma {:induction false} FirstReasonIsKept(actions: seq<Action>, h: nat)
    requires RunFrom(actions).Some?
    ensures var reason := ReasonOf(RunFrom(actions).value, h);
            && (reason == Unknown <==> forall j: nat, r :: !RecordsAt(actions, j, h, r))
            && forall j: nat, r | RecordsAt(actions, j, h, r) && (forall i: nat, q | i < j :: !RecordsAt(actions, i, h, q)) ::
                 reason == r
    decreases |actions|
  {
    if actions != [] {
      var n := |actions| - 1;
      var front := actions[..n];
      FirstReasonIsKept(front, h);
      RunsJustify(front);
      StepRecords(RunFrom(front).value, actions[n], h);
      forall j: nat, r | j < n ensures RecordsAt(actions, j, h, r) <==> RecordsAt(front, j, h, r) {
        RecordsAtFront(actions, j, h, r);
      }
      forall r ensures RecordsAt(actions, n, h, r) <==> Records(RunFrom(front).value, actions[n], h, r) {
      }
    }
  }

  // ----- Calls are what was asked for ---------------------------------------------------------------

  /** The termination calls that a run started, with the reasons given. */
  function Asked(actions: seq<Action>): seq<(nat, Option<Reason>)> {
    if actions == [] then []
    else
      var a := actions[|actions| - 1];
      Asked(actions[..|actions| - 1]) + if a.StartCall? then [(a.handle, a.reason)] else []
  }

  ghost predicate AsAsked(s: State, asked: seq<(nat, Option<Reason>)>) {
    |s.calls| == |asked| && forall c | 0 <= c < |asked| :: (s.calls[c].handle, s.calls[c].reason) == asked[c]
  }

  lemma StepAsks(s: State, a: Action, asked: seq<(nat, Option<Reason>)>)
    requires Next(s, a).Some? && AsAsked(s, asked)
    ensures AsAsked(Next(s, a).value, asked + if a.StartCall? then [(a.handle, a.reason)] else [])
  {
    assert asked + [] == asked;
  }

  /** The calls of a run are those that were started, in order, on the handle and for the
      reason they were started with. */
  lemma {:induction false} CallsAreAsked(actions: seq<Action>)
    requires RunFrom(actions).Some?
    ensures AsAsked(RunFrom(actions).value, Asked(actions))
    decreases |actions|
  {
    if actions != [] {
      var front := actions[..|actions| - 1];
      CallsAreAsked(front);
      StepAsks(RunFrom(front).value, actions[|actions| - 1], Asked(front));
    }
  }
}
