/** Isolate generations against remote termination: one isolate thread that runs job after
    job, and any number of timeouts and handle drops on other threads that try to terminate
    an instance, each step by step under the generation lock. */
module Generations {
  import opened Wrappers
  import opened Runs

  datatype Reason = Unknown | TimeLimit | CachePolicy

  datatype Owner = Thread | Caller(call: nat)

  /** `setter` is the handle that set the terminate flag. */
  datatype Isolate = Isolate(generation: nat, lock: Option<Owner>, flag: bool, setter: nat)

  /** What `InstanceHandle` keeps: its isolate, the generation in which it was created, and
      the shared termination reason. */
  datatype Handle = Handle(isolate: nat, generation: nat, reason: Reason)

  /** Where a call of `do_remote_termination` is. */
  datatype Progress = Entering | Checking | Recording | Terminating | Leaving(hit: bool) | Returned

  datatype Call = Call(handle: nat, reason: Option<Reason>, progress: Progress)

  /** Where the isolate thread is; `instance` is the handle of the running job, once
      `Instance::new` has made it. */
  datatype Worker = Ready | Running(instance: Option<nat>) | Finished(instance: Option<nat>) | Bumping | Cancelling | Unlocking | Cleaning

  /** Only the last isolate is alive. */
  datatype State = State(isolates: seq<Isolate>, handles: seq<Handle>, calls: seq<Call>, worker: Worker)

  const Fresh := Isolate(0, None, false, 0)

  const Init := State([Fresh], [], [], Ready)

  datatype Action =
    | TakeJob
    | MakeInstance
    | FinishJob(poisoned: bool)
    | LockGeneration
    | Bump
    | CancelTermination
    | UnlockGeneration
    | Cleanup(success: bool)
    | StartCall(handle: nat, reason: Option<Reason>)
    | Step(call: nat)

  function Live(s: State): nat
    requires s.isolates != []
  {
    |s.isolates| - 1
  }

  // ----- The isolate thread ----------------------------------------------------------------

  function Restart(s: State): State {
    s.(isolates := s.isolates + [Fresh], worker := Ready)
  }

  function OnThread(s: State, a: Action): Option<State>
    requires s.isolates != []
  {
    var l := Live(s);
    var i := s.isolates[l];
    match a
    case TakeJob =>
      if s.worker == Ready then Some(s.(worker := Running(None))) else None
    case MakeInstance =>
      if s.worker == Running(None) && i.lock == None then
        Some(s.(worker := Running(Some(|s.handles|)), handles := s.handles + [Handle(l, i.generation, Unknown)]))
      else None
    case FinishJob(poisoned) =>
      if !s.worker.Running? then None
      else if poisoned then Some(Restart(s))
      else Some(s.(worker := Finished(s.worker.instance)))
    case LockGeneration =>
      if s.worker.Finished? && i.lock == None then
        Some(s.(worker := Bumping, isolates := s.isolates[l := i.(lock := Some(Thread))]))
      else None
    case Bump =>
      if s.worker == Bumping then
        Some(s.(worker := Cancelling, isolates := s.isolates[l := i.(generation := i.generation + 1)]))
      else None
    case CancelTermination =>
      if s.worker == Cancelling then
        Some(s.(worker := Unlocking, isolates := s.isolates[l := i.(flag := false)]))
      else None
    case UnlockGeneration =>
      if s.worker == Unlocking then
        Some(s.(worker := Cleaning, isolates := s.isolates[l := i.(lock := None)]))
      else None
    case Cleanup(success) =>
      if s.worker != Cleaning then None
      else if success then Some(s.(worker := Ready))
      else Some(Restart(s))
    case _ => None
  }

  // ----- Remote termination ----------------------------------------------------------------

  /** One step of call `c`; terminating a disposed isolate does nothing. */
  function OnCall(s: State, c: nat): Option<State>
    requires s.isolates != []
  {
    if c >= |s.calls| || s.calls[c].handle >= |s.handles| || s.handles[s.calls[c].handle].isolate >= |s.isolates| then None
    else
      var call := s.calls[c];
      var h := s.handles[call.handle];
      var i := s.isolates[h.isolate];
      match call.progress
      case Entering =>
        if i.lock != None then None
        else
          Some(s.(calls := s.calls[c := call.(progress := Checking)],
                  isolates := s.isolates[h.isolate := i.(lock := Some(Caller(c)))]))
      case Checking =>
        var next :=
          if i.generation != h.generation then Leaving(false)
          else if call.reason.Some? then Recording
          else Terminating;
        Some(s.(calls := s.calls[c := call.(progress := next)]))
      case Recording =>
        var reason := if h.reason == Unknown then call.reason.GetOr(Unknown) else h.reason;
        Some(s.(calls := s.calls[c := call.(progress := Terminating)],
                handles := s.handles[call.handle := h.(reason := reason)]))
      case Terminating =>
        Some(s.(calls := s.calls[c := call.(progress := Leaving(true))],
                isolates := if h.isolate == Live(s) then s.isolates[h.isolate := i.(flag := true, setter := call.handle)]
                            else s.isolates))
      case Leaving(_) =>
        Some(s.(calls := s.calls[c := call.(progress := Returned)],
                isolates := s.isolates[h.isolate := i.(lock := None)]))
      case Returned => None
  }

  function Next(s: State, a: Action): Option<State> {
    if s.isolates == [] then None
    else
      match a
      case StartCall(handle, reason) =>
        if handle < |s.handles| && reason != Some(Unknown) then
          Some(s.(calls := s.calls + [Call(handle, reason, Entering)]))
        else None
      case Step(c) => OnCall(s, c)
      case _ => OnThread(s, a)
  }

  function RunFrom(actions: seq<Action>): Option<State> {
    Run(Next, Init, actions)
  }
}
