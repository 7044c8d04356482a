/** The pool of isolate threads: a semaphore of permits, a stack of idle threads, and any
    number of concurrent calls of `run`, each of which can be cancelled at every await. */
module IsolatePool {
  import opened Wrappers
  import opened Runs

  type Thread = nat

  /** Where a call of `run` is: before its permit, between permit and thread, with a thread
      in its guard, between the two drops, or finished. */
  datatype Runner = Asking | Permitted | Guarding(thread: Thread) | ThreadReturned | PermitReturned(thread: Thread) | Finished | Panicked

  /** `guardFirst` is the drop order: the guard is declared after the permit, so its thread
      goes back before the permit does. */
  datatype State = State(guardFirst: bool, permits: nat, idle: seq<Thread>, runners: seq<Runner>)

  function Init(guardFirst: bool, threads: seq<Thread>): State {
    State(guardFirst, |threads|, threads, [])
  }

  /** `Leave` is normal completion, cancellation while the job is sent or awaited, and
      unwinding after the job was lost: all run the same two drops. */
  datatype Action = Enter | Cancel(r: nat) | TakePermit(r: nat) | PopThread(r: nat) | Leave(r: nat) | FinishLeaving(r: nat)

  function Next(s: State, a: Action): Option<State> {
    match a
    case Enter => Some(s.(runners := s.runners + [Asking]))
    case Cancel(r) =>
      if r < |s.runners| && s.runners[r] == Asking then Some(s.(runners := s.runners[r := Finished])) else None
    case TakePermit(r) =>
      if r < |s.runners| && s.runners[r] == Asking && s.permits > 0 then
        Some(s.(permits := s.permits - 1, runners := s.runners[r := Permitted]))
      else None
    case PopThread(r) =>
      if !(r < |s.runners| && s.runners[r] == Permitted) then None
      else if s.idle == [] then Some(s.(runners := s.runners[r := Panicked]))
      else
        var n := |s.idle| - 1;
        Some(s.(idle := s.idle[..n], runners := s.runners[r := Guarding(s.idle[n])]))
    case Leave(r) =>
      if !(r < |s.runners| && s.runners[r].Guarding?) then None
      else if s.guardFirst then
        Some(s.(idle := s.idle + [s.runners[r].thread], runners := s.runners[r := ThreadReturned]))
      else Some(s.(permits := s.permits + 1, runners := s.runners[r := PermitReturned(s.runners[r].thread)]))
    case FinishLeaving(r) =>
      if r >= |s.runners| then None
      else if s.runners[r] == ThreadReturned then
        Some(s.(permits := s.permits + 1, runners := s.runners[r := Finished]))
      else if s.runners[r].PermitReturned? then
        Some(s.(idle := s.idle + [s.runners[r].thread], runners := s.runners[r := Finished]))
      else None
  }

  function RunFrom(guardFirst: bool, threads: seq<Thread>, actions: seq<Action>): Option<State> {
    Run(Next, Init(guardFirst, threads), actions)
  }
}
