/** Execution tokens: the executor threads, each of which takes a token, tells its monitor
    when its script starts and stops, and gives the token back. */
module ExecutionTokens {
  import opened Wrappers
  import opened Runs

  datatype Op = Start | Stop | Reset

  /** Where `Instance::run` is; at `Gone` the timer channel is closed. */
  datatype Pc =
    | Boot | Prepare | Script | Head | Stopped | Rested | WaitTask | Woken | Dispatch
    | Running | Blocking | Waiting | Resumable | Resume
    | Returned | Gone

  /** `ops` is all that was ever sent to the monitor. */
  datatype Worker = Worker(pc: Pc, permit: bool, ops: seq<Op>)

  datatype State = State(total: nat, tokens: nat, workers: seq<Worker>)

  function Init(total: nat): State { State(total, total, []) }

  datatype Action = Spawn | Acquire(w: nat) | TimeOut(w: nat) | Go(w: nat) | Finish(w: nat) | CloseTasks(w: nat) | Fail(w: nat)

  predicate WaitsForToken(pc: Pc) {
    pc.Boot? || pc.Woken? || pc.Resumable?
  }

  /** The token has been received. */
  function Acquired(w: Worker): Worker
    requires WaitsForToken(w.pc)
  {
    w.(permit := true, pc := if w.pc == Boot then Prepare else if w.pc == Woken then Dispatch else Resume)
  }

  /** The one next step of the straight-line stretches of `run`. */
  function Forward(w: Worker): Option<Worker> {
    match w.pc
    case Prepare => Some(w.(pc := Script, ops := w.ops + [Start]))
    case Script => Some(w.(pc := Head))
    case Head => Some(w.(pc := Stopped, ops := w.ops + [Stop]))
    case Stopped => Some(w.(pc := Rested, ops := w.ops + [Reset]))
    case Rested => Some(w.(pc := WaitTask, permit := false))
    case WaitTask => Some(w.(pc := Woken))
    case Dispatch => Some(w.(pc := Running, ops := w.ops + [Start]))
    case Running => Some(w.(pc := Blocking, ops := w.ops + [Stop]))
    case Blocking => Some(w.(pc := Waiting, permit := false))
    case Waiting => Some(w.(pc := Resumable))
    case Resume => Some(w.(pc := Running, ops := w.ops + [Start]))
    case Returned => Some(w.(pc := Gone))
    case _ => None
  }

  /** Steps from which `run` can return an error: it holds a token or waits for I/O. */
  predicate CanFail(pc: Pc) {
    pc.Prepare? || pc.Script? || pc.Dispatch? || pc.Running? || pc.Waiting? || pc.Resume?
  }

  /** Returning drops the permit, if one is held. */
  function Left(w: Worker): Worker {
    w.(pc := Returned, permit := false)
  }

  function Put(s: State, i: nat, w: Worker): State
    requires i < |s.workers|
  {
    s.(workers := s.workers[i := w],
       tokens := if s.workers[i].permit && !w.permit then s.tokens + 1 else s.tokens)
  }

  function Next(s: State, a: Action): Option<State> {
    match a
    case Spawn => Some(s.(workers := s.workers + [Worker(Boot, false, [])]))
    case Acquire(i) =>
      if i < |s.workers| && WaitsForToken(s.workers[i].pc) && s.tokens > 0 then
        Some(s.(tokens := s.tokens - 1, workers := s.workers[i := Acquired(s.workers[i])]))
      else None
    case TimeOut(i) =>
      if i < |s.workers| && WaitsForToken(s.workers[i].pc) then Some(Put(s, i, Left(s.workers[i]))) else None
    case Go(i) =>
      if i < |s.workers| && Forward(s.workers[i]).Some? then Some(Put(s, i, Forward(s.workers[i]).value)) else None
    case Finish(i) =>
      if i < |s.workers| && s.workers[i].pc == Running then Some(Put(s, i, s.workers[i].(pc := Head))) else None
    case CloseTasks(i) =>
      if i < |s.workers| && s.workers[i].pc == WaitTask then Some(Put(s, i, Left(s.workers[i]))) else None
    case Fail(i) =>
      if i < |s.workers| && CanFail(s.workers[i].pc) then Some(Put(s, i, Left(s.workers[i]))) else None
  }

  function RunFrom(total: nat, actions: seq<Action>): Option<State> {
    Run(Next, Init(total), actions)
  }

  // ----- The semaphore as an object ----------------------------------------------------------------

  /** A channel that holds as many tokens as there are free permits. */
  class Semaphore {
    var channel: nat
    ghost var held: nat
    ghost const size: nat

    ghost predicate Valid()
      reads this
    {
      channel + held == size
    }

    constructor (n: nat)
      ensures Valid() && size == n && channel == n && held == 0
    {
      channel := 0;
      held := 0;
      size := n;
      new;
      for i := 0 to n
        invariant channel == i && size == n && held == 0
      {
        channel := channel + 1;
      }
    }

    /** Succeeds exactly when a token arrives in time. */
    method AcquireTimeout() returns (permit: bool)
      requires Valid()
      modifies this
      ensures Valid() && permit == (old(channel) > 0)
      ensures held == old(held) + if permit then 1 else 0
    {
      if channel == 0 { return false; }
      channel := channel - 1;
      held := held + 1;
      return true;
    }

    /** Dropping a permit sends its token back. */
    method DropPermit()
      requires Valid() && held > 0
      modifies this
      ensures Valid() && held == old(held) - 1 && channel == old(channel) + 1
    {
      channel := channel + 1;
      held := held - 1;
    }
  }
}
