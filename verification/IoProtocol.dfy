/** The I/O protocol of one request: the executor thread that owns the slab of callbacks
    and the set of remote buffers, the processor that starts at most `concurrency` tasks,
    and the tasks, which answer through one channel and ask for buffers through the same
    channel. */
module IoProtocol {
  import opened Wrappers
  import opened Runs
  import opened Bags

  type Address = nat

  /** What travels with a call: its slab index. `call` numbers the calls in the order in
      which they were issued; the program does not look at it. */
  datatype Token = Token(index: nat, call: nat)

  /** The two kinds of messages to the executor. */
  datatype Item = Result(token: Token, buffers: seq<Address>) | Request(serial: nat)

  /** A spawned task, the buffer requests whose answers it awaits, and the buffers it has
      received. One task can await several answers at a time. */
  datatype Worker = Worker(token: Token, open: set<nat>, buffers: multiset<Address>)

  datatype Processor = Selecting | Holding(token: Token) | Exited

  /** The callback handed to the script, and the call whose result it is called with. */
  datatype Delivery = Delivery(callback: nat, result: nat)

  /** What the executor thread is doing. `Panicked` stands for a failed `expect`, `unwrap`
      or slab removal. */
  datatype Phase =
    | Scripting
    | Sending(token: Token)
    | Waiting
    | Collecting(due: seq<Address>, todo: set<Address>, doomed: set<Address>, orphans: set<Address>)
    | Unwrapping(due: seq<Address>)
    | Gone
    | Panicked

  datatype Limits = Limits(calls: nat, backlog: nat, concurrency: nat)

  datatype State = State(
    limits: Limits, budget: nat, issued: nat, asked: nat, slab: map<nat, nat>, queue: seq<Token>,
    processor: Processor, running: seq<Worker>, permits: nat, results: seq<Item>,
    strong: map<Address, bool>, phase: Phase, log: seq<Delivery>)

  /** `IoWaiter::new`. */
  function Init(limits: Limits): State {
    State(limits, limits.calls, 0, 0, map[], [], Selecting, [], limits.concurrency, [], map[], Scripting, [])
  }

  datatype Action =
    | Issue(index: nat, counts: bool)
    | Send
    | Wait
    | Receive(asker: nat, at: Option<Address>)
    | CheckEntry(entry: Address)
    | RemoveDoomed
    | Unwrap
    | DropWaiter
    | PickTask
    | Spawn
    | Kill
    | AskBuffer(worker: nat)
    | Respond(worker: nat, success: bool, buffers: seq<Address>)
    | Cancel(worker: nat)

  // ----- Handles -------------------------------------------------------------------------

  function WorkerBuffers(w: Worker): multiset<Address> { w.buffers }

  function ItemBuffers(i: Item): multiset<Address> {
    if i.Result? then multiset(i.buffers) else multiset{}
  }

  /** Buffers of a delivered result that the executor has not unwrapped yet. */
  function Due(p: Phase): multiset<Address> {
    if p.Collecting? || p.Unwrapping? then multiset(p.due) else multiset{}
  }

  /** Every `RemoteBuffer` there is; its multiplicity is the entry's weak count. */
  function Handles(s: State): multiset<Address> {
    Gather(WorkerBuffers, s.running) + Gather(ItemBuffers, s.results) + Due(s.phase)
  }

  // ----- Executor ------------------------------------------------------------------------

  /** `issue` up to the blocking send: the slab picks a vacant index. */
  function DoIssue(s: State, index: nat, counts: bool): Option<State> {
    if s.phase != Scripting || index in s.slab then None
    else if counts && s.budget == 0 then Some(s)
    else
      var t := if counts then s.(budget := s.budget - 1) else s;
      Some(t.(slab := s.slab[index := s.issued], issued := s.issued + 1, phase := Sending(Token(index, s.issued))))
  }

  /** The send blocks while the backlog is full and fails once the processor is gone. */
  function DoSend(s: State): Option<State> {
    if !s.phase.Sending? then None
    else if s.processor == Exited then Some(s.(slab := s.slab - {s.phase.token.index}, phase := Scripting))
    else if |s.queue| >= s.limits.backlog then None
    else Some(s.(queue := s.queue + [s.phase.token], phase := Scripting))
  }

  /** `wait` begins; there is nothing to do before the first message. */
  function DoWait(s: State): Option<State> {
    if s.phase == Scripting then Some(s.(phase := Waiting)) else None
  }

  /** Allocation at an address where no live or weakly held entry is; `None` when the
      memory check refuses. */
  function Allocated(s: State, at: Option<Address>): map<Address, bool> {
    if at.Some? then s.strong[at.value := true] else s.strong
  }

  /** Who awaits the answer to a request: position `asker`, or nobody. */
  predicate Awaits(s: State, asker: nat, serial: nat) {
    if asker < |s.running| then serial in s.running[asker].open
    else forall i | 0 <= i < |s.running| :: serial !in s.running[i].open
  }

  /** `wait` takes the next message. Without messages or senders it gives up. */
  function DoReceive(s: State, asker: nat, at: Option<Address>): Option<State> {
    if s.phase != Waiting then None
    else if s.results == [] then
      if s.processor == Exited && s.running == [] then Some(DropAll(s)) else None
    else
      var item, rest := s.results[0], s.results[1..];
      if item.Result? then Some(TakeResult(s, item, rest))
      else if at.Some? && (at.value in s.strong || at.value in Handles(s)) then None
      else if !Awaits(s, asker, item.serial) then None
      else if asker < |s.running| then
        Some(s.(results := rest, strong := Allocated(s, at), running := s.running[asker := Answered(s.running[asker], item.serial, at)]))
      else Some(s.(results := rest, strong := Allocated(s, at)))
  }

  /** The answer reaches its asker, with the buffer if there is one. */
  function Answered(w: Worker, serial: nat, at: Option<Address>): Worker {
    w.(open := w.open - {serial}, buffers := if at.Some? then w.buffers + multiset{at.value} else w.buffers)
  }

  /** `inflight.remove`, then the collection begins. */
  function TakeResult(s: State, item: Item, rest: seq<Item>): State
    requires item.Result?
  {
    if item.token.index !in s.slab then s.(phase := Panicked)
    else
      s.(results := rest, slab := s.slab - {item.token.index},
         log := s.log + [Delivery(s.slab[item.token.index], item.token.call)],
         phase := Collecting(item.buffers, s.strong.Keys, {}, s.strong.Keys - set a <- Handles(s)))
  }

  /** One step of the scan in `gc`. */
  function DoCheckEntry(s: State, entry: Address): Option<State> {
    if !s.phase.Collecting? || entry !in s.phase.todo then None
    else
      Some(s.(phase := s.phase.(
                todo := s.phase.todo - {entry},
                doomed := if Handles(s)[entry] == 0 then s.phase.doomed + {entry} else s.phase.doomed)))
  }

  function DoRemoveDoomed(s: State): Option<State> {
    if s.phase.Collecting? && s.phase.todo == {} then
      Some(s.(strong := s.strong - s.phase.doomed, phase := Unwrapping(s.phase.due)))
    else None
  }

  /** The executor unwraps the next buffer, or has unwrapped all and calls the callback. */
  function DoUnwrap(s: State): Option<State> {
    if !s.phase.Unwrapping? then None
    else if s.phase.due == [] then Some(s.(phase := Scripting))
    else
      var a := s.phase.due[0];
      if a in s.strong && s.strong[a] then Some(s.(strong := s.strong[a := false], phase := Unwrapping(s.phase.due[1..])))
      else Some(s.(phase := Panicked))
  }

  /** The waiter and all it owns are dropped. */
  function DropAll(s: State): State {
    s.(slab := map[], results := [], strong := map[], phase := Gone)
  }

  function DoDropWaiter(s: State): Option<State> {
    if s.phase == Scripting || s.phase.Unwrapping? then Some(DropAll(s)) else None
  }

  // ----- Processor -----------------------------------------------------------------------

  function DoPickTask(s: State): Option<State> {
    if s.processor != Selecting then None
    else if s.queue != [] then Some(s.(queue := s.queue[1..], processor := Holding(s.queue[0])))
    else if s.phase == Gone then Some(s.(processor := Exited))
    else None
  }

  function DoSpawn(s: State): Option<State> {
    if !s.processor.Holding? || s.permits == 0 then None
    else
      Some(s.(processor := Selecting, permits := s.permits - 1,
              running := s.running + [Worker(s.processor.token, {}, multiset{})]))
  }

  /** The scope is dropped: the loop ends, and with it the task channel. */
  function DoKill(s: State): Option<State> {
    if s.processor == Selecting then Some(s.(processor := Exited, queue := [])) else None
  }

  // ----- Tasks ---------------------------------------------------------------------------

  function Sent(s: State, item: Item): seq<Item> {
    if s.phase == Gone then s.results else s.results + [item]
  }

  /** A task asks for one more buffer; with the waiter gone nothing is sent, and the task
      finds the answer's sender dropped. */
  function DoAskBuffer(s: State, i: nat): Option<State> {
    if i >= |s.running| then None
    else if s.phase == Gone then Some(s)
    else
      Some(s.(running := s.running[i := Asking(s.running[i], s.asked)], asked := s.asked + 1,
              results := s.results + [Request(s.asked)]))
  }

  function Asking(w: Worker, serial: nat): Worker {
    w.(open := w.open + {serial})
  }

  /** A task ends: with a result that carries its buffers in some order, all answers being
      there, or with an error, dropping its buffers and the answers it still awaits. */
  function DoRespond(s: State, i: nat, success: bool, buffers: seq<Address>): Option<State> {
    if i >= |s.running| then None
    else
      var w := s.running[i];
      if success && !(w.open == {} && multiset(buffers) == w.buffers) then None
      else
        Some(s.(running := Without(s.running, i), permits := s.permits + 1,
                results := Sent(s, Result(w.token, if success then buffers else []))))
  }

  /** Once the processor is gone a task can be cancelled at any await. */
  function DoCancel(s: State, i: nat): Option<State> {
    if i >= |s.running| || s.processor != Exited then None
    else Some(s.(running := Without(s.running, i), permits := s.permits + 1))
  }

  // ----- Runs ----------------------------------------------------------------------------

  function Next(s: State, a: Action): Option<State> {
    match a
    case Issue(index, counts) => DoIssue(s, index, counts)
    case Send => DoSend(s)
    case Wait => DoWait(s)
    case Receive(asker, at) => DoReceive(s, asker, at)
    case CheckEntry(entry) => DoCheckEntry(s, entry)
    case RemoveDoomed => DoRemoveDoomed(s)
    case Unwrap => DoUnwrap(s)
    case DropWaiter => DoDropWaiter(s)
    case PickTask => DoPickTask(s)
    case Spawn => DoSpawn(s)
    case Kill => DoKill(s)
    case AskBuffer(i) => DoAskBuffer(s, i)
    case Respond(i, success, buffers) => DoRespond(s, i, success, buffers)
    case Cancel(i) => DoCancel(s, i)
  }

  function RunFrom(limits: Limits, actions: seq<Action>): Option<State> {
    Run(Next, Init(limits), actions)
  }
}
