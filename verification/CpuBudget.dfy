/** CPU time: what every run of the executor threads keeps, and what the monitor makes of
    the messages they send. */
module CpuBudget {
  import opened Wrappers
  import opened Runs
  import opened ExecutionTokens

  // ----- Token accounting ----------------------------------------------------------------

  function Held(workers: seq<Worker>): (n: nat)
    ensures n <= |workers|
  {
    if workers == [] then 0
    else Held(workers[..|workers| - 1]) + if workers[|workers| - 1].permit then 1 else 0
  }

  lemma {:induction false} HeldUpdate(workers: seq<Worker>, i: nat, w: Worker)
    requires i < |workers|
    ensures Held(workers[i := w]) + (if workers[i].permit then 1 else 0) == Held(workers) + if w.permit then 1 else 0
    decreases |workers|
  {
    var n := |workers| - 1;
    if i < n {
      HeldUpdate(workers[..n], i, w);
      assert workers[i := w][..n] == workers[..n][i := w];
    } else {
      assert workers[i := w][..n] == workers[..n];
    }
  }

  /** The workers that execute JavaScript. */
  function Executing(workers: seq<Worker>): (n: nat)
  {
    if workers == [] then 0
    else
      var pc := workers[|workers| - 1].pc;
      Executing(workers[..|workers| - 1]) + if pc.Script? || pc.Running? then 1 else 0
  }

  lemma {:induction false} ExecutingHolds(workers: seq<Worker>)
    requires forall i | 0 <= i < |workers| :: WorkerOk(workers[i])
    ensures Executing(workers) <= Held(workers)
    decreases |workers|
  {
    if workers != [] {
      assert WorkerOk(workers[|workers| - 1]);
      ExecutingHolds(workers[..|workers| - 1]);
    }
  }

  // ----- What a worker has told its monitor ------------------------------------------------

  /** The timer is running after these messages. */
  predicate Ticking(ops: seq<Op>) {
    ops != [] && (ops[|ops| - 1] == Start || (ops[|ops| - 1] == Reset && Ticking(ops[..|ops| - 1])))
  }

  /** Start and Stop alternate, beginning with Start; Reset comes only while stopped. */
  predicate Alternates(ops: seq<Op>) {
    ops == [] || (
      && Alternates(ops[..|ops| - 1])
      && (ops[|ops| - 1] == Stop <==> Ticking(ops[..|ops| - 1])))
  }

  /** Program points between taking a token and giving it back. */
  predicate HasPermit(pc: Pc) {
    pc.Prepare? || pc.Script? || pc.Head? || pc.Stopped? || pc.Rested? || pc.Dispatch? || pc.Running? || pc.Blocking? || pc.Resume?
  }

  /** Program points between a Start and the next Stop. */
  predicate Ticks(pc: Pc) {
    pc.Script? || pc.Head? || pc.Running?
  }

  predicate Ended(pc: Pc) {
    pc.Returned? || pc.Gone?
  }

  /** Until `run` returns, the timer runs exactly between a Start and the next Stop. */
  predicate WorkerOk(w: Worker) {
    && w.permit == HasPermit(w.pc)
    && Alternates(w.ops)
    && (!Ended(w.pc) ==> (Ticking(w.ops) <==> Ticks(w.pc)))
  }

  lemma Sends(ops: seq<Op>, op: Op)
    ensures Ticking(ops + [op]) <==> op == Start || (op == Reset && Ticking(ops))
    ensures Alternates(ops + [op]) <==> Alternates(ops) && (op == Stop <==> Ticking(ops))
  {
    assert (ops + [op])[..|ops|] == ops;
  }

  lemma ForwardKeeps(w: Worker)
    requires WorkerOk(w) && Forward(w).Some?
    ensures WorkerOk(Forward(w).value)
  {
    match w.pc
    case Prepare => Sends(w.ops, Start);
    case Head => Sends(w.ops, Stop);
    case Stopped => Sends(w.ops, Reset);
    case Dispatch => Sends(w.ops, Start);
    case Running => Sends(w.ops, Stop);
    case Resume => Sends(w.ops, Start);
    case _ =>
  }

  ghost predicate Inv(s: State) {
    && s.tokens + Held(s.workers) == s.total
    && forall i | 0 <= i < |s.workers| :: WorkerOk(s.workers[i])
  }

  lemma PutKeeps(s: State, i: nat, w: Worker)
    requires Inv(s) && i < |s.workers| && WorkerOk(w) && (w.permit ==> s.workers[i].permit)
    ensures Inv(Put(s, i, w))
  {
    HeldUpdate(s.workers, i, w);
  }

  lemma AcquireKeeps(s: State, i: nat)
    requires Inv(s) && Next(s, Acquire(i)).Some?
    ensures Inv(Next(s, Acquire(i)).value)
  {
    var w := s.workers[i];
    assert WorkerOk(w) && WorkerOk(Acquired(w));
    HeldUpdate(s.workers, i, Acquired(w));
  }

  lemma NextKeeps(s: State, a: Action)
    requires Inv(s) && Next(s, a).Some?
    ensures Inv(Next(s, a).value)
  {
    match a
    case Spawn =>
      assert (s.workers + [Worker(Boot, false, [])])[..|s.workers|] == s.workers;
    case Acquire(i) => AcquireKeeps(s, i);
    case TimeOut(i) => PutKeeps(s, i, Left(s.workers[i]));
    case Go(i) =>
      ForwardKeeps(s.workers[i]);
      PutKeeps(s, i, Forward(s.workers[i]).value);
    case Finish(i) => PutKeeps(s, i, s.workers[i].(pc := Head));
    case CloseTasks(i) => PutKeeps(s, i, Left(s.workers[i]));
    case Fail(i) => PutKeeps(s, i, Left(s.workers[i]));
  }

  lemma RunsKeepInvariant(total: nat, actions: seq<Action>)
    requires RunFrom(total, actions).Some?
    ensures Inv(RunFrom(total, actions).value) && RunFrom(total, actions).value.total == total
  {
    forall s, a | Inv(s) && s.total == total && Next(s, a).Some?
      ensures Inv(Next(s, a).value) && Next(s, a).value.total == total
    {
      NextKeeps(s, a);
    }
    Invariant(Next, Init(total), actions, (s: State) => Inv(s) && s.total == total);
  }

  // ----- Theorems about tokens ----------------------------------------------------------------

  /** Tokens are conserved, and at most `total` workers execute JavaScript at a time. */
  lemma TokensAreConserved(total: nat, actions: seq<Action>)
    requires RunFrom(total, actions).Some?
    ensures var s := RunFrom(total, actions).value;
            s.tokens + Held(s.workers) == total && Executing(s.workers) <= total
  {
    RunsKeepInvariant(total, actions);
    ExecutingHolds(RunFrom(total, actions).value.workers);
  }

  /** Every worker of every run sends alternating Start and Stop messages, resets only
      while stopped, holds a permit exactly between taking and giving back a token, and
      until it returns has its timer running exactly between a Start and the next Stop. */
  lemma WorkersAlternate(total: nat, actions: seq<Action>, i: nat)
    requires RunFrom(total, actions).Some? && i < |RunFrom(total, actions).value.workers|
    ensures var w := RunFrom(total, actions).value.workers[i];
            && Alternates(w.ops) && w.permit == HasPermit(w.pc)
            && (!Ended(w.pc) ==> (Ticking(w.ops) <==> Ticks(w.pc)))
  {
    RunsKeepInvariant(total, actions);
    assert WorkerOk(RunFrom(total, actions).value.workers[i]);
  }

  // ----- A timer without a token ----------------------------------------------------------------

  /** Worker `i` executes JavaScript. */
  predicate InScript(s: State, i: nat) {
    i < |s.workers| && (s.workers[i].pc == Script || s.workers[i].pc == Running)
  }

  /** Worker `i` has returned, its timer was never stopped, and its channel is open. */
  predicate LeftTicking(s: State, i: nat) {
    i < |s.workers| && s.workers[i].pc == Returned && Ticking(s.workers[i].ops)
  }

  /** Step `j` of the run is an error return of worker `i` out of a script, and the worker
      takes no step after it: its cleanup is still to come. */
  ghost predicate FailsAt(step: (State, Action) -> Option<State>, init: State, actions: seq<Action>, i: nat, j: nat) {
    && j < |actions| && actions[j] == Fail(i)
    && Run(step, init, actions[..j]).Some? && InScript(Run(step, init, actions[..j]).value, i)
    && forall m | j < m < |actions| :: actions[m] != Go(i)
  }

  ghost predicate FailsInScript(step: (State, Action) -> Option<State>, init: State, actions: seq<Action>, i: nat) {
    exists j: nat :: FailsAt(step, init, actions, i, j)
  }

  /** One step leaves a timer running without its worker exactly if it is that error; the
      cleanup of the worker ends it. */
  lemma StepLeavesTicking(s: State, a: Action, i: nat)
    requires Inv(s) && Next(s, a).Some?
    ensures LeftTicking(Next(s, a).value, i) <==> (LeftTicking(s, i) && a != Go(i)) || (a == Fail(i) && InScript(s, i))
  {
    var t := Next(s, a).value;
    if i < |s.workers| {
      assert WorkerOk(s.workers[i]);
      assert t.workers[i] == s.workers[i] || !a.Spawn?;
    }
  }

  lemma {:induction false} RunLeavesTicking(
    step: (State, Action) -> Option<State>, init: State, actions: seq<Action>, i: nat)
    requires Inv(init) && init.workers == [] && Run(step, init, actions).Some?
    requires forall s, a | Inv(s) && step(s, a).Some? :: Inv(step(s, a).value)
    requires forall s, a | Inv(s) && step(s, a).Some? ::
      LeftTicking(step(s, a).value, i) <==> (LeftTicking(s, i) && a != Go(i)) || (a == Fail(i) && InScript(s, i))
    ensures LeftTicking(Run(step, init, actions).value, i) <==> FailsInScript(step, init, actions, i)
    decreases |actions|
  {
    if actions != [] {
      var n := |actions| - 1;
      var front := actions[..n];
      RunLeavesTicking(step, init, front, i);
      Invariant(step, init, front, s => Inv(s));
      FailsSplit(step, init, actions, i);
    }
  }

  lemma FailsSplit(step: (State, Action) -> Option<State>, init: State, actions: seq<Action>, i: nat)
    requires actions != [] && Run(step, init, actions[..|actions| - 1]).Some?
    ensures var n := |actions| - 1;
            FailsInScript(step, init, actions, i) <==>
            || (FailsInScript(step, init, actions[..n], i) && actions[n] != Go(i))
            || (actions[n] == Fail(i) && InScript(Run(step, init, actions[..n]).value, i))
  {
    var n := |actions| - 1;
    var front := actions[..n];
    if FailsInScript(step, init, actions, i) {
      var j: nat :| FailsAt(step, init, actions, i, j);
      FailsAtFront(step, init, actions, i, j);
    }
    if FailsInScript(step, init, front, i) {
      var j: nat :| FailsAt(step, init, front, i, j);
      FailsAtFront(step, init, actions, i, j);
    }
    FailsAtFront(step, init, actions, i, n);
  }

  lemma FailsAtFront(step: (State, Action) -> Option<State>, init: State, actions: seq<Action>, i: nat, j: nat)
    requires actions != [] && Run(step, init, actions[..|actions| - 1]).Some?
    ensures var n := |actions| - 1;
            var front := actions[..n];
            FailsAt(step, init, actions, i, j) <==>
            || (FailsAt(step, init, front, i, j) && actions[n] != Go(i))
            || (j == n && actions[n] == Fail(i) && InScript(Run(step, init, front).value, i))
  {
    var n := |actions| - 1;
    if j < n {
      assert actions[..n][..j] == actions[..j];
    }
  }

  /** A worker's timer runs without a token, and its monitor still meters it, exactly when
      some step of the run was its error return out of a script and its cleanup has not
      come yet: the permit is dropped by the return, the timer is not stopped. */
  lemma TimerNeedsTokenUnless(total: nat, actions: seq<Action>, i: nat)
    requires RunFrom(total, actions).Some? && i < |RunFrom(total, actions).value.workers|
    ensures var w := RunFrom(total, actions).value.workers[i];
            Ticking(w.ops) && !w.permit && w.pc != Gone <==>
            exists j: nat | j < |actions| && actions[j] == Fail(i) && (forall m | j < m < |actions| :: actions[m] != Go(i)) ::
              RunFrom(total, actions[..j]).Some? && InScript(RunFrom(total, actions[..j]).value, i)
  {
    RunsKeepInvariant(total, actions);
    forall s, a | Inv(s) && Next(s, a).Some?
      ensures Inv(Next(s, a).value)
      ensures LeftTicking(Next(s, a).value, i) <==> (LeftTicking(s, i) && a != Go(i)) || (a == Fail(i) && InScript(s, i))
    {
      NextKeeps(s, a);
      StepLeavesTicking(s, a, i);
    }
    RunLeavesTicking(Next, Init(total), actions, i);
    assert forall j: nat :: FailsAt(Next, Init(total), actions, i, j) <==>
        && j < |actions| && actions[j] == Fail(i) && (forall m | j < m < |actions| :: actions[m] != Go(i))
        && RunFrom(total, actions[..j]).Some? && InScript(RunFrom(total, actions[..j]).value, i);
    assert WorkerOk(RunFrom(total, actions).value.workers[i]);
  }

  /** Such a state is reached by a script that throws during initialization. */
  lemma TimerOutlivesToken()
    ensures var actions := [Spawn, Acquire(0), Go(0), Fail(0)];
            && RunFrom(1, actions).Some?
            && var w := RunFrom(1, actions).value.workers[0]; Ticking(w.ops) && !w.permit && w.pc == Returned
  {
    var boot := Worker(Boot, false, []);
    var s0, s1 := Init(1), State(1, 1, [boot]);
    var s2 := State(1, 0, [Acquired(boot)]);
    var s3 := State(1, 0, [Worker(Script, true, [Start])]);
    var s4 := State(1, 1, [Worker(Returned, false, [Start])]);
    assert [] + [boot] == [boot] && [] + [Start] == [Start];
    assert forall v, w: Worker :: [v][0 := w] == [w];
    assert Next(s0, Spawn) == Some(s1) && Next(s1, Acquire(0)) == Some(s2) && Next(s2, Go(0)) == Some(s3);
    assert Next(s3, Fail(0)) == Some(s4);
    Path(Next, [s0, s1, s2, s3, s4], [Spawn, Acquire(0), Go(0), Fail(0)]);
  }

  // ----- The monitor ---------------------------------------------------------------------------

  /** `timectl.budget` and `deadline`, in nanoseconds. */
  datatype Monitor = Monitor(budget: nat, deadline: Option<nat>)

  /** A message and the instant at which the monitor handles it. */
  datatype Event = Event(op: Op, now: nat)

  function Handle(initial: nat, m: Monitor, e: Event): Monitor {
    match e.op
    case Start => m.(deadline := Some(e.now + m.budget))
    case Stop =>
      if m.deadline.Some? then
        Monitor(if e.now > m.deadline.value then 0 else m.deadline.value - e.now, None)
      else m
    case Reset => m.(budget := initial)
  }

  function Watch(initial: nat, events: seq<Event>): Monitor {
    if events == [] then Monitor(initial, None)
    else Handle(initial, Watch(initial, events[..|events| - 1]), events[|events| - 1])
  }

  /** The kill branch of the select is ready. */
  predicate CanKill(m: Monitor, now: nat) {
    m.deadline.Some? && m.deadline.value <= now
  }

  // ----- Running time, measured directly ---------------------------------------------------------

  function Ops(events: seq<Event>): (ops: seq<Op>)
    ensures |ops| == |events| && forall i | 0 <= i < |ops| :: ops[i] == events[i].op
  {
    seq(|events|, i requires 0 <= i < |events| => events[i].op)
  }

  ghost predicate Ordered(events: seq<Event>) {
    forall i, j | 0 <= i < j < |events| :: events[i].now <= events[j].now
  }

  /** When the current stretch began, if the timer is running. */
  function Since(events: seq<Event>): Option<nat> {
    if events == [] then None
    else
      var e := events[|events| - 1];
      match e.op
      case Start => Some(e.now)
      case Stop => None
      case Reset => Since(events[..|events| - 1])
  }

  /** Total length of the finished stretches since the last Reset. */
  function Ran(events: seq<Event>): int {
    if events == [] then 0
    else
      var front, e := events[..|events| - 1], events[|events| - 1];
      match e.op
      case Start => Ran(front)
      case Stop => Ran(front) + if Since(front).Some? then e.now - Since(front).value else 0
      case Reset => 0
  }

  /** Running time up to `now`. */
  function RunningTime(events: seq<Event>, now: nat): int {
    Ran(events) + if Since(events).Some? then now - Since(events).value else 0
  }

  /** A messages prefix, seen by the monitor at any non-decreasing instants. */
  ghost predicate Timeline(events: seq<Event>) {
    Alternates(Ops(events)) && Ordered(events)
  }

  lemma TimelineFront(events: seq<Event>)
    requires Timeline(events) && events != []
    ensures Timeline(events[..|events| - 1])
    ensures events[|events| - 1].op == Stop <==> Ticking(Ops(events[..|events| - 1]))
  {
    var front := events[..|events| - 1];
    assert Ops(events)[..|events| - 1] == Ops(front);
  }

  /** The monitor's two variables, in terms of the running time alone. */
  lemma {:induction false} MonitorMeasures(initial: nat, events: seq<Event>)
    requires Timeline(events)
    ensures var m := Watch(initial, events);
            && Ran(events) >= 0
            && m.budget == (if Ran(events) <= initial then initial - Ran(events) else 0)
            && (Ticking(Ops(events)) <==> Since(events).Some?)
            && m.deadline == (if Since(events).Some? then Some(Since(events).value + m.budget) else None)
            && (Since(events).Some? ==> events != [] && Since(events).value <= events[|events| - 1].now)
    decreases |events|
  {
    if events != [] {
      var front := events[..|events| - 1];
      TimelineFront(events);
      MonitorMeasures(initial, front);
      assert Ops(events)[..|events| - 1] == Ops(front);
      if front != [] {
        assert events[|front| - 1].now <= events[|front|].now;
      }
    }
  }

  /** After every Stop the budget is what is left of the initial budget; while the script
      runs the kill branch is ready exactly when the running time since the last Reset has
      reached the initial budget; while it does not run it never is. */
  lemma BudgetIsRunningTime(initial: nat, events: seq<Event>, now: nat)
    requires Timeline(events) && (events != [] ==> events[|events| - 1].now <= now)
    ensures var m := Watch(initial, events);
            && (events != [] && events[|events| - 1].op == Stop ==>
                  m.budget == if RunningTime(events, now) <= initial then initial - RunningTime(events, now) else 0)
            && (CanKill(m, now) <==> Ticking(Ops(events)) && RunningTime(events, now) >= initial)
  {
    MonitorMeasures(initial, events);
  }

  /** The same for what the workers of any run have sent: whatever part of it the monitor
      has handled, at whatever instants, the budget is exact. */
  lemma WorkersAreMetered(total: nat, actions: seq<Action>, i: nat, initial: nat, events: seq<Event>, now: nat)
    requires RunFrom(total, actions).Some? && i < |RunFrom(total, actions).value.workers|
    requires Ops(events) <= RunFrom(total, actions).value.workers[i].ops
    requires Ordered(events) && (events != [] ==> events[|events| - 1].now <= now)
    ensures var m := Watch(initial, events);
            && (events != [] && events[|events| - 1].op == Stop ==>
                  m.budget == if RunningTime(events, now) <= initial then initial - RunningTime(events, now) else 0)
            && (CanKill(m, now) <==> Ticking(Ops(events)) && RunningTime(events, now) >= initial)
  {
    RunsKeepInvariant(total, actions);
    var w := RunFrom(total, actions).value.workers[i];
    assert WorkerOk(w);
    AlternatesPrefix(w.ops, |events|);
    assert w.ops[..|events|] == Ops(events);
    BudgetIsRunningTime(initial, events, now);
  }

  lemma {:induction false} AlternatesPrefix(ops: seq<Op>, n: nat)
    requires Alternates(ops) && n <= |ops|
    ensures Alternates(ops[..n])
    decreases |ops|
  {
    if n < |ops| {
      AlternatesPrefix(ops[..|ops| - 1], n);
      assert ops[..|ops| - 1][..n] == ops[..n];
    } else {
      assert ops[..n] == ops;
    }
  }

  /** A message and the instant at which the worker sent it. */
  datatype Message = Message(op: Op, sent: nat)

  function Later(a: nat, b: nat): (c: nat)
    ensures c >= a && c >= b && (c == a || c == b)
  {
    if a < b then b else a
  }

  /** When the monitor came back to the select. */
  function Last(events: seq<Event>): nat {
    if events == [] then 0 else events[|events| - 1].now
  }

  /** A message that is handled as `e` after `before`: not before it was sent, and not sent
      after the timer branch alone was ready. */
  predicate InTime(initial: nat, before: seq<Event>, e: Event, message: Message) {
    && e.op == message.op && message.sent <= e.now && Last(before) <= e.now
    && var d := Watch(initial, before).deadline;
       d.Some? ==> message.sent <= Later(d.value, Last(before))
  }

  /** The messages were handled in order, all of them in time. */
  predicate Handles(initial: nat, events: seq<Event>, messages: seq<Message>) {
    && |events| <= |messages|
    && forall i | 0 <= i < |events| :: InTime(initial, events[..i], events[i], messages[i])
  }

  lemma HandlesOneMore(initial: nat, events: seq<Event>, messages: seq<Message>, e: Event)
    requires Handles(initial, events, messages) && |events| < |messages|
    requires InTime(initial, events, e, messages[|events|])
    ensures Handles(initial, events + [e], messages)
  {
    var more := events + [e];
    assert more[..|events|] == events;
    forall i | 0 <= i < |events| ensures InTime(initial, more[..i], more[i], messages[i]) {
      assert more[..i] == events[..i];
    }
  }

  lemma HandlesFront(initial: nat, events: seq<Event>, messages: seq<Message>)
    requires Handles(initial, events, messages) && events != []
    ensures Handles(initial, events[..|events| - 1], messages)
    ensures Last(events[..|events| - 1]) <= Last(events)
  {
    var front := events[..|events| - 1];
    forall i | 0 <= i < |front| ensures InTime(initial, front[..i], front[i], messages[i]) {
      assert front[..i] == events[..i];
    }
    assert InTime(initial, events[..|front|], events[|front|], messages[|front|]);
  }

  lemma {:induction false} HandledInOrder(initial: nat, events: seq<Event>, messages: seq<Message>)
    requires Handles(initial, events, messages)
    ensures Ordered(events)
    decreases |events|
  {
    if events != [] {
      HandlesFront(initial, events, messages);
      HandledInOrder(initial, events[..|events| - 1], messages);
      OrderedPush(events);
    }
  }

  lemma OrderedPush(events: seq<Event>)
    requires events != [] && Ordered(events[..|events| - 1]) && Last(events[..|events| - 1]) <= Last(events)
    ensures Ordered(events)
  {
    var front := events[..|events| - 1];
    forall i | 0 <= i < |front| ensures events[i].now <= Last(events) {
      assert front[i].now <= Last(front);
    }
  }

  /** The loop of `monitor_task`, on messages sent at given instants, the channel being open
      until after `late`. As long as only one branch of the select is ready, it is taken at
      once. When the timer and a waiting message are ready together, either is taken, at any
      later instant. */
  method MonitorTask(initial: nat, messages: seq<Message>, late: nat)
    returns (killed: bool, events: seq<Event>, at: nat, m: Monitor)
    requires forall i | 0 <= i < |messages| :: messages[i].sent <= late
    ensures Handles(initial, events, messages) && m == Watch(initial, events) && Last(events) <= late
    ensures killed ==> CanKill(m, at) && Last(events) <= at <= late
    ensures killed ==> at == Later(m.deadline.value, Last(events)) || (|events| < |messages| && messages[|events|].sent <= at)
    ensures !killed ==> |events| == |messages| && !CanKill(m, late)
  {
    var deadline: Option<nat>, budget: nat := None, initial;
    var now := 0;
    events, at := [], 0;
    while |events| < |messages|
      invariant Handles(initial, events, messages) && Watch(initial, events) == Monitor(budget, deadline)
      invariant now == Last(events) <= late
      decreases |messages| - |events|
    {
      var next := messages[|events|];
      if deadline.Some? && Later(deadline.value, now) < next.sent {
        return true, events, Later(deadline.value, now), Monitor(budget, deadline);
      }
      var polled :| Later(now, next.sent) <= polled <= late;
      var timer: bool := *;
      if timer && deadline.Some? && deadline.value <= polled {
        return true, events, polled, Monitor(budget, deadline);
      }
      HandlesOneMore(initial, events, messages, Event(next.op, polled));
      WatchPush(initial, events, Event(next.op, polled));
      deadline, budget := OnMessage(deadline, budget, initial, Event(next.op, polled));
      events := events + [Event(next.op, polled)];
      now := polled;
    }
    m := Monitor(budget, deadline);
    killed := deadline.Some? && deadline.value <= late;
    if killed {
      at := Later(deadline.value, now);
    }
  }

  method OnMessage(deadline: Option<nat>, budget: nat, initial: nat, e: Event) returns (d: Option<nat>, b: nat)
    ensures Monitor(b, d) == Handle(initial, Monitor(budget, deadline), e)
  {
    d, b := deadline, budget;
    match e.op
    case Start =>
      d := Some(e.now + budget);
    case Stop =>
      if deadline.Some? {
        b := if e.now > deadline.value then 0 else deadline.value - e.now;
      }
      d := None;
    case Reset =>
      b := initial;
  }

  /** Of what a worker sends, no message sent strictly after the deadline is ever handled. */
  lemma NothingAfterTheDeadline(initial: nat, events: seq<Event>, messages: seq<Message>, i: nat)
    requires Handles(initial, events, messages) && i < |events| && Alternates(Ops(events))
    ensures var d := Watch(initial, events[..i]).deadline; d.Some? ==> messages[i].sent <= d.value
  {
    HandledInOrder(initial, events, messages);
    PrefixIsTimeline(events, i);
    assert InTime(initial, events[..i], events[i], messages[i]);
    if Watch(initial, events[..i]).deadline.Some? {
      DeadlineIsAhead(initial, events[..i]);
    }
  }

  /** While the timer runs the last message handled was its Start. */
  lemma DeadlineIsAhead(initial: nat, events: seq<Event>)
    requires Timeline(events) && Watch(initial, events).deadline.Some?
    ensures Last(events) <= Watch(initial, events).deadline.value
  {
    MonitorMeasures(initial, events);
    TimelineFront(events);
    MonitorMeasures(initial, events[..|events| - 1]);
  }

  /** Whenever the kill branch can be taken, the script has used up its budget by then, and
      conversely; so the monitor kills no script before that, and once it has watched to
      `late` without killing, the running script still has some of its budget. */
  lemma KilledWhenSpent(initial: nat, events: seq<Event>, handled: nat, at: nat)
    requires Timeline(events) && handled <= |events| && (handled > 0 ==> events[handled - 1].now <= at)
    ensures CanKill(Watch(initial, events[..handled]), at) <==>
            Ticking(Ops(events[..handled])) && RunningTime(events[..handled], at) >= initial
  {
    PrefixIsTimeline(events, handled);
    BudgetIsRunningTime(initial, events[..handled], at);
  }

  /** A Stop that is handled although the deadline had passed leaves no budget: the kill
      branch is ready again at the very instant of the next Start, unless a Reset comes
      between them. */
  lemma LateStopLeavesNothing(initial: nat, events: seq<Event>, stop: nat, start: nat)
    requires CanKill(Watch(initial, events), stop)
    ensures var stopped := events + [Event(Stop, stop)];
            && Watch(initial, stopped) == Monitor(0, None)
            && CanKill(Watch(initial, stopped + [Event(Start, start)]), start)
            && Watch(initial, stopped + [Event(Reset, start)]) == Monitor(initial, None)
  {
    var stopped := events + [Event(Stop, stop)];
    WatchPush(initial, events, Event(Stop, stop));
    WatchPush(initial, stopped, Event(Start, start));
    WatchPush(initial, stopped, Event(Reset, start));
  }

  lemma WatchPush(initial: nat, events: seq<Event>, e: Event)
    ensures Watch(initial, events + [e]) == Handle(initial, Watch(initial, events), e)
  {
    assert (events + [e])[..|events|] == events;
  }

  lemma PrefixIsTimeline(events: seq<Event>, n: nat)
    requires Timeline(events) && n <= |events|
    ensures Timeline(events[..n])
  {
    AlternatesPrefix(Ops(events), n);
    assert Ops(events)[..n] == Ops(events[..n]);
  }

  // ----- One Reset for each request ---------------------------------------------------------------

  function Resets(ops: seq<Op>): nat {
    if ops == [] then 0 else Resets(ops[..|ops| - 1]) + if ops[|ops| - 1] == Reset then 1 else 0
  }

  /** Worker `i` is done with its script or with a request. */
  predicate Completes(s: State, a: Action, i: nat) {
    i < |s.workers| && (a == Finish(i) || (a == Go(i) && s.workers[i].pc == Script))
  }

  function Completed(step: (State, Action) -> Option<State>, init: State, actions: seq<Action>, i: nat): nat {
    if actions == [] then 0
    else
      var front, a := actions[..|actions| - 1], actions[|actions| - 1];
      match Run(step, init, front)
      case None => 0
      case Some(s) => Completed(step, init, front, i) + if Completes(s, a, i) then 1 else 0
  }

  /** A worker between the end of a request and the Reset. */
  predicate OwesReset(w: Worker) {
    w.pc == Head || w.pc == Stopped
  }

  /** The Resets that a worker has sent or owes. */
  function ResetsOf(w: Worker): nat {
    Resets(w.ops) + if OwesReset(w) then 1 else 0
  }

  function Accounted(s: State, i: nat): nat {
    if i < |s.workers| then ResetsOf(s.workers[i]) else 0
  }

  /** A worker that waits for a request, or is about to dispatch one, has sent a Reset last. */
  predicate Rests(w: Worker) {
    w.pc == Rested || w.pc == WaitTask || w.pc == Woken || w.pc == Dispatch ==> w.ops != [] && w.ops[|w.ops| - 1] == Reset
  }

  ghost predicate AllRest(s: State) {
    forall i | 0 <= i < |s.workers| :: Rests(s.workers[i])
  }

  lemma ResetsPush(ops: seq<Op>, op: Op)
    ensures Resets(ops + [op]) == Resets(ops) + if op == Reset then 1 else 0
  {
    assert (ops + [op])[..|ops|] == ops;
  }

  /** A step of a worker sends at most one message, a Reset only when it owes one. */
  lemma ForwardSends(w: Worker, v: Worker) returns (op: Op)
    requires Forward(w) == Some(v)
    ensures v.ops == w.ops || v.ops == w.ops + [op]
    ensures w.pc == Stopped <==> v.ops == w.ops + [op] && op == Reset
    ensures (w.pc == Script <==> OwesReset(v) && !OwesReset(w)) && (w.pc == Stopped <==> OwesReset(w) && !OwesReset(v))
    ensures w.pc != Stopped ==> v.pc != Rested
    ensures v.pc == WaitTask || v.pc == Woken || v.pc == Dispatch ==> v.ops == w.ops && (w.pc == Rested || w.pc == WaitTask)
  {
    op := if w.pc == Head || w.pc == Running then Stop else if w.pc == Stopped then Reset else Start;
  }

  lemma ForwardResets(w: Worker, v: Worker)
    requires Forward(w) == Some(v)
    ensures ResetsOf(v) == ResetsOf(w) + (if w.pc == Script then 1 else 0) && (Rests(w) ==> Rests(v))
  {
    var op := ForwardSends(w, v);
    ResetsPush(w.ops, op);
  }

  /** One step changes at most one worker, or adds one that has sent nothing. */
  lemma StepChangesOne(s: State, a: Action, i: nat)
    requires Next(s, a).Some? && i < |Next(s, a).value.workers|
    ensures var w := Next(s, a).value.workers[i];
            if i >= |s.workers| then w == Worker(Boot, false, [])
            else
              || w == s.workers[i]
              || (a == Go(i) && Forward(s.workers[i]) == Some(w))
              || (a == Finish(i) && s.workers[i].pc == Running && w == s.workers[i].(pc := Head))
              || (a != Finish(i) && a != Go(i) && w == Left(s.workers[i]) && !OwesReset(s.workers[i]))
              || (a == Acquire(i) && WaitsForToken(s.workers[i].pc) && w == Acquired(s.workers[i]))
    ensures i < |s.workers| && Next(s, a).value.workers[i] == s.workers[i] ==> !Completes(s, a, i)
  {
  }

  lemma StepResets(s: State, a: Action, i: nat)
    requires Next(s, a).Some?
    ensures Accounted(Next(s, a).value, i) == Accounted(s, i) + if Completes(s, a, i) then 1 else 0
    ensures AllRest(s) ==> AllRest(Next(s, a).value)
  {
    var t := Next(s, a).value;
    forall j | 0 <= j < |t.workers|
      ensures Accounted(t, j) == Accounted(s, j) + if Completes(s, a, j) then 1 else 0
      ensures (j < |s.workers| ==> Rests(s.workers[j])) ==> Rests(t.workers[j])
    {
      StepChangesOne(s, a, j);
      if j < |s.workers| && Forward(s.workers[j]).Some? {
        ForwardResets(s.workers[j], Forward(s.workers[j]).value);
      }
    }
  }

  lemma {:induction false} RunResets(
    step: (State, Action) -> Option<State>, init: State, actions: seq<Action>, i: nat)
    requires AllRest(init) && Accounted(init, i) == 0 && Run(step, init, actions).Some?
    requires forall s, a | step(s, a).Some? ::
      && Accounted(step(s, a).value, i) == Accounted(s, i) + (if Completes(s, a, i) then 1 else 0)
      && (AllRest(s) ==> AllRest(step(s, a).value))
    ensures Accounted(Run(step, init, actions).value, i) == Completed(step, init, actions, i)
    ensures AllRest(Run(step, init, actions).value)
    decreases |actions|
  {
    if actions != [] {
      RunResets(step, init, actions[..|actions| - 1], i);
    }
  }

  /** In every run a worker has sent one Reset for its script and one for each request that
      it completed, the last one possibly still to come; and it takes up a request with the
      full budget, whatever ran before and however late its messages are handled. */
  lemma RequestsStartFull(total: nat, actions: seq<Action>, i: nat, initial: nat, events: seq<Event>)
    requires RunFrom(total, actions).Some? && i < |RunFrom(total, actions).value.workers|
    ensures var w := RunFrom(total, actions).value.workers[i];
            && Resets(w.ops) + (if w.pc == Head || w.pc == Stopped then 1 else 0) == Completed(Next, Init(total), actions, i)
            && (w.pc == Dispatch && Ops(events) == w.ops && Ordered(events) ==> Watch(initial, events) == Monitor(initial, None))
  {
    forall s, a | Next(s, a).Some?
      ensures Accounted(Next(s, a).value, i) == Accounted(s, i) + if Completes(s, a, i) then 1 else 0
      ensures AllRest(s) ==> AllRest(Next(s, a).value)
    {
      StepResets(s, a, i);
    }
    RunResets(Next, Init(total), actions, i);
    RunsKeepInvariant(total, actions);
    var w := RunFrom(total, actions).value.workers[i];
    assert WorkerOk(w) && Rests(w);
    if w.pc == Dispatch && Ops(events) == w.ops && Ordered(events) {
      MonitorMeasures(initial, events);
      assert events[|events| - 1].op == Reset;
    }
  }
}
