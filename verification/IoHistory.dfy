/** Whose buffers are whose: a run remembered call by call, and what that says about the
    buffers that reach a callback. */
module IoHistory {
  import opened Wrappers
  import opened Runs
  import opened Bags
  import opened IoProtocol
  import opened IoProof
  import opened IoTheorems

  // ----- What a run did for each call ----------------------------------------------------

  /** Which call's task sent each buffer request, the buffers allocated in answer to the
      requests of each call's task, the calls whose task succeeded, and the first call that
      has not been spawned yet. */
  datatype History = History(askers: map<nat, nat>, given: map<nat, multiset<Address>>, done: set<nat>, next: nat)

  const Nothing := History(map[], map[], {}, 0)

  function GivenTo(h: History, call: nat): multiset<Address> {
    if call in h.given then h.given[call] else multiset{}
  }

  predicate IsRunning(running: seq<Worker>, call: nat) {
    exists i | 0 <= i < |running| :: running[i].token.call == call
  }

  /** Action `a` is about to be taken from `s`. */
  function Remember(h: History, s: State, a: Action): History {
    match a
    case AskBuffer(i) =>
      if i < |s.running| && s.phase != Gone then h.(askers := h.askers[s.asked := s.running[i].token.call]) else h
    case Receive(_, Some(at)) =>
      if s.phase == Waiting && s.results != [] && s.results[0].Request? && s.results[0].serial in h.askers
         && IsRunning(s.running, h.askers[s.results[0].serial])
      then
        var call := h.askers[s.results[0].serial];
        h.(given := h.given[call := GivenTo(h, call) + multiset{at}])
      else h
    case Respond(i, true, _) =>
      if i < |s.running| then h.(done := h.done + {s.running[i].token.call}) else h
    case Spawn =>
      if s.processor.Holding? then h.(next := s.processor.token.call + 1) else h
    case _ => h
  }

  function HistoryOf(limits: Limits, actions: seq<Action>): History {
    if actions == [] then Nothing
    else
      var front := actions[..|actions| - 1];
      match RunFrom(limits, front)
      case None => Nothing
      case Some(s) => Remember(HistoryOf(limits, front), s, actions[|actions| - 1])
  }

  /** What the result of a call has to carry: all that its task was given, or nothing when it
      failed. */
  function Earned(h: History, call: nat): multiset<Address> {
    if call in h.done then GivenTo(h, call) else multiset{}
  }

  // ----- What every step keeps ----------------------------------------------------------------

  /** Calls are queued in the order in which they were issued, behind all that were spawned. */
  ghost predicate InLine(queue: seq<Token>, processor: Processor, phase: Phase, issued: nat, next: nat) {
    && (forall i | 0 <= i < |queue| :: next <= queue[i].call < issued)
    && (forall i, j | 0 <= i < j < |queue| :: queue[i].call < queue[j].call)
    && (processor.Holding? ==>
          next <= processor.token.call < issued && forall i | 0 <= i < |queue| :: processor.token.call < queue[i].call)
    && (phase.Sending? ==>
          && next <= phase.token.call < issued
          && (processor.Holding? ==> processor.token.call < phase.token.call)
          && forall i | 0 <= i < |queue| :: queue[i].call < phase.token.call)
    && next <= issued
  }

  ghost predicate Line(s: State, next: nat) {
    InLine(s.queue, s.processor, s.phase, s.issued, next)
  }

  /** Nothing is remembered of a call that has not been spawned. */
  ghost predicate Bounded(h: History, asked: nat) {
    && (forall r | r in h.askers :: r < asked && h.askers[r] < h.next)
    && (forall c | c in h.given :: c < h.next)
    && (forall c | c in h.done :: c < h.next)
  }

  /** Every task holds what it was given, and no two tasks serve the same call. */
  ghost predicate TasksHold(h: History, running: seq<Worker>) {
    && (forall i | 0 <= i < |running| ::
          && running[i].token.call < h.next && running[i].token.call !in h.done
          && running[i].buffers == GivenTo(h, running[i].token.call))
    && (forall i, j | 0 <= i < j < |running| :: running[i].token.call != running[j].token.call)
  }

  /** A task awaits exactly its own requests that are still in the channel. */
  ghost predicate TasksAwait(h: History, running: seq<Worker>, results: seq<Item>) {
    forall i, r: nat | 0 <= i < |running| ::
      r in running[i].open <==> r in h.askers && h.askers[r] == running[i].token.call && Request(r) in results
  }

  /** Requests are in the channel once each. */
  ghost predicate RequestsApart(h: History, results: seq<Item>) {
    && (forall i | 0 <= i < |results| && results[i].Request? :: results[i].serial in h.askers)
    && (forall i, j | 0 <= i < j < |results| && results[i].Request? :: results[i] != results[j])
  }

  /** A call that was spawned and whose task has ended. */
  ghost predicate Over(h: History, running: seq<Worker>, call: nat) {
    call < h.next && forall i | 0 <= i < |running| :: running[i].token.call != call
  }

  /** Every result in the channel carries what its task has earned. */
  ghost predicate ResultsCarry(h: History, running: seq<Worker>, results: seq<Item>) {
    forall i | 0 <= i < |results| && results[i].Result? ::
      Over(h, running, results[i].token.call) && multiset(results[i].buffers) == Earned(h, results[i].token.call)
  }

  /** Tasks and channel agree with the history. */
  ghost predicate Books(h: History, asked: nat, running: seq<Worker>, results: seq<Item>) {
    && Bounded(h, asked) && TasksHold(h, running) && TasksAwait(h, running, results)
    && RequestsApart(h, results) && ResultsCarry(h, running, results)
  }

  /** The result that was delivered last is unwrapped as a whole. */
  ghost predicate Delivers(h: History, running: seq<Worker>, log: seq<Delivery>, phase: Phase, strong: map<Address, bool>) {
    phase.Collecting? || phase.Unwrapping? ==>
      && log != []
      && var call := log[|log| - 1].result;
         && Over(h, running, call)
         && (phase.Collecting? ==> multiset(phase.due) == Earned(h, call))
         && (phase.Unwrapping? ==> forall a | Earned(h, call)[a] > 0 :: a in phase.due || (a in strong && !strong[a]))
  }

  ghost predicate Remembered(h: History, s: State) {
    s.phase != Gone ==>
      Line(s, h.next) && Books(h, s.asked, s.running, s.results) && Delivers(h, s.running, s.log, s.phase, s.strong)
  }

  // ----- The queue ---------------------------------------------------------------------------------

  /** Steps that leave the queue alone. */
  predicate NotQueueing(a: Action) {
    !a.Issue? && !a.Send? && !a.PickTask? && !a.Kill? && !a.Spawn?
  }

  lemma OthersKeepLine(s: State, a: Action, t: State, next: nat)
    requires Line(s, next) && Next(s, a) == Some(t) && NotQueueing(a)
    ensures Line(t, next)
  {
    assert t.queue == s.queue && t.processor == s.processor && t.issued == s.issued;
    assert t.phase.Sending? ==> t.phase == s.phase;
  }

  lemma QueueKeepsLine(s: State, a: Action, t: State, next: nat)
    requires Line(s, next) && Next(s, a) == Some(t) && !NotQueueing(a) && !a.Spawn?
    ensures Line(t, next)
  {
    if a.Send? && s.processor != Exited {
      assert forall i | 0 <= i < |s.queue| :: t.queue[i] == s.queue[i];
    } else if a.PickTask? && s.queue != [] {
      assert forall i | 0 <= i < |t.queue| :: t.queue[i] == s.queue[i + 1];
    }
  }

  lemma SpawnKeepsLine(s: State, t: State, next: nat)
    requires Line(s, next) && DoSpawn(s) == Some(t)
    ensures Line(t, s.processor.token.call + 1) && s.processor.token.call >= next
  {
  }

  // ----- What is over stays as it is ------------------------------------------------------------------

  /** The history has grown, but not for the call. */
  ghost predicate SameFor(h: History, k: History, call: nat) {
    h.next <= k.next && GivenTo(k, call) == GivenTo(h, call) && (call in k.done <==> call in h.done)
  }

  lemma DeliversStays(h: History, k: History, running: seq<Worker>, after: seq<Worker>, log: seq<Delivery>, phase: Phase, strong: map<Address, bool>)
    requires Delivers(h, running, log, phase, strong)
    requires forall call | Over(h, running, call) :: SameFor(h, k, call) && Over(k, after, call)
    ensures Delivers(k, after, log, phase, strong)
  {
  }

  lemma CarryStays(h: History, k: History, running: seq<Worker>, after: seq<Worker>, results: seq<Item>)
    requires ResultsCarry(h, running, results)
    requires forall call | Over(h, running, call) :: SameFor(h, k, call) && Over(k, after, call)
    ensures ResultsCarry(k, after, results)
  {
  }

  // ----- Messages ------------------------------------------------------------------------------------

  lemma RestOfChannel(h: History, running: seq<Worker>, results: seq<Item>)
    requires RequestsApart(h, results) && ResultsCarry(h, running, results) && results != []
    ensures RequestsApart(h, results[1..]) && ResultsCarry(h, running, results[1..])
    ensures forall r: nat :: Request(r) in results[1..] <==> Request(r) in results && Request(r) != results[0]
  {
    var rest := results[1..];
    assert forall i | 0 <= i < |rest| :: rest[i] == results[i + 1];
    forall r: nat ensures Request(r) in rest <==> Request(r) in results && Request(r) != results[0] {
      if Request(r) in results && Request(r) != results[0] {
        var i :| 0 <= i < |results| && results[i] == Request(r);
        assert rest[i - 1] == Request(r);
      }
      if Request(r) in rest {
        var i :| 0 <= i < |rest| && rest[i] == Request(r);
        assert results[i + 1] == Request(r);
      }
    }
  }

  lemma TakeKeepsBooks(h: History, asked: nat, running: seq<Worker>, results: seq<Item>)
    requires Books(h, asked, running, results) && results != [] && results[0].Result?
    ensures Books(h, asked, running, results[1..])
    ensures Over(h, running, results[0].token.call) && multiset(results[0].buffers) == Earned(h, results[0].token.call)
  {
    RestOfChannel(h, running, results);
  }

  /** The head of the channel is a request: who asked it is who awaits it. */
  lemma AskerAwaits(h: History, asked: nat, running: seq<Worker>, results: seq<Item>, i: nat)
    requires Books(h, asked, running, results) && results != [] && results[0].Request? && i < |running|
    ensures results[0].serial in h.askers
    ensures results[0].serial in running[i].open <==> h.askers[results[0].serial] == running[i].token.call
  {
    assert results[0] == Request(results[0].serial);
  }

  /** The asker is given one more buffer. */
  function Give(h: History, call: nat, at: Option<Address>): History {
    if at.Some? then h.(given := h.given[call := GivenTo(h, call) + multiset{at.value}]) else h
  }

  lemma GiveIsFor(h: History, call: nat, at: Option<Address>)
    ensures forall c | c != call :: SameFor(h, Give(h, call, at), c)
    ensures GivenTo(Give(h, call, at), call) == GivenTo(h, call) + if at.Some? then multiset{at.value} else multiset{}
  {
    assert GivenTo(h, call) + multiset{} == GivenTo(h, call);
  }

  lemma AnswerHolds(h: History, running: seq<Worker>, i: nat, serial: nat, at: Option<Address>)
    requires TasksHold(h, running) && i < |running|
    ensures TasksHold(Give(h, running[i].token.call, at), running[i := Answered(running[i], serial, at)])
  {
    var call := running[i].token.call;
    GiveIsFor(h, call, at);
    assert running[i].buffers + multiset{} == running[i].buffers;
    var after := running[i := Answered(running[i], serial, at)];
    forall j | 0 <= j < |after| ensures after[j].token == running[j].token && (j != i ==> after[j] == running[j] && running[j].token.call != call) {
    }
  }

  lemma AnswerKeepsBooks(h: History, asked: nat, running: seq<Worker>, results: seq<Item>, i: nat, at: Option<Address>)
    requires Books(h, asked, running, results) && results != [] && results[0].Request? && i < |running|
    requires results[0].serial in running[i].open
    ensures Books(Give(h, running[i].token.call, at), asked, running[i := Answered(running[i], results[0].serial, at)], results[1..])
  {
    var r, call := results[0].serial, running[i].token.call;
    var k, after := Give(h, call, at), running[i := Answered(running[i], results[0].serial, at)];
    GiveIsFor(h, call, at);
    AnswerHolds(h, running, i, r, at);
    RestOfChannel(h, running, results);
    CarryStays(h, k, running, after, results[1..]);
    forall j, q: nat | 0 <= j < |after|
      ensures q in after[j].open <==> q in k.askers && k.askers[q] == after[j].token.call && Request(q) in results[1..]
    {
      AskerAwaits(h, asked, running, results, j);
      assert after[j].token == running[j].token;
    }
  }

  lemma StrayKeepsBooks(h: History, asked: nat, running: seq<Worker>, results: seq<Item>)
    requires Books(h, asked, running, results) && results != [] && results[0].Request?
    requires forall i | 0 <= i < |running| :: results[0].serial !in running[i].open
    ensures Books(h, asked, running, results[1..]) && results[0].serial in h.askers
    ensures !IsRunning(running, h.askers[results[0].serial])
  {
    RestOfChannel(h, running, results);
    forall i | 0 <= i < |running| ensures running[i].token.call != h.askers[results[0].serial] {
      AskerAwaits(h, asked, running, results, i);
    }
  }

  // ----- Tasks -----------------------------------------------------------------------------------------

  lemma SpawnKeepsBooks(h: History, asked: nat, running: seq<Worker>, results: seq<Item>, t: Token)
    requires Books(h, asked, running, results) && t.call >= h.next
    ensures Books(h.(next := t.call + 1), asked, running + [Worker(t, {}, multiset{})], results)
    ensures forall call | Over(h, running, call) :: Over(h.(next := t.call + 1), running + [Worker(t, {}, multiset{})], call)
  {
    var k, after := h.(next := t.call + 1), running + [Worker(t, {}, multiset{})];
    assert forall i | 0 <= i < |running| :: after[i] == running[i];
    assert forall call | Over(h, running, call) :: SameFor(h, k, call) && Over(k, after, call);
    CarryStays(h, k, running, after, results);
  }

  lemma RequestPushed(h: History, results: seq<Item>, asked: nat)
    requires RequestsApart(h, results) && forall r | r in h.askers :: r < asked
    ensures forall r: nat :: Request(r) in results + [Request(asked)] <==> Request(r) in results || r == asked
    ensures Request(asked) !in results
  {
    var after := results + [Request(asked)];
    assert forall j | 0 <= j < |results| :: after[j] == results[j];
    assert after[|results|] == Request(asked);
  }

  lemma AskKeepsBooks(h: History, asked: nat, running: seq<Worker>, results: seq<Item>, i: nat, k: History, after: seq<Worker>)
    requires Books(h, asked, running, results) && i < |running|
    requires k == h.(askers := h.askers[asked := running[i].token.call]) && after == running[i := Asking(running[i], asked)]
    ensures TasksHold(k, after) && Bounded(k, asked + 1) && RequestsApart(k, results + [Request(asked)])
    ensures ResultsCarry(k, after, results + [Request(asked)])
  {
    forall j | 0 <= j < |after| ensures after[j].token == running[j].token && after[j].buffers == running[j].buffers {
    }
    assert forall call :: GivenTo(k, call) == GivenTo(h, call);
    CarryStays(h, k, running, after, results);
    RequestPushed(h, results, asked);
    var channel := results + [Request(asked)];
    assert forall j | 0 <= j < |results| :: channel[j] == results[j];
  }

  lemma AskKeepsAwaits(h: History, asked: nat, running: seq<Worker>, results: seq<Item>, i: nat, k: History, after: seq<Worker>)
    requires Books(h, asked, running, results) && i < |running|
    requires k == h.(askers := h.askers[asked := running[i].token.call]) && after == running[i := Asking(running[i], asked)]
    ensures TasksAwait(k, after, results + [Request(asked)])
  {
    RequestPushed(h, results, asked);
    forall j, r: nat | 0 <= j < |after|
      ensures r in after[j].open <==> r in k.askers && k.askers[r] == after[j].token.call && Request(r) in results + [Request(asked)]
    {
      assert after[j].token == running[j].token;
      assert j != i ==> running[j].token.call != running[i].token.call;
      assert r in running[j].open <==> r in h.askers && h.askers[r] == running[j].token.call && Request(r) in results;
    }
  }

  /** One task ends; its call is over, and the others are as they were. */
  lemma WithoutOne(h: History, asked: nat, running: seq<Worker>, results: seq<Item>, i: nat)
    requires Books(h, asked, running, results) && i < |running|
    ensures Books(h, asked, Without(running, i), results) && Over(h, Without(running, i), running[i].token.call)
    ensures forall c | Over(h, running, c) :: Over(h, Without(running, i), c) && c != running[i].token.call
  {
    var rest := Without(running, i);
    forall j | 0 <= j < |rest| ensures rest[j] == running[if j < i then j else j + 1] && rest[j].token.call != running[i].token.call {
    }
    CarryStays(h, h, running, rest, results);
  }

  lemma ResultPushed(h: History, asked: nat, running: seq<Worker>, results: seq<Item>, item: Item)
    requires Books(h, asked, running, results) && item.Result?
    requires Over(h, running, item.token.call) && multiset(item.buffers) == Earned(h, item.token.call)
    ensures Books(h, asked, running, results + [item])
  {
    var after := results + [item];
    assert forall j | 0 <= j < |results| :: after[j] == results[j];
    assert after[|results|] == item;
    forall r: nat ensures Request(r) in after <==> Request(r) in results {
      if Request(r) in results {
        var j :| 0 <= j < |results| && results[j] == Request(r);
        assert after[j] == Request(r);
      }
    }
  }

  /** The call of a task that has just ended has succeeded. */
  lemma DoneKeepsBooks(h: History, asked: nat, running: seq<Worker>, results: seq<Item>, call: nat)
    requires Books(h, asked, running, results) && Over(h, running, call)
    requires forall j | 0 <= j < |results| && results[j].Result? :: results[j].token.call != call
    ensures Books(h.(done := h.done + {call}), asked, running, results)
  {
    var k := h.(done := h.done + {call});
    assert forall c :: GivenTo(k, c) == GivenTo(h, c);
    assert forall c | c != call :: Earned(k, c) == Earned(h, c);
  }

  lemma RespondKeepsBooks(h: History, asked: nat, running: seq<Worker>, results: seq<Item>, i: nat, success: bool, buffers: seq<Address>)
    requires Books(h, asked, running, results) && i < |running| && (success ==> multiset(buffers) == running[i].buffers)
    ensures var k := if success then h.(done := h.done + {running[i].token.call}) else h;
            Books(k, asked, Without(running, i), results + [Result(running[i].token, if success then buffers else [])])
    ensures forall c | Over(h, running, c) :: c != running[i].token.call && Over(h, Without(running, i), c)
  {
    var call, rest := running[i].token.call, Without(running, i);
    WithoutOne(h, asked, running, results, i);
    if success {
      DoneKeepsBooks(h, asked, rest, results, call);
      ResultPushed(h.(done := h.done + {call}), asked, rest, results, Result(running[i].token, buffers));
    } else {
      ResultPushed(h, asked, rest, results, Result(running[i].token, []));
    }
  }

  // ----- Every step ------------------------------------------------------------------------------------------

  lemma GoneStays(s: State, a: Action, t: State)
    requires Next(s, a) == Some(t) && s.phase == Gone
    ensures t.phase == Gone
  {
  }

  lemma ResultDelivers(h: History, s: State, t: State)
    requires s.results != [] && s.results[0].Result? && s.results[0].token.index in s.slab
    requires Books(h, s.asked, s.running, s.results) && t == TakeResult(s, s.results[0], s.results[1..])
    ensures Books(h, t.asked, t.running, t.results) && Delivers(h, t.running, t.log, t.phase, t.strong)
  {
    TakeKeepsBooks(h, s.asked, s.running, s.results);
    assert t.log[|t.log| - 1].result == s.results[0].token.call;
  }

  lemma ResultRemembered(h: History, s: State, t: State)
    requires Remembered(h, s) && s.phase == Waiting && s.results != [] && s.results[0].Result? && s.results[0].token.index in s.slab
    requires t == TakeResult(s, s.results[0], s.results[1..])
    ensures Remembered(h, t)
  {
    OthersKeepLine(s, Receive(0, None), t, h.next);
    ResultDelivers(h, s, t);
  }

  lemma AnswerRemembered(h: History, s: State, asker: nat, at: Option<Address>, t: State)
    requires Remembered(h, s) && s.phase == Waiting && s.results != [] && s.results[0].Request?
    requires DoReceive(s, asker, at) == Some(t) && asker < |s.running|
    ensures Remembered(Remember(h, s, Receive(asker, at)), t)
  {
    OthersKeepLine(s, Receive(asker, at), t, h.next);
    var r, call := s.results[0].serial, s.running[asker].token.call;
    AskerAwaits(h, s.asked, s.running, s.results, asker);
    AnswerKeepsBooks(h, s.asked, s.running, s.results, asker, at);
    assert IsRunning(s.running, call);
    assert Remember(h, s, Receive(asker, at)) == Give(h, call, at);
  }

  lemma StrayRemembered(h: History, s: State, asker: nat, at: Option<Address>, t: State)
    requires Remembered(h, s) && s.phase == Waiting && s.results != [] && s.results[0].Request?
    requires DoReceive(s, asker, at) == Some(t) && asker >= |s.running|
    ensures Remembered(Remember(h, s, Receive(asker, at)), t)
  {
    OthersKeepLine(s, Receive(asker, at), t, h.next);
    StrayKeepsBooks(h, s.asked, s.running, s.results);
    assert Remember(h, s, Receive(asker, at)) == h;
  }

  lemma NothingGiven(h: History, s: State, asker: nat, at: Option<Address>)
    requires s.results != [] && s.results[0].Result?
    ensures Remember(h, s, Receive(asker, at)) == h
  {
  }

  lemma ReceiveRemembered(h: History, s: State, asker: nat, at: Option<Address>, t: State)
    requires Inv(s) && Remembered(h, s) && s.phase != Gone && DoReceive(s, asker, at) == Some(t)
    ensures Remembered(Remember(h, s, Receive(asker, at)), t)
  {
    if s.results != [] {
      if s.results[0].Result? {
        ResultIsOccupied(s);
        ResultRemembered(h, s, t);
        NothingGiven(h, s, asker, at);
      } else if asker < |s.running| {
        AnswerRemembered(h, s, asker, at, t);
      } else {
        StrayRemembered(h, s, asker, at, t);
      }
    }
  }

  lemma SpawnRemembered(h: History, s: State, t: State)
    requires Remembered(h, s) && s.phase != Gone && DoSpawn(s) == Some(t)
    ensures Remembered(Remember(h, s, Spawn), t)
  {
    var k := Remember(h, s, Spawn);
    SpawnKeepsLine(s, t, h.next);
    SpawnKeepsBooks(h, s.asked, s.running, s.results, s.processor.token);
    DeliversStays(h, k, s.running, t.running, s.log, s.phase, s.strong);
  }

  lemma AskRemembered(h: History, s: State, i: nat, t: State)
    requires Remembered(h, s) && s.phase != Gone && DoAskBuffer(s, i) == Some(t)
    ensures Remembered(Remember(h, s, AskBuffer(i)), t)
  {
    var k := Remember(h, s, AskBuffer(i));
    OthersKeepLine(s, AskBuffer(i), t, h.next);
    AskKeepsBooks(h, s.asked, s.running, s.results, i, k, t.running);
    AskKeepsAwaits(h, s.asked, s.running, s.results, i, k, t.running);
    assert forall j | 0 <= j < |s.running| :: t.running[j].token == s.running[j].token;
    DeliversStays(h, k, s.running, t.running, s.log, s.phase, s.strong);
  }

  lemma RespondRemembered(h: History, s: State, i: nat, success: bool, buffers: seq<Address>, t: State)
    requires Remembered(h, s) && s.phase != Gone && DoRespond(s, i, success, buffers) == Some(t)
    ensures Remembered(Remember(h, s, Respond(i, success, buffers)), t)
  {
    var k := Remember(h, s, Respond(i, success, buffers));
    OthersKeepLine(s, Respond(i, success, buffers), t, h.next);
    RespondKeepsBooks(h, s.asked, s.running, s.results, i, success, buffers);
    DeliversStays(h, k, s.running, t.running, s.log, s.phase, s.strong);
  }

  lemma CancelRemembered(h: History, s: State, i: nat, t: State)
    requires Remembered(h, s) && s.phase != Gone && DoCancel(s, i) == Some(t)
    ensures Remembered(h, t)
  {
    OthersKeepLine(s, Cancel(i), t, h.next);
    WithoutOne(h, s.asked, s.running, s.results, i);
    DeliversStays(h, h, s.running, t.running, s.log, s.phase, s.strong);
  }

  lemma RemoveDelivers(h: History, s: State, t: State)
    requires Delivers(h, s.running, s.log, s.phase, s.strong) && DoRemoveDoomed(s) == Some(t)
    ensures Delivers(h, t.running, t.log, t.phase, t.strong)
  {
    var call := s.log[|s.log| - 1].result;
    forall a | Earned(h, call)[a] > 0 ensures a in t.phase.due {
      assert multiset(s.phase.due)[a] > 0;
    }
  }

  lemma UnwrapDelivers(h: History, s: State, t: State)
    requires s.phase.Unwrapping? && DoUnwrap(s) == Some(t) && t.phase.Unwrapping?
    requires Delivers(h, s.running, s.log, s.phase, s.strong)
    ensures Delivers(h, t.running, t.log, t.phase, t.strong)
  {
    assert s.phase.due == [s.phase.due[0]] + t.phase.due;
  }

  /** The executor's own steps. */
  predicate Quiet(a: Action) {
    !a.Receive? && !a.Spawn? && !a.AskBuffer? && !a.Respond? && !a.Cancel?
  }

  lemma CheckDelivers(h: History, s: State, entry: Address, t: State)
    requires Delivers(h, s.running, s.log, s.phase, s.strong) && DoCheckEntry(s, entry) == Some(t)
    ensures Delivers(h, t.running, t.log, t.phase, t.strong)
  {
    assert t.phase.due == s.phase.due;
  }

  lemma OutsideDelivery(h: History, s: State, a: Action, t: State)
    requires Delivers(h, s.running, s.log, s.phase, s.strong) && Next(s, a) == Some(t)
    requires a.Issue? || a.Send? || a.Wait? || a.DropWaiter? || a.PickTask? || a.Kill?
    ensures Delivers(h, t.running, t.log, t.phase, t.strong)
  {
    assert (t.phase == s.phase && t.running == s.running && t.log == s.log && t.strong == s.strong)
        || !(t.phase.Collecting? || t.phase.Unwrapping?);
  }

  lemma QuietDelivers(h: History, s: State, a: Action, t: State)
    requires Delivers(h, s.running, s.log, s.phase, s.strong) && Next(s, a) == Some(t) && Quiet(a)
    ensures Delivers(h, t.running, t.log, t.phase, t.strong)
  {
    match a
    case RemoveDoomed => RemoveDelivers(h, s, t);
    case Unwrap => if t.phase.Unwrapping? { UnwrapDelivers(h, s, t); }
    case CheckEntry(entry) => CheckDelivers(h, s, entry, t);
    case _ => OutsideDelivery(h, s, a, t);
  }

  lemma QuietKeepsBooks(h: History, s: State, a: Action, t: State)
    requires Next(s, a) == Some(t) && Quiet(a)
    ensures t.phase == Gone || (t.running == s.running && t.results == s.results && t.asked == s.asked && Remember(h, s, a) == h)
  {
  }

  lemma QuietRemembered(h: History, s: State, a: Action, t: State)
    requires Remembered(h, s) && s.phase != Gone && Next(s, a) == Some(t) && Quiet(a)
    ensures Remembered(Remember(h, s, a), t)
  {
    QuietKeepsBooks(h, s, a, t);
    QuietDelivers(h, s, a, t);
    if NotQueueing(a) {
      OthersKeepLine(s, a, t, h.next);
    } else {
      QueueKeepsLine(s, a, t, h.next);
    }
  }

  lemma TaskRemembered(h: History, s: State, a: Action, t: State)
    requires Remembered(h, s) && s.phase != Gone && Next(s, a) == Some(t)
    requires a.Spawn? || a.AskBuffer? || a.Respond? || a.Cancel?
    ensures Remembered(Remember(h, s, a), t)
  {
    match a
    case Spawn => SpawnRemembered(h, s, t);
    case AskBuffer(i) => AskRemembered(h, s, i, t);
    case Respond(i, success, buffers) => RespondRemembered(h, s, i, success, buffers, t);
    case Cancel(i) => CancelRemembered(h, s, i, t);
  }

  lemma StepRemembered(h: History, s: State, a: Action, t: State)
    requires Inv(s) && Remembered(h, s) && Next(s, a) == Some(t)
    ensures Remembered(Remember(h, s, a), t)
  {
    if s.phase == Gone {
      GoneStays(s, a, t);
    } else if a.Receive? {
      ReceiveRemembered(h, s, a.asker, a.at, t);
    } else if Quiet(a) {
      QuietRemembered(h, s, a, t);
    } else {
      TaskRemembered(h, s, a, t);
    }
  }

  lemma {:induction false} RunsRemembered(limits: Limits, actions: seq<Action>)
    requires RunFrom(limits, actions).Some?
    ensures Inv(RunFrom(limits, actions).value) && Remembered(HistoryOf(limits, actions), RunFrom(limits, actions).value)
    decreases |actions|
  {
    if actions == [] {
      InitHolds(limits);
    } else {
      var front := actions[..|actions| - 1];
      RunsRemembered(limits, front);
      NextKeeps(RunFrom(limits, front).value, actions[|actions| - 1]);
      StepRemembered(HistoryOf(limits, front), RunFrom(limits, front).value, actions[|actions| - 1], RunFrom(limits, actions).value);
    }
  }

  // ----- Theorems ------------------------------------------------------------------------------------------------

  /** In every run a buffer goes to the task that asked for it: a request still in the channel
      is awaited by exactly the task of the call that sent it, and every task holds exactly
      the buffers that were allocated in answer to its own requests. */
  lemma BuffersReachTheirAskers(limits: Limits, actions: seq<Action>, i: nat, r: nat)
    requires RunFrom(limits, actions).Some? && RunFrom(limits, actions).value.phase != Gone
    requires i < |RunFrom(limits, actions).value.running|
    ensures var s, h := RunFrom(limits, actions).value, HistoryOf(limits, actions);
            && s.running[i].buffers == GivenTo(h, s.running[i].token.call)
            && (r in s.running[i].open <==> Request(r) in s.results && r in h.askers && h.askers[r] == s.running[i].token.call)
  {
    RunsRemembered(limits, actions);
    var s := RunFrom(limits, actions).value;
    OneTask(HistoryOf(limits, actions), s.asked, s.running, s.results, i, r);
  }

  lemma OneTask(h: History, asked: nat, running: seq<Worker>, results: seq<Item>, i: nat, r: nat)
    requires Books(h, asked, running, results) && i < |running|
    ensures running[i].buffers == GivenTo(h, running[i].token.call)
    ensures r in running[i].open <==> Request(r) in results && r in h.askers && h.askers[r] == running[i].token.call
  {
  }

  /** In every run each result carries exactly the buffers that its call's task was given,
      if the task succeeded, and none otherwise; and when its callback is about to be called
      the value of every one of them has been unwrapped. */
  lemma ResultsCarryTheirBuffers(limits: Limits, actions: seq<Action>)
    requires RunFrom(limits, actions).Some? && RunFrom(limits, actions).value.phase != Gone
    ensures var s, h := RunFrom(limits, actions).value, HistoryOf(limits, actions);
            && (forall j | 0 <= j < |s.results| && s.results[j].Result? ::
                  multiset(s.results[j].buffers) == Earned(h, s.results[j].token.call))
            && (s.phase == Unwrapping([]) ==>
                  s.log != [] && forall a | a in Earned(h, s.log[|s.log| - 1].callback) :: a in s.strong && !s.strong[a])
  {
    RunsRemembered(limits, actions);
    ResultsMeetTheirCallbacks(limits, actions);
  }
}
