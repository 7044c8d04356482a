/** What every step of the I/O protocol keeps. */
module IoProof {
  import opened Wrappers
  import opened Runs
  import opened Bags
  import opened IoProtocol

  // ----- Tokens --------------------------------------------------------------------------

  function WorkerToken(w: Worker): multiset<Token> { multiset{w.token} }

  function ItemToken(i: Item): multiset<Token> {
    if i.Result? then multiset{i.token} else multiset{}
  }

  function HeldToken(p: Processor): multiset<Token> {
    if p.Holding? then multiset{p.token} else multiset{}
  }

  function SendingToken(p: Phase): multiset<Token> {
    if p.Sending? then multiset{p.token} else multiset{}
  }

  /** Every token in the system: in the task queue, with the processor, in a running task,
      in the result channel, or about to be sent. */
  function Tokens(s: State): multiset<Token> {
    multiset(s.queue) + HeldToken(s.processor) + Gather(WorkerToken, s.running) + Gather(ItemToken, s.results)
    + SendingToken(s.phase)
  }

  /** How often the slab holds the callback of `t.call` at `t.index`. */
  function Occupied(slab: map<nat, nat>, t: Token): nat {
    if t.index in slab && slab[t.index] == t.call then 1 else 0
  }

  /** Tokens are pairwise distinct and their slab entries are occupied by their own
      callbacks; if `complete`, every occupied entry has its token. */
  ghost predicate Match(tokens: multiset<Token>, slab: map<nat, nat>, complete: bool) {
    && (forall t: Token :: tokens[t] <= Occupied(slab, t))
    && (complete ==> forall t: Token :: tokens[t] == Occupied(slab, t))
  }

  /** As long as nothing was killed no token is missing. */
  ghost predicate Matched(s: State) {
    s.phase != Gone ==> Match(Tokens(s), s.slab, s.processor != Exited)
  }

  /** Callbacks are numbered apart, and none is in the slab once it has been delivered. */
  ghost predicate Numbered(slab: map<nat, nat>, issued: nat, log: seq<Delivery>) {
    && (forall i | i in slab :: slab[i] < issued)
    && (forall i, j | i in slab && j in slab && slab[i] == slab[j] :: i == j)
    && (forall d | 0 <= d < |log| :: log[d].callback == log[d].result < issued)
    && (forall d, i | 0 <= d < |log| && i in slab :: slab[i] != log[d].callback)
    && (forall d, e | 0 <= d < e < |log| :: log[d].callback != log[e].callback)
  }

  // ----- Buffers -------------------------------------------------------------------------

  /** Every handle is the only one to its entry, whose value is still there. */
  ghost predicate Holds(handles: multiset<Address>, strong: map<Address, bool>) {
    forall a: Address :: handles[a] <= 1 && (handles[a] > 0 ==> a in strong && strong[a])
  }

  ghost predicate Held(s: State) {
    s.phase != Gone ==> Holds(Handles(s), s.strong)
  }

  /** A collection removes only entries without handle, and all that had none at its
      start. */
  ghost predicate Collects(p: Phase, handles: multiset<Address>, strong: map<Address, bool>) {
    p.Collecting? ==>
      && p.todo <= strong.Keys && p.doomed <= strong.Keys
      && p.orphans <= p.todo + p.doomed
      && (forall a | a in p.orphans :: handles[a] == 0)
      && (forall a | a in p.doomed :: handles[a] == 0)
  }

  ghost predicate Collected(s: State) {
    Collects(s.phase, Handles(s), s.strong)
  }

  // ----- Requests ------------------------------------------------------------------------

  /** Whoever awaits a buffer has the request for it on its way. */
  ghost predicate Heard(running: seq<Worker>, results: seq<Item>) {
    forall i, r | 0 <= i < |running| && r in running[i].open :: Request(r) in results
  }

  /** No request is awaited by two tasks. */
  ghost predicate Apart(running: seq<Worker>, asked: nat) {
    && (forall i, r | 0 <= i < |running| && r in running[i].open :: r < asked)
    && (forall i, j | 0 <= i < j < |running| :: running[i].open !! running[j].open)
  }

  ghost predicate Counted(s: State) {
    && s.permits + |s.running| == s.limits.concurrency
    && s.budget <= s.limits.calls
    && |s.queue| <= s.limits.backlog
    && (s.processor != Exited && s.phase != Gone ==> |s.slab| + |s.log| == s.issued)
  }

  ghost predicate Inv(s: State) {
    && s.phase != Panicked && Matched(s) && Numbered(s.slab, s.issued, s.log)
    && Held(s) && Collected(s) && (s.phase != Gone ==> Heard(s.running, s.results)) && Apart(s.running, s.asked) && Counted(s)
  }

  // ----- Small facts about the predicates ----------------------------------------------------

  lemma FewerTokens(tokens: multiset<Token>, more: multiset<Token>, slab: map<nat, nat>, complete: bool)
    requires Match(more, slab, complete) && tokens <= more
    ensures Match(tokens, slab, false)
  {
  }

  lemma MatchInsert(tokens: multiset<Token>, slab: map<nat, nat>, complete: bool, t: Token)
    requires Match(tokens, slab, complete) && t.index !in slab
    ensures Match(tokens + multiset{t}, slab[t.index := t.call], complete)
  {
    assert forall u: Token :: Occupied(slab[t.index := t.call], u) == Occupied(slab, u) + if u == t then 1 else 0;
  }

  lemma MatchRemove(tokens: multiset<Token>, slab: map<nat, nat>, complete: bool, t: Token)
    requires Match(tokens + multiset{t}, slab, complete)
    ensures t.index in slab && slab[t.index] == t.call
    ensures Match(tokens, slab - {t.index}, complete)
  {
    assert (tokens + multiset{t})[t] > 0;
    assert forall u: Token :: Occupied(slab, u) == Occupied(slab - {t.index}, u) + if u == t then 1 else 0;
    assert forall u: Token :: (tokens + multiset{t})[u] == tokens[u] + if u == t then 1 else 0;
  }

  lemma FewerHandles(handles: multiset<Address>, more: multiset<Address>, strong: map<Address, bool>, p: Phase)
    requires Holds(more, strong) && Collects(p, more, strong) && handles <= more
    ensures Holds(handles, strong) && Collects(p, handles, strong)
  {
  }

  lemma OthersStayHeard(running: seq<Worker>, results: seq<Item>, i: nat, item: Item)
    requires Heard(running, results) && i < |running|
    ensures Heard(Without(running, i), results + [item]) && Heard(Without(running, i), results)
  {
    var rest := Without(running, i);
    forall j, r | 0 <= j < |rest| && r in rest[j].open ensures Request(r) in results {
      var k := if j < i then j else j + 1;
      assert rest[j] == running[k];
    }
  }

  lemma OthersStayApart(running: seq<Worker>, asked: nat, i: nat)
    requires Apart(running, asked) && i < |running|
    ensures Apart(Without(running, i), asked)
  {
    var rest := Without(running, i);
    assert forall j | 0 <= j < |rest| :: rest[j] == running[if j < i then j else j + 1];
  }

  // ----- Executor ------------------------------------------------------------------------

  lemma IssueTokens(s: State, index: nat, counts: bool)
    requires DoIssue(s, index, counts).Some? && DoIssue(s, index, counts).value != s
    ensures var n := DoIssue(s, index, counts).value;
            Tokens(n) == Tokens(s) + multiset{Token(index, s.issued)} && Handles(n) == Handles(s)
  {
  }

  lemma IssueNumbers(s: State, index: nat)
    requires Numbered(s.slab, s.issued, s.log) && index !in s.slab
    ensures Numbered(s.slab[index := s.issued], s.issued + 1, s.log)
  {
  }

  lemma SlabGrows(slab: map<nat, nat>, index: nat, call: nat)
    requires index !in slab
    ensures |slab[index := call]| == |slab| + 1
  {
    assert (slab[index := call]).Keys == slab.Keys + {index};
  }

  lemma IssueKeeps(s: State, index: nat, counts: bool, n: State)
    requires Inv(s) && DoIssue(s, index, counts) == Some(n)
    ensures Inv(n)
  {
    if n != s {
      IssueTokens(s, index, counts);
      IssueNumbers(s, index);
      SlabGrows(s.slab, index, s.issued);
      assert n.slab == s.slab[index := s.issued] && n.results == s.results && n.running == s.running;
      assert Matched(n) by {
        MatchInsert(Tokens(s), s.slab, s.processor != Exited, Token(index, s.issued));
      }
    }
  }

  lemma SendFails(s: State)
    requires DoSend(s).Some? && s.processor == Exited
    ensures var n := DoSend(s).value; Tokens(n) + multiset{s.phase.token} == Tokens(s) && Handles(n) == Handles(s)
  {
    var n := DoSend(s).value;
    assert n.queue == s.queue && n.results == s.results && n.running == s.running && n.processor == s.processor;
    assert SendingToken(s.phase) == multiset{s.phase.token} && SendingToken(n.phase) == multiset{};
  }

  lemma SendMoves(s: State)
    requires DoSend(s).Some? && s.processor != Exited
    ensures var n := DoSend(s).value; Tokens(n) == Tokens(s) && Handles(n) == Handles(s)
  {
    var n, t := DoSend(s).value, s.phase.token;
    QueuePush(s.queue, t);
    assert n.results == s.results && n.running == s.running && n.processor == s.processor;
    assert SendingToken(s.phase) == multiset{t} && SendingToken(n.phase) == multiset{};
    var before, after := multiset(s.queue), multiset(n.queue);
    assert after == before + multiset{t};
  }

  lemma RemoveNumbers(slab: map<nat, nat>, issued: nat, log: seq<Delivery>, index: nat)
    requires Numbered(slab, issued, log)
    ensures Numbered(slab - {index}, issued, log)
  {
  }

  lemma SendKeeps(s: State, n: State)
    requires Inv(s) && DoSend(s) == Some(n)
    ensures Inv(n)
  {
    var t := s.phase.token;
    if s.processor == Exited {
      SendFails(s);
      MatchRemove(Tokens(n), s.slab, false, t);
      RemoveNumbers(s.slab, s.issued, s.log, t.index);
    } else {
      SendMoves(s);
    }
  }

  lemma WaitKeeps(s: State, n: State)
    requires Inv(s) && DoWait(s) == Some(n)
    ensures Inv(n)
  {
    assert Tokens(n) == Tokens(s) && Handles(n) == Handles(s);
  }

  lemma DropKeeps(s: State)
    requires Inv(s)
    ensures Inv(DropAll(s))
  {
  }

  lemma ResultTokens(s: State)
    requires s.phase == Waiting && s.results != [] && s.results[0].Result? && s.results[0].token.index in s.slab
    ensures var n := TakeResult(s, s.results[0], s.results[1..]);
            Tokens(s) == Tokens(n) + multiset{s.results[0].token} && Handles(n) == Handles(s)
  {
    GatherFirst(ItemToken, s.results);
    GatherFirst(ItemBuffers, s.results);
  }

  /** The first result in the channel finds its own callback in the slab. */
  lemma ResultIsOccupied(s: State)
    requires Inv(s) && s.phase == Waiting && s.results != [] && s.results[0].Result?
    ensures var t := s.results[0].token; t.index in s.slab && s.slab[t.index] == t.call
  {
    var t := s.results[0].token;
    GatherFirst(ItemToken, s.results);
    assert ItemToken(s.results[0])[t] == 1;
    assert Tokens(s)[t] > 0;
  }

  lemma ResultNumbers(s: State, t: Token)
    requires Numbered(s.slab, s.issued, s.log) && t.index in s.slab && s.slab[t.index] == t.call
    ensures Numbered(s.slab - {t.index}, s.issued, s.log + [Delivery(t.call, t.call)])
  {
    var log := s.log + [Delivery(t.call, t.call)];
    assert forall d | 0 <= d < |log| :: log[d] == if d < |s.log| then s.log[d] else Delivery(t.call, t.call);
  }

  lemma RestIsHeard(running: seq<Worker>, results: seq<Item>)
    requires Heard(running, results) && results != [] && results[0].Result?
    ensures Heard(running, results[1..])
  {
    forall i, r | 0 <= i < |running| && r in running[i].open ensures Request(r) in results[1..] {
      assert Request(r) in results;
    }
  }

  lemma CollectionStarts(due: seq<Address>, handles: multiset<Address>, strong: map<Address, bool>)
    ensures Collects(Collecting(due, strong.Keys, {}, strong.Keys - set a <- handles), handles, strong)
  {
    var orphans := strong.Keys - set a <- handles;
    assert forall a | a in orphans :: a !in (set b <- handles);
  }

  lemma TakeResultKeeps(s: State)
    requires Inv(s) && s.phase == Waiting && s.results != [] && s.results[0].Result?
    ensures Inv(TakeResult(s, s.results[0], s.results[1..]))
  {
    var t, n := s.results[0].token, TakeResult(s, s.results[0], s.results[1..]);
    ResultIsOccupied(s);
    assert n.slab.Keys == s.slab.Keys - {t.index};
    ResultTokens(s);
    MatchRemove(Tokens(n), s.slab, s.processor != Exited, t);
    ResultNumbers(s, t);
    RestIsHeard(s.running, s.results);
    CollectionStarts(s.results[0].buffers, Handles(s), s.strong);
  }

  /** The answered request is awaited no longer, all others are still on their way. */
  lemma AnswerKeepsHeard(s: State, asker: nat, w: Worker)
    requires Heard(s.running, s.results) && Apart(s.running, s.asked) && s.results != [] && s.results[0].Request?
    requires Awaits(s, asker, s.results[0].serial)
    requires asker < |s.running| ==> w.open == s.running[asker].open - {s.results[0].serial}
    ensures var running := if asker < |s.running| then s.running[asker := w] else s.running;
            Heard(running, s.results[1..]) && Apart(running, s.asked)
  {
    var running := if asker < |s.running| then s.running[asker := w] else s.running;
    forall i, r | 0 <= i < |running| && r in running[i].open ensures Request(r) in s.results[1..] {
      assert r in s.running[i].open;
      assert Request(r) in s.results;
      if asker < |s.running| && i != asker {
        assert s.running[if i < asker then i else asker].open !! s.running[if i < asker then asker else i].open;
      }
      assert r != s.results[0].serial;
    }
  }

  lemma AnswerTokens(s: State, asker: nat, at: Option<Address>)
    requires asker < |s.running| && s.results != [] && s.results[0].Request?
    ensures var running := s.running[asker := Answered(s.running[asker], s.results[0].serial, at)];
            && Gather(WorkerToken, running) == Gather(WorkerToken, s.running)
            && Gather(ItemToken, s.results[1..]) == Gather(ItemToken, s.results)
  {
    GatherFirst(ItemToken, s.results);
    GatherAt(WorkerToken, s.running, asker);
    GatherUpdate(WorkerToken, s.running, asker, Answered(s.running[asker], s.results[0].serial, at));
  }

  lemma AnswerBuffers(s: State, asker: nat, at: Option<Address>)
    requires asker < |s.running| && s.results != [] && s.results[0].Request?
    ensures var running := s.running[asker := Answered(s.running[asker], s.results[0].serial, at)];
            && Gather(WorkerBuffers, running) == Gather(WorkerBuffers, s.running) + (if at.Some? then multiset{at.value} else multiset{})
            && Gather(ItemBuffers, s.results[1..]) == Gather(ItemBuffers, s.results)
  {
    GatherFirst(ItemBuffers, s.results);
    GatherAt(WorkerBuffers, s.running, asker);
    GatherUpdate(WorkerBuffers, s.running, asker, Answered(s.running[asker], s.results[0].serial, at));
  }

  lemma NewHandle(handles: multiset<Address>, strong: map<Address, bool>, a: Address)
    requires Holds(handles, strong) && a !in strong && a !in handles
    ensures Holds(handles + multiset{a}, strong[a := true]) && Holds(handles, strong[a := true])
  {
  }

  lemma Plus(a: multiset<Address>, b: multiset<Address>, c: multiset<Address>, x: multiset<Address>)
    ensures (a + x) + b + c == (a + b + c) + x
  {
  }

  lemma AnswerKeepsTokens(s: State, asker: nat, at: Option<Address>)
    requires DoReceive(s, asker, at).Some? && s.results != [] && s.results[0].Request? && asker < |s.running|
    ensures Tokens(DoReceive(s, asker, at).value) == Tokens(s)
  {
    var n := DoReceive(s, asker, at).value;
    AnswerTokens(s, asker, at);
    assert n.queue == s.queue && n.processor == s.processor && n.phase == s.phase && n.results == s.results[1..];
    assert n.running == s.running[asker := Answered(s.running[asker], s.results[0].serial, at)];
  }

  lemma AnswerAddsHandle(s: State, asker: nat, at: Option<Address>)
    requires DoReceive(s, asker, at).Some? && s.results != [] && s.results[0].Request? && asker < |s.running|
    ensures Handles(DoReceive(s, asker, at).value) == if at.Some? then Handles(s) + multiset{at.value} else Handles(s)
  {
    var n := DoReceive(s, asker, at).value;
    AnswerBuffers(s, asker, at);
    assert n.phase == s.phase && n.results == s.results[1..];
    assert n.running == s.running[asker := Answered(s.running[asker], s.results[0].serial, at)];
    var a, b, c := Gather(WorkerBuffers, s.running), Gather(ItemBuffers, s.results), Due(s.phase);
    if at.Some? {
      Plus(a, b, c, multiset{at.value});
      assert Handles(n) == (a + multiset{at.value}) + b + c;
    } else {
      assert a + multiset{} == a;
      assert Handles(n) == a + b + c;
    }
  }

  /** A request is answered: the one task that waits for it goes on. */
  lemma AnswerKeeps(s: State, asker: nat, at: Option<Address>, n: State)
    requires Inv(s) && DoReceive(s, asker, at) == Some(n) && s.results != [] && s.results[0].Request? && asker < |s.running|
    ensures Inv(n)
  {
    AnswerKeepsTokens(s, asker, at);
    AnswerAddsHandle(s, asker, at);
    AnswerKeepsHeard(s, asker, Answered(s.running[asker], s.results[0].serial, at));
    if at.Some? {
      NewHandle(Handles(s), s.strong, at.value);
    }
  }

  lemma StrayMoves(s: State, asker: nat, at: Option<Address>)
    requires DoReceive(s, asker, at).Some? && s.results != [] && s.results[0].Request? && asker >= |s.running|
    ensures var n := DoReceive(s, asker, at).value; Tokens(n) == Tokens(s) && Handles(n) == Handles(s)
  {
    var n := DoReceive(s, asker, at).value;
    GatherFirst(ItemToken, s.results);
    GatherFirst(ItemBuffers, s.results);
    assert n.queue == s.queue && n.processor == s.processor && n.phase == s.phase && n.running == s.running;
    assert Gather(ItemToken, n.results) == Gather(ItemToken, s.results);
    assert Gather(ItemBuffers, n.results) == Gather(ItemBuffers, s.results);
  }

  /** Nobody awaits the answer any more: the buffer stays in the set until the next collection. */
  lemma StrayKeeps(s: State, asker: nat, at: Option<Address>, n: State)
    requires Inv(s) && DoReceive(s, asker, at) == Some(n) && s.results != [] && s.results[0].Request? && asker >= |s.running|
    ensures Inv(n)
  {
    StrayMoves(s, asker, at);
    AnswerKeepsHeard(s, asker, Worker(Token(0, 0), {}, multiset{}));
    if at.Some? {
      NewHandle(Handles(s), s.strong, at.value);
    }
  }

  lemma ReceiveKeeps(s: State, asker: nat, at: Option<Address>, n: State)
    requires Inv(s) && DoReceive(s, asker, at) == Some(n)
    ensures Inv(n)
  {
    if s.results == [] {
      DropKeeps(s);
    } else if s.results[0].Result? {
      TakeResultKeeps(s);
    } else if asker < |s.running| {
      AnswerKeeps(s, asker, at, n);
    } else {
      StrayKeeps(s, asker, at, n);
    }
  }

  lemma CheckCollects(p: Phase, entry: Address, q: Phase, handles: multiset<Address>, strong: map<Address, bool>)
    requires p.Collecting? && Collects(p, handles, strong) && entry in p.todo
    requires q == p.(todo := p.todo - {entry}, doomed := if handles[entry] == 0 then p.doomed + {entry} else p.doomed)
    ensures Collects(q, handles, strong)
  {
  }

  lemma CheckEntryKeeps(s: State, entry: Address, n: State)
    requires Inv(s) && DoCheckEntry(s, entry) == Some(n)
    ensures Inv(n)
  {
    assert n == s.(phase := n.phase) && n.phase.Collecting? && n.phase.due == s.phase.due;
    assert Tokens(n) == Tokens(s) && Handles(n) == Handles(s);
    CheckCollects(s.phase, entry, n.phase, Handles(s), s.strong);
  }

  lemma RemoveDoomedKeeps(s: State, n: State)
    requires Inv(s) && DoRemoveDoomed(s) == Some(n)
    ensures Inv(n)
  {
    assert Tokens(n) == Tokens(s) && Handles(n) == Handles(s);
  }

  lemma UnwrapHandles(s: State)
    requires s.phase.Unwrapping? && s.phase.due != []
    ensures Handles(s) == Handles(s.(phase := Unwrapping(s.phase.due[1..]))) + multiset{s.phase.due[0]}
  {
    QueuePop(s.phase.due);
  }

  lemma TakeHandle(handles: multiset<Address>, strong: map<Address, bool>, a: Address)
    requires Holds(handles + multiset{a}, strong)
    ensures a in strong && strong[a] && Holds(handles, strong[a := false])
  {
    assert (handles + multiset{a})[a] > 0;
    assert forall b: Address :: handles[b] <= (handles + multiset{a})[b];
  }

  lemma UnwrapKeeps(s: State, n: State)
    requires Inv(s) && DoUnwrap(s) == Some(n)
    ensures Inv(n)
  {
    if s.phase.due != [] {
      var rest := s.(phase := Unwrapping(s.phase.due[1..]));
      UnwrapHandles(s);
      TakeHandle(Handles(rest), s.strong, s.phase.due[0]);
      assert Handles(n) == Handles(rest);
    } else {
      assert Handles(s) == Handles(n);
    }
    assert Tokens(n) == Tokens(s);
  }

  // ----- Processor -----------------------------------------------------------------------

  lemma PickTaskKeeps(s: State, n: State)
    requires Inv(s) && DoPickTask(s) == Some(n)
    ensures Inv(n)
  {
    if s.queue != [] {
      QueuePop(s.queue);
      assert Tokens(n) == Tokens(s);
    }
    assert Handles(n) == Handles(s);
  }

  lemma SpawnMoves(s: State)
    requires DoSpawn(s).Some?
    ensures var n := DoSpawn(s).value; Tokens(n) == Tokens(s) && Handles(n) == Handles(s)
  {
    var n, w := DoSpawn(s).value, Worker(s.processor.token, {}, multiset{});
    GatherPush(WorkerToken, s.running, w);
    GatherPush(WorkerBuffers, s.running, w);
    assert Gather(WorkerToken, n.running) == Gather(WorkerToken, s.running) + multiset{w.token};
    assert Gather(WorkerBuffers, n.running) == Gather(WorkerBuffers, s.running);
    assert HeldToken(n.processor) == multiset{} && HeldToken(s.processor) == multiset{w.token};
    assert n.queue == s.queue && n.results == s.results && n.phase == s.phase;
  }

  lemma SpawnKeeps(s: State, n: State)
    requires Inv(s) && DoSpawn(s) == Some(n)
    ensures Inv(n)
  {
    var w := Worker(s.processor.token, {}, multiset{});
    SpawnMoves(s);
    assert n.running == s.running + [w] && n.slab == s.slab && n.log == s.log && n.results == s.results;
    NewWorkerIsQuiet(s.running, s.results, s.asked, w);
  }

  lemma NewWorkerIsQuiet(running: seq<Worker>, results: seq<Item>, asked: nat, w: Worker)
    requires Apart(running, asked) && w.open == {}
    ensures Apart(running + [w], asked) && (Heard(running, results) ==> Heard(running + [w], results))
  {
  }

  lemma KillKeeps(s: State, n: State)
    requires Inv(s) && DoKill(s) == Some(n)
    ensures Inv(n)
  {
    assert Handles(n) == Handles(s);
    if s.phase != Gone {
      FewerTokens(Tokens(n), Tokens(s), s.slab, true);
    }
  }

  // ----- Tasks ---------------------------------------------------------------------------

  lemma AskMoves(s: State, i: nat)
    requires DoAskBuffer(s, i).Some? && s.phase != Gone
    ensures var n := DoAskBuffer(s, i).value; Tokens(n) == Tokens(s) && Handles(n) == Handles(s)
  {
    var n, w := DoAskBuffer(s, i).value, Asking(s.running[i], s.asked);
    WorkerMoves(s.running, i, w);
    GatherPush(ItemToken, s.results, Request(s.asked));
    GatherPush(ItemBuffers, s.results, Request(s.asked));
    assert n.queue == s.queue && n.processor == s.processor && n.phase == s.phase;
    assert n.running == s.running[i := w] && n.results == s.results + [Request(s.asked)];
    assert Gather(ItemToken, n.results) == Gather(ItemToken, s.results);
    assert Gather(ItemBuffers, n.results) == Gather(ItemBuffers, s.results);
  }

  lemma WorkerMoves(running: seq<Worker>, i: nat, w: Worker)
    requires i < |running| && w.token == running[i].token && w.buffers == running[i].buffers
    ensures Gather(WorkerToken, running[i := w]) == Gather(WorkerToken, running)
    ensures Gather(WorkerBuffers, running[i := w]) == Gather(WorkerBuffers, running)
  {
    GatherAt(WorkerToken, running, i);
    GatherUpdate(WorkerToken, running, i, w);
    GatherAt(WorkerBuffers, running, i);
    GatherUpdate(WorkerBuffers, running, i, w);
  }

  lemma AskerIsHeard(running: seq<Worker>, results: seq<Item>, asked: nat, i: nat)
    requires Heard(running, results) && Apart(running, asked) && i < |running|
    ensures Heard(running[i := Asking(running[i], asked)], results + [Request(asked)])
    ensures Apart(running[i := Asking(running[i], asked)], asked + 1)
  {
    var after := running[i := Asking(running[i], asked)];
    forall j, r | 0 <= j < |after| && r in after[j].open ensures Request(r) in results + [Request(asked)] {
      if r == asked {
        assert (results + [Request(asked)])[|results|] == Request(r);
      } else {
        assert r in running[j].open;
      }
    }
  }

  lemma AskBufferKeeps(s: State, i: nat, n: State)
    requires Inv(s) && DoAskBuffer(s, i) == Some(n)
    ensures Inv(n)
  {
    if s.phase != Gone {
      AskMoves(s, i);
      AskerIsHeard(s.running, s.results, s.asked, i);
    }
  }

  lemma RespondMoves(s: State, i: nat, success: bool, buffers: seq<Address>)
    requires DoRespond(s, i, success, buffers).Some? && s.phase != Gone
    ensures var n := DoRespond(s, i, success, buffers).value;
            Tokens(n) == Tokens(s) && Handles(n) <= Handles(s) && (success ==> Handles(n) == Handles(s))
  {
    var n, w := DoRespond(s, i, success, buffers).value, s.running[i];
    var item := Result(w.token, if success then buffers else []);
    GatherAt(WorkerToken, s.running, i);
    GatherPush(ItemToken, s.results, item);
    GatherAt(WorkerBuffers, s.running, i);
    GatherPush(ItemBuffers, s.results, item);
    assert n.queue == s.queue && n.processor == s.processor && n.phase == s.phase;
    assert Gather(ItemToken, n.results) == Gather(ItemToken, s.results) + multiset{w.token};
    assert Gather(WorkerToken, s.running) == Gather(WorkerToken, n.running) + multiset{w.token};
    assert Gather(ItemBuffers, n.results) == Gather(ItemBuffers, s.results) + multiset(item.buffers);
    assert Gather(WorkerBuffers, s.running) == Gather(WorkerBuffers, n.running) + w.buffers;
  }

  lemma RespondKeeps(s: State, i: nat, success: bool, buffers: seq<Address>, n: State)
    requires Inv(s) && DoRespond(s, i, success, buffers) == Some(n)
    ensures Inv(n)
  {
    OthersStayApart(s.running, s.asked, i);
    if s.phase != Gone {
      RespondMoves(s, i, success, buffers);
      FewerHandles(Handles(n), Handles(s), s.strong, s.phase);
      OthersStayHeard(s.running, s.results, i, Result(s.running[i].token, if success then buffers else []));
    }
  }

  lemma CancelMoves(s: State, i: nat)
    requires DoCancel(s, i).Some?
    ensures var n := DoCancel(s, i).value; Tokens(n) <= Tokens(s) && Handles(n) <= Handles(s)
  {
    GatherAt(WorkerToken, s.running, i);
    GatherAt(WorkerBuffers, s.running, i);
  }

  lemma CancelKeeps(s: State, i: nat, n: State)
    requires Inv(s) && DoCancel(s, i) == Some(n)
    ensures Inv(n)
  {
    OthersStayApart(s.running, s.asked, i);
    if s.phase != Gone {
      CancelMoves(s, i);
      FewerTokens(Tokens(n), Tokens(s), s.slab, false);
      FewerHandles(Handles(n), Handles(s), s.strong, s.phase);
      OthersStayHeard(s.running, s.results, i, Request(0));
    }
  }

  lemma NextKeeps(s: State, a: Action)
    requires Inv(s) && Next(s, a).Some?
    ensures Inv(Next(s, a).value)
  {
    var n := Next(s, a).value;
    match a
    case Issue(index, counts) => IssueKeeps(s, index, counts, n);
    case Send => SendKeeps(s, n);
    case Wait => WaitKeeps(s, n);
    case Receive(asker, at) => ReceiveKeeps(s, asker, at, n);
    case CheckEntry(entry) => CheckEntryKeeps(s, entry, n);
    case RemoveDoomed => RemoveDoomedKeeps(s, n);
    case Unwrap => UnwrapKeeps(s, n);
    case DropWaiter => DropKeeps(s);
    case PickTask => PickTaskKeeps(s, n);
    case Spawn => SpawnKeeps(s, n);
    case Kill => KillKeeps(s, n);
    case AskBuffer(i) => AskBufferKeeps(s, i, n);
    case Respond(i, success, buffers) => RespondKeeps(s, i, success, buffers, n);
    case Cancel(i) => CancelKeeps(s, i, n);
  }
}
