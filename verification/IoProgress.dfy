/** No call waits for ever: as long as its scope lives, every issued call can be answered. */
module IoProgress {
  import opened Wrappers
  import opened Runs
  import opened Bags
  import opened IoProtocol
  import opened IoProof
  import opened IoTheorems

  /** Steps that need no new call, no new request and no end of the scope. */
  predicate Continues(a: Action) {
    !a.Issue? && !a.AskBuffer? && !a.DropWaiter? && !a.Kill? && !a.Cancel?
  }

  /** The scope lives, and there is room for a task and for a queued call. */
  ghost predicate Alive(s: State) {
    Inv(s) && s.phase != Gone && s.processor != Exited && s.limits.concurrency > 0 && s.limits.backlog > 0
  }

  /** How far the messages and calls on their way still have to go. */
  function Work(s: State): nat {
    4 * |s.queue| + 2 * |s.running| + |s.results|
    + (if s.processor.Holding? then 3 else 0) + (if s.phase.Sending? then 5 else 0)
  }

  ghost predicate Loaded(s: State, work: nat, issued: nat) {
    Alive(s) && Work(s) == work && s.issued == issued
  }

  // ----- A collection ends ---------------------------------------------------------------

  /** What is left of the collection and the unwrapping under way. */
  function Busy(s: State): nat {
    match s.phase
    case Collecting(due, todo, _, _) => |todo| + |due| + 3
    case Unwrapping(due) => |due| + 1
    case _ => 0
  }

  ghost function BusyAction(s: State): Action {
    match s.phase
    case Collecting(_, todo, _, _) => if todo == {} then RemoveDoomed else CheckEntry(var e :| e in todo; e)
    case _ => Unwrap
  }

  /** `t` is `s` with less of the collection left. */
  ghost predicate LessBusy(s: State, t: State) {
    && Busy(t) < Busy(s) && Work(t) == Work(s) && t.issued == s.issued && t.phase != Gone
    && t.processor == s.processor && t.limits == s.limits
  }

  lemma CheckSteps(s: State, e: Address)
    requires s.phase.Collecting? && e in s.phase.todo
    ensures Next(s, CheckEntry(e)).Some? && LessBusy(s, Next(s, CheckEntry(e)).value)
  {
    assert |s.phase.todo - {e}| == |s.phase.todo| - 1;
  }

  lemma RemoveSteps(s: State)
    requires s.phase.Collecting? && s.phase.todo == {}
    ensures Next(s, RemoveDoomed).Some? && LessBusy(s, Next(s, RemoveDoomed).value)
  {
  }

  lemma UnwrapSteps(s: State)
    requires s.phase.Unwrapping? && DoUnwrap(s).Some? && DoUnwrap(s).value.phase != Panicked
    ensures LessBusy(s, DoUnwrap(s).value)
  {
  }

  lemma BusySteps(s: State, a: Action)
    requires Inv(s) && Busy(s) > 0 && a == BusyAction(s)
    ensures Continues(a) && Next(s, a).Some? && LessBusy(s, Next(s, a).value)
  {
    if s.phase.Unwrapping? {
      assert a == Unwrap;
      UnwrapKeeps(s, DoUnwrap(s).value);
      UnwrapSteps(s);
    } else if s.phase.todo == {} {
      assert a == RemoveDoomed;
      RemoveSteps(s);
    } else {
      CheckSteps(s, a.entry);
    }
  }

  lemma BusyLowers(work: nat, issued: nat)
    ensures Lowers(Next, (s: State) => Loaded(s, work, issued), Continues, Busy, BusyAction)
  {
    forall s: State | Loaded(s, work, issued) && Busy(s) > 0
      ensures Continues(BusyAction(s)) && Next(s, BusyAction(s)).Some?
      ensures Loaded(Next(s, BusyAction(s)).value, work, issued) && Busy(Next(s, BusyAction(s)).value) < Busy(s)
    {
      BusySteps(s, BusyAction(s));
      NextKeeps(s, BusyAction(s));
    }
  }

  lemma BusyEnds(s: State, work: nat, issued: nat) returns (more: seq<Action>)
    requires Loaded(s, work, issued)
    ensures forall i | 0 <= i < |more| :: Continues(more[i])
    ensures Run(Next, s, more).Some? && Loaded(Run(Next, s, more).value, work, issued) && Busy(Run(Next, s, more).value) == 0
  {
    BusyLowers(work, issued);
    more := RankFalls(Next, s, (t: State) => Loaded(t, work, issued), Continues, Busy, BusyAction);
  }

  // ----- One step further ------------------------------------------------------------------

  /** `a` brings the work down and keeps the scope alive. */
  predicate Helps(s: State, a: Action) {
    && Continues(a) && Next(s, a).Some?
    && var t := Next(s, a).value;
       Work(t) < Work(s) && t.issued == s.issued && t.phase != Gone && t.processor != Exited && t.limits == s.limits
  }

  lemma SpawnHelps(s: State)
    requires s.processor.Holding? && s.permits > 0 && s.phase != Gone
    ensures Helps(s, Spawn)
  {
  }

  lemma RespondHelps(s: State)
    requires s.running != [] && s.phase != Gone && s.processor != Exited
    ensures Helps(s, Respond(0, false, []))
  {
    assert |Without(s.running, 0)| == |s.running| - 1;
  }

  lemma PickHelps(s: State)
    requires s.processor == Selecting && s.queue != [] && s.phase != Gone
    ensures Helps(s, PickTask)
  {
  }

  /** The processor or a task goes on. */
  lemma WorkersHelp(s: State) returns (a: Action)
    requires Alive(s) && (s.queue != [] || s.processor.Holding? || s.running != [])
    ensures Helps(s, a)
  {
    if s.running != [] {
      a := Respond(0, false, []);
      RespondHelps(s);
    } else if s.processor.Holding? {
      a := Spawn;
      SpawnHelps(s);
    } else {
      a := PickTask;
      PickHelps(s);
    }
  }

  /** Somebody awaits the answer, or nobody does. */
  lemma SomebodyAwaits(s: State, serial: nat) returns (asker: nat)
    ensures Awaits(s, asker, serial)
  {
    if i :| 0 <= i < |s.running| && serial in s.running[i].open {
      asker := i;
    } else {
      asker := |s.running|;
    }
  }

  lemma MessageHelps(s: State) returns (a: Action)
    requires Alive(s) && s.phase == Waiting && s.results != []
    ensures Helps(s, a)
  {
    if s.results[0].Result? {
      a := Receive(0, None);
      ResultIsOccupied(s);
    } else {
      var asker := SomebodyAwaits(s, s.results[0].serial);
      a := Receive(asker, None);
    }
  }

  lemma SendHelps(s: State)
    requires Alive(s) && s.phase.Sending? && |s.queue| < s.limits.backlog
    ensures Helps(s, Send)
  {
  }

  /** Such steps lead from `s` to `t`. */
  ghost predicate Leads(s: State, more: seq<Action>, t: State) {
    && (forall i | 0 <= i < |more| :: Continues(more[i]))
    && Run(Next, s, more) == Some(t) && Alive(t) && t.issued == s.issued
  }

  lemma LeadsOn(s: State, a: seq<Action>, t: State, b: seq<Action>, u: State)
    requires Leads(s, a, t) && Leads(t, b, u)
    ensures Leads(s, a + b, u)
  {
    RunAppend(Next, s, a, b);
  }

  lemma OneLeads(s: State, a: Action, t: State)
    requires Next(s, a) == Some(t) && Continues(a) && Alive(t) && t.issued == s.issued
    ensures Leads(s, [a], t)
  {
    RunOne(Next, s, a);
  }

  lemma HelpLeads(s: State, a: Action) returns (t: State)
    requires Alive(s) && Helps(s, a)
    ensures Leads(s, [a], t) && Work(t) < Work(s)
  {
    t := Next(s, a).value;
    NextKeeps(s, a);
    OneLeads(s, a, t);
  }

  lemma WaitingIsAlive(s: State, t: State)
    requires Alive(s) && DoWait(s) == Some(t)
    ensures Alive(t)
  {
    WaitKeeps(s, t);
  }

  lemma WaitLeads(s: State) returns (t: State)
    requires Alive(s) && s.phase == Scripting
    ensures Leads(s, [Wait], t) && t == s.(phase := Waiting)
  {
    t := s.(phase := Waiting);
    WaitingIsAlive(s, t);
    OneLeads(s, Wait, t);
  }

  /** Whenever something is on its way, some steps bring it further. */
  lemma SomethingHelps(s: State) returns (more: seq<Action>, t: State)
    requires Alive(s) && Work(s) > 0 && Busy(s) == 0
    ensures Leads(s, more, t) && Work(t) < Work(s)
  {
    var a;
    if s.queue != [] || s.processor.Holding? || s.running != [] {
      a := WorkersHelp(s);
    } else if s.phase.Sending? {
      a := Send;
      SendHelps(s);
    } else if s.phase == Waiting {
      a := MessageHelps(s);
    } else {
      var w := WaitLeads(s);
      a := MessageHelps(w);
      t := HelpLeads(w, a);
      LeadsOn(s, [Wait], w, [a], t);
      return [Wait] + [a], t;
    }
    t := HelpLeads(s, a);
    more := [a];
  }

  // ----- The theorem --------------------------------------------------------------------------

  lemma {:induction false} WorkEnds(s: State) returns (more: seq<Action>, t: State)
    requires Alive(s)
    ensures Leads(s, more, t) && Work(t) == 0
    decreases Work(s)
  {
    more := BusyEnds(s, Work(s), s.issued);
    t := Run(Next, s, more).value;
    if Work(t) > 0 {
      var second, u := SomethingHelps(t);
      LeadsOn(s, more, t, second, u);
      var rest, v := WorkEnds(u);
      LeadsOn(s, more + second, u, rest, v);
      more, t := more + second + rest, v;
    }
  }

  lemma NoneOccupied(slab: map<nat, nat>)
    requires forall t: Token :: Occupied(slab, t) == 0
    ensures slab == map[]
  {
    forall i ensures i !in slab {
      assert Occupied(slab, Token(i, if i in slab then slab[i] else 0)) == 0;
    }
    assert slab.Keys == {};
  }

  lemma NothingOnItsWay(s: State)
    requires Alive(s) && Work(s) == 0
    ensures s.slab == map[] && |s.log| == s.issued
  {
    assert s.queue == [] && s.running == [] && s.results == [];
    assert Tokens(s) == multiset{};
    NoneOccupied(s.slab);
  }

  /** From every state of every run, as long as the scope lives, steps other than new calls
      and new requests lead to a state in which every issued call has been answered: queue,
      permits and channel never block one another for good. */
  lemma CallsCanBeAnswered(limits: Limits, actions: seq<Action>) returns (more: seq<Action>)
    requires RunFrom(limits, actions).Some? && limits.concurrency > 0 && limits.backlog > 0
    requires RunFrom(limits, actions).value.phase != Gone && RunFrom(limits, actions).value.processor != Exited
    ensures forall i | 0 <= i < |more| :: Continues(more[i])
    ensures RunFrom(limits, actions + more).Some?
    ensures var t := RunFrom(limits, actions + more).value;
            t.slab == map[] && |t.log| == t.issued == RunFrom(limits, actions).value.issued
  {
    RunsKeepInvariant(limits, actions);
    LimitsStay(limits, actions);
    var s := RunFrom(limits, actions).value;
    var t;
    more, t := WorkEnds(s);
    NothingOnItsWay(t);
    RunAppend(Next, Init(limits), actions, more);
  }
}
