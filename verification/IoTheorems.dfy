/** What holds in every reachable state of the I/O protocol. */
module IoTheorems {
  import opened Wrappers
  import opened Runs
  import opened IoProtocol
  import opened IoProof

  lemma InitHolds(limits: Limits)
    ensures Inv(Init(limits))
  {
  }

  /** Every run keeps the invariant; in particular none panics. */
  lemma RunsKeepInvariant(limits: Limits, actions: seq<Action>)
    requires RunFrom(limits, actions).Some?
    ensures Inv(RunFrom(limits, actions).value)
  {
    InitHolds(limits);
    forall s, a | Inv(s) && Next(s, a).Some? ensures Inv(Next(s, a).value) {
      NextKeeps(s, a);
    }
    Invariant(Next, Init(limits), actions, s => Inv(s));
  }

  /** In every run each callback is handed out at most once, with the result of the call
      it was issued with, although slab indices are reused; the slab lookup and the
      unwrapping of buffers never fail. */
  lemma ResultsMeetTheirCallbacks(limits: Limits, actions: seq<Action>)
    requires RunFrom(limits, actions).Some?
    ensures var s := RunFrom(limits, actions).value;
            && s.phase != Panicked
            && (forall d | 0 <= d < |s.log| :: s.log[d].callback == s.log[d].result)
            && (forall d, e | 0 <= d < e < |s.log| :: s.log[d].callback != s.log[e].callback)
  {
    RunsKeepInvariant(limits, actions);
  }

  /** The indices in the task queue, in running tasks and in the result channel are
      pairwise distinct and occupied by the callbacks of their own calls. */
  lemma TokensAreDistinct(limits: Limits, actions: seq<Action>, t: Token, u: Token)
    requires RunFrom(limits, actions).Some? && RunFrom(limits, actions).value.phase != Gone
    ensures var s := RunFrom(limits, actions).value;
            && Tokens(s)[t] <= 1
            && (Tokens(s)[t] == 1 ==> t.index in s.slab && s.slab[t.index] == t.call)
            && (t in Tokens(s) && u in Tokens(s) && t.index == u.index ==> t == u)
  {
    RunsKeepInvariant(limits, actions);
    var s := RunFrom(limits, actions).value;
    assert Tokens(s)[t] <= Occupied(s.slab, t) && Tokens(s)[u] <= Occupied(s.slab, u);
  }

  /** Until the scope is dropped no call is lost: each was answered or has exactly one
      token on its way. */
  lemma NoCallIsLost(limits: Limits, actions: seq<Action>)
    requires RunFrom(limits, actions).Some?
    ensures var s := RunFrom(limits, actions).value;
            s.processor != Exited && s.phase != Gone ==>
              && |s.slab| + |s.log| == s.issued
              && forall i | i in s.slab :: Tokens(s)[Token(i, s.slab[i])] == 1
  {
    RunsKeepInvariant(limits, actions);
    var s := RunFrom(limits, actions).value;
    if s.processor != Exited && s.phase != Gone {
      forall i | i in s.slab ensures Tokens(s)[Token(i, s.slab[i])] == 1 {
        assert Tokens(s)[Token(i, s.slab[i])] == Occupied(s.slab, Token(i, s.slab[i]));
      }
    }
  }

  /** When nothing is queued, running or answered, no callback is left waiting. */
  lemma QuietMeansDone(limits: Limits, actions: seq<Action>)
    requires RunFrom(limits, actions).Some?
    ensures var s := RunFrom(limits, actions).value;
            s.phase == Waiting && s.results == [] && s.running == [] && s.queue == [] && s.processor == Selecting
            ==> s.slab == map[] && |s.log| == s.issued
  {
    var s := RunFrom(limits, actions).value;
    NoCallIsLost(limits, actions);
    if s.phase == Waiting && s.results == [] && s.running == [] && s.queue == [] && s.processor == Selecting {
      assert Tokens(s) == multiset{};
      assert forall i | i in s.slab :: Tokens(s)[Token(i, s.slab[i])] == 1;
      assert s.slab.Keys == {};
    }
  }

  // ----- The limits ------------------------------------------------------------------------

  /** The last action of the run issued a call that counts against the budget. */
  predicate IssuesCounted(limits: Limits, actions: seq<Action>)
    requires actions != []
  {
    var before, after, a := RunFrom(limits, actions[..|actions| - 1]), RunFrom(limits, actions), actions[|actions| - 1];
    a.Issue? && a.counts && before.Some? && after.Some? && before.value.issued < after.value.issued
  }

  /** How many of the run's counted `issue` actions issued a call. */
  function CountedCalls(limits: Limits, actions: seq<Action>): nat {
    if actions == [] then 0
    else CountedCalls(limits, actions[..|actions| - 1]) + if IssuesCounted(limits, actions) then 1 else 0
  }

  lemma StepSpends(s: State, a: Action)
    requires Next(s, a).Some?
    ensures var t := Next(s, a).value;
            t.budget == if a.Issue? && a.counts && s.issued < t.issued then s.budget - 1 else s.budget
  {
  }

  lemma {:induction false} BudgetIsLeft(limits: Limits, actions: seq<Action>)
    requires RunFrom(limits, actions).Some?
    ensures RunFrom(limits, actions).value.budget == limits.calls - CountedCalls(limits, actions)
    decreases |actions|
  {
    if actions != [] {
      var front := actions[..|actions| - 1];
      BudgetIsLeft(limits, front);
      StepSpends(RunFrom(limits, front).value, actions[|actions| - 1]);
    }
  }

  /** What `issue` does with a vacant index: the callback is stored and its token is on the
      way to the queue. */
  predicate Issued(s: State, index: nat, t: State) {
    && t.issued == s.issued + 1 && t.slab == s.slab[index := s.issued]
    && t.queue == s.queue && t.phase == Sending(Token(index, s.issued))
  }

  /** Along every run at most `limits.calls` counted calls are issued. A further one is
      issued exactly while there were fewer, and otherwise changes nothing; a call that does
      not count is never refused. */
  lemma CallLimitIsExact(limits: Limits, actions: seq<Action>, index: nat)
    requires RunFrom(limits, actions).Some?
    ensures CountedCalls(limits, actions) <= limits.calls
    ensures var s := RunFrom(limits, actions).value;
            s.phase == Scripting && index !in s.slab ==>
              var counted, free := Next(s, Issue(index, true)), Next(s, Issue(index, false));
              && counted.Some? && free.Some? && Issued(s, index, free.value)
              && (s.issued < counted.value.issued <==> CountedCalls(limits, actions) < limits.calls)
              && (if s.issued < counted.value.issued then Issued(s, index, counted.value) else counted.value == s)
  {
    BudgetIsLeft(limits, actions);
  }

  /** A call that cannot be sent because the processor is gone leaves no callback behind, but
      what it took from the budget stays spent. */
  lemma FailedSendIsUndone(limits: Limits, actions: seq<Action>, index: nat, counts: bool)
    requires RunFrom(limits, actions).Some?
    requires var s := RunFrom(limits, actions).value;
             s.processor == Exited && s.phase == Scripting && index !in s.slab && (counts ==> CountedCalls(limits, actions) < limits.calls)
    ensures RunFrom(limits, actions + [Issue(index, counts), Send]).Some?
    ensures var s, t := RunFrom(limits, actions).value, RunFrom(limits, actions + [Issue(index, counts), Send]).value;
            && t.slab == s.slab && t.queue == s.queue && t.phase == Scripting && t.log == s.log
            && CountedCalls(limits, actions + [Issue(index, counts), Send]) == CountedCalls(limits, actions) + if counts then 1 else 0
  {
    var s := RunFrom(limits, actions).value;
    BudgetIsLeft(limits, actions);
    var issued := Next(s, Issue(index, counts)).value;
    var failed := Next(issued, Send).value;
    Path(Next, [s, issued, failed], [Issue(index, counts), Send]);
    RunAppend(Next, Init(limits), actions, [Issue(index, counts), Send]);
    BudgetIsLeft(limits, actions + [Issue(index, counts), Send]);
    assert failed.slab == s.slab;
  }

  /** Tasks never exceed the concurrency limit, calls never exceed the budget. */
  lemma TasksAreBounded(limits: Limits, actions: seq<Action>)
    requires RunFrom(limits, actions).Some?
    ensures var s := RunFrom(limits, actions).value;
            && |s.running| == limits.concurrency - s.permits && CountedCalls(limits, actions) == limits.calls - s.budget
            && |s.queue| <= limits.backlog
  {
    RunsKeepInvariant(limits, actions);
    LimitsStay(limits, actions);
    BudgetIsLeft(limits, actions);
  }

  lemma LimitsStay(limits: Limits, actions: seq<Action>)
    requires RunFrom(limits, actions).Some?
    ensures RunFrom(limits, actions).value.limits == limits
  {
    forall s: State, a | s.limits == limits && Next(s, a).Some? ensures Next(s, a).value.limits == limits {
      NextKeepsLimits(s, a);
    }
    Invariant(Next, Init(limits), actions, (s: State) => s.limits == limits);
  }

  lemma NextKeepsLimits(s: State, a: Action)
    requires Next(s, a).Some?
    ensures Next(s, a).value.limits == s.limits
  {
  }

  /** Any remote buffer held by a task, by a result in the channel or by a delivered
      result is the only handle to an entry of the set whose value is still there. */
  lemma BuffersSurvive(limits: Limits, actions: seq<Action>, a: Address)
    requires RunFrom(limits, actions).Some? && RunFrom(limits, actions).value.phase != Gone
    ensures var s := RunFrom(limits, actions).value;
            a in Handles(s) ==> Handles(s)[a] == 1 && a in s.strong && s.strong[a]
  {
    RunsKeepInvariant(limits, actions);
  }

  /** A collection, however its scan interleaves with tasks that drop their buffers,
      removes every entry that had no handle when it began and none that has a handle when
      it ends; nothing else changes. */
  lemma CollectionIsExact(limits: Limits, actions: seq<Action>)
    requires RunFrom(limits, actions).Some? && Next(RunFrom(limits, actions).value, RemoveDoomed).Some?
    ensures var s := RunFrom(limits, actions).value;
            var n := Next(s, RemoveDoomed).value;
            && s.phase.Collecting?
            && (forall a | a in s.phase.orphans :: a !in n.strong)
            && (forall a | a in s.strong && a !in n.strong :: a !in Handles(s))
            && (forall a | a in n.strong :: a in s.strong && n.strong[a] == s.strong[a])
  {
    RunsKeepInvariant(limits, actions);
  }

  /** Every request that a task awaits is in the channel, and no other task awaits it. */
  lemma AskersAreHeard(limits: Limits, actions: seq<Action>, i: nat, r: nat)
    requires RunFrom(limits, actions).Some?
    requires i < |RunFrom(limits, actions).value.running| && r in RunFrom(limits, actions).value.running[i].open
    ensures var s := RunFrom(limits, actions).value;
            && (s.phase != Gone ==> Request(r) in s.results)
            && forall j | 0 <= j < |s.running| && r in s.running[j].open :: j == i
  {
    RunsKeepInvariant(limits, actions);
  }
}
