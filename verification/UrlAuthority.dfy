/** The authority: where the parser enters it, and where it rewinds to at its end. */
module UrlAuthority {
  import opened Wrappers
  import opened UrlText
  import opened UrlParser
  import opened UrlNormal
  import opened UrlRoundTrip
  import opened UrlStart

  // ----- The configurations of a parse ------------------------------------------------------

  /** The configuration after the next iteration, if the loop goes on. */
  function Next(k: Call, g: Config): Option<Config> {
    if InReach(k, g) && Running(k, g) && (Iterate(k, g).Advance? || Iterate(k, g).Stay?) then Some(After(Iterate(k, g)))
    else None
  }

  lemma NextSteps(k: Call, g: Config)
    ensures Next(k, g).Some? ==> StepsTo(k, g, Next(k, g).value)
  {
  }

  lemma NextFollows(k: Call, rel: Relation, g: Config)
    requires Follows(k, rel)
    ensures Next(k, g).Some? ==> rel(g, Next(k, g).value)
  {
    NextSteps(k, g);
  }

  /** The configuration after `n` iterations, if the loop gets that far. */
  function Trace(k: Call, url: Url, n: nat): Option<Config> {
    if n == 0 then Some(Start(k, url))
    else
      match Trace(k, url, n - 1)
      case None => None
      case Some(g) => Next(k, g)
  }

  lemma {:induction false} TraceFollows(k: Call, rel: Relation, url: Url, n: nat)
    requires Follows(k, rel) && Trace(k, url, n).Some?
    ensures rel(Start(k, url), Trace(k, url, n).value)
    decreases n
  {
    if n > 0 {
      var g := Trace(k, url, n - 1).value;
      TraceFollows(k, rel, url, n - 1);
      NextFollows(k, rel, g);
      assert Trace(k, url, n) == Next(k, g);
    }
  }

  /** Parsing is the loop from any configuration it passes through. */
  lemma TraceIsParse(k: Call, url: Url, n: nat)
    requires Trace(k, url, n).Some?
    ensures InReach(k, Trace(k, url, n).value) && Loop(k, Trace(k, url, n).value) == Parse(k, url)
  {
    var rel: Relation := (a, b) => SameEnd(k, a, b);
    SameEndFollows(k);
    TraceFollows(k, rel, url, n);
    assert SameEnd(k, Start(k, url), Trace(k, url, n).value);
  }

  // ----- The rewind -----------------------------------------------------------------------------

  /** The configuration in which the authority state is left or the loop ends. */
  function LeaveAuthority(k: Call, g: Config): Config
    requires InReach(k, g) && g.state == State.Authority
    decreases |k.input| + 1 - g.cursor
  {
    if !Running(k, g) then g
    else
      var n := After(Iterate(k, g));
      IterateProgresses(k, g);
      if n.state != State.Authority then n else LeaveAuthority(k, n)
  }

  /** The buffer is the text since `from` or since the last `@`, and holds no delimiter. */
  ghost predicate InAuthority(k: Call, g: Config, from: nat) {
    var start := g.cursor - |g.buffer|;
    && InReach(k, g) && g.state == State.Authority && !g.url.isInvalid && g.cursor <= |k.input|
    && from <= start && g.buffer == k.input[start..g.cursor] && (start == from || k.input[start - 1] == '@')
    && (forall i | start <= i < g.cursor :: !IsDelimiter(k.input[i]) && k.input[i] != '@')
  }

  /** At the last `@`, or where the authority began, with no `@` before the delimiter. */
  ghost predicate AtHostStart(k: Call, n: Config, from: nat) {
    && n.state == Host && n.buffer == "" && from <= n.cursor <= |k.input|
    && (n.cursor == from || k.input[n.cursor - 1] == '@') && NoAtAhead(k.input, n.cursor)
  }

  lemma AuthorityRewinds(k: Call, g: Config, from: nat)
    requires InAuthority(k, g, from) && EndsAuthority(At(k.input, g.cursor))
    ensures AtHostStart(k, After(OnAuthority(k, g, At(k.input, g.cursor))), from)
  {
    NoAtBeforeDelimiter(k.input, g.cursor - |g.buffer|, g.cursor);
  }

  lemma AuthorityReads(k: Call, g: Config, from: nat)
    requires InAuthority(k, g, from) && !EndsAuthority(At(k.input, g.cursor))
    ensures InAuthority(k, After(OnAuthority(k, g, At(k.input, g.cursor))), from)
  {
    var c, start := k.input[g.cursor], g.cursor - |g.buffer|;
    if c == '@' {
      CredentialsStayValid(g.url, if g.seenAt then g.buffer + "%40" else g.buffer);
      assert k.input[g.cursor + 1..g.cursor + 1] == "";
    } else {
      assert k.input[start..g.cursor + 1] == k.input[start..g.cursor] + [c];
    }
  }

  lemma AuthorityIterates(k: Call, g: Config, from: nat)
    requires InAuthority(k, g, from)
    ensures Running(k, g) && StepsTo(k, g, After(OnAuthority(k, g, At(k.input, g.cursor))))
  {
  }

  /** The parser rewinds to the character after the last `@` of the authority, or to where
      the authority began: never to the left of it, and never past the delimiter. */
  lemma {:induction false} RewindStaysInAuthority(k: Call, g: Config, from: nat)
    requires InAuthority(k, g, from)
    ensures AtHostStart(k, LeaveAuthority(k, g), from)
    decreases |k.input| + 1 - g.cursor
  {
    var c := At(k.input, g.cursor);
    AuthorityIterates(k, g, from);
    if EndsAuthority(c) {
      AuthorityRewinds(k, g, from);
    } else {
      AuthorityReads(k, g, from);
      RewindStaysInAuthority(k, After(OnAuthority(k, g, c)), from);
    }
  }

  lemma AuthorityGoesOn(k: Call, g: Config, from: nat)
    requires InAuthority(k, g, from)
    ensures var n := After(OnAuthority(k, g, At(k.input, g.cursor)));
            && Next(k, g) == Some(n)
            && LeaveAuthority(k, g) == (if EndsAuthority(At(k.input, g.cursor)) then n else LeaveAuthority(k, n))
  {
    AuthorityIterates(k, g, from);
    if !EndsAuthority(At(k.input, g.cursor)) {
      AuthorityReads(k, g, from);
    }
  }

  lemma TraceNext(k: Call, url: Url, n: nat, g: Config, h: Config)
    requires Trace(k, url, n) == Some(g) && Next(k, g) == Some(h)
    ensures Trace(k, url, n + 1) == Some(h)
  {
  }

  lemma AuthorityTraced(k: Call, url: Url, n: nat, g: Config, from: nat) returns (h: Config)
    requires Trace(k, url, n) == Some(g) && InAuthority(k, g, from)
    ensures Trace(k, url, n + 1) == Some(h)
    ensures EndsAuthority(At(k.input, g.cursor)) ==> LeaveAuthority(k, g) == h
    ensures !EndsAuthority(At(k.input, g.cursor)) ==>
              InAuthority(k, h, from) && h.cursor == g.cursor + 1 && LeaveAuthority(k, g) == LeaveAuthority(k, h)
  {
    h := After(OnAuthority(k, g, At(k.input, g.cursor)));
    AuthorityGoesOn(k, g, from);
    TraceNext(k, url, n, g, h);
    if !EndsAuthority(At(k.input, g.cursor)) {
      AuthorityReads(k, g, from);
    }
  }

  /** The loop passes through the configuration in which the authority is left. */
  lemma {:induction false} LeaveIsTraced(k: Call, url: Url, n: nat, g: Config, from: nat) returns (m: nat)
    requires Trace(k, url, n) == Some(g) && InAuthority(k, g, from)
    ensures n < m && Trace(k, url, m) == Some(LeaveAuthority(k, g))
    decreases |k.input| + 1 - g.cursor
  {
    var h := AuthorityTraced(k, url, n, g, from);
    m := n + 1;
    if !EndsAuthority(At(k.input, g.cursor)) {
      m := LeaveIsTraced(k, url, n + 1, h, from);
    }
  }

  /** The parse enters the authority state after iteration `n`. */
  ghost predicate EntersAuthority(k: Call, url: Url, n: nat) {
    && Trace(k, url, n).Some? && Trace(k, url, n).value.state == State.Authority
    && (n > 0 ==> Trace(k, url, n - 1).value.state != State.Authority)
  }

  /** It does so with an empty buffer, inside the input. */
  lemma EntryIsClean(k: Call, url: Url, n: nat)
    requires !url.isInvalid && EntersAuthority(k, url, n)
    ensures InAuthority(k, Trace(k, url, n).value, Trace(k, url, n).value.cursor)
  {
    var n' := Trace(k, url, n).value;
    if n > 0 {
      NextSteps(k, Trace(k, url, n - 1).value);
      EntryStep(k, Trace(k, url, n - 1).value, n');
    }
    assert k.input[n'.cursor..n'.cursor] == "";
  }

  lemma EntryStep(k: Call, g: Config, n: Config)
    requires StepsTo(k, g, n) && g.state != State.Authority && n.state == State.Authority
    ensures InReach(k, n) && n.buffer == "" && n.cursor <= |k.input| && !n.url.isInvalid
  {
    IterateProgresses(k, g);
  }

  /** In every parse, with any input, base and state override: the host begins just after
      the last `@` of the authority, or where the authority began, and never left of it. */
  lemma HostBeginsInAuthority(k: Call, url: Url, n: nat) returns (m: nat)
    requires !url.isInvalid && EntersAuthority(k, url, n)
    ensures n < m && Trace(k, url, m).Some? && AtHostStart(k, Trace(k, url, m).value, Trace(k, url, n).value.cursor)
  {
    var g := Trace(k, url, n).value;
    EntryIsClean(k, url, n);
    RewindStaysInAuthority(k, g, g.cursor);
    m := LeaveIsTraced(k, url, n, g, g.cursor);
  }

  lemma {:induction false} CredentialsStayValid(u: Url, text: string)
    ensures AddCredentials(u, text).isInvalid == u.isInvalid
    decreases |text|
  {
    if text != "" {
      CredentialsStayValid(u, text[..|text| - 1]);
    }
  }
}
