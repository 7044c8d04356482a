/** The state machine computes what `Meaning` says: for every input and every base. */
module UrlReading {
  import opened Wrappers
  import opened UrlText
  import opened UrlParser
  import opened UrlNormal
  import opened UrlRoundTrip
  import opened UrlStart
  import opened UrlPath
  import opened UrlSetters
  import opened UrlComponents
  import UrlTheorems

  /** `y(g, o)` stands for: the loop from `g` ends with `o`. */
  type Ending = (Config, Outcome) -> bool

  /** The loop is left in this iteration. */
  predicate Stops(k: Call, g: Config, o: Outcome) {
    && InReach(k, g) && Running(k, g)
    && match Iterate(k, g)
       case Throw => o == Thrown
       case Break(url) => o == Parsed(url)
       case _ => false
  }

  /** `y` is kept by every iteration and holds at every end of the loop. The lemmas below are
      about any such relation, so that none of them looks into the whole loop. */
  ghost predicate Concludes(k: Call, y: Ending) {
    && (forall g, n, o :: StepsTo(k, g, n) ==> (y(g, o) <==> y(n, o)))
    && (forall m, u :: Finished(k, m, u) ==> y(m, Parsed(u)))
    && (forall g, o :: Stops(k, g, o) ==> y(g, o))
  }

  lemma StepYields(k: Call, y: Ending, g: Config, n: Config, o: Outcome)
    requires Concludes(k, y) && StepsTo(k, g, n) && y(n, o)
    ensures y(g, o)
  {
  }

  lemma EndYields(k: Call, y: Ending, m: Config, u: Url)
    requires Concludes(k, y) && Finished(k, m, u)
    ensures y(m, Parsed(u))
  {
  }

  /** The loop concludes alike from `a` and from `b`. */
  ghost function Alike(y: Ending): Relation {
    (a, b) => forall o :: y(a, o) <==> y(b, o)
  }

  lemma AlikeFollows(k: Call, y: Ending)
    requires Concludes(k, y)
    ensures Follows(k, Alike(y))
  {
  }

  lemma SameConclusion(y: Ending, a: Config, b: Config, o: Outcome)
    requires Alike(y)(a, b)
    ensures y(a, o) <==> y(b, o)
  {
  }

  lemma TailEnds(k: Call, y: Ending, m: Config)
    requires Concludes(k, y) && Within(k, m) && m.cursor == |k.input| && (m.state == Query || m.state == Fragment)
    ensures y(m, Parsed(m.url))
  {
    var n := m.(cursor := |k.input| + 1);
    assert StepsTo(k, m, n);
    EndYields(k, y, n, m.url);
  }

  // ----- Query and fragment -------------------------------------------------------------------

  lemma FragmentYields(k: Call, y: Ending, g: Config)
    requires Concludes(k, y) && Within(k, g) && g.state == Fragment
    ensures y(g, Parsed(g.url.(fragment := g.url.fragment + Unblanked(k.input[g.cursor..]))))
  {
    var m := g.(url := g.url.(fragment := g.url.fragment + Unblanked(k.input[g.cursor..])), cursor := |k.input|);
    AlikeFollows(k, y);
    FragmentReadsAll(k, Alike(y), g, m);
    TailEnds(k, y, m);
    SameConclusion(y, g, m, Parsed(m.url));
  }

  /** The query state up to the hash sign or the end of input. */
  lemma QueryReads(k: Call, y: Ending, g: Config, m: Config)
    requires Concludes(k, y) && Plain(k, g) && g.state == Query
    requires var h := HashAt(k.input, g.cursor);
             m == g.(url := g.url.(query := g.url.query + QueryEscaped(k.input[g.cursor..h])), cursor := h)
    ensures Alike(y)(g, m) && Plain(k, m)
  {
    AlikeFollows(k, y);
    QueryReadsTo(k, Alike(y), g, HashAt(k.input, g.cursor), m);
  }

  lemma HashEntersFragment(k: Call, m: Config, n: Config)
    requires Plain(k, m) && (m.state == Query || m.state == SchemeData) && At(k.input, m.cursor) == Some('#') && m.buffer == ""
    requires n == m.(url := m.url.(fragment := "#"), state := Fragment, cursor := m.cursor + 1)
    ensures StepsTo(k, m, n) && Plain(k, n)
  {
  }

  /** A hash sign and the fragment behind it. */
  lemma HashYields(k: Call, y: Ending, m: Config)
    requires Concludes(k, y) && Plain(k, m) && (m.state == Query || m.state == SchemeData) && At(k.input, m.cursor) == Some('#') && m.buffer == ""
    ensures y(m, Parsed(m.url.(fragment := "#" + Unblanked(k.input[m.cursor + 1..]))))
  {
    var n := m.(url := m.url.(fragment := "#"), state := Fragment, cursor := m.cursor + 1);
    HashEntersFragment(k, m, n);
    FragmentYields(k, y, n);
    StepYields(k, y, m, n, Parsed(m.url.(fragment := "#" + Unblanked(k.input[m.cursor + 1..]))));
  }

  lemma QueryYields(k: Call, y: Ending, g: Config, h: nat, u: Url, o: Outcome)
    requires Concludes(k, y) && Plain(k, g) && g.state == Query && h == HashAt(k.input, g.cursor) && g.url.fragment == "" && g.buffer == ""
    requires u == g.url.(query := g.url.query + QueryEscaped(k.input[g.cursor..h]))
    requires o == Parsed(if h == |k.input| then u else u.(fragment := "#" + Unblanked(k.input[h + 1..])))
    ensures y(g, o)
  {
    var m := g.(url := u, cursor := h);
    QueryReads(k, y, g, m);
    if h == |k.input| {
      TailEnds(k, y, m);
    } else {
      HashYields(k, y, m);
    }
    SameConclusion(y, g, m, o);
  }

  /** Right after the `?` or `#` at `e`. */
  predicate AfterMark(k: Call, n: Config, u: Url, e: nat) {
    && e < |k.input| && n.cursor == e + 1
    && (|| (k.input[e] == '?' && n.state == Query && n.url == u.(query := "?"))
        || (k.input[e] == '#' && n.state == Fragment && n.url == u.(fragment := "#")))
  }

  lemma QueryIsTail(input: string, u: Url, e: nat, v: Url)
    requires e < |input| && input[e] == '?' && u.fragment == ""
    requires v == u.(query := "?" + QueryEscaped(input[e + 1..HashAt(input, e + 1)]))
    ensures var h := HashAt(input, e + 1);
            WithTail(u, input, e) == if h == |input| then v else v.(fragment := "#" + Unblanked(input[h + 1..]))
  {
    assert HashAt(input, e) == HashAt(input, e + 1);
  }

  lemma QueryAndTail(k: Call, y: Ending, n: Config, u: Url, e: nat)
    requires Concludes(k, y) && Plain(k, n) && u.fragment == "" && AfterMark(k, n, u, e) && n.state == Query
    ensures y(n, Parsed(WithTail(u, k.input, e)))
  {
    var v := u.(query := "?" + QueryEscaped(k.input[e + 1..HashAt(k.input, e + 1)]));
    QueryIsTail(k.input, u, e, v);
    QueryYields(k, y, n, HashAt(k.input, e + 1), v, Parsed(WithTail(u, k.input, e)));
  }

  lemma FragmentIsTail(input: string, u: Url, e: nat)
    requires e < |input| && input[e] == '#'
    ensures WithTail(u, input, e) == u.(fragment := "#" + Unblanked(input[e + 1..]))
  {
    assert HashAt(input, e) == e;
  }

  lemma TailYields(k: Call, y: Ending, n: Config, u: Url, e: nat)
    requires Concludes(k, y) && Plain(k, n) && u.fragment == "" && AfterMark(k, n, u, e)
    ensures y(n, Parsed(WithTail(u, k.input, e)))
  {
    if n.state == Query {
      QueryAndTail(k, y, n, u, e);
    } else {
      FragmentYields(k, y, n);
      FragmentIsTail(k.input, u, e);
    }
  }

  lemma NoTail(u: Url, input: string)
    requires u.fragment == ""
    ensures WithTail(u, input, |input|) == u
  {
  }

  // ----- The path ---------------------------------------------------------------------------------

  lemma PathYields(k: Call, y: Ending, g: Config)
    requires Concludes(k, y) && Plain(k, g) && g.state == RelativePath && g.buffer == "" && g.url.fragment == ""
    ensures y(g, Parsed(WithPathFrom(g.url, g.url.path, k.input, g.cursor)))
  {
    var e, u := PathEnd(k.input, g.cursor), WithPath(k, g);
    AlikeFollows(k, y);
    if e == |k.input| {
      var m := PathThenNothing(k, Alike(y), g);
      EndYields(k, y, m, u);
      NoTail(u, k.input);
      SameConclusion(y, g, m, Parsed(u));
    } else {
      PathThenDelimiter(k, Alike(y), g);
      TailYields(k, y, AfterPath(k, g), u, e);
      SameConclusion(y, g, AfterPath(k, g), Parsed(WithTail(u, k.input, e)));
    }
  }

  lemma RootStep(k: Call, g: Config, n: Config)
    requires Plain(k, g) && g.state == RelativePathStart && g.buffer == ""
    requires n == g.(state := RelativePath, cursor := if IsSlashAt(At(k.input, g.cursor)) then g.cursor + 1 else g.cursor)
    ensures StepsTo(k, g, n) && Plain(k, n)
  {
  }

  lemma RootYields(k: Call, y: Ending, g: Config)
    requires Concludes(k, y) && Plain(k, g) && g.state == RelativePathStart && g.buffer == "" && g.url.path == [] && g.url.fragment == ""
    ensures y(g, Parsed(WithRoot(g.url, k.input, g.cursor)))
  {
    var n := g.(state := RelativePath, cursor := if IsSlashAt(At(k.input, g.cursor)) then g.cursor + 1 else g.cursor);
    RootStep(k, g, n);
    PathYields(k, y, n);
    StepYields(k, y, g, n, Parsed(WithRoot(g.url, k.input, g.cursor)));
  }

  // ----- The port ---------------------------------------------------------------------------------

  lemma {:induction false} UnblankedStays(text: string, i: nat)
    requires i < |text| && !IsBlank(text[i])
    ensures text[i] in Unblanked(text)
    decreases |text|
  {
    if i > 0 {
      UnblankedStays(text[1..], i - 1);
    }
  }

  lemma PortReads(k: Call, g: Config, c: char, n: Config)
    requires Plain(k, g) && g.state == Port && At(k.input, g.cursor) == Some(c) && (IsDigit(c) || IsBlank(c))
    requires n == g.(buffer := if IsBlank(c) then g.buffer else g.buffer + [c], cursor := g.cursor + 1)
    ensures StepsTo(k, g, n) && Plain(k, n)
  {
  }

  lemma PortFails(k: Call, y: Ending, g: Config, c: char)
    requires Concludes(k, y) && Plain(k, g) && g.state == Port && At(k.input, g.cursor) == Some(c)
    requires !IsDigit(c) && !IsBlank(c) && !IsDelimiter(c)
    ensures y(g, Parsed(Invalid))
  {
    var n := g.(url := Invalid, cursor := g.cursor + 1);
    assert StepsTo(k, g, n);
    EndYields(k, y, n, Invalid);
    StepYields(k, y, g, n, Parsed(Invalid));
  }

  lemma PortStops(k: Call, y: Ending, g: Config)
    requires Concludes(k, y) && Plain(k, g) && g.state == Port && EndsAuthority(At(k.input, g.cursor))
    requires g.url.path == [] && g.url.fragment == "" && AllDigits(g.buffer)
    ensures y(g, Parsed(WithRoot(SetPort(g.url, g.buffer), k.input, g.cursor)))
  {
    var n := g.(url := SetPort(g.url, g.buffer), buffer := "", state := RelativePathStart);
    assert StepsTo(k, g, n);
    RootYields(k, y, n);
    StepYields(k, y, g, n, Parsed(WithRoot(n.url, k.input, g.cursor)));
  }

  /** What the port state makes of the digits so far and the text up to the end of the
      authority. */
  function PortRead(u: Url, text: string, input: string, e: nat): Url
    requires e <= |input|
  {
    if AllDigits(text) then WithRoot(SetPort(u, text), input, e) else Invalid
  }

  lemma {:induction false} PortYields(k: Call, y: Ending, g: Config, e: nat, text: string)
    requires Concludes(k, y) && Plain(k, g) && g.state == Port && AllDigits(g.buffer) && e == AuthorityEnd(k.input, g.cursor)
    requires g.url.path == [] && g.url.fragment == "" && text == g.buffer + Unblanked(k.input[g.cursor..e])
    ensures y(g, Parsed(PortRead(g.url, text, k.input, e)))
    decreases |k.input| - g.cursor
  {
    var i := g.cursor;
    if i == e {
      assert g.buffer + "" == g.buffer;
      PortStops(k, y, g);
    } else {
      var c := k.input[i];
      if IsDigit(c) || IsBlank(c) {
        var n := g.(buffer := if IsBlank(c) then g.buffer else g.buffer + [c], cursor := i + 1);
        PortReads(k, g, c, n);
        assert g.buffer + "" == g.buffer;
        UnblankedNext(k.input, i, e, g.buffer, n.buffer);
        PortYields(k, y, n, e, text);
        StepYields(k, y, g, n, Parsed(PortRead(g.url, text, k.input, e)));
      } else {
        PortFails(k, y, g, c);
        UnblankedStays(k.input[i..e], 0);
        assert c in text;
      }
    }
  }

  // ----- The host ---------------------------------------------------------------------------------

  lemma {:induction false} HostEndWithin(input: string, i: nat, bracket: bool)
    requires i <= |input|
    ensures var c, e := HostEnd(input, i, bracket), AuthorityEnd(input, i);
            c <= e && (c < e <==> !EndsAuthority(At(input, c))) && AuthorityEnd(input, c) == e
    decreases |input| - i
  {
    if i < |input| && !IsDelimiter(input[i]) && !(input[i] == ':' && !bracket) {
      HostEndWithin(input, i + 1, NextBracket(bracket, input[i]));
    }
  }

  lemma HostFails(k: Call, y: Ending, m: Config)
    requires Concludes(k, y) && InHost(k, m) && m.state == Host && k.override == None && AtHostEnd(k, m) && m.buffer == ""
    ensures y(m, Parsed(Invalid))
  {
    if EndsAuthority(At(k.input, m.cursor)) {
      var n := m.(url := Invalid, state := RelativePathStart);
      assert StepsTo(k, m, n);
      EndYields(k, y, n, Invalid);
      StepYields(k, y, m, n, Parsed(Invalid));
    } else {
      var n := m.(url := Invalid, state := Port, cursor := m.cursor + 1);
      assert StepsTo(k, m, n);
      EndYields(k, y, n, Invalid);
      StepYields(k, y, m, n, Parsed(Invalid));
    }
  }

  lemma HostThenRoot(k: Call, y: Ending, m: Config)
    requires Concludes(k, y) && InHost(k, m) && m.state == Host && k.override == None && EndsAuthority(At(k.input, m.cursor)) && m.buffer != ""
    requires m.url.path == [] && m.url.fragment == ""
    ensures y(m, Parsed(WithRoot(m.url.(host := LowerCase(m.buffer)), k.input, m.cursor)))
  {
    var n := m.(url := m.url.(host := LowerCase(m.buffer)), buffer := "", state := RelativePathStart);
    assert StepsTo(k, m, n);
    RootYields(k, y, n);
    StepYields(k, y, m, n, Parsed(WithRoot(n.url, k.input, m.cursor)));
  }

  lemma ColonStep(k: Call, m: Config, n: Config)
    requires InHost(k, m) && m.state == Host && k.override == None && AtHostEnd(k, m) && Is(At(k.input, m.cursor), ':')
    requires m.buffer != ""
    requires n == m.(url := m.url.(host := LowerCase(m.buffer)), buffer := "", state := Port, cursor := m.cursor + 1)
    ensures StepsTo(k, m, n) && Plain(k, n)
  {
  }

  lemma HostThenPort(k: Call, y: Ending, m: Config, e: nat, port: string)
    requires Concludes(k, y) && InHost(k, m) && m.state == Host && k.override == None && AtHostEnd(k, m) && Is(At(k.input, m.cursor), ':')
    requires m.buffer != "" && m.url.path == [] && m.url.fragment == "" && e == AuthorityEnd(k.input, m.cursor + 1)
    requires port == Unblanked(k.input[m.cursor + 1..e])
    ensures y(m, Parsed(PortRead(m.url.(host := LowerCase(m.buffer)), port, k.input, e)))
  {
    var n := m.(url := m.url.(host := LowerCase(m.buffer)), buffer := "", state := Port, cursor := m.cursor + 1);
    ColonStep(k, m, n);
    assert "" + port == port;
    PortYields(k, y, n, e, port);
    StepYields(k, y, m, n, Parsed(PortRead(n.url, port, k.input, e)));
  }

  /** Where the host state begins. */
  ghost predicate AtHostText(k: Call, g: Config) {
    && Plain(k, g) && g.state == Host && g.buffer == "" && !g.seenBracket
    && g.url.path == [] && g.url.fragment == "" && g.url.port == ""
  }

  lemma PortIsSet(u: Url, digits: string)
    requires u.port == "" && AllDigits(digits)
    ensures SetPort(u, digits) == u.(port := PortOf(u.scheme, digits))
  {
  }

  lemma NoHost(u: Url, input: string, h: nat, e: nat)
    requires h <= e <= |input| && Unblanked(input[h..HostEnd(input, h, false)]) == ""
    ensures WithHostFrom(u, input, h, e) == Invalid
  {
  }

  lemma HostAlone(u: Url, input: string, h: nat, e: nat, host: string)
    requires h <= e <= |input| && e == HostEnd(input, h, false) && host == Unblanked(input[h..e]) != "" && u.port == ""
    ensures WithHostFrom(u, input, h, e) == WithRoot(u.(host := LowerCase(host)), input, e)
  {
    assert u.(host := LowerCase(host), port := "") == u.(host := LowerCase(host));
  }

  lemma HostAndPortFrom(u: Url, input: string, h: nat, e: nat, host: string, port: string)
    requires h <= e <= |input| && u.port == "" && h <= HostEnd(input, h, false) < e
    requires var c := HostEnd(input, h, false); host == Unblanked(input[h..c]) != "" && port == Unblanked(input[c + 1..e])
    ensures WithHostFrom(u, input, h, e) == PortRead(u.(host := LowerCase(host)), port, input, e)
  {
    if AllDigits(port) {
      PortIsSet(u.(host := LowerCase(host)), port);
    }
  }

  /** The host state gets to the end of the host. */
  lemma HostIsRead(k: Call, y: Ending, g: Config) returns (m: Config)
    requires Concludes(k, y) && AtHostText(k, g)
    ensures Alike(y)(g, m) && InHost(k, m) && AtHostEnd(k, m) && g.cursor <= m.cursor == HostEnd(k.input, g.cursor, false)
    ensures m == g.(buffer := Unblanked(k.input[g.cursor..m.cursor]), cursor := m.cursor, seenBracket := m.seenBracket)
  {
    AlikeFollows(k, y);
    m := HostReadsAll(k, Alike(y), g);
    assert "" + Unblanked(k.input[g.cursor..m.cursor]) == Unblanked(k.input[g.cursor..m.cursor]);
  }

  lemma HostGoesOn(k: Call, y: Ending, m: Config, h: nat, e: nat)
    requires Concludes(k, y) && InHost(k, m) && m.state == Host && k.override == None && AtHostEnd(k, m)
    requires h <= m.cursor == HostEnd(k.input, h, false) && e == AuthorityEnd(k.input, h) && m.buffer == Unblanked(k.input[h..m.cursor])
    requires m.url.path == [] && m.url.fragment == "" && m.url.port == ""
    ensures y(m, Parsed(WithHostFrom(m.url, k.input, h, e)))
  {
    HostEndWithin(k.input, h, false);
    if m.buffer == "" {
      NoHost(m.url, k.input, h, e);
      HostFails(k, y, m);
    } else if m.cursor == e {
      HostAlone(m.url, k.input, h, e, m.buffer);
      HostThenRoot(k, y, m);
    } else {
      var port := Unblanked(k.input[m.cursor + 1..e]);
      HostAndPortFrom(m.url, k.input, h, e, m.buffer, port);
      HostThenPort(k, y, m, e, port);
    }
  }

  lemma HostYields(k: Call, y: Ending, g: Config, e: nat)
    requires Concludes(k, y) && AtHostText(k, g) && e == AuthorityEnd(k.input, g.cursor)
    ensures y(g, Parsed(WithHostFrom(g.url, k.input, g.cursor, e)))
  {
    var m := HostIsRead(k, y, g);
    HostGoesOn(k, y, m, g.cursor, e);
    SameConclusion(y, g, m, Parsed(WithHostFrom(g.url, k.input, g.cursor, e)));
  }
}
