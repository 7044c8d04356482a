/** Parsing a printed normal URL gives back the URL. */
module UrlRoundTrip {
  import opened Wrappers
  import opened UrlText
  import opened UrlParser
  import opened UrlNormal
  import P = UrlPrinter

  // ----- Steps and stretches of input ------------------------------------------------

  /** The input shows `s` at position `i`. */
  ghost predicate Sees(k: Call, i: nat, s: string) {
    i + |s| <= |k.input| && k.input[i..i + |s|] == s
  }

  lemma SeesParts(k: Call, i: nat, a: string, b: string)
    requires Sees(k, i, a + b)
    ensures Sees(k, i, a) && Sees(k, i + |a|, b)
  {
    assert (a + b)[..|a|] == a && (a + b)[|a|..] == b;
  }

  lemma SeesHead(k: Call, i: nat, s: string)
    requires Sees(k, i, s) && s != ""
    ensures At(k.input, i) == Some(s[0]) && Sees(k, i + 1, s[1..])
  {
    assert k.input[i] == k.input[i..i + |s|][0];
  }

  /** One iteration leads from `g` to `n`. */
  predicate StepsTo(k: Call, g: Config, n: Config) {
    && InReach(k, g) && Running(k, g)
    && var step := Iterate(k, g);
       (step.Advance? || step.Stay?) && n == After(step)
  }

  type Relation = (Config, Config) -> bool

  /** `rel` contains every iteration and every sequence of iterations. The lemmas below
      are about any such relation, so that none of them looks into the whole loop. */
  ghost predicate Follows(k: Call, rel: Relation) {
    && (forall g :: rel(g, g))
    && (forall a, b, c :: rel(a, b) && rel(b, c) ==> rel(a, c))
    && (forall g, n :: StepsTo(k, g, n) ==> rel(g, n))
  }

  /** Parsing without override, base or invalidity, inside the input. */
  ghost predicate Plain(k: Call, g: Config) {
    k.override == None && InReach(k, g) && !g.url.isInvalid && g.cursor <= |k.input|
  }

  /** Characters that a state adds to the buffer as they are. */
  predicate Buffers(state: State, c: char) {
    match state
    case Scheme => IsSchemeChar(c) && !IsUpper(c)
    case Authority => !IsDelimiter(c) && c != '@'
    case FileHost => !IsDelimiter(c) && !IsBlank(c)
    case Port => IsDigit(c)
    case RelativePath => IsSafe(c) && !IsSlash(c)
    case _ => false
  }

  lemma BufferStep(k: Call, rel: Relation, g: Config, c: char)
    requires Follows(k, rel) && Plain(k, g) && At(k.input, g.cursor) == Some(c) && Buffers(g.state, c)
    ensures var n := g.(buffer := g.buffer + [c], cursor := g.cursor + 1); rel(g, n) && Plain(k, n)
  {
    assert StepsTo(k, g, g.(buffer := g.buffer + [c], cursor := g.cursor + 1));
  }

  /** Text that a state only buffers. */
  lemma {:induction false} ReadBuffer(k: Call, rel: Relation, g: Config, s: string)
    requires Follows(k, rel) && Plain(k, g) && Sees(k, g.cursor, s)
    requires forall i | 0 <= i < |s| :: Buffers(g.state, s[i])
    ensures rel(g, g.(buffer := g.buffer + s, cursor := g.cursor + |s|))
    decreases |s|
  {
    if s == "" {
      assert g.buffer + s == g.buffer;
    } else {
      SeesHead(k, g.cursor, s);
      BufferStep(k, rel, g, s[0]);
      var n := g.(buffer := g.buffer + [s[0]], cursor := g.cursor + 1);
      ReadBuffer(k, rel, n, s[1..]);
      assert n.buffer + s[1..] == g.buffer + s;
    }
  }

  lemma DataStep(k: Call, rel: Relation, g: Config, c: char)
    requires Follows(k, rel) && Plain(k, g) && g.state == SchemeData && At(k.input, g.cursor) == Some(c) && IsSafe(c)
    ensures var n := g.(url := g.url.(schemeData := g.url.schemeData + [c]), cursor := g.cursor + 1); rel(g, n) && Plain(k, n)
  {
    assert StepsTo(k, g, g.(url := g.url.(schemeData := g.url.schemeData + [c]), cursor := g.cursor + 1));
  }

  lemma {:induction false} ReadData(k: Call, rel: Relation, g: Config, s: string)
    requires Follows(k, rel) && Plain(k, g) && g.state == SchemeData && Sees(k, g.cursor, s)
    requires forall i | 0 <= i < |s| :: IsSafe(s[i])
    ensures rel(g, g.(url := g.url.(schemeData := g.url.schemeData + s), cursor := g.cursor + |s|))
    decreases |s|
  {
    if s == "" {
      assert g.url.schemeData + s == g.url.schemeData;
    } else {
      SeesHead(k, g.cursor, s);
      var n := g.(url := g.url.(schemeData := g.url.schemeData + [s[0]]), cursor := g.cursor + 1);
      DataStep(k, rel, g, s[0]);
      ReadData(k, rel, n, s[1..]);
      assert n.url.schemeData + s[1..] == g.url.schemeData + s;
    }
  }

  lemma {:induction false} ColonsOfPrefix(s: string, n: nat)
    requires ColonsBracketed(s) && n <= |s|
    ensures ColonsBracketed(s[..n])
    decreases |s|
  {
    if n == |s| {
      assert s[..n] == s;
    } else {
      ColonsOfPrefix(s[..|s| - 1], n);
      assert s[..|s| - 1][..n] == s[..n];
    }
  }

  /** The bracket flag after one more character. */
  function NextBracket(bracket: bool, c: char): bool {
    if c == '[' then true else if c == ']' then false else bracket
  }

  lemma HostStep(k: Call, rel: Relation, g: Config, c: char)
    requires Follows(k, rel) && Plain(k, g) && g.state == Host && At(k.input, g.cursor) == Some(c)
    requires !IsDelimiter(c) && !IsBlank(c) && (c == ':' ==> g.seenBracket)
    ensures rel(g, g.(buffer := g.buffer + [c], cursor := g.cursor + 1, seenBracket := NextBracket(g.seenBracket, c)))
  {
    assert StepsTo(k, g, g.(buffer := g.buffer + [c], cursor := g.cursor + 1, seenBracket := NextBracket(g.seenBracket, c)));
  }

  lemma BracketNext(s: string, n: nat)
    requires n < |s|
    ensures s[..n + 1] == s[..n] + [s[n]]
    ensures BracketAfter(s[..n + 1]) == NextBracket(BracketAfter(s[..n]), s[n])
  {
    assert s[..n + 1][..n] == s[..n];
  }

  lemma ColonInBrackets(s: string, n: nat)
    requires n < |s| && ColonsBracketed(s) && s[n] == ':'
    ensures BracketAfter(s[..n])
  {
    ColonsOfPrefix(s, n + 1);
    assert s[..n + 1][..n] == s[..n];
  }

  /** The host state after `n` characters of `s`. */
  function HostAfter(g: Config, s: string, n: nat): Config
    requires n <= |s|
  {
    g.(buffer := s[..n], cursor := g.cursor + n, seenBracket := BracketAfter(s[..n]))
  }

  lemma ReadHostChar(k: Call, rel: Relation, g: Config, s: string, n: nat)
    requires Follows(k, rel) && Plain(k, g) && g.state == Host
    requires n < |s| && Sees(k, g.cursor, s) && HostText(s) && ColonsBracketed(s)
    ensures rel(HostAfter(g, s, n), HostAfter(g, s, n + 1))
  {
    SeesAt(k, g.cursor, s, n);
    if s[n] == ':' {
      ColonInBrackets(s, n);
    }
    BracketNext(s, n);
    HostStep(k, rel, HostAfter(g, s, n), s[n]);
  }

  lemma {:induction false} ReadHost(k: Call, rel: Relation, g: Config, s: string, n: nat)
    requires Follows(k, rel) && Plain(k, g) && g.state == Host && g.buffer == "" && !g.seenBracket
    requires n <= |s| && Sees(k, g.cursor, s) && HostText(s) && ColonsBracketed(s)
    ensures rel(g, HostAfter(g, s, n))
    decreases n
  {
    if n == 0 {
      assert s[..0] == "";
      assert HostAfter(g, s, 0) == g;
    } else {
      ReadHost(k, rel, g, s, n - 1);
      ReadHostChar(k, rel, g, s, n - 1);
    }
  }

  lemma SeesAt(k: Call, i: nat, s: string, n: nat)
    requires Sees(k, i, s) && n < |s|
    ensures At(k.input, i + n) == Some(s[n])
  {
    assert k.input[i + n] == k.input[i..i + |s|][n];
  }

  lemma QueryStep(k: Call, rel: Relation, g: Config, c: char)
    requires Follows(k, rel) && Plain(k, g) && g.state == Query && At(k.input, g.cursor) == Some(c) && IsQuerySafe(c)
    ensures var n := g.(url := g.url.(query := g.url.query + [c]), cursor := g.cursor + 1); rel(g, n) && Plain(k, n)
  {
    assert StepsTo(k, g, g.(url := g.url.(query := g.url.query + [c]), cursor := g.cursor + 1));
  }

  lemma {:induction false} ReadQuery(k: Call, rel: Relation, g: Config, s: string)
    requires Follows(k, rel) && Plain(k, g) && g.state == Query && Sees(k, g.cursor, s)
    requires forall i | 0 <= i < |s| :: IsQuerySafe(s[i])
    ensures rel(g, g.(url := g.url.(query := g.url.query + s), cursor := g.cursor + |s|))
    decreases |s|
  {
    if s == "" {
      assert g.url.query + s == g.url.query;
    } else {
      SeesHead(k, g.cursor, s);
      var n := g.(url := g.url.(query := g.url.query + [s[0]]), cursor := g.cursor + 1);
      QueryStep(k, rel, g, s[0]);
      ReadQuery(k, rel, n, s[1..]);
      assert n.url.query + s[1..] == g.url.query + s;
    }
  }

  lemma FragmentStep(k: Call, rel: Relation, g: Config, c: char)
    requires Follows(k, rel) && Plain(k, g) && g.state == Fragment && At(k.input, g.cursor) == Some(c) && !IsBlank(c)
    ensures var n := g.(url := g.url.(fragment := g.url.fragment + [c]), cursor := g.cursor + 1); rel(g, n) && Plain(k, n)
  {
    assert StepsTo(k, g, g.(url := g.url.(fragment := g.url.fragment + [c]), cursor := g.cursor + 1));
  }

  lemma {:induction false} ReadFragment(k: Call, rel: Relation, g: Config, s: string)
    requires Follows(k, rel) && Plain(k, g) && g.state == Fragment && Sees(k, g.cursor, s)
    requires forall i | 0 <= i < |s| :: !IsBlank(s[i])
    ensures rel(g, g.(url := g.url.(fragment := g.url.fragment + s), cursor := g.cursor + |s|))
    decreases |s|
  {
    if s == "" {
      assert g.url.fragment + s == g.url.fragment;
    } else {
      SeesHead(k, g.cursor, s);
      var n := g.(url := g.url.(fragment := g.url.fragment + [s[0]]), cursor := g.cursor + 1);
      FragmentStep(k, rel, g, s[0]);
      ReadFragment(k, rel, n, s[1..]);
      assert n.url.fragment + s[1..] == g.url.fragment + s;
    }
  }

  // ----- From the end of the input backwards --------------------------------------------

  /** The rest of the input is exactly `s`. */
  ghost predicate Ends(k: Call, i: nat, s: string) {
    i + |s| == |k.input| && k.input[i..] == s
  }

  lemma EndsParts(k: Call, i: nat, a: string, b: string)
    requires Ends(k, i, a + b)
    ensures Sees(k, i, a) && Ends(k, i + |a|, b)
  {
    assert (a + b)[..|a|] == a && (a + b)[|a|..] == b;
  }

  /** The loop has come to its end with `u`. */
  ghost predicate Finished(k: Call, m: Config, u: Url) {
    InReach(k, m) && !Running(k, m) && m.url == u
  }

  /** The last iteration, at the end of input. */
  lemma EndStep(k: Call, rel: Relation, l: Config)
    requires Follows(k, rel) && Plain(k, l) && l.cursor == |k.input|
    requires l.state == SchemeData || l.state == Query || l.state == Fragment
    ensures rel(l, l.(cursor := |k.input| + 1)) && Finished(k, l.(cursor := |k.input| + 1), l.url)
  {
    assert StepsTo(k, l, l.(cursor := |k.input| + 1));
  }

  lemma FragmentTail(k: Call, rel: Relation, g: Config, fragment: string) returns (m: Config)
    requires Follows(k, rel) && Plain(k, g) && g.state == Fragment && g.url.fragment == "#"
    requires FragmentText(fragment) && Ends(k, g.cursor, fragment[1..])
    ensures rel(g, m) && Finished(k, m, g.url.(fragment := fragment))
  {
    assert fragment[1..] == fragment[1..] + "";
    EndsParts(k, g.cursor, fragment[1..], "");
    ReadFragment(k, rel, g, fragment[1..]);
    assert "#" + fragment[1..] == fragment;
    var l := g.(url := g.url.(fragment := fragment), cursor := |k.input|);
    m := l.(cursor := |k.input| + 1);
    EndStep(k, rel, l);
  }

  lemma EnterFragment(k: Call, rel: Relation, g: Config, fragment: string) returns (m: Config)
    requires Follows(k, rel) && Plain(k, g) && g.buffer == "" && (g.state == Query || g.state == SchemeData)
    requires FragmentText(fragment) && Ends(k, g.cursor, fragment)
    ensures rel(g, m) && Finished(k, m, g.url.(fragment := fragment))
  {
    var n := g.(url := g.url.(fragment := "#"), state := Fragment, cursor := g.cursor + 1);
    assert StepsTo(k, g, n);
    m := FragmentTail(k, rel, n, fragment);
  }

  lemma QueryTail(k: Call, rel: Relation, g: Config, query: string, fragment: string) returns (m: Config)
    requires Follows(k, rel) && Plain(k, g) && g.state == Query && g.url.query == "?" && g.url.fragment == ""
    requires query != "" && QueryOk(query) && (fragment == "" || FragmentText(fragment))
    requires Ends(k, g.cursor, query[1..] + fragment)
    ensures rel(g, m) && Finished(k, m, g.url.(query := query, fragment := fragment))
  {
    EndsParts(k, g.cursor, query[1..], fragment);
    ReadQuery(k, rel, g, query[1..]);
    assert "?" + query[1..] == query;
    var l := g.(url := g.url.(query := query), cursor := g.cursor + |query[1..]|);
    if fragment == "" {
      m := l.(cursor := |k.input| + 1);
      EndStep(k, rel, l);
    } else {
      m := EnterFragment(k, rel, l, fragment);
    }
  }

  lemma EnterQuery(k: Call, rel: Relation, g: Config, query: string, fragment: string) returns (m: Config)
    requires Follows(k, rel) && Plain(k, g) && g.buffer == "" && g.state == SchemeData
    requires g.url.query == "" && g.url.fragment == ""
    requires query != "" && QueryOk(query) && (fragment == "" || FragmentText(fragment))
    requires Ends(k, g.cursor, query + fragment)
    ensures rel(g, m) && Finished(k, m, g.url.(query := query, fragment := fragment))
  {
    assert (query + fragment)[0] == '?' && (query + fragment)[1..] == query[1..] + fragment;
    var n := g.(url := g.url.(query := "?"), state := Query, cursor := g.cursor + 1);
    assert StepsTo(k, g, n);
    m := QueryTail(k, rel, n, query, fragment);
  }

  /** Scheme data, query and fragment of a URL without authority. */
  lemma OpaqueTail(k: Call, rel: Relation, g: Config, u: Url) returns (m: Config)
    requires Follows(k, rel) && Plain(k, g) && g.state == SchemeData && g.buffer == ""
    requires g.url == u.(schemeData := "", query := "", fragment := "") && QueryOk(u.query)
    requires (forall i | 0 <= i < |u.schemeData| :: IsSafe(u.schemeData[i])) && (u.fragment == "" || FragmentText(u.fragment))
    requires Ends(k, g.cursor, u.schemeData + (u.query + u.fragment))
    ensures rel(g, m) && Finished(k, m, u)
  {
    EndsParts(k, g.cursor, u.schemeData, u.query + u.fragment);
    ReadData(k, rel, g, u.schemeData);
    var l := g.(url := g.url.(schemeData := u.schemeData), cursor := g.cursor + |u.schemeData|);
    assert "" + u.schemeData == u.schemeData;
    if u.query != "" {
      m := EnterQuery(k, rel, l, u.query, u.fragment);
    } else if u.fragment != "" {
      assert u.query + u.fragment == u.fragment;
      m := EnterFragment(k, rel, l, u.fragment);
    } else {
      assert u.query + u.fragment == "";
      m := l.(cursor := |k.input| + 1);
      EndStep(k, rel, l);
    }
  }

  // ----- Path, query and fragment ----------------------------------------------------

  /** A clean segment is pushed as it is. */
  lemma CleanSegmentIsPushed(scheme: string, path: seq<string>, s: string, more: bool)
    requires !IsDotSegment(s) && (scheme == "file" && path == [] ==> !IsPipeDrive(s))
    ensures EndSegment(scheme, path, s, more) == path + [s]
  {
  }

  /** The path state at `?`, at `#` and at the end of input. */
  lemma PathToQuery(k: Call, rel: Relation, g: Config, u: Url)
    requires Follows(k, rel) && Plain(k, g) && g.state == RelativePath && Is(At(k.input, g.cursor), '?')
    requires u == g.url.(path := EndSegment(g.url.scheme, g.url.path, g.buffer, false))
    ensures var n := g.(url := u.(query := "?"), buffer := "", state := Query, cursor := g.cursor + 1); rel(g, n) && Plain(k, n)
  {
    assert StepsTo(k, g, g.(url := u.(query := "?"), buffer := "", state := Query, cursor := g.cursor + 1));
  }

  lemma PathToFragment(k: Call, rel: Relation, g: Config, u: Url)
    requires Follows(k, rel) && Plain(k, g) && g.state == RelativePath && Is(At(k.input, g.cursor), '#')
    requires u == g.url.(path := EndSegment(g.url.scheme, g.url.path, g.buffer, false))
    ensures var n := g.(url := u.(fragment := "#"), buffer := "", state := Fragment, cursor := g.cursor + 1); rel(g, n) && Plain(k, n)
  {
    assert StepsTo(k, g, g.(url := u.(fragment := "#"), buffer := "", state := Fragment, cursor := g.cursor + 1));
  }

  lemma PathToEnd(k: Call, rel: Relation, g: Config, u: Url)
    requires Follows(k, rel) && Plain(k, g) && g.state == RelativePath && g.cursor == |k.input|
    requires u == g.url.(path := EndSegment(g.url.scheme, g.url.path, g.buffer, false))
    ensures var m := g.(url := u, buffer := "", cursor := |k.input| + 1); rel(g, m) && Finished(k, m, u)
  {
    assert StepsTo(k, g, g.(url := u, buffer := "", cursor := |k.input| + 1));
  }

  lemma PathThenQuery(k: Call, rel: Relation, g: Config, u: Url, query: string, fragment: string) returns (m: Config)
    requires Follows(k, rel) && Plain(k, g) && g.state == RelativePath && g.url.query == "" && g.url.fragment == ""
    requires u == g.url.(path := EndSegment(g.url.scheme, g.url.path, g.buffer, false)) && query != ""
    requires QueryOk(query) && (fragment == "" || FragmentText(fragment)) && Ends(k, g.cursor, query + fragment)
    ensures rel(g, m) && Finished(k, m, u.(query := query, fragment := fragment))
  {
    SeesHead(k, g.cursor, query + fragment);
    assert (query + fragment)[0] == '?' && (query + fragment)[1..] == query[1..] + fragment;
    PathToQuery(k, rel, g, u);
    m := QueryTail(k, rel, g.(url := u.(query := "?"), buffer := "", state := Query, cursor := g.cursor + 1), query, fragment);
  }

  lemma PathThenFragment(k: Call, rel: Relation, g: Config, u: Url, fragment: string) returns (m: Config)
    requires Follows(k, rel) && Plain(k, g) && g.state == RelativePath && g.url.query == "" && g.url.fragment == ""
    requires u == g.url.(path := EndSegment(g.url.scheme, g.url.path, g.buffer, false))
    requires FragmentText(fragment) && Ends(k, g.cursor, fragment)
    ensures rel(g, m) && Finished(k, m, u.(fragment := fragment))
  {
    SeesHead(k, g.cursor, fragment);
    PathToFragment(k, rel, g, u);
    m := FragmentTail(k, rel, g.(url := u.(fragment := "#"), buffer := "", state := Fragment, cursor := g.cursor + 1), fragment);
  }

  /** At a delimiter or the end of input, with the last segment in the buffer. */
  lemma PathThenTail(k: Call, rel: Relation, g: Config, query: string, fragment: string) returns (m: Config)
    requires Follows(k, rel) && Plain(k, g) && g.state == RelativePath && g.url.query == "" && g.url.fragment == ""
    requires QueryOk(query) && (fragment == "" || FragmentText(fragment)) && Ends(k, g.cursor, query + fragment)
    requires !IsDotSegment(g.buffer) && (g.url.scheme == "file" && g.url.path == [] ==> !IsPipeDrive(g.buffer))
    ensures rel(g, m)
    ensures Finished(k, m, g.url.(path := g.url.path + [g.buffer], query := query, fragment := fragment))
  {
    var u := g.url.(path := g.url.path + [g.buffer]);
    CleanSegmentIsPushed(g.url.scheme, g.url.path, g.buffer, false);
    if query != "" {
      m := PathThenQuery(k, rel, g, u, query, fragment);
    } else if fragment != "" {
      assert query + fragment == fragment;
      m := PathThenFragment(k, rel, g, u, fragment);
    } else {
      PathToEnd(k, rel, g, u);
      m := g.(url := u, buffer := "", cursor := |k.input| + 1);
    }
  }

  lemma ReadSlash(k: Call, rel: Relation, g: Config)
    requires Follows(k, rel) && Plain(k, g) && g.state == RelativePath && At(k.input, g.cursor) == Some('/')
    requires !IsDotSegment(g.buffer) && (g.url.scheme == "file" && g.url.path == [] ==> !IsPipeDrive(g.buffer))
    ensures var n := g.(url := g.url.(path := g.url.path + [g.buffer]), buffer := "", cursor := g.cursor + 1);
            rel(g, n) && Plain(k, n)
  {
    CleanSegmentIsPushed(g.url.scheme, g.url.path, g.buffer, true);
    assert StepsTo(k, g, g.(url := g.url.(path := g.url.path + [g.buffer]), buffer := "", cursor := g.cursor + 1));
  }

  lemma EndsAtSlash(k: Call, i: nat, s: string, later: string)
    requires Ends(k, i, s + "/" + later)
    ensures Sees(k, i, s) && At(k.input, i + |s|) == Some('/') && Ends(k, i + |s| + 1, later)
  {
    EndsParts(k, i, s + "/", later);
    SeesParts(k, i, s, "/");
    SeesHead(k, i + |s|, "/");
  }

  lemma JoinMore(path: seq<string>, tail: string)
    requires |path| > 1
    ensures P.Join(path) + tail == path[0] + "/" + (P.Join(path[1..]) + tail)
  {
    var a, b := path[0] + "/", P.Join(path[1..]);
    assert (a + b) + tail == a + (b + tail);
  }

  lemma PathMore(scheme: string, p: seq<string>, rest: seq<string>)
    requires rest != [] && PathOk(scheme, p + rest)
    ensures p + [rest[0]] + rest[1..] == p + rest
    ensures SegmentText(rest[0]) && !IsDotSegment(rest[0]) && (scheme == "file" && p == [] ==> !IsPipeDrive(rest[0]))
  {
    assert (p + rest)[|p|] == rest[0];
  }

  lemma SegmentThenSlash(k: Call, rel: Relation, g: Config, s: string, later: string)
    requires Follows(k, rel) && Plain(k, g) && g.state == RelativePath && g.buffer == "" && SegmentText(s)
    requires !IsDotSegment(s) && (g.url.scheme == "file" && g.url.path == [] ==> !IsPipeDrive(s))
    requires Ends(k, g.cursor, s + "/" + later)
    ensures var n := g.(url := g.url.(path := g.url.path + [s]), cursor := g.cursor + |s| + 1);
            rel(g, n) && Plain(k, n) && Ends(k, n.cursor, later)
  {
    EndsAtSlash(k, g.cursor, s, later);
    ReadBuffer(k, rel, g, s);
    assert "" + s == s;
    var l := g.(buffer := s, cursor := g.cursor + |s|);
    ReadSlash(k, rel, l);
  }

  lemma LastSegment(k: Call, rel: Relation, g: Config, s: string, query: string, fragment: string) returns (m: Config)
    requires Follows(k, rel) && Plain(k, g) && g.state == RelativePath && g.buffer == "" && SegmentText(s)
    requires g.url.query == "" && g.url.fragment == ""
    requires !IsDotSegment(s) && (g.url.scheme == "file" && g.url.path == [] ==> !IsPipeDrive(s))
    requires QueryOk(query) && (fragment == "" || FragmentText(fragment))
    requires Ends(k, g.cursor, s + (query + fragment))
    ensures rel(g, m)
    ensures Finished(k, m, g.url.(path := g.url.path + [s], query := query, fragment := fragment))
  {
    EndsParts(k, g.cursor, s, query + fragment);
    ReadBuffer(k, rel, g, s);
    assert "" + s == s;
    m := PathThenTail(k, rel, g.(buffer := s, cursor := g.cursor + |s|), query, fragment);
  }

  /** Reading the segments still to come, then the query and the fragment. */
  lemma {:induction false} ReadPath(k: Call, rel: Relation, g: Config, rest: seq<string>, query: string, fragment: string)
    returns (m: Config)
    requires Follows(k, rel) && Plain(k, g) && g.state == RelativePath && g.buffer == ""
    requires g.url.query == "" && g.url.fragment == ""
    requires rest != [] && PathOk(g.url.scheme, g.url.path + rest)
    requires QueryOk(query) && (fragment == "" || FragmentText(fragment))
    requires Ends(k, g.cursor, P.Join(rest) + (query + fragment))
    ensures rel(g, m)
    ensures Finished(k, m, g.url.(path := g.url.path + rest, query := query, fragment := fragment))
    decreases |rest|
  {
    var p := g.url.path;
    PathMore(g.url.scheme, p, rest);
    if |rest| == 1 {
      assert rest == [rest[0]];
      m := LastSegment(k, rel, g, rest[0], query, fragment);
    } else {
      var later := P.Join(rest[1..]) + (query + fragment);
      JoinMore(rest, query + fragment);
      SegmentThenSlash(k, rel, g, rest[0], later);
      var l := g.(url := g.url.(path := p + [rest[0]]), cursor := g.cursor + |rest[0]| + 1);
      m := ReadPath(k, rel, l, rest[1..], query, fragment);
    }
  }

  /** From the slash that starts the path to the end. */
  lemma ReadRest(k: Call, rel: Relation, g: Config, u: Url) returns (m: Config)
    requires Follows(k, rel) && Plain(k, g) && g.state == RelativePathStart && g.buffer == ""
    requires Normal(u) && u.isRelative && g.url == u.(path := [], query := "", fragment := "")
    requires Ends(k, g.cursor, "/" + (P.Join(u.path) + (u.query + u.fragment)))
    ensures rel(g, m) && Finished(k, m, u)
  {
    EndsParts(k, g.cursor, "/", P.Join(u.path) + (u.query + u.fragment));
    SeesHead(k, g.cursor, "/");
    var n := g.(state := RelativePath, cursor := g.cursor + 1);
    assert StepsTo(k, g, n);
    assert [] + u.path == u.path;
    m := ReadPath(k, rel, n, u.path, u.query, u.fragment);
  }

  // ----- Authority -------------------------------------------------------------------

  /** Everything from the path on. */
  function PathAndTail(u: Url): string {
    "/" + (P.Join(u.path) + (u.query + u.fragment))
  }

  lemma HostAtSlash(k: Call, rel: Relation, l: Config, rest: string)
    requires Follows(k, rel) && Plain(k, l) && l.state == Host && l.buffer != "" && LowerCase(l.buffer) == l.buffer
    requires Ends(k, l.cursor, rest) && rest != "" && rest[0] == '/'
    ensures var n := l.(url := l.url.(host := l.buffer), buffer := "", state := RelativePathStart); rel(l, n) && Plain(k, n)
  {
    assert StepsTo(k, l, l.(url := l.url.(host := l.buffer), buffer := "", state := RelativePathStart));
  }

  lemma HostAtColon(k: Call, rel: Relation, l: Config, rest: string)
    requires Follows(k, rel) && Plain(k, l) && l.state == Host && l.buffer != "" && LowerCase(l.buffer) == l.buffer && !l.seenBracket
    requires Ends(k, l.cursor, ":" + rest)
    ensures var n := l.(url := l.url.(host := l.buffer), buffer := "", state := Port, cursor := l.cursor + 1); rel(l, n) && Plain(k, n)
    ensures Ends(k, l.cursor + 1, rest)
  {
    EndsParts(k, l.cursor, ":", rest);
    SeesHead(k, l.cursor, ":");
    assert StepsTo(k, l, l.(url := l.url.(host := l.buffer), buffer := "", state := Port, cursor := l.cursor + 1));
  }

  lemma PortAtSlash(k: Call, rel: Relation, l: Config, rest: string)
    requires Follows(k, rel) && Plain(k, l) && l.state == Port && l.buffer != "" && PrintNat(ParseNat(l.buffer)) == l.buffer
    requires DefaultPort(l.url.scheme) != Some(ParseNat(l.buffer))
    requires Ends(k, l.cursor, rest) && rest != "" && rest[0] == '/'
    ensures var n := l.(url := l.url.(port := l.buffer), buffer := "", state := RelativePathStart); rel(l, n) && Plain(k, n)
  {
    assert StepsTo(k, l, l.(url := l.url.(port := l.buffer), buffer := "", state := RelativePathStart));
  }

  lemma NormalAuthority(u: Url)
    requires Normal(u) && u.isRelative && u.scheme != "file"
    ensures u.host != "" && HostText(u.host) && NoAt(u.host) && ColonsBracketed(u.host) && LowerCase(u.host) == u.host
    ensures CredentialsOk(u)
    ensures u.port != "" ==>
      && AllDigits(u.port) && PrintNat(ParseNat(u.port)) == u.port
      && DefaultPort(u.scheme) != Some(ParseNat(u.port)) && !BracketAfter(u.host)
  {
    LowerCaseFixed(u.host);
  }

  lemma ReadPortToEnd(k: Call, rel: Relation, g: Config, port: string, rest: string) returns (l: Config)
    requires Follows(k, rel) && Plain(k, g) && g.state == Port && g.buffer == "" && AllDigits(port)
    requires Ends(k, g.cursor, port + rest)
    ensures l == g.(buffer := port, cursor := g.cursor + |port|)
    ensures rel(g, l) && Plain(k, l) && Ends(k, l.cursor, rest)
  {
    EndsParts(k, g.cursor, port, rest);
    ReadBuffer(k, rel, g, port);
    assert "" + port == port;
    l := g.(buffer := port, cursor := g.cursor + |port|);
  }

  lemma ReadHostToEnd(k: Call, rel: Relation, g: Config, host: string, rest: string, l: Config)
    requires Follows(k, rel) && Plain(k, g) && g.state == Host && g.buffer == "" && !g.seenBracket
    requires HostText(host) && ColonsBracketed(host) && Ends(k, g.cursor, host + rest)
    requires l == HostAfter(g, host, |host|)
    ensures l.buffer == host && l == g.(buffer := host, cursor := l.cursor, seenBracket := BracketAfter(host))
    ensures rel(g, l) && Plain(k, l) && Ends(k, l.cursor, rest)
  {
    EndsParts(k, g.cursor, host, rest);
    ReadHost(k, rel, g, host, |host|);
    assert host[..|host|] == host;
  }

  /** Where the path starts. */
  ghost predicate AtPathOf(k: Call, n: Config, u: Url) {
    && Plain(k, n) && n.state == RelativePathStart && n.buffer == ""
    && n.url == u.(path := [], query := "", fragment := "") && Ends(k, n.cursor, PathAndTail(u))
  }

  lemma PortThenPath(k: Call, rel: Relation, g: Config, u: Url) returns (n: Config)
    requires Follows(k, rel) && Plain(k, g) && g.state == Port && g.buffer == "" && u.port != ""
    requires AllDigits(u.port) && PrintNat(ParseNat(u.port)) == u.port && DefaultPort(u.scheme) != Some(ParseNat(u.port))
    requires g.url == u.(port := "", path := [], query := "", fragment := "")
    requires Ends(k, g.cursor, u.port + PathAndTail(u))
    ensures rel(g, n) && AtPathOf(k, n, u)
  {
    var l := ReadPortToEnd(k, rel, g, u.port, PathAndTail(u));
    PortAtSlash(k, rel, l, PathAndTail(u));
    n := l.(url := l.url.(port := l.buffer), buffer := "", state := RelativePathStart);
    assert rel(l, n);
  }

  lemma HostAloneThenPath(k: Call, rel: Relation, g: Config, u: Url) returns (n: Config)
    requires Follows(k, rel) && Plain(k, g) && g.state == Host && g.buffer == "" && !g.seenBracket && u.port == ""
    requires u.host != "" && HostText(u.host) && ColonsBracketed(u.host) && LowerCase(u.host) == u.host
    requires g.url == u.(host := "", port := "", path := [], query := "", fragment := "")
    requires Ends(k, g.cursor, u.host + PathAndTail(u))
    ensures rel(g, n) && AtPathOf(k, n, u)
  {
    var l := HostAfter(g, u.host, |u.host|);
    ReadHostToEnd(k, rel, g, u.host, PathAndTail(u), l);
    HostAtSlash(k, rel, l, PathAndTail(u));
    n := l.(url := l.url.(host := l.buffer), buffer := "", state := RelativePathStart);
  }

  lemma HostThenPort(k: Call, rel: Relation, g: Config, host: string, rest: string) returns (p: Config)
    requires Follows(k, rel) && Plain(k, g) && g.state == Host && g.buffer == "" && !g.seenBracket
    requires host != "" && HostText(host) && ColonsBracketed(host) && LowerCase(host) == host && !BracketAfter(host)
    requires Ends(k, g.cursor, host + (":" + rest))
    ensures rel(g, p) && Plain(k, p) && p.state == Port && p.buffer == "" && p.url == g.url.(host := host)
    ensures Ends(k, p.cursor, rest)
  {
    var l := HostAfter(g, host, |host|);
    ReadHostToEnd(k, rel, g, host, ":" + rest, l);
    HostAtColon(k, rel, l, rest);
    p := l.(url := l.url.(host := l.buffer), buffer := "", state := Port, cursor := l.cursor + 1);
  }

  /** From the host to the start of the path. */
  lemma HostThenPath(k: Call, rel: Relation, g: Config, u: Url) returns (n: Config)
    requires Follows(k, rel) && Plain(k, g) && g.state == Host && g.buffer == "" && !g.seenBracket
    requires Normal(u) && u.isRelative && u.scheme != "file"
    requires g.url == u.(host := "", port := "", path := [], query := "", fragment := "")
    requires Ends(k, g.cursor, P.HostAndPort(u) + PathAndTail(u))
    ensures rel(g, n) && AtPathOf(k, n, u)
  {
    NormalAuthority(u);
    if u.port == "" {
      n := HostAloneThenPath(k, rel, g, u);
    } else {
      assert P.HostAndPort(u) + PathAndTail(u) == u.host + (":" + (u.port + PathAndTail(u)));
      var p := HostThenPort(k, rel, g, u.host, u.port + PathAndTail(u));
      n := PortThenPath(k, rel, p, u);
    }
  }
}
