/** `file` references: where they begin, what they take from a base of any scheme, and when
    they stand alone. */
module UrlReference {
  import opened Wrappers
  import opened UrlText
  import opened UrlParser
  import opened UrlNormal
  import opened UrlRoundTrip
  import opened UrlStart
  import opened UrlPath
  import UrlShape
  import UrlTheorems

  // ----- Where a `file` reference begins -----------------------------------------------

  /** The position from which an input is read as a `file` reference: after its own `file:`,
      or at its start when it has no scheme and the base's is `file`. */
  function FileStart(input: string, baseScheme: string): Option<nat> {
    if NamesFile(input) then Some(5) else if !HasScheme(input) && baseScheme == "file" then Some(0) else None
  }

  /** From `i` on there is nothing, a query or a fragment. */
  predicate OnlyTail(input: string, i: nat) {
    At(input, i) == None || At(input, i) == Some('?') || At(input, i) == Some('#')
  }

  /** From `i` on there is neither a slash nor a drive letter: authority and path come from
      the base. */
  predicate TakesFromBase(input: string, i: nat) {
    !IsSlashAt(At(input, i)) && !DriveAhead(input, i)
  }

  const FileUrl := Cleared.(scheme := "file", isRelative := true)

  function AtFile(i: nat): Config {
    if i == 0 then AtReference else AfterFile
  }

  lemma FileBegins(k: Call, base: Url, i: nat)
    requires k.override == None && k.base == Some(base) && FileStart(k.input, base.scheme) == Some(i)
    ensures i <= |k.input| && AtFile(i).cursor == i && InReach(k, AtFile(i))
    ensures Loop(k, Start(k, Cleared)) == Loop(k, AtFile(i))
    ensures Running(k, AtFile(i)) && Iterate(k, AtFile(i)) == OnRelative(k, AtFile(i), At(k.input, i))
  {
    if NamesFile(k.input) {
      FileIsNamed(k);
    } else {
      NoSchemeIsReference(k);
    }
  }

  /** The step out of the `relative` state, under `file`. */
  lemma FileStep(k: Call, base: Url, i: nat)
    requires k.base == Some(base) && FileStart(k.input, base.scheme) == Some(i) && i <= |k.input|
    ensures var step, c := OnRelative(k, AtFile(i), At(k.input, i)), At(k.input, i);
            var taken := TakeAuthority(FileUrl, base);
            if IsSlashAt(c) then step == Advance(AtFile(i).(url := FileUrl, state := RelativeSlash))
            else if c == None then step == Break(taken.(path := base.path, query := base.query))
            else if c == Some('?') then
              step == Advance(AtFile(i).(url := taken.(path := base.path, query := "?"), state := Query))
            else if c == Some('#') then
              step == Advance(AtFile(i).(url := taken.(path := base.path, query := base.query, fragment := "#"), state := Fragment))
            else if DriveAhead(k.input, i) then step == Stay(AtFile(i).(url := FileUrl, state := RelativePath))
            else step == Stay(AtFile(i).(url := taken.(path := Pop(base.path)), state := RelativePath))
  {
    assert AtFile(i).url.(isRelative := true, scheme := "file") == FileUrl;
  }

  // ----- Query and fragment ------------------------------------------------------------------

  ghost predicate TailOf(u: Url, v: Url) {
    v == u.(query := v.query, fragment := v.fragment)
  }

  /** The fragment ends with the last character read, unless that was dropped. */
  ghost predicate FragmentRead(k: Call, g: Config) {
    && FragmentText(g.url.fragment) && 0 < g.cursor && k.input != ""
    && var read := if g.cursor <= |k.input| then k.input[g.cursor - 1] else k.input[|k.input| - 1];
       IsBlank(read) || g.url.fragment[|g.url.fragment| - 1] == read
  }

  ghost predicate TailInv(k: Call, u: Url, g: Config) {
    && TailOf(u, g.url) && !u.isInvalid && QueryOk(g.url.query)
    && match g.state
       case Query => g.url.query != "" && g.url.fragment == ""
       case Fragment => FragmentRead(k, g)
       case _ => false
  }

  /** `v` is `u` with a well-formed query and fragment. */
  ghost predicate TailDone(u: Url, v: Url) {
    TailOf(u, v) && QueryOk(v.query) && FragmentOk(v.fragment)
  }

  lemma QueryKeepsTail(k: Call, u: Url, g: Config)
    requires k.override == None && InReach(k, g) && g.cursor <= |k.input| && TailInv(k, u, g) && g.state == Query
    ensures var step := OnQuery(k, g, At(k.input, g.cursor)); step.Advance? && TailInv(k, u, After(step))
  {
    var c := At(k.input, g.cursor);
    var n := After(OnQuery(k, g, c));
    if Is(c, '#') {
      FragmentBegins(k, u, g.url.query, n);
    } else if c.Some? && !IsBlank(c.value) {
      UrlShape.QueryReads(g.url.query, c.value);
      assert n == g.(url := g.url.(query := n.url.query), cursor := g.cursor + 1);
    } else {
      assert n == g.(cursor := g.cursor + 1);
    }
  }

  /** Right after the `#`. */
  lemma FragmentBegins(k: Call, u: Url, query: string, n: Config)
    requires n.state == Fragment && n.url == u.(query := query, fragment := "#") && QueryOk(query) && !u.isInvalid
    requires 0 < n.cursor <= |k.input| && k.input[n.cursor - 1] == '#'
    ensures TailInv(k, u, n)
  {
  }

  /** Right after the `?`. */
  lemma QueryBegins(k: Call, u: Url, n: Config)
    requires n.state == Query && n.url == u.(query := "?", fragment := "") && !u.isInvalid
    ensures TailInv(k, u, n)
  {
  }

  lemma FragmentKeepsTail(k: Call, u: Url, g: Config)
    requires k.override == None && InReach(k, g) && g.cursor <= |k.input| && TailInv(k, u, g) && g.state == Fragment
    ensures var step := OnFragment(k, g, At(k.input, g.cursor)); step.Advance? && TailInv(k, u, After(step))
  {
  }

  /** Query and fragment leave everything before them alone. */
  lemma TailLoop(k: Call, u: Url, g: Config)
    requires k.override == None && InReach(k, g) && TailInv(k, u, g)
    requires k.input != "" && !IsTrimmed(k.input[|k.input| - 1])
    ensures Loop(k, g).Parsed? && TailDone(u, Loop(k, g).url)
  {
    var inv, done := n => TailInv(k, u, n), v => TailDone(u, v);
    forall n | InReach(k, n) && Running(k, n) && inv(n) ensures Kept(Iterate(k, n), inv, done) {
      if n.state == Query {
        QueryKeepsTail(k, u, n);
      } else {
        FragmentKeepsTail(k, u, n);
      }
    }
    LoopKeeps(k, g, inv, done);
  }

  // ----- What is taken from the base -----------------------------------------------------------

  /** The path of a `file` reference that takes the base's: all of it, or the base's
      directory with the reference's own text folded onto it. */
  function TakenPath(path: seq<string>, input: string, i: nat): seq<string>
    requires i <= |input|
  {
    if OnlyTail(input, i) then path else Fold("file", Pop(path), Split(PathText(input, i)))
  }

  /** The result of such a reference, up to its own query and fragment. */
  function Taken(base: Url, input: string, i: nat): Url
    requires i <= |input|
  {
    TakeAuthority(FileUrl, base).(path := TakenPath(base.path, input, i))
  }

  lemma FileSteps(k: Call, base: Url, i: nat)
    requires k.override == None && k.base == Some(base) && FileStart(k.input, base.scheme) == Some(i)
    requires i <= |k.input| && TakesFromBase(k.input, i) && InReach(k, AtFile(i))
    ensures var step := OnRelative(k, AtFile(i), At(k.input, i));
            if step.Break? then Loop(k, AtFile(i)) == Parsed(step.url)
            else (step.Advance? || step.Stay?) && InReach(k, After(step)) && Loop(k, AtFile(i)) == Loop(k, After(step))
  {
    FileBegins(k, base, i);
    IterateProgresses(k, AtFile(i));
  }

  /** The tail after `u`, from the first character after its `?` or `#` on. */
  lemma TailEnters(k: Call, u: Url, query: string, n: Config)
    requires k.override == None && InReach(k, n) && 0 < n.cursor <= |k.input| && !IsTrimmed(k.input[|k.input| - 1])
    requires !u.isInvalid && QueryOk(query)
    requires
      || (n.state == Query && n.url == u.(query := "?", fragment := ""))
      || (n.state == Fragment && n.url == u.(query := query, fragment := "#") && k.input[n.cursor - 1] == '#')
    ensures Loop(k, n).Parsed? && TailDone(u, Loop(k, n).url)
  {
    if n.state == Query {
      QueryBegins(k, u, n);
    } else {
      FragmentBegins(k, u, query, n);
    }
    TailLoop(k, u, n);
  }

  lemma TakesTail(k: Call, base: Url, i: nat)
    requires k.override == None && k.base == Some(base) && FileStart(k.input, base.scheme) == Some(i)
    requires i <= |k.input| && OnlyTail(k.input, i) && QueryOk(base.query) && InReach(k, AtFile(i))
    requires k.input != "" ==> !IsTrimmed(k.input[|k.input| - 1])
    ensures var o := Loop(k, AtFile(i)); o.Parsed? && TailDone(Taken(base, k.input, i), o.url)
  {
    var u, step := Taken(base, k.input, i), OnRelative(k, AtFile(i), At(k.input, i));
    FileSteps(k, base, i);
    FileStep(k, base, i);
    if At(k.input, i) == None {
      assert TailDone(u, step.url);
    } else {
      TailEnters(k, u, base.query, After(step));
    }
  }

  /** A path component and what follows it. */
  lemma PathAndTailOk(k: Call, n: Config, u: Url)
    requires Plain(k, n) && n.state == RelativePath && n.buffer == "" && n.cursor < |k.input|
    requires u == WithPath(k, n) && u.query == "" && u.fragment == "" && !IsTrimmed(k.input[|k.input| - 1])
    ensures Loop(k, n).Parsed? && TailDone(u, Loop(k, n).url)
  {
    PathThenRest(k, n);
    if PathEnd(k.input, n.cursor) < |k.input| {
      AfterPathOk(k, n, u);
      TailEnters(k, u, "", AfterPath(k, n));
    }
  }

  lemma AfterPathOk(k: Call, n: Config, u: Url)
    requires n.cursor <= |k.input| && PathEnd(k.input, n.cursor) < |k.input|
    requires u == WithPath(k, n) && u.query == "" && u.fragment == ""
    ensures var m := AfterPath(k, n);
            && 0 < m.cursor <= |k.input|
            && (|| (m.state == Query && m.url == u.(query := "?", fragment := ""))
                || (m.state == Fragment && m.url == u.(query := "", fragment := "#") && k.input[m.cursor - 1] == '#'))
  {
  }

  lemma TakesPath(k: Call, base: Url, i: nat)
    requires k.override == None && k.base == Some(base) && FileStart(k.input, base.scheme) == Some(i)
    requires i <= |k.input| && !OnlyTail(k.input, i) && TakesFromBase(k.input, i) && InReach(k, AtFile(i))
    requires !IsTrimmed(k.input[|k.input| - 1])
    ensures var o := Loop(k, AtFile(i)); o.Parsed? && TailDone(Taken(base, k.input, i), o.url)
  {
    FileSteps(k, base, i);
    FileStep(k, base, i);
    PathAndTailOk(k, After(OnRelative(k, AtFile(i), At(k.input, i))), Taken(base, k.input, i));
  }

  /** A `file` reference that begins with neither a slash nor a drive letter: credentials,
      host and port are those of the base, whatever its scheme, and the path is the base's
      or is folded onto it. */
  lemma FileTakesFromBase(url: string, base: Url, i: nat)
    requires FileStart(Trim(url), base.scheme) == Some(i) && i <= |Trim(url)|
    requires TakesFromBase(Trim(url), i) && QueryOk(base.query)
    ensures var o := New(url, Some(base)); o.Parsed? && TailDone(Taken(base, Trim(url), i), o.url)
  {
    var k := Call(Trim(url), None, Some(base));
    UrlTheorems.TrimEndsClean(TrimStart(url));
    FileBegins(k, base, i);
    if OnlyTail(k.input, i) {
      TakesTail(k, base, i);
    } else {
      TakesPath(k, base, i);
    }
  }

  // ----- What does not depend on the base --------------------------------------------------------

  /** The states of a `file` URL that takes nothing from a base. */
  ghost predicate FileState(g: Config) {
    && !g.url.isInvalid && g.url.scheme == "file"
    && (g.state == RelativeSlash || g.state == FileHost || g.state == RelativePathStart || g.state == RelativePath
        || g.state == Query || g.state == Fragment)
  }

  lemma FileStateStep(k: Call, g: Config)
    requires k.override == None && InReach(k, g) && FileState(g)
    ensures Kept(Iterate(k, g), n => FileState(n), (u: Url) => !u.isInvalid && u.scheme == "file")
  {
  }

  lemma FileStaysValid(k: Call, g: Config)
    requires k.override == None && InReach(k, g) && FileState(g)
    ensures Loop(k, g).Parsed? && !Loop(k, g).url.isInvalid && Loop(k, g).url.scheme == "file"
  {
    forall n | InReach(k, n) && Running(k, n) && FileState(n) ensures Kept(Iterate(k, n), n => FileState(n), (u: Url) => !u.isInvalid && u.scheme == "file") {
      FileStateStep(k, n);
    }
    LoopKeeps(k, g, n => FileState(n), (u: Url) => !u.isInvalid && u.scheme == "file");
  }

  lemma FileShape(k: Call, n: Config)
    requires k.base == None && n.url == FileUrl && n.cursor <= |k.input| && n.buffer == "" && !n.seenBracket
    requires n.state == RelativeSlash || n.state == RelativePath
    ensures Shape(k, n)
  {
    UrlShape.FileBody(FileUrl);
    if n.state == RelativePath {
      assert AtPath(k, n);
      UrlShape.TailShape(k, n);
    } else {
      assert AtRelativeSlash(k, n);
    }
  }

  /** A `file` reference that begins with a slash or a drive letter is normal, whatever the
      base. */
  lemma FileStandsAlone(url: string, base: Url, i: nat)
    requires FileStart(Trim(url), base.scheme) == Some(i) && !TakesFromBase(Trim(url), i)
    ensures var o := New(url, Some(base)); o.Parsed? && Normal(o.url) && o.url.scheme == "file"
  {
    var k := Call(Trim(url), None, Some(base));
    UrlTheorems.TrimEndsClean(TrimStart(url));
    FileBegins(k, base, i);
    var n := AfterFileStep(k, base, i);
    AloneIsNormal(k, n);
  }

  lemma AfterFileStep(k: Call, base: Url, i: nat) returns (n: Config)
    requires k.override == None && k.base == Some(base) && FileStart(k.input, base.scheme) == Some(i)
    requires !TakesFromBase(k.input, i) && i <= |k.input| && InReach(k, AtFile(i))
    ensures InReach(k, n) && Loop(k, AtFile(i)) == Loop(k, n)
    ensures n.url == FileUrl && n.cursor <= |k.input| && n.buffer == "" && !n.seenBracket
    ensures n.state == RelativeSlash || n.state == RelativePath
  {
    FileBegins(k, base, i);
    FileStep(k, base, i);
    IterateProgresses(k, AtFile(i));
    n := After(OnRelative(k, AtFile(i), At(k.input, i)));
  }

  lemma AloneIsNormal(k: Call, n: Config)
    requires k.override == None && InReach(k, n) && (k.input != "" ==> !IsTrimmed(k.input[|k.input| - 1]))
    requires n.url == FileUrl && n.cursor <= |k.input| && n.buffer == "" && !n.seenBracket
    requires n.state == RelativeSlash || n.state == RelativePath
    ensures Loop(k, n).Parsed? && Normal(Loop(k, n).url) && Loop(k, n).url.scheme == "file"
  {
    var alone := k.(base := None);
    LoopIgnoresBase(k, n);
    FileShape(alone, n);
    UrlShape.LoopIsNormal(alone, n);
    FileStaysValid(alone, n);
  }

  /** An input with a scheme of its own is parsed alike under any base of another scheme. */
  lemma OwnSchemeStandsAlone(url: string, base: Url)
    requires HasScheme(Trim(url)) && !NamesFile(Trim(url)) && SchemeOf(Trim(url)) != base.scheme
    ensures New(url, Some(base)) == New(url, None)
  {
    var k := Call(Trim(url), None, Some(base));
    NamesFileIff(k.input);
    SchemeIsNamed(k);
    SchemeIsNamed(k.(base := None));
    assert AfterColon(k) == AfterColon(k.(base := None));
    LoopIgnoresBase(k, AfterColon(k));
  }
}
