/** The URL state machine: one function per state, one call per loop iteration. */
module UrlParser {
  import opened Wrappers
  import opened UrlText

  datatype Url = Url(
    scheme: string, schemeData: string, username: string, password: Option<string>, host: string, port: string,
    path: seq<string>, query: string, fragment: string, isInvalid: bool, isRelative: bool)

  /** A freshly cleared URL object. */
  const Cleared := Url("", "", "", None, "", "", [], "", "", false, false)

  /** `invalid()` clears everything and sets the flag. */
  const Invalid := Cleared.(isInvalid := true)

  datatype State =
    | SchemeStart | Scheme | SchemeData | NoScheme | RelativeOrAuthority | Relative | RelativeSlash
    | AuthorityFirstSlash | AuthoritySecondSlash | AuthorityIgnoreSlashes | Authority | FileHost
    | Host | Hostname | Port | RelativePathStart | RelativePath | Query | Fragment

  /** The local variables of `parse` and the object it fills in. */
  datatype Config = Config(state: State, cursor: nat, buffer: string, seenAt: bool, seenBracket: bool, url: Url)

  /** What the caller passed. */
  datatype Call = Call(input: string, override: Option<State>, base: Option<Url>)

  /** One loop iteration: fall through to `cursor++`, `continue` without it, leave the
      loop, or throw on a missing base. */
  datatype Step = Advance(next: Config) | Stay(next: Config) | Break(url: Url) | Throw

  /** The character at `i`, `None` for end of input. */
  function At(input: string, i: int): Option<char> {
    if 0 <= i < |input| then Some(input[i]) else None
  }

  predicate Is(c: Option<char>, x: char) { c == Some(x) }

  predicate IsSlashAt(c: Option<char>) { c.Some? && IsSlash(c.value) }

  predicate IsBlankAt(c: Option<char>) { c.Some? && IsBlank(c.value) }

  predicate EndsAuthority(c: Option<char>) { c.None? || IsDelimiter(c.value) }

  /** Schemes with an authority, and their default ports. */
  function DefaultPort(scheme: string): Option<nat> {
    if scheme == "ftp" then Some(21)
    else if scheme == "file" then Some(0)
    else if scheme == "gopher" then Some(70)
    else if scheme == "http" then Some(80)
    else if scheme == "https" then Some(443)
    else if scheme == "ws" then Some(80)
    else if scheme == "wss" then Some(443)
    else None
  }

  predicate IsRelativeScheme(scheme: string) { DefaultPort(scheme).Some? }

  // ----- States up to the authority ----------------------------------------------

  function OnSchemeStart(k: Call, g: Config, c: Option<char>): Step {
    if c.Some? && IsAlpha(c.value) then
      Advance(g.(buffer := g.buffer + [Lower(c.value)], state := Scheme))
    else if k.override.None? then Stay(g.(buffer := "", state := NoScheme))
    else Break(g.url)
  }

  function AfterScheme(k: Call, url: Url): State {
    if url.scheme == "file" then Relative
    else if url.isRelative && k.base.Some? && k.base.value.scheme == url.scheme then RelativeOrAuthority
    else if url.isRelative then AuthorityFirstSlash
    else SchemeData
  }

  function OnScheme(k: Call, g: Config, c: Option<char>): Step {
    if c.Some? && IsSchemeChar(c.value) then
      Advance(g.(buffer := g.buffer + [Lower(c.value)]))
    else if Is(c, ':') then
      var url := g.url.(scheme := g.buffer);
      if k.override.Some? then Break(url)
      else
        var url' := if IsRelativeScheme(url.scheme) then url.(isRelative := true) else url;
        Advance(g.(url := url', buffer := "", state := AfterScheme(k, url')))
    else if k.override.None? then Stay(g.(buffer := "", cursor := 0, state := NoScheme))
    else Break(g.url)
  }

  function OnSchemeData(k: Call, g: Config, c: Option<char>): Step {
    if Is(c, '?') then Advance(g.(url := g.url.(query := "?"), state := Query))
    else if Is(c, '#') then Advance(g.(url := g.url.(fragment := "#"), state := Fragment))
    else if c.Some? && !IsBlank(c.value) then
      Advance(g.(url := g.url.(schemeData := g.url.schemeData + Escape(c.value))))
    else Advance(g)
  }

  function OnNoScheme(k: Call, g: Config, c: Option<char>): Step {
    if k.base.None? || !IsRelativeScheme(k.base.value.scheme) then Advance(g.(url := Invalid))
    else Stay(g.(state := Relative))
  }

  function OnRelativeOrAuthority(k: Call, g: Config, c: Option<char>): Step {
    if Is(c, '/') && Is(At(k.input, g.cursor + 1), '/') then Advance(g.(state := AuthorityIgnoreSlashes))
    else Stay(g.(state := Relative))
  }

  /** Host, port and credentials of the base. */
  function TakeAuthority(url: Url, base: Url): Url {
    url.(host := base.host, port := base.port, username := base.username, password := base.password)
  }

  function Pop(path: seq<string>): seq<string> {
    if path == [] then [] else path[..|path| - 1]
  }

  /** A drive letter such as `c:` or `c|` starts here. */
  predicate DriveAhead(input: string, i: int) {
    var (c, next, after) := (At(input, i), At(input, i + 1), At(input, i + 2));
    c.Some? && IsAlpha(c.value) && (Is(next, ':') || Is(next, '|')) && EndsAuthority(after)
  }

  function OnRelative(k: Call, g: Config, c: Option<char>): Step {
    if g.url.scheme != "file" && k.base.None? then Throw
    else
      var url := g.url.(isRelative := true, scheme := if g.url.scheme != "file" then k.base.value.scheme else "file");
      if IsSlashAt(c) then Advance(g.(url := url, state := RelativeSlash))
      else if EndsAuthority(c) then
        if k.base.None? then Throw
        else
          var base := k.base.value;
          var u := TakeAuthority(url, base).(path := base.path);
          if c.None? then Break(u.(query := base.query))
          else if c.value == '?' then Advance(g.(url := u.(query := "?"), state := Query))
          else Advance(g.(url := u.(query := base.query, fragment := "#"), state := Fragment))
      else if url.scheme != "file" || !DriveAhead(k.input, g.cursor) then
        if k.base.None? then Throw
        else
          var base := k.base.value;
          Stay(g.(url := TakeAuthority(url, base).(path := Pop(base.path)), state := RelativePath))
      else Stay(g.(url := url, state := RelativePath))
  }

  function OnRelativeSlash(k: Call, g: Config, c: Option<char>): Step {
    if IsSlashAt(c) then
      Advance(g.(state := if g.url.scheme == "file" then FileHost else AuthorityIgnoreSlashes))
    else if g.url.scheme == "file" then Stay(g.(state := RelativePath))
    else if k.base.None? then Throw
    else Stay(g.(url := TakeAuthority(g.url, k.base.value), state := RelativePath))
  }

  function OnAuthorityFirstSlash(k: Call, g: Config, c: Option<char>): Step {
    if Is(c, '/') then Advance(g.(state := AuthoritySecondSlash)) else Stay(g.(state := AuthorityIgnoreSlashes))
  }

  function OnAuthoritySecondSlash(k: Call, g: Config, c: Option<char>): Step {
    if Is(c, '/') then Advance(g.(state := AuthorityIgnoreSlashes)) else Stay(g.(state := AuthorityIgnoreSlashes))
  }

  function OnAuthorityIgnoreSlashes(k: Call, g: Config, c: Option<char>): Step {
    if IsSlashAt(c) then Advance(g) else Stay(g.(state := Authority))
  }

  // ----- Authority, host, port -----------------------------------------------------

  /** One character of the credentials before an `@`. */
  function AddCredential(url: Url, c: char): Url {
    if IsBlank(c) then url
    else if c == ':' && url.password.None? then url.(password := Some(""))
    else if url.password.Some? then url.(password := Some(url.password.value + Escape(c)))
    else url.(username := url.username + Escape(c))
  }

  function AddCredentials(url: Url, text: string): Url {
    if text == "" then url else AddCredential(AddCredentials(url, text[..|text| - 1]), text[|text| - 1])
  }

  function OnAuthority(k: Call, g: Config, c: Option<char>): Step
    requires |g.buffer| <= g.cursor
  {
    if Is(c, '@') then
      var text := if g.seenAt then g.buffer + "%40" else g.buffer;
      Advance(g.(url := AddCredentials(g.url, text), seenAt := true, buffer := ""))
    else if EndsAuthority(c) then
      Stay(g.(cursor := g.cursor - |g.buffer|, buffer := "", state := Host))
    else Advance(g.(buffer := g.buffer + [c.value]))
  }

  predicate IsDrive(s: string) {
    |s| == 2 && IsAlpha(s[0]) && (s[1] == ':' || s[1] == '|')
  }

  /** `this._host = IDNAToASCII(h)`, which makes the URL invalid when `h` is empty. */
  function SetHost(url: Url, h: string): Url {
    if h == "" then Invalid else url.(host := LowerCase(h))
  }

  function OnFileHost(k: Call, g: Config, c: Option<char>): Step {
    if EndsAuthority(c) then
      if IsDrive(g.buffer) then Stay(g.(state := RelativePath))
      else if g.buffer == "" then Stay(g.(state := RelativePathStart))
      else Stay(g.(url := SetHost(g.url, g.buffer), buffer := "", state := RelativePathStart))
    else if IsBlankAt(c) then Advance(g)
    else Advance(g.(buffer := g.buffer + [c.value]))
  }

  /** The `host` and `hostname` states share their code. */
  function OnHost(k: Call, g: Config, c: Option<char>): Step {
    if Is(c, ':') && !g.seenBracket then
      var url := SetHost(g.url, g.buffer);
      if k.override == Some(Hostname) then Break(url)
      else Advance(g.(url := url, buffer := "", state := Port))
    else if EndsAuthority(c) then
      var url := SetHost(g.url, g.buffer);
      if k.override.Some? then Break(url)
      else Stay(g.(url := url, buffer := "", state := RelativePathStart))
    else if IsBlankAt(c) then Advance(g)
    else
      var bracket := if c.value == '[' then true else if c.value == ']' then false else g.seenBracket;
      Advance(g.(buffer := g.buffer + [c.value], seenBracket := bracket))
  }

  /** A port equal to the scheme's default is left as it was. */
  function SetPort(url: Url, digits: string): Url
    requires AllDigits(digits)
  {
    if digits == "" then url
    else
      var port := ParseNat(digits);
      if DefaultPort(url.scheme) == Some(port) then url else url.(port := PrintNat(port))
  }

  function OnPort(k: Call, g: Config, c: Option<char>): Step
    requires AllDigits(g.buffer)
  {
    if c.Some? && IsDigit(c.value) then Advance(g.(buffer := g.buffer + [c.value]))
    else if EndsAuthority(c) || k.override.Some? then
      var url := SetPort(g.url, g.buffer);
      if k.override.Some? then Break(url)
      else Stay(g.(url := url, buffer := "", state := RelativePathStart))
    else if IsBlankAt(c) then Advance(g)
    else Advance(g.(url := Invalid))
  }

  // ----- Path, query, fragment -------------------------------------------------------

  function OnRelativePathStart(k: Call, g: Config, c: Option<char>): Step {
    if IsSlashAt(c) then Advance(g.(state := RelativePath)) else Stay(g.(state := RelativePath))
  }

  /** The table of percent-encoded spellings of dot segments. */
  function DotMapping(lower: string): Option<string> {
    if lower == "%2e" then Some(".")
    else if lower == ".%2e" || lower == "%2e." || lower == "%2e%2e" then Some("..")
    else None
  }

  /** `%2e` or `%2E` at position `i`. */
  predicate EscapedDotAt(s: string, i: nat) {
    i + 3 <= |s| && s[i] == '%' && s[i + 1] == '2' && (s[i + 2] == 'e' || s[i + 2] == 'E')
  }

  /** A segment that stands for `.` after the table has been consulted. */
  predicate IsSingleDot(s: string) {
    if |s| == 1 then s[0] == '.' else |s| == 3 && EscapedDotAt(s, 0)
  }

  /** A segment that stands for `..`. */
  predicate IsDoubleDot(s: string) {
    if |s| == 2 then s[0] == '.' == s[1]
    else if |s| == 4 then (s[0] == '.' && EscapedDotAt(s, 1)) || (EscapedDotAt(s, 0) && s[3] == '.')
    else |s| == 6 && EscapedDotAt(s, 0) && EscapedDotAt(s, 3)
  }

  /** The two predicates are the table lookup followed by the two comparisons. */
  lemma DotsAreMapped(s: string)
    ensures IsSingleDot(s) <==> DotMapping(LowerCase(s)).GetOr(s) == "."
    ensures IsDoubleDot(s) <==> DotMapping(LowerCase(s)).GetOr(s) == ".."
    ensures !IsSingleDot(s) && !IsDoubleDot(s) ==> DotMapping(LowerCase(s)) == None
  {
    var l := LowerCase(s);
    forall i | 0 <= i < |s|
      ensures (l[i] == '%' <==> s[i] == '%') && (l[i] == '2' <==> s[i] == '2')
      ensures (l[i] == '.' <==> s[i] == '.') && (l[i] == 'e' <==> s[i] == 'e' || s[i] == 'E')
    {
      assert l[i] == Lower(s[i]);
    }
  }

  /** The end of one path segment; `more` says that a slash ends it. */
  function EndSegment(scheme: string, path: seq<string>, s: string, more: bool): seq<string> {
    if IsDoubleDot(s) then if more then Pop(path) else Pop(path) + [""]
    else if IsSingleDot(s) then if more then path else path + [""]
    else if scheme == "file" && path == [] && |s| == 2 && IsAlpha(s[0]) && s[1] == '|' then path + [[s[0], ':']]
    else path + [s]
  }

  predicate EndsSegment(k: Call, c: Option<char>) {
    c.None? || IsSlash(c.value) || (k.override.None? && (c.value == '?' || c.value == '#'))
  }

  function OnRelativePath(k: Call, g: Config, c: Option<char>): Step {
    if EndsSegment(k, c) then
      var url := g.url.(path := EndSegment(g.url.scheme, g.url.path, g.buffer, IsSlashAt(c)));
      if Is(c, '?') then Advance(g.(url := url.(query := "?"), buffer := "", state := Query))
      else if Is(c, '#') then Advance(g.(url := url.(fragment := "#"), buffer := "", state := Fragment))
      else Advance(g.(url := url, buffer := ""))
    else if IsBlankAt(c) then Advance(g)
    else Advance(g.(buffer := g.buffer + Escape(c.value)))
  }

  function OnQuery(k: Call, g: Config, c: Option<char>): Step {
    if k.override.None? && Is(c, '#') then Advance(g.(url := g.url.(fragment := "#"), state := Fragment))
    else if c.Some? && !IsBlank(c.value) then
      Advance(g.(url := g.url.(query := g.url.query + EscapeQuery(c.value))))
    else Advance(g)
  }

  function OnFragment(k: Call, g: Config, c: Option<char>): Step {
    if c.Some? && !IsBlank(c.value) then
      Advance(g.(url := g.url.(fragment := g.url.fragment + [c.value])))
    else Advance(g)
  }

  // ----- The loop -----------------------------------------------------------------------

  predicate UsesBuffer(s: State) {
    s.Scheme? || s.Authority? || s.FileHost? || s.Host? || s.Hostname? || s.Port? || s.RelativePath?
  }

  /** What every state may rely on: the cursor stays within reach, the buffer of the
      authority state is never longer than the text before the cursor, and only a few
      states are entered with a non-empty buffer. */
  predicate InReach(k: Call, g: Config) {
    && g.cursor <= |k.input| + 1
    && (g.state == Authority ==> |g.buffer| <= g.cursor)
    && (g.state == Port ==> forall i | 0 <= i < |g.buffer| :: IsDigit(g.buffer[i]))
    && (UsesBuffer(g.state) || g.buffer == "")
  }

  /** The loop goes on until the end of input has been seen once. */
  predicate Running(k: Call, g: Config) {
    (At(k.input, g.cursor - 1).Some? || g.cursor == 0) && !g.url.isInvalid
  }

  function Iterate(k: Call, g: Config): Step
    requires InReach(k, g)
  {
    var c := At(k.input, g.cursor);
    match g.state
    case SchemeStart => OnSchemeStart(k, g, c)
    case Scheme => OnScheme(k, g, c)
    case SchemeData => OnSchemeData(k, g, c)
    case NoScheme => OnNoScheme(k, g, c)
    case RelativeOrAuthority => OnRelativeOrAuthority(k, g, c)
    case Relative => OnRelative(k, g, c)
    case RelativeSlash => OnRelativeSlash(k, g, c)
    case AuthorityFirstSlash => OnAuthorityFirstSlash(k, g, c)
    case AuthoritySecondSlash => OnAuthoritySecondSlash(k, g, c)
    case AuthorityIgnoreSlashes => OnAuthorityIgnoreSlashes(k, g, c)
    case Authority => OnAuthority(k, g, c)
    case FileHost => OnFileHost(k, g, c)
    case Host => OnHost(k, g, c)
    case Hostname => OnHost(k, g, c)
    case Port => OnPort(k, g, c)
    case RelativePathStart => OnRelativePathStart(k, g, c)
    case RelativePath => OnRelativePath(k, g, c)
    case Query => OnQuery(k, g, c)
    case Fragment => OnFragment(k, g, c)
  }

  /** The configuration the next iteration starts from. */
  function After(step: Step): Config
    requires step.Advance? || step.Stay?
  {
    if step.Advance? then step.next.(cursor := step.next.cursor + 1) else step.next
  }

  /** States only ever move forward in this order. */
  function Rank(s: State): nat {
    match s
    case SchemeStart => 0
    case Scheme => 1
    case NoScheme => 2
    case RelativeOrAuthority => 3
    case Relative => 4
    case RelativeSlash => 5
    case AuthorityFirstSlash => 6
    case AuthoritySecondSlash => 7
    case AuthorityIgnoreSlashes => 8
    case Authority => 9
    case FileHost => 10
    case Host => 10
    case Hostname => 10
    case Port => 11
    case RelativePathStart => 12
    case RelativePath => 13
    case SchemeData => 13
    case Query => 14
    case Fragment => 15
  }

  const MAX_RANK: nat := 15

  ghost predicate Progresses(k: Call, g: Config, step: Step) {
    step.Advance? || step.Stay? ==>
      var g' := After(step);
      && InReach(k, g')
      && (Rank(g.state) < Rank(g'.state) || (g'.state == g.state && g.cursor < g'.cursor))
  }

  lemma SchemeProgresses(k: Call, g: Config)
    requires InReach(k, g) && Running(k, g)
    requires g.state == SchemeStart || g.state == Scheme
    ensures Progresses(k, g, Iterate(k, g))
  {
  }

  lemma TextProgresses(k: Call, g: Config)
    requires InReach(k, g) && Running(k, g)
    requires g.state == SchemeData || g.state == NoScheme || g.state == Query ||
             g.state == Fragment
    ensures Progresses(k, g, Iterate(k, g))
  {
  }

  lemma SlashesProgress(k: Call, g: Config)
    requires InReach(k, g) && Running(k, g)
    requires g.state == RelativeOrAuthority || g.state == RelativeSlash || g.state == AuthorityFirstSlash ||
             g.state == AuthoritySecondSlash || g.state == AuthorityIgnoreSlashes || g.state == RelativePathStart
    ensures Progresses(k, g, Iterate(k, g))
  {
  }

  lemma RelativeProgresses(k: Call, g: Config)
    requires InReach(k, g) && Running(k, g) && g.state == Relative
    ensures Progresses(k, g, OnRelative(k, g, At(k.input, g.cursor)))
  {
    var c := At(k.input, g.cursor);
    var step := OnRelative(k, g, c);
    if step.Advance? || step.Stay? {
      var n := step.next;
      assert n.buffer == "" && n.cursor == g.cursor && (step.Advance? ==> c.Some?);
      assert n.state == RelativeSlash || n.state == RelativePath || n.state == Query || n.state == Fragment;
    }
  }

  lemma AuthorityProgresses(k: Call, g: Config)
    requires InReach(k, g) && Running(k, g) && g.state == Authority
    ensures Progresses(k, g, OnAuthority(k, g, At(k.input, g.cursor)))
  {
  }

  lemma FileHostProgresses(k: Call, g: Config)
    requires InReach(k, g) && Running(k, g) && g.state == FileHost
    ensures Progresses(k, g, OnFileHost(k, g, At(k.input, g.cursor)))
  {
  }

  lemma HostProgresses(k: Call, g: Config)
    requires InReach(k, g) && Running(k, g) && (g.state == Host || g.state == Hostname)
    ensures Progresses(k, g, OnHost(k, g, At(k.input, g.cursor)))
  {
  }

  lemma PortProgresses(k: Call, g: Config)
    requires InReach(k, g) && Running(k, g) && g.state == Port
    ensures Progresses(k, g, OnPort(k, g, At(k.input, g.cursor)))
  {
  }

  lemma RelativePathProgresses(k: Call, g: Config)
    requires InReach(k, g) && Running(k, g) && g.state == RelativePath
    ensures Progresses(k, g, OnRelativePath(k, g, At(k.input, g.cursor)))
  {
  }

  /** Every iteration moves to a later state or moves the cursor right, and keeps the
      cursor within the input: the reset to 0 and the authority rewind only happen
      together with a change of state. */
  lemma IterateProgresses(k: Call, g: Config)
    requires InReach(k, g) && Running(k, g)
    ensures Progresses(k, g, Iterate(k, g))
  {
    match g.state
    case SchemeStart => SchemeProgresses(k, g);
    case Scheme => SchemeProgresses(k, g);
    case SchemeData => TextProgresses(k, g);
    case NoScheme => TextProgresses(k, g);
    case RelativeOrAuthority => SlashesProgress(k, g);
    case Relative => RelativeProgresses(k, g);
    case RelativeSlash => SlashesProgress(k, g);
    case AuthorityFirstSlash => SlashesProgress(k, g);
    case AuthoritySecondSlash => SlashesProgress(k, g);
    case AuthorityIgnoreSlashes => SlashesProgress(k, g);
    case Authority => AuthorityProgresses(k, g);
    case FileHost => FileHostProgresses(k, g);
    case Host => HostProgresses(k, g);
    case Hostname => HostProgresses(k, g);
    case Port => PortProgresses(k, g);
    case RelativePathStart => SlashesProgress(k, g);
    case RelativePath => RelativePathProgresses(k, g);
    case Query => TextProgresses(k, g);
    case Fragment => TextProgresses(k, g);
  }

  datatype Outcome = Parsed(url: Url) | Thrown

  /** The loop from configuration `g`. */
  function Loop(k: Call, g: Config): Outcome
    requires InReach(k, g)
    decreases MAX_RANK - Rank(g.state), |k.input| + 1 - g.cursor
  {
    if !Running(k, g) then Parsed(g.url)
    else
      var step := Iterate(k, g);
      if step.Throw? then Thrown
      else if step.Break? then Parsed(step.url)
      else
        IterateProgresses(k, g);
        Loop(k, After(step))
  }

  /** Where `parse` starts: the state override, or the scheme. */
  function Start(k: Call, url: Url): Config {
    Config(k.override.GetOr(SchemeStart), 0, "", false, false, url)
  }

  function Parse(k: Call, url: Url): Outcome {
    Loop(k, Start(k, url))
  }

  /** Input without the white space that the constructor drops at both ends. */
  function TrimStart(s: string): string {
    if s != "" && IsTrimmed(s[0]) then TrimStart(s[1..]) else s
  }

  function TrimEnd(s: string): string {
    if s != "" && IsTrimmed(s[|s| - 1]) then TrimEnd(s[..|s| - 1]) else s
  }

  function Trim(s: string): string { TrimEnd(TrimStart(s)) }

  /** `new URL(url, base)` with an already parsed base. */
  function New(url: string, base: Option<Url>): Outcome {
    Parse(Call(Trim(url), None, base), Cleared)
  }
}
