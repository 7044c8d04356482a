/** The normal form of parsed URLs, and why every parse without a state override
    produces it. */
module UrlNormal {
  import opened Wrappers
  import opened UrlText
  import opened UrlParser

  // ----- The normal form ---------------------------------------------------------

  ghost predicate SchemeText(s: string) {
    && s != "" && IsAlpha(s[0])
    && forall i | 0 <= i < |s| :: IsSchemeChar(s[i]) && !IsUpper(s[i])
  }

  /** Text that escaping leaves alone and that no delimiter or `@` interrupts. */
  ghost predicate PasswordText(s: string) {
    forall i | 0 <= i < |s| :: IsSafe(s[i]) && !IsSlash(s[i]) && s[i] != '@'
  }

  ghost predicate UserText(s: string) {
    PasswordText(s) && forall i | 0 <= i < |s| :: s[i] != ':'
  }

  ghost predicate HostText(s: string) {
    forall i | 0 <= i < |s| :: !IsDelimiter(s[i]) && !IsBlank(s[i])
  }

  ghost predicate NoAt(s: string) {
    forall i | 0 <= i < |s| :: s[i] != '@'
  }

  /** The bracket flag after scanning `s`. */
  predicate BracketAfter(s: string) {
    s != "" &&
    var c := s[|s| - 1];
    c == '[' || (c != ']' && BracketAfter(s[..|s| - 1]))
  }

  /** Every colon stands inside brackets. */
  predicate ColonsBracketed(s: string) {
    s == "" || (
      && ColonsBracketed(s[..|s| - 1])
      && (s[|s| - 1] == ':' ==> BracketAfter(s[..|s| - 1])))
  }

  ghost predicate CredentialsOk(u: Url) {
    UserText(u.username) && (u.password.Some? ==> PasswordText(u.password.value))
  }

  ghost predicate NetHost(h: string) {
    h != "" && HostText(h) && NoAt(h) && ColonsBracketed(h) && IsLowerCase(h)
  }

  /** A port is printed without leading zeros and is not the default one. */
  ghost predicate PortOk(u: Url) {
    u.port == "" || (
      && AllDigits(u.port) && PrintNat(ParseNat(u.port)) == u.port
      && DefaultPort(u.scheme) != Some(ParseNat(u.port))
      && !BracketAfter(u.host))
  }

  ghost predicate AuthorityOk(u: Url) {
    if u.scheme == "file" then
      && HostText(u.host) && IsLowerCase(u.host) && !IsDrive(u.host)
      && u.port == "" && u.username == "" && u.password == None
    else
      NetHost(u.host) && PortOk(u) && CredentialsOk(u)
  }

  ghost predicate SegmentText(s: string) {
    forall i | 0 <= i < |s| :: IsSafe(s[i]) && !IsSlash(s[i])
  }

  /** `.`, `..` and their percent-encoded spellings. */
  predicate IsDotSegment(s: string) {
    IsSingleDot(s) || IsDoubleDot(s)
  }

  predicate IsPipeDrive(s: string) {
    |s| == 2 && IsAlpha(s[0]) && s[1] == '|'
  }

  ghost predicate PathOk(scheme: string, path: seq<string>) {
    && (forall i | 0 <= i < |path| :: SegmentText(path[i]) && !IsDotSegment(path[i]))
    && (scheme == "file" && path != [] ==> !IsPipeDrive(path[0]))
  }

  ghost predicate QueryOk(q: string) {
    q == "" || (q[0] == '?' && forall i | 1 <= i < |q| :: IsQuerySafe(q[i]))
  }

  ghost predicate FragmentText(f: string) {
    f != "" && f[0] == '#' && forall i | 1 <= i < |f| :: !IsBlank(f[i])
  }

  ghost predicate FragmentOk(f: string) {
    f == "" || (FragmentText(f) && !IsTrimmed(f[|f| - 1]))
  }

  /** A URL of a scheme without authority: only scheme data. */
  ghost predicate OpaqueOk(u: Url) {
    && !u.isRelative && (forall i | 0 <= i < |u.schemeData| :: IsSafe(u.schemeData[i]))
    && u.username == "" && u.password == None && u.host == "" && u.port == "" && u.path == []
  }

  ghost predicate BodyOk(u: Url) {
    && SchemeText(u.scheme) && !u.isInvalid
    && if IsRelativeScheme(u.scheme) then
         u.isRelative && u.schemeData == "" && AuthorityOk(u) && PathOk(u.scheme, u.path)
       else OpaqueOk(u)
  }

  ghost predicate Normal(u: Url) {
    BodyOk(u) && (u.isRelative ==> u.path != []) && QueryOk(u.query) && FragmentOk(u.fragment)
  }

  // ----- What each state knows ------------------------------------------------------

  /** The input names the `file` scheme. */
  predicate NamesFile(input: string) {
    |input| >= 5 && LowerCase(input[..5]) == "file:"
  }

  /** A parsed base that a `file:` input does not misuse. */
  ghost predicate BaseFits(k: Call) {
    && k.override == None
    && (k.base.Some? ==> k.base.value == Invalid || Normal(k.base.value))
    && (k.base.Some? && NamesFile(k.input) ==> k.base.value.scheme == "file")
    && (k.input != "" ==> !IsTrimmed(k.input[|k.input| - 1]))
  }

  /** No `@` before the next delimiter. */
  predicate NoAtAhead(input: string, i: nat)
    requires i <= |input|
    decreases |input| - i
  {
    i == |input| || IsDelimiter(input[i]) || (input[i] != '@' && NoAtAhead(input, i + 1))
  }

  /** Only a scheme has been recognized. */
  predicate OnlyScheme(u: Url, scheme: string) {
    u == Cleared.(scheme := scheme, isRelative := IsRelativeScheme(scheme))
  }

  /** Scheme of the URL under a base: the same, or `file` without any base. */
  ghost predicate UnderBase(k: Call, scheme: string) {
    if k.base.Some? then Normal(k.base.value) && k.base.value.scheme == scheme else scheme == "file"
  }

  ghost predicate NetScheme(u: Url) {
    u.scheme != "file" && IsRelativeScheme(u.scheme) && SchemeText(u.scheme)
  }

  ghost predicate AtScheme(k: Call, g: Config) {
    g.url == Cleared && 0 < g.cursor <= |k.input| && g.buffer == LowerCase(k.input[..g.cursor]) && SchemeText(g.buffer)
  }

  ghost predicate AtSchemeData(k: Call, g: Config) {
    BodyOk(g.url) && !g.url.isRelative && g.url.query == "" && g.url.fragment == ""
  }

  ghost predicate AtRelative(k: Call, g: Config) {
    && g.cursor <= |k.input|
    && if g.url == Cleared then k.base.Some? && Normal(k.base.value) && IsRelativeScheme(k.base.value.scheme)
       else
         OnlyScheme(g.url, g.url.scheme) && SchemeText(g.url.scheme) && IsRelativeScheme(g.url.scheme)
         && UnderBase(k, g.url.scheme)
  }

  ghost predicate AtRelativeSlash(k: Call, g: Config) {
    && OnlyScheme(g.url, g.url.scheme) && SchemeText(g.url.scheme) && IsRelativeScheme(g.url.scheme)
    && UnderBase(k, g.url.scheme) && g.cursor <= |k.input|
  }

  ghost predicate AtSlashes(k: Call, g: Config) {
    OnlyScheme(g.url, g.url.scheme) && NetScheme(g.url) && g.cursor <= |k.input|
  }

  ghost predicate AtAuthority(k: Call, g: Config) {
    && NetScheme(g.url) && CredentialsOk(g.url)
    && g.url == Cleared.(scheme := g.url.scheme, isRelative := true, username := g.url.username, password := g.url.password)
    && |g.buffer| <= g.cursor <= |k.input|
    && g.buffer == k.input[g.cursor - |g.buffer|..g.cursor]
    && forall i | 0 <= i < |g.buffer| :: !IsDelimiter(g.buffer[i]) && g.buffer[i] != '@'
  }

  ghost predicate AtHost(k: Call, g: Config) {
    && NetScheme(g.url) && CredentialsOk(g.url)
    && g.url == Cleared.(scheme := g.url.scheme, isRelative := true, username := g.url.username, password := g.url.password)
    && g.cursor <= |k.input| && NoAtAhead(k.input, g.cursor)
    && HostText(g.buffer) && NoAt(g.buffer) && ColonsBracketed(g.buffer) && g.seenBracket == BracketAfter(g.buffer)
  }

  ghost predicate AtPort(k: Call, g: Config) {
    && NetScheme(g.url) && BodyOk(g.url) && g.url.port == "" && !BracketAfter(g.url.host)
    && g.url.path == [] && g.url.query == "" && g.url.fragment == ""
    && AllDigits(g.buffer) && g.cursor <= |k.input|
  }

  ghost predicate AtFileHost(k: Call, g: Config) {
    OnlyScheme(g.url, "file") && HostText(g.buffer) && g.cursor <= |k.input|
  }

  ghost predicate AtPathStart(k: Call, g: Config) {
    && BodyOk(g.url) && g.url.isRelative && g.url.path == [] && g.url.query == "" && g.url.fragment == ""
    && g.cursor <= |k.input|
  }

  ghost predicate AtPath(k: Call, g: Config) {
    && BodyOk(g.url) && g.url.isRelative && g.url.query == "" && g.url.fragment == ""
    && SegmentText(g.buffer) && (|k.input| < g.cursor ==> g.url.path != [])
  }

  ghost predicate AtQuery(k: Call, g: Config) {
    && BodyOk(g.url) && (g.url.isRelative ==> g.url.path != [])
    && g.url.query != "" && QueryOk(g.url.query) && g.url.fragment == ""
  }

  /** The last character kept is the last character read, unless that was dropped. */
  ghost predicate AtFragment(k: Call, g: Config) {
    && BodyOk(g.url) && (g.url.isRelative ==> g.url.path != [])
    && QueryOk(g.url.query) && FragmentText(g.url.fragment)
    && 0 < g.cursor && k.input != ""
    && var read := if g.cursor <= |k.input| then k.input[g.cursor - 1] else k.input[|k.input| - 1];
       IsBlank(read) || g.url.fragment[|g.url.fragment| - 1] == read
  }

  ghost predicate Shape(k: Call, g: Config) {
    if g.url.isInvalid then g.url == Invalid
    else (Rank(g.state) <= Rank(Authority) ==> !g.seenBracket) && ShapeOf(k, g)
  }

  ghost predicate ShapeOf(k: Call, g: Config) {
    match g.state
    case SchemeStart => g.url == Cleared && g.cursor == 0
    case Scheme => AtScheme(k, g)
    case SchemeData => AtSchemeData(k, g)
    case NoScheme => g.url == Cleared && g.cursor == 0
    case RelativeOrAuthority => AtRelative(k, g) && k.base.Some? && NetScheme(g.url)
    case Relative => AtRelative(k, g)
    case RelativeSlash => AtRelativeSlash(k, g)
    case AuthorityFirstSlash => AtSlashes(k, g)
    case AuthoritySecondSlash => AtSlashes(k, g)
    case AuthorityIgnoreSlashes => AtSlashes(k, g)
    case Authority => AtAuthority(k, g)
    case FileHost => AtFileHost(k, g)
    case Host => AtHost(k, g)
    case Hostname => false
    case Port => AtPort(k, g)
    case RelativePathStart => AtPathStart(k, g)
    case RelativePath => AtPath(k, g)
    case Query => AtQuery(k, g)
    case Fragment => AtFragment(k, g)
  }

  // ----- Text lemmas ---------------------------------------------------------------

  lemma EscapeKeepsSegment(s: string, c: char)
    requires SegmentText(s) && !IsSlash(c)
    ensures SegmentText(s + Escape(c))
  {
  }

  lemma CredentialKeepsOk(u: Url, c: char)
    requires CredentialsOk(u) && !IsDelimiter(c) && c != '@'
    ensures var v := AddCredential(u, c);
            CredentialsOk(v) && v == u.(username := v.username, password := v.password)
  {
  }

  lemma {:induction false} CredentialsKeepOk(u: Url, text: string)
    requires CredentialsOk(u) && forall i | 0 <= i < |text| :: !IsDelimiter(text[i]) && text[i] != '@'
    ensures var v := AddCredentials(u, text);
            CredentialsOk(v) && v == u.(username := v.username, password := v.password)
    decreases |text|
  {
    if text != "" {
      CredentialsKeepOk(u, text[..|text| - 1]);
      CredentialKeepsOk(AddCredentials(u, text[..|text| - 1]), text[|text| - 1]);
    }
  }

  lemma {:induction false} NoAtBeforeDelimiter(input: string, from: nat, to: nat)
    requires from <= to <= |input| && EndsAuthority(At(input, to))
    requires forall i | from <= i < to :: input[i] != '@'
    ensures NoAtAhead(input, from)
    decreases |input| - from
  {
    if from < to {
      NoAtBeforeDelimiter(input, from + 1, to);
    }
  }

  lemma {:induction false} BracketsIgnoreCase(h: string)
    ensures BracketAfter(LowerCase(h)) == BracketAfter(h)
    ensures ColonsBracketed(h) ==> ColonsBracketed(LowerCase(h))
    decreases |h|
  {
    if h != "" {
      var front, l := h[..|h| - 1], LowerCase(h);
      assert l[..|l| - 1] == LowerCase(front);
      BracketsIgnoreCase(front);
    }
  }

  lemma LowerKeepsText(h: string)
    requires HostText(h)
    ensures HostText(LowerCase(h)) && IsLowerCase(LowerCase(h))
    ensures NoAt(h) ==> NoAt(LowerCase(h))
    ensures IsDrive(LowerCase(h)) == IsDrive(h)
  {
    var l := LowerCase(h);
    forall i | 0 <= i < |l| ensures !IsDelimiter(l[i]) && !IsBlank(l[i]) && !IsUpper(l[i]) && (h[i] != '@' ==> l[i] != '@') {
      assert l[i] == Lower(h[i]);
    }
    if |h| == 2 {
      assert l[0] == Lower(h[0]) && l[1] == Lower(h[1]);
    }
  }

  lemma PopKeepsPath(scheme: string, path: seq<string>)
    requires PathOk(scheme, path)
    ensures PathOk(scheme, Pop(path))
  {
  }

  lemma PushKeepsPath(scheme: string, path: seq<string>, s: string)
    requires PathOk(scheme, path) && SegmentText(s) && !IsDotSegment(s)
    requires scheme == "file" && path == [] ==> !IsPipeDrive(s)
    ensures PathOk(scheme, path + [s])
  {
    var p := path + [s];
    forall i | 0 <= i < |p| ensures SegmentText(p[i]) && !IsDotSegment(p[i]) {
    }
  }

  lemma EmptyIsNoDots()
    ensures !IsDotSegment("") && SegmentText("") && !IsPipeDrive("")
  {
  }

  lemma DriveIsNoDots(c: char)
    requires IsAlpha(c)
    ensures !IsDotSegment([c, ':']) && SegmentText([c, ':']) && !IsPipeDrive([c, ':'])
  {
  }

  /** Ending a segment keeps the path free of dot segments; the last one always leaves
      something. */
  lemma EndSegmentKeepsPath(scheme: string, path: seq<string>, segment: string, more: bool)
    requires PathOk(scheme, path) && SegmentText(segment)
    ensures PathOk(scheme, EndSegment(scheme, path, segment, more))
    ensures !more ==> EndSegment(scheme, path, segment, more) != []
  {
    PopKeepsPath(scheme, path);
    EmptyIsNoDots();
    if IsDoubleDot(segment) {
      PushKeepsPath(scheme, Pop(path), "");
    } else if IsSingleDot(segment) {
      PushKeepsPath(scheme, path, "");
    } else if scheme == "file" && path == [] && IsPipeDrive(segment) {
      DriveIsNoDots(segment[0]);
      PushKeepsPath(scheme, path, [segment[0], ':']);
    } else {
      PushKeepsPath(scheme, path, segment);
    }
  }
}
