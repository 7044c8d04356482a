/** Every iteration keeps the shape its state promises; leaving the loop yields a
    normal URL. */
module UrlShape {
  import opened Wrappers
  import opened UrlText
  import opened UrlParser
  import opened UrlNormal

  ghost predicate Shaped(k: Call, step: Step) {
    && (step.Advance? || step.Stay? ==> Shape(k, After(step)))
    && (step.Break? ==> Normal(step.url))
  }

  ghost predicate Ready(k: Call, g: Config) {
    BaseFits(k) && InReach(k, g) && Running(k, g) && Shape(k, g)
  }

  /** The last three states carry their whole shape in one predicate. */
  lemma TailShape(k: Call, n: Config)
    requires
      || (n.state == RelativePath && AtPath(k, n))
      || (n.state == Query && AtQuery(k, n))
      || (n.state == Fragment && AtFragment(k, n))
    ensures Shape(k, n)
  {
  }

  lemma SchemeStartShape(k: Call, g: Config)
    requires Ready(k, g) && g.state == SchemeStart
    ensures Shaped(k, OnSchemeStart(k, g, At(k.input, g.cursor)))
  {
    if g.cursor < |k.input| {
      assert k.input[..1] == [k.input[0]];
      assert LowerCase([k.input[0]]) == [Lower(k.input[0])];
    }
  }

  lemma FileIsNamed(k: Call, g: Config)
    requires AtScheme(k, g) && At(k.input, g.cursor) == Some(':') && g.buffer == "file"
    ensures NamesFile(k.input)
  {
    assert g.cursor == 4;
    assert k.input[..5] == k.input[..4] + [':'];
    var l := LowerCase(k.input[..5]);
    assert l == "file:";
  }

  // Parts of a URL that do not depend on each other.

  lemma BodyIgnoresTail(u: Url, query: string, fragment: string)
    requires BodyOk(u)
    ensures BodyOk(u.(query := query, fragment := fragment))
  {
  }

  lemma BodyTakesPath(u: Url, path: seq<string>)
    requires BodyOk(u) && u.isRelative && PathOk(u.scheme, path)
    ensures BodyOk(u.(path := path))
  {
  }

  lemma BodyTakesBase(u: Url, base: Url, path: seq<string>)
    requires OnlyScheme(u, base.scheme) && BodyOk(base) && base.isRelative && PathOk(base.scheme, path)
    ensures BodyOk(TakeAuthority(u, base).(path := path))
  {
  }

  lemma EmptyPathOk(scheme: string)
    ensures PathOk(scheme, [])
  {
  }

  lemma FileBody(u: Url)
    requires OnlyScheme(u, "file")
    ensures BodyOk(u) && u.isRelative && u.path == []
  {
    assert IsRelativeScheme("file") && SchemeText("file");
  }

  lemma OpaqueBody(u: Url)
    requires OnlyScheme(u, u.scheme) && SchemeText(u.scheme) && !IsRelativeScheme(u.scheme)
    ensures BodyOk(u)
  {
  }

  lemma SchemeReads(k: Call, g: Config, c: char)
    requires AtScheme(k, g) && g.cursor < |k.input| && k.input[g.cursor] == c && IsSchemeChar(c)
    ensures AtScheme(k, g.(buffer := g.buffer + [Lower(c)], cursor := g.cursor + 1))
  {
    assert k.input[..g.cursor + 1] == k.input[..g.cursor] + [c];
    assert LowerCase(k.input[..g.cursor + 1]) == LowerCase(k.input[..g.cursor]) + [Lower(c)];
  }

  lemma SchemeEnds(k: Call, g: Config)
    requires BaseFits(k) && AtScheme(k, g) && !g.seenBracket && At(k.input, g.cursor) == Some(':')
    ensures var u := Cleared.(scheme := g.buffer, isRelative := IsRelativeScheme(g.buffer));
            var n := Config(AfterScheme(k, u), g.cursor + 1, "", g.seenAt, g.seenBracket, u);
            && After(OnScheme(k, g, Some(':'))) == n && Shape(k, n)
  {
    var u := Cleared.(scheme := g.buffer, isRelative := IsRelativeScheme(g.buffer));
    if g.buffer == "file" {
      FileIsNamed(k, g);
    }
    if !u.isRelative {
      OpaqueBody(u);
    }
  }

  lemma SchemeShape(k: Call, g: Config)
    requires Ready(k, g) && g.state == Scheme
    ensures Shaped(k, OnScheme(k, g, At(k.input, g.cursor)))
  {
    var c := At(k.input, g.cursor);
    if c.Some? && IsSchemeChar(c.value) {
      SchemeReads(k, g, c.value);
    } else if Is(c, ':') {
      SchemeEnds(k, g);
    }
  }

  lemma SchemeDataShape(k: Call, g: Config)
    requires k.override == None && g.state == SchemeData && AtSchemeData(k, g) && g.buffer == "" && g.cursor <= |k.input|
    ensures Shaped(k, OnSchemeData(k, g, At(k.input, g.cursor)))
  {
    BodyIgnoresTail(g.url, "?", "");
    BodyIgnoresTail(g.url, "", "#");
  }

  lemma NoSchemeShape(k: Call, g: Config)
    requires Ready(k, g) && g.state == NoScheme
    ensures Shaped(k, OnNoScheme(k, g, At(k.input, g.cursor)))
  {
  }

  lemma RelativeOrAuthorityShape(k: Call, g: Config)
    requires Ready(k, g) && g.state == RelativeOrAuthority
    ensures Shaped(k, OnRelativeOrAuthority(k, g, At(k.input, g.cursor)))
  {
  }

  lemma BaseIsRelative(k: Call, g: Config)
    requires AtRelative(k, g) && k.base.Some?
    ensures var base := k.base.value; base.isRelative && BodyOk(base) && base.path != [] && QueryOk(base.query)
    ensures g.url.scheme == "file" ==> k.base.value.scheme == "file"
    ensures OnlyScheme(g.url.(isRelative := true, scheme := k.base.value.scheme), k.base.value.scheme)
  {
  }

  /** What the relative state leaves behind: an untouched scheme, or the base's authority. */
  lemma RelativeTakesBase(k: Call, g: Config, url: Url)
    requires AtRelative(k, g) && k.base.Some?
    requires url == g.url.(isRelative := true, scheme := if g.url.scheme != "file" then k.base.value.scheme else "file")
    ensures url.scheme == k.base.value.scheme && OnlyScheme(url, url.scheme)
    ensures var base := k.base.value;
            && Normal(TakeAuthority(url, base).(path := base.path, query := base.query))
            && BodyOk(TakeAuthority(url, base).(path := base.path))
            && BodyOk(TakeAuthority(url, base).(path := Pop(base.path)))
  {
    var base := k.base.value;
    BaseIsRelative(k, g);
    PopKeepsPath(base.scheme, base.path);
    BodyTakesBase(url, base, base.path);
    BodyTakesBase(url, base, Pop(base.path));
    var u := TakeAuthority(url, base).(path := base.path);
    BodyIgnoresTail(u, base.query, "");
  }

  /** A URL that shares its base's authority, on its way to the query or the fragment. */
  lemma BaseThenQuery(k: Call, g: Config, u: Url, n: Config)
    requires At(k.input, g.cursor) == Some('?') && BodyOk(u) && u.path != [] && u.query == "" && u.fragment == ""
    requires n == g.(url := u.(query := "?"), cursor := g.cursor + 1, state := Query)
    ensures Shape(k, n)
  {
    BodyIgnoresTail(u, "?", "");
    TailShape(k, n);
  }

  lemma BaseThenFragment(k: Call, g: Config, u: Url, query: string, n: Config)
    requires At(k.input, g.cursor) == Some('#') && BodyOk(u) && u.path != [] && QueryOk(query)
    requires n == g.(url := u.(query := query, fragment := "#"), cursor := g.cursor + 1, state := Fragment)
    ensures Shape(k, n)
  {
    BodyIgnoresTail(u, query, "#");
    TailShape(k, n);
  }

  lemma RelativeEnds(k: Call, g: Config, c: Option<char>, url: Url, u: Url)
    requires k.base.Some? && c == At(k.input, g.cursor) && c.Some? && EndsAuthority(c) && !IsSlashAt(c)
    requires url == g.url.(isRelative := true, scheme := if g.url.scheme != "file" then k.base.value.scheme else "file")
    requires u == TakeAuthority(url, k.base.value).(path := k.base.value.path)
    requires BodyOk(u) && u.path != [] && u.query == "" && u.fragment == "" && QueryOk(k.base.value.query)
    ensures Shaped(k, OnRelative(k, g, c))
  {
    if c.value == '?' {
      BaseThenQuery(k, g, u, After(OnRelative(k, g, c)));
    } else {
      BaseThenFragment(k, g, u, k.base.value.query, After(OnRelative(k, g, c)));
    }
  }

  lemma PathBegins(k: Call, g: Config, u: Url)
    requires BodyOk(u) && u.isRelative && u.query == "" && u.fragment == "" && g.cursor <= |k.input|
    ensures AtPath(k, g.(url := u, buffer := "", state := RelativePath))
  {
  }

  lemma RelativeContinues(k: Call, g: Config, c: Option<char>, url: Url)
    requires AtRelative(k, g) && k.base.Some? && c == At(k.input, g.cursor) && !EndsAuthority(c)
    requires url == g.url.(isRelative := true, scheme := if g.url.scheme != "file" then k.base.value.scheme else "file")
    requires g.buffer == ""
    ensures Shaped(k, OnRelative(k, g, c))
  {
    var base := k.base.value;
    RelativeTakesBase(k, g, url);
    PathBegins(k, g, TakeAuthority(url, base).(path := Pop(base.path)));
    if url.scheme == "file" {
      FileBody(url);
      PathBegins(k, g, url);
    }
  }

  lemma RelativeShape(k: Call, g: Config)
    requires k.base.Some? && AtRelative(k, g) && !g.seenBracket && g.buffer == ""
    ensures Shaped(k, OnRelative(k, g, At(k.input, g.cursor)))
  {
    var c, base := At(k.input, g.cursor), k.base.value;
    var url := g.url.(isRelative := true, scheme := if g.url.scheme != "file" then base.scheme else "file");
    if c.Some? && EndsAuthority(c) && !IsSlashAt(c) {
      RelativeTakesBase(k, g, url);
      BaseIsRelative(k, g);
      RelativeEnds(k, g, c, url, TakeAuthority(url, base).(path := base.path));
    } else if !EndsAuthority(c) {
      RelativeContinues(k, g, c, url);
    } else {
      RelativeTakesBase(k, g, url);
    }
  }

  lemma RelativeAloneShape(k: Call, g: Config)
    requires Ready(k, g) && g.state == Relative && k.base.None?
    ensures Shaped(k, OnRelative(k, g, At(k.input, g.cursor)))
  {
    assert g.url.scheme == "file";
    FileBody(g.url);
    assert g.url.(isRelative := true, scheme := "file") == g.url;
  }

  lemma RelativeSlashShape(k: Call, g: Config)
    requires AtRelativeSlash(k, g) && g.state == RelativeSlash && g.buffer == "" && !g.seenBracket
    ensures Shaped(k, OnRelativeSlash(k, g, At(k.input, g.cursor)))
  {
    var c := At(k.input, g.cursor);
    if !IsSlashAt(c) {
      EmptyPathOk(g.url.scheme);
      var n := After(OnRelativeSlash(k, g, c));
      if g.url.scheme == "file" {
        FileBody(g.url);
      } else {
        BodyTakesBase(g.url, k.base.value, []);
        assert TakeAuthority(g.url, k.base.value).(path := []) == TakeAuthority(g.url, k.base.value);
      }
      assert AtPath(k, n);
      TailShape(k, n);
    }
  }

  lemma AuthorityFirstSlashShape(k: Call, g: Config)
    requires Ready(k, g) && g.state == AuthorityFirstSlash
    ensures Shaped(k, OnAuthorityFirstSlash(k, g, At(k.input, g.cursor)))
  {
  }

  lemma AuthoritySecondSlashShape(k: Call, g: Config)
    requires Ready(k, g) && g.state == AuthoritySecondSlash
    ensures Shaped(k, OnAuthoritySecondSlash(k, g, At(k.input, g.cursor)))
  {
  }

  lemma AuthorityIgnoreSlashesShape(k: Call, g: Config)
    requires Ready(k, g) && g.state == AuthorityIgnoreSlashes
    ensures Shaped(k, OnAuthorityIgnoreSlashes(k, g, At(k.input, g.cursor)))
  {
  }

  /** The rewind goes back to where the text after the last `@` began, and no `@` lies
      ahead of it before the next delimiter. */
  lemma RewindIsClean(k: Call, g: Config)
    requires AtAuthority(k, g) && EndsAuthority(At(k.input, g.cursor))
    ensures NoAtAhead(k.input, g.cursor - |g.buffer|)
  {
    var from := g.cursor - |g.buffer|;
    forall i | from <= i < g.cursor ensures k.input[i] != '@' {
      assert k.input[i] == g.buffer[i - from];
    }
    NoAtBeforeDelimiter(k.input, from, g.cursor);
  }

  lemma AuthorityShape(k: Call, g: Config)
    requires Ready(k, g) && g.state == Authority
    ensures Shaped(k, OnAuthority(k, g, At(k.input, g.cursor)))
  {
    var c := At(k.input, g.cursor);
    if Is(c, '@') {
      CredentialsKeepOk(g.url, if g.seenAt then g.buffer + "%40" else g.buffer);
    } else if EndsAuthority(c) {
      RewindIsClean(k, g);
    }
  }

  lemma FileHostEnds(u: Url, h: string)
    requires OnlyScheme(u, "file") && HostText(h) && !IsDrive(h) && h != ""
    ensures BodyOk(SetHost(u, h))
  {
    FileBody(u);
    LowerKeepsText(h);
  }

  lemma FileHostShape(k: Call, g: Config)
    requires k.override == None && g.state == FileHost && AtFileHost(k, g) && g.cursor <= |k.input|
    ensures Shaped(k, OnFileHost(k, g, At(k.input, g.cursor)))
  {
    FileBody(g.url);
    if !IsDrive(g.buffer) && g.buffer != "" {
      FileHostEnds(g.url, g.buffer);
    }
  }

  lemma HostEnds(u: Url, h: string)
    requires NetScheme(u) && CredentialsOk(u)
    requires u == Cleared.(scheme := u.scheme, isRelative := true, username := u.username, password := u.password)
    requires h != "" && HostText(h) && NoAt(h) && ColonsBracketed(h)
    ensures BodyOk(SetHost(u, h)) && BracketAfter(SetHost(u, h).host) == BracketAfter(h)
  {
    LowerKeepsText(h);
    BracketsIgnoreCase(h);
    EmptyPathOk(u.scheme);
  }

  lemma HostReads(k: Call, g: Config, c: char)
    requires AtHost(k, g) && At(k.input, g.cursor) == Some(c) && !IsDelimiter(c)
    ensures IsBlank(c) ==> AtHost(k, g.(cursor := g.cursor + 1))
    ensures !IsBlank(c) && (c == ':' ==> g.seenBracket) ==>
      AtHost(k, g.(cursor := g.cursor + 1, buffer := g.buffer + [c],
                   seenBracket := if c == '[' then true else if c == ']' then false else g.seenBracket))
  {
    var b := g.buffer + [c];
    assert b[..|b| - 1] == g.buffer;
  }

  lemma HostLeaves(k: Call, g: Config, c: Option<char>)
    requires k.override == None && g.state == Host && AtHost(k, g) && c == At(k.input, g.cursor)
    requires (Is(c, ':') && !g.seenBracket) || EndsAuthority(c)
    ensures Shaped(k, OnHost(k, g, c))
  {
    if g.buffer != "" {
      HostEnds(g.url, g.buffer);
    }
  }

  lemma HostStays(k: Call, g: Config, c: Option<char>)
    requires k.override == None && g.state == Host && AtHost(k, g) && c == At(k.input, g.cursor)
    requires !(Is(c, ':') && !g.seenBracket) && !EndsAuthority(c) && !g.url.isInvalid
    ensures Shaped(k, OnHost(k, g, c))
  {
    HostReads(k, g, c.value);
    assert AtHost(k, After(OnHost(k, g, c)));
  }

  lemma HostShape(k: Call, g: Config)
    requires Ready(k, g) && g.state == Host
    ensures Shaped(k, OnHost(k, g, At(k.input, g.cursor)))
  {
    var c := At(k.input, g.cursor);
    if (Is(c, ':') && !g.seenBracket) || EndsAuthority(c) {
      HostLeaves(k, g, c);
    } else {
      HostStays(k, g, c);
    }
  }

  lemma PortEnds(u: Url, digits: string)
    requires BodyOk(u) && NetScheme(u) && u.port == "" && !BracketAfter(u.host) && AllDigits(digits)
    ensures BodyOk(SetPort(u, digits))
    ensures SetPort(u, digits) == u.(port := SetPort(u, digits).port)
  {
    if digits != "" {
      ParsePrint(ParseNat(digits));
    }
  }

  lemma PortLeaves(k: Call, g: Config, c: Option<char>)
    requires k.override == None && g.state == Port && AtPort(k, g) && c == At(k.input, g.cursor) && EndsAuthority(c)
    ensures Shaped(k, OnPort(k, g, c))
  {
    PortEnds(g.url, g.buffer);
    var n := After(OnPort(k, g, c));
    assert n == g.(url := SetPort(g.url, g.buffer), buffer := "", state := RelativePathStart);
    assert AtPathStart(k, n);
  }

  lemma PortStays(k: Call, g: Config, c: Option<char>)
    requires k.override == None && g.state == Port && AtPort(k, g) && c == At(k.input, g.cursor) && !EndsAuthority(c)
    ensures Shaped(k, OnPort(k, g, c))
  {
    var n := After(OnPort(k, g, c));
    if IsDigit(c.value) || IsBlank(c.value) {
      assert AtPort(k, n);
    } else {
      assert n.url == Invalid;
    }
  }

  lemma PortShape(k: Call, g: Config)
    requires k.override == None && g.state == Port && AtPort(k, g) && g.cursor <= |k.input|
    ensures Shaped(k, OnPort(k, g, At(k.input, g.cursor)))
  {
    var c := At(k.input, g.cursor);
    if EndsAuthority(c) {
      PortLeaves(k, g, c);
    } else {
      PortStays(k, g, c);
    }
  }

  lemma RelativePathStartShape(k: Call, g: Config)
    requires k.override == None && g.state == RelativePathStart && AtPathStart(k, g) && g.buffer == "" && g.cursor <= |k.input|
    ensures Shaped(k, OnRelativePathStart(k, g, At(k.input, g.cursor)))
  {
    PathBegins(k, g, g.url);
    var n := After(OnRelativePathStart(k, g, At(k.input, g.cursor)));
    assert AtPath(k, n);
    TailShape(k, n);
  }

  /** One segment more, or the end of the path. */
  lemma SegmentEnds(u: Url, segment: string, more: bool)
    requires BodyOk(u) && u.isRelative && u.query == "" && u.fragment == "" && SegmentText(segment)
    ensures var v := u.(path := EndSegment(u.scheme, u.path, segment, more));
            && BodyOk(v) && (!more ==> v.path != [])
            && BodyOk(v.(query := "?")) && BodyOk(v.(fragment := "#"))
  {
    EndSegmentKeepsPath(u.scheme, u.path, segment, more);
    var v := u.(path := EndSegment(u.scheme, u.path, segment, more));
    BodyTakesPath(u, v.path);
    BodyIgnoresTail(v, "?", "");
    BodyIgnoresTail(v, "", "#");
  }

  /** Where the path state goes once the segment that ends at `c` is on the path. */
  lemma PathLeaves(k: Call, g: Config, c: Option<char>, u: Url)
    requires c == At(k.input, g.cursor) && EndsSegment(k, c) && g.cursor <= |k.input|
    requires BodyOk(u) && u.isRelative && u.query == "" && u.fragment == "" && (!IsSlashAt(c) ==> u.path != [])
    requires BodyOk(u.(query := "?")) && BodyOk(u.(fragment := "#"))
    ensures Is(c, '?') ==>
      AtQuery(k, g.(url := u.(query := "?"), buffer := "", state := Query, cursor := g.cursor + 1))
    ensures Is(c, '#') ==>
      AtFragment(k, g.(url := u.(fragment := "#"), buffer := "", state := Fragment, cursor := g.cursor + 1))
    ensures !Is(c, '?') && !Is(c, '#') ==> AtPath(k, g.(url := u, buffer := "", cursor := g.cursor + 1))
  {
  }

  lemma PathEnds(k: Call, g: Config, c: Option<char>)
    requires k.override == None && AtPath(k, g) && c == At(k.input, g.cursor) && EndsSegment(k, c)
    requires g.cursor <= |k.input| && g.state == RelativePath
    ensures Shaped(k, OnRelativePath(k, g, c))
  {
    var u := g.url.(path := EndSegment(g.url.scheme, g.url.path, g.buffer, IsSlashAt(c)));
    SegmentEnds(g.url, g.buffer, IsSlashAt(c));
    PathLeaves(k, g, c, u);
    if Is(c, '?') {
      TailShape(k, g.(url := u.(query := "?"), buffer := "", state := Query, cursor := g.cursor + 1));
    } else if Is(c, '#') {
      TailShape(k, g.(url := u.(fragment := "#"), buffer := "", state := Fragment, cursor := g.cursor + 1));
    } else {
      TailShape(k, g.(url := u, buffer := "", cursor := g.cursor + 1));
    }
  }

  lemma PathReads(k: Call, g: Config, c: Option<char>)
    requires k.override == None && AtPath(k, g) && c == At(k.input, g.cursor) && !EndsSegment(k, c)
    requires g.cursor <= |k.input| && g.state == RelativePath
    ensures Shaped(k, OnRelativePath(k, g, c))
  {
    var n := After(OnRelativePath(k, g, c));
    EscapeKeepsSegment(g.buffer, c.value);
    assert n == g.(buffer := n.buffer, cursor := g.cursor + 1) && SegmentText(n.buffer);
    TailShape(k, n);
  }

  lemma QueryReads(q: string, c: char)
    requires q != "" && QueryOk(q)
    ensures QueryOk(q + EscapeQuery(c)) && q + EscapeQuery(c) != ""
  {
  }

  lemma QueryShape(k: Call, g: Config)
    requires k.override == None && g.state == Query && AtQuery(k, g) && g.buffer == "" && g.cursor <= |k.input|
    ensures Shaped(k, OnQuery(k, g, At(k.input, g.cursor)))
  {
    var c := At(k.input, g.cursor);
    var n := After(OnQuery(k, g, c));
    if Is(c, '#') {
      BodyIgnoresTail(g.url, g.url.query, "#");
      assert AtFragment(k, n);
    } else {
      if c.Some? {
        QueryReads(g.url.query, c.value);
        BodyIgnoresTail(g.url, g.url.query + EscapeQuery(c.value), "");
      }
      assert AtQuery(k, n);
    }
  }

  lemma FragmentReads(u: Url, c: char)
    requires BodyOk(u) && FragmentText(u.fragment) && !IsBlank(c)
    ensures BodyOk(u.(fragment := u.fragment + [c])) && FragmentText(u.fragment + [c])
  {
    BodyIgnoresTail(u, u.query, u.fragment + [c]);
  }

  lemma FragmentShape(k: Call, g: Config)
    requires k.override == None && g.state == Fragment && AtFragment(k, g) && g.buffer == "" && BaseFits(k) && g.cursor <= |k.input|
    ensures Shaped(k, OnFragment(k, g, At(k.input, g.cursor)))
  {
    var c := At(k.input, g.cursor);
    var n := After(OnFragment(k, g, c));
    if c.Some? && !IsBlank(c.value) {
      FragmentReads(g.url, c.value);
    }
    assert AtFragment(k, n);
    TailShape(k, n);
  }

  lemma IterateKeepsShape(k: Call, g: Config, step: Step)
    requires Ready(k, g) && step == Iterate(k, g)
    ensures Shaped(k, step)
  {
    match g.state
    case SchemeStart => SchemeStartShape(k, g);
    case Scheme => SchemeShape(k, g);
    case SchemeData => SchemeDataShape(k, g);
    case NoScheme => NoSchemeShape(k, g);
    case RelativeOrAuthority => RelativeOrAuthorityShape(k, g);
    case Relative => if k.base.Some? { RelativeShape(k, g); } else { RelativeAloneShape(k, g); }
    case RelativeSlash => RelativeSlashShape(k, g);
    case AuthorityFirstSlash => AuthorityFirstSlashShape(k, g);
    case AuthoritySecondSlash => AuthoritySecondSlashShape(k, g);
    case AuthorityIgnoreSlashes => AuthorityIgnoreSlashesShape(k, g);
    case Authority => AuthorityShape(k, g);
    case FileHost => FileHostShape(k, g);
    case Host => HostShape(k, g);
    case Port => PortShape(k, g);
    case RelativePathStart => RelativePathStartShape(k, g);
    case RelativePath =>
      var c := At(k.input, g.cursor);
      if EndsSegment(k, c) { PathEnds(k, g, c); } else { PathReads(k, g, c); }
    case Query => QueryShape(k, g);
    case Fragment => FragmentShape(k, g);
  }

  /** A loop that ends by reaching the end of input ends with a normal URL. */
  lemma EndIsNormal(k: Call, g: Config)
    requires BaseFits(k) && InReach(k, g) && Shape(k, g) && !Running(k, g) && !g.url.isInvalid
    ensures Normal(g.url)
  {
  }

  lemma {:induction false} LoopIsNormal(k: Call, g: Config)
    requires BaseFits(k) && InReach(k, g) && Shape(k, g)
    ensures var o := Loop(k, g); o.Parsed? ==> o.url == Invalid || Normal(o.url)
    decreases MAX_RANK - Rank(g.state), |k.input| + 1 - g.cursor
  {
    if !Running(k, g) {
      if !g.url.isInvalid {
        EndIsNormal(k, g);
      }
    } else {
      var step := Iterate(k, g);
      IterateKeepsShape(k, g, step);
      IterateProgresses(k, g);
      if step.Advance? || step.Stay? {
        LoopIsNormal(k, After(step));
      }
    }
  }
}
