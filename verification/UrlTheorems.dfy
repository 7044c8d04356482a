/** What holds of every URL the constructor produces. */
module UrlTheorems {
  import opened Wrappers
  import opened UrlText
  import opened UrlParser
  import opened UrlNormal
  import opened UrlRoundTrip
  import UrlShape
  import P = UrlPrinter

  // ----- Credentials ------------------------------------------------------------------

  lemma {:induction false} AddAppend(v: Url, a: string, b: string)
    ensures AddCredentials(v, a + b) == AddCredentials(AddCredentials(v, a), b)
    decreases |b|
  {
    if b == "" {
      assert a + b == a;
    } else {
      var t := a + b;
      assert t[..|t| - 1] == a + b[..|b| - 1];
      AddAppend(v, a, b[..|b| - 1]);
    }
  }

  lemma {:induction false} AddUser(v: Url, s: string)
    requires v.password == None && UserText(s)
    ensures AddCredentials(v, s) == v.(username := v.username + s)
    decreases |s|
  {
    if s == "" {
      assert v.username + s == v.username;
    } else {
      AddUser(v, s[..|s| - 1]);
      assert v.username + s[..|s| - 1] + [s[|s| - 1]] == v.username + s;
    }
  }

  lemma {:induction false} AddPassword(v: Url, s: string)
    requires v.password.Some? && PasswordText(s)
    ensures AddCredentials(v, s) == v.(password := Some(v.password.value + s))
    decreases |s|
  {
    if s == "" {
      assert v.password.value + s == v.password.value;
    } else {
      AddPassword(v, s[..|s| - 1]);
      assert v.password.value + s[..|s| - 1] + [s[|s| - 1]] == v.password.value + s;
    }
  }

  lemma PasswordIsRead(w: Url, pw: string)
    requires w.password == None && PasswordText(pw)
    ensures AddCredentials(w, ":" + pw) == w.(password := Some(pw))
  {
    AddAppend(w, ":", pw);
    assert ":"[..0] == "";
    assert AddCredentials(w, ":") == AddCredential(w, ':');
    AddPassword(w.(password := Some("")), pw);
    assert "" + pw == pw;
  }

  /** Printed credentials are read back. */
  lemma CredentialsAreRead(v: Url, u: Url)
    requires v.username == "" && v.password == None && CredentialsOk(u)
    ensures AddCredentials(v, P.Credentials(u)) == v.(username := u.username, password := u.password)
  {
    AddUser(v, u.username);
    assert "" + u.username == u.username;
    var w := v.(username := u.username);
    if u.password.Some? {
      var pw := u.password.value;
      assert P.Credentials(u) == u.username + (":" + pw);
      AddAppend(v, u.username, ":" + pw);
      PasswordIsRead(w, pw);
    } else {
      assert P.Credentials(u) == u.username;
    }
  }

  // ----- From the authority to the host -------------------------------------------------

  /** Text of an authority part: no delimiter and no `@`. */
  ghost predicate AuthorityText(s: string) {
    forall i | 0 <= i < |s| :: !IsDelimiter(s[i]) && s[i] != '@'
  }

  lemma CredentialsAreText(u: Url)
    requires CredentialsOk(u)
    ensures AuthorityText(P.Credentials(u))
  {
  }

  lemma HostAndPortIsText(u: Url)
    requires HostText(u.host) && NoAt(u.host) && AllDigits(u.port)
    ensures AuthorityText(P.HostAndPort(u))
  {
  }

  /** The buffer holds the credentials and the `@` is next. */
  lemma AtSignStep(k: Call, rel: Relation, l: Config)
    requires Follows(k, rel) && Plain(k, l) && l.state == State.Authority && !l.seenAt && At(k.input, l.cursor) == Some('@')
    requires !AddCredentials(l.url, l.buffer).isInvalid && |l.buffer| <= l.cursor
    ensures var n := l.(url := AddCredentials(l.url, l.buffer), buffer := "", seenAt := true, cursor := l.cursor + 1);
            rel(l, n) && Plain(k, n)
  {
    assert StepsTo(k, l, l.(url := AddCredentials(l.url, l.buffer), buffer := "", seenAt := true, cursor := l.cursor + 1));
  }

  lemma AtSign(k: Call, rel: Relation, g: Config, creds: string, rest: string) returns (n: Config)
    requires Follows(k, rel) && Plain(k, g) && g.state == State.Authority && g.buffer == "" && !g.seenAt
    requires AuthorityText(creds) && Ends(k, g.cursor, creds + ("@" + rest))
    requires !AddCredentials(g.url, creds).isInvalid
    ensures n == g.(url := AddCredentials(g.url, creds), seenAt := true, cursor := g.cursor + |creds| + 1)
    ensures rel(g, n) && Plain(k, n) && Ends(k, n.cursor, rest)
  {
    EndsParts(k, g.cursor, creds, "@" + rest);
    ReadBuffer(k, rel, g, creds);
    assert "" + creds == creds;
    var l := g.(buffer := creds, cursor := g.cursor + |creds|);
    EndsParts(k, l.cursor, "@", rest);
    SeesHead(k, l.cursor, "@");
    AtSignStep(k, rel, l);
    n := g.(url := AddCredentials(g.url, creds), seenAt := true, cursor := l.cursor + 1);
  }

  lemma RewindStep(k: Call, rel: Relation, l: Config)
    requires Follows(k, rel) && Plain(k, l) && l.state == State.Authority && EndsAuthority(At(k.input, l.cursor)) && |l.buffer| <= l.cursor
    ensures var n := l.(cursor := l.cursor - |l.buffer|, buffer := "", state := Host); rel(l, n) && Plain(k, n)
  {
    assert StepsTo(k, l, l.(cursor := l.cursor - |l.buffer|, buffer := "", state := Host));
  }

  lemma Rewind(k: Call, rel: Relation, g: Config, hostPort: string, rest: string) returns (n: Config)
    requires Follows(k, rel) && Plain(k, g) && g.state == State.Authority && g.buffer == ""
    requires AuthorityText(hostPort) && Ends(k, g.cursor, hostPort + rest) && rest != "" && rest[0] == '/'
    ensures n == g.(state := Host) && rel(g, n) && Plain(k, n)
  {
    EndsParts(k, g.cursor, hostPort, rest);
    ReadBuffer(k, rel, g, hostPort);
    assert "" + hostPort == hostPort;
    var l := g.(buffer := hostPort, cursor := g.cursor + |hostPort|);
    SeesHead(k, l.cursor, rest);
    RewindStep(k, rel, l);
    n := g.(state := Host);
  }

  /** From the authority state to the host state, with the credentials in place. */
  lemma AuthorityThenHost(k: Call, rel: Relation, g: Config, u: Url, rest: string) returns (n: Config)
    requires Follows(k, rel) && Plain(k, g) && g.state == State.Authority && g.buffer == "" && !g.seenAt && !g.seenBracket
    requires CredentialsOk(u) && AuthorityText(P.HostAndPort(u)) && rest != "" && rest[0] == '/'
    requires g.url.username == "" && g.url.password == None
    requires Ends(k, g.cursor, P.Authority(u) + (P.HostAndPort(u) + rest))
    ensures rel(g, n) && Plain(k, n) && n.state == Host && n.buffer == "" && !n.seenBracket
    ensures n.url == g.url.(username := u.username, password := u.password)
    ensures Ends(k, n.cursor, P.HostAndPort(u) + rest)
  {
    if P.Authority(u) == "" {
      assert P.Authority(u) + (P.HostAndPort(u) + rest) == P.HostAndPort(u) + rest;
      n := Rewind(k, rel, g, P.HostAndPort(u), rest);
    } else {
      var creds, later := P.Credentials(u), P.HostAndPort(u) + rest;
      assert P.Authority(u) + later == creds + ("@" + later);
      CredentialsAreText(u);
      CredentialsAreRead(g.url, u);
      var m := AtSign(k, rel, g, creds, later);
      n := Rewind(k, rel, m, P.HostAndPort(u), rest);
    }
  }

  // ----- The scheme and the slashes ---------------------------------------------------------

  /** From the start to just after the colon. */
  lemma SchemeIsRead(k: Call, rel: Relation, scheme: string, rest: string) returns (n: Config)
    requires Follows(k, rel) && k.override == None && SchemeText(scheme)
    requires Ends(k, 0, scheme + (":" + rest))
    ensures var url := Cleared.(scheme := scheme, isRelative := IsRelativeScheme(scheme));
            n == Config(AfterScheme(k, url), |scheme| + 1, "", false, false, url)
    ensures rel(Start(k, Cleared), n) && Plain(k, n) && Ends(k, n.cursor, rest)
  {
    var g := Start(k, Cleared);
    EndsParts(k, 0, scheme, ":" + rest);
    EndsParts(k, |scheme|, ":", rest);
    SeesHead(k, 0, scheme);
    var a := g.(buffer := [scheme[0]], state := Scheme, cursor := 1);
    assert StepsTo(k, g, a);
    ReadBuffer(k, rel, a, scheme[1..]);
    assert [scheme[0]] + scheme[1..] == scheme;
    var b := a.(buffer := scheme, cursor := |scheme|);
    SeesHead(k, |scheme|, ":");
    var url := Cleared.(scheme := scheme, isRelative := IsRelativeScheme(scheme));
    n := Config(AfterScheme(k, url), |scheme| + 1, "", false, false, url);
    assert StepsTo(k, b, n);
  }

  /** Two slashes bring a network scheme to its authority. */
  lemma SlashesAreRead(k: Call, rel: Relation, g: Config, rest: string) returns (n: Config)
    requires Follows(k, rel) && Plain(k, g) && g.state == AuthorityFirstSlash && g.buffer == ""
    requires rest != "" && !IsSlash(rest[0]) && Ends(k, g.cursor, "//" + rest)
    ensures n == g.(state := State.Authority, cursor := g.cursor + 2)
    ensures rel(g, n) && Plain(k, n) && Ends(k, n.cursor, rest)
  {
    EndsParts(k, g.cursor, "//", rest);
    SeesHead(k, g.cursor, "//");
    SeesHead(k, g.cursor + 1, "//"[1..]);
    var a := g.(state := AuthoritySecondSlash, cursor := g.cursor + 1);
    var b := g.(state := AuthorityIgnoreSlashes, cursor := g.cursor + 2);
    n := g.(state := State.Authority, cursor := g.cursor + 2);
    assert StepsTo(k, g, a);
    assert StepsTo(k, a, b);
    assert StepsTo(k, b, n);
  }

  /** Without a base, two slashes bring `file:` to its host. */
  lemma FileSlashesAreRead(k: Call, rel: Relation, g: Config, rest: string) returns (n: Config)
    requires Follows(k, rel) && Plain(k, g) && g.state == Relative && g.buffer == ""
    requires g.url.scheme == "file" && g.url.isRelative && Ends(k, g.cursor, "//" + rest)
    ensures n == g.(state := FileHost, cursor := g.cursor + 2)
    ensures rel(g, n) && Plain(k, n) && Ends(k, n.cursor, rest)
  {
    EndsParts(k, g.cursor, "//", rest);
    SeesHead(k, g.cursor, "//");
    SeesHead(k, g.cursor + 1, "//"[1..]);
    var a := g.(state := RelativeSlash, cursor := g.cursor + 1);
    n := g.(state := FileHost, cursor := g.cursor + 2);
    assert StepsTo(k, g, a);
    assert StepsTo(k, a, n);
  }

  lemma FileHostAtSlash(k: Call, rel: Relation, l: Config)
    requires Follows(k, rel) && Plain(k, l) && l.state == FileHost && !IsDrive(l.buffer) && At(k.input, l.cursor) == Some('/')
    requires LowerCase(l.buffer) == l.buffer
    requires l.url.host == ""
    ensures var n := l.(url := l.url.(host := l.buffer), buffer := "", state := RelativePathStart); rel(l, n) && Plain(k, n)
  {
    assert StepsTo(k, l, l.(url := l.url.(host := l.buffer), buffer := "", state := RelativePathStart));
  }

  lemma ReadFileHostToEnd(k: Call, rel: Relation, g: Config, host: string, rest: string) returns (l: Config)
    requires Follows(k, rel) && Plain(k, g) && g.state == FileHost && g.buffer == "" && HostText(host)
    requires Ends(k, g.cursor, host + rest)
    ensures l == g.(buffer := host, cursor := g.cursor + |host|)
    ensures rel(g, l) && Plain(k, l) && Ends(k, l.cursor, rest)
  {
    EndsParts(k, g.cursor, host, rest);
    ReadBuffer(k, rel, g, host);
    assert "" + host == host;
    l := g.(buffer := host, cursor := g.cursor + |host|);
  }

  lemma FileHostThenPath(k: Call, rel: Relation, g: Config, u: Url) returns (n: Config)
    requires Follows(k, rel) && Plain(k, g) && g.state == FileHost && g.buffer == ""
    requires HostText(u.host) && LowerCase(u.host) == u.host && !IsDrive(u.host)
    requires g.url == u.(host := "", path := [], query := "", fragment := "")
    requires Ends(k, g.cursor, u.host + PathAndTail(u))
    ensures rel(g, n) && AtPathOf(k, n, u)
  {
    var l := ReadFileHostToEnd(k, rel, g, u.host, PathAndTail(u));
    FileHostAtSlash(k, rel, l);
    n := l.(url := l.url.(host := l.buffer), buffer := "", state := RelativePathStart);
  }

  // ----- The whole text ---------------------------------------------------------------------

  lemma Regroup(s: string, a: string, h: string, p: string, q: string, f: string)
    ensures s + ":" + ("//" + a + h) + ("/" + p) + q + f == s + (":" + ("//" + (a + (h + ("/" + (p + (q + f)))))))
  {
    var tail := "/" + (p + (q + f));
    assert ("/" + p) + q + f == tail;
    assert ("//" + a + h) + tail == "//" + (a + (h + tail));
    assert s + ":" + ("//" + a + h) + ("/" + p) + q + f == s + ":" + (("//" + a + h) + tail);
  }

  lemma HrefShape(u: Url, raw: string)
    requires !u.isInvalid
    ensures u.isRelative ==>
      P.Href(u, raw) == u.scheme + (":" + ("//" + (P.Authority(u) + (P.HostAndPort(u) + PathAndTail(u)))))
    ensures !u.isRelative ==> P.Href(u, raw) == u.scheme + (":" + (u.schemeData + (u.query + u.fragment)))
  {
    if u.isRelative {
      Regroup(u.scheme, P.Authority(u), P.HostAndPort(u), P.Join(u.path), u.query, u.fragment);
    } else {
      assert u.scheme + ":" + "" == u.scheme + ":";
      assert u.scheme + ":" + u.schemeData + u.query + u.fragment == u.scheme + (":" + (u.schemeData + (u.query + u.fragment)));
    }
  }

  lemma AuthorityStartsClean(u: Url, rest: string)
    requires Normal(u) && u.isRelative && u.scheme != "file"
    ensures var s := P.Authority(u) + (P.HostAndPort(u) + rest); s != "" && !IsSlash(s[0])
    ensures AuthorityText(P.HostAndPort(u))
  {
    NormalAuthority(u);
    HostAndPortIsText(u);
    var a := P.Authority(u);
    if a != "" && u.username != "" {
      assert a[0] == u.username[0];
    }
  }

  lemma NetIsRead(k: Call, rel: Relation, u: Url) returns (m: Config)
    requires Follows(k, rel) && k.override == None && k.base == None
    requires Normal(u) && u.isRelative && u.scheme != "file"
    requires Ends(k, 0, P.Href(u, ""))
    ensures rel(Start(k, Cleared), m) && Finished(k, m, u)
  {
    HrefShape(u, "");
    var rest := P.Authority(u) + (P.HostAndPort(u) + PathAndTail(u));
    var a := SchemeIsRead(k, rel, u.scheme, "//" + rest);
    AuthorityStartsClean(u, PathAndTail(u));
    var b := SlashesAreRead(k, rel, a, rest);
    NormalAuthority(u);
    var c := AuthorityThenHost(k, rel, b, u, PathAndTail(u));
    var d := HostThenPath(k, rel, c, u);
    m := ReadRest(k, rel, d, u);
  }

  lemma FileIsRead(k: Call, rel: Relation, u: Url) returns (m: Config)
    requires Follows(k, rel) && k.override == None && k.base == None
    requires Normal(u) && u.isRelative && u.scheme == "file"
    requires Ends(k, 0, P.Href(u, ""))
    ensures rel(Start(k, Cleared), m) && Finished(k, m, u)
  {
    HrefShape(u, "");
    LowerCaseFixed(u.host);
    var rest := u.host + PathAndTail(u);
    assert P.Authority(u) == "" && P.HostAndPort(u) == u.host;
    assert P.Authority(u) + (P.HostAndPort(u) + PathAndTail(u)) == rest;
    var a := SchemeIsRead(k, rel, u.scheme, "//" + rest);
    var b := FileSlashesAreRead(k, rel, a, rest);
    var c := FileHostThenPath(k, rel, b, u);
    m := ReadRest(k, rel, c, u);
  }

  lemma OpaqueIsRead(k: Call, rel: Relation, u: Url) returns (m: Config)
    requires Follows(k, rel) && k.override == None && k.base == None
    requires Normal(u) && !u.isRelative
    requires Ends(k, 0, P.Href(u, ""))
    ensures rel(Start(k, Cleared), m) && Finished(k, m, u)
  {
    HrefShape(u, "");
    var a := SchemeIsRead(k, rel, u.scheme, u.schemeData + (u.query + u.fragment));
    m := OpaqueTail(k, rel, a, u);
  }

  /** Any normal URL, printed, is read back. */
  lemma NormalIsRead(k: Call, u: Url)
    requires k == Call(P.Href(u, ""), None, None) && Normal(u)
    ensures Parse(k, Cleared) == Parsed(u)
  {
    var rel: Relation := (a, b) => InReach(k, a) ==> InReach(k, b) && Loop(k, a) == Loop(k, b);
    forall a, b | StepsTo(k, a, b) ensures rel(a, b) {
      OneStep(k, a, b);
    }
    assert Ends(k, 0, P.Href(u, ""));
    var m;
    if !u.isRelative {
      m := OpaqueIsRead(k, rel, u);
    } else if u.scheme == "file" {
      m := FileIsRead(k, rel, u);
    } else {
      m := NetIsRead(k, rel, u);
    }
    LoopAtEnd(k, m, u);
  }

  lemma LoopAtEnd(k: Call, m: Config, u: Url)
    requires Finished(k, m, u)
    ensures Loop(k, m) == Parsed(u)
  {
  }

  lemma OneStep(k: Call, a: Config, b: Config)
    requires StepsTo(k, a, b)
    ensures InReach(k, b) && Loop(k, a) == Loop(k, b)
  {
    IterateProgresses(k, a);
  }

  // ----- Trimming ---------------------------------------------------------------------------

  predicate AllTrimmed(s: string) {
    forall i | 0 <= i < |s| :: IsTrimmed(s[i])
  }

  lemma {:induction false} TrimStartIsExact(s: string) returns (a: string)
    ensures s == a + TrimStart(s) && AllTrimmed(a) && (TrimStart(s) != "" ==> !IsTrimmed(TrimStart(s)[0]))
    decreases |s|
  {
    a := "";
    if s != "" && IsTrimmed(s[0]) {
      a := TrimStartIsExact(s[1..]);
      assert s == [s[0]] + s[1..];
      a := [s[0]] + a;
    }
  }

  lemma {:induction false} TrimEndIsExact(s: string) returns (b: string)
    ensures s == TrimEnd(s) + b && AllTrimmed(b)
    decreases |s|
  {
    b := "";
    if s != "" && IsTrimmed(s[|s| - 1]) {
      b := TrimEndIsExact(s[..|s| - 1]);
      assert s == s[..|s| - 1] + [s[|s| - 1]];
      b := b + [s[|s| - 1]];
    }
  }

  /** Trimming takes white space away at both ends and nothing else. */
  lemma TrimIsExact(s: string) returns (a: string, b: string)
    ensures s == a + Trim(s) + b && AllTrimmed(a) && AllTrimmed(b)
    ensures Trim(s) != "" ==> !IsTrimmed(Trim(s)[0]) && !IsTrimmed(Trim(s)[|Trim(s)| - 1])
  {
    a := TrimStartIsExact(s);
    b := TrimEndIsExact(TrimStart(s));
    TrimEndsClean(TrimStart(s));
    assert s == a + Trim(s) + b;
    assert Trim(s) != "" ==> Trim(s)[0] == TrimStart(s)[0];
  }

  lemma {:induction false} TrimEndsClean(s: string)
    ensures TrimEnd(s) != "" ==> !IsTrimmed(TrimEnd(s)[|TrimEnd(s)| - 1])
    decreases |s|
  {
    if s != "" && IsTrimmed(s[|s| - 1]) {
      TrimEndsClean(s[..|s| - 1]);
    }
  }

  lemma {:induction false} JoinIsClean(path: seq<string>)
    requires forall i | 0 <= i < |path| :: SegmentText(path[i])
    ensures forall i | 0 <= i < |P.Join(path)| :: !IsTrimmed(P.Join(path)[i])
    decreases |path|
  {
    if |path| > 1 {
      JoinIsClean(path[1..]);
    }
  }

  lemma LastOfSum(a: string, b: string)
    requires b != ""
    ensures (a + b)[|a + b| - 1] == b[|b| - 1]
  {
  }

  lemma TailIsClean(u: Url)
    requires QueryOk(u.query) && FragmentOk(u.fragment) && u.query + u.fragment != ""
    ensures var t := u.query + u.fragment; !IsTrimmed(t[|t| - 1])
  {
    if u.fragment != "" {
      LastOfSum(u.query, u.fragment);
    }
  }

  lemma BodyEndsClean(u: Url)
    requires Normal(u)
    ensures var b := if u.isRelative then "/" + P.Join(u.path) else ":" + u.schemeData; !IsTrimmed(b[|b| - 1])
  {
    JoinIsClean(u.path);
  }

  lemma JoinFront(scheme: string, authority: string, host: string, rest: string)
    ensures scheme + (":" + ("//" + (authority + (host + rest)))) == (scheme + (":" + ("//" + (authority + host)))) + rest
  {
  }

  /** Everything up to the last part of a printed URL that is never empty. */
  lemma HrefFront(u: Url) returns (front: string, b: string)
    requires !u.isInvalid
    ensures P.Href(u, "") == front + b + (u.query + u.fragment)
    ensures b == if u.isRelative then "/" + P.Join(u.path) else ":" + u.schemeData
    ensures u.scheme <= front
  {
    var tail := u.query + u.fragment;
    HrefShape(u, "");
    if u.isRelative {
      b := "/" + P.Join(u.path);
      var mid := ":" + ("//" + (P.Authority(u) + P.HostAndPort(u)));
      front := u.scheme + mid;
      assert b + tail == PathAndTail(u);
      JoinFront(u.scheme, P.Authority(u), P.HostAndPort(u), b + tail);
      assert (front + b) + tail == front + (b + tail);
    } else {
      front, b := u.scheme, ":" + u.schemeData;
      assert front + b + tail == u.scheme + (":" + (u.schemeData + tail));
    }
  }

  lemma HrefEndsClean(u: Url)
    requires Normal(u)
    ensures var s := P.Href(u, ""); s != "" && s[0] == u.scheme[0] && !IsTrimmed(s[|s| - 1])
  {
    var front, b := HrefFront(u);
    var tail := u.query + u.fragment;
    if tail == "" {
      BodyEndsClean(u);
      assert front + b + tail == front + b;
      LastOfSum(front, b);
    } else {
      TailIsClean(u);
      LastOfSum(front + b, tail);
    }
  }

  /** Nothing is trimmed from a printed normal URL. */
  lemma HrefIsTrimmed(u: Url)
    requires Normal(u)
    ensures Trim(P.Href(u, "")) == P.Href(u, "")
  {
    HrefEndsClean(u);
  }

  // ----- The theorems --------------------------------------------------------------------------

  /** Every successful parse without a base is normal, or the cleared invalid object. */
  lemma ParseIsNormal(url: string, base: Option<Url>)
    requires base.Some? ==> base.value == Invalid || Normal(base.value)
    requires base.Some? && NamesFile(Trim(url)) ==> base.value.scheme == "file"
    ensures var o := New(url, base); o.Parsed? ==> o.url == Invalid || Normal(o.url)
  {
    var k := Call(Trim(url), None, base);
    TrimEndsClean(TrimStart(url));
    UrlShape.LoopIsNormal(k, Start(k, Cleared));
  }

  /** Printing a URL parsed without a base and parsing the text again gives the same
      scheme, credentials, host, port, path, query and fragment. */
  lemma RoundTrip(url: string, u: Url)
    requires New(url, None) == Parsed(u) && !u.isInvalid
    ensures New(P.Href(u, url), None) == Parsed(u)
  {
    ParseIsNormal(url, None);
    NormalRoundTrip(u, url);
  }

  lemma NormalRoundTrip(u: Url, raw: string)
    requires Normal(u)
    ensures New(P.Href(u, raw), None) == Parsed(u)
  {
    HrefIsTrimmed(u);
    assert P.Href(u, raw) == P.Href(u, "");
    NormalIsRead(Call(P.Href(u, ""), None, None), u);
  }

  /** `href` is idempotent on every input that does not throw, valid or not. */
  lemma HrefIsIdempotent(url: string, u: Url)
    requires New(url, None) == Parsed(u)
    ensures New(P.Href(u, url), None) == Parsed(u) && P.Href(u, P.Href(u, url)) == P.Href(u, url)
  {
    if !u.isInvalid {
      RoundTrip(url, u);
    }
  }
}
