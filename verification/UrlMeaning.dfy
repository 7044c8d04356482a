/** `new URL(url, base)` is `Meaning`: authority, file host, references and schemes. */
module UrlMeaning {
  import opened Wrappers
  import opened UrlText
  import opened UrlParser
  import opened UrlNormal
  import opened UrlRoundTrip
  import opened UrlStart
  import opened UrlPath
  import opened UrlSetters
  import opened UrlComponents
  import opened UrlReading
  import UrlTheorems

  // ----- Credentials ----------------------------------------------------------------------

  lemma {:induction false} AddKeepsRest(u: Url, text: string)
    ensures var v := AddCredentials(u, text); v == u.(username := v.username, password := v.password)
    decreases |text|
  {
    if text != "" {
      AddKeepsRest(u, text[..|text| - 1]);
    }
  }

  lemma {:induction false} AddUserName(u: Url, text: string)
    requires u.password == None && forall i | 0 <= i < |text| :: text[i] != ':'
    ensures AddCredentials(u, text) == u.(username := u.username + TextEscaped(text))
    decreases |text|
  {
    if text == "" {
      assert u.username + "" == u.username;
    } else {
      var n := |text| - 1;
      AddUserName(u, text[..n]);
      var more := if IsBlank(text[n]) then "" else Escape(text[n]);
      assert u.username + TextEscaped(text[..n]) + more == u.username + (TextEscaped(text[..n]) + more);
      assert u.username + TextEscaped(text[..n]) + "" == u.username + TextEscaped(text[..n]);
    }
  }

  lemma {:induction false} AddPasswordText(u: Url, text: string)
    requires u.password.Some?
    ensures AddCredentials(u, text) == u.(password := Some(u.password.value + TextEscaped(text)))
    decreases |text|
  {
    if text == "" {
      assert u.password.value + "" == u.password.value;
    } else {
      var n := |text| - 1;
      AddPasswordText(u, text[..n]);
      var more := if IsBlank(text[n]) then "" else Escape(text[n]);
      assert u.password.value + TextEscaped(text[..n]) + more == u.password.value + (TextEscaped(text[..n]) + more);
      assert u.password.value + TextEscaped(text[..n]) + "" == u.password.value + TextEscaped(text[..n]);
    }
  }

  lemma ColonBegins(w: Url)
    requires w.password == None
    ensures AddCredentials(w, ":") == w.(password := Some(""))
  {
    assert ":"[..0] == "";
    assert AddCredentials(w, ":") == AddCredential(w, ':');
  }

  lemma BothAreAdded(u: Url, text: string, name: string, word: string)
    requires u.username == "" && u.password == None && forall i | 0 <= i < |name| :: name[i] != ':'
    requires text == name + (":" + word)
    ensures AddCredentials(u, text) == u.(username := TextEscaped(name), password := Some(TextEscaped(word)))
  {
    var v := u.(username := TextEscaped(name));
    AddUserName(u, name);
    assert "" + TextEscaped(name) == TextEscaped(name);
    UrlTheorems.AddAppend(u, name, ":" + word);
    UrlTheorems.AddAppend(v, ":", word);
    ColonBegins(v);
    AddPasswordText(v.(password := Some("")), word);
    assert "" + TextEscaped(word) == TextEscaped(word);
  }

  lemma NameIsAdded(u: Url, text: string)
    requires u.username == "" && u.password == None && forall i | 0 <= i < |text| :: text[i] != ':'
    ensures AddCredentials(u, text) == u.(username := TextEscaped(text), password := None)
  {
    AddUserName(u, text);
    assert "" + TextEscaped(text) == TextEscaped(text);
  }

  lemma SplitIsAdded(u: Url, text: string, c: nat)
    requires u.username == "" && u.password == None
    requires c <= |text| && (c < |text| ==> text[c] == ':') && forall i | 0 <= i < c :: text[i] != ':'
    ensures AddCredentials(u, text) == SplitAt(u, text, c)
  {
    if c < |text| {
      assert text == text[..c] + (":" + text[c + 1..]);
      BothAreAdded(u, text, text[..c], text[c + 1..]);
    } else {
      assert text[..c] == text;
      NameIsAdded(u, text);
    }
  }

  /** One character at a time, the text is split at its first colon. */
  lemma CredentialsAreSplit(u: Url, text: string)
    requires u.username == "" && u.password == None
    ensures AddCredentials(u, text) == WithCredentials(u, text)
  {
    SplitIsAdded(u, text, ColonAt(text));
  }

  // ----- The authority -------------------------------------------------------------------------

  /** In the authority, after an at sign or at its beginning. */
  ghost predicate AtAuthorityText(k: Call, g: Config) {
    && Plain(k, g) && g.state == State.Authority && g.buffer == "" && !g.seenBracket
    && g.url.path == [] && g.url.fragment == "" && g.url.port == ""
  }

  function Mark(g: Config): string {
    if g.seenAt then "%40" else ""
  }

  lemma PieceIsText(k: Call, i: nat, q: nat)
    requires i <= q <= |k.input| && forall j | i <= j < q :: !IsDelimiter(k.input[j]) && k.input[j] != '@'
    ensures Sees(k, i, k.input[i..q]) && forall j | 0 <= j < q - i :: Buffers(State.Authority, k.input[i..q][j])
  {
    forall j | 0 <= j < q - i ensures Buffers(State.Authority, k.input[i..q][j]) {
      assert k.input[i..q][j] == k.input[i + j];
    }
  }

  /** The text up to the next at sign, or to the end of the authority, is buffered. */
  lemma PieceIsRead(k: Call, rel: Relation, g: Config, q: nat, piece: string)
    requires Follows(k, rel) && AtAuthorityText(k, g) && g.cursor <= q <= |k.input| && piece == k.input[g.cursor..q]
    requires forall i | g.cursor <= i < q :: !IsDelimiter(k.input[i]) && k.input[i] != '@'
    ensures rel(g, g.(buffer := piece, cursor := q)) && Plain(k, g.(buffer := piece, cursor := q))
  {
    PieceIsText(k, g.cursor, q);
    ReadBuffer(k, rel, g, piece);
    assert "" + piece == piece;
  }

  lemma AtSignStep(k: Call, m: Config, n: Config)
    requires Plain(k, m) && m.state == State.Authority && At(k.input, m.cursor) == Some('@')
    requires n == m.(url := AddCredentials(m.url, m.buffer + Mark(m)), seenAt := true, buffer := "", cursor := m.cursor + 1)
    ensures StepsTo(k, m, n) && Plain(k, n)
  {
    assert m.buffer + "" == m.buffer;
    AddKeepsRest(m.url, m.buffer + Mark(m));
  }

  lemma RewindStep(k: Call, m: Config, n: Config)
    requires Plain(k, m) && m.state == State.Authority && EndsAuthority(At(k.input, m.cursor))
    requires n == m.(cursor := m.cursor - |m.buffer|, buffer := "", state := Host)
    ensures StepsTo(k, m, n) && Plain(k, n)
  {
  }

  lemma OneMoreAtSign(u: Url, input: string, i: nat, e: nat, mark: string, q: nat)
    requires i <= e <= |input| && q == AtSign(input, i, e) < e
    ensures AddCredentials(u, CredentialText(input, i, e, mark))
         == AddCredentials(AddCredentials(u, input[i..q] + mark), CredentialText(input, q + 1, e, "%40"))
    ensures HostStart(input, i, e) == HostStart(input, q + 1, e)
  {
    var piece, later := input[i..q] + mark, CredentialText(input, q + 1, e, "%40");
    var all := CredentialText(input, i, e, mark);
    assert all == piece + later;
    UrlTheorems.AddAppend(u, piece, later);
  }

  /** The configuration behind the at sign at `q`. */
  function BehindAtSign(k: Call, g: Config, q: nat): Config
    requires g.cursor <= q <= |k.input|
  {
    g.(url := AddCredentials(g.url, k.input[g.cursor..q] + Mark(g)), seenAt := true, cursor := q + 1)
  }

  lemma AtSignIsRead(k: Call, rel: Relation, g: Config, q: nat)
    requires Follows(k, rel) && AtAuthorityText(k, g) && g.cursor <= q < |k.input| && k.input[q] == '@'
    requires forall i | g.cursor <= i < q :: !IsDelimiter(k.input[i]) && k.input[i] != '@'
    ensures rel(g, BehindAtSign(k, g, q)) && AtAuthorityText(k, BehindAtSign(k, g, q))
  {
    var piece := k.input[g.cursor..q];
    PieceIsRead(k, rel, g, q, piece);
    AtSignStep(k, g.(buffer := piece, cursor := q), BehindAtSign(k, g, q));
    AddKeepsRest(g.url, piece + Mark(g));
  }

  lemma LastPieceIsRead(k: Call, rel: Relation, g: Config, e: nat)
    requires Follows(k, rel) && AtAuthorityText(k, g) && g.cursor <= e <= |k.input| && EndsAuthority(At(k.input, e))
    requires forall i | g.cursor <= i < e :: !IsDelimiter(k.input[i]) && k.input[i] != '@'
    ensures rel(g, g.(state := Host)) && Plain(k, g.(state := Host))
  {
    var piece := k.input[g.cursor..e];
    PieceIsRead(k, rel, g, e, piece);
    RewindStep(k, g.(buffer := piece, cursor := e), g.(state := Host));
  }

  /** `n` is the host state behind the last at sign, with the credentials before it. */
  ghost predicate AuthorityRead(k: Call, g: Config, e: nat, n: Config) {
    && g.cursor <= e <= |k.input| && Plain(k, n)
    && n == g.(state := Host, url := AddCredentials(g.url, CredentialText(k.input, g.cursor, e, Mark(g))),
               cursor := HostStart(k.input, g.cursor, e), seenAt := n.seenAt)
  }

  lemma NoMoreAtSigns(k: Call, g: Config, e: nat)
    requires g.cursor <= e <= |k.input| && AtSign(k.input, g.cursor, e) == e && Plain(k, g.(state := Host))
    ensures AuthorityRead(k, g, e, g.(state := Host))
  {
  }

  lemma MoreAtSigns(k: Call, g: Config, e: nat, q: nat, n: Config)
    requires g.cursor <= e <= |k.input| && q == AtSign(k.input, g.cursor, e) < e
    requires AuthorityRead(k, BehindAtSign(k, g, q), e, n)
    ensures AuthorityRead(k, g, e, n)
  {
    OneMoreAtSign(g.url, k.input, g.cursor, e, Mark(g), q);
  }

  lemma {:induction false} AuthorityIsRead(k: Call, rel: Relation, g: Config, e: nat) returns (n: Config)
    requires Follows(k, rel) && AtAuthorityText(k, g) && e == AuthorityEnd(k.input, g.cursor)
    ensures rel(g, n) && AuthorityRead(k, g, e, n)
    decreases e - g.cursor
  {
    var q := AtSign(k.input, g.cursor, e);
    if q == e {
      n := g.(state := Host);
      LastPieceIsRead(k, rel, g, e);
      NoMoreAtSigns(k, g, e);
    } else {
      AtSignIsRead(k, rel, g, q);
      EndLater(k.input, g.cursor, q + 1);
      n := AuthorityIsRead(k, rel, BehindAtSign(k, g, q), e);
      MoreAtSigns(k, g, e, q, n);
    }
  }

  lemma {:induction false} EndLater(input: string, i: nat, j: nat)
    requires i <= |input| && i <= j <= AuthorityEnd(input, i)
    ensures AuthorityEnd(input, j) == AuthorityEnd(input, i)
    decreases j - i
  {
    if i < j {
      EndLater(input, i + 1, j);
    }
  }

  /** A whole authority, behind the slashes. */
  lemma WholeAuthorityYields(k: Call, y: Ending, g: Config)
    requires Concludes(k, y) && AtAuthorityText(k, g) && !g.seenAt && g.url.username == "" && g.url.password == None
    ensures y(g, Parsed(WithAuthority(g.url, k.input, g.cursor)))
  {
    var e := AuthorityEnd(k.input, g.cursor);
    var text := CredentialText(k.input, g.cursor, e, "");
    AlikeFollows(k, y);
    var n := AuthorityIsRead(k, Alike(y), g, e);
    AddKeepsRest(g.url, text);
    CredentialsAreSplit(g.url, text);
    EndLater(k.input, g.cursor, n.cursor);
    HostYields(k, y, n, e);
    SameConclusion(y, g, n, Parsed(WithAuthority(g.url, k.input, g.cursor)));
  }

  // ----- Slashes -------------------------------------------------------------------------------------

  /** A URL of which only the scheme is known, in state `state` at `i`. */
  function Fresh(state: State, scheme: string, i: nat): Config {
    Config(state, i, "", false, false, Empty(scheme))
  }

  lemma SlashStep(k: Call, scheme: string, i: nat)
    requires k.override == None && i <= |k.input|
    ensures var c, g := At(k.input, i), Fresh(AuthorityIgnoreSlashes, scheme, i);
            StepsTo(k, g, if IsSlashAt(c) then Fresh(AuthorityIgnoreSlashes, scheme, i + 1) else Fresh(State.Authority, scheme, i))
  {
  }

  lemma {:induction false} SlashesYield(k: Call, y: Ending, scheme: string, i: nat, o: Outcome)
    requires Concludes(k, y) && k.override == None && i <= |k.input|
    requires y(Fresh(State.Authority, scheme, SlashesEnd(k.input, i)), o)
    ensures y(Fresh(AuthorityIgnoreSlashes, scheme, i), o)
    decreases |k.input| - i
  {
    var g := Fresh(AuthorityIgnoreSlashes, scheme, i);
    SlashStep(k, scheme, i);
    if IsSlashAt(At(k.input, i)) {
      SlashesYield(k, y, scheme, i + 1, o);
      StepYields(k, y, g, Fresh(AuthorityIgnoreSlashes, scheme, i + 1), o);
    } else {
      StepYields(k, y, g, Fresh(State.Authority, scheme, i), o);
    }
  }

  lemma OneSlashMore(input: string, i: nat)
    requires i <= |input|
    ensures IsSlashAt(At(input, i)) ==> SlashesEnd(input, i) == SlashesEnd(input, i + 1)
  {
  }

  lemma SecondSlashStep(k: Call, scheme: string, i: nat)
    requires k.override == None && i <= |k.input|
    ensures StepsTo(k, Fresh(AuthoritySecondSlash, scheme, i),
                    Fresh(AuthorityIgnoreSlashes, scheme, if Is(At(k.input, i), '/') then i + 1 else i))
  {
  }

  lemma FirstSlashStep(k: Call, scheme: string, i: nat)
    requires k.override == None && i <= |k.input|
    ensures StepsTo(k, Fresh(AuthorityFirstSlash, scheme, i),
                    if Is(At(k.input, i), '/') then Fresh(AuthoritySecondSlash, scheme, i + 1) else Fresh(AuthorityIgnoreSlashes, scheme, i))
  {
  }

  lemma SecondSlashYields(k: Call, y: Ending, scheme: string, i: nat, o: Outcome)
    requires Concludes(k, y) && k.override == None && i <= |k.input|
    requires y(Fresh(State.Authority, scheme, SlashesEnd(k.input, i)), o)
    ensures y(Fresh(AuthoritySecondSlash, scheme, i), o)
  {
    var j := if Is(At(k.input, i), '/') then i + 1 else i;
    SecondSlashStep(k, scheme, i);
    OneSlashMore(k.input, i);
    SlashesYield(k, y, scheme, j, o);
    StepYields(k, y, Fresh(AuthoritySecondSlash, scheme, i), Fresh(AuthorityIgnoreSlashes, scheme, j), o);
  }

  lemma FirstSlashYields(k: Call, y: Ending, scheme: string, i: nat, o: Outcome)
    requires Concludes(k, y) && k.override == None && i <= |k.input|
    requires y(Fresh(State.Authority, scheme, SlashesEnd(k.input, i)), o)
    ensures y(Fresh(AuthorityFirstSlash, scheme, i), o)
  {
    FirstSlashStep(k, scheme, i);
    if Is(At(k.input, i), '/') {
      OneSlashMore(k.input, i);
      SecondSlashYields(k, y, scheme, i + 1, o);
      StepYields(k, y, Fresh(AuthorityFirstSlash, scheme, i), Fresh(AuthoritySecondSlash, scheme, i + 1), o);
    } else {
      SlashesYield(k, y, scheme, i, o);
      StepYields(k, y, Fresh(AuthorityFirstSlash, scheme, i), Fresh(AuthorityIgnoreSlashes, scheme, i), o);
    }
  }

  /** An authority behind any number of slashes. */
  lemma AuthorityBehindSlashes(k: Call, y: Ending, scheme: string, i: nat)
    requires Concludes(k, y) && k.override == None && i <= |k.input|
    ensures y(Fresh(State.Authority, scheme, SlashesEnd(k.input, i)), Parsed(WithAuthority(Empty(scheme), k.input, SlashesEnd(k.input, i))))
  {
    WholeAuthorityYields(k, y, Fresh(State.Authority, scheme, SlashesEnd(k.input, i)));
  }

  // ----- The host of a file URL ---------------------------------------------------------------------------

  lemma FileHostReadsOne(k: Call, rel: Relation, g: Config, c: char, n: Config)
    requires Follows(k, rel) && Plain(k, g) && g.state == FileHost && At(k.input, g.cursor) == Some(c) && !IsDelimiter(c)
    requires n == g.(buffer := if IsBlank(c) then g.buffer else g.buffer + [c], cursor := g.cursor + 1)
    ensures rel(g, n) && Plain(k, n)
  {
    assert StepsTo(k, g, n);
  }

  lemma {:induction false} FileHostReads(k: Call, rel: Relation, g: Config, e: nat, m: Config)
    requires Follows(k, rel) && Plain(k, g) && g.state == FileHost && g.cursor <= e <= |k.input|
    requires forall i | g.cursor <= i < e :: !IsDelimiter(k.input[i])
    requires m == g.(buffer := g.buffer + Unblanked(k.input[g.cursor..e]), cursor := e)
    ensures rel(g, m) && Plain(k, m)
    decreases e - g.cursor
  {
    assert g.buffer + "" == g.buffer;
    if g.cursor < e {
      var c := k.input[g.cursor];
      var n := g.(buffer := if IsBlank(c) then g.buffer else g.buffer + [c], cursor := g.cursor + 1);
      FileHostReadsOne(k, rel, g, c, n);
      UnblankedNext(k.input, g.cursor, e, g.buffer, n.buffer);
      FileHostReads(k, rel, n, e, m);
    }
  }

  lemma {:induction false} UnblankedPush(text: string, c: char)
    ensures Unblanked(text + [c]) == Unblanked(text) + if IsBlank(c) then "" else [c]
    decreases |text|
  {
    if text == "" {
      assert text + [c] == [c] && [c][1..] == "";
    } else {
      assert (text + [c])[1..] == text[1..] + [c];
      UnblankedPush(text[1..], c);
    }
  }

  /** Text without slashes that needs no escaping is one segment. */
  lemma {:induction false} OneSegment(text: string)
    requires forall i | 0 <= i < |text| :: !IsSlash(text[i]) && (IsBlank(text[i]) || IsSafe(text[i]))
    ensures Split(text) == [Unblanked(text)]
    decreases |text|
  {
    if text != "" {
      var n := |text| - 1;
      OneSegment(text[..n]);
      UnblankedPush(text[..n], text[n]);
      assert text == text[..n] + [text[n]];
      var before := Unblanked(text[..n]);
      assert [before][0 := before + [text[n]]] == [before + [text[n]]] && before + "" == before;
    }
  }

  /** A host spelled like a drive is what the path state would have buffered. */
  lemma DriveIsSegment(text: string)
    requires IsDrive(Unblanked(text))
    ensures Split(text) == [Unblanked(text)]
  {
    forall i | 0 <= i < |text| ensures !IsSlash(text[i]) && (IsBlank(text[i]) || IsSafe(text[i])) {
      if !IsBlank(text[i]) {
        UnblankedStays(text, i);
      }
    }
    OneSegment(text);
  }

  /** The path state buffers such a host as it is. */
  lemma DriveIsBuffered(k: Call, rel: Relation, i: nat, e: nat, h: string)
    requires Follows(k, rel) && k.override == None && i <= e <= |k.input| && h == Unblanked(k.input[i..e]) && IsDrive(h)
    requires forall j | i <= j < e :: !IsDelimiter(k.input[j])
    ensures rel(Fresh(RelativePath, "file", i), Fresh(RelativePath, "file", e).(buffer := h))
  {
    var p, text := Fresh(RelativePath, "file", i), k.input[i..e];
    DriveIsSegment(text);
    assert Sees(k, i, text);
    assert PathInput(k, text) by {
      assert forall j | 0 <= j < |text| :: text[j] == k.input[i + j];
    }
    PathLoopFolds(k, rel, p, text);
    assert Folded(p, text) == Fresh(RelativePath, "file", e).(buffer := h);
  }

  lemma DriveYields(k: Call, y: Ending, i: nat, e: nat, h: string)
    requires Concludes(k, y) && k.override == None && i <= |k.input| && e == AuthorityEnd(k.input, i)
    requires h == Unblanked(k.input[i..e]) && IsDrive(h)
    ensures y(Fresh(RelativePath, "file", e).(buffer := h), Parsed(WithPathFrom(Empty("file"), [], k.input, i)))
  {
    var p, m := Fresh(RelativePath, "file", i), Fresh(RelativePath, "file", e).(buffer := h);
    AlikeFollows(k, y);
    DriveIsBuffered(k, Alike(y), i, e, h);
    PathYields(k, y, p);
    SameConclusion(y, p, m, Parsed(WithPathFrom(Empty("file"), [], k.input, i)));
  }

  lemma FileHostStops(k: Call, m: Config, n: Config)
    requires Plain(k, m) && m.state == FileHost && m.url == Empty("file") && EndsAuthority(At(k.input, m.cursor))
    requires n == if IsDrive(m.buffer) then m.(state := RelativePath)
                  else m.(url := Empty("file").(host := LowerCase(m.buffer)), buffer := "", state := RelativePathStart)
    ensures StepsTo(k, m, n) && Plain(k, n)
  {
    assert LowerCase("") == "";
  }

  lemma FileHostYields(k: Call, y: Ending, i: nat)
    requires Concludes(k, y) && k.override == None && i <= |k.input|
    ensures y(Fresh(FileHost, "file", i), Parsed(WithFileHost(k.input, i)))
  {
    var e := AuthorityEnd(k.input, i);
    var h := Unblanked(k.input[i..e]);
    var g, m := Fresh(FileHost, "file", i), Fresh(FileHost, "file", e).(buffer := h);
    assert "" + h == h;
    AlikeFollows(k, y);
    FileHostReads(k, Alike(y), g, e, m);
    if IsDrive(h) {
      FileHostStops(k, m, m.(state := RelativePath));
      DriveYields(k, y, i, e, h);
      StepYields(k, y, m, m.(state := RelativePath), Parsed(WithFileHost(k.input, i)));
    } else {
      var n := Fresh(RelativePathStart, "file", e).(url := Empty("file").(host := LowerCase(h)));
      FileHostStops(k, m, n);
      RootYields(k, y, n);
      StepYields(k, y, m, n, Parsed(WithFileHost(k.input, i)));
    }
    SameConclusion(y, g, m, Parsed(WithFileHost(k.input, i)));
  }

  // ----- References -----------------------------------------------------------------------------------------

  /** The `relative` state at `i`. */
  function AtRef(url: Url, i: nat): Config {
    Config(Relative, i, "", false, false, url)
  }

  /** Only the scheme is known, or is still to be taken from the base. */
  predicate RefersTo(k: Call, url: Url, scheme: string) {
    && k.override == None
    && (url == Empty(scheme) || (url == Cleared && scheme != ""))
    && (url.scheme != "file" ==> k.base.Some? && k.base.value.scheme == scheme)
  }

  lemma SlashFollows(k: Call, url: Url, scheme: string, i: nat)
    requires RefersTo(k, url, scheme) && IsSlashAt(At(k.input, i))
    ensures StepsTo(k, AtRef(url, i), Fresh(RelativeSlash, scheme, i + 1))
  {
  }

  /** What a reference that goes on with nothing, a query or a fragment takes. */
  function TakesAll(scheme: string, base: Url): Url {
    Borrowed(scheme, base).(path := base.path, query := base.query)
  }

  lemma NothingFollows(k: Call, url: Url, scheme: string, i: nat)
    requires RefersTo(k, url, scheme) && k.base.Some? && i == |k.input|
    ensures Stops(k, AtRef(url, i), Parsed(TakesAll(scheme, k.base.value)))
  {
    assert OnRelative(k, AtRef(url, i), None) == Break(TakesAll(scheme, k.base.value));
  }

  lemma MarkFollows(k: Call, url: Url, scheme: string, i: nat) returns (n: Config)
    requires RefersTo(k, url, scheme) && k.base.Some? && (At(k.input, i) == Some('?') || At(k.input, i) == Some('#'))
    ensures StepsTo(k, AtRef(url, i), n) && Plain(k, n) && AfterMark(k, n, TakesAll(scheme, k.base.value), i)
  {
    n := After(OnRelative(k, AtRef(url, i), At(k.input, i)));
  }

  lemma PathFollows(k: Call, url: Url, scheme: string, i: nat, n: Config)
    requires RefersTo(k, url, scheme) && k.base.Some? && i < |k.input| && !IsDelimiter(k.input[i])
    requires scheme == "file" ==> !DriveAhead(k.input, i)
    requires n == Fresh(RelativePath, scheme, i).(url := Borrowed(scheme, k.base.value).(path := Pop(k.base.value.path)))
    ensures StepsTo(k, AtRef(url, i), n) && Plain(k, n)
  {
  }

  lemma ResolvedYields(k: Call, y: Ending, url: Url, scheme: string, i: nat)
    requires Concludes(k, y) && RefersTo(k, url, scheme) && k.base.Some? && i <= |k.input|
    requires !IsSlashAt(At(k.input, i)) && (scheme == "file" ==> !DriveAhead(k.input, i))
    ensures y(AtRef(url, i), Parsed(Resolved(scheme, k.base.value, k.input, i)))
  {
    var u := TakesAll(scheme, k.base.value);
    if i == |k.input| {
      NothingFollows(k, url, scheme, i);
      NoTail(u, k.input);
    } else if EndsAuthority(At(k.input, i)) {
      var n := MarkFollows(k, url, scheme, i);
      TailYields(k, y, n, u, i);
      StepYields(k, y, AtRef(url, i), n, Parsed(WithTail(u, k.input, i)));
    } else {
      var n := Fresh(RelativePath, scheme, i).(url := Borrowed(scheme, k.base.value).(path := Pop(k.base.value.path)));
      PathFollows(k, url, scheme, i, n);
      PathYields(k, y, n);
      StepYields(k, y, AtRef(url, i), n, Parsed(WithPathFrom(n.url, n.url.path, k.input, i)));
    }
  }

  lemma SecondSlashFollows(k: Call, scheme: string, i: nat)
    requires k.override == None && IsSlashAt(At(k.input, i))
    ensures StepsTo(k, Fresh(RelativeSlash, scheme, i),
                    Fresh(if scheme == "file" then FileHost else AuthorityIgnoreSlashes, scheme, i + 1))
  {
  }

  lemma NoSecondSlash(k: Call, scheme: string, i: nat, n: Config)
    requires k.override == None && i <= |k.input| && !IsSlashAt(At(k.input, i)) && (scheme != "file" ==> k.base.Some?)
    requires n == Fresh(RelativePath, scheme, i).(url := if scheme == "file" then Empty(scheme) else Borrowed(scheme, k.base.value))
    ensures StepsTo(k, Fresh(RelativeSlash, scheme, i), n) && Plain(k, n)
  {
  }

  lemma NetReferenceYields(k: Call, y: Ending, url: Url, scheme: string, i: nat)
    requires Concludes(k, y) && RefersTo(k, url, scheme) && k.base.Some? && k.base.value.scheme == scheme != "file" && i <= |k.input|
    ensures y(AtRef(url, i), Parsed(NetReference(k.base.value, k.input, i)))
  {
    if !IsSlashAt(At(k.input, i)) {
      ResolvedYields(k, y, url, scheme, i);
    } else {
      SlashFollows(k, url, scheme, i);
      AfterSlashYields(k, y, scheme, i);
      StepYields(k, y, AtRef(url, i), Fresh(RelativeSlash, scheme, i + 1), Parsed(NetReference(k.base.value, k.input, i)));
    }
  }

  lemma AfterSlashYields(k: Call, y: Ending, scheme: string, i: nat)
    requires Concludes(k, y) && k.override == None && k.base.Some? && k.base.value.scheme == scheme != "file" && i < |k.input|
    requires IsSlashAt(At(k.input, i))
    ensures y(Fresh(RelativeSlash, scheme, i + 1), Parsed(NetReference(k.base.value, k.input, i)))
  {
    var o := Parsed(NetReference(k.base.value, k.input, i));
    if IsSlashAt(At(k.input, i + 1)) {
      SecondSlashFollows(k, scheme, i + 1);
      TwoSlashes(k.input, i);
      AuthorityBehindSlashes(k, y, scheme, i + 2);
      SlashesYield(k, y, scheme, i + 2, o);
      StepYields(k, y, Fresh(RelativeSlash, scheme, i + 1), Fresh(AuthorityIgnoreSlashes, scheme, i + 2), o);
    } else {
      var n := Fresh(RelativePath, scheme, i + 1).(url := Borrowed(scheme, k.base.value));
      NoSecondSlash(k, scheme, i + 1, n);
      PathYields(k, y, n);
      StepYields(k, y, Fresh(RelativeSlash, scheme, i + 1), n, o);
    }
  }

  lemma TwoSlashes(input: string, i: nat)
    requires IsSlashAt(At(input, i)) && IsSlashAt(At(input, i + 1))
    ensures SlashesEnd(input, i) == SlashesEnd(input, i + 2)
  {
    OneSlashMore(input, i);
    OneSlashMore(input, i + 1);
  }

  lemma DriveFollows(k: Call, url: Url, i: nat)
    requires RefersTo(k, url, "file") && i <= |k.input| && DriveAhead(k.input, i)
    ensures StepsTo(k, AtRef(url, i), Fresh(RelativePath, "file", i))
  {
  }

  lemma BaseIsMissing(k: Call, url: Url, i: nat)
    requires RefersTo(k, url, "file") && k.base == None && i <= |k.input| && !IsSlashAt(At(k.input, i)) && !DriveAhead(k.input, i)
    ensures Stops(k, AtRef(url, i), Thrown)
  {
  }

  lemma FileSlashYields(k: Call, y: Ending, i: nat)
    requires Concludes(k, y) && k.override == None && i <= |k.input|
    ensures y(Fresh(RelativeSlash, "file", i), Parsed(if IsSlashAt(At(k.input, i)) then WithFileHost(k.input, i + 1) else WithPathFrom(Empty("file"), [], k.input, i)))
  {
    if IsSlashAt(At(k.input, i)) {
      SecondSlashFollows(k, "file", i);
      FileHostYields(k, y, i + 1);
      StepYields(k, y, Fresh(RelativeSlash, "file", i), Fresh(FileHost, "file", i + 1), Parsed(WithFileHost(k.input, i + 1)));
    } else {
      var n := Fresh(RelativePath, "file", i);
      NoSecondSlash(k, "file", i, n);
      PathYields(k, y, n);
      StepYields(k, y, Fresh(RelativeSlash, "file", i), n, Parsed(WithPathFrom(Empty("file"), [], k.input, i)));
    }
  }

  lemma FileReferenceYields(k: Call, y: Ending, url: Url, i: nat)
    requires Concludes(k, y) && RefersTo(k, url, "file") && i <= |k.input|
    ensures y(AtRef(url, i), FileReference(k.base, k.input, i))
  {
    var o := FileReference(k.base, k.input, i);
    if IsSlashAt(At(k.input, i)) {
      SlashFollows(k, url, "file", i);
      FileSlashYields(k, y, i + 1);
      StepYields(k, y, AtRef(url, i), Fresh(RelativeSlash, "file", i + 1), o);
    } else if DriveAhead(k.input, i) {
      DriveFollows(k, url, i);
      PathYields(k, y, Fresh(RelativePath, "file", i));
      StepYields(k, y, AtRef(url, i), Fresh(RelativePath, "file", i), o);
    } else if k.base == None {
      BaseIsMissing(k, url, i);
    } else {
      ResolvedYields(k, y, url, "file", i);
    }
  }

  // ----- Schemes without authority ------------------------------------------------------------------------------

  lemma DataReadsOne(k: Call, rel: Relation, g: Config, c: char, n: Config)
    requires Follows(k, rel) && Plain(k, g) && g.state == SchemeData && At(k.input, g.cursor) == Some(c) && c != '?' && c != '#'
    requires n == g.(url := g.url.(schemeData := g.url.schemeData + if IsBlank(c) then "" else Escape(c)), cursor := g.cursor + 1)
    ensures rel(g, n) && Plain(k, n)
  {
    assert g.url.schemeData + "" == g.url.schemeData;
    assert StepsTo(k, g, n);
  }

  /** The scheme data up to `e`. */
  function WithData(g: Config, input: string, i: nat, e: nat): Config
    requires i <= e <= |input|
  {
    g.(url := g.url.(schemeData := TextEscaped(input[i..e])), cursor := e)
  }

  lemma TextEscapedNext(input: string, i: nat, e: nat)
    requires i <= e < |input|
    ensures TextEscaped(input[i..e + 1]) == TextEscaped(input[i..e]) + if IsBlank(input[e]) then "" else Escape(input[e])
  {
    assert input[i..e + 1][..e - i] == input[i..e];
  }

  lemma {:induction false} DataReads(k: Call, rel: Relation, g: Config, e: nat)
    requires Follows(k, rel) && Plain(k, g) && g.state == SchemeData && g.url.schemeData == "" && g.cursor <= e <= |k.input|
    requires forall j | g.cursor <= j < e :: k.input[j] != '?' && k.input[j] != '#'
    ensures rel(g, WithData(g, k.input, g.cursor, e)) && Plain(k, WithData(g, k.input, g.cursor, e))
    decreases e
  {
    if e == g.cursor {
      assert WithData(g, k.input, g.cursor, e) == g;
    } else {
      var l, m := WithData(g, k.input, g.cursor, e - 1), WithData(g, k.input, g.cursor, e);
      DataReads(k, rel, g, e - 1);
      TextEscapedNext(k.input, g.cursor, e - 1);
      DataReadsOne(k, rel, l, k.input[e - 1], m);
    }
  }

  lemma DataStops(k: Call, y: Ending, m: Config)
    requires Concludes(k, y) && Plain(k, m) && m.state == SchemeData && m.buffer == "" && m.url.fragment == ""
    requires At(k.input, m.cursor) == None || At(k.input, m.cursor) == Some('?') || At(k.input, m.cursor) == Some('#')
    ensures y(m, Parsed(WithTail(m.url, k.input, m.cursor)))
  {
    var n := After(OnSchemeData(k, m, At(k.input, m.cursor)));
    assert StepsTo(k, m, n);
    if m.cursor == |k.input| {
      EndYields(k, y, n, m.url);
      NoTail(m.url, k.input);
    } else {
      TailYields(k, y, n, m.url, m.cursor);
    }
    StepYields(k, y, m, n, Parsed(WithTail(m.url, k.input, m.cursor)));
  }

  lemma OpaqueYields(k: Call, y: Ending, scheme: string, i: nat)
    requires Concludes(k, y) && k.override == None && i <= |k.input|
    ensures y(Config(SchemeData, i, "", false, false, Cleared.(scheme := scheme)), Parsed(Opaque(scheme, k.input, i)))
  {
    var g := Config(SchemeData, i, "", false, false, Cleared.(scheme := scheme));
    var e := PathEnd(k.input, i);
    AlikeFollows(k, y);
    DataReads(k, Alike(y), g, e);
    DataStops(k, y, WithData(g, k.input, i, e));
    SameConclusion(y, g, WithData(g, k.input, i, e), Parsed(Opaque(scheme, k.input, i)));
  }

  // ----- The whole input --------------------------------------------------------------------------------------------

  lemma RelativeOrAuthorityStep(k: Call, scheme: string, i: nat)
    requires RefersTo(k, Empty(scheme), scheme) && i <= |k.input|
    ensures StepsTo(k, Fresh(RelativeOrAuthority, scheme, i),
                    if Is(At(k.input, i), '/') && Is(At(k.input, i + 1), '/') then Fresh(AuthorityIgnoreSlashes, scheme, i + 1)
                    else AtRef(Empty(scheme), i))
  {
  }

  lemma TwoSlashesYield(k: Call, y: Ending, scheme: string, i: nat, o: Outcome)
    requires Concludes(k, y) && k.override == None && i < |k.input| && IsSlash(k.input[i])
    requires y(Fresh(State.Authority, scheme, SlashesEnd(k.input, i)), o)
    ensures y(Fresh(AuthorityIgnoreSlashes, scheme, i + 1), o)
  {
    OneSlashMore(k.input, i);
    SlashesYield(k, y, scheme, i + 1, o);
  }

  lemma RelativeOrAuthorityYields(k: Call, y: Ending, scheme: string, i: nat, o: Outcome)
    requires Concludes(k, y) && RefersTo(k, Empty(scheme), scheme) && i <= |k.input| && y(AtRef(Empty(scheme), i), o)
    requires IsSlashAt(At(k.input, i)) && IsSlashAt(At(k.input, i + 1)) ==> y(Fresh(State.Authority, scheme, SlashesEnd(k.input, i)), o)
    ensures y(Fresh(RelativeOrAuthority, scheme, i), o)
  {
    RelativeOrAuthorityStep(k, scheme, i);
    if Is(At(k.input, i), '/') && Is(At(k.input, i + 1), '/') {
      TwoSlashesYield(k, y, scheme, i, o);
    }
  }

  lemma NamedYields(k: Call, y: Ending)
    requires Concludes(k, y) && k.override == None && HasScheme(k.input)
    ensures y(AfterColon(k), Meaning(k.input, k.base))
  {
    var scheme, i := SchemeOf(k.input), SchemeEnd(k.input) + 1;
    if scheme == "file" {
      FileReferenceYields(k, y, Empty("file"), i);
    } else if !IsRelativeScheme(scheme) {
      OpaqueYields(k, y, scheme, i);
    } else if k.base.Some? && k.base.value.scheme == scheme {
      NetReferenceYields(k, y, Empty(scheme), scheme, i);
      AuthorityBehindSlashes(k, y, scheme, i);
      RelativeOrAuthorityYields(k, y, scheme, i, Meaning(k.input, k.base));
    } else {
      AuthorityBehindSlashes(k, y, scheme, i);
      FirstSlashYields(k, y, scheme, i, Meaning(k.input, k.base));
    }
  }

  lemma UnnamedYields(k: Call, y: Ending)
    requires Concludes(k, y) && k.override == None && !HasScheme(k.input)
    requires k.base.Some? && IsRelativeScheme(k.base.value.scheme)
    ensures y(AtReference, Meaning(k.input, k.base))
  {
    if k.base.value.scheme == "file" {
      FileReferenceYields(k, y, Cleared, 0);
    } else {
      NetReferenceYields(k, y, Cleared, k.base.value.scheme, 0);
    }
  }

  /** The loop from `g` ends with `o`. */
  ghost predicate LoopEnds(k: Call, g: Config, o: Outcome) {
    InReach(k, g) && Loop(k, g) == o
  }

  lemma LoopStops(k: Call, g: Config, o: Outcome)
    requires Stops(k, g, o)
    ensures LoopEnds(k, g, o)
  {
  }

  lemma LoopConcludes(k: Call)
    ensures Concludes(k, (g, o) => LoopEnds(k, g, o))
  {
    forall g, n, o | StepsTo(k, g, n) ensures LoopEnds(k, g, o) <==> LoopEnds(k, n, o) {
      UrlTheorems.OneStep(k, g, n);
    }
    forall m, u | Finished(k, m, u) ensures LoopEnds(k, m, Parsed(u)) {
      UrlTheorems.LoopAtEnd(k, m, u);
    }
    forall g, o | Stops(k, g, o) ensures LoopEnds(k, g, o) {
      LoopStops(k, g, o);
    }
  }

  /** For every input and every base, valid or not, the state machine with its cursor that
      moves backwards computes exactly the components that `Meaning` finds by searching for
      delimiters, and throws exactly where it does. */
  lemma ParserComputesMeaning(url: string, base: Option<Url>)
    ensures New(url, base) == Meaning(Trim(url), base)
  {
    var k := Call(Trim(url), None, base);
    var y: Ending := (g, o) => LoopEnds(k, g, o);
    LoopConcludes(k);
    if HasScheme(k.input) {
      SchemeIsNamed(k);
      NamedYields(k, y);
    } else {
      NoSchemeIsReference(k);
      if base.Some? && IsRelativeScheme(base.value.scheme) {
        UnnamedYields(k, y);
      }
    }
  }

  // ----- What a reference takes from its base ---------------------------------------------------------------------

  /** Where the input is read as a reference under a base of this scheme, other than `file`:
      at its start, or behind the colon when it names the same scheme. */
  function NetStart(input: string, scheme: string): Option<nat> {
    if !IsRelativeScheme(scheme) || scheme == "file" then None
    else if !HasScheme(input) then Some(0)
    else if SchemeOf(input) == scheme then Some(SchemeEnd(input) + 1)
    else None
  }

  /** A query of its own, up to the hash sign. */
  function OwnQuery(input: string, e: nat): string
    requires e <= |input|
  {
    if At(input, e) == Some('?') then "?" + QueryEscaped(input[e + 1..HashAt(input, e)]) else ""
  }

  /** The path: the base's when only a query, a fragment or nothing follows; after one slash
      it is folded from the root, otherwise onto the base's directory. */
  function PathUnder(base: Url, input: string, i: nat): seq<string>
    requires i <= |input|
  {
    var c := At(input, i);
    if c == None || c == Some('?') || c == Some('#') then base.path
    else if IsSlashAt(c) then Fold(base.scheme, [], Split(PathText(input, i + 1)))
    else Fold(base.scheme, Pop(base.path), Split(PathText(input, i)))
  }

  /** The query is the base's exactly when the reference is empty or begins with a hash
      sign. */
  function QueryUnder(base: Url, input: string, i: nat): string
    requires i <= |input|
  {
    var c := At(input, i);
    if c == None || c == Some('#') then base.query
    else OwnQuery(input, PathEnd(input, if IsSlashAt(c) then i + 1 else i))
  }

  function FragmentIn(input: string, i: nat): string
    requires i <= |input|
  {
    var h := HashAt(input, i);
    if h == |input| then "" else "#" + Unblanked(input[h + 1..])
  }

  lemma PathParts(u: Url, path: seq<string>, input: string, i: nat)
    requires i <= |input| && u.query == ""
    ensures WithPathFrom(u, path, input, i)
         == u.(path := Fold(u.scheme, path, Split(PathText(input, i))), query := OwnQuery(input, PathEnd(input, i)),
               fragment := FragmentIn(input, i))
  {
    HashBehindPath(input, i);
  }

  /** What such a reference gives, as one URL. */
  function Under(base: Url, input: string, i: nat): Url
    requires i <= |input|
  {
    Empty(base.scheme).(username := base.username, password := base.password, host := base.host, port := base.port,
                        path := PathUnder(base, input, i), query := QueryUnder(base, input, i), fragment := FragmentIn(input, i))
  }

  lemma TailOnly(base: Url, input: string, i: nat)
    requires i <= |input| && (At(input, i) == None || At(input, i) == Some('?') || At(input, i) == Some('#'))
    ensures NetReference(base, input, i) == Under(base, input, i)
  {
  }

  lemma HashLater(input: string, i: nat)
    requires i < |input| && input[i] != '#'
    ensures FragmentIn(input, i) == FragmentIn(input, i + 1)
  {
    assert HashAt(input, i) == HashAt(input, i + 1);
  }

  lemma RootedPath(base: Url, input: string, i: nat)
    requires IsSlashAt(At(input, i)) && !IsSlashAt(At(input, i + 1))
    ensures NetReference(base, input, i) == Under(base, input, i)
  {
    PathParts(Borrowed(base.scheme, base), [], input, i + 1);
    HashLater(input, i);
  }

  lemma RelativePathUnder(base: Url, input: string, i: nat)
    requires i < |input| && !IsDelimiter(input[i])
    ensures NetReference(base, input, i) == Under(base, input, i)
  {
    PathParts(Borrowed(base.scheme, base), Pop(base.path), input, i);
  }

  lemma ReferenceIsRead(url: string, base: Url, i: nat)
    requires NetStart(Trim(url), base.scheme) == Some(i)
    ensures i <= |Trim(url)| && New(url, Some(base)) == Parsed(NetReference(base, Trim(url), i))
  {
    ParserComputesMeaning(url, Some(base));
  }

  /** A reference that does not begin with two slashes is valid and has scheme, credentials,
      host and port of its base, whatever the base; path and query are the base's, or folded
      onto it, as said above. */
  lemma NetReferenceTakes(url: string, base: Url, i: nat)
    requires NetStart(Trim(url), base.scheme) == Some(i)
    requires !(IsSlashAt(At(Trim(url), i)) && IsSlashAt(At(Trim(url), i + 1)))
    ensures var input, o := Trim(url), New(url, Some(base));
            && i <= |input| && o.Parsed? && !o.url.isInvalid && o.url.isRelative && o.url.schemeData == ""
            && o.url.scheme == base.scheme && o.url.host == base.host && o.url.port == base.port
            && o.url.username == base.username && o.url.password == base.password
            && o.url.path == PathUnder(base, input, i) && o.url.query == QueryUnder(base, input, i)
            && o.url.fragment == FragmentIn(input, i)
  {
    var input := Trim(url);
    ReferenceIsRead(url, base, i);
    if IsSlashAt(At(input, i)) {
      RootedPath(base, input, i);
    } else if EndsAuthority(At(input, i)) {
      TailOnly(base, input, i);
    } else {
      RelativePathUnder(base, input, i);
    }
  }

  /** The path ends before the first hash sign. */
  lemma {:induction false} HashBehindPath(input: string, i: nat)
    requires i <= |input|
    ensures HashAt(input, PathEnd(input, i)) == HashAt(input, i)
    decreases |input| - i
  {
    if i < |input| && input[i] != '?' && input[i] != '#' {
      HashBehindPath(input, i + 1);
    }
  }
}
