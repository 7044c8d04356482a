/** The URL object: its fields are updated in place by the loop over the 19 states, and
    the result is the value that the functions of `UrlParser` compute. */
module UrlObject {
  import opened Wrappers
  import opened UrlText
  import opened UrlParser
  import opened UrlNormal
  import opened UrlResolution
  import UrlComponents
  import UrlMeaning
  import UrlPath
  import opened UrlSetters
  import P = UrlPrinter

  /** The local variables of `parse`. */
  datatype Locals = Locals(state: State, cursor: nat, buffer: string, seenAt: bool, seenBracket: bool)

  /** How an iteration ends: at the bottom of the loop, by `continue`, by leaving the
      loop, or by reading a field of a missing base. */
  datatype Flow = Bottom | Continue | Leave | Fail

  /** One turn of the loop. */
  lemma LoopUnfolds(k: Call, g: Config)
    requires InReach(k, g) && Running(k, g)
    ensures Progresses(k, g, Iterate(k, g))
    ensures match Iterate(k, g)
            case Throw => Loop(k, g) == Thrown
            case Break(url) => Loop(k, g) == Parsed(url)
            case _ => Loop(k, g) == Loop(k, After(Iterate(k, g)))
  {
    IterateProgresses(k, g);
  }

  class JUrl {
    var raw: string
    var scheme: string
    var schemeData: string
    var username: string
    var password: Option<string>
    var host: string
    var port: string
    var path: seq<string>
    var query: string
    var fragment: string
    var isInvalid: bool
    var isRelative: bool

    ghost function Value(): Url
      reads this
    {
      Url(scheme, schemeData, username, password, host, port, path, query, fragment, isInvalid, isRelative)
    }

    ghost function Now(l: Locals): Config
      reads this
    {
      Config(l.state, l.cursor, l.buffer, l.seenAt, l.seenBracket, Value())
    }

    /** The step of the specification that an iteration amounts to. */
    ghost function Done(flow: Flow, l: Locals): Step
      reads this
    {
      match flow
      case Bottom => Advance(Now(l))
      case Continue => Stay(Now(l))
      case Leave => Break(Value())
      case Fail => Throw
    }

    /** A cleared object that remembers the text it was given. */
    constructor (url: string)
      ensures raw == url && Value() == Cleared
    {
      raw := url;
      new;
      Clear();
    }

    method Clear()
      modifies this
      ensures Value() == Cleared && raw == old(raw)
    {
      scheme, schemeData, username, password, host, port := "", "", "", None, "", "";
      path, query, fragment, isInvalid, isRelative := [], "", "", false, false;
    }

    method MakeInvalid()
      modifies this
      ensures Value() == Invalid && raw == old(raw)
    {
      Clear();
      isInvalid := true;
    }

    method AssignHost(h: string)
      modifies this
      ensures Value() == UrlParser.SetHost(old(Value()), h) && raw == old(raw)
    {
      if h == "" {
        MakeInvalid();
      } else {
        host := LowerCase(h);
      }
    }

    method CopyAuthority(base: JUrl)
      requires base != this
      modifies this
      ensures Value() == TakeAuthority(old(Value()), base.Value()) && raw == old(raw)
    {
      host, port, username, password := base.host, base.port, base.username, base.password;
    }

    /** The credentials before an `@`, one character at a time. */
    method ReadCredentials(text: string)
      modifies this
      ensures Value() == AddCredentials(old(Value()), text) && raw == old(raw)
    {
      var i := 0;
      while i < |text|
        invariant i <= |text| && raw == old(raw)
        invariant Value() == AddCredentials(old(Value()), text[..i])
      {
        var c := text[i];
        assert text[..i + 1][..i] == text[..i];
        if IsBlank(c) {
        } else if c == ':' && password == None {
          password := Some("");
        } else if password.Some? {
          password := Some(password.value + Escape(c));
        } else {
          username := username + Escape(c);
        }
        i := i + 1;
      }
      assert text[..i] == text;
    }

    // ----- One method for each state that changes fields in several ways ----------------

    method DoScheme(ghost k: Call, l: Locals, c: Option<char>, override: Option<State>, base: Option<JUrl>)
      returns (flow: Flow, m: Locals)
      requires k.override == override && base != Some(this)
      requires k.base == if base.Some? then Some(base.value.Value()) else None
      modifies this
      ensures Done(flow, m) == OnScheme(k, old(Now(l)), c) && raw == old(raw)
    {
      flow, m := Bottom, l;
      if c.Some? && IsSchemeChar(c.value) {
        m := l.(buffer := l.buffer + [Lower(c.value)]);
      } else if c == Some(':') {
        scheme := l.buffer;
        if override.Some? { return Leave, l; }
        if IsRelativeScheme(scheme) {
          isRelative := true;
        }
        if scheme == "file" {
          m := l.(buffer := "", state := Relative);
        } else if isRelative && base.Some? && base.value.scheme == scheme {
          m := l.(buffer := "", state := RelativeOrAuthority);
        } else if isRelative {
          m := l.(buffer := "", state := AuthorityFirstSlash);
        } else {
          m := l.(buffer := "", state := SchemeData);
        }
      } else if override.None? {
        flow, m := Continue, l.(buffer := "", cursor := 0, state := NoScheme);
      } else {
        flow := Leave;
      }
    }

    method DoSchemeData(ghost k: Call, l: Locals, c: Option<char>) returns (m: Locals)
      modifies this
      ensures Advance(Now(m)) == OnSchemeData(k, old(Now(l)), c) && raw == old(raw)
    {
      m := l;
      if c == Some('?') {
        query, m := "?", l.(state := Query);
      } else if c == Some('#') {
        fragment, m := "#", l.(state := Fragment);
      } else if c.Some? && !IsBlank(c.value) {
        schemeData := schemeData + Escape(c.value);
      }
    }

    /** The input ends, or goes on with a query or a fragment: the base's path is kept. */
    method TakeBase(l: Locals, c: Option<char>, base: JUrl) returns (flow: Flow, m: Locals)
      requires base != this && EndsAuthority(c) && !IsSlashAt(c)
      modifies this
      ensures raw == old(raw)
      ensures var u, b := old(TakeAuthority(Value(), base.Value()).(path := base.path)), old(base.Value());
              if c == None then flow == Leave && Value() == u.(query := b.query)
              else if c == Some('?') then flow == Bottom && Value() == u.(query := "?") && m == l.(state := Query)
              else flow == Bottom && Value() == u.(query := b.query, fragment := "#") && m == l.(state := Fragment)
    {
      flow, m := Bottom, l;
      CopyAuthority(base);
      path := base.path;
      if c.None? {
        query, flow := base.query, Leave;
      } else if c == Some('?') {
        query, m := "?", l.(state := Query);
      } else {
        query, fragment, m := base.query, "#", l.(state := Fragment);
      }
    }

    method DoRelative(ghost k: Call, l: Locals, input: string, base: Option<JUrl>)
      returns (flow: Flow, m: Locals)
      requires k.input == input && base != Some(this)
      requires k.base == if base.Some? then Some(base.value.Value()) else None
      modifies this
      ensures Done(flow, m) == OnRelative(k, old(Now(l)), At(input, l.cursor)) && raw == old(raw)
    {
      isRelative := true;
      if scheme != "file" {
        if base.None? { return Fail, l; }
        scheme := base.value.scheme;
      }
      flow, m := LeaveRelative(k, old(Now(l)), l, input, base);
    }

    /** The rest of the `relative` state, once the scheme is known. */
    method LeaveRelative(ghost k: Call, ghost g: Config, l: Locals, input: string, base: Option<JUrl>)
      returns (flow: Flow, m: Locals)
      requires k.input == input && base != Some(this)
      requires k.base == if base.Some? then Some(base.value.Value()) else None
      requires g.url.scheme == "file" || base.Some?
      requires Now(l) == g.(url := g.url.(isRelative := true, scheme := if g.url.scheme != "file" then k.base.value.scheme else "file"))
      modifies this
      ensures Done(flow, m) == OnRelative(k, g, At(input, l.cursor)) && raw == old(raw)
    {
      var c := At(input, l.cursor);
      if IsSlashAt(c) {
        return Bottom, l.(state := RelativeSlash);
      } else if EndsAuthority(c) {
        if base.None? { return Fail, l; }
        flow, m := TakeBase(l, c, base.value);
      } else {
        if scheme != "file" || !DriveAhead(input, l.cursor) {
          if base.None? { return Fail, l; }
          CopyAuthority(base.value);
          path := Pop(base.value.path);
        }
        flow, m := Continue, l.(state := RelativePath);
      }
    }

    method DoRelativeSlash(ghost k: Call, l: Locals, c: Option<char>, base: Option<JUrl>) returns (flow: Flow, m: Locals)
      requires base != Some(this)
      requires k.base == if base.Some? then Some(base.value.Value()) else None
      modifies this
      ensures Done(flow, m) == OnRelativeSlash(k, old(Now(l)), c) && raw == old(raw)
    {
      if IsSlashAt(c) {
        return Bottom, l.(state := if scheme == "file" then FileHost else AuthorityIgnoreSlashes);
      }
      if scheme != "file" {
        if base.None? { return Fail, l; }
        CopyAuthority(base.value);
      }
      flow, m := Continue, l.(state := RelativePath);
    }

    method DoAuthority(ghost k: Call, l: Locals, c: Option<char>) returns (flow: Flow, m: Locals)
      requires |l.buffer| <= l.cursor
      modifies this
      ensures Done(flow, m) == OnAuthority(k, old(Now(l)), c) && raw == old(raw)
    {
      if c == Some('@') {
        ReadCredentials(if l.seenAt then l.buffer + "%40" else l.buffer);
        return Bottom, l.(seenAt := true, buffer := "");
      } else if EndsAuthority(c) {
        return Continue, l.(cursor := l.cursor - |l.buffer|, buffer := "", state := Host);
      } else {
        return Bottom, l.(buffer := l.buffer + [c.value]);
      }
    }

    method DoFileHost(ghost k: Call, l: Locals, c: Option<char>) returns (flow: Flow, m: Locals)
      modifies this
      ensures Done(flow, m) == OnFileHost(k, old(Now(l)), c) && raw == old(raw)
    {
      if EndsAuthority(c) {
        if IsDrive(l.buffer) {
          return Continue, l.(state := RelativePath);
        } else if l.buffer == "" {
          return Continue, l.(state := RelativePathStart);
        }
        AssignHost(l.buffer);
        return Continue, l.(buffer := "", state := RelativePathStart);
      }
      return Bottom, if IsBlankAt(c) then l else l.(buffer := l.buffer + [c.value]);
    }

    method DoHost(ghost k: Call, l: Locals, c: Option<char>, override: Option<State>) returns (flow: Flow, m: Locals)
      requires k.override == override
      modifies this
      ensures Done(flow, m) == OnHost(k, old(Now(l)), c) && raw == old(raw)
    {
      flow, m := Bottom, l;
      if c == Some(':') && !l.seenBracket {
        AssignHost(l.buffer);
        m := l.(buffer := "", state := Port);
        if override == Some(Hostname) { flow := Leave; }
      } else if EndsAuthority(c) {
        AssignHost(l.buffer);
        flow, m := if override.Some? then Leave else Continue, l.(buffer := "", state := RelativePathStart);
      } else if !IsBlankAt(c) {
        var bracket := if c.value == '[' then true else if c.value == ']' then false else l.seenBracket;
        m := l.(buffer := l.buffer + [c.value], seenBracket := bracket);
      }
    }

    method DoPort(ghost k: Call, l: Locals, c: Option<char>, override: Option<State>) returns (flow: Flow, m: Locals)
      requires k.override == override && AllDigits(l.buffer)
      modifies this
      ensures Done(flow, m) == OnPort(k, old(Now(l)), c) && raw == old(raw)
    {
      flow, m := Bottom, l;
      if c.Some? && IsDigit(c.value) {
        m := l.(buffer := l.buffer + [c.value]);
      } else if EndsAuthority(c) || override.Some? {
        if l.buffer != "" {
          var number := ParseNat(l.buffer);
          if DefaultPort(scheme) != Some(number) {
            port := PrintNat(number);
          }
        }
        flow, m := if override.Some? then Leave else Continue, l.(buffer := "", state := RelativePathStart);
      } else if !IsBlankAt(c) {
        MakeInvalid();
      }
    }

    /** The end of a path segment, by popping and pushing. */
    method FinishSegment(buffer: string, more: bool)
      modifies this
      ensures Value() == old(Value()).(path := EndSegment(old(scheme), old(path), buffer, more)) && raw == old(raw)
    {
      DotsAreMapped(buffer);
      var segment := DotMapping(LowerCase(buffer)).GetOr(buffer);
      if segment == ".." {
        path := Pop(path);
        if !more {
          path := path + [""];
        }
      } else if segment == "." && !more {
        path := path + [""];
      } else if segment != "." {
        if scheme == "file" && path == [] && |segment| == 2 && IsAlpha(segment[0]) && segment[1] == '|' {
          segment := [segment[0], ':'];
        }
        path := path + [segment];
      }
    }

    method DoRelativePath(ghost k: Call, l: Locals, c: Option<char>, override: Option<State>) returns (m: Locals)
      requires k.override == override
      modifies this
      ensures Advance(Now(m)) == OnRelativePath(k, old(Now(l)), c) && raw == old(raw)
    {
      m := l;
      if c.None? || IsSlash(c.value) || (override.None? && (c.value == '?' || c.value == '#')) {
        FinishSegment(l.buffer, IsSlashAt(c));
        m := l.(buffer := "");
        if c == Some('?') {
          query, m := "?", m.(state := Query);
        } else if c == Some('#') {
          fragment, m := "#", m.(state := Fragment);
        }
      } else if !IsBlankAt(c) {
        m := l.(buffer := l.buffer + Escape(c.value));
      }
    }

    method DoTail(ghost k: Call, l: Locals, c: Option<char>, override: Option<State>) returns (m: Locals)
      requires k.override == override && (l.state == Query || l.state == Fragment)
      modifies this
      ensures Advance(Now(m)) == (if l.state == Query then OnQuery else OnFragment)(k, old(Now(l)), c) && raw == old(raw)
    {
      m := l;
      if l.state == Query {
        if override.None? && c == Some('#') {
          fragment, m := "#", l.(state := Fragment);
        } else if c.Some? && !IsBlank(c.value) {
          query := query + EscapeQuery(c.value);
        }
      } else if c.Some? && !IsBlank(c.value) {
        fragment := fragment + [c.value];
      }
    }

    /** The states before the authority that only move on. */
    method DoSlashes(ghost k: Call, l: Locals, input: string, override: Option<State>, base: Option<JUrl>)
      returns (flow: Flow, m: Locals)
      requires k.override == override && k.input == input && base != Some(this) && InReach(k, Now(l))
      requires k.base == if base.Some? then Some(base.value.Value()) else None
      requires l.state in {SchemeStart, NoScheme, RelativeOrAuthority, AuthorityFirstSlash, AuthoritySecondSlash,
                           AuthorityIgnoreSlashes, RelativePathStart}
      modifies this
      ensures Done(flow, m) == Iterate(k, old(Now(l))) && raw == old(raw)
    {
      var c := At(input, l.cursor);
      flow, m := Bottom, l;
      match l.state
      case SchemeStart =>
        if c.Some? && IsAlpha(c.value) {
          m := l.(buffer := l.buffer + [Lower(c.value)], state := Scheme);
        } else if override.None? {
          flow, m := Continue, l.(buffer := "", state := NoScheme);
        } else {
          flow := Leave;
        }
      case NoScheme =>
        if base.None? || !IsRelativeScheme(base.value.scheme) {
          MakeInvalid();
        } else {
          flow, m := Continue, l.(state := Relative);
        }
      case RelativeOrAuthority =>
        if c == Some('/') && At(input, l.cursor + 1) == Some('/') {
          m := l.(state := AuthorityIgnoreSlashes);
        } else {
          flow, m := Continue, l.(state := Relative);
        }
      case AuthorityFirstSlash =>
        if c == Some('/') {
          m := l.(state := AuthoritySecondSlash);
        } else {
          flow, m := Continue, l.(state := AuthorityIgnoreSlashes);
        }
      case AuthoritySecondSlash =>
        flow, m := if c == Some('/') then Bottom else Continue, l.(state := AuthorityIgnoreSlashes);
      case AuthorityIgnoreSlashes =>
        if !IsSlashAt(c) {
          flow, m := Continue, l.(state := State.Authority);
        }
      case RelativePathStart =>
        flow, m := if IsSlashAt(c) then Bottom else Continue, l.(state := RelativePath);
    }

    /** One iteration of the loop. */
    method DoIterate(ghost k: Call, l: Locals, input: string, override: Option<State>, base: Option<JUrl>)
      returns (flow: Flow, m: Locals)
      requires k.override == override && k.input == input && base != Some(this) && InReach(k, Now(l))
      requires k.base == if base.Some? then Some(base.value.Value()) else None
      modifies this
      ensures Done(flow, m) == Iterate(k, old(Now(l))) && raw == old(raw)
    {
      var c := At(input, l.cursor);
      flow := Bottom;
      match l.state
      case Scheme => flow, m := DoScheme(k, l, c, override, base);
      case SchemeData => m := DoSchemeData(k, l, c);
      case Relative => flow, m := DoRelative(k, l, input, base);
      case RelativeSlash => flow, m := DoRelativeSlash(k, l, c, base);
      case Authority => flow, m := DoAuthority(k, l, c);
      case FileHost => flow, m := DoFileHost(k, l, c);
      case Host => flow, m := DoHost(k, l, c, override);
      case Hostname => flow, m := DoHost(k, l, c, override);
      case Port => flow, m := DoPort(k, l, c, override);
      case RelativePath => m := DoRelativePath(k, l, c, override);
      case Query => m := DoTail(k, l, c, override);
      case Fragment => m := DoTail(k, l, c, override);
      case _ => flow, m := DoSlashes(k, l, input, override, base);
    }

    // ----- parse -------------------------------------------------------------------------

    /** The loop terminates without throwing and leaves in the fields the value that the
        specification computes, or throws when the specification does. */
    method Parse(input: string, override: Option<State>, base: Option<JUrl>) returns (thrown: bool)
      requires base != Some(this)
      modifies this
      ensures raw == old(raw)
      ensures UrlParser.Parse(Call(input, override, if base.Some? then Some(base.value.Value()) else None), old(Value()))
           == if thrown then Thrown else Parsed(Value())
    {
      ghost var k := Call(input, override, if base.Some? then Some(base.value.Value()) else None);
      var l := Locals(override.GetOr(SchemeStart), 0, "", false, false);
      ghost var outcome := Loop(k, Now(l));
      while (l.cursor == 0 || l.cursor - 1 < |input|) && !isInvalid
        invariant InReach(k, Now(l)) && Loop(k, Now(l)) == outcome && raw == old(raw)
        invariant k.base == if base.Some? then Some(base.value.Value()) else None
        decreases MAX_RANK - Rank(l.state), |input| + 1 - l.cursor
      {
        ghost var g := Now(l);
        LoopUnfolds(k, g);
        var flow, m := DoIterate(k, l, input, override, base);
        if flow == Fail { return true; }
        if flow == Leave { return false; }
        l := if flow == Bottom then m.(cursor := m.cursor + 1) else m;
        assert Now(l) == After(Iterate(k, g));
      }
      return false;
    }

    /** `new URL(url, base)`: the object has the components that `Meaning` finds in the trimmed
        input, and nothing is constructed when parsing throws. Objects that were constructed
        one from the other stay within what `Resolvable` describes. */
    static method Create(url: string, base: Option<JUrl>) returns (o: Option<JUrl>)
      ensures UrlComponents.Meaning(Trim(url), if base.Some? then Some(base.value.Value()) else None)
           == if o.Some? then Parsed(o.value.Value()) else Thrown
      ensures o.Some? ==> fresh(o.value) && o.value.raw == url
      ensures o.Some? && (base.Some? ==> old(Resolvable(base.value.Value()))) ==> Resolvable(o.value.Value())
    {
      if base.Some? ==> Resolvable(base.value.Value()) {
        ResultIsResolvable(url, if base.Some? then Some(base.value.Value()) else None);
      }
      UrlMeaning.ParserComputesMeaning(url, if base.Some? then Some(base.value.Value()) else None);
      var u := new JUrl(url);
      var thrown := u.Parse(Trim(url), None, base);
      o := if thrown then None else Some(u);
    }

    /** `url.pathname = text` keeps everything but the path, and the object normal. */
    method SetPathname(text: string)
      modifies this
      ensures raw == old(raw)
      ensures Parsed(Value()) == UrlPath.SetPathname(old(Value()), text)
      ensures old(Normal(Value())) ==> Normal(Value()) && Value() == old(Value()).(path := path)
    {
      if isInvalid || !isRelative { return; }
      UrlPath.PathnameIsFold(Value(), text);
      ghost var was := Value();
      path := [];
      var thrown := Parse(text, Some(RelativePathStart), None);
      if Normal(was) {
        UrlPath.PathnameKeepsNormal(was, text);
      }
    }

    /** `url.protocol = text` */
    method SetProtocol(text: string)
      modifies this
      ensures raw == old(raw)
      ensures Parsed(Value()) == UrlSetters.Assign(old(Value()), Assignment(Protocol, text))
      ensures old(Normal(Value())) ==> (Normal(Value()) <==> old(UrlSetters.Fits(Value(), Assignment(Protocol, text))))
    {
      ghost var was := Value();
      if Normal(was) {
        UrlSetters.AssignKeepsNormalIff(was, Assignment(Protocol, text));
      }
      if isInvalid { return; }
      UrlSetters.ProtocolIsScheme(was, text);
      var thrown := Parse(text + ":", Some(SchemeStart), None);
    }

    /** `url.host = text` */
    method SetHost(text: string)
      modifies this
      ensures raw == old(raw)
      ensures Parsed(Value()) == UrlSetters.Assign(old(Value()), Assignment(HostAndPort, text))
      ensures old(Normal(Value())) ==> (Normal(Value()) <==> old(UrlSetters.Fits(Value(), Assignment(HostAndPort, text))))
    {
      ghost var was := Value();
      if Normal(was) {
        UrlSetters.AssignKeepsNormalIff(was, Assignment(HostAndPort, text));
      }
      if isInvalid || !isRelative { return; }
      UrlSetters.HostIsRead(was, text, Host);
      var thrown := Parse(text, Some(Host), None);
    }

    /** `url.hostname = text` */
    method SetHostname(text: string)
      modifies this
      ensures raw == old(raw)
      ensures Parsed(Value()) == UrlSetters.Assign(old(Value()), Assignment(HostName, text))
      ensures old(Normal(Value())) ==> (Normal(Value()) <==> old(UrlSetters.Fits(Value(), Assignment(HostName, text))))
    {
      ghost var was := Value();
      if Normal(was) {
        UrlSetters.AssignKeepsNormalIff(was, Assignment(HostName, text));
      }
      if isInvalid || !isRelative { return; }
      UrlSetters.HostIsRead(was, text, Hostname);
      var thrown := Parse(text, Some(Hostname), None);
    }

    /** `url.port = text` */
    method SetPort(text: string)
      modifies this
      ensures raw == old(raw)
      ensures Parsed(Value()) == UrlSetters.Assign(old(Value()), Assignment(PortOnly, text))
      ensures old(Normal(Value())) ==> (Normal(Value()) <==> old(UrlSetters.Fits(Value(), Assignment(PortOnly, text))))
    {
      ghost var was := Value();
      if Normal(was) {
        UrlSetters.AssignKeepsNormalIff(was, Assignment(PortOnly, text));
      }
      if isInvalid || !isRelative { return; }
      UrlSetters.PortIsDigits(was, text);
      var thrown := Parse(text, Some(Port), None);
    }

    /** `url.search = text` */
    method SetSearch(text: string)
      modifies this
      ensures raw == old(raw)
      ensures Parsed(Value()) == UrlSetters.Assign(old(Value()), Assignment(Search, text))
      ensures old(Normal(Value())) ==> (Normal(Value()) <==> old(UrlSetters.Fits(Value(), Assignment(Search, text))))
    {
      ghost var was := Value();
      if Normal(was) {
        UrlSetters.AssignKeepsNormalIff(was, Assignment(Search, text));
      }
      if isInvalid || !isRelative { return; }
      UrlSetters.SearchIsEscaped(was, text);
      query := "?";
      var thrown := Parse(if text != "" && text[0] == '?' then text[1..] else text, Some(Query), None);
    }

    /** `url.hash = text` */
    method SetHash(text: string)
      modifies this
      ensures raw == old(raw)
      ensures Parsed(Value()) == UrlSetters.Assign(old(Value()), Assignment(Hash, text))
      ensures old(Normal(Value())) ==> (Normal(Value()) <==> old(UrlSetters.Fits(Value(), Assignment(Hash, text))))
    {
      ghost var was := Value();
      if Normal(was) {
        UrlSetters.AssignKeepsNormalIff(was, Assignment(Hash, text));
      }
      if isInvalid { return; }
      UrlSetters.HashIsKept(was, text);
      if text == "" {
        fragment := "";
        return;
      }
      fragment := "#";
      var thrown := Parse(if text[0] == '#' then text[1..] else text, Some(Fragment), None);
    }

    /** The `href` getter. */
    method Href() returns (r: string)
      ensures r == P.Href(Value(), raw)
    {
      if isInvalid { return raw; }
      var authority := "";
      if username != "" || password.Some? {
        authority := username + (if password.Some? then ":" + password.value else "") + "@";
      }
      var where := if port != "" then host + ":" + port else host;
      r := scheme + ":" + (if isRelative then "//" + authority + where else "")
        + (if isRelative then "/" + P.Join(path) else schemeData) + query + fragment;
    }
  }
}
