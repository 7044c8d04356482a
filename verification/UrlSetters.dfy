/** The setters of the URL object other than `pathname`: what each makes of its text, and
    exactly when a normal URL stays normal. */
module UrlSetters {
  import opened Wrappers
  import opened UrlText
  import opened UrlParser
  import opened UrlNormal
  import opened UrlRoundTrip
  import opened UrlStart
  import UrlPath
  import UrlResolution
  import UrlShape
  import UrlTheorems
  import P = UrlPrinter

  /** Inside the input, whatever the state override. */
  ghost predicate Within(k: Call, g: Config) {
    InReach(k, g) && !g.url.isInvalid && g.cursor <= |k.input|
  }

  // ----- The setters --------------------------------------------------------------------

  /** The text without its first character if that is `c`. */
  function Without(c: char, text: string): string {
    if text != "" && text[0] == c then text[1..] else text
  }

  /** `url.search = text` */
  function SetSearch(u: Url, text: string): Outcome {
    if u.isInvalid || !u.isRelative then Parsed(u)
    else Parse(Call(Without('?', text), Some(Query), None), u.(query := "?"))
  }

  /** `url.hash = text` */
  function SetHash(u: Url, text: string): Outcome {
    if u.isInvalid then Parsed(u)
    else if text == "" then Parsed(u.(fragment := ""))
    else Parse(Call(Without('#', text), Some(Fragment), None), u.(fragment := "#"))
  }

  /** `url.host = text`, or `url.hostname = text` with the other state. */
  function SetHostPart(u: Url, text: string, state: State): Outcome {
    if u.isInvalid || !u.isRelative then Parsed(u) else Parse(Call(text, Some(state), None), u)
  }

  /** `url.port = text` */
  function SetPortPart(u: Url, text: string): Outcome {
    if u.isInvalid || !u.isRelative then Parsed(u) else Parse(Call(text, Some(Port), None), u)
  }

  /** `url.protocol = text` */
  function SetProtocol(u: Url, text: string): Outcome {
    if u.isInvalid then Parsed(u) else Parse(Call(text + ":", Some(SchemeStart), None), u)
  }

  // ----- Query and fragment ---------------------------------------------------------------

  /** The text without blanks. */
  function Unblanked(text: string): (r: string)
    ensures forall i | 0 <= i < |r| :: !IsBlank(r[i])
  {
    if text == "" then ""
    else (if IsBlank(text[0]) then "" else [text[0]]) + Unblanked(text[1..])
  }

  /** The text without blanks, escaped as in a query. */
  function QueryEscaped(text: string): (r: string)
    ensures forall i | 0 <= i < |r| :: IsQuerySafe(r[i])
  {
    if text == "" then ""
    else (if IsBlank(text[0]) then "" else EscapeQuery(text[0])) + QueryEscaped(text[1..])
  }

  lemma UnblankedNext(text: string, i: nat, e: nat, before: string, after: string)
    requires i < e <= |text| && after == before + if IsBlank(text[i]) then "" else [text[i]]
    ensures after + Unblanked(text[i + 1..e]) == before + Unblanked(text[i..e])
  {
    assert text[i..e][1..] == text[i + 1..e];
    assert before + ((if IsBlank(text[i]) then "" else [text[i]]) + Unblanked(text[i + 1..e])) == after + Unblanked(text[i + 1..e]);
  }

  lemma QueryEscapedNext(text: string, i: nat, e: nat, before: string, after: string)
    requires i < e <= |text| && after == before + if IsBlank(text[i]) then "" else EscapeQuery(text[i])
    ensures after + QueryEscaped(text[i + 1..e]) == before + QueryEscaped(text[i..e])
  {
    var more := if IsBlank(text[i]) then "" else EscapeQuery(text[i]);
    assert text[i..e][1..] == text[i + 1..e];
    assert before + (more + QueryEscaped(text[i + 1..e])) == after + QueryEscaped(text[i + 1..e]);
  }

  lemma QueryReadsOne(k: Call, rel: Relation, g: Config, c: char, n: Config)
    requires Follows(k, rel) && Within(k, g) && g.state == Query && At(k.input, g.cursor) == Some(c)
    requires k.override.Some? || c != '#'
    requires n == g.(url := g.url.(query := g.url.query + if IsBlank(c) then "" else EscapeQuery(c)), cursor := g.cursor + 1)
    ensures rel(g, n) && Within(k, n)
  {
    assert g.url.query + "" == g.url.query;
    assert StepsTo(k, g, n);
  }

  /** The query state up to `e`; a hash sign ends it unless there is an override. */
  lemma {:induction false} QueryReadsTo(k: Call, rel: Relation, g: Config, e: nat, m: Config)
    requires Follows(k, rel) && Within(k, g) && g.state == Query && g.cursor <= e <= |k.input|
    requires k.override.Some? || forall i | g.cursor <= i < e :: k.input[i] != '#'
    requires m == g.(url := g.url.(query := g.url.query + QueryEscaped(k.input[g.cursor..e])), cursor := e)
    ensures rel(g, m) && Within(k, m)
    decreases e - g.cursor
  {
    if g.cursor == e {
      assert g.url.query + "" == g.url.query;
    } else {
      var c := k.input[g.cursor];
      var more := if IsBlank(c) then "" else EscapeQuery(c);
      var n := g.(url := g.url.(query := g.url.query + more), cursor := g.cursor + 1);
      QueryReadsOne(k, rel, g, c, n);
      QueryEscapedNext(k.input, g.cursor, e, g.url.query, n.url.query);
      QueryReadsTo(k, rel, n, e, m);
    }
  }

  lemma FragmentReadsOne(k: Call, rel: Relation, g: Config, c: char, n: Config)
    requires Follows(k, rel) && Within(k, g) && g.state == Fragment && At(k.input, g.cursor) == Some(c)
    requires n == g.(url := g.url.(fragment := g.url.fragment + if IsBlank(c) then "" else [c]), cursor := g.cursor + 1)
    ensures rel(g, n) && Within(k, n)
  {
    assert g.url.fragment + "" == g.url.fragment;
    assert StepsTo(k, g, n);
  }

  lemma {:induction false} FragmentReadsAll(k: Call, rel: Relation, g: Config, m: Config)
    requires Follows(k, rel) && Within(k, g) && g.state == Fragment
    requires m == g.(url := g.url.(fragment := g.url.fragment + Unblanked(k.input[g.cursor..])), cursor := |k.input|)
    ensures rel(g, m) && Within(k, m)
    decreases |k.input| - g.cursor
  {
    if g.cursor == |k.input| {
      assert g.url.fragment + "" == g.url.fragment;
    } else {
      var c := k.input[g.cursor];
      var more := if IsBlank(c) then "" else [c];
      var n := g.(url := g.url.(fragment := g.url.fragment + more), cursor := g.cursor + 1);
      FragmentReadsOne(k, rel, g, c, n);
      UnblankedNext(k.input, g.cursor, |k.input|, g.url.fragment, n.url.fragment);
      assert k.input[g.cursor..] == k.input[g.cursor..|k.input|] && k.input[n.cursor..] == k.input[n.cursor..|k.input|];
      FragmentReadsAll(k, rel, n, m);
    }
  }

  /** From the end of input the loop ends with what it has. */
  lemma TailEnds(k: Call, g: Config, m: Config)
    requires Within(k, g) && SameEnd(k, g, m) && Within(k, m) && m.cursor == |k.input|
    requires m.state == Query || m.state == Fragment
    ensures Loop(k, g) == Parsed(m.url)
  {
    var n := m.(cursor := |k.input| + 1);
    assert StepsTo(k, m, n);
    UrlTheorems.OneStep(k, m, n);
    UrlTheorems.LoopAtEnd(k, n, m.url);
  }

  /** The query becomes the escaped text behind one question mark. */
  lemma SearchIsEscaped(u: Url, text: string)
    requires !u.isInvalid && u.isRelative
    ensures SetSearch(u, text) == Parsed(u.(query := "?" + QueryEscaped(Without('?', text))))
  {
    var k := Call(Without('?', text), Some(Query), None);
    var g := Start(k, u.(query := "?"));
    assert k.input[0..|k.input|] == k.input;
    var m := g.(url := u.(query := "?" + QueryEscaped(k.input)), cursor := |k.input|);
    SameEndFollows(k);
    QueryReadsTo(k, (a, b) => SameEnd(k, a, b), g, |k.input|, m);
    TailEnds(k, g, m);
  }

  /** The fragment becomes the text without blanks behind one hash sign, or nothing. */
  lemma HashIsKept(u: Url, text: string)
    requires !u.isInvalid
    ensures SetHash(u, text) == Parsed(u.(fragment := if text == "" then "" else "#" + Unblanked(Without('#', text))))
  {
    if text != "" {
      var k := Call(Without('#', text), Some(Fragment), None);
      var g := Start(k, u.(fragment := "#"));
      assert k.input[0..] == k.input;
      var m := g.(url := u.(fragment := "#" + Unblanked(k.input)), cursor := |k.input|);
      SameEndFollows(k);
      FragmentReadsAll(k, (a, b) => SameEnd(k, a, b), g, m);
      TailEnds(k, g, m);
    }
  }

  /** Setting `search` keeps every normal URL normal. */
  lemma SearchKeepsNormal(u: Url, text: string)
    requires Normal(u)
    ensures SetSearch(u, text).Parsed? && Normal(SetSearch(u, text).url)
  {
    if u.isRelative {
      SearchIsEscaped(u, text);
    }
  }

  /** The text, blanks aside, does not end in a space or a form feed. */
  predicate EndsVisibly(text: string) {
    var t := Unblanked(text);
    t == "" || !IsTrimmed(t[|t| - 1])
  }

  lemma FragmentNormalIff(u: Url, f: string)
    requires Normal(u)
    ensures Normal(u.(fragment := f)) <==> FragmentOk(f)
  {
    UrlShape.BodyIgnoresTail(u, u.query, f);
  }

  lemma FragmentEndsVisibly(text: string)
    ensures FragmentOk("#" + Unblanked(text)) <==> EndsVisibly(text)
  {
    var f, t := "#" + Unblanked(text), Unblanked(text);
    assert t == "" ==> f[|f| - 1] == '#';
    assert t != "" ==> f[|f| - 1] == t[|t| - 1];
  }

  /** Setting `hash` keeps a normal URL normal exactly when the text ends visibly: the
      constructor would trim what the setter stores. */
  lemma HashKeepsNormalIff(u: Url, text: string)
    requires Normal(u)
    ensures SetHash(u, text).Parsed? && (Normal(SetHash(u, text).url) <==> EndsVisibly(Without('#', text)))
  {
    HashIsKept(u, text);
    FragmentNormalIff(u, SetHash(u, text).url.fragment);
    FragmentEndsVisibly(Without('#', text));
  }

  // ----- Port ---------------------------------------------------------------------------------

  /** Where the digits from `i` on end. */
  function DigitEnd(text: string, i: nat): (e: nat)
    requires i <= |text|
    ensures i <= e <= |text| && (forall j | i <= j < e :: IsDigit(text[j])) && (e < |text| ==> !IsDigit(text[e]))
    decreases |text| - i
  {
    if i == |text| || !IsDigit(text[i]) then i else DigitEnd(text, i + 1)
  }

  function Digits(text: string, i: nat): (r: string)
    requires i <= |text|
    ensures AllDigits(r)
  {
    text[i..DigitEnd(text, i)]
  }

  lemma DigitsRead(k: Call, rel: Relation, g: Config, m: Config)
    requires Follows(k, rel) && Within(k, g) && g.state == Port && g.buffer == ""
    requires m == g.(buffer := Digits(k.input, g.cursor), cursor := DigitEnd(k.input, g.cursor))
    ensures rel(g, m) && Within(k, m)
  {
    DigitsReadTo(k, rel, g, DigitEnd(k.input, g.cursor), m);
  }

  lemma {:induction false} DigitsReadTo(k: Call, rel: Relation, g: Config, e: nat, m: Config)
    requires Follows(k, rel) && Within(k, g) && g.state == Port && g.buffer == ""
    requires g.cursor <= e <= |k.input| && forall i | g.cursor <= i < e :: IsDigit(k.input[i])
    requires m == g.(buffer := k.input[g.cursor..e], cursor := e)
    ensures rel(g, m) && Within(k, m)
    decreases e
  {
    if e == g.cursor {
      assert k.input[e..e] == "";
      assert m == g;
    } else {
      var l := g.(buffer := k.input[g.cursor..e - 1], cursor := e - 1);
      DigitsReadTo(k, rel, g, e - 1, l);
      assert m.buffer == l.buffer + [k.input[e - 1]];
      DigitStep(k, rel, l, k.input[e - 1], m);
    }
  }

  lemma DigitStep(k: Call, rel: Relation, l: Config, c: char, m: Config)
    requires Follows(k, rel) && Within(k, l) && l.state == Port && At(k.input, l.cursor) == Some(c) && IsDigit(c)
    requires m == l.(buffer := l.buffer + [c], cursor := l.cursor + 1)
    ensures rel(l, m) && Within(k, m)
  {
    assert StepsTo(k, l, m);
  }

  /** The port state under an override stores the digits it finds. */
  lemma PortLoop(k: Call, g: Config)
    requires Within(k, g) && g.state == Port && g.buffer == "" && k.override.Some?
    ensures Loop(k, g) == Parsed(SetPort(g.url, Digits(k.input, g.cursor)))
  {
    var m := g.(buffer := Digits(k.input, g.cursor), cursor := DigitEnd(k.input, g.cursor));
    SameEndFollows(k);
    DigitsRead(k, (a, b) => SameEnd(k, a, b), g, m);
    PortBreaks(k, m);
  }

  lemma PortBreaks(k: Call, m: Config)
    requires Within(k, m) && m.state == Port && k.override.Some?
    requires At(k.input, m.cursor).Some? ==> !IsDigit(At(k.input, m.cursor).value)
    ensures Loop(k, m) == Parsed(SetPort(m.url, m.buffer))
  {
    assert OnPort(k, m, At(k.input, m.cursor)) == Break(SetPort(m.url, m.buffer));
  }

  /** The `port` setter stores the digits in front, unless there are none or they spell the
      default port. */
  lemma PortIsDigits(u: Url, text: string)
    requires !u.isInvalid && u.isRelative
    ensures SetPortPart(u, text) == Parsed(SetPort(u, Digits(text, 0)))
  {
    var k := Call(text, Some(Port), None);
    PortLoop(k, Start(k, u));
  }

  /** The port stays as it is, or the URL can have one: neither `file` nor a host that would
      swallow it between brackets. */
  ghost predicate PortFits(u: Url, digits: string)
    requires AllDigits(digits)
  {
    || digits == "" || DefaultPort(u.scheme) == Some(ParseNat(digits))
    || (u.scheme != "file" && !BracketAfter(u.host))
  }

  lemma PortNormalIff(u: Url, digits: string)
    requires Normal(u) && u.isRelative && AllDigits(digits)
    ensures Normal(SetPort(u, digits)) <==> PortFits(u, digits)
  {
    if digits != "" {
      ParsePrint(ParseNat(digits));
    }
  }

  /** Setting `port` keeps a normal URL normal exactly in those cases. */
  lemma PortKeepsNormalIff(u: Url, text: string)
    requires Normal(u)
    ensures SetPortPart(u, text).Parsed?
    ensures Normal(SetPortPart(u, text).url) <==> !u.isRelative || PortFits(u, Digits(text, 0))
  {
    if u.isRelative {
      PortIsDigits(u, text);
      PortNormalIff(u, Digits(text, 0));
    }
  }

  // ----- Host ------------------------------------------------------------------------------------

  /** Where the host text from `i` on ends: at a delimiter or a colon outside brackets. */
  function HostEnd(text: string, i: nat, bracket: bool): (e: nat)
    requires i <= |text|
    ensures i <= e <= |text|
    decreases |text| - i
  {
    if i == |text| || IsDelimiter(text[i]) || (text[i] == ':' && !bracket) then i
    else HostEnd(text, i + 1, NextBracket(bracket, text[i]))
  }

  /** The host in `text`. */
  function HostIn(text: string): string {
    Unblanked(text[..HostEnd(text, 0, false)])
  }

  /** A port follows it. */
  predicate HasPort(text: string) {
    At(text, HostEnd(text, 0, false)) == Some(':')
  }

  function PortIn(text: string): string
    requires HasPort(text)
  {
    Digits(text, HostEnd(text, 0, false) + 1)
  }

  /** What the host state knows of its buffer. */
  ghost predicate HostBuffer(g: Config) {
    HostText(g.buffer) && ColonsBracketed(g.buffer) && g.seenBracket == BracketAfter(g.buffer)
  }

  ghost predicate InHost(k: Call, g: Config) {
    Within(k, g) && (g.state == Host || g.state == Hostname) && HostBuffer(g)
  }

  lemma HostBufferNext(s: string, c: char)
    requires HostText(s) && ColonsBracketed(s) && !IsDelimiter(c) && !IsBlank(c) && (c == ':' ==> BracketAfter(s))
    ensures HostText(s + [c]) && ColonsBracketed(s + [c]) && BracketAfter(s + [c]) == NextBracket(BracketAfter(s), c)
  {
    assert (s + [c])[..|s|] == s;
  }

  lemma HostStep(k: Call, g: Config, c: char)
    requires Within(k, g) && (g.state == Host || g.state == Hostname) && At(k.input, g.cursor) == Some(c) && !AtHostEnd(k, g)
    ensures StepsTo(k, g, HostNext(g, c)) && Within(k, HostNext(g, c))
  {
  }

  lemma HostReadsOne(k: Call, rel: Relation, g: Config, c: char)
    requires Follows(k, rel) && InHost(k, g) && At(k.input, g.cursor) == Some(c) && !AtHostEnd(k, g)
    ensures rel(g, HostNext(g, c)) && InHost(k, HostNext(g, c))
  {
    HostStep(k, g, c);
    if !IsBlank(c) {
      HostBufferNext(g.buffer, c);
    }
  }

  /** From `g` the host state gets to the end of the host with its text in the buffer. */
  ghost predicate HostRead(k: Call, rel: Relation, g: Config, m: Config) {
    && rel(g, m) && InHost(k, m) && g.cursor <= m.cursor == HostEnd(k.input, g.cursor, g.seenBracket)
    && m.buffer == g.buffer + Unblanked(k.input[g.cursor..m.cursor])
    && m == g.(buffer := m.buffer, cursor := m.cursor, seenBracket := m.seenBracket)
    && AtHostEnd(k, m)
  }

  predicate AtHostEnd(k: Call, g: Config) {
    EndsAuthority(At(k.input, g.cursor)) || (Is(At(k.input, g.cursor), ':') && !g.seenBracket)
  }

  function HostNext(g: Config, c: char): Config {
    g.(buffer := if IsBlank(c) then g.buffer else g.buffer + [c], cursor := g.cursor + 1,
       seenBracket := NextBracket(g.seenBracket, c))
  }

  lemma HostReadNothing(k: Call, rel: Relation, g: Config)
    requires Follows(k, rel) && InHost(k, g) && AtHostEnd(k, g)
    ensures HostRead(k, rel, g, g)
  {
    assert k.input[g.cursor..g.cursor] == "" && g.buffer + "" == g.buffer;
  }

  lemma HostReadMore(k: Call, rel: Relation, g: Config, c: char, m: Config)
    requires Follows(k, rel) && InHost(k, g) && !AtHostEnd(k, g) && At(k.input, g.cursor) == Some(c)
    requires rel(g, HostNext(g, c)) && HostRead(k, rel, HostNext(g, c), m)
    ensures HostRead(k, rel, g, m)
  {
    var n := HostNext(g, c);
    assert HostEnd(k.input, g.cursor, g.seenBracket) == HostEnd(k.input, n.cursor, n.seenBracket);
    assert n.buffer == g.buffer + if IsBlank(c) then "" else [c];
    UnblankedNext(k.input, g.cursor, m.cursor, g.buffer, n.buffer);
  }

  lemma {:induction false} HostReadsAll(k: Call, rel: Relation, g: Config) returns (m: Config)
    requires Follows(k, rel) && InHost(k, g)
    ensures HostRead(k, rel, g, m)
    decreases |k.input| - g.cursor
  {
    if AtHostEnd(k, g) {
      m := g;
      HostReadNothing(k, rel, g);
    } else {
      var c := k.input[g.cursor];
      HostReadsOne(k, rel, g, c);
      m := HostReadsAll(k, rel, HostNext(g, c));
      HostReadMore(k, rel, g, c, m);
    }
  }

  /** The URL with the host in `text`, and with its port if that is read too. */
  function WithHost(u: Url, text: string, port: bool): Url {
    var v := SetHost(u, HostIn(text));
    if port && HasPort(text) && HostIn(text) != "" then SetPort(v, PortIn(text)) else v
  }

  lemma HostBreaks(k: Call, m: Config, c: Option<char>)
    requires InHost(k, m) && k.override == Some(m.state) && c == At(k.input, m.cursor)
    requires EndsAuthority(c) || (Is(c, ':') && !m.seenBracket && m.state == Hostname)
    ensures Loop(k, m) == Parsed(SetHost(m.url, m.buffer))
  {
    assert OnHost(k, m, c) == Break(SetHost(m.url, m.buffer));
  }

  lemma HostThenPort(k: Call, m: Config, n: Config)
    requires InHost(k, m) && m.state == Host && k.override == Some(Host)
    requires Is(At(k.input, m.cursor), ':') && !m.seenBracket
    requires n == m.(url := SetHost(m.url, m.buffer), buffer := "", state := Port, cursor := m.cursor + 1)
    ensures StepsTo(k, m, n)
  {
    assert OnHost(k, m, At(k.input, m.cursor)) == Advance(n.(cursor := m.cursor));
  }

  lemma HostStops(k: Call, m: Config)
    requires InHost(k, m) && k.override == Some(m.state) && AtHostEnd(k, m)
    ensures Loop(k, m) == Parsed(
      if m.state == Host && Is(At(k.input, m.cursor), ':') && m.buffer != ""
      then SetPort(SetHost(m.url, m.buffer), Digits(k.input, m.cursor + 1)) else SetHost(m.url, m.buffer))
  {
    if m.state == Host && Is(At(k.input, m.cursor), ':') {
      var n := m.(url := SetHost(m.url, m.buffer), buffer := "", state := Port, cursor := m.cursor + 1);
      HostThenPort(k, m, n);
      UrlTheorems.OneStep(k, m, n);
      if m.buffer != "" {
        PortLoop(k, n);
      } else {
        UrlTheorems.LoopAtEnd(k, n, n.url);
      }
    } else {
      HostBreaks(k, m, At(k.input, m.cursor));
    }
  }

  /** The host state reads what `HostIn` says. */
  lemma HostIsBuffered(k: Call, rel: Relation, g: Config) returns (m: Config)
    requires Follows(k, rel) && InHost(k, g) && g.cursor == 0 && g.buffer == "" && !g.seenBracket
    ensures rel(g, m) && InHost(k, m) && m == g.(buffer := HostIn(k.input), cursor := m.cursor, seenBracket := m.seenBracket)
    ensures m.cursor == HostEnd(k.input, 0, false) && AtHostEnd(k, m)
  {
    m := HostReadsAll(k, rel, g);
    assert k.input[0..m.cursor] == k.input[..m.cursor];
    assert "" + HostIn(k.input) == HostIn(k.input);
  }

  /** What the two setters store; the result is invalid when the text has no host. */
  lemma HostIsRead(u: Url, text: string, state: State)
    requires !u.isInvalid && u.isRelative && (state == Host || state == Hostname)
    ensures SetHostPart(u, text, state) == Parsed(WithHost(u, text, state == Host))
    ensures HostText(HostIn(text)) && ColonsBracketed(HostIn(text)) && (HasPort(text) ==> !BracketAfter(HostIn(text)))
  {
    var k := Call(text, Some(state), None);
    var g := Start(k, u);
    SameEndFollows(k);
    assert InHost(k, g);
    var m := HostIsBuffered(k, (a, b) => SameEnd(k, a, b), g);
    assert SameEnd(k, g, m);
    HostStops(k, m);
  }

  /** A host that a URL of this scheme and with this port can have. */
  ghost predicate HostFits(u: Url, h: string) {
    h != "" && if u.scheme == "file" then !IsDrive(h) else NoAt(h) && (u.port == "" || !BracketAfter(h))
  }

  lemma HostNormalIff(u: Url, h: string)
    requires Normal(u) && u.isRelative && HostText(h) && ColonsBracketed(h)
    ensures Normal(SetHost(u, h)) <==> HostFits(u, h)
  {
    LowerKeepsText(h);
    BracketsIgnoreCase(h);
    if h != "" {
      forall i | 0 <= i < |h| ensures LowerCase(h)[i] == '@' <==> h[i] == '@' {
        assert LowerCase(h)[i] == Lower(h[i]);
      }
    }
  }

  /** Setting `hostname` keeps a normal URL normal exactly when the host fits. */
  lemma HostnameKeepsNormalIff(u: Url, text: string)
    requires Normal(u)
    ensures SetHostPart(u, text, Hostname).Parsed?
    ensures Normal(SetHostPart(u, text, Hostname).url) <==> !u.isRelative || HostFits(u, HostIn(text))
  {
    if u.isRelative {
      HostIsRead(u, text, Hostname);
      HostNormalIff(u, HostIn(text));
    }
  }

  /** Setting `host` keeps it so exactly when in addition the port fits, if there is one. */
  lemma HostKeepsNormalIff(u: Url, text: string)
    requires Normal(u)
    ensures SetHostPart(u, text, Host).Parsed?
    ensures Normal(SetHostPart(u, text, Host).url) <==>
              || !u.isRelative
              || (HostFits(u, HostIn(text)) && (HasPort(text) ==> PortFits(u.(host := HostIn(text)), PortIn(text))))
  {
    if u.isRelative {
      HostIsRead(u, text, Host);
      var h := HostIn(text);
      HostNormalIff(u, h);
      if HasPort(text) && h != "" {
        BracketsIgnoreCase(h);
        PortAfterHost(u, h, PortIn(text));
      }
    }
  }

  lemma PortAfterHost(u: Url, h: string, digits: string)
    requires Normal(u) && u.isRelative && h != "" && AllDigits(digits) && !BracketAfter(h) && !BracketAfter(LowerCase(h))
    requires Normal(SetHost(u, h)) <==> HostFits(u, h)
    ensures Normal(SetPort(SetHost(u, h), digits)) <==> HostFits(u, h) && PortFits(u.(host := h), digits)
  {
    var v := SetHost(u, h);
    if Normal(v) {
      PortNormalIff(v, digits);
    }
  }

  // ----- Protocol ----------------------------------------------------------------------------------

  lemma FirstLetter(k: Call, rel: Relation, g: Config, c: char, n: Config)
    requires Follows(k, rel) && Within(k, g) && g.state == SchemeStart && At(k.input, g.cursor) == Some(c) && IsAlpha(c)
    requires n == g.(buffer := [Lower(c)], cursor := g.cursor + 1, state := Scheme)
    ensures rel(g, n) && Within(k, n)
  {
    assert "" + [Lower(c)] == [Lower(c)];
    assert StepsTo(k, g, n);
  }

  lemma NextLetter(k: Call, rel: Relation, g: Config, c: char, n: Config)
    requires Follows(k, rel) && Within(k, g) && g.state == Scheme && At(k.input, g.cursor) == Some(c) && IsSchemeChar(c)
    requires n == g.(buffer := g.buffer + [Lower(c)], cursor := g.cursor + 1)
    ensures rel(g, n) && Within(k, n)
  {
    assert StepsTo(k, g, n);
  }

  lemma {:induction false} LettersRead(k: Call, rel: Relation, g: Config, e: nat, m: Config)
    requires Follows(k, rel) && Within(k, g) && g.state == SchemeStart && g.cursor == 0
    requires k.input != "" && IsAlpha(k.input[0]) && 0 < e <= SchemeEnd(k.input)
    requires m == g.(buffer := LowerCase(k.input[..e]), cursor := e, state := Scheme)
    ensures rel(g, m) && Within(k, m)
    decreases e
  {
    var l := g.(buffer := LowerCase(k.input[..e - 1]), cursor := e - 1, state := Scheme);
    LowerCaseNext(k.input, e - 1);
    if e == 1 {
      assert m.buffer == [Lower(k.input[0])];
      FirstLetter(k, rel, g, k.input[0], m);
    } else {
      LettersRead(k, rel, g, e - 1, l);
      NextLetter(k, rel, l, k.input[e - 1], m);
    }
  }

  lemma SchemeBreaks(k: Call, m: Config)
    requires Within(k, m) && m.state == Scheme && k.override.Some?
    requires At(k.input, m.cursor).Some? ==> !IsSchemeChar(At(k.input, m.cursor).value)
    ensures Loop(k, m) == Parsed(if Is(At(k.input, m.cursor), ':') then m.url.(scheme := m.buffer) else m.url)
  {
    assert OnScheme(k, m, At(k.input, m.cursor))
        == Break(if Is(At(k.input, m.cursor), ':') then m.url.(scheme := m.buffer) else m.url);
  }

  lemma StartBreaks(k: Call, g: Config)
    requires Within(k, g) && g.state == SchemeStart && k.override.Some? && g.cursor == 0
    requires k.input == "" || !IsAlpha(k.input[0])
    ensures Loop(k, g) == Parsed(g.url)
  {
    assert OnSchemeStart(k, g, At(k.input, 0)) == Break(g.url);
  }

  /** The `protocol` setter stores the scheme in lower case if the text begins with one, and
      nothing otherwise. */
  lemma ProtocolIsScheme(u: Url, text: string)
    requires !u.isInvalid
    ensures SetProtocol(u, text) == Parsed(if HasScheme(text + ":") then u.(scheme := SchemeOf(text + ":")) else u)
  {
    var k := Call(text + ":", Some(SchemeStart), None);
    var g := Start(k, u);
    if IsAlpha(k.input[0]) {
      var e := SchemeEnd(k.input);
      var m := g.(buffer := LowerCase(k.input[..e]), cursor := e, state := Scheme);
      SameEndFollows(k);
      assert e > 0;
      LettersRead(k, (a, b) => SameEnd(k, a, b), g, e, m);
      SchemeBreaks(k, m);
    } else {
      StartBreaks(k, g);
    }
  }

  /** What a normal URL has can stand under the scheme `s`: an authority if and only if the
      scheme has one, of the kind that it has. */
  ghost predicate SchemeFits(u: Url, s: string) {
    && IsRelativeScheme(s) == u.isRelative
    && (u.isRelative && s == "file" ==>
          && u.username == "" && u.password == None && u.port == "" && !IsDrive(u.host)
          && (u.path == [] || !IsPipeDrive(u.path[0])))
    && (u.isRelative && s != "file" ==>
          && u.host != "" && NoAt(u.host) && ColonsBracketed(u.host)
          && (u.port != "" && AllDigits(u.port) ==> DefaultPort(s) != Some(ParseNat(u.port))))
  }

  lemma SchemeOfIsText(text: string)
    requires HasScheme(text)
    ensures SchemeText(SchemeOf(text))
  {
    var n, s := SchemeEnd(text), SchemeOf(text);
    assert n > 0;
    forall i | 0 <= i < n ensures IsSchemeChar(s[i]) && !IsUpper(s[i]) {
      assert s[i] == Lower(text[..n][i]);
    }
    assert s[0] == Lower(text[..n][0]);
  }

  lemma SchemeNormalIff(u: Url, s: string)
    requires Normal(u) && SchemeText(s)
    ensures Normal(u.(scheme := s)) <==> SchemeFits(u, s)
  {
  }

  /** Setting `protocol` keeps a normal URL normal exactly when the text has no scheme or one
      that fits. */
  lemma ProtocolKeepsNormalIff(u: Url, text: string)
    requires Normal(u)
    ensures SetProtocol(u, text).Parsed?
    ensures Normal(SetProtocol(u, text).url) <==> (HasScheme(text + ":") ==> SchemeFits(u, SchemeOf(text + ":")))
  {
    ProtocolIsScheme(u, text);
    if HasScheme(text + ":") {
      SchemeOfIsText(text + ":");
      SchemeNormalIff(u, SchemeOf(text + ":"));
    }
  }

  // ----- All setters ---------------------------------------------------------------------------------

  datatype Setter = Protocol | HostAndPort | HostName | PortOnly | Pathname | Search | Hash

  /** One assignment to a property of the URL. */
  datatype Assignment = Assignment(setter: Setter, text: string)

  function Assign(u: Url, a: Assignment): Outcome {
    match a.setter
    case Protocol => SetProtocol(u, a.text)
    case HostAndPort => SetHostPart(u, a.text, Host)
    case HostName => SetHostPart(u, a.text, Hostname)
    case PortOnly => SetPortPart(u, a.text)
    case Pathname => UrlPath.SetPathname(u, a.text)
    case Search => SetSearch(u, a.text)
    case Hash => SetHash(u, a.text)
  }

  /** What a normal URL and a text have to satisfy for the setter. */
  ghost predicate Fits(u: Url, a: Assignment) {
    match a.setter
    case Protocol => HasScheme(a.text + ":") ==> SchemeFits(u, SchemeOf(a.text + ":"))
    case HostAndPort => u.isRelative ==>
      && HostFits(u, HostIn(a.text))
      && (HasPort(a.text) ==> PortFits(u.(host := HostIn(a.text)), PortIn(a.text)))
    case HostName => u.isRelative ==> HostFits(u, HostIn(a.text))
    case PortOnly => u.isRelative ==> PortFits(u, Digits(a.text, 0))
    case Pathname => true
    case Search => true
    case Hash => EndsVisibly(Without('#', a.text))
  }

  /** No setter throws on a normal URL, and the URL stays normal exactly when the text fits
      it. */
  lemma AssignKeepsNormalIff(u: Url, a: Assignment)
    requires Normal(u)
    ensures Assign(u, a).Parsed? && (Normal(Assign(u, a).url) <==> Fits(u, a))
  {
    match a.setter
    case Protocol => ProtocolKeepsNormalIff(u, a.text);
    case HostAndPort => HostKeepsNormalIff(u, a.text);
    case HostName => HostnameKeepsNormalIff(u, a.text);
    case PortOnly => PortKeepsNormalIff(u, a.text);
    case Pathname => UrlPath.PathnameKeepsNormal(u, a.text);
    case Search => SearchKeepsNormal(u, a.text);
    case Hash => HashKeepsNormalIff(u, a.text);
  }

  /** Unless the URL becomes invalid, its printed form parses back to it exactly then. */
  lemma AssignRoundTripIff(u: Url, a: Assignment, v: Url, raw: string)
    requires Normal(u) && Assign(u, a) == Parsed(v) && !v.isInvalid
    ensures New(P.Href(v, raw), None) == Parsed(v) <==> Fits(u, a)
  {
    AssignKeepsNormalIff(u, a);
    UrlResolution.RoundTripIff(v, raw);
  }

  /** A fragment that ends in a space is stored as it is and trimmed when it is read back:
      on every normal URL this assignment changes what the printed form parses to. */
  lemma SpaceIsLost(u: Url, raw: string)
    requires Normal(u)
    ensures var v := u.(fragment := "#b ");
            Assign(u, Assignment(Hash, "b ")) == Parsed(v) && New(P.Href(v, raw), None) != Parsed(v)
  {
    assert Unblanked("b ") == "b " by {
      assert "b "[1..] == " " && " "[1..] == "";
    }
    HashIsKept(u, "b ");
    AssignRoundTripIff(u, Assignment(Hash, "b "), u.(fragment := "#b "), raw);
  }

  /** One assignment after the other. */
  function AssignAll(u: Url, all: seq<Assignment>): Outcome {
    if all == [] then Parsed(u)
    else
      match AssignAll(u, all[..|all| - 1])
      case Thrown => Thrown
      case Parsed(v) => Assign(v, all[|all| - 1])
  }

  /** Every text fits the URL that its setter finds. */
  ghost predicate AllFit(u: Url, all: seq<Assignment>) {
    all == [] || (
      && var before := AssignAll(u, all[..|all| - 1]);
         AllFit(u, all[..|all| - 1]) && before.Parsed? && Fits(before.url, all[|all| - 1]))
  }

  ghost predicate NormalOutcome(o: Outcome) {
    o.Parsed? && Normal(o.url)
  }

  ghost predicate NormalSoFar(u: Url, all: seq<Assignment>) {
    forall n | 0 <= n <= |all| :: NormalOutcome(AssignAll(u, all[..n]))
  }

  lemma NormalSoFarNext(u: Url, all: seq<Assignment>)
    requires all != []
    ensures NormalSoFar(u, all) <==> NormalSoFar(u, all[..|all| - 1]) && NormalOutcome(AssignAll(u, all))
  {
    var front := all[..|all| - 1];
    assert all[..|all|] == all;
    forall n | 0 <= n <= |front| ensures front[..n] == all[..n] {
    }
  }

  lemma LastFits(u: Url, all: seq<Assignment>)
    requires all != [] && NormalOutcome(AssignAll(u, all[..|all| - 1]))
    ensures NormalOutcome(AssignAll(u, all)) <==> Fits(AssignAll(u, all[..|all| - 1]).url, all[|all| - 1])
  {
    AssignKeepsNormalIff(AssignAll(u, all[..|all| - 1]).url, all[|all| - 1]);
  }

  lemma {:induction false} SoFarIff(u: Url, all: seq<Assignment>)
    requires NormalOutcome(Parsed(u))
    ensures NormalSoFar(u, all) <==> AllFit(u, all)
    ensures NormalSoFar(u, all) ==> NormalOutcome(AssignAll(u, all))
    decreases |all|
  {
    if all == [] {
      assert forall n | 0 <= n <= |all| :: all[..n] == [];
    } else {
      SoFarIff(u, all[..|all| - 1]);
      NormalSoFarNext(u, all);
      if NormalSoFar(u, all[..|all| - 1]) {
        LastFits(u, all);
      }
    }
  }

  /** A sequence of assignments leaves a URL normal after every one of them exactly when
      every text fits the URL that its setter finds. */
  lemma AssignmentsKeepNormalIff(u: Url, all: seq<Assignment>)
    requires Normal(u)
    ensures (forall n | 0 <= n <= |all| :: AssignAll(u, all[..n]).Parsed? && Normal(AssignAll(u, all[..n]).url))
       <==> AllFit(u, all)
  {
    SoFarIff(u, all);
    assert NormalSoFar(u, all) <==>
      forall n | 0 <= n <= |all| :: AssignAll(u, all[..n]).Parsed? && Normal(AssignAll(u, all[..n]).url);
  }
}
