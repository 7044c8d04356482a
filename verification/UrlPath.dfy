/** The path loop as a fold over segments, and the `pathname` setter. */
module UrlPath {
  import opened Wrappers
  import opened UrlText
  import opened UrlParser
  import opened UrlNormal
  import opened UrlRoundTrip
  import opened UrlStart
  import UrlTheorems
  import P = UrlPrinter

  // ----- The loop is a fold over the split input ----------------------------------------

  /** Split at slashes of either kind, without blanks, escaped. */
  function Split(text: string): (r: seq<string>)
    ensures r != []
  {
    if text == "" then [""]
    else
      var c, before := text[|text| - 1], Split(text[..|text| - 1]);
      if IsSlash(c) then before + [""]
      else if IsBlank(c) then before
      else before[|before| - 1 := before[|before| - 1] + Escape(c)]
  }

  /** The same text in one piece: slashes of one kind, no blanks, escaped. */
  function Escaped(text: string): string {
    if text == "" then ""
    else
      var c := text[|text| - 1];
      Escaped(text[..|text| - 1]) + if IsSlash(c) then "/" else if IsBlank(c) then "" else Escape(c)
  }

  lemma {:induction false} JoinLast(path: seq<string>, s: string)
    requires path != []
    ensures P.Join(path + [s]) == P.Join(path) + "/" + s
    decreases |path|
  {
    var all := path + [s];
    if |path| > 1 {
      assert all[1..] == path[1..] + [s];
      JoinLast(path[1..], s);
      assert path[0] + "/" + (P.Join(path[1..]) + "/" + s) == path[0] + "/" + P.Join(path[1..]) + "/" + s;
    } else {
      assert all[1..] == [s];
      assert P.Join([s]) == s;
    }
  }

  lemma JoinExtends(path: seq<string>, more: string)
    requires path != []
    ensures P.Join(path[|path| - 1 := path[|path| - 1] + more]) == P.Join(path) + more
  {
    var n := |path| - 1;
    if n == 0 {
      assert path[0 := path[0] + more] == [path[0] + more];
    } else {
      assert path == path[..n] + [path[n]];
      assert path[n := path[n] + more] == path[..n] + [path[n] + more];
      JoinLast(path[..n], path[n]);
      JoinLast(path[..n], path[n] + more);
      assert P.Join(path[..n]) + "/" + (path[n] + more) == P.Join(path[..n]) + "/" + path[n] + more;
    }
  }

  /** Splitting loses nothing: the segments joined with slashes are the escaped text. */
  lemma {:induction false} SplitIsEscaped(text: string)
    ensures P.Join(Split(text)) == Escaped(text)
    decreases |text|
  {
    if text != "" {
      var c, before := text[|text| - 1], Split(text[..|text| - 1]);
      SplitIsEscaped(text[..|text| - 1]);
      if IsSlash(c) {
        JoinLast(before, "");
        assert P.Join(before) + "/" + "" == P.Join(before) + "/";
      } else if IsBlank(c) {
        assert Escaped(text[..|text| - 1]) + "" == Escaped(text[..|text| - 1]);
      } else {
        JoinExtends(before, Escape(c));
      }
    }
  }

  /** Every segment in `segments` ends at a slash. */
  function FoldInner(scheme: string, path: seq<string>, segments: seq<string>): seq<string> {
    if segments == [] then path
    else
      var n := |segments| - 1;
      EndSegment(scheme, FoldInner(scheme, path, segments[..n]), segments[n], true)
  }

  /** The last segment ends at the end of the path. */
  function Fold(scheme: string, path: seq<string>, segments: seq<string>): seq<string>
    requires segments != []
  {
    var n := |segments| - 1;
    EndSegment(scheme, FoldInner(scheme, path, segments[..n]), segments[n], false)
  }

  ghost predicate PathInput(k: Call, text: string) {
    forall i | 0 <= i < |text| :: !EndsSegment(k, Some(text[i])) || IsSlash(text[i])
  }

  /** The loop after reading `text`. */
  function Folded(g: Config, text: string): Config {
    var s := Split(text);
    g.(url := g.url.(path := FoldInner(g.url.scheme, g.url.path, s[..|s| - 1])),
       buffer := s[|s| - 1], cursor := g.cursor + |text|)
  }

  /** The configuration after `c` in the path state, inside the path. */
  function PathNext(a: Config, c: char): Config {
    if IsSlash(c) then
      a.(url := a.url.(path := EndSegment(a.url.scheme, a.url.path, a.buffer, true)), buffer := "", cursor := a.cursor + 1)
    else a.(buffer := a.buffer + if IsBlank(c) then "" else Escape(c), cursor := a.cursor + 1)
  }

  lemma PathStep(k: Call, rel: Relation, a: Config, c: char)
    requires Follows(k, rel) && InReach(k, a) && Running(k, a) && a.state == RelativePath && At(k.input, a.cursor) == Some(c)
    requires EndsSegment(k, Some(c)) ==> IsSlash(c)
    ensures rel(a, PathNext(a, c))
  {
    if IsBlank(c) {
      assert a.buffer + "" == a.buffer;
    }
    assert StepsTo(k, a, PathNext(a, c));
  }

  lemma SplitStep(text: string)
    requires text != ""
    ensures var c, before, after := text[|text| - 1], Split(text[..|text| - 1]), Split(text);
            && (IsSlash(c) ==> after[..|after| - 1] == before && after[|after| - 1] == "")
            && (!IsSlash(c) ==>
                  && |after| == |before| && after[..|after| - 1] == before[..|before| - 1]
                  && after[|after| - 1] == before[|before| - 1] + if IsBlank(c) then "" else Escape(c))
  {
    var before, after := Split(text[..|text| - 1]), Split(text);
    if IsSlash(text[|text| - 1]) {
      assert after[..|after| - 1] == before;
    } else {
      assert after[..|after| - 1] == before[..|before| - 1];
    }
  }

  lemma FoldedNext(g: Config, text: string)
    requires text != ""
    ensures Folded(g, text) == PathNext(Folded(g, text[..|text| - 1]), text[|text| - 1])
  {
    SplitStep(text);
  }

  /** Reading any stretch of path text folds its segments onto the path. */
  lemma {:induction false} PathLoopFolds(k: Call, rel: Relation, g: Config, text: string)
    requires Follows(k, rel) && InReach(k, g) && !g.url.isInvalid && g.cursor <= |k.input|
    requires g.state == RelativePath && g.buffer == "" && Sees(k, g.cursor, text) && PathInput(k, text)
    ensures rel(g, Folded(g, text))
    decreases |text|
  {
    if text == "" {
      assert Folded(g, "") == g;
    } else {
      var n := |text| - 1;
      assert text == text[..n] + [text[n]];
      SeesParts(k, g.cursor, text[..n], [text[n]]);
      PathLoopFolds(k, rel, g, text[..n]);
      SeesHead(k, g.cursor + n, [text[n]]);
      PathStep(k, rel, Folded(g, text[..n]), text[n]);
      FoldedNext(g, text);
    }
  }

  /** The whole path component, up to the end of input. */
  lemma PathComponentFolds(k: Call, g: Config)
    requires InReach(k, g) && !g.url.isInvalid && g.state == RelativePath && g.buffer == "" && g.cursor <= |k.input|
    requires PathInput(k, k.input[g.cursor..])
    ensures Loop(k, g) == Parsed(g.url.(path := Fold(g.url.scheme, g.url.path, Split(k.input[g.cursor..]))))
  {
    var rel: Relation := (a, b) => InReach(k, a) ==> InReach(k, b) && Loop(k, a) == Loop(k, b);
    forall a, b | StepsTo(k, a, b) ensures rel(a, b) {
      UrlTheorems.OneStep(k, a, b);
    }
    var text := k.input[g.cursor..];
    assert Sees(k, g.cursor, text);
    PathLoopFolds(k, rel, g, text);
    var l := Folded(g, text);
    var m := l.(url := l.url.(path := Fold(g.url.scheme, g.url.path, Split(text))), buffer := "", cursor := |k.input| + 1);
    assert StepsTo(k, l, m);
    UrlTheorems.LoopAtEnd(k, m, m.url);
  }

  /** Where the path text from `i` on ends: at the first `?` or `#`, or with the input. */
  function PathEnd(input: string, i: nat): (e: nat)
    requires i <= |input|
    ensures i <= e <= |input| && (forall j | i <= j < e :: input[j] != '?' && input[j] != '#')
    ensures At(input, e) == None || At(input, e) == Some('?') || At(input, e) == Some('#')
    decreases |input| - i
  {
    if i == |input| || input[i] == '?' || input[i] == '#' then i else PathEnd(input, i + 1)
  }

  function PathText(input: string, i: nat): string
    requires i <= |input|
  {
    input[i..PathEnd(input, i)]
  }

  /** The URL after a whole path component. */
  function WithPath(k: Call, g: Config): Url
    requires g.cursor <= |k.input|
  {
    g.url.(path := Fold(g.url.scheme, g.url.path, Split(PathText(k.input, g.cursor))))
  }

  lemma PathTextFolds(k: Call, rel: Relation, g: Config) returns (l: Config)
    requires Follows(k, rel) && Plain(k, g) && g.state == RelativePath && g.buffer == ""
    ensures rel(g, l) && Plain(k, l) && l.state == RelativePath && l.cursor == PathEnd(k.input, g.cursor)
    ensures WithPath(k, g) == l.url.(path := EndSegment(l.url.scheme, l.url.path, l.buffer, false))
    ensures l == g.(url := l.url, buffer := l.buffer, cursor := l.cursor)
  {
    var text := PathText(k.input, g.cursor);
    assert Sees(k, g.cursor, text);
    assert PathInput(k, text) by {
      assert forall i | 0 <= i < |text| :: text[i] == k.input[g.cursor + i];
    }
    PathLoopFolds(k, rel, g, text);
    l := Folded(g, text);
  }

  /** Right after the `?` or `#` that ends the path component. */
  function AfterPath(k: Call, g: Config): Config
    requires g.cursor <= |k.input|
  {
    var e, u := PathEnd(k.input, g.cursor), WithPath(k, g);
    if At(k.input, e) == Some('?') then g.(url := u.(query := "?"), state := Query, cursor := e + 1)
    else g.(url := u.(fragment := "#"), state := Fragment, cursor := e + 1)
  }

  lemma PathThenDelimiter(k: Call, rel: Relation, g: Config)
    requires Follows(k, rel) && Plain(k, g) && g.state == RelativePath && g.buffer == ""
    requires PathEnd(k.input, g.cursor) < |k.input|
    ensures rel(g, AfterPath(k, g)) && Plain(k, AfterPath(k, g))
  {
    var l := PathTextFolds(k, rel, g);
    if At(k.input, l.cursor) == Some('?') {
      PathToQuery(k, rel, l, WithPath(k, g));
    } else {
      PathToFragment(k, rel, l, WithPath(k, g));
    }
  }

  lemma PathThenNothing(k: Call, rel: Relation, g: Config) returns (m: Config)
    requires Follows(k, rel) && Plain(k, g) && g.state == RelativePath && g.buffer == ""
    requires PathEnd(k.input, g.cursor) == |k.input|
    ensures rel(g, m) && Finished(k, m, WithPath(k, g))
  {
    var l := PathTextFolds(k, rel, g);
    PathToEnd(k, rel, l, WithPath(k, g));
    m := l.(url := WithPath(k, g), buffer := "", cursor := |k.input| + 1);
  }

  /** The whole path component, up to a query, a fragment or the end of input. */
  lemma PathThenRest(k: Call, g: Config)
    requires Plain(k, g) && g.state == RelativePath && g.buffer == ""
    ensures if PathEnd(k.input, g.cursor) == |k.input| then Loop(k, g) == Parsed(WithPath(k, g))
            else Plain(k, AfterPath(k, g)) && Loop(k, g) == Loop(k, AfterPath(k, g))
  {
    var rel: Relation := (a, b) => SameEnd(k, a, b);
    SameEndFollows(k);
    if PathEnd(k.input, g.cursor) == |k.input| {
      var m := PathThenNothing(k, rel, g);
      assert SameEnd(k, g, m);
      UrlTheorems.LoopAtEnd(k, m, WithPath(k, g));
    } else {
      PathThenDelimiter(k, rel, g);
      assert SameEnd(k, g, AfterPath(k, g));
    }
  }

  // ----- The pathname setter -----------------------------------------------------------------

  /** `url.pathname = text` */
  function SetPathname(u: Url, text: string): Outcome {
    if u.isInvalid || !u.isRelative then Parsed(u)
    else Parse(Call(text, Some(RelativePathStart), None), u.(path := []))
  }

  /** The setter skips one slash and folds the rest, escaping `?` and `#`. */
  lemma PathnameIsFold(u: Url, text: string)
    requires !u.isInvalid && u.isRelative
    ensures var rest := if text != "" && IsSlash(text[0]) then text[1..] else text;
            SetPathname(u, text) == Parsed(u.(path := Fold(u.scheme, [], Split(rest))))
  {
    var k := Call(text, Some(RelativePathStart), None);
    var g := Start(k, u.(path := []));
    var n := g.(state := RelativePath, cursor := if text != "" && IsSlash(text[0]) then 1 else 0);
    assert StepsTo(k, g, n);
    UrlTheorems.OneStep(k, g, n);
    assert k.input[0..] == k.input;
    PathComponentFolds(k, n);
  }

  lemma {:induction false} SplitIsText(text: string)
    ensures forall i | 0 <= i < |Split(text)| :: SegmentText(Split(text)[i])
    decreases |text|
  {
    if text != "" {
      var n := |text| - 1;
      SplitIsText(text[..n]);
      var before := Split(text[..n]);
      if !IsSlash(text[n]) && !IsBlank(text[n]) {
        EscapeKeepsSegment(before[|before| - 1], text[n]);
      }
    }
  }

  lemma {:induction false} FoldInnerKeepsPath(scheme: string, path: seq<string>, segments: seq<string>)
    requires PathOk(scheme, path) && forall i | 0 <= i < |segments| :: SegmentText(segments[i])
    ensures PathOk(scheme, FoldInner(scheme, path, segments))
    decreases |segments|
  {
    if segments != [] {
      var n := |segments| - 1;
      FoldInnerKeepsPath(scheme, path, segments[..n]);
      EndSegmentKeepsPath(scheme, FoldInner(scheme, path, segments[..n]), segments[n], true);
    }
  }

  lemma FoldIsClean(scheme: string, text: string)
    ensures PathOk(scheme, Fold(scheme, [], Split(text))) && Fold(scheme, [], Split(text)) != []
  {
    SplitIsText(text);
    var s := Split(text);
    FoldInnerKeepsPath(scheme, [], s[..|s| - 1]);
    EndSegmentKeepsPath(scheme, FoldInner(scheme, [], s[..|s| - 1]), s[|s| - 1], false);
  }

  /** Setting the path of a normal URL gives a normal URL: its path is not empty and has
      no dot segment in any spelling, and printing it still round-trips. */
  lemma PathnameKeepsNormal(u: Url, text: string)
    requires Normal(u)
    ensures var o := SetPathname(u, text);
            && o.Parsed? && Normal(o.url)
            && UrlParser.New(P.Href(o.url, ""), None) == o
  {
    var v := SetPathname(u, text);
    if u.isRelative {
      PathnameIsFold(u, text);
      FoldIsClean(u.scheme, if text != "" && IsSlash(text[0]) then text[1..] else text);
    }
    UrlTheorems.NormalRoundTrip(v.url, "");
  }
}
