/** Everything that a chain of resolutions can produce: when a path is empty, and when a
    printed form stands without the base. */
module UrlResolution {
  import opened Wrappers
  import opened UrlText
  import opened UrlParser
  import opened UrlNormal
  import opened UrlStart
  import opened UrlPath
  import opened UrlReference
  import UrlTheorems
  import P = UrlPrinter

  // ----- Everything that resolving can produce ------------------------------------------------------

  ghost predicate CleanPath(path: seq<string>) {
    forall i | 0 <= i < |path| :: SegmentText(path[i]) && !IsDotSegment(path[i])
  }

  /** What a base of any scheme contributes. */
  ghost predicate BaseParts(b: Url) {
    CredentialsOk(b) && HostText(b.host) && IsLowerCase(b.host) && CleanPath(b.path) && QueryOk(b.query)
  }

  /** A valid `file` URL with anybody's authority and path. */
  ghost predicate FileLike(u: Url) {
    && u.scheme == "file" && u.schemeData == "" && u.isRelative && !u.isInvalid
    && BaseParts(u) && FragmentOk(u.fragment)
  }

  /** Normal URLs, the invalid one, and `file` URLs that took their parts from a base. */
  ghost predicate Resolvable(u: Url) {
    if u.scheme == "file" then FileLike(u) else u == Invalid || Normal(u)
  }

  lemma ResolvableParts(b: Url)
    requires Resolvable(b)
    ensures BaseParts(b)
  {
  }

  lemma NormalIsResolvable(u: Url)
    requires Normal(u)
    ensures Resolvable(u)
  {
  }

  lemma CleanEnd(path: seq<string>, s: string, more: bool)
    requires CleanPath(path) && SegmentText(s)
    ensures CleanPath(EndSegment("file", path, s, more))
    ensures !more ==> EndSegment("file", path, s, more) != []
  {
    EmptyIsNoDots();
    if IsPipeDrive(s) {
      DriveIsNoDots(s[0]);
    }
  }

  lemma {:induction false} CleanFoldInner(path: seq<string>, segments: seq<string>)
    requires CleanPath(path) && forall i | 0 <= i < |segments| :: SegmentText(segments[i])
    ensures CleanPath(FoldInner("file", path, segments))
    decreases |segments|
  {
    if segments != [] {
      var n := |segments| - 1;
      CleanFoldInner(path, segments[..n]);
      CleanEnd(FoldInner("file", path, segments[..n]), segments[n], true);
    }
  }

  lemma TakenPathIsClean(path: seq<string>, input: string, i: nat)
    requires i <= |input| && CleanPath(path)
    ensures CleanPath(TakenPath(path, input, i)) && (TakenPath(path, input, i) == [] <==> OnlyTail(input, i) && path == [])
  {
    if !OnlyTail(input, i) {
      var s := Split(PathText(input, i));
      var n := |s| - 1;
      SplitIsText(PathText(input, i));
      CleanFoldInner(Pop(path), s[..n]);
      CleanEnd(FoldInner("file", Pop(path), s[..n]), s[n], false);
    }
  }

  lemma TakenIsFileLike(base: Url, input: string, i: nat, u: Url)
    requires BaseParts(base) && i <= |input| && TailDone(Taken(base, input, i), u)
    ensures FileLike(u) && u.path == TakenPath(base.path, input, i)
  {
    TakenPathIsClean(base.path, input, i);
  }

  /** Apart from `file` references everything valid is normal. */
  lemma OthersAreNormal(url: string, base: Option<Url>)
    requires base.Some? ==> Resolvable(base.value) && FileStart(Trim(url), base.value.scheme) == None
    ensures var o := New(url, base); o.Parsed? ==> o.url == Invalid || Normal(o.url)
  {
    if base.Some? && base.value.scheme == "file" {
      NamesFileIff(Trim(url));
      OwnSchemeStandsAlone(url, base.value);
      UrlTheorems.ParseIsNormal(url, None);
    } else {
      UrlTheorems.ParseIsNormal(url, base);
    }
  }

  /** A `file` reference always gives a valid URL. */
  lemma FileIsValid(url: string, base: Url, i: nat)
    requires Resolvable(base) && FileStart(Trim(url), base.scheme) == Some(i)
    ensures var o := New(url, Some(base)); o.Parsed? && FileLike(o.url) && i <= |Trim(url)|
  {
    FileBegins(Call(Trim(url), None, Some(base)), base, i);
    ResolvableParts(base);
    if TakesFromBase(Trim(url), i) {
      FileTakesFromBase(url, base, i);
      TakenIsFileLike(base, Trim(url), i, New(url, Some(base)).url);
    } else {
      FileStandsAlone(url, base, i);
      NormalIsResolvable(New(url, Some(base)).url);
    }
  }

  /** Resolving any input against such a base gives such a URL, if it does not throw. */
  lemma ResultIsResolvable(url: string, base: Option<Url>)
    requires base.Some? ==> Resolvable(base.value)
    ensures New(url, base).Parsed? ==> Resolvable(New(url, base).url)
  {
    if base.Some? && FileStart(Trim(url), base.value.scheme).Some? {
      var b, i := base.value, FileStart(Trim(url), base.value.scheme).value;
      FileIsValid(url, b, i);
    } else {
      OthersAreNormal(url, base);
      if New(url, base).Parsed? && New(url, base).url != Invalid {
        NormalIsResolvable(New(url, base).url);
      }
    }
  }

  /** Resolving one input after the other, each against the result before. */
  function Resolve(inputs: seq<string>): Outcome
    requires inputs != []
  {
    var n := |inputs| - 1;
    if n == 0 then New(inputs[0], None)
    else
      match Resolve(inputs[..n])
      case Thrown => Thrown
      case Parsed(base) => New(inputs[n], Some(base))
  }

  /** Every URL that any chain of resolutions produces is normal, invalid, or a `file` URL
      with a path free of dot segments. */
  lemma {:induction false} ChainsAreResolvable(inputs: seq<string>)
    requires inputs != []
    ensures Resolve(inputs).Parsed? ==> Resolvable(Resolve(inputs).url)
    decreases |inputs|
  {
    var n := |inputs| - 1;
    if n == 0 {
      ResultIsResolvable(inputs[0], None);
    } else {
      ChainsAreResolvable(inputs[..n]);
      if Resolve(inputs[..n]).Parsed? {
        ResultIsResolvable(inputs[n], Some(Resolve(inputs[..n]).url));
      }
    }
  }

  // ----- The path --------------------------------------------------------------------------------------

  /** The result has no path: the base has none, and the input is a `file` reference that
      goes on with nothing, a query or a fragment. */
  predicate LeavesNoPath(input: string, base: Option<Url>) {
    base.Some? && base.value.path == [] &&
    match FileStart(input, base.value.scheme)
    case None => false
    case Some(i) => OnlyTail(input, i)
  }

  /** Whatever the input, with no base or any base of the class: a valid result with an
      authority has a path free of dot segments, empty in exactly one case. */
  lemma PathIsNormal(url: string, base: Option<Url>, u: Url)
    requires base.Some? ==> Resolvable(base.value)
    requires New(url, base) == Parsed(u) && u != Invalid && u.isRelative
    ensures CleanPath(u.path) && (u.path == [] <==> LeavesNoPath(Trim(url), base))
  {
    if base.Some? && FileStart(Trim(url), base.value.scheme).Some? {
      var b, i := base.value, FileStart(Trim(url), base.value.scheme).value;
      FileBegins(Call(Trim(url), None, base), b, i);
      ResolvableParts(b);
      if TakesFromBase(Trim(url), i) {
        FileTakesFromBase(url, b, i);
        TakenIsFileLike(b, Trim(url), i, u);
        TakenPathIsClean(b.path, Trim(url), i);
      } else {
        FileStandsAlone(url, b, i);
      }
    } else {
      OthersAreNormal(url, base);
    }
  }

  /** The same for every chain of resolutions: the path of a valid result with an authority
      has no dot segment, and it is empty exactly when the last base had no path and the
      last input left it so. */
  lemma PathOfChain(inputs: seq<string>, u: Url)
    requires inputs != [] && Resolve(inputs) == Parsed(u) && u != Invalid && u.isRelative
    ensures CleanPath(u.path)
    ensures u.path == [] <==>
              && |inputs| > 1 && Resolve(inputs[..|inputs| - 1]).Parsed?
              && LeavesNoPath(Trim(inputs[|inputs| - 1]), Some(Resolve(inputs[..|inputs| - 1]).url))
  {
    var n := |inputs| - 1;
    if n == 0 {
      PathIsNormal(inputs[0], None, u);
    } else {
      ChainsAreResolvable(inputs[..n]);
      PathIsNormal(inputs[n], Some(Resolve(inputs[..n]).url), u);
    }
  }

  // ----- A first segment spelled as a drive with a bar ---------------------------------------------------

  /** How many entries are left, counted from a first entry on, after `segments` have been
      folded onto `n` entries; zero once the first has been popped. */
  function Height(n: nat, segments: seq<string>): nat {
    if segments == [] then n
    else
      var m, s := Height(n, segments[..|segments| - 1]), segments[|segments| - 1];
      if m == 0 then 0 else if IsDoubleDot(s) then m - 1 else if IsSingleDot(s) then m else m + 1
  }

  /** The first entry is a drive spelled with a bar. */
  predicate BarFirst(path: seq<string>) {
    path != [] && IsPipeDrive(path[0])
  }

  lemma {:induction false} FirstOfFold(path: seq<string>, segments: seq<string>)
    ensures var h, f := Height(|path|, segments), FoldInner("file", path, segments);
            if h > 0 then |f| == h && path != [] && f[0] == path[0] else !BarFirst(f)
    decreases |segments|
  {
    if segments != [] {
      FirstOfFold(path, segments[..|segments| - 1]);
    }
  }

  /** A bar drive stays first exactly as long as no `..` pops it; no other comes first. */
  lemma BarSurvives(path: seq<string>, segments: seq<string>)
    requires segments != []
    ensures BarFirst(Fold("file", path, segments)) <==> BarFirst(path) && Height(|path|, segments) > 0
  {
    var n := |segments| - 1;
    FirstOfFold(path, segments[..n]);
  }

  /** The path of the result exists and does not begin with a bar drive, said about the
      base's path and the input. */
  predicate PathSurvives(path: seq<string>, input: string, i: nat)
    requires i <= |input|
  {
    if OnlyTail(input, i) then path != [] && !IsPipeDrive(path[0])
    else !(|path| >= 2 && IsPipeDrive(path[0]) && Height(|path| - 1, Split(PathText(input, i))) > 0)
  }

  lemma PathSurvivesIff(path: seq<string>, input: string, i: nat)
    requires i <= |input| && CleanPath(path)
    ensures TakenPath(path, input, i) != [] && !BarFirst(TakenPath(path, input, i)) <==> PathSurvives(path, input, i)
  {
    TakenPathIsClean(path, input, i);
    if !OnlyTail(input, i) {
      BarSurvives(Pop(path), Split(PathText(input, i)));
      DirectoryBar(path);
    }
  }

  lemma DirectoryBar(path: seq<string>)
    ensures BarFirst(Pop(path)) <==> |path| >= 2 && IsPipeDrive(path[0])
    ensures |path| >= 2 ==> |Pop(path)| == |path| - 1
  {
  }

  // ----- Printing without the base ---------------------------------------------------------------------------

  /** Neither credentials nor port, and a host not spelled like a drive. */
  predicate PlainAuthority(b: Url) {
    b.username == "" && b.password == None && b.port == "" && !IsDrive(b.host)
  }

  /** What the input and the base have to satisfy for the result to be normal: the input is
      no `file` reference, or stands alone, or takes nothing that `file` cannot have. */
  predicate Survives(input: string, base: Url) {
    match FileStart(input, base.scheme)
    case None => true
    case Some(i) =>
      !TakesFromBase(input, i) || (i <= |input| && PlainAuthority(base) && PathSurvives(base.path, input, i))
  }

  lemma TakenIsNormalIff(base: Url, input: string, i: nat, u: Url)
    requires BaseParts(base) && i <= |input| && TailDone(Taken(base, input, i), u)
    ensures Normal(u) <==> PlainAuthority(base) && PathSurvives(base.path, input, i)
  {
    TakenIsFileLike(base, input, i, u);
    PathSurvivesIff(base.path, input, i);
    assert SchemeText("file");
  }

  /** A valid URL survives printing and parsing without a base exactly when it is normal. */
  lemma RoundTripIff(u: Url, raw: string)
    requires !u.isInvalid
    ensures New(P.Href(u, raw), None) == Parsed(u) <==> Normal(u)
  {
    if Normal(u) {
      UrlTheorems.NormalRoundTrip(u, raw);
    } else {
      UrlTheorems.ParseIsNormal(P.Href(u, raw), None);
    }
  }

  /** Exactly which resolutions give a normal URL. */
  lemma NormalIff(url: string, base: Url, u: Url)
    requires Resolvable(base) && New(url, Some(base)) == Parsed(u) && u != Invalid
    ensures Normal(u) <==> Survives(Trim(url), base)
  {
    if FileStart(Trim(url), base.scheme).Some? {
      var i := FileStart(Trim(url), base.scheme).value;
      FileBegins(Call(Trim(url), None, Some(base)), base, i);
      ResolvableParts(base);
      if TakesFromBase(Trim(url), i) {
        FileTakesFromBase(url, base, i);
        TakenIsNormalIff(base, Trim(url), i, u);
      } else {
        FileStandsAlone(url, base, i);
      }
    } else {
      OthersAreNormal(url, Some(base));
    }
  }

  /** The printed form of what any input resolves to, against any base of the class, parses
      back to it without the base exactly under a condition on the input and the base. */
  lemma ResolvedRoundTrip(url: string, base: Url, u: Url)
    requires Resolvable(base) && New(url, Some(base)) == Parsed(u) && u != Invalid
    ensures New(P.Href(u, url), None) == Parsed(u) <==> Survives(Trim(url), base)
  {
    ResultIsResolvable(url, Some(base));
    NormalIff(url, base, u);
    RoundTripIff(u, url);
  }

  /** The same for every chain of resolutions. */
  lemma RoundTripOfChain(inputs: seq<string>, url: string, base: Url, u: Url)
    requires inputs != [] && Resolve(inputs) == Parsed(base)
    requires New(url, Some(base)) == Parsed(u) && u != Invalid
    ensures New(P.Href(u, url), None) == Parsed(u) <==> Survives(Trim(url), base)
  {
    ChainsAreResolvable(inputs);
    ResolvedRoundTrip(url, base, u);
  }

  // ----- `file:` inputs against any base ------------------------------------------------------------------------

  /** A `file:` input always gives a valid URL, whose path is empty exactly when the base
      has none and nothing but a query or a fragment follows. */
  lemma FileOverBase(url: string, base: Url)
    requires Resolvable(base) && NamesFile(Trim(url))
    ensures var o := New(url, Some(base));
            && o.Parsed? && !o.url.isInvalid && o.url.isRelative && CleanPath(o.url.path)
            && (o.url.path == [] <==> base.path == [] && OnlyTail(Trim(url), 5))
  {
    FileIsValid(url, base, 5);
    PathIsNormal(url, Some(base), New(url, Some(base)).url);
  }

  /** It survives printing without the base exactly when it stands alone, or when the base
      has neither credentials nor port, a host not spelled like a drive, and a path that
      leaves no bar drive in front. */
  lemma FileOverBaseRoundTrip(url: string, base: Url)
    requires Resolvable(base) && NamesFile(Trim(url))
    ensures var o := New(url, Some(base));
            && o.Parsed? && |Trim(url)| >= 5
            && (New(P.Href(o.url, url), None) == o <==>
                  || !TakesFromBase(Trim(url), 5)
                  || (PlainAuthority(base) && PathSurvives(base.path, Trim(url), 5)))
  {
    FileIsValid(url, base, 5);
    ResolvedRoundTrip(url, base, New(url, Some(base)).url);
  }

  /** In particular every `file` reference that takes credentials or a port from its base is
      printed as something else than what was resolved. */
  lemma CredentialsDoNotSurvive(url: string, base: Url, i: nat)
    requires Resolvable(base) && FileStart(Trim(url), base.scheme) == Some(i) && TakesFromBase(Trim(url), i)
    requires base.username != "" || base.password.Some? || base.port != ""
    ensures var o := New(url, Some(base)); o.Parsed? && New(P.Href(o.url, url), None) != o
  {
    FileIsValid(url, base, i);
    ResolvedRoundTrip(url, base, New(url, Some(base)).url);
  }
}
