/** The fold over path segments as the removal of dot segments in section 5.2.4 of
    RFC 3986. */
module UrlDotSegments {
  import opened Wrappers
  import opened UrlText
  import opened UrlParser
  import opened UrlNormal
  import opened UrlPath
  import P = UrlPrinter

  // ----- Section 5.2.4 of RFC 3986 --------------------------------------------------------------

  /** The output buffer without its last segment and the slash before it. */
  function RemoveLast(output: string): string {
    if output == "" then ""
    else if output[|output| - 1] == '/' then output[..|output| - 1]
    else RemoveLast(output[..|output| - 1])
  }

  /** Length of the first path segment, with its initial slash if any. */
  function FirstSegment(input: string): (n: nat)
    requires input != ""
    ensures 0 < n <= |input|
  {
    1 + UntilSlash(input[1..])
  }

  function UntilSlash(input: string): (n: nat)
    ensures n <= |input|
  {
    if input == "" || input[0] == '/' then 0 else 1 + UntilSlash(input[1..])
  }

  /** Input and output after one round of the loop of section 5.2.4, its steps A to E in
      order. */
  function RemoveStep(input: string, output: string): (r: (string, string))
    requires input != ""
    ensures |r.0| < |input|
  {
    if "../" <= input then (input[3..], output)
    else if "./" <= input then (input[2..], output)
    else if "/./" <= input then (input[2..], output)
    else if input == "/." then ("/", output)
    else if "/../" <= input then (input[3..], RemoveLast(output))
    else if input == "/.." then ("/", RemoveLast(output))
    else if input == "." || input == ".." then ("", output)
    else
      var n := FirstSegment(input);
      (input[n..], output + input[..n])
  }

  function RemoveDotSegments(input: string, output: string): string
    decreases |input|
  {
    if input == "" then output
    else
      var (rest, more) := RemoveStep(input, output);
      RemoveDotSegments(rest, more)
  }

  /** Each segment after a slash. */
  function Slashed(path: seq<string>): string {
    if path == [] then "" else Slashed(path[..|path| - 1]) + "/" + path[|path| - 1]
  }

  /** A segment as the parser reads it: percent-encoded dots are dots. */
  function Decoded(s: string): string {
    DotMapping(LowerCase(s)).GetOr(s)
  }

  ghost predicate NoSlash(s: string) {
    forall i | 0 <= i < |s| :: s[i] != '/'
  }

  ghost predicate NoSlashes(path: seq<string>) {
    forall i | 0 <= i < |path| :: NoSlash(path[i])
  }

  function DecodedAll(segments: seq<string>): (r: seq<string>)
    ensures |r| == |segments| && forall i | 0 <= i < |r| :: r[i] == Decoded(segments[i])
  {
    seq(|segments|, i requires 0 <= i < |segments| => Decoded(segments[i]))
  }

  lemma DecodedIs(s: string)
    ensures IsSingleDot(s) <==> Decoded(s) == "."
    ensures IsDoubleDot(s) <==> Decoded(s) == ".."
    ensures !IsSingleDot(s) && !IsDoubleDot(s) ==> Decoded(s) == s
  {
    DotsAreMapped(s);
  }

  lemma {:induction false} RemoveLastSegment(output: string, s: string)
    requires NoSlash(s)
    ensures RemoveLast(output + "/" + s) == output
    decreases |s|
  {
    var all := output + "/" + s;
    if s == "" {
      assert all[..|all| - 1] == output;
    } else {
      RemoveLastSegment(output, s[..|s| - 1]);
      assert all[..|all| - 1] == output + "/" + s[..|s| - 1];
    }
  }

  lemma RemoveLastPops(path: seq<string>)
    requires NoSlashes(path)
    ensures RemoveLast(Slashed(path)) == Slashed(Pop(path))
  {
    if path != [] {
      RemoveLastSegment(Slashed(path[..|path| - 1]), path[|path| - 1]);
    }
  }

  lemma SlashedPush(path: seq<string>, s: string)
    ensures Slashed(path + [s]) == Slashed(path) + "/" + s
  {
    assert (path + [s])[..|path|] == path;
  }

  lemma {:induction false} UntilSlashIs(s: string, rest: string)
    requires NoSlash(s) && (rest == "" || rest[0] == '/')
    ensures UntilSlash(s + rest) == |s|
    decreases |s|
  {
    if s == "" {
      assert s + rest == rest;
    } else {
      assert (s + rest)[1..] == s[1..] + rest;
      UntilSlashIs(s[1..], rest);
    }
  }

  lemma DotInput(input: string)
    requires input != "" && input[0] == '/'
    ensures !("../" <= input) && !("./" <= input) && input != "." && input != ".."
    ensures "/./" <= input <==> |input| >= 3 && input[1] == '.' && input[2] == '/'
    ensures input == "/." <==> |input| == 2 && input[1] == '.'
  {
    var (a, b, c) := ("../", "./", "/./");
    assert a[0] == '.' && b[0] == '.' && c[0] == '/' && c[1] == '.' && c[2] == '/';
    if |input| == 2 && input[1] == '.' {
      assert input == ['/', '.'];
    }
  }

  lemma DotsInput(input: string)
    requires input != "" && input[0] == '/'
    ensures "/../" <= input <==> |input| >= 4 && input[1] == '.' && input[2] == '.' && input[3] == '/'
    ensures input == "/.." <==> |input| == 3 && input[1] == '.' && input[2] == '.'
  {
    var c := "/../";
    assert c[0] == '/' && c[1] == '.' && c[2] == '.' && c[3] == '/';
    if |input| == 3 && input[1] == '.' && input[2] == '.' {
      assert input == ['/', '.', '.'];
    }
  }

  /** Step E moves a segment that is not made of dots. */
  lemma RemoveMoves(d: string, rest: string, output: string)
    requires NoSlash(d) && d != "." && d != ".." && (rest == "" || rest[0] == '/')
    ensures RemoveStep("/" + d + rest, output) == (rest, output + "/" + d)
  {
    var input := "/" + d + rest;
    var n := 1 + |d|;
    assert input[0] == '/' && forall i | 0 <= i < |d| :: input[1 + i] == d[i];
    assert rest != "" ==> input[n] == '/';
    DotInput(input);
    DotsInput(input);
    assert |d| == 1 ==> d[0] != '.';
    assert |d| == 2 ==> d[0] != '.' || d[1] != '.';
    assert input[1..] == d + rest;
    UntilSlashIs(d, rest);
    assert input[..n] == "/" + d && input[n..] == rest;
    assert output + ("/" + d) == output + "/" + d;
  }

  /** Steps B and C apply to dot segments followed by a slash. */
  lemma RemoveInner(d: string, rest: string, output: string)
    requires NoSlash(d) && rest != "" && rest[0] == '/'
    ensures RemoveStep("/" + d + rest, output)
            == (rest, if d == "." then output else if d == ".." then RemoveLast(output) else output + "/" + d)
  {
    var input := "/" + d + rest;
    assert input[0] == '/' && input[1 + |d|] == '/' && forall i | 0 <= i < |d| :: input[1 + i] == d[i];
    DotInput(input);
    DotsInput(input);
    if d == "." {
      assert input[2..] == rest;
    } else if d == ".." {
      assert input[3..] == rest;
    } else {
      RemoveMoves(d, rest, output);
    }
  }

  /** The last segment: dots leave a slash behind. */
  lemma RemoveFinal(d: string, output: string)
    requires NoSlash(d)
    ensures RemoveDotSegments("/" + d, output)
         == if d == "." then output + "/" else if d == ".." then RemoveLast(output) + "/" else output + "/" + d
  {
    var input := "/" + d;
    DotInput(input);
    DotsInput(input);
    if d == "." {
      assert RemoveStep(input, output) == ("/", output);
      RemoveSlash(output);
    } else if d == ".." {
      assert RemoveStep(input, output) == ("/", RemoveLast(output));
      RemoveSlash(RemoveLast(output));
    } else {
      assert input + "" == input;
      RemoveMoves(d, "", output);
    }
  }

  lemma RemoveSlash(output: string)
    ensures RemoveDotSegments("/", output) == output + "/"
  {
    DotInput("/");
    DotsInput("/");
    assert "/"[1..] == "" && "/"[..1] == "/";
    assert RemoveStep("/", output) == ("", output + "/");
  }

  lemma {:induction false} FoldInnerHead(scheme: string, path: seq<string>, segments: seq<string>)
    requires segments != []
    ensures FoldInner(scheme, path, segments) == FoldInner(scheme, EndSegment(scheme, path, segments[0], true), segments[1..])
    decreases |segments|
  {
    var n := |segments| - 1;
    if n == 0 {
      assert segments[..0] == [];
    } else {
      FoldInnerHead(scheme, path, segments[..n]);
      assert segments[..n][1..] == segments[1..][..n - 1];
    }
  }

  lemma FoldHead(scheme: string, path: seq<string>, segments: seq<string>)
    requires |segments| > 1
    ensures Fold(scheme, path, segments) == Fold(scheme, EndSegment(scheme, path, segments[0], true), segments[1..])
  {
    var n := |segments| - 1;
    FoldInnerHead(scheme, path, segments[..n]);
    assert segments[..n][1..] == segments[1..][..n - 1];
  }

  /** What the text algorithm has put out after a segment. */
  function AfterSegment(output: string, d: string, more: bool): string {
    var slash := if more then "" else "/";
    if d == "." then output + slash else if d == ".." then RemoveLast(output) + slash else output + "/" + d
  }

  lemma DoubleDotAgrees(path: seq<string>, more: bool)
    requires NoSlashes(path)
    ensures var q := if more then Pop(path) else Pop(path) + [""];
            NoSlashes(q) && Slashed(q) == AfterSegment(Slashed(path), "..", more)
  {
    RemoveLastPops(path);
    EmptyIsPushed(Pop(path));
  }

  lemma SingleDotAgrees(path: seq<string>, more: bool)
    requires NoSlashes(path)
    ensures var q := if more then path else path + [""];
            NoSlashes(q) && Slashed(q) == AfterSegment(Slashed(path), ".", more)
  {
    EmptyIsPushed(path);
  }

  lemma OtherAgrees(path: seq<string>, s: string, more: bool)
    requires NoSlashes(path) && NoSlash(s) && s != "." && s != ".."
    ensures NoSlashes(path + [s]) && Slashed(path + [s]) == AfterSegment(Slashed(path), s, more)
  {
    SlashedPush(path, s);
  }

  /** One segment in the parser and one in the text algorithm. */
  lemma SegmentsAgree(scheme: string, path: seq<string>, s: string, more: bool)
    requires scheme != "file" && NoSlashes(path) && NoSlash(s)
    ensures NoSlashes(EndSegment(scheme, path, s, more))
    ensures Slashed(EndSegment(scheme, path, s, more)) == AfterSegment(Slashed(path), Decoded(s), more)
  {
    DecodedIs(s);
    if IsDoubleDot(s) {
      DoubleDotAgrees(path, more);
    } else if IsSingleDot(s) {
      SingleDotAgrees(path, more);
    } else {
      OtherAgrees(path, s, more);
    }
  }

  lemma DecodedHasNoSlash(s: string)
    requires NoSlash(s)
    ensures NoSlash(Decoded(s))
  {
    DecodedIs(s);
    if IsDoubleDot(s) {
      assert Decoded(s) == "..";
    } else if IsSingleDot(s) {
      assert Decoded(s) == ".";
    }
  }

  lemma EmptyIsPushed(path: seq<string>)
    ensures Slashed(path + [""]) == Slashed(path) + "/" && Slashed(path) + "" == Slashed(path)
  {
    SlashedPush(path, "");
  }

  lemma JoinHead(path: seq<string>)
    requires |path| > 1
    ensures P.Join(path) == path[0] + ("/" + P.Join(path[1..]))
  {
  }

  /** What both sides do with the first of several segments. */
  lemma HeadsAgree(scheme: string, path: seq<string>, segments: seq<string>)
    requires scheme != "file" && NoSlashes(path) && |segments| > 1 && NoSlash(segments[0])
    ensures var q := EndSegment(scheme, path, segments[0], true);
            && NoSlashes(q)
            && RemoveDotSegments("/" + P.Join(DecodedAll(segments)), Slashed(path))
               == RemoveDotSegments("/" + P.Join(DecodedAll(segments[1..])), Slashed(q))
  {
    var s, d := segments[0], Decoded(segments[0]);
    SegmentsAgree(scheme, path, s, true);
    DecodedHasNoSlash(s);
    assert Slashed(path) + "" == Slashed(path) && RemoveLast(Slashed(path)) + "" == RemoveLast(Slashed(path));
    var all := DecodedAll(segments);
    assert all[1..] == DecodedAll(segments[1..]);
    JoinHead(all);
    var later := "/" + P.Join(all[1..]);
    assert "/" + P.Join(all) == "/" + d + later;
    RemoveInner(d, later, Slashed(path));
  }

  lemma LastsAgree(scheme: string, path: seq<string>, s: string)
    requires scheme != "file" && NoSlashes(path) && NoSlash(s)
    ensures Slashed(EndSegment(scheme, path, s, false)) == RemoveDotSegments("/" + Decoded(s), Slashed(path))
  {
    SegmentsAgree(scheme, path, s, false);
    DecodedHasNoSlash(s);
    RemoveFinal(Decoded(s), Slashed(path));
  }

  /** The fold is the algorithm of section 5.2.4 of RFC 3986, run on the decoded segments
      with the path so far as its output buffer. */
  lemma {:induction false} FoldRemovesDots(scheme: string, path: seq<string>, segments: seq<string>)
    requires scheme != "file" && NoSlashes(path) && segments != [] && NoSlashes(segments)
    ensures Slashed(Fold(scheme, path, segments)) == RemoveDotSegments("/" + P.Join(DecodedAll(segments)), Slashed(path))
    decreases |segments|
  {
    if |segments| == 1 {
      assert segments[..0] == [];
      LastsAgree(scheme, path, segments[0]);
    } else {
      HeadsAgree(scheme, path, segments);
      FoldHead(scheme, path, segments);
      FoldRemovesDots(scheme, EndSegment(scheme, path, segments[0], true), segments[1..]);
    }
  }

  /** A first segment such as `c|` becomes `c:`. */
  function FixDrive(path: seq<string>): seq<string> {
    if path != [] && IsPipeDrive(path[0]) then [[path[0][0], ':']] + path[1..] else path
  }

  lemma FixStep(other: string, path: seq<string>, s: string, more: bool)
    requires other != "file"
    ensures EndSegment("file", FixDrive(path), s, more) == FixDrive(EndSegment(other, path, s, more))
  {
    EmptyIsNoDots();
  }

  lemma {:induction false} FileFoldInner(other: string, path: seq<string>, segments: seq<string>)
    requires other != "file"
    ensures FoldInner("file", FixDrive(path), segments) == FixDrive(FoldInner(other, path, segments))
    decreases |segments|
  {
    if segments != [] {
      var n := |segments| - 1;
      FileFoldInner(other, path, segments[..n]);
      FixStep(other, FoldInner(other, path, segments[..n]), segments[n], true);
    }
  }

  /** With the `file` scheme the only difference is the spelling of a drive letter. */
  lemma FileFold(other: string, path: seq<string>, segments: seq<string>)
    requires other != "file" && segments != []
    ensures Fold("file", FixDrive(path), segments) == FixDrive(Fold(other, path, segments))
  {
    var n := |segments| - 1;
    FileFoldInner(other, path, segments[..n]);
    FixStep(other, FoldInner(other, path, segments[..n]), segments[n], false);
  }

  /** The whole path component: for every scheme but `file`, what the parser pushes onto
      the path inherited from a base is the output of section 5.2.4 on that text; for
      `file` it is the same with the drive letter respelled. */
  lemma PathIsDotFree(scheme: string, path: seq<string>, text: string)
    requires NoSlashes(path) && (scheme == "file" ==> FixDrive(path) == path)
    ensures var output := RemoveDotSegments("/" + P.Join(DecodedAll(Split(text))), Slashed(path));
            exists p :: Slashed(p) == output && NoSlashes(p)
                        && Fold(scheme, path, Split(text)) == if scheme == "file" then FixDrive(p) else p
  {
    SplitIsText(text);
    var other := if scheme == "file" then "http" else scheme;
    var p := Fold(other, path, Split(text));
    FoldRemovesDots(other, path, Split(text));
    FoldKeepsSlashes(other, path, Split(text));
    if scheme == "file" {
      FileFold(other, path, Split(text));
    }
  }

  lemma {:induction false} FoldKeepsSlashes(scheme: string, path: seq<string>, segments: seq<string>)
    requires scheme != "file" && NoSlashes(path) && segments != [] && NoSlashes(segments)
    ensures NoSlashes(Fold(scheme, path, segments))
    decreases |segments|
  {
    SegmentsAgree(scheme, path, segments[0], |segments| > 1);
    if |segments| == 1 {
      assert segments[..0] == [];
    } else {
      FoldHead(scheme, path, segments);
      FoldKeepsSlashes(scheme, EndSegment(scheme, path, segments[0], true), segments[1..]);
    }
  }
}
