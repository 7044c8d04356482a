/** Whole loops: what the parser makes of the scheme, when the base matters, and exactly
    which inputs throw. */
module UrlStart {
  import opened Wrappers
  import opened UrlText
  import opened UrlParser
  import opened UrlNormal
  import opened UrlRoundTrip
  import UrlTheorems

  // ----- Properties of whole loops ----------------------------------------------------

  /** `inv` is kept by every iteration, none throws, and leaving the loop gives `done`. */
  ghost predicate Keeps(k: Call, inv: Config -> bool, done: Url -> bool) {
    && (forall g :: InReach(k, g) && Running(k, g) && inv(g) ==> Kept(Iterate(k, g), inv, done))
    && (forall g :: InReach(k, g) && !Running(k, g) && inv(g) ==> done(g.url))
  }

  ghost predicate Kept(step: Step, inv: Config -> bool, done: Url -> bool) {
    match step
    case Throw => false
    case Break(url) => done(url)
    case _ => inv(After(step))
  }

  lemma {:induction false} LoopKeeps(k: Call, g: Config, inv: Config -> bool, done: Url -> bool)
    requires Keeps(k, inv, done) && InReach(k, g) && inv(g)
    ensures Loop(k, g).Parsed? && done(Loop(k, g).url)
    decreases MAX_RANK - Rank(g.state), |k.input| + 1 - g.cursor
  {
    if Running(k, g) {
      var step := Iterate(k, g);
      assert Kept(step, inv, done);
      IterateProgresses(k, g);
      if !step.Break? {
        LoopKeeps(k, After(step), inv, done);
      }
    }
  }

  // ----- The scheme -------------------------------------------------------------------------

  /** Where the scheme characters that begin the input end. */
  function SchemeEnd(input: string): (n: nat)
    ensures n <= |input| && (forall i | 0 <= i < n :: IsSchemeChar(input[i]))
    ensures n < |input| ==> !IsSchemeChar(input[n])
  {
    if input == "" || !IsSchemeChar(input[0]) then 0 else 1 + SchemeEnd(input[1..])
  }

  /** The input begins with a letter, scheme characters and a colon. */
  predicate HasScheme(input: string) {
    input != "" && IsAlpha(input[0]) && At(input, SchemeEnd(input)) == Some(':')
  }

  function SchemeOf(input: string): string
    requires HasScheme(input)
  {
    LowerCase(input[..SchemeEnd(input)])
  }

  lemma NamesFileIff(input: string)
    ensures NamesFile(input) <==> HasScheme(input) && SchemeOf(input) == "file"
  {
    if NamesFile(input) {
      var l := LowerCase(input[..5]);
      assert l == "file:" && l[0] == 'f' && l[1] == 'i' && l[2] == 'l' && l[3] == 'e' && l[4] == ':';
      assert forall i | 0 <= i < 5 :: l[i] == Lower(input[i]);
      assert forall i | 0 <= i < 4 :: IsAlpha(input[i]);
      assert SchemeEnd(input) == 4;
      assert LowerCase(input[..4]) == "file" by {
        assert input[..5][..4] == input[..4] && l[..4] == "file";
      }
    } else if HasScheme(input) && SchemeEnd(input) == 4 {
      LowerCaseNext(input, 4);
    }
  }

  lemma LowerCaseNext(input: string, n: nat)
    requires n < |input|
    ensures LowerCase(input[..n + 1]) == LowerCase(input[..n]) + [Lower(input[n])]
  {
    assert input[..n + 1][..n] == input[..n];
  }

  /** After `n` characters of a scheme. */
  function InScheme(input: string, n: nat): Config
    requires n <= |input|
  {
    Config(Scheme, n, LowerCase(input[..n]), false, false, Cleared)
  }

  lemma FirstSchemeChar(k: Call, rel: Relation, c: char)
    requires Follows(k, rel) && k.override == None && At(k.input, 0) == Some(c) && IsAlpha(c)
    ensures rel(Start(k, Cleared), Config(Scheme, 1, [Lower(c)], false, false, Cleared))
  {
    assert "" + [Lower(c)] == [Lower(c)];
    assert StepsTo(k, Start(k, Cleared), Config(Scheme, 1, [Lower(c)], false, false, Cleared));
  }

  lemma OneSchemeChar(input: string)
    requires input != ""
    ensures InScheme(input, 1) == Config(Scheme, 1, [Lower(input[0])], false, false, Cleared)
  {
    assert LowerCase(input[..1]) == [Lower(input[0])];
  }

  lemma NextSchemeChar(k: Call, rel: Relation, n: nat)
    requires Follows(k, rel) && k.override == None && n < |k.input| && IsSchemeChar(k.input[n])
    ensures rel(InScheme(k.input, n), InScheme(k.input, n + 1))
  {
    LowerCaseNext(k.input, n);
    assert At(k.input, n) == Some(k.input[n]);
    assert StepsTo(k, InScheme(k.input, n), InScheme(k.input, n + 1));
  }

  lemma {:induction false} SchemeIsBuffered(k: Call, rel: Relation, n: nat)
    requires Follows(k, rel) && k.override == None && k.input != "" && IsAlpha(k.input[0]) && 1 <= n <= SchemeEnd(k.input)
    ensures rel(Start(k, Cleared), InScheme(k.input, n))
    decreases n
  {
    if n == 1 {
      FirstSchemeChar(k, rel, k.input[0]);
      OneSchemeChar(k.input);
    } else {
      SchemeIsBuffered(k, rel, n - 1);
      NextSchemeChar(k, rel, n - 1);
    }
  }

  /** Right after the colon. */
  function AfterColon(k: Call): Config
    requires HasScheme(k.input)
  {
    var scheme := SchemeOf(k.input);
    var url := Cleared.(scheme := scheme, isRelative := IsRelativeScheme(scheme));
    Config(AfterScheme(k, url), SchemeEnd(k.input) + 1, "", false, false, url)
  }

  lemma SchemeColon(k: Call, rel: Relation)
    requires Follows(k, rel) && k.override == None && HasScheme(k.input)
    ensures rel(InScheme(k.input, SchemeEnd(k.input)), AfterColon(k))
  {
    assert StepsTo(k, InScheme(k.input, SchemeEnd(k.input)), AfterColon(k));
  }

  const AtNoScheme := Config(NoScheme, 0, "", false, false, Cleared)

  lemma SchemeFails(k: Call, rel: Relation, n: nat)
    requires Follows(k, rel) && k.override == None && n <= |k.input|
    requires !(At(k.input, n).Some? && IsSchemeChar(k.input[n])) && At(k.input, n) != Some(':') && n > 0
    ensures rel(InScheme(k.input, n), AtNoScheme)
  {
    assert StepsTo(k, InScheme(k.input, n), AtNoScheme);
  }

  lemma NothingStarts(k: Call, rel: Relation)
    requires Follows(k, rel) && k.override == None && (k.input == "" || !IsAlpha(k.input[0]))
    ensures rel(Start(k, Cleared), AtNoScheme)
  {
    assert StepsTo(k, Start(k, Cleared), AtNoScheme);
  }

  /** Both configurations are within reach and the loop ends alike from them. */
  ghost predicate SameEnd(k: Call, a: Config, b: Config) {
    InReach(k, a) ==> InReach(k, b) && Loop(k, a) == Loop(k, b)
  }

  lemma SameEndFollows(k: Call)
    ensures Follows(k, (a, b) => SameEnd(k, a, b))
  {
    forall a, b | StepsTo(k, a, b) ensures SameEnd(k, a, b) {
      UrlTheorems.OneStep(k, a, b);
    }
  }

  /** An input with a scheme is parsed from the colon on. */
  lemma SchemeIsNamed(k: Call)
    requires k.override == None && HasScheme(k.input)
    ensures InReach(k, AfterColon(k)) && Loop(k, Start(k, Cleared)) == Loop(k, AfterColon(k))
  {
    var rel: Relation := (a, b) => SameEnd(k, a, b);
    SameEndFollows(k);
    assert SchemeEnd(k.input) >= 1;
    SchemeIsBuffered(k, rel, SchemeEnd(k.input));
    SchemeColon(k, rel);
    assert SameEnd(k, Start(k, Cleared), AfterColon(k));
  }

  /** Where a reference without a scheme begins. */
  const AtReference := Config(Relative, 0, "", false, false, Cleared)

  lemma NoSchemeIsFound(k: Call)
    requires k.override == None && !HasScheme(k.input)
    ensures Loop(k, Start(k, Cleared)) == Loop(k, AtNoScheme)
  {
    var rel: Relation := (a, b) => SameEnd(k, a, b);
    SameEndFollows(k);
    if k.input == "" || !IsAlpha(k.input[0]) {
      NothingStarts(k, rel);
    } else {
      var n := SchemeEnd(k.input);
      assert n >= 1;
      SchemeIsBuffered(k, rel, n);
      SchemeFails(k, rel, n);
    }
    assert SameEnd(k, Start(k, Cleared), AtNoScheme);
  }

  /** An input without one is a reference, or invalid when there is nothing to refer to. */
  lemma NoSchemeIsReference(k: Call)
    requires k.override == None && !HasScheme(k.input)
    ensures Loop(k, Start(k, Cleared))
         == if k.base.Some? && IsRelativeScheme(k.base.value.scheme) then Loop(k, AtReference) else Parsed(Invalid)
  {
    NoSchemeIsFound(k);
    IterateProgresses(k, AtNoScheme);
    var step := OnNoScheme(k, AtNoScheme, At(k.input, 0));
    assert step == Iterate(k, AtNoScheme);
    if step.Advance? {
      assert !Running(k, After(step));
    }
  }

  // ----- States that do not read the base ------------------------------------------------------

  predicate NeedsNoBase(g: Config) {
    match g.state
    case SchemeStart => false
    case Scheme => false
    case NoScheme => false
    case RelativeOrAuthority => false
    case Relative => false
    case RelativeSlash => g.url.scheme == "file"
    case _ => true
  }

  lemma StepIgnoresBase(k: Call, g: Config)
    requires InReach(k, g) && NeedsNoBase(g)
    ensures Iterate(k, g) == Iterate(k.(base := None), g) && !Iterate(k, g).Throw?
    ensures Iterate(k, g).Advance? || Iterate(k, g).Stay? ==> NeedsNoBase(After(Iterate(k, g)))
  {
  }

  /** From such a state on the base makes no difference, and nothing throws. */
  lemma {:induction false} LoopIgnoresBase(k: Call, g: Config)
    requires InReach(k, g) && NeedsNoBase(g)
    ensures InReach(k.(base := None), g) && Loop(k, g) == Loop(k.(base := None), g) && Loop(k, g).Parsed?
    decreases MAX_RANK - Rank(g.state), |k.input| + 1 - g.cursor
  {
    if Running(k, g) {
      StepIgnoresBase(k, g);
      IterateProgresses(k, g);
      var step := Iterate(k, g);
      if !step.Break? {
        LoopIgnoresBase(k, After(step));
      }
    }
  }

  // ----- Exactly which inputs throw ----------------------------------------------------------------

  /** Right after `file:`. */
  const AfterFile := Config(Relative, 5, "", false, false, Cleared.(scheme := "file", isRelative := true))

  lemma FileIsNamed(k: Call)
    requires k.override == None && NamesFile(k.input)
    ensures HasScheme(k.input) && AfterColon(k) == AfterFile && InReach(k, AfterFile)
    ensures Loop(k, Start(k, Cleared)) == Loop(k, AfterFile)
  {
    NamesFileIff(k.input);
    assert |LowerCase(k.input[..SchemeEnd(k.input)])| == 4;
    SchemeIsNamed(k);
  }

  /** Without a base, what follows `file:` has to be a slash or a drive letter. */
  predicate FileNeedsBase(input: string)
  {
    NamesFile(input) && !IsSlashAt(At(input, 5)) && !DriveAhead(input, 5)
  }

  lemma FileAlone(k: Call)
    requires k.override == None && k.base == None && NamesFile(k.input)
    ensures Loop(k, AfterFile) == Thrown <==> FileNeedsBase(k.input)
  {
    var step := OnRelative(k, AfterFile, At(k.input, 5));
    FileIsNamed(k);
    assert step == Iterate(k, AfterFile);
    if !step.Throw? {
      IterateProgresses(k, AfterFile);
      LoopIgnoresBase(k, After(step));
    }
  }

  lemma BaseNeverThrows(k: Call)
    requires k.override == None && k.base.Some?
    ensures Loop(k, Start(k, Cleared)).Parsed?
  {
    LoopKeeps(k, Start(k, Cleared), n => true, u => true);
  }

  /** The constructor throws exactly on `file:` inputs without a base that go on with
      neither a slash nor a drive letter. */
  lemma ThrowsIff(url: string, base: Option<Url>)
    ensures New(url, base) == Thrown <==> base == None && FileNeedsBase(Trim(url))
  {
    var k := Call(Trim(url), None, base);
    NamesFileIff(k.input);
    if base.Some? {
      BaseNeverThrows(k);
    } else if !HasScheme(k.input) {
      NoSchemeIsReference(k);
    } else if NamesFile(k.input) {
      FileIsNamed(k);
      FileAlone(k);
    } else {
      SchemeIsNamed(k);
      LoopIgnoresBase(k, AfterColon(k));
    }
  }
}
