/** What `new URL(url, base)` means: every component as a stretch of the input, found by
    searching for delimiters, without a state machine. */
module UrlComponents {
  import opened Wrappers
  import opened UrlText
  import opened UrlParser
  import opened UrlPath
  import opened UrlSetters
  import UrlStart

  // ----- Where stretches end --------------------------------------------------------------

  /** The first hash sign at or after `i`, or the end of input. */
  function HashAt(input: string, i: nat): (h: nat)
    requires i <= |input|
    ensures i <= h <= |input| && (h < |input| ==> input[h] == '#')
    ensures forall j | i <= j < h :: input[j] != '#'
    decreases |input| - i
  {
    if i == |input| || input[i] == '#' then i else HashAt(input, i + 1)
  }

  /** The authority ends at the first delimiter, or at the end of input. */
  function AuthorityEnd(input: string, i: nat): (e: nat)
    requires i <= |input|
    ensures i <= e <= |input| && EndsAuthority(At(input, e))
    ensures forall j | i <= j < e :: !IsDelimiter(input[j])
    decreases |input| - i
  {
    if EndsAuthority(At(input, i)) then i else AuthorityEnd(input, i + 1)
  }

  /** The first at sign in `input[i..e]`, or `e`. */
  function AtSign(input: string, i: nat, e: nat): (q: nat)
    requires i <= e <= |input|
    ensures i <= q <= e && (q < e ==> input[q] == '@') && (forall j | i <= j < q :: input[j] != '@')
    decreases e - i
  {
    if i == e || input[i] == '@' then i else AtSign(input, i + 1, e)
  }

  /** Any number of slashes of either kind. */
  function SlashesEnd(input: string, i: nat): (e: nat)
    requires i <= |input|
    ensures i <= e <= |input| && !IsSlashAt(At(input, e)) && (forall j | i <= j < e :: IsSlash(input[j]))
    decreases |input| - i
  {
    if IsSlashAt(At(input, i)) then SlashesEnd(input, i + 1) else i
  }

  /** The first colon, or the end. */
  function ColonAt(text: string): (c: nat)
    ensures c <= |text| && (c < |text| ==> text[c] == ':') && (forall j | 0 <= j < c :: text[j] != ':')
  {
    if text == "" || text[0] == ':' then 0 else 1 + ColonAt(text[1..])
  }

  // ----- Query, fragment, path --------------------------------------------------------------

  /** The text without blanks, escaped. */
  function TextEscaped(text: string): string {
    if text == "" then ""
    else
      var n := |text| - 1;
      TextEscaped(text[..n]) + if IsBlank(text[n]) then "" else Escape(text[n])
  }

  /** From `e` on there is nothing, a query, a fragment, or both. */
  function WithTail(u: Url, input: string, e: nat): Url
    requires e <= |input|
  {
    var h := HashAt(input, e);
    u.(query := if At(input, e) == Some('?') then "?" + QueryEscaped(input[e + 1..h]) else u.query,
       fragment := if h == |input| then "" else "#" + Unblanked(input[h + 1..]))
  }

  /** The path text from `i` on is folded onto `path`. */
  function WithPathFrom(u: Url, path: seq<string>, input: string, i: nat): Url
    requires i <= |input|
  {
    WithTail(u.(path := Fold(u.scheme, path, Split(PathText(input, i)))), input, PathEnd(input, i))
  }

  /** A path from the root, after one slash if there is one. */
  function WithRoot(u: Url, input: string, i: nat): Url
    requires i <= |input|
  {
    WithPathFrom(u, [], input, if IsSlashAt(At(input, i)) then i + 1 else i)
  }

  // ----- The authority ------------------------------------------------------------------------

  /** The text before the last at sign of `input[i..e]`. An earlier at sign stands escaped,
      behind the text that follows it. */
  function CredentialText(input: string, i: nat, e: nat, mark: string): string
    requires i <= e <= |input|
    decreases e - i
  {
    var q := AtSign(input, i, e);
    if q == e then "" else input[i..q] + mark + CredentialText(input, q + 1, e, "%40")
  }

  /** Where the host begins: behind the last at sign. */
  function HostStart(input: string, i: nat, e: nat): (h: nat)
    requires i <= e <= |input|
    ensures i <= h <= e && (forall j | h <= j < e :: input[j] != '@') && (h > i ==> input[h - 1] == '@')
    decreases e - i
  {
    var q := AtSign(input, i, e);
    if q == e then i else HostStart(input, q + 1, e)
  }

  /** User name and password, separated by the first colon. */
  function WithCredentials(u: Url, text: string): Url {
    SplitAt(u, text, ColonAt(text))
  }

  function SplitAt(u: Url, text: string, c: nat): Url
    requires c <= |text|
  {
    u.(username := TextEscaped(text[..c]),
       password := if c == |text| then None else Some(TextEscaped(text[c + 1..])))
  }

  /** The port without leading zeros, or none when it is missing or the scheme's own. */
  function PortOf(scheme: string, digits: string): string
    requires AllDigits(digits)
  {
    if digits == "" || DefaultPort(scheme) == Some(ParseNat(digits)) then "" else PrintNat(ParseNat(digits))
  }

  /** Host and port from `h` on, up to the end `e` of the authority, and the rest. */
  function WithHostFrom(u: Url, input: string, h: nat, e: nat): Url
    requires h <= e <= |input|
  {
    var c := HostEnd(input, h, false);
    var host := Unblanked(input[h..c]);
    var port := if c < e then Unblanked(input[c + 1..e]) else "";
    if host == "" || !AllDigits(port) then Invalid
    else WithRoot(u.(host := LowerCase(host), port := PortOf(u.scheme, port)), input, e)
  }

  /** Credentials, host and port from `i` on, and the rest. */
  function WithAuthority(u: Url, input: string, i: nat): Url
    requires i <= |input|
  {
    var e := AuthorityEnd(input, i);
    WithHostFrom(WithCredentials(u, CredentialText(input, i, e, "")), input, HostStart(input, i, e), e)
  }

  // ----- Inputs with and without a scheme -------------------------------------------------------

  /** A URL of a scheme with authority that has nothing else yet. */
  function Empty(scheme: string): Url {
    Cleared.(scheme := scheme, isRelative := true)
  }

  /** Credentials, host and port of the base. */
  function Borrowed(scheme: string, base: Url): Url {
    Empty(scheme).(username := base.username, password := base.password, host := base.host, port := base.port)
  }

  /** What the input from `i` on takes from the base, when it has neither a slash nor a drive
      there: the path and, unless it has its own, the query; or the directory of the path. */
  function Resolved(scheme: string, base: Url, input: string, i: nat): Url
    requires i <= |input|
  {
    if EndsAuthority(At(input, i)) then WithTail(Borrowed(scheme, base).(path := base.path, query := base.query), input, i)
    else WithPathFrom(Borrowed(scheme, base), Pop(base.path), input, i)
  }

  /** A reference under a base of the same scheme, other than `file`. */
  function NetReference(base: Url, input: string, i: nat): Url
    requires i <= |input|
  {
    if !IsSlashAt(At(input, i)) then Resolved(base.scheme, base, input, i)
    else if IsSlashAt(At(input, i + 1)) then WithAuthority(Empty(base.scheme), input, SlashesEnd(input, i))
    else WithPathFrom(Borrowed(base.scheme, base), [], input, i + 1)
  }

  /** After two slashes: a host, unless it is spelled like a drive. */
  function WithFileHost(input: string, i: nat): Url
    requires i <= |input|
  {
    var e := AuthorityEnd(input, i);
    var host := Unblanked(input[i..e]);
    if IsDrive(host) then WithPathFrom(Empty("file"), [], input, i)
    else WithRoot(Empty("file").(host := LowerCase(host)), input, e)
  }

  /** A `file` URL, with or without base. */
  function FileReference(base: Option<Url>, input: string, i: nat): Outcome
    requires i <= |input|
  {
    if IsSlashAt(At(input, i)) then
      if IsSlashAt(At(input, i + 1)) then Parsed(WithFileHost(input, i + 2))
      else Parsed(WithPathFrom(Empty("file"), [], input, i + 1))
    else if DriveAhead(input, i) then Parsed(WithPathFrom(Empty("file"), [], input, i))
    else if base == None then Thrown
    else Parsed(Resolved("file", base.value, input, i))
  }

  /** A URL of a scheme without authority. */
  function Opaque(scheme: string, input: string, i: nat): Url
    requires i <= |input|
  {
    var e := PathEnd(input, i);
    WithTail(Cleared.(scheme := scheme, schemeData := TextEscaped(input[i..e])), input, e)
  }

  /** The meaning of an input under a base, or without one. */
  function Meaning(input: string, base: Option<Url>): Outcome {
    if UrlStart.HasScheme(input) then
      var scheme, i := UrlStart.SchemeOf(input), UrlStart.SchemeEnd(input) + 1;
      if scheme == "file" then FileReference(base, input, i)
      else if !IsRelativeScheme(scheme) then Parsed(Opaque(scheme, input, i))
      else if base.Some? && base.value.scheme == scheme then Parsed(NetReference(base.value, input, i))
      else Parsed(WithAuthority(Empty(scheme), input, SlashesEnd(input, i)))
    else if base == None || !IsRelativeScheme(base.value.scheme) then Parsed(Invalid)
    else if base.value.scheme == "file" then FileReference(base, input, 0)
    else Parsed(NetReference(base.value, input, 0))
  }
}
