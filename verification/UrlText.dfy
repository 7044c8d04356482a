/** Characters and text as the URL parser sees them. Only ASCII input is modelled:
    for other characters `Escape` is not what `encodeURIComponent` does. */
module UrlText {
  import opened Wrappers

  predicate IsUpper(c: char) { 'A' <= c <= 'Z' }

  predicate IsAlpha(c: char) { 'a' <= c <= 'z' || 'A' <= c <= 'Z' }

  predicate IsDigit(c: char) { '0' <= c <= '9' }

  predicate IsSchemeChar(c: char) { IsAlpha(c) || IsDigit(c) || c == '+' || c == '-' || c == '.' }

  /** Tab, line feed and carriage return are dropped by most states. */
  predicate IsBlank(c: char) { c == '\t' || c == '\n' || c == '\r' }

  /** What the constructor trims at both ends. */
  predicate IsTrimmed(c: char) { c == ' ' || IsBlank(c) || c as int == 12 }

  /** The authority and the host end at one of these or at the end of input. */
  predicate IsDelimiter(c: char) { c == '/' || c == '\\' || c == '?' || c == '#' }

  predicate IsSlash(c: char) { c == '/' || c == '\\' }

  function Lower(c: char): (r: char)
    ensures !IsUpper(r) && (!IsUpper(c) ==> r == c) && (IsAlpha(c) <==> IsAlpha(r))
    ensures r == c || IsAlpha(c)
  {
    if IsUpper(c) then c - 'A' + 'a' else c
  }

  function LowerCase(s: string): (r: string)
    ensures |r| == |s| && forall i :: 0 <= i < |s| ==> r[i] == Lower(s[i])
  {
    if s == "" then "" else LowerCase(s[..|s| - 1]) + [Lower(s[|s| - 1])]
  }

  ghost predicate IsLowerCase(s: string) {
    forall i :: 0 <= i < |s| ==> !IsUpper(s[i])
  }

  lemma LowerCaseFixed(s: string)
    requires IsLowerCase(s)
    ensures LowerCase(s) == s
  {
  }

  /** Characters that `percentEscape` leaves alone in a query. */
  predicate IsQuerySafe(c: char) {
    ' ' < c <= '~' && c != '"' && c != '#' && c != '<' && c != '>' && c != '`'
  }

  /** Elsewhere `?` is escaped as well. */
  predicate IsSafe(c: char) { IsQuerySafe(c) && c != '?' }

  function HexDigit(n: nat): (c: char)
    requires n < 16
    ensures IsDigit(c) || 'A' <= c <= 'F'
  {
    if n < 10 then '0' + n as char else 'A' + (n - 10) as char
  }

  function PercentEncode(c: char): string {
    ['%', HexDigit(c as int / 16 % 16), HexDigit(c as int % 16)]
  }

  function Escape(c: char): (r: string)
    ensures forall i :: 0 <= i < |r| ==> IsSafe(r[i]) && (r[i] == c || r[i] == '%' || IsDigit(r[i]) || 'A' <= r[i] <= 'F')
    ensures IsSafe(c) ==> r == [c]
  {
    if IsSafe(c) then [c] else PercentEncode(c)
  }

  function EscapeQuery(c: char): (r: string)
    ensures forall i :: 0 <= i < |r| ==> IsQuerySafe(r[i])
    ensures IsQuerySafe(c) ==> r == [c]
  {
    if IsQuerySafe(c) then [c] else PercentEncode(c)
  }

  function HexValue(c: char): nat {
    if IsDigit(c) then c as int - '0' as int else if 'A' <= c <= 'F' then c as int - 'A' as int + 10 else 0
  }

  /** A single character, or a percent sign with the two hexadecimal digits of its code. */
  predicate Spells(s: string, c: char) {
    s == [c] || (|s| == 3 && s[0] == '%' && HexValue(s[1]) * 16 + HexValue(s[2]) == c as int)
  }

  /** Escaping writes every character so that it can be read back, and leaves exactly the
      safe ones as they are. */
  lemma EscapeSpells(c: char)
    requires c as int < 128
    ensures Spells(Escape(c), c) && (Escape(c) == [c] <==> IsSafe(c))
    ensures Spells(EscapeQuery(c), c) && (EscapeQuery(c) == [c] <==> IsQuerySafe(c))
  {
    var n := c as int;
    HexReadsBack(n / 16 % 16);
    HexReadsBack(n % 16);
    assert n == n / 16 * 16 + n % 16;
  }

  lemma HexReadsBack(n: nat)
    requires n < 16
    ensures HexValue(HexDigit(n)) == n
  {
  }

  // ----- Decimal numbers -------------------------------------------------------

  predicate AllDigits(s: string) {
    forall i :: 0 <= i < |s| ==> IsDigit(s[i])
  }

  /** `parseInt` on decimal digits. */
  function ParseNat(s: string): nat
    requires AllDigits(s)
  {
    if s == "" then 0 else ParseNat(s[..|s| - 1]) * 10 + (s[|s| - 1] as int - '0' as int)
  }

  /** Printing a number, exact at every size. */
  function PrintNat(n: nat): (s: string)
    ensures s != "" && AllDigits(s)
  {
    var d := ['0' + (n % 10) as char];
    if n < 10 then d else PrintNat(n / 10) + d
  }

  lemma {:induction false} ParsePrint(n: nat)
    ensures ParseNat(PrintNat(n)) == n
    decreases n
  {
    var s := PrintNat(n);
    assert (s[|s| - 1] as int - '0' as int) == n % 10;
    if n < 10 {
      assert s[..|s| - 1] == "";
    } else {
      assert s[..|s| - 1] == PrintNat(n / 10);
      ParsePrint(n / 10);
    }
  }
}
