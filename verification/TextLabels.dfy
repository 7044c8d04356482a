/** The label block of the text format: escaping, writing, and reading it back. */
module TextLabels {
  import opened Wrappers

  // ----- Escaping ------------------------------------------------------------------------

  /** Characters that need escaping; the double quote only inside label values. */
  predicate IsSpecial(c: char, quotes: bool) {
    c == '\\' || c == '\n' || (quotes && c == '"')
  }

  /** The letter after the backslash. */
  function Letter(c: char): char {
    if c == '\n' then 'n' else c
  }

  function EscapeChar(c: char, quotes: bool): string {
    if IsSpecial(c, quotes) then ['\\', Letter(c)] else [c]
  }

  function Escape(v: string, quotes: bool): string {
    if v == "" then "" else EscapeChar(v[0], quotes) + Escape(v[1..], quotes)
  }

  /** Reading escaped text; `None` for what no escaping produces. */
  function Unescape(t: string, quotes: bool): Option<string> {
    if t == "" then Some("")
    else if t[0] == '\\' then
      if |t| > 1 && (t[1] == '\\' || t[1] == 'n' || (quotes && t[1] == '"')) then
        match Unescape(t[2..], quotes)
        case Some(v) => Some([if t[1] == 'n' then '\n' else t[1]] + v)
        case None => None
      else None
    else if IsSpecial(t[0], quotes) then None
    else
      match Unescape(t[1..], quotes)
      case Some(v) => Some([t[0]] + v)
      case None => None
  }

  lemma {:induction false} UnescapeInverts(v: string, quotes: bool)
    ensures Unescape(Escape(v, quotes), quotes) == Some(v)
    decreases |v|
  {
    if v != "" {
      UnescapeInverts(v[1..], quotes);
      var head, t := EscapeChar(v[0], quotes), Escape(v, quotes);
      assert t[|head|..] == Escape(v[1..], quotes);
      assert v == [v[0]] + v[1..];
    }
  }

  lemma {:induction false} EscapeInverts(t: string, quotes: bool)
    requires Unescape(t, quotes).Some?
    ensures Escape(Unescape(t, quotes).value, quotes) == t
    decreases |t|
  {
    if t != "" {
      var v := Unescape(t, quotes).value;
      if t[0] == '\\' {
        EscapeInverts(t[2..], quotes);
        assert v[1..] == Unescape(t[2..], quotes).value;
        assert t == [t[0], t[1]] + t[2..];
      } else {
        EscapeInverts(t[1..], quotes);
        assert v[1..] == Unescape(t[1..], quotes).value;
        assert t == [t[0]] + t[1..];
      }
    }
  }

  /** In both quote modes escaping and unescaping are inverse to each other. */
  lemma EscapeIsBijective(v: string, t: string, quotes: bool)
    ensures Unescape(t, quotes) == Some(v) <==> t == Escape(v, quotes)
  {
    UnescapeInverts(v, quotes);
    if Unescape(t, quotes) == Some(v) {
      EscapeInverts(t, quotes);
    }
  }

  /** Escaped text stays on its line. */
  lemma {:induction false} EscapedStaysOnLine(v: string, quotes: bool)
    ensures forall i | 0 <= i < |Escape(v, quotes)| :: Escape(v, quotes)[i] != '\n'
    decreases |v|
  {
    if v != "" {
      EscapedStaysOnLine(v[1..], quotes);
    }
  }

  ghost predicate NoSpecials(v: string, quotes: bool) {
    forall i | 0 <= i < |v| :: !IsSpecial(v[i], quotes)
  }

  lemma {:induction false} PlainIsUnchanged(v: string, quotes: bool)
    requires NoSpecials(v, quotes)
    ensures Escape(v, quotes) == v
    decreases |v|
  {
    if v != "" {
      PlainIsUnchanged(v[1..], quotes);
      assert v == [v[0]] + v[1..];
    }
  }

  lemma Assoc(a: string, b: string, c: string)
    ensures (a + b) + c == a + (b + c)
  {
  }

  lemma {:induction false} EscapeParts(a: string, b: string, quotes: bool)
    ensures Escape(a + b, quotes) == Escape(a, quotes) + Escape(b, quotes)
    decreases |a|
  {
    if a == "" {
      assert a + b == b;
    } else {
      var head, x, y := EscapeChar(a[0], quotes), Escape(a[1..], quotes), Escape(b, quotes);
      EscapeParts(a[1..], b, quotes);
      assert (a + b)[1..] == a[1..] + b;
      Assoc(head, x, y);
    }
  }

  lemma EscapeNext(v: string, i: nat, quotes: bool)
    requires i < |v|
    ensures Escape(v[..i + 1], quotes) == Escape(v[..i], quotes) + EscapeChar(v[i], quotes)
  {
    assert v[..i + 1] == v[..i] + [v[i]];
    EscapeParts(v[..i], [v[i]], quotes);
    assert Escape([v[i]], quotes) == EscapeChar(v[i], quotes) + Escape([v[i]][1..], quotes);
  }

  /** The position of the first special character. */
  method FindFirstOccurence(v: string, quotes: bool) returns (r: Option<nat>)
    ensures match r
            case None => NoSpecials(v, quotes)
            case Some(i) => i < |v| && IsSpecial(v[i], quotes) && NoSpecials(v[..i], quotes)
  {
    for i := 0 to |v|
      invariant NoSpecials(v[..i], quotes)
    {
      if IsSpecial(v[i], quotes) { return Some(i); }
      assert v[..i + 1] == v[..i] + [v[i]];
    }
    assert v[..|v|] == v;
    return None;
  }

  /** Nothing is copied when nothing needs escaping; otherwise everything before the first
      special character is copied as it is. */
  method EscapeString(v: string, quotes: bool) returns (r: string)
    ensures r == Escape(v, quotes)
    ensures NoSpecials(v, quotes) ==> r == v
  {
    var first := FindFirstOccurence(v, quotes);
    if first == None {
      PlainIsUnchanged(v, quotes);
      return v;
    }
    r := v[..first.value];
    PlainIsUnchanged(r, quotes);
    for i := first.value to |v|
      invariant r == Escape(v[..i], quotes)
    {
      var c := v[i];
      EscapeNext(v, i, quotes);
      if c == '\\' {
        r := r + "\\\\";
      } else if c == '\n' {
        r := r + "\\n";
      } else if c == '"' && quotes {
        r := r + "\\\"";
      } else {
        r := r + [c];
      }
    }
    assert v[..|v|] == v;
  }

  // ----- The label block ------------------------------------------------------------------------

  datatype LabelPair = LabelPair(name: string, value: string)

  predicate IsNameStart(c: char) {
    'a' <= c <= 'z' || 'A' <= c <= 'Z' || c == '_'
  }

  /** `is_valid_label_name`. */
  predicate IsValidLabelName(name: string) {
    && name != "" && IsNameStart(name[0])
    && forall i | 0 <= i < |name| :: IsNameStart(name[i]) || '0' <= name[i] <= '9'
  }

  /** One label as it is written. */
  function Label(lp: LabelPair): string {
    lp.name + "=\"" + Escape(lp.value, true) + "\""
  }

  /** Labels with commas between them. */
  function Labels(pairs: seq<LabelPair>): string {
    if pairs == [] then ""
    else if |pairs| == 1 then Label(pairs[0])
    else Label(pairs[0]) + "," + Labels(pairs[1..])
  }

  function WithAdditional(pairs: seq<LabelPair>, additional: Option<LabelPair>): seq<LabelPair> {
    if additional.Some? then pairs + [additional.value] else pairs
  }

  /** The whole block: nothing at all without labels. */
  function Block(pairs: seq<LabelPair>): string {
    if pairs == [] then "" else "{" + Labels(pairs) + "}"
  }

  lemma {:induction false} LabelsPush(pairs: seq<LabelPair>, lp: LabelPair)
    requires pairs != []
    ensures Labels(pairs + [lp]) == Labels(pairs) + "," + Label(lp)
    decreases |pairs|
  {
    var all := pairs + [lp];
    if |pairs| == 1 {
      assert all[1..] == [lp];
      assert Labels([lp]) == Label(lp);
    } else {
      assert all[1..] == pairs[1..] + [lp];
      LabelsPush(pairs[1..], lp);
      var head, rest := Label(pairs[0]) + ",", Labels(pairs[1..]);
      assert head + (rest + "," + Label(lp)) == head + rest + "," + Label(lp);
    }
  }

  /** What the loop has written after `pairs`, and the separator it then holds. */
  function Written(pairs: seq<LabelPair>): string {
    if pairs == [] then "" else "{" + Labels(pairs)
  }

  function Separator(pairs: seq<LabelPair>): string {
    if pairs == [] then "{" else ","
  }

  lemma WrittenNext(pairs: seq<LabelPair>, lp: LabelPair)
    ensures Written(pairs + [lp]) == Written(pairs) + Separator(pairs) + Label(lp)
  {
    if pairs == [] {
      assert pairs + [lp] == [lp];
      assert Labels([lp]) == Label(lp);
      assert "" + "{" == "{";
    } else {
      LabelsPush(pairs, lp);
      assert "{" + (Labels(pairs) + "," + Label(lp)) == "{" + Labels(pairs) + "," + Label(lp);
    }
  }

  /** The loop invariant: what was appended to `start`, and the separator. */
  ghost predicate WrittenSoFar(pairs: seq<LabelPair>, i: nat, start: string, text: string, separator: string)
    requires i <= |pairs|
  {
    separator == Separator(pairs[..i]) && text == start + Written(pairs[..i])
  }

  lemma NothingWritten(pairs: seq<LabelPair>, start: string)
    ensures WrittenSoFar(pairs, 0, start, start, "{")
  {
    assert pairs[..0] == [];
    assert start + "" == start;
  }

  lemma WrittenStep(pairs: seq<LabelPair>, i: nat, start: string, text: string, separator: string)
    requires i < |pairs| && WrittenSoFar(pairs, i, start, text, separator)
    ensures WrittenSoFar(pairs, i + 1, start, text + (separator + Label(pairs[i])), ",")
  {
    WrittenNext(pairs[..i], pairs[i]);
    assert pairs[..i + 1] == pairs[..i] + [pairs[i]];
    Append(start, Written(pairs[..i]), separator, Label(pairs[i]));
  }

  /** A buffer that text is appended to. */
  class Writer {
    var text: string

    constructor ()
      ensures text == ""
    {
      text := "";
    }

    method WriteAll(s: string)
      modifies this
      ensures text == old(text) + s
    {
      text := text + s;
    }

    method WriteLabel(separator: string, lp: LabelPair)
      modifies this
      ensures text == old(text) + (separator + Label(lp))
    {
      WriteAll(separator);
      WriteAll(lp.name);
      WriteAll("=\"");
      var value := EscapeString(lp.value, true);
      WriteAll(value);
      WriteAll("\"");
      assert text == old(text) + separator + lp.name + "=\"" + value + "\"";
    }

    /** The loop over the pairs; returns the separator for what comes next. */
    method WritePairs(pairs: seq<LabelPair>) returns (separator: string)
      modifies this
      ensures text == old(text) + Written(pairs) && separator == Separator(pairs)
    {
      separator := "{";
      var i := 0;
      NothingWritten(pairs, text);
      while i < |pairs|
        invariant i <= |pairs| && WrittenSoFar(pairs, i, old(text), text, separator)
      {
        WrittenStep(pairs, i, old(text), text, separator);
        WriteLabel(separator, pairs[i]);
        separator := ",";
        i := i + 1;
      }
      assert pairs[..i] == pairs;
    }

    /** Writes the block of all pairs, the additional label last. */
    method LabelPairsToText(pairs: seq<LabelPair>, additional: Option<LabelPair>)
      modifies this
      ensures text == old(text) + Block(WithAdditional(pairs, additional))
    {
      if pairs == [] && additional.None? {
        Assoc(text, "", "");
        return;
      }
      var separator := WritePairs(pairs);
      if additional.Some? {
        WrittenNext(pairs, additional.value);
        Append(old(text), Written(pairs), separator, Label(additional.value));
        WriteLabel(separator, additional.value);
      }
      Assoc(old(text), Written(WithAdditional(pairs, additional)), "}");
      WriteAll("}");
    }
  }

  lemma Append(a: string, b: string, c: string, d: string)
    ensures (a + b) + (c + d) == a + (b + c + d)
  {
  }

  // ----- Reading ------------------------------------------------------------------------------------

  /** A name up to the next `=`, and what follows it. */
  function ReadName(t: string): Option<(string, string)> {
    if t == "" then None
    else if t[0] == '=' then Some(("", t[1..]))
    else
      match ReadName(t[1..])
      case Some(r) => Some(([t[0]] + r.0, r.1))
      case None => None
  }

  /** A value up to the next unescaped quote, and what follows it. */
  function ReadValue(t: string): Option<(string, string)> {
    if t == "" then None
    else if t[0] == '"' then Some(("", t[1..]))
    else if t[0] == '\\' then
      if |t| == 1 then None
      else
        match ReadValue(t[2..])
        case Some(r) => Some(([t[0], t[1]] + r.0, r.1))
        case None => None
    else
      match ReadValue(t[1..])
      case Some(r) => Some(([t[0]] + r.0, r.1))
      case None => None
  }

  lemma {:induction false} ReadNameShrinks(t: string)
    ensures ReadName(t).Some? ==> |ReadName(t).value.1| < |t|
    decreases |t|
  {
    if t != "" && t[0] != '=' {
      ReadNameShrinks(t[1..]);
    }
  }

  lemma {:induction false} ReadValueShrinks(t: string)
    ensures ReadValue(t).Some? ==> |ReadValue(t).value.1| < |t|
    decreases |t|
  {
    if t != "" && t[0] != '"' {
      if t[0] == '\\' {
        if |t| > 1 { ReadValueShrinks(t[2..]); }
      } else {
        ReadValueShrinks(t[1..]);
      }
    }
  }

  /** One label and what follows it. */
  function ReadLabel(t: string): (r: Option<(LabelPair, string)>)
    ensures r.Some? ==> |r.value.1| < |t|
  {
    ReadNameShrinks(t);
    match ReadName(t)
    case None => None
    case Some(n) =>
      if n.1 == "" || n.1[0] != '"' then None
      else
        ReadValueShrinks(n.1[1..]);
        match ReadValue(n.1[1..])
        case None => None
        case Some(v) =>
          match Unescape(v.0, true)
          case None => None
          case Some(value) => Some((LabelPair(n.0, value), v.1))
  }

  /** Labels up to the closing brace. */
  function ReadLabels(t: string): Option<(seq<LabelPair>, string)>
    decreases |t|
  {
    match ReadLabel(t)
    case None => None
    case Some(l) =>
      if l.1 == "" then None
      else if l.1[0] == '}' then Some(([l.0], l.1[1..]))
      else if l.1[0] == ',' then
        match ReadLabels(l.1[1..])
        case None => None
        case Some(r) => Some(([l.0] + r.0, r.1))
      else None
  }

  /** The block, possibly missing, and the rest of the line. */
  function ReadBlock(t: string): Option<(seq<LabelPair>, string)> {
    if t == "" || t[0] != '{' then Some(([], t)) else ReadLabels(t[1..])
  }

  lemma {:induction false} NameIsRead(name: string, rest: string)
    requires forall i | 0 <= i < |name| :: name[i] != '='
    ensures ReadName(name + "=" + rest) == Some((name, rest))
    decreases |name|
  {
    var t := name + "=" + rest;
    if name == "" {
      assert t[1..] == rest;
    } else {
      assert t[1..] == name[1..] + "=" + rest;
      NameIsRead(name[1..], rest);
      assert name == [name[0]] + name[1..];
    }
  }

  lemma {:induction false} ValueIsRead(value: string, rest: string)
    ensures ReadValue(Escape(value, true) + "\"" + rest) == Some((Escape(value, true), rest))
    decreases |value|
  {
    var t := Escape(value, true) + "\"" + rest;
    if value == "" {
      assert t[1..] == rest;
    } else {
      var head, tail := EscapeChar(value[0], true), Escape(value[1..], true);
      assert t[|head|..] == tail + "\"" + rest;
      assert t[..|head|] == head;
      ValueIsRead(value[1..], rest);
    }
  }

  lemma LabelIsRead(lp: LabelPair, rest: string)
    requires IsValidLabelName(lp.name)
    ensures ReadLabel(Label(lp) + rest) == Some((lp, rest))
  {
    var after := "\"" + (Escape(lp.value, true) + "\"" + rest);
    assert Label(lp) + rest == lp.name + "=" + after;
    NameIsRead(lp.name, after);
    assert after[1..] == Escape(lp.value, true) + "\"" + rest;
    ValueIsRead(lp.value, rest);
    UnescapeInverts(lp.value, true);
  }

  ghost predicate ValidNames(pairs: seq<LabelPair>) {
    forall i | 0 <= i < |pairs| :: IsValidLabelName(pairs[i].name)
  }

  lemma Regroup(a: string, b: string, c: string, d: string, e: string)
    ensures (a + b + c) + d + e == a + (b + (c + d + e))
  {
  }

  /** After a label comes the closing brace or a comma and the next label. */
  lemma LabelsStep(t: string, lp: LabelPair, after: string)
    requires ReadLabel(t) == Some((lp, after)) && after != ""
    ensures after[0] == '}' ==> ReadLabels(t) == Some(([lp], after[1..]))
    ensures after[0] == ',' && ReadLabels(after[1..]).Some? ==>
              ReadLabels(t) == Some(([lp] + ReadLabels(after[1..]).value.0, ReadLabels(after[1..]).value.1))
  {
  }

  lemma {:induction false} LabelsAreRead(pairs: seq<LabelPair>, rest: string)
    requires pairs != [] && ValidNames(pairs)
    ensures ReadLabels(Labels(pairs) + "}" + rest) == Some((pairs, rest))
    decreases |pairs|
  {
    if |pairs| == 1 {
      LastLabel(pairs[0], rest);
      assert pairs == [pairs[0]];
    } else {
      LabelsAreRead(pairs[1..], rest);
      Regroup(Label(pairs[0]), ",", Labels(pairs[1..]), "}", rest);
      NextLabels(Labels(pairs) + "}" + rest, pairs[0], Labels(pairs[1..]) + "}" + rest, pairs[1..], rest);
      assert pairs == [pairs[0]] + pairs[1..];
    }
  }

  lemma LastLabel(lp: LabelPair, rest: string)
    requires IsValidLabelName(lp.name)
    ensures ReadLabels(Label(lp) + "}" + rest) == Some(([lp], rest))
  {
    var after := "}" + rest;
    assert Label(lp) + "}" + rest == Label(lp) + after && after[1..] == rest;
    LabelIsRead(lp, after);
    LabelsStep(Label(lp) + after, lp, after);
  }

  lemma NextLabels(t: string, lp: LabelPair, later: string, others: seq<LabelPair>, rest: string)
    requires IsValidLabelName(lp.name) && ReadLabels(later) == Some((others, rest)) && t == Label(lp) + ("," + later)
    ensures ReadLabels(t) == Some(([lp] + others, rest))
  {
    var after := "," + later;
    assert after[1..] == later;
    LabelIsRead(lp, after);
    LabelsStep(t, lp, after);
  }

  /** The reader recovers exactly the pairs, and leaves the rest of the line, for any label
      values and valid names. */
  lemma BlockIsRead(pairs: seq<LabelPair>, rest: string)
    requires ValidNames(pairs) && (rest == "" || rest[0] != '{')
    ensures ReadBlock(Block(pairs) + rest) == Some((pairs, rest))
  {
    if pairs == [] {
      assert Block(pairs) + rest == rest;
    } else {
      var inner := Labels(pairs) + "}" + rest;
      BlockOpens(pairs, rest, inner);
      LabelsAreRead(pairs, rest);
    }
  }

  lemma BlockOpens(pairs: seq<LabelPair>, rest: string, inner: string)
    requires pairs != [] && inner == Labels(pairs) + "}" + rest
    ensures ReadBlock(Block(pairs) + rest) == ReadLabels(inner)
  {
    var labels := Labels(pairs);
    assert ("{" + labels + "}") + rest == "{" + (labels + "}" + rest);
    assert ("{" + inner)[1..] == inner;
  }

  /** What `label_pairs_to_text` writes, any additional label included, determines the
      labels, whatever follows. */
  lemma BlockIsUniquelyReadable(
    a: seq<LabelPair>, x: Option<LabelPair>, b: seq<LabelPair>, y: Option<LabelPair>, rest: string, other: string)
    requires ValidNames(WithAdditional(a, x)) && ValidNames(WithAdditional(b, y))
    requires (rest == "" || rest[0] != '{') && (other == "" || other[0] != '{')
    requires Block(WithAdditional(a, x)) + rest == Block(WithAdditional(b, y)) + other
    ensures WithAdditional(a, x) == WithAdditional(b, y) && rest == other
  {
    BlockIsRead(WithAdditional(a, x), rest);
    BlockIsRead(WithAdditional(b, y), other);
  }
}
