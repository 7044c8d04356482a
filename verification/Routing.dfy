/** Looking up the application for a path: a scan of the routes in descending order
    against the longest matching prefix. */
module Routing {
  import opened Wrappers

  type AppId = nat

  datatype Route = Route(key: string, app: AppId)

  // ----- Lexicographic order of keys ----------------------------------------------------

  predicate Less(a: string, b: string) {
    b != "" && (a == "" || a[0] < b[0] || (a[0] == b[0] && Less(a[1..], b[1..])))
  }

  /** The routes in the order of a `BTreeMap`. */
  ghost predicate Ordered(routes: seq<Route>) {
    forall i, j | 0 <= i < j < |routes| :: Less(routes[i].key, routes[j].key)
  }

  lemma {:induction false} LessIsStrict(a: string, b: string)
    requires Less(a, b)
    ensures !Less(b, a) && a != b
    decreases |a|
  {
    if a != "" && a[0] == b[0] {
      LessIsStrict(a[1..], b[1..]);
    }
  }

  /** A proper prefix comes first. */
  lemma {:induction false} PrefixIsLess(a: string, b: string)
    requires a <= b && a != b
    ensures Less(a, b)
    decreases |a|
  {
    if a != "" {
      assert a[0] == b[0];
      assert a[1..] <= b[1..];
      assert a == [a[0]] + a[1..] && b == [b[0]] + b[1..];
      PrefixIsLess(a[1..], b[1..]);
    }
  }

  /** Prefixes of the same path are ordered by length. */
  lemma PrefixesByLength(a: string, b: string, path: string)
    requires a <= path && b <= path && Less(a, b)
    ensures |a| < |b|
  {
    if |b| <= |a| {
      assert b <= a by {
        assert a == path[..|a|] && b == path[..|b|];
      }
      LessIsStrict(a, b);
      if a != b {
        PrefixIsLess(b, a);
      }
    }
  }

  // ----- The scan -----------------------------------------------------------------------

  /** `r` is the route whose key is the longest prefix of the path. */
  ghost predicate IsLongestPrefix(routes: seq<Route>, path: string, r: Route) {
    r in routes && r.key <= path && forall s | s in routes && s.key <= path && s != r :: |s.key| < |r.key|
  }

  /** The first match of the reverse scan is the application of the longest key that is a
      prefix of the path, and there is none only if no key is. */
  method LookupSubmappings(routes: seq<Route>, path: string) returns (app: Option<AppId>)
    requires Ordered(routes)
    ensures app.Some? <==> exists r :: IsLongestPrefix(routes, path, r)
    ensures app.Some? ==> exists r :: IsLongestPrefix(routes, path, r) && r.app == app.value
    ensures app.None? ==> forall r | r in routes :: !(r.key <= path)
  {
    var i := |routes|;
    while i > 0
      invariant 0 <= i <= |routes|
      invariant forall j | i <= j < |routes| :: !(routes[j].key <= path)
    {
      i := i - 1;
      if routes[i].key <= path {
        forall s | s in routes && s.key <= path && s != routes[i] ensures |s.key| < |routes[i].key| {
          var j :| 0 <= j < |routes| && routes[j] == s;
          PrefixesByLength(s.key, routes[i].key, path);
        }
        assert IsLongestPrefix(routes, path, routes[i]);
        return Some(routes[i].app);
      }
    }
    return None;
  }

  // ----- The database query ----------------------------------------------------------------

  /** SQL `LIKE`: `%` stands for any text, `_` for any character, and a backslash takes
      the next character literally. */
  predicate Like(text: string, pattern: string)
    decreases |pattern|, |text|
  {
    if pattern == "" then text == ""
    else if pattern[0] == '%' then Like(text, pattern[1..]) || (text != "" && Like(text[1..], pattern))
    else if pattern[0] == '\\' && |pattern| > 1 then
      text != "" && text[0] == pattern[1] && Like(text[1..], pattern[2..])
    else text != "" && (pattern[0] == '_' || text[0] == pattern[0]) && Like(text[1..], pattern[1..])
  }

  predicate Plain(key: string) {
    forall i | 0 <= i < |key| :: key[i] != '%' && key[i] != '_' && key[i] != '\\'
  }

  lemma {:induction false} PercentMatchesAll(text: string)
    ensures Like(text, "%")
    decreases |text|
  {
    assert "%"[1..] == "";
    if text != "" {
      PercentMatchesAll(text[1..]);
    }
  }

  /** For a key without wildcards the pattern `key%` means "starts with the key". */
  lemma {:induction false} LikeIsPrefix(path: string, key: string)
    requires Plain(key)
    ensures Like(path, key + "%") <==> key <= path
    decreases |key|
  {
    if key == "" {
      assert key + "%" == "%";
      PercentMatchesAll(path);
    } else {
      assert (key + "%")[1..] == key[1..] + "%" && (key + "%")[0] == key[0];
      if path != "" {
        LikeIsPrefix(path[1..], key[1..]);
        assert path == [path[0]] + path[1..] && key == [key[0]] + key[1..];
      }
    }
  }

  /** Some text that the pattern matches. */
  function Sample(pattern: string): string {
    if pattern == "" then ""
    else if pattern[0] == '%' then Sample(pattern[1..])
    else if pattern[0] == '\\' && |pattern| > 1 then [pattern[1]] + Sample(pattern[2..])
    else if pattern[0] == '_' then "x" + Sample(pattern[1..])
    else [pattern[0]] + Sample(pattern[1..])
  }

  lemma {:induction false} SampleMatches(pattern: string)
    ensures Like(Sample(pattern), pattern)
    decreases |pattern|
  {
    if pattern != "" {
      if pattern[0] == '\\' && |pattern| > 1 {
        SampleMatches(pattern[2..]);
      } else {
        SampleMatches(pattern[1..]);
      }
    }
  }

  lemma {:induction false} SampleIsShort(key: string)
    ensures |Sample(key + "%")| <= |key|
    decreases |key|
  {
    var p := key + "%";
    if key == "" {
      assert p == "%" && p[1..] == "";
    } else {
      assert p[0] == key[0] && p[1..] == key[1..] + "%";
      SampleIsShort(key[1..]);
      if |key| > 1 {
        assert p[1] == key[1] && p[2..] == key[2..] + "%";
        SampleIsShort(key[2..]);
      } else {
        assert p[2..] == "";
      }
    }
  }

  lemma {:induction false} SampleIsNoExtension(key: string)
    requires !Plain(key)
    ensures !(key <= Sample(key + "%"))
    decreases |key|
  {
    var p, rest := key + "%", key[1..];
    assert p[0] == key[0] && p[1..] == rest + "%";
    if key[0] == '%' {
      SampleIsShort(rest);
    } else if key[0] == '\\' {
      if |key| > 1 {
        assert p[1] == key[1] && p[2..] == key[2..] + "%";
        SampleIsShort(key[2..]);
      } else {
        assert p[1] == '%';
      }
    } else if key[0] != '_' {
      assert !Plain(rest) by {
        var i :| 0 <= i < |key| && !(key[i] != '%' && key[i] != '_' && key[i] != '\\');
        assert rest[i - 1] == key[i];
      }
      SampleIsNoExtension(rest);
      var sample := Sample(p);
      assert sample[1..] == Sample(rest + "%");
    }
  }

  /** The query's pattern for `key` says about `path` what a prefix test says. */
  predicate ReadsAsPrefix(key: string, path: string) {
    Like(path, key + "%") <==> key <= path
  }

  /** That is so on every path exactly when the key has no wildcard and no backslash. */
  lemma LikeIsPrefixIff(key: string)
    ensures (forall path: string :: ReadsAsPrefix(key, path)) <==> Plain(key)
  {
    if Plain(key) {
      forall path: string ensures ReadsAsPrefix(key, path) {
        LikeIsPrefix(path, key);
      }
    } else {
      SampleMatches(key + "%");
      SampleIsNoExtension(key);
      assert !ReadsAsPrefix(key, Sample(key + "%"));
    }
  }

  /** An answer of `... where ? like concat(path, '%') order by length(path) desc limit 1`. */
  ghost predicate IsQueryResult(routes: seq<Route>, path: string, r: Option<Route>) {
    match r
    case Some(s) =>
      && s in routes && Like(path, s.key + "%")
      && forall t | t in routes && Like(path, t.key + "%") :: |t.key| <= |s.key|
    case None => forall t | t in routes :: !Like(path, t.key + "%")
  }

  /** On routes without wildcards the query and the scan agree on every path. */
  lemma QueryIsLongestPrefix(routes: seq<Route>, path: string, r: Option<Route>)
    requires Ordered(routes) && forall t | t in routes :: Plain(t.key)
    requires IsQueryResult(routes, path, r)
    ensures match r
            case Some(s) => IsLongestPrefix(routes, path, s)
            case None => forall t | t in routes :: !(t.key <= path)
  {
    forall t | t in routes ensures Like(path, t.key + "%") <==> t.key <= path {
      LikeIsPrefix(path, t.key);
    }
    if r.Some? {
      forall t | t in routes && t.key <= path && t != r.value ensures |t.key| < |r.value.key| {
        SameLengthSameRoute(routes, path, t, r.value);
      }
    }
  }

  lemma SameLengthSameRoute(routes: seq<Route>, path: string, s: Route, t: Route)
    requires Ordered(routes) && s in routes && t in routes && s.key <= path && t.key <= path && s != t
    ensures |s.key| != |t.key|
  {
    var i, j :| 0 <= i < |routes| && 0 <= j < |routes| && routes[i] == s && routes[j] == t;
    if i < j {
      PrefixesByLength(s.key, t.key, path);
    } else {
      PrefixesByLength(t.key, s.key, path);
    }
  }
}
