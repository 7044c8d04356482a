/** Multisets gathered from the elements of a sequence. */
module Bags {
  /** The union of `f` over all elements. */
  function Gather<T, U>(f: T -> multiset<U>, s: seq<T>): multiset<U> {
    if s == [] then multiset{} else Gather(f, s[..|s| - 1]) + f(s[|s| - 1])
  }

  function Without<T>(s: seq<T>, i: nat): seq<T>
    requires i < |s|
  {
    s[..i] + s[i + 1..]
  }

  lemma GatherPush<T, U>(f: T -> multiset<U>, s: seq<T>, x: T)
    ensures Gather(f, s + [x]) == Gather(f, s) + f(x)
  {
    assert (s + [x])[..|s|] == s;
  }

  lemma {:induction false} GatherAppend<T, U>(f: T -> multiset<U>, a: seq<T>, b: seq<T>)
    ensures Gather(f, a + b) == Gather(f, a) + Gather(f, b)
    decreases |b|
  {
    if b == [] {
      assert a + b == a;
    } else {
      GatherAppend(f, a, b[..|b| - 1]);
      assert (a + b)[..|a + b| - 1] == a + b[..|b| - 1];
    }
  }

  lemma Swap<U>(x: multiset<U>, y: multiset<U>, z: multiset<U>)
    ensures (x + y) + z == (x + z) + y
  {
  }

  /** One element set apart from the others. */
  lemma GatherAt<T, U>(f: T -> multiset<U>, s: seq<T>, i: nat)
    requires i < |s|
    ensures Gather(f, s) == Gather(f, Without(s, i)) + f(s[i])
  {
    var before, after := s[..i], s[i + 1..];
    Between(s, i);
    GatherAppend(f, before + [s[i]], after);
    GatherPush(f, before, s[i]);
    GatherAppend(f, before, after);
    Swap(Gather(f, before), f(s[i]), Gather(f, after));
  }

  lemma Between<T>(s: seq<T>, i: nat)
    requires i < |s|
    ensures s == (s[..i] + [s[i]]) + s[i + 1..]
  {
  }

  lemma GatherUpdate<T, U>(f: T -> multiset<U>, s: seq<T>, i: nat, x: T)
    requires i < |s|
    ensures Gather(f, s[i := x]) == Gather(f, Without(s, i)) + f(x)
  {
    GatherAt(f, s[i := x], i);
    assert Without(s[i := x], i) == Without(s, i);
  }

  lemma GatherFirst<T, U>(f: T -> multiset<U>, s: seq<T>)
    requires s != []
    ensures Gather(f, s) == f(s[0]) + Gather(f, s[1..])
  {
    GatherAt(f, s, 0);
    assert Without(s, 0) == s[1..];
  }

  lemma QueuePush<T>(s: seq<T>, x: T)
    ensures multiset(s + [x]) == multiset(s) + multiset{x}
  {
  }

  lemma QueuePop<T>(s: seq<T>)
    requires s != []
    ensures multiset(s) == multiset{s[0]} + multiset(s[1..])
  {
    assert s == [s[0]] + s[1..];
  }
}
