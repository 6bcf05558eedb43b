/** Sums over sequences, and how one changed or appended element changes them. */
module Sums {

  function ISum<T>(s: seq<T>, f: T -> int): int {
    if s == [] then 0 else ISum(s[..|s| - 1], f) + f(s[|s| - 1])
  }

  // How often `x` occurs in `s`.
  function Count<T(==)>(s: seq<T>, x: T): nat {
    if s == [] then 0 else Count(s[..|s| - 1], x) + if s[|s| - 1] == x then 1 else 0
  }

  function Map<T, U>(s: seq<T>, f: T -> U): (r: seq<U>)
    ensures |r| == |s| && forall i :: 0 <= i < |s| ==> r[i] == f(s[i])
  {
    seq(|s|, i requires 0 <= i < |s| => f(s[i]))
  }

  lemma MapConcat<T, U>(a: seq<T>, b: seq<T>, f: T -> U)
    ensures Map(a + b, f) == Map(a, f) + Map(b, f)
  {
  }

  lemma ISumAppend<T>(s: seq<T>, x: T, f: T -> int)
    ensures ISum(s + [x], f) == ISum(s, f) + f(x)
  {
    assert (s + [x])[..|s|] == s;
  }

  lemma CountAppend<T>(s: seq<T>, x: T, y: T)
    ensures Count(s + [x], y) == Count(s, y) + if x == y then 1 else 0
  {
    assert (s + [x])[..|s|] == s;
  }

  lemma {:induction false} CountConcat<T>(s: seq<T>, t: seq<T>, y: T)
    ensures Count(s + t, y) == Count(s, y) + Count(t, y)
  {
    if t == [] {
      assert s + t == s;
    } else {
      var n := |t| - 1;
      assert (s + t)[..|s| + n] == s + t[..n];
      CountConcat(s, t[..n], y);
    }
  }

  lemma CountTail<T>(s: seq<T>, y: T)
    requires s != []
    ensures Count(s, y) == Count(s[1..], y) + if s[0] == y then 1 else 0
  {
    assert s == [s[0]] + s[1..];
    CountConcat([s[0]], s[1..], y);
    assert [s[0]][..0] == [];
  }

  lemma {:induction false} CountIsMultiplicity<T>(s: seq<T>, y: T)
    ensures multiset(s)[y] == Count(s, y)
  {
    if s != [] {
      assert s == s[..|s| - 1] + [s[|s| - 1]];
      CountIsMultiplicity(s[..|s| - 1], y);
    }
  }

  lemma SameMultiset<T>(s: seq<T>, t: seq<T>)
    requires forall y :: Count(s, y) == Count(t, y)
    ensures multiset(s) == multiset(t)
  {
    forall y ensures multiset(s)[y] == multiset(t)[y] {
      CountIsMultiplicity(s, y);
      CountIsMultiplicity(t, y);
    }
  }

  lemma {:induction false} ISumUpdate<T>(s: seq<T>, i: nat, x: T, f: T -> int)
    requires i < |s|
    ensures ISum(s[i := x], f) + f(s[i]) == ISum(s, f) + f(x)
  {
    var n := |s| - 1;
    if i == n {
      assert s[i := x][..n] == s[..n];
    } else {
      assert s[i := x][..n] == s[..n][i := x];
      ISumUpdate(s[..n], i, x, f);
    }
  }

  lemma {:induction false} ISumZero<T>(s: seq<T>, f: T -> int)
    requires forall x :: x in s ==> f(x) == 0
    ensures ISum(s, f) == 0
  {
    if s != [] { ISumZero(s[..|s| - 1], f); }
  }

  lemma {:induction false} ISumNonNegative<T>(s: seq<T>, f: T -> int)
    requires forall x :: x in s ==> f(x) >= 0
    ensures ISum(s, f) >= 0
    ensures forall i :: 0 <= i < |s| ==> f(s[i]) <= ISum(s, f)
  {
    if s != [] { ISumNonNegative(s[..|s| - 1], f); }
  }

  lemma {:induction false} ISumEqual<T>(s: seq<T>, f: T -> int, g: T -> int)
    requires forall x :: x in s ==> f(x) == g(x)
    ensures ISum(s, f) == ISum(s, g)
  {
    if s != [] { ISumEqual(s[..|s| - 1], f, g); }
  }

  lemma {:induction false} ISumAdd<T>(s: seq<T>, f: T -> int, g: T -> int, h: T -> int)
    requires forall x :: x in s ==> h(x) == f(x) + g(x)
    ensures ISum(s, h) == ISum(s, f) + ISum(s, g)
  {
    if s != [] { ISumAdd(s[..|s| - 1], f, g, h); }
  }

  // ---------------------------------------------------------------- concatenation

  function Flat<T, R>(s: seq<T>, f: T -> seq<R>): seq<R> {
    if s == [] then [] else Flat(s[..|s| - 1], f) + f(s[|s| - 1])
  }

  lemma {:induction false} CountFlat<T, R>(s: seq<T>, f: T -> seq<R>, g: T -> int, r: R)
    requires forall x :: x in s ==> g(x) == Count(f(x), r)
    ensures Count(Flat(s, f), r) == ISum(s, g)
  {
    if s != [] {
      CountFlat(s[..|s| - 1], f, g, r);
      CountConcat(Flat(s[..|s| - 1], f), f(s[|s| - 1]), r);
    }
  }

  lemma {:induction false} FlatEmpty<T, R>(s: seq<T>, f: T -> seq<R>)
    requires forall x :: x in s ==> f(x) == []
    ensures Flat(s, f) == []
  {
    if s != [] { FlatEmpty(s[..|s| - 1], f); }
  }

  lemma {:induction false} FlatMap<T, R, U>(s: seq<T>, f: T -> seq<R>, h: R -> U, g: T -> seq<U>)
    requires forall x :: x in s ==> g(x) == Map(f(x), h)
    ensures Map(Flat(s, f), h) == Flat(s, g)
  {
    if s != [] {
      var front, last := Flat(s[..|s| - 1], f), f(s[|s| - 1]);
      FlatMap(s[..|s| - 1], f, h, g);
      assert Map(front + last, h) == Map(front, h) + Map(last, h);
    }
  }

  lemma CountRemove<T>(s: seq<T>, j: nat, y: T)
    requires j < |s|
    ensures Count(s[..j] + s[j + 1..], y) + (if s[j] == y then 1 else 0) == Count(s, y)
  {
    assert s == s[..j] + s[j..];
    CountConcat(s[..j], s[j..], y);
    CountTail(s[j..], y);
    assert s[j..][1..] == s[j + 1..];
    CountConcat(s[..j], s[j + 1..], y);
  }

  lemma {:induction false} CountMapEqual<T, U>(a: seq<T>, b: seq<T>, f: T -> U, u: U)
    requires multiset(a) == multiset(b)
    ensures Count(Map(a, f), u) == Count(Map(b, f), u)
    decreases |a|
  {
    if a == [] {
      assert |multiset(b)| == 0;
    } else {
      var x := a[0];
      assert x in multiset(b);
      var j :| 0 <= j < |b| && b[j] == x;
      var rest := b[..j] + b[j + 1..];
      forall y ensures Count(a[1..], y) == Count(rest, y) {
        CountTail(a, y);
        CountRemove(b, j, y);
        CountIsMultiplicity(a, y);
        CountIsMultiplicity(b, y);
      }
      SameMultiset(a[1..], rest);
      CountMapEqual(a[1..], rest, f, u);
      CountTail(Map(a, f), u);
      assert Map(a, f)[1..] == Map(a[1..], f);
      CountRemove(Map(b, f), j, u);
      assert Map(b, f)[..j] + Map(b, f)[j + 1..] == Map(rest, f);
    }
  }

  lemma {:induction false} CountMap<T, R>(s: seq<T>, f: T -> R, g: T -> int, r: R)
    requires forall x :: x in s ==> g(x) == if f(x) == r then 1 else 0
    ensures Count(Map(s, f), r) == ISum(s, g)
  {
    if s != [] {
      var n := |s| - 1;
      CountMap(s[..n], f, g, r);
      assert Map(s, f)[..n] == Map(s[..n], f);
    }
  }

  // Applying a function to every element respects multiset equality.
  lemma MapKeepsMultiset<T, U>(a: seq<T>, b: seq<T>, f: T -> U)
    requires multiset(a) == multiset(b)
    ensures multiset(Map(a, f)) == multiset(Map(b, f))
  {
    forall u ensures Count(Map(a, f), u) == Count(Map(b, f), u) { CountMapEqual(a, b, f, u); }
    SameMultiset(Map(a, f), Map(b, f));
  }

  // ---------------------------------------------------------------- subsequences

  predicate Within<T(==)>(xs: seq<T>, ys: seq<T>) {
    xs == []
    || (ys != [] && (Within(xs, ys[..|ys| - 1])
                     || (xs[|xs| - 1] == ys[|ys| - 1] && Within(xs[..|xs| - 1], ys[..|ys| - 1]))))
  }

  lemma WithinMore<T>(xs: seq<T>, ys: seq<T>, y: T)
    requires Within(xs, ys)
    ensures Within(xs, ys + [y])
  {
    assert (ys + [y])[..|ys|] == ys;
  }

  lemma WithinBoth<T>(xs: seq<T>, ys: seq<T>, y: T)
    requires Within(xs, ys)
    ensures Within(xs + [y], ys + [y])
  {
    assert (ys + [y])[..|ys|] == ys && (xs + [y])[..|xs|] == xs;
  }
}
