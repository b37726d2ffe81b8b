/** Option values and sums over sequences, shared by the other modules. */
module Common {
  datatype Option<+T> = None | Some(value: T)

  function Max(a: int, b: int): (m: int)
    ensures m >= a && m >= b && (m == a || m == b)
  {
    if a >= b then a else b
  }

  function Min(a: int, b: int): (m: int)
    ensures m <= a && m <= b && (m == a || m == b)
  {
    if a <= b then a else b
  }

  /** The sum of f over s. */
  function SumBy<T>(s: seq<T>, f: T -> int): int {
    if s == [] then 0 else SumBy(s[..|s| - 1], f) + f(s[|s| - 1])
  }

  lemma SumBySnoc<T>(s: seq<T>, x: T, f: T -> int)
    ensures SumBy(s + [x], f) == SumBy(s, f) + f(x)
  {
    assert (s + [x])[..|s|] == s;
  }

  lemma {:induction false} SumByConcat<T>(a: seq<T>, b: seq<T>, f: T -> int)
    ensures SumBy(a + b, f) == SumBy(a, f) + SumBy(b, f)
  {
    if b == [] {
      assert a + b == a;
    } else {
      var b' := b[..|b| - 1];
      SumByConcat(a, b', f);
      assert a + b == a + b' + [b[|b| - 1]];
      SumBySnoc(a + b', b[|b| - 1], f);
    }
  }

  lemma SumByStep<T>(s: seq<T>, i: nat, f: T -> int)
    requires i < |s|
    ensures SumBy(s[..i + 1], f) == SumBy(s[..i], f) + f(s[i])
  {
    assert s[..i + 1] == s[..i] + [s[i]];
    SumBySnoc(s[..i], s[i], f);
  }

  function Without<T>(s: seq<T>, k: nat): seq<T>
    requires k < |s|
  {
    s[..k] + s[k + 1..]
  }

  function Insert<T>(s: seq<T>, k: nat, x: T): (r: seq<T>)
    requires k <= |s|
    ensures |r| == |s| + 1
  {
    s[..k] + [x] + s[k..]
  }

  lemma InsertIntoBag<T>(s: seq<T>, k: nat, x: T)
    requires k <= |s|
    ensures multiset(Insert(s, k, x)) == multiset(s) + multiset{x}
  {
    assert s == s[..k] + s[k..];
    assert multiset(s) == multiset(s[..k]) + multiset(s[k..]);
  }

  /** Taking out one element lowers the sum by its value. */
  lemma SumByRemove<T>(s: seq<T>, k: nat, f: T -> int)
    requires k < |s|
    ensures SumBy(s, f) == SumBy(Without(s, k), f) + f(s[k])
  {
    var b := s[k + 1..];
    assert s == s[..k + 1] + b;
    SumByConcat(s[..k + 1], b, f);
    SumByStep(s, k, f);
    SumByConcat(s[..k], b, f);
  }

  lemma RemoveFromBag<T>(s: seq<T>, k: nat)
    requires k < |s|
    ensures multiset(Without(s, k)) == multiset(s) - multiset{s[k]}
  {
    assert s == s[..k] + [s[k]] + s[k + 1..];
    assert multiset(s) == multiset(s[..k]) + multiset{s[k]} + multiset(s[k + 1..]);
  }

  /** A sum depends only on which elements occur and how often. */
  lemma {:induction false} SumByPermutation<T>(a: seq<T>, b: seq<T>, f: T -> int)
    requires multiset(a) == multiset(b)
    ensures SumBy(a, f) == SumBy(b, f)
  {
    if a == [] {
      assert |multiset(b)| == 0;
    } else {
      var n := |a| - 1;
      assert a == a[..n] + [a[n]];
      assert a[n] in multiset(b);
      var k :| 0 <= k < |b| && b[k] == a[n];
      RemoveFromBag(b, k);
      assert multiset(a[..n]) == multiset(a) - multiset{a[n]};
      SumByRemove(b, k, f);
      SumByPermutation(a[..n], Without(b, k), f);
    }
  }

  /** Pointwise comparison carries over to the sums. */
  lemma {:induction false} SumByMonotone<T>(s: seq<T>, f: T -> int, g: T -> int)
    requires forall x <- s :: f(x) <= g(x)
    ensures SumBy(s, f) <= SumBy(s, g)
  {
    if s != [] {
      SumByMonotone(s[..|s| - 1], f, g);
    }
  }

  lemma {:induction false} SumByDifference<T>(s: seq<T>, f: T -> int, g: T -> int, h: T -> int)
    requires forall x <- s :: f(x) - g(x) == h(x)
    ensures SumBy(s, f) - SumBy(s, g) == SumBy(s, h)
  {
    if s != [] {
      SumByDifference(s[..|s| - 1], f, g, h);
    }
  }

  lemma {:induction false} SumByEqual<T>(s: seq<T>, f: T -> int, g: T -> int)
    requires forall x <- s :: f(x) == g(x)
    ensures SumBy(s, f) == SumBy(s, g)
  {
    if s != [] {
      SumByEqual(s[..|s| - 1], f, g);
    }
  }

  lemma {:induction false} SumByZero<T>(s: seq<T>, f: T -> int)
    requires forall x <- s :: f(x) == 0
    ensures SumBy(s, f) == 0
  {
    if s != [] {
      SumByZero(s[..|s| - 1], f);
    }
  }
}
