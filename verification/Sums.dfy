/** Sums over sequences. */
module Sums {
  import opened Ordering

  function SumBy<T>(s: seq<T>, f: T -> int): int {
    if s == [] then 0 else SumBy(s[..|s| - 1], f) + f(s[|s| - 1])
  }

  lemma {:induction false} SumAppend<T>(a: seq<T>, b: seq<T>, f: T -> int)
    ensures SumBy(a + b, f) == SumBy(a, f) + SumBy(b, f)
  {
    if b == [] {
      assert a + b == a;
    } else {
      AppendInit(a, b);
      SumAppend(a, b[..|b| - 1], f);
    }
  }

  lemma {:induction false} SumPermutes<T>(a: seq<T>, b: seq<T>, f: T -> int)
    requires multiset(a) == multiset(b)
    ensures SumBy(a, f) == SumBy(b, f)
    decreases |a|
  {
    SameMembers(a, b);
    if a != [] {
      var p, x, q := TakeOut(a, b);
      SumPermutes(a[..|a| - 1], p + q, f);
      SumAppend(p, q, f);
      SumAppend(p, [x] + q, f);
      SumAppend([x], q, f);
      assert [x][..0] == [];
      assert SumBy([x], f) == f(x);
    }
  }

  lemma {:induction false} SumSplit<T>(s: seq<T>, f: T -> int, g: T -> int, h: T -> int)
    requires forall x :: x in s ==> h(x) == f(x) + g(x)
    ensures SumBy(s, h) == SumBy(s, f) + SumBy(s, g)
  {
    if s != [] {
      assert s[|s| - 1] in s;
      SumSplit(s[..|s| - 1], f, g, h);
    }
  }

  lemma {:induction false} SumScale<T>(s: seq<T>, f: T -> int, g: T -> int, k: int)
    requires forall x :: x in s ==> g(x) == k * f(x)
    ensures SumBy(s, g) == k * SumBy(s, f)
  {
    if s != [] {
      assert s[|s| - 1] in s;
      SumScale(s[..|s| - 1], f, g, k);
    }
  }

  lemma {:induction false} SumBound<T>(s: seq<T>, f: T -> int, low: int, high: int)
    requires forall x :: x in s ==> low <= f(x) <= high
    ensures low * |s| <= SumBy(s, f) <= high * |s|
  {
    if s != [] {
      assert s[|s| - 1] in s;
      SumBound(s[..|s| - 1], f, low, high);
      OneMore(low, |s|);
      OneMore(high, |s|);
    }
  }

  lemma OneMore(k: int, n: nat)
    requires n > 0
    ensures k * n == k * (n - 1) + k
  {
  }
}
