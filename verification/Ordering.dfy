/** Python tuple keys and the stable `sorted` built on them.

    A sort key is a tuple of integers that ends in a team name.  Written as one
    sequence of integers (the name as its code points), Python's tuple comparison
    is the lexicographic order below. */
module Ordering {

  type Key = seq<int>

  predicate KeyLe(a: Key, b: Key) {
    if a == [] then true
    else if b == [] then false
    else a[0] < b[0] || (a[0] == b[0] && KeyLe(a[1..], b[1..]))
  }

  lemma {:induction false} KeyLeReflexive(a: Key)
    ensures KeyLe(a, a)
  {
    if a != [] { KeyLeReflexive(a[1..]); }
  }

  lemma {:induction false} KeyLeTotal(a: Key, b: Key)
    ensures KeyLe(a, b) || KeyLe(b, a)
  {
    if a != [] && b != [] { KeyLeTotal(a[1..], b[1..]); }
  }

  lemma {:induction false} KeyLeTransitive(a: Key, b: Key, c: Key)
    requires KeyLe(a, b) && KeyLe(b, c)
    ensures KeyLe(a, c)
  {
    if a != [] && a[0] == b[0] == c[0] { KeyLeTransitive(a[1..], b[1..], c[1..]); }
  }

  lemma {:induction false} KeyLeAntisymmetric(a: Key, b: Key)
    requires KeyLe(a, b) && KeyLe(b, a)
    ensures a == b
  {
    if a != [] {
      KeyLeAntisymmetric(a[1..], b[1..]);
      assert a == [a[0]] + a[1..] && b == [b[0]] + b[1..];
    }
  }

  /** Comparing the first components decides the comparison unless they agree. */
  lemma KeyLeHead(a: Key, b: Key)
    requires a != [] && b != []
    ensures a[0] < b[0] ==> KeyLe(a, b)
    ensures KeyLe(a, b) ==> a[0] <= b[0]
  {
  }

  function NameKey(name: string): (k: Key)
    ensures |k| == |name|
  {
    seq(|name|, i requires 0 <= i < |name| => name[i] as int)
  }

  lemma NameKeyInjective(a: string, b: string)
    requires NameKey(a) == NameKey(b)
    ensures a == b
  {
    forall i | 0 <= i < |a|
      ensures a[i] == b[i]
    {
      assert NameKey(a)[i] == NameKey(b)[i];
    }
  }

  /** Dictionary order of code points: a stops where b goes on, or differs first below it. */
  predicate NameBefore(a: string, b: string) {
    a != b && (a <= b || exists k :: 0 <= k < |a| && k < |b| && a[..k] == b[..k] && a[k] < b[k])
  }

  /** The key order of names is their dictionary order. */
  lemma {:induction false} NameFirst(a: string, b: string)
    requires a != b && KeyLe(NameKey(a), NameKey(b))
    ensures NameBefore(a, b)
  {
    if a != [] {
      assert b != [];
      if a[0] == b[0] {
        assert NameKey(a)[1..] == NameKey(a[1..]) && NameKey(b)[1..] == NameKey(b[1..]);
        assert a == [a[0]] + a[1..] && b == [b[0]] + b[1..];
        NameFirst(a[1..], b[1..]);
        if !(a[1..] <= b[1..]) { NameLater(a, b); }
      } else {
        assert NameKey(a)[0] < NameKey(b)[0];
        assert a[..0] == b[..0] && a[0] < b[0];
      }
    }
  }

  lemma NameLater(a: string, b: string)
    requires a != [] && b != [] && a[0] == b[0] && NameBefore(a[1..], b[1..]) && !(a[1..] <= b[1..])
    ensures NameBefore(a, b)
  {
    var k :| 0 <= k < |a| - 1 && k < |b| - 1 && a[1..][..k] == b[1..][..k] && a[1..][k] < b[1..][k];
    assert a[..k + 1] == [a[0]] + a[1..][..k] && b[..k + 1] == [b[0]] + b[1..][..k];
    assert a[k + 1] < b[k + 1];
  }

  lemma {:induction false} NameFirstKey(a: string, b: string)
    requires NameBefore(a, b)
    ensures KeyLe(NameKey(a), NameKey(b)) && !KeyLe(NameKey(b), NameKey(a))
  {
    if KeyLe(NameKey(b), NameKey(a)) {
      NameFirst(b, a);
      NotBothBefore(a, b);
    } else {
      KeyLeTotal(NameKey(a), NameKey(b));
    }
  }

  lemma NotBothBefore(a: string, b: string)
    requires NameBefore(a, b)
    ensures !NameBefore(b, a)
  {
    if !(a <= b) {
      var k :| 0 <= k < |a| && k < |b| && a[..k] == b[..k] && a[k] < b[k];
      forall j | 0 <= j < |b| && j < |a| && b[..j] == a[..j] ensures b[j] >= a[j] {
        if j > k { SamePrefixAt(a, b, j, k); }
        if j < k { SamePrefixAt(a, b, k, j); }
      }
    }
  }

  lemma SamePrefixAt(a: string, b: string, j: nat, k: nat)
    requires k < j <= |a| && j <= |b| && a[..j] == b[..j]
    ensures a[k] == b[k]
  {
    assert a[..j][k] == b[..j][k];
  }

  /** A name closed by a separator below every code point: the name decides first, and equal
      names leave it to what follows. */
  lemma {:induction false} ClosedName(a: string, b: string, x: Key, y: Key)
    requires KeyLe(NameKey(a) + ([-1] + x), NameKey(b) + ([-1] + y))
    ensures NameBefore(a, b) || (a == b && KeyLe(x, y))
    decreases |a|
  {
    var p, q := NameKey(a) + ([-1] + x), NameKey(b) + ([-1] + y);
    if a == [] {
      if b == [] { assert p[1..] == x && q[1..] == y; }
    } else {
      assert p[0] == a[0] as int;
      assert q[0] == if b == [] then -1 else b[0] as int;
      if a[0] == b[0] {
        assert p[1..] == NameKey(a[1..]) + ([-1] + x) && q[1..] == NameKey(b[1..]) + ([-1] + y);
        assert a == [a[0]] + a[1..] && b == [b[0]] + b[1..];
        ClosedName(a[1..], b[1..], x, y);
        if NameBefore(a[1..], b[1..]) && !(a[1..] <= b[1..]) { NameLater(a, b); }
      } else {
        assert q[0] == b[0] as int;
        assert a[..0] == b[..0] && a[0] < b[0];
      }
    }
  }

  /** A numeric prefix of fixed length followed by a name determines the name. */
  lemma SuffixInjective(p: Key, q: Key, a: string, b: string)
    requires |p| == |q|
    requires p + NameKey(a) == q + NameKey(b)
    ensures a == b
  {
    assert NameKey(a) == (p + NameKey(a))[|p|..];
    assert NameKey(b) == (q + NameKey(b))[|q|..];
    NameKeyInjective(a, b);
  }

  ghost predicate SortedBy<T>(s: seq<T>, key: T -> Key) {
    forall i, j :: 0 <= i < j < |s| ==> KeyLe(key(s[i]), key(s[j]))
  }

  ghost predicate Distinct<T>(s: seq<T>) {
    forall i, j :: 0 <= i < j < |s| ==> s[i] != s[j]
  }

  /** Keys tell apart any two different elements of s. */
  ghost predicate KeysSeparate<T(!new)>(s: seq<T>, key: T -> Key) {
    forall x, y :: x in s && y in s && key(x) == key(y) ==> x == y
  }

  /** Insert x after every element whose key is at most its own. */
  function Insert<T>(s: seq<T>, x: T, key: T -> Key): (r: seq<T>)
    ensures multiset(r) == multiset(s) + multiset{x}
    ensures |r| == |s| + 1
  {
    if s == [] then [x]
    else if KeyLe(key(s[|s| - 1]), key(x)) then s + [x]
    else
      assert s == s[..|s| - 1] + [s[|s| - 1]];
      Insert(s[..|s| - 1], x, key) + [s[|s| - 1]]
  }

  lemma {:induction false} InsertSorted<T>(s: seq<T>, x: T, key: T -> Key)
    requires SortedBy(s, key)
    ensures SortedBy(Insert(s, x, key), key)
    decreases |s|
  {
    if s == [] {
    } else {
      var last := s[|s| - 1];
      var init := s[..|s| - 1];
      assert s == init + [last];
      if KeyLe(key(last), key(x)) {
        forall i | 0 <= i < |s|
          ensures KeyLe(key(s[i]), key(x))
        {
          if i < |s| - 1 { KeyLeTransitive(key(s[i]), key(last), key(x)); }
        }
      } else {
        KeyLeTotal(key(last), key(x));
        InsertSorted(init, x, key);
        var r := Insert(init, x, key);
        forall i | 0 <= i < |r|
          ensures KeyLe(key(r[i]), key(last))
        {
          assert r[i] in multiset(r);
          assert r[i] in init || r[i] == x;
        }
      }
    }
  }

  /** `sorted(s, key=key)`: a stable sort. */
  function SortBy<T>(s: seq<T>, key: T -> Key): (r: seq<T>)
    ensures multiset(r) == multiset(s)
    ensures |r| == |s|
    ensures SortedBy(r, key)
  {
    if s == [] then []
    else
      assert s == s[..|s| - 1] + [s[|s| - 1]];
      InsertSorted(SortBy(s[..|s| - 1], key), s[|s| - 1], key);
      Insert(SortBy(s[..|s| - 1], key), s[|s| - 1], key)
  }

  /** `sorted` for callers that need only what it promises. */
  method Sort<T>(s: seq<T>, key: T -> Key) returns (r: seq<T>)
    ensures multiset(r) == multiset(s) && |r| == |s|
    ensures forall x :: x in r <==> x in s
    ensures SortedBy(r, key)
  {
    r := SortBy(s, key);
    SameMembers(r, s);
  }

  lemma SameMembers<T>(a: seq<T>, b: seq<T>)
    requires multiset(a) == multiset(b)
    ensures |a| == |b|
    ensures forall x :: x in a <==> x in b
  {
    assert |multiset(a)| == |multiset(b)|;
    forall x ensures x in a <==> x in b {
      assert x in a <==> x in multiset(a);
      assert x in b <==> x in multiset(b);
    }
  }

  lemma RepeatCounts<T>(b: seq<T>, i: nat, j: nat)
    requires i < j < |b| && b[i] == b[j]
    ensures multiset(b)[b[i]] >= 2
  {
    assert b == b[..i] + [b[i]] + b[i + 1..j] + [b[j]] + b[j + 1..];
  }

  lemma DistinctMultiset<T>(a: seq<T>, b: seq<T>)
    requires multiset(a) == multiset(b) && Distinct(a)
    ensures Distinct(b)
  {
    DistinctCounts(a);
    SameMembers(a, b);
    forall i, j | 0 <= i < j < |b|
      ensures b[i] != b[j]
    {
      if b[i] == b[j] { RepeatCounts(b, i, j); }
    }
  }

  lemma {:induction false} DistinctCounts<T>(a: seq<T>)
    requires Distinct(a)
    ensures forall x :: x in a ==> multiset(a)[x] == 1
  {
    if a != [] {
      var n := |a| - 1;
      DistinctCounts(a[..n]);
      assert a == a[..n] + [a[n]];
      assert a[n] !in a[..n];
    }
  }

  lemma LastIsGreatest<T>(a: seq<T>, key: T -> Key, x: T)
    requires SortedBy(a, key) && x in a
    ensures KeyLe(key(x), key(a[|a| - 1]))
  {
    var i :| 0 <= i < |a| && a[i] == x;
    KeyLeReflexive(key(x));
  }

  /** Two sorted listings of the same elements agree when the keys separate them:
      the order is a function of the keys alone, not of the input order. */
  lemma {:induction false} SortUnique<T(!new)>(a: seq<T>, b: seq<T>, key: T -> Key)
    requires multiset(a) == multiset(b)
    requires SortedBy(a, key) && SortedBy(b, key)
    requires KeysSeparate(a, key) && KeysSeparate(b, key)
    ensures a == b
    decreases |a|
  {
    SameMembers(a, b);
    if a != [] {
      var n := |a| - 1;
      LastIsGreatest(a, key, b[n]);
      LastIsGreatest(b, key, a[n]);
      KeyLeAntisymmetric(key(a[n]), key(b[n]));
      InitMultiset(a);
      InitMultiset(b);
      InitOf(a, key);
      InitOf(b, key);
      SortUnique(a[..n], b[..n], key);
    }
  }

  lemma InitOf<T(!new)>(a: seq<T>, key: T -> Key)
    requires a != [] && SortedBy(a, key) && KeysSeparate(a, key)
    ensures SortedBy(a[..|a| - 1], key) && KeysSeparate(a[..|a| - 1], key)
  {
  }

  lemma InitMultiset<T>(a: seq<T>)
    requires a != []
    ensures a == a[..|a| - 1] + [a[|a| - 1]]
    ensures multiset(a[..|a| - 1]) == multiset(a) - multiset{a[|a| - 1]}
  {
    assert a == a[..|a| - 1] + [a[|a| - 1]];
  }

  lemma AppendInit<T>(a: seq<T>, b: seq<T>)
    requires b != []
    ensures var s := a + b; s != [] && s[..|s| - 1] == a + b[..|b| - 1] && s[|s| - 1] == b[|b| - 1]
  {
  }

  /** The last element of a taken out of b leaves the rest of a. */
  lemma TakeOut<T>(a: seq<T>, b: seq<T>) returns (p: seq<T>, x: T, q: seq<T>)
    requires multiset(a) == multiset(b) && a != []
    ensures b == p + ([x] + q) && x == a[|a| - 1]
    ensures multiset(a[..|a| - 1]) == multiset(p + q)
  {
    x := a[|a| - 1];
    InitMultiset(a);
    SameMembers(a, b);
    assert x in a;
    var j :| 0 <= j < |b| && b[j] == x;
    p, q := b[..j], b[j + 1..];
    assert b == p + ([x] + q);
    assert multiset(b) == multiset(p) + (multiset{x} + multiset(q));
    assert multiset(p + q) == multiset(p) + multiset(q);
  }

  /** The indices 0 .. n - 1. */
  function Range(n: nat): (r: seq<nat>)
    ensures |r| == n && forall i :: 0 <= i < n ==> r[i] == i
  {
    seq(n, i requires 0 <= i < n => i)
  }

  /** A rearrangement of 0 .. n - 1 lists every index once. */
  lemma PermutationOfRange(order: seq<nat>, n: nat)
    requires multiset(order) == multiset(Range(n))
    ensures |order| == n && Distinct(order)
    ensures forall i :: i in order <==> 0 <= i < n
  {
    SameMembers(order, Range(n));
    DistinctMultiset(Range(n), order);
    forall i | 0 <= i < n ensures i in order {
      assert Range(n)[i] in Range(n);
    }
  }

  lemma {:induction false} DistinctSize<T>(s: seq<T>)
    requires Distinct(s)
    ensures |set x | x in s| == |s|
  {
    if s != [] {
      var n := |s| - 1;
      DistinctSize(s[..n]);
      assert s == s[..n] + [s[n]];
      assert (set x | x in s) == (set x | x in s[..n]) + {s[n]};
      assert s[n] !in s[..n];
    }
  }

  // ---------------------------------------------------------------------
  // Grouping by an integer level, highest level first
  // ---------------------------------------------------------------------

  /** The elements on level p, in their original order. */
  function AtLevel<T>(s: seq<T>, level: T -> int, p: int): seq<T> {
    if s == [] then []
    else AtLevel(s[..|s| - 1], level, p) + if level(s[|s| - 1]) == p then [s[|s| - 1]] else []
  }

  lemma {:induction false} AtLevelMembers<T>(s: seq<T>, level: T -> int, p: int)
    ensures forall x :: x in AtLevel(s, level, p) <==> x in s && level(x) == p
    ensures Distinct(s) ==> Distinct(AtLevel(s, level, p))
  {
    if s != [] {
      var n := |s| - 1;
      AtLevelMembers(s[..n], level, p);
      assert s == s[..n] + [s[n]];
      if Distinct(s) { assert s[n] !in s[..n]; }
    }
  }

  lemma NoneAtLevel<T>(level: T -> int)
    ensures forall p :: AtLevel([], level, p) == []
  {
  }

  lemma AtLevelSnoc<T>(s: seq<T>, level: T -> int, i: nat)
    requires i < |s|
    ensures forall p :: (AtLevel(s[..i + 1], level, p) ==
                         AtLevel(s[..i], level, p) + if level(s[i]) == p then [s[i]] else [])
  {
    assert s[..i + 1][..i] == s[..i];
  }

  lemma NothingRepeats<T>()
    ensures Distinct<T>([])
  {
  }

  lemma DistinctMore<T>(s: seq<T>, x: T)
    requires Distinct(s) && x !in s
    ensures Distinct(s + [x])
  {
  }

  /** `groups.setdefault(level(x), []).append(x)` for every x, with the levels in
      first-seen order. */
  method GroupBy<T>(s: seq<T>, level: T -> int) returns (groups: map<int, seq<T>>, levels: seq<int>)
    ensures Distinct(levels) && forall p :: p in groups <==> p in levels
    ensures forall p :: p in groups ==> groups[p] == AtLevel(s, level, p)
    ensures forall x :: x in s ==> level(x) in levels
  {
    hide AtLevel, Distinct;
    groups, levels := map[], [];
    assert Distinct(levels) by { NothingRepeats<int>(); }
    NoneAtLevel(level);
    for i := 0 to |s|
      invariant Distinct(levels) && forall p :: p in groups <==> p in levels
      invariant forall p :: p in groups ==> groups[p] == AtLevel(s[..i], level, p)
      invariant forall p :: p !in groups ==> AtLevel(s[..i], level, p) == []
      invariant forall j :: 0 <= j < i ==> level(s[j]) in levels
    {
      var p := level(s[i]);
      AtLevelSnoc(s, level, i);
      if p !in groups {
        groups := groups[p := []];
        DistinctMore(levels, p);
        levels := levels + [p];
      }
      groups := groups[p := groups[p] + [s[i]]];
    }
    assert s[..|s|] == s;
  }

  /** `sorted(points, reverse=True)` */
  function Descending(): int -> Key { (p: int) => [-p] }

  lemma DescendingLevels(levels: seq<int>, order: seq<int>)
    requires Distinct(levels) && multiset(order) == multiset(levels) && SortedBy(order, Descending())
    ensures forall i, j :: 0 <= i < j < |order| ==> order[i] > order[j]
  {
    DistinctMultiset(levels, order);
    forall i, j | 0 <= i < j < |order|
      ensures order[i] > order[j]
    {
      KeyLeHead(Descending()(order[i]), Descending()(order[j]));
    }
  }
}
