/** Counting ordered pairs of distinct teams: the pigeonhole behind every
    double round-robin check. */
module Pairs {
  import opened Ordering

  function OffDiagonal<T(==)>(s: set<T>): set<(T, T)> {
    set a, b | a in s && b in s && a != b :: (a, b)
  }

  lemma {:induction false} RowSize<T>(x: T, s: set<T>)
    ensures |set b | b in s :: (x, b)| == |s|
  {
    var row := set b | b in s :: (x, b);
    if s == {} {
      assert row == {};
    } else {
      var y :| y in s;
      RowSize(x, s - {y});
      assert row == (set b | b in s - {y} :: (x, b)) + {(x, y)};
    }
  }

  lemma {:induction false} ColumnSize<T>(x: T, s: set<T>)
    ensures |set a | a in s :: (a, x)| == |s|
  {
    var column := set a | a in s :: (a, x);
    if s == {} {
      assert column == {};
    } else {
      var y :| y in s;
      ColumnSize(x, s - {y});
      assert column == (set a | a in s - {y} :: (a, x)) + {(y, x)};
    }
  }

  lemma SplitOff<T>(x: T, s: set<T>)
    requires x in s
    ensures var rest := s - {x};
      var row, column := set b | b in rest :: (x, b), set a | a in rest :: (a, x);
      |OffDiagonal(s)| == |OffDiagonal(rest)| + |row| + |column|
  {
    var rest := s - {x};
    var row, column := set b | b in rest :: (x, b), set a | a in rest :: (a, x);
    assert OffDiagonal(s) == OffDiagonal(rest) + row + column;
    assert OffDiagonal(rest) !! row && (OffDiagonal(rest) + row) !! column;
  }

  lemma Square(n: int)
    ensures n * (n - 1) + n + n == (n + 1) * n
  {
  }

  /** n teams have n * (n - 1) ordered pairs. */
  lemma {:induction false} OffDiagonalSize<T>(s: set<T>)
    ensures |OffDiagonal(s)| == |s| * (|s| - 1)
  {
    if s == {} {
      assert OffDiagonal(s) == {};
    } else {
      var x :| x in s;
      var rest := s - {x};
      OffDiagonalSize(rest);
      RowSize(x, rest);
      ColumnSize(x, rest);
      SplitOff(x, s);
      Square(|rest|);
    }
  }

  /** A subset as large as the whole is the whole. */
  lemma {:induction false} FullSubset<T>(a: set<T>, b: set<T>)
    requires a <= b
    ensures |a| <= |b| && (|a| == |b| ==> a == b)
  {
    assert b == a + (b - a) && a !! (b - a);
  }

  /** Every ordered pair of distinct teams, each exactly once. */
  ghost predicate IsDoubleRoundRobin<T>(pairs: seq<(T, T)>, teams: set<T>) {
    Distinct(pairs) && (set p | p in pairs) == OffDiagonal(teams)
  }

  function CountWhere<T>(s: seq<T>, p: T -> bool): (n: nat)
    ensures n <= |s|
    ensures n == 0 <==> forall x :: x in s ==> !p(x)
  {
    if s == [] then 0
    else
      assert s == s[..|s| - 1] + [s[|s| - 1]];
      CountWhere(s[..|s| - 1], p) + if p(s[|s| - 1]) then 1 else 0
  }

  function Hosts<T(==)>(t: T): ((T, T)) -> bool { (p: (T, T)) => p.0 == t }

  function Visits<T(==)>(t: T): ((T, T)) -> bool { (p: (T, T)) => p.1 == t }

  function Select<T(==)>(s: seq<T>, p: T -> bool): set<T> { set x | x in s && p(x) }

  lemma SelectSnoc<T>(s: seq<T>, p: T -> bool)
    requires Distinct(s) && s != []
    ensures var init, last := s[..|s| - 1], s[|s| - 1];
      |Select(s, p)| == |Select(init, p)| + if p(last) then 1 else 0
  {
    var init, last := s[..|s| - 1], s[|s| - 1];
    assert last !in init;
    assert s == init + [last];
    if p(last) {
      assert Select(s, p) == Select(init, p) + {last};
    } else {
      assert Select(s, p) == Select(init, p);
    }
  }

  /** In a list without repeats, counting entries counts elements. */
  lemma {:induction false} CountDistinct<T>(s: seq<T>, p: T -> bool)
    requires Distinct(s)
    ensures CountWhere(s, p) == |Select(s, p)|
  {
    hide Select;
    if s == [] {
      SelectNone(p);
    } else {
      CountDistinct(s[..|s| - 1], p);
      SelectSnoc(s, p);
    }
  }

  lemma SelectNone<T>(p: T -> bool)
    ensures Select([], p) == {}
  {
  }

  /** In a double round robin every team hosts and visits every other team once. */
  lemma RoundRobinGames<T>(pairs: seq<(T, T)>, teams: set<T>, t: T)
    requires IsDoubleRoundRobin(pairs, teams) && t in teams
    ensures CountWhere(pairs, Hosts(t)) == CountWhere(pairs, Visits(t)) == |teams| - 1
  {
    hide CountWhere;
    CountDistinct(pairs, Hosts(t));
    CountDistinct(pairs, Visits(t));
    SelectedRows(pairs, teams, t);
    RowSize(t, teams - {t});
    ColumnSize(t, teams - {t});
  }

  lemma SelectedRows<T>(pairs: seq<(T, T)>, teams: set<T>, t: T)
    requires IsDoubleRoundRobin(pairs, teams) && t in teams
    ensures Select(pairs, Hosts(t)) == set b | b in teams - {t} :: (t, b)
    ensures Select(pairs, Visits(t)) == set a | a in teams - {t} :: (a, t)
  {
    forall p
      ensures p in pairs <==> p in OffDiagonal(teams)
    {
      assert p in pairs <==> p in set q | q in pairs;
    }
  }

  /** Reading off the distinct members of a list can only shrink it. */
  lemma {:induction false} MembersBound<T>(s: seq<T>)
    ensures |set x | x in s| <= |s|
    ensures |set x | x in s| == |s| ==> Distinct(s)
  {
    if s != [] {
      var init, last := s[..|s| - 1], s[|s| - 1];
      MembersBound(init);
      assert s == init + [last];
      assert (set x | x in s) == (set x | x in init) + {last};
    }
  }
}
