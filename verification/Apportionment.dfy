/** Simulation counts shown as tenths of a percent by the largest-remainder rule. */
module Apportionment {
  import opened Ordering
  import opened Sums

  /** Whole tenths of a percent in `count` of `iterations` runs. */
  function Floor(count: nat, iterations: nat): nat
    requires iterations > 0
  {
    count * 1000 / iterations
  }

  /** The remainder, in units of 1 / iterations. */
  function Remainder(count: nat, iterations: nat): nat
    requires iterations > 0
  {
    count * 1000 % iterations
  }

  function CountAt(counts: seq<nat>): nat -> int { (i: nat) => if i < |counts| then counts[i] else 0 }

  function UnitAt(units: seq<int>): nat -> int { (i: nat) => if i < |units| then units[i] else 0 }

  function FloorAt(counts: seq<nat>, iterations: nat): nat -> int
    requires iterations > 0
  {
    (i: nat) => if i < |counts| then Floor(counts[i], iterations) else 0
  }

  function RemainderAt(counts: seq<nat>, iterations: nat): nat -> int
    requires iterations > 0
  {
    (i: nat) => if i < |counts| then Remainder(counts[i], iterations) else 0
  }

  /** `(-(exact - floor), name)` */
  function RemainderKey(counts: seq<nat>, iterations: nat, teams: seq<string>): nat -> Key
    requires iterations > 0
  {
    (i: nat) => [-RemainderAt(counts, iterations)(i)] + (if i < |teams| then NameKey(teams[i]) else [])
  }

  function Total(s: seq<int>): int { SumBy(Range(|s|), UnitAt(s)) }

  lemma DivMod(c: nat, k: nat)
    requires k > 0
    ensures 1000 * c == k * Floor(c, k) + Remainder(c, k)
    ensures 0 <= Remainder(c, k) < k
  {
  }

  /** The remainders add up to a whole number of units per run: exactly those left over. */
  lemma RemaindersFill(counts: seq<nat>, iterations: nat, slots: nat)
    requires iterations > 0
    requires SumBy(Range(|counts|), CountAt(counts)) == slots * iterations
    ensures var r := Range(|counts|);
      SumBy(r, RemainderAt(counts, iterations)) ==
      iterations * (slots * 1000 - SumBy(r, FloorAt(counts, iterations)))
  {
    var r := Range(|counts|);
    var c, f, m := CountAt(counts), FloorAt(counts, iterations), RemainderAt(counts, iterations);
    var scaled := (i: nat) => 1000 * c(i);
    var whole := (i: nat) => iterations * f(i);
    forall i | i in r
      ensures scaled(i) == whole(i) + m(i)
    {
      DivMod(counts[i], iterations);
    }
    SumScale(r, c, scaled, 1000);
    SumScale(r, f, whole, iterations);
    SumSplit(r, whole, m, scaled);
    var fs := SumBy(r, f);
    assert 1000 * (slots * iterations) == iterations * fs + SumBy(r, m);
    Factor(iterations, slots, fs);
  }

  lemma Factor(k: int, slots: int, f: int)
    ensures 1000 * (slots * k) - k * f == k * (slots * 1000 - f)
  {
    assert k * (slots * 1000 - f) == k * (slots * 1000) - k * f;
  }

  /** While units are left over, the next team in remainder order has one. */
  lemma PositiveRemainder(counts: seq<nat>, iterations: nat, teams: seq<string>, order: seq<nat>, k: nat, left: int)
    requires iterations > 0 && k < |order| && k < left
    requires multiset(order) == multiset(Range(|counts|))
    requires SortedBy(order, RemainderKey(counts, iterations, teams))
    requires SumBy(order, RemainderAt(counts, iterations)) == iterations * left
    ensures RemainderAt(counts, iterations)(order[k]) > 0
  {
    hide SumBy, SortedBy, Floor, Remainder, RemainderKey;
    var m := RemainderAt(counts, iterations);
    PermutationOfRange(order, |counts|);
    if m(order[k]) == 0 {
      assert order == order[..k] + order[k..];
      SumAppend(order[..k], order[k..], m);
      forall i | 0 <= i < |order| ensures order[i] < |counts| { assert order[i] in order; }
      FrontAtMost(counts, iterations, order, k);
      BackIsZero(counts, iterations, teams, order, k);
      Strictly(k, left, iterations);
    }
  }

  lemma FrontAtMost(counts: seq<nat>, iterations: nat, order: seq<nat>, k: nat)
    requires iterations > 0 && k <= |order| && forall i :: 0 <= i < |order| ==> order[i] < |counts|
    ensures SumBy(order[..k], RemainderAt(counts, iterations)) <= (iterations - 1) * k
  {
    hide SumBy, Floor, Remainder;
    var m := RemainderAt(counts, iterations);
    forall i | i in order[..k] ensures 0 <= m(i) <= iterations - 1 {
      assert i in order;
      DivMod(counts[i], iterations);
    }
    SumBound(order[..k], m, 0, iterations - 1);
  }

  lemma BackIsZero(counts: seq<nat>, iterations: nat, teams: seq<string>, order: seq<nat>, k: nat)
    requires iterations > 0 && k < |order| && forall i :: 0 <= i < |order| ==> order[i] < |counts|
    requires SortedBy(order, RemainderKey(counts, iterations, teams))
    requires RemainderAt(counts, iterations)(order[k]) == 0
    ensures SumBy(order[k..], RemainderAt(counts, iterations)) == 0
  {
    hide SumBy, SortedBy, Floor, Remainder;
    var m, back := RemainderAt(counts, iterations), order[k..];
    forall i | i in back ensures 0 <= m(i) <= 0 {
      var j :| 0 <= j < |back| && back[j] == i;
      LaterIsSmaller(counts, iterations, teams, order, k, k + j);
    }
    SumBound(back, m, 0, 0);
  }

  lemma LaterIsSmaller(counts: seq<nat>, iterations: nat, teams: seq<string>, order: seq<nat>, j: nat, k: nat)
    requires iterations > 0 && j <= k < |order|
    requires SortedBy(order, RemainderKey(counts, iterations, teams))
    ensures RemainderAt(counts, iterations)(order[j]) >= RemainderAt(counts, iterations)(order[k])
  {
    if j < k {
      var key := RemainderKey(counts, iterations, teams);
      assert KeyLe(key(order[j]), key(order[k]));
      KeyLeHead(key(order[j]), key(order[k]));
    }
  }

  lemma Strictly(k: int, left: int, iterations: int)
    requires 0 <= k < left && iterations > 0
    ensures (iterations - 1) * k < iterations * left
  {
    assert iterations * k <= iterations * left;
    assert (iterations - 1) * k == iterations * k - k;
    if k == 0 { assert iterations * left > 0; }
  }

  function Bonus(order: seq<nat>): nat -> int {
    (i: nat) => if i in order then 1 else 0
  }

  lemma {:induction false} BonusTotal(order: seq<nat>, left: nat)
    requires Distinct(order) && left <= |order|
    ensures SumBy(order, Bonus(order[..left])) == left
  {
    var b := Bonus(order[..left]);
    var front, back := order[..left], order[left..];
    assert order == front + back;
    SumAppend(front, back, b);
    SumBound(front, b, 1, 1);
    forall i | i in back ensures 0 <= b(i) <= 0 {
      var j :| 0 <= j < |back| && back[j] == i;
      assert order[left + j] == i;
    }
    SumBound(back, b, 0, 0);
  }

  /** Team i comes before team j in the queue for units left over: a larger remainder, or the
      same remainder and an earlier name. */
  ghost predicate Precedes(counts: seq<nat>, iterations: nat, teams: seq<string>, i: nat, j: nat)
    requires iterations > 0 && |teams| == |counts| && i < |counts| && j < |counts|
  {
    var a, b := Remainder(counts[i], iterations), Remainder(counts[j], iterations);
    a > b || (a == b && NameBefore(teams[i], teams[j]))
  }

  /** What the display promises about the counts. */
  ghost predicate IsApportionment(units: seq<int>, counts: seq<nat>, iterations: nat, slots: nat, teams: seq<string>)
    requires iterations > 0 && |teams| == |counts|
  {
    && |units| == |counts|
    && Total(units) == slots * 1000
    && (forall i :: 0 <= i < |counts| ==> Floor(counts[i], iterations) <= units[i] <= Floor(counts[i], iterations) + 1)
    && (forall i :: 0 <= i < |counts| && Remainder(counts[i], iterations) == 0 ==>
      units[i] == Floor(counts[i], iterations))
    && (forall i, j :: 0 <= i < |counts| && 0 <= j < |counts| && counts[i] > counts[j] ==> units[i] >= units[j])
    && (forall i, j :: 0 <= i < |counts| && 0 <= j < |counts| && Precedes(counts, iterations, teams, i, j)
                       && units[j] == Floor(counts[j], iterations) + 1
                       ==> units[i] == Floor(counts[i], iterations) + 1)
  }

  method LargestRemainderPercent(counts: seq<nat>, iterations: nat, slots: nat, teams: seq<string>)
    returns (units: seq<int>)
    requires iterations > 0 && |teams| == |counts|
    requires SumBy(Range(|counts|), CountAt(counts)) == slots * iterations
    ensures IsApportionment(units, counts, iterations, slots, teams)
  {
    hide SumBy, SortedBy, Floor, Remainder;
    var n := |counts|;
    var cells := new int[n](i requires 0 <= i < n => Floor(counts[i], iterations));
    var left := slots * 1000 - SumBy(Range(n), FloorAt(counts, iterations));
    var order := Sort(Range(n), RemainderKey(counts, iterations, teams));
    LeftFits(counts, iterations, slots, teams, order, left);
    for k := 0 to left
      invariant forall i :: 0 <= i < n ==>
        cells[i] == Floor(counts[i], iterations) + if i in order[..k] then 1 else 0
    {
      PermutationOfRange(order, n);
      assert order[k] in order && order[k] !in order[..k];
      assert order[..k + 1] == order[..k] + [order[k]];
      cells[order[k]] := cells[order[k]] + 1;
    }
    units := cells[..];
    Finished(counts, iterations, slots, teams, order, left, units);
  }

  /** There are enough teams with a remainder for the units left over. */
  lemma LeftFits(counts: seq<nat>, iterations: nat, slots: nat, teams: seq<string>, order: seq<nat>, left: int)
    requires iterations > 0 && |teams| == |counts|
    requires SumBy(Range(|counts|), CountAt(counts)) == slots * iterations
    requires left == slots * 1000 - SumBy(Range(|counts|), FloorAt(counts, iterations))
    requires multiset(order) == multiset(Range(|counts|))
    requires SortedBy(order, RemainderKey(counts, iterations, teams))
    ensures SumBy(order, RemainderAt(counts, iterations)) == iterations * left
    ensures 0 <= left <= |order|
  {
    hide SumBy, SortedBy, Floor, Remainder;
    var m := RemainderAt(counts, iterations);
    RemaindersFill(counts, iterations, slots);
    SumPermutes(order, Range(|counts|), m);
    PermutationOfRange(order, |counts|);
    forall i | i in order ensures 0 <= m(i) <= iterations {
      DivMod(counts[i], iterations);
    }
    SumBound(order, m, 0, iterations);
    Cancel(iterations, left, |order|);
  }

  lemma Cancel(k: int, a: int, b: int)
    requires k > 0 && 0 <= k * a <= k * b
    ensures 0 <= a <= b
  {
    if a < 0 { Scaled(k, a, -1); }
    if b < a { Scaled(k, b + 1, a); }
  }

  lemma Scaled(k: int, a: int, b: int)
    requires k >= 0 && a <= b
    ensures k * a <= k * b
    ensures k * (a - 1) == k * a - k && k * -1 == -k
  {
  }

  lemma Finished(counts: seq<nat>, iterations: nat, slots: nat, teams: seq<string>, order: seq<nat>, left: int,
                 units: seq<int>)
    requires iterations > 0 && |teams| == |counts| == |units|
    requires multiset(order) == multiset(Range(|counts|))
    requires SortedBy(order, RemainderKey(counts, iterations, teams))
    requires 0 <= left <= |order|
    requires left == slots * 1000 - SumBy(Range(|counts|), FloorAt(counts, iterations))
    requires SumBy(order, RemainderAt(counts, iterations)) == iterations * left
    requires forall i :: 0 <= i < |counts| ==>
      units[i] == Floor(counts[i], iterations) + if i in order[..left] then 1 else 0
    ensures IsApportionment(units, counts, iterations, slots, teams)
  {
    hide SumBy, SortedBy, Floor, Remainder;
    PermutationOfRange(order, |counts|);
    UnitsTotal(counts, iterations, order, left, units);
    forall i | 0 <= i < |counts| && Remainder(counts[i], iterations) == 0
      ensures units[i] == Floor(counts[i], iterations)
    {
      if i in order[..left] {
        var k :| 0 <= k < left && order[k] == i;
        PositiveRemainder(counts, iterations, teams, order, k, left);
      }
    }
    forall i, j | 0 <= i < |counts| && 0 <= j < |counts| && counts[i] > counts[j]
      ensures units[i] >= units[j]
    {
      Monotone(counts, iterations, teams, order, left, i, j);
    }
    forall i, j | 0 <= i < |counts| && 0 <= j < |counts| && Precedes(counts, iterations, teams, i, j)
                  && units[j] == Floor(counts[j], iterations) + 1
      ensures units[i] == Floor(counts[i], iterations) + 1
    {
      ServedFirst(counts, iterations, teams, order, left, i, j);
    }
  }

  /** Whoever comes before a team that is served is served as well. */
  lemma ServedFirst(counts: seq<nat>, iterations: nat, teams: seq<string>, order: seq<nat>, left: nat, i: nat, j: nat)
    requires iterations > 0 && |teams| == |counts| && left <= |order|
    requires multiset(order) == multiset(Range(|counts|))
    requires SortedBy(order, RemainderKey(counts, iterations, teams))
    requires i < |counts| && j < |counts| && Precedes(counts, iterations, teams, i, j) && j in order[..left]
    ensures i in order[..left]
  {
    hide Remainder, NameBefore, NameKey;
    PermutationOfRange(order, |counts|);
    var k :| 0 <= k < left && order[k] == j;
    assert i in order;
    var h :| 0 <= h < |order| && order[h] == i;
    PrecedesKey(counts, iterations, teams, i, j);
    assert order[..left][h] == i;
  }

  lemma PrecedesKey(counts: seq<nat>, iterations: nat, teams: seq<string>, i: nat, j: nat)
    requires iterations > 0 && |teams| == |counts| && i < |counts| && j < |counts|
    requires Precedes(counts, iterations, teams, i, j)
    ensures !KeyLe(RemainderKey(counts, iterations, teams)(j), RemainderKey(counts, iterations, teams)(i))
  {
    hide Remainder, NameKey;
    var a, b := Remainder(counts[i], iterations), Remainder(counts[j], iterations);
    var x, y := [-a] + NameKey(teams[i]), [-b] + NameKey(teams[j]);
    assert RemainderAt(counts, iterations)(i) == a && RemainderAt(counts, iterations)(j) == b;
    assert RemainderKey(counts, iterations, teams)(i) == x && RemainderKey(counts, iterations, teams)(j) == y;
    assert x[1..] == NameKey(teams[i]) && y[1..] == NameKey(teams[j]);
    if a == b { NameFirstKey(teams[i], teams[j]); }
  }

  lemma UnitsTotal(counts: seq<nat>, iterations: nat, order: seq<nat>, left: nat, units: seq<int>)
    requires iterations > 0 && |counts| == |units| && left <= |order|
    requires multiset(order) == multiset(Range(|counts|)) && Distinct(order)
    requires forall i :: 0 <= i < |counts| ==>
      units[i] == Floor(counts[i], iterations) + if i in order[..left] then 1 else 0
    ensures Total(units) == SumBy(Range(|counts|), FloorAt(counts, iterations)) + left
  {
    var r := Range(|counts|);
    var b := Bonus(order[..left]);
    SumSplit(r, FloorAt(counts, iterations), b, UnitAt(units));
    SumPermutes(r, order, b);
    BonusTotal(order, left);
  }

  /** A larger count never shows a smaller percentage. */
  lemma Monotone(counts: seq<nat>, iterations: nat, teams: seq<string>, order: seq<nat>, left: int, i: nat, j: nat)
    requires iterations > 0 && |teams| == |counts|
    requires multiset(order) == multiset(Range(|counts|))
    requires SortedBy(order, RemainderKey(counts, iterations, teams))
    requires 0 <= left <= |order|
    requires i < |counts| && j < |counts| && counts[i] > counts[j]
    ensures Floor(counts[i], iterations) + (if i in order[..left] then 1 else 0)
            >= Floor(counts[j], iterations) + (if j in order[..left] then 1 else 0)
  {
    PermutationOfRange(order, |counts|);
    DivMod(counts[i], iterations);
    DivMod(counts[j], iterations);
    FloorOrder(iterations, Floor(counts[i], iterations), Remainder(counts[i], iterations),
               Floor(counts[j], iterations), Remainder(counts[j], iterations));
    if Floor(counts[i], iterations) == Floor(counts[j], iterations) && j in order[..left] {
      var k :| 0 <= k < left && order[k] == j;
      assert i in order;
      var h :| 0 <= h < |order| && order[h] == i;
      if h > k { LaterIsSmaller(counts, iterations, teams, order, k, h); }
      assert order[..left][h] == i;
    }
  }

  lemma FloorOrder(k: int, qa: int, ra: int, qb: int, rb: int)
    requires k > 0 && 0 <= ra < k && 0 <= rb < k && k * qa + ra > k * qb + rb
    ensures qa > qb || (qa == qb && ra > rb)
  {
    if qa < qb { Scaled(k, qa + 1, qb); }
  }
}
