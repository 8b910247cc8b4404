/** Total-goals figures read off the stored grid, and how far they can be from the
    full-resolution distribution. */
module DerivedMarkets {
  import opened Prelude
  import opened Rounding
  import opened ScoreGrid

  /** The bands 0 .. t together. */
  function BandSum(bands: seq<int>, t: nat): int
    requires t <= |bands|
  {
    if t == 0 then 0 else BandSum(bands, t - 1) + bands[t - 1]
  }

  ghost predicate AreBands(bands: seq<int>, plus: int, s: Stored)
    requires WellFormed(s)
  {
    var k := s.maxGoals + 1;
    && |bands| == k
    && (forall t :: 0 <= t < k ==> bands[t] == Units(s.grid, Total(t), k, k))
    && plus == s.tail.probability + Units(s.grid, Beyond(s.maxGoals), k, k)
  }

  /** `total_goals_bands`; the last bucket is everything above the display cap. */
  method TotalGoalsBands(s: Stored) returns (bands: seq<int>, plus: int)
    requires WellFormed(s)
    ensures AreBands(bands, plus, s)
  {
    var n, k := s.maxGoals, s.maxGoals + 1;
    bands := seq(k, _ => 0);
    plus := s.tail.probability;
    for i := 0 to k
      invariant |bands| == k
      invariant forall t :: 0 <= t < k ==> bands[t] == Units(s.grid, Total(t), i, k)
      invariant plus == s.tail.probability + Units(s.grid, Beyond(n), i, k)
    {
      ghost var bands0, plus0 := bands, plus;
      for j := 0 to k
        invariant |bands| == k
        invariant forall t :: 0 <= t < k ==> bands[t] == bands0[t] + RowUnits(s.grid[i], Total(t), i, j)
        invariant plus == plus0 + RowUnits(s.grid[i], Beyond(n), i, j)
      {
        var total, value := i + j, s.grid[i][j];
        if total <= n { bands := bands[total := bands[total] + value]; }
        else { plus := plus + value; }
      }
    }
  }

  /** `total_goals_over_under`: refused unless the line lies strictly between 0 and the
      first total the grid cannot split. */
  method TotalGoalsOverUnder(s: Stored, line: real) returns (r: Result<(int, int), string>)
    requires WellFormed(s)
    ensures r.Err? <==> !(0.0 < line < (s.maxGoals + 1) as real)
    ensures r.Ok? ==>
      var k := s.maxGoals + 1;
      && r.value.0 == s.tail.probability + Units(s.grid, Beyond(line.Floor), k, k)
      && r.value.1 == Units(s.grid, UpTo(line.Floor), k, k)
  {
    var k := s.maxGoals + 1;
    if !(0.0 < line < k as real) { return Err("line not recoverable from the stored grid"); }
    var over, under := s.tail.probability, 0;
    for i := 0 to k
      invariant over == s.tail.probability + Units(s.grid, Beyond(line.Floor), i, k)
      invariant under == Units(s.grid, UpTo(line.Floor), i, k)
    {
      ghost var over0, under0 := over, under;
      for j := 0 to k
        invariant over == over0 + RowUnits(s.grid[i], Beyond(line.Floor), i, j)
        invariant under == under0 + RowUnits(s.grid[i], UpTo(line.Floor), i, j)
      {
        if (i + j) as real > line { over := over + s.grid[i][j]; }
        else { under := under + s.grid[i][j]; }
      }
    }
    r := Ok((over, under));
  }

  lemma {:induction false} NothingBelowZero(g: seq<seq<int>>, h: nat, w: nat)
    requires Covers(g, h, w)
    ensures Units(g, UpTo(-1), h, w) == 0
  {
    if h > 0 {
      NothingBelowZero(g, h - 1, w);
      RowNothingBelowZero(g[h - 1], h - 1, w);
    }
  }

  lemma {:induction false} RowNothingBelowZero(row: seq<int>, i: nat, w: nat)
    requires w <= |row|
    ensures RowUnits(row, UpTo(-1), i, w) == 0
  {
    if w > 0 { RowNothingBelowZero(row, i, w - 1); }
  }

  /** The bands up to a total add up to the cells up to that total. */
  lemma {:induction false} BandsBelow(bands: seq<int>, plus: int, s: Stored, t: nat)
    requires WellFormed(s) && AreBands(bands, plus, s) && t <= s.maxGoals + 1
    ensures BandSum(bands, t) == Units(s.grid, UpTo(t - 1), s.maxGoals + 1, s.maxGoals + 1)
  {
    var k := s.maxGoals + 1;
    if t == 0 {
      NothingBelowZero(s.grid, k, k);
    } else {
      BandsBelow(bands, plus, s, t - 1);
      UnitsSplit(s.grid, UpTo(t - 1), UpTo(t - 2), Total(t - 1), k, k);
    }
  }

  /** The bands partition the stored mass. */
  lemma BandsPartition(bands: seq<int>, plus: int, s: Stored)
    requires WellFormed(s) && AreBands(bands, plus, s)
    ensures BandSum(bands, |bands|) + plus == Units(s.grid, All, s.maxGoals + 1, s.maxGoals + 1) + s.tail.probability
  {
    BandsBelow(bands, plus, s, s.maxGoals + 1);
    UnitsSplit(s.grid, All, UpTo(s.maxGoals), Beyond(s.maxGoals), s.maxGoals + 1, s.maxGoals + 1);
  }

  /** For every accepted line, under is the bands up to it, and over and under share out
      the whole stored mass. */
  lemma UnderIsBands(bands: seq<int>, plus: int, s: Stored, line: real, over: int, under: int)
    requires WellFormed(s) && AreBands(bands, plus, s) && 0.0 < line < (s.maxGoals + 1) as real
    requires var k := s.maxGoals + 1;
      && over == s.tail.probability + Units(s.grid, Beyond(line.Floor), k, k)
      && under == Units(s.grid, UpTo(line.Floor), k, k)
    ensures under == BandSum(bands, line.Floor + 1)
    ensures over + under == BandSum(bands, |bands|) + plus
  {
    var k := s.maxGoals + 1;
    BandsBelow(bands, plus, s, line.Floor + 1);
    BandsPartition(bands, plus, s);
    UnitsSplit(s.grid, All, UpTo(line.Floor), Beyond(line.Floor), k, k);
  }

  lemma {:induction false} RowAbove(row: seq<real>, z: seq<real>, i: nat, n: nat, t: int, w: nat)
    requires w <= |row| == |z| && t <= n
    requires forall j :: 0 <= j < |row| ==> z[j] == if i <= n && j <= n then 0.0 else row[j]
    ensures RowMass(z, UpTo(t), i, w) == 0.0
  {
    if w > 0 { RowAbove(row, z, i, n, t, w - 1); }
  }

  /** Every cell outside the grid has a total above the display cap. */
  lemma {:induction false} OutsideIsAbove(m: seq<seq<real>>, n: nat, t: int, h: nat)
    requires Square(m) && n < |m| && t <= n && h <= |m|
    ensures Mass(ZeroBlock(m, n), UpTo(t), h, |m|) == 0.0
  {
    if h > 0 {
      OutsideIsAbove(m, n, t, h - 1);
      RowAbove(m[h - 1], ZeroBlock(m, n)[h - 1], h - 1, n, t, |m|);
    }
  }

  /** The under figure is the true marginal of the full matrix, up to half a unit for
      each cell it sums: nothing below the line was folded into the tail. */
  lemma UnderIsTrueMarginal(s: Stored, m: seq<seq<real>>, n: nat, line: real)
    requires Square(m) && n < |m| && IsBuilt(s, m, n) && 0.0 < line < (n + 1) as real
    ensures Abs(Units(s.grid, UpTo(line.Floor), n + 1, n + 1) as real - Mass(m, UpTo(line.Floor), |m|, |m|) * UNIT)
            <= Count(UpTo(line.Floor), n + 1, n + 1) as real * 0.5
  {
    var t := line.Floor;
    BlockPartition(m, UpTo(t), n, |m|);
    OutsideIsAbove(m, n, t, |m|);
    GridError(s.grid, m, UpTo(t), n + 1, n + 1);
  }
}
