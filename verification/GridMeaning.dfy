/** The stored score matrix and its checks in plain sums over scorelines. */
module GridMeaning {
  import opened Prelude
  import opened Rounding
  import opened ScoreGrid

  /** Which scorelines a sum takes: home goals, then away goals. */
  type Which = (int, int) -> bool

  function HomeAhead(): Which { (i: int, j: int) => i > j }

  function Level(): Which { (i: int, j: int) => i == j }

  function AwayAhead(): Which { (i: int, j: int) => i < j }

  function Always(): Which { (i: int, j: int) => true }

  /** A sum over the first w scorelines of one row. */
  function RowSum(row: seq<int>, which: Which, i: int, w: nat): int
    requires w <= |row|
  {
    if w == 0 then 0 else RowSum(row, which, i, w - 1) + if which(i, w - 1) then row[w - 1] else 0
  }

  /** A sum over the scorelines with fewer than h home and w away goals. */
  function CellSum(grid: seq<seq<int>>, which: Which, h: nat, w: nat): int
    requires h <= |grid| && forall i :: 0 <= i < h ==> w <= |grid[i]|
  {
    if h == 0 then 0 else CellSum(grid, which, h - 1, w) + RowSum(grid[h - 1], which, h - 1, w)
  }

  function RowChance(row: seq<real>, which: Which, i: int, w: nat): real
    requires w <= |row|
  {
    if w == 0 then 0.0 else RowChance(row, which, i, w - 1) + if which(i, w - 1) then row[w - 1] else 0.0
  }

  /** The probability of the chosen scorelines. */
  function Chance(m: seq<seq<real>>, which: Which, h: nat, w: nat): real
    requires h <= |m| && forall i :: 0 <= i < h ==> w <= |m[i]|
  {
    if h == 0 then 0.0 else Chance(m, which, h - 1, w) + RowChance(m[h - 1], which, h - 1, w)
  }

  // ---------------------------------------------------------------------
  // The model's sums are these sums
  // ---------------------------------------------------------------------

  ghost predicate Selects(p: Pick, which: Which) { forall i: int, j: int :: Holds(p, i, j) <==> which(i, j) }

  lemma {:induction false} RowUnitsMean(row: seq<int>, p: Pick, which: Which, i: int, w: nat)
    requires w <= |row| && Selects(p, which)
    ensures RowUnits(row, p, i, w) == RowSum(row, which, i, w)
  {
    hide Holds;
    if w > 0 { RowUnitsMean(row, p, which, i, w - 1); }
  }

  lemma {:induction false} UnitsMean(grid: seq<seq<int>>, p: Pick, which: Which, h: nat, w: nat)
    requires Covers(grid, h, w) && Selects(p, which)
    ensures Units(grid, p, h, w) == CellSum(grid, which, h, w)
  {
    hide Selects;
    if h > 0 {
      UnitsMean(grid, p, which, h - 1, w);
      RowUnitsMean(grid[h - 1], p, which, h - 1, w);
    }
  }

  lemma {:induction false} RowMassMean(row: seq<real>, p: Pick, which: Which, i: int, w: nat)
    requires w <= |row| && Selects(p, which)
    ensures RowMass(row, p, i, w) == RowChance(row, which, i, w)
  {
    hide Holds;
    if w > 0 { RowMassMean(row, p, which, i, w - 1); }
  }

  lemma {:induction false} MassMean(m: seq<seq<real>>, p: Pick, which: Which, h: nat, w: nat)
    requires Covers(m, h, w) && Selects(p, which)
    ensures Mass(m, p, h, w) == Chance(m, which, h, w)
  {
    hide Selects;
    if h > 0 {
      MassMean(m, p, which, h - 1, w);
      RowMassMean(m[h - 1], p, which, h - 1, w);
    }
  }

  /** A home win is more home than away goals, and so on. */
  lemma OutcomesMean(grid: seq<seq<int>>, h: nat, w: nat)
    requires Covers(grid, h, w)
    ensures Units(grid, Home, h, w) == CellSum(grid, HomeAhead(), h, w)
    ensures Units(grid, Draw, h, w) == CellSum(grid, Level(), h, w)
    ensures Units(grid, Away, h, w) == CellSum(grid, AwayAhead(), h, w)
    ensures Units(grid, All, h, w) == CellSum(grid, Always(), h, w)
  {
    UnitsMean(grid, Home, HomeAhead(), h, w);
    UnitsMean(grid, Draw, Level(), h, w);
    UnitsMean(grid, Away, AwayAhead(), h, w);
    UnitsMean(grid, All, Always(), h, w);
  }

  lemma TrueProbsMean(m: seq<seq<real>>)
    requires Square(m)
    ensures TrueProbs(m).home == Chance(m, HomeAhead(), |m|, |m|)
    ensures TrueProbs(m).draw == Chance(m, Level(), |m|, |m|)
    ensures TrueProbs(m).away == Chance(m, AwayAhead(), |m|, |m|)
  {
    MassMean(m, Home, HomeAhead(), |m|, |m|);
    MassMean(m, Draw, Level(), |m|, |m|);
    MassMean(m, Away, AwayAhead(), |m|, |m|);
  }

  // ---------------------------------------------------------------------
  // What is built
  // ---------------------------------------------------------------------

  /** The chosen scorelines on which a side scores more than n. */
  function Outside(which: Which, n: nat): Which { (i: int, j: int) => which(i, j) && (i > n || j > n) }

  lemma {:induction false} RowOutsideMean(row: seq<real>, zeroed: seq<real>, which: Which, i: int, n: nat, w: nat)
    requires w <= |row| == |zeroed|
    requires forall j :: 0 <= j < |row| ==> zeroed[j] == if i <= n && j <= n then 0.0 else row[j]
    ensures RowChance(zeroed, which, i, w) == RowChance(row, Outside(which, n), i, w)
  {
    if w > 0 { RowOutsideMean(row, zeroed, which, i, n, w - 1); }
  }

  lemma {:induction false} OutsideMean(m: seq<seq<real>>, which: Which, n: nat, h: nat)
    requires Square(m) && h <= |m| && n < |m|
    ensures Chance(ZeroBlock(m, n), which, h, |m|) == Chance(m, Outside(which, n), h, |m|)
  {
    if h > 0 {
      OutsideMean(m, which, n, h - 1);
      RowOutsideMean(m[h - 1], ZeroBlock(m, n)[h - 1], which, h - 1, n, |m|);
    }
  }

  /** got is x in units of 1e-9, to the nearest. */
  ghost predicate Rounds(got: int, x: real) { -0.5 <= got as real - x * 1000000000.0 <= 0.5 }

  /** What the object built from a matrix holds. */
  ghost predicate HoldsMatrix(s: Stored, m: seq<seq<real>>, n: nat)
    requires Square(m) && n < |m|
  {
    && WellFormed(s) && s.maxGoals == n
    && (forall i, j :: 0 <= i <= n && 0 <= j <= n ==> Rounds(s.grid[i][j], m[i][j]))
    && Rounds(s.tail.home, Chance(m, Outside(HomeAhead(), n), |m|, |m|))
    && Rounds(s.tail.draw, Chance(m, Outside(Level(), n), |m|, |m|))
    && Rounds(s.tail.away, Chance(m, Outside(AwayAhead(), n), |m|, |m|))
    && s.tail.probability == s.tail.home + s.tail.draw + s.tail.away
    && s.totalProbability == CellSum(s.grid, Always(), n + 1, n + 1) + s.tail.probability
  }

  lemma BuiltMeans(s: Stored, m: seq<seq<real>>, n: nat)
    requires Square(m) && n < |m| && IsBuilt(s, m, n)
    ensures HoldsMatrix(s, m, n)
  {
    hide Nearest, Chance, Mass, Units, CellSum, IsArgmax;
    MassMean(ZeroBlock(m, n), Home, HomeAhead(), |m|, |m|);
    MassMean(ZeroBlock(m, n), Draw, Level(), |m|, |m|);
    MassMean(ZeroBlock(m, n), Away, AwayAhead(), |m|, |m|);
    OutsideMean(m, HomeAhead(), n, |m|);
    OutsideMean(m, Level(), n, |m|);
    OutsideMean(m, AwayAhead(), n, |m|);
    OutcomesMean(s.grid, n + 1, n + 1);
  }

  // ---------------------------------------------------------------------
  // What is accepted, and so what is rejected
  // ---------------------------------------------------------------------

  /** Within 1e-5, in units of 1e-9. */
  predicate Agrees(got: int, want: real) { -10000.0 <= got as real - want <= 10000.0 }

  /** The conditions of an accepted object, each a plain comparison. */
  ghost predicate Acceptable(s: Stored, probs: Probs) {
    var k := s.maxGoals + 1;
    && |s.grid| == k && (forall i :: 0 <= i < k ==> |s.grid[i]| == k)
    && Agrees(s.tail.home + s.tail.draw + s.tail.away, s.tail.probability as real)
    && Agrees(CellSum(s.grid, Always(), k, k) + s.tail.probability, 1000000000.0)
    && Agrees(s.totalProbability, (CellSum(s.grid, Always(), k, k) + s.tail.probability) as real)
    && Agrees(CellSum(s.grid, HomeAhead(), k, k) + s.tail.home, probs.home * 1000000000.0)
    && Agrees(CellSum(s.grid, Level(), k, k) + s.tail.draw, probs.draw * 1000000000.0)
    && Agrees(CellSum(s.grid, AwayAhead(), k, k) + s.tail.away, probs.away * 1000000000.0)
    && 0 <= s.mostLikely.home < k && 0 <= s.mostLikely.away < k
    && (forall i, j :: 0 <= i < k && 0 <= j < k ==>
          s.grid[i][j] <= s.grid[s.mostLikely.home][s.mostLikely.away])
    && (forall i, j :: 0 <= i < k && 0 <= j < k && s.grid[i][j] == s.grid[s.mostLikely.home][s.mostLikely.away] ==>
          s.mostLikely.home < i || (s.mostLikely.home == i && s.mostLikely.away <= j))
    && Agrees(s.mostLikely.probability, s.grid[s.mostLikely.home][s.mostLikely.away] as real)
  }

  /** The check accepts exactly these objects. */
  lemma CoherentMeans(s: Stored, probs: Probs)
    ensures Coherent(s, probs) <==> Acceptable(s, probs)
  {
    hide Units, CellSum;
    if WellFormed(s) { OutcomesMean(s.grid, s.maxGoals + 1, s.maxGoals + 1); }
  }

  // ---------------------------------------------------------------------
  // Total goals
  // ---------------------------------------------------------------------

  function TotalIs(t: int): Which { (i: int, j: int) => i + j == t }

  function TotalUpTo(t: int): Which { (i: int, j: int) => i + j <= t }

  function TotalBeyond(t: int): Which { (i: int, j: int) => i + j > t }

  /** Picks by total goals mean the sum of both sides' goals. */
  lemma TotalsMean(grid: seq<seq<int>>, t: int, h: nat, w: nat)
    requires Covers(grid, h, w)
    ensures Units(grid, Total(t), h, w) == CellSum(grid, TotalIs(t), h, w)
    ensures Units(grid, UpTo(t), h, w) == CellSum(grid, TotalUpTo(t), h, w)
    ensures Units(grid, Beyond(t), h, w) == CellSum(grid, TotalBeyond(t), h, w)
  {
    UnitsMean(grid, Total(t), TotalIs(t), h, w);
    UnitsMean(grid, UpTo(t), TotalUpTo(t), h, w);
    UnitsMean(grid, Beyond(t), TotalBeyond(t), h, w);
  }
}
