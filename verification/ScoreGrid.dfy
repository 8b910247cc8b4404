/** The exact-score grid of a seal: a full joint matrix re-bucketed into a rounded
    display grid and an outcome-decomposed tail, and the check that re-reads it.
    Stored numbers are integers in units of 1e-9; matrix cells and probabilities are
    exact reals. */
module ScoreGrid {
  import opened Prelude
  import opened Rounding

  const UNIT: real := 1000000000.0
  /** PROB_TOLERANCE = 1e-5, in units. */
  const TOLERANCE: real := 10000.0

  /** Which cells a sum ranges over. */
  datatype Pick = All | Home | Draw | Away | Total(t: int) | UpTo(t: int) | Beyond(t: int)

  predicate Holds(p: Pick, i: int, j: int) {
    match p
    case All => true
    case Home => i > j
    case Draw => i == j
    case Away => i < j
    case Total(t) => i + j == t
    case UpTo(t) => i + j <= t
    case Beyond(t) => i + j > t
  }

  /** p is the disjoint union of q and r. */
  ghost predicate Splits(p: Pick, q: Pick, r: Pick) {
    forall i: int, j: int :: (Holds(p, i, j) <==> Holds(q, i, j) || Holds(r, i, j))
      && !(Holds(q, i, j) && Holds(r, i, j))
  }

  // ---------------------------------------------------------------------
  // Sums over blocks of cells
  // ---------------------------------------------------------------------

  ghost predicate Covers<T>(m: seq<seq<T>>, h: nat, w: nat) {
    h <= |m| && forall i :: 0 <= i < h ==> w <= |m[i]|
  }

  ghost function RowMass(row: seq<real>, p: Pick, i: int, w: nat): real
    requires w <= |row|
  {
    if w == 0 then 0.0 else RowMass(row, p, i, w - 1) + if Holds(p, i, w - 1) then row[w - 1] else 0.0
  }

  /** Probability of the picked cells among the first h rows and w columns. */
  ghost function Mass(m: seq<seq<real>>, p: Pick, h: nat, w: nat): real
    requires Covers(m, h, w)
  {
    if h == 0 then 0.0 else Mass(m, p, h - 1, w) + RowMass(m[h - 1], p, h - 1, w)
  }

  ghost function RowUnits(row: seq<int>, p: Pick, i: int, w: nat): int
    requires w <= |row|
  {
    if w == 0 then 0 else RowUnits(row, p, i, w - 1) + if Holds(p, i, w - 1) then row[w - 1] else 0
  }

  ghost function Units(g: seq<seq<int>>, p: Pick, h: nat, w: nat): int
    requires Covers(g, h, w)
  {
    if h == 0 then 0 else Units(g, p, h - 1, w) + RowUnits(g[h - 1], p, h - 1, w)
  }

  ghost function RowCount(p: Pick, i: int, w: nat): nat {
    if w == 0 then 0 else RowCount(p, i, w - 1) + if Holds(p, i, w - 1) then 1 else 0
  }

  /** How many cells a sum ranges over. */
  ghost function Count(p: Pick, h: nat, w: nat): nat {
    if h == 0 then 0 else Count(p, h - 1, w) + RowCount(p, h - 1, w)
  }

  lemma {:induction false} RowUnitsSplit(row: seq<int>, p: Pick, q: Pick, r: Pick, i: int, w: nat)
    requires w <= |row| && Splits(p, q, r)
    ensures RowUnits(row, p, i, w) == RowUnits(row, q, i, w) + RowUnits(row, r, i, w)
  {
    if w > 0 { RowUnitsSplit(row, p, q, r, i, w - 1); }
  }

  lemma {:induction false} UnitsSplit(g: seq<seq<int>>, p: Pick, q: Pick, r: Pick, h: nat, w: nat)
    requires Covers(g, h, w) && Splits(p, q, r)
    ensures Units(g, p, h, w) == Units(g, q, h, w) + Units(g, r, h, w)
  {
    if h > 0 {
      UnitsSplit(g, p, q, r, h - 1, w);
      RowUnitsSplit(g[h - 1], p, q, r, h - 1, w);
    }
  }

  lemma {:induction false} RowMassOutcomes(row: seq<real>, i: int, w: nat)
    requires w <= |row|
    ensures RowMass(row, All, i, w) == RowMass(row, Home, i, w) + RowMass(row, Draw, i, w) + RowMass(row, Away, i, w)
  {
    if w > 0 { RowMassOutcomes(row, i, w - 1); }
  }

  lemma {:induction false} MassOutcomes(m: seq<seq<real>>, h: nat, w: nat)
    requires Covers(m, h, w)
    ensures Mass(m, All, h, w) == Mass(m, Home, h, w) + Mass(m, Draw, h, w) + Mass(m, Away, h, w)
  {
    if h > 0 {
      MassOutcomes(m, h - 1, w);
      RowMassOutcomes(m[h - 1], h - 1, w);
    }
  }

  lemma {:induction false} UnitsOutcomes(g: seq<seq<int>>, h: nat, w: nat)
    requires Covers(g, h, w)
    ensures Units(g, All, h, w) == Units(g, Home, h, w) + Units(g, Draw, h, w) + Units(g, Away, h, w)
  {
    if h > 0 {
      UnitsOutcomes(g, h - 1, w);
      RowUnitsOutcomes(g[h - 1], h - 1, w);
    }
  }

  lemma {:induction false} RowUnitsOutcomes(row: seq<int>, i: int, w: nat)
    requires w <= |row|
    ensures RowUnits(row, All, i, w) == RowUnits(row, Home, i, w) + RowUnits(row, Draw, i, w)
        + RowUnits(row, Away, i, w)
  {
    if w > 0 { RowUnitsOutcomes(row, i, w - 1); }
  }

  /** g is m rounded cell by cell. */
  ghost predicate IsRounded(g: seq<seq<int>>, m: seq<seq<real>>, h: nat, w: nat)
    requires Covers(g, h, w) && Covers(m, h, w)
  {
    forall i, j :: 0 <= i < h && 0 <= j < w ==> g[i][j] == Nearest(m[i][j] * UNIT)
  }

  lemma {:induction false} RowError(g: seq<int>, m: seq<real>, p: Pick, i: int, w: nat)
    requires w <= |g| && w <= |m|
    requires forall j :: 0 <= j < w ==> g[j] == Nearest(m[j] * UNIT)
    ensures Abs(RowUnits(g, p, i, w) as real - RowMass(m, p, i, w) * UNIT) <= RowCount(p, i, w) as real * 0.5
  {
    if w > 0 { RowError(g, m, p, i, w - 1); }
  }

  /** Rounding errs by at most half a unit per summed cell. */
  lemma {:induction false} GridError(g: seq<seq<int>>, m: seq<seq<real>>, p: Pick, h: nat, w: nat)
    requires Covers(g, h, w) && Covers(m, h, w) && IsRounded(g, m, h, w)
    ensures Abs(Units(g, p, h, w) as real - Mass(m, p, h, w) * UNIT) <= Count(p, h, w) as real * 0.5
  {
    if h > 0 {
      GridError(g, m, p, h - 1, w);
      RowError(g[h - 1], m[h - 1], p, h - 1, w);
    }
  }

  lemma {:induction false} RowCountBound(p: Pick, i: int, w: nat)
    ensures RowCount(p, i, w) <= w
  {
    if w > 0 { RowCountBound(p, i, w - 1); }
  }

  lemma {:induction false} CountBound(p: Pick, h: nat, w: nat)
    ensures Count(p, h, w) <= h * w
  {
    if h > 0 {
      CountBound(p, h - 1, w);
      RowCountBound(p, h - 1, w);
      assert h * w == (h - 1) * w + w;
    }
  }

  // ---------------------------------------------------------------------
  // Inside and outside the displayed block
  // ---------------------------------------------------------------------

  ghost predicate Square(m: seq<seq<real>>) { forall i :: 0 <= i < |m| ==> |m[i]| == |m| }

  /** The matrix with its displayed block zeroed: `outside[: n + 1, : n + 1] = 0.0`. */
  function ZeroBlock(m: seq<seq<real>>, n: nat): (z: seq<seq<real>>)
    ensures |z| == |m| && forall i :: 0 <= i < |m| ==> |z[i]| == |m[i]|
  {
    seq(|m|, i requires 0 <= i < |m| =>
      seq(|m[i]|, j requires 0 <= j < |m[i]| => if i <= n && j <= n then 0.0 else m[i][j]))
  }

  lemma {:induction false} RowOutside(row: seq<real>, z: seq<real>, p: Pick, i: int, n: nat, w: nat)
    requires w <= |row| == |z|
    requires forall j :: 0 <= j < |row| ==> z[j] == if i <= n && j <= n then 0.0 else row[j]
    ensures RowMass(row, p, i, w) == RowMass(z, p, i, w) +
            if i <= n then RowMass(row, p, i, if w <= n + 1 then w else n + 1) else 0.0
  {
    if w > 0 { RowOutside(row, z, p, i, n, w - 1); }
  }

  /** Grid plus tail is a re-bucketing: no mass is created or dropped. */
  lemma {:induction false} BlockPartition(m: seq<seq<real>>, p: Pick, n: nat, h: nat)
    requires Square(m) && h <= |m| && n < |m|
    ensures Mass(m, p, h, |m|) == Mass(ZeroBlock(m, n), p, h, |m|) + Mass(m, p, if h <= n + 1 then h else n + 1, n + 1)
  {
    if h > 0 {
      BlockPartition(m, p, n, h - 1);
      RowOutside(m[h - 1], ZeroBlock(m, n)[h - 1], p, h - 1, n, |m|);
    }
  }

  // ---------------------------------------------------------------------
  // Building the stored object
  // ---------------------------------------------------------------------

  datatype Tail = Tail(probability: int, home: int, draw: int, away: int)

  datatype Likely = Likely(home: int, away: int, probability: int)

  /** The `score_matrix` object of an artifact. */
  datatype Stored = Stored(maxGoals: nat, resolution: int, grid: seq<seq<int>>, tail: Tail,
                           mostLikely: Likely, totalProbability: int)

  predicate WellFormed(s: Stored) {
    |s.grid| == s.maxGoals + 1 && forall i :: 0 <= i < |s.grid| ==> |s.grid[i]| == s.maxGoals + 1
  }

  /** Highest probability, then fewest home goals, then fewest away goals. */
  ghost predicate IsArgmax(grid: seq<seq<int>>, n: nat, h: int, a: int)
    requires Covers(grid, n + 1, n + 1)
  {
    && 0 <= h <= n && 0 <= a <= n
    && forall i, j :: 0 <= i <= n && 0 <= j <= n ==>
         grid[i][j] < grid[h][a] || (grid[i][j] == grid[h][a] && (h < i || (h == i && a <= j)))
  }

  lemma ArgmaxUnique(grid: seq<seq<int>>, n: nat, h: int, a: int, h': int, a': int)
    requires Covers(grid, n + 1, n + 1) && IsArgmax(grid, n, h, a) && IsArgmax(grid, n, h', a')
    ensures h == h' && a == a'
  {
    assert grid[h'][a'] <= grid[h][a] && grid[h][a] <= grid[h'][a'];
  }

  /** `max(((grid[i][j], i, j) ...), key=(value, -i, -j))` */
  method Argmax(grid: seq<seq<int>>, n: nat) returns (h: int, a: int)
    requires Covers(grid, n + 1, n + 1)
    ensures IsArgmax(grid, n, h, a)
  {
    h, a := 0, 0;
    for i := 0 to n + 1
      invariant 0 <= h <= n && 0 <= a <= n
      invariant forall x, y :: 0 <= x < i && 0 <= y <= n ==>
        grid[x][y] < grid[h][a] || (grid[x][y] == grid[h][a] && (h < x || (h == x && a <= y)))
      invariant (h == 0 && a == 0) || h < i
    {
      for j := 0 to n + 1
        invariant 0 <= h <= n && 0 <= a <= n
        invariant forall x, y :: 0 <= x <= n && 0 <= y <= n && (x < i || (x == i && y < j)) ==>
          grid[x][y] < grid[h][a] || (grid[x][y] == grid[h][a] && (h < x || (h == x && a <= y)))
        invariant (h == 0 && a == 0) || h < i || (h == i && a < j)
      {
        if grid[i][j] > grid[h][a] { h, a := i, j; }
      }
    }
  }

  ghost predicate IsBuilt(s: Stored, m: seq<seq<real>>, n: nat)
    requires Square(m) && n < |m|
  {
    && WellFormed(s) && s.maxGoals == n && s.resolution == |m| - 1
    && IsRounded(s.grid, m, n + 1, n + 1)
    && s.tail.home == Nearest(Mass(ZeroBlock(m, n), Home, |m|, |m|) * UNIT)
    && s.tail.draw == Nearest(Mass(ZeroBlock(m, n), Draw, |m|, |m|) * UNIT)
    && s.tail.away == Nearest(Mass(ZeroBlock(m, n), Away, |m|, |m|) * UNIT)
    && s.tail.probability == s.tail.home + s.tail.draw + s.tail.away
    && IsArgmax(s.grid, n, s.mostLikely.home, s.mostLikely.away)
    && s.mostLikely.probability == s.grid[s.mostLikely.home][s.mostLikely.away]
    && s.totalProbability == Units(s.grid, All, n + 1, n + 1) + s.tail.probability
  }

  /** `outside[mask].sum()` */
  method MaskedSum(m: seq<seq<real>>, p: Pick) returns (sum: real)
    requires Square(m)
    ensures sum == Mass(m, p, |m|, |m|)
  {
    sum := 0.0;
    for i := 0 to |m|
      invariant sum == Mass(m, p, i, |m|)
    {
      var row := 0.0;
      for j := 0 to |m|
        invariant row == RowMass(m[i], p, i, j)
      {
        if Holds(p, i, j) { row := row + m[i][j]; }
      }
      sum := sum + row;
    }
  }

  method BuildScoreMatrix(m: seq<seq<real>>, n: nat) returns (s: Stored)
    requires Square(m) && n < |m|
    ensures IsBuilt(s, m, n)
  {
    hide Nearest, Mass, Units, IsArgmax;
    var outside := ZeroBlock(m, n);
    assert Square(outside);
    var home := MaskedSum(outside, Home);
    var draw := MaskedSum(outside, Draw);
    var away := MaskedSum(outside, Away);
    var tail := Tail(Nearest(home * UNIT) + Nearest(draw * UNIT) + Nearest(away * UNIT),
                     Nearest(home * UNIT), Nearest(draw * UNIT), Nearest(away * UNIT));
    var grid := seq(n + 1, i requires 0 <= i <= n < |m| && Square(m) =>
      seq(n + 1, j requires 0 <= j <= n => Nearest(m[i][j] * UNIT)));
    var h, a := Argmax(grid, n);
    var total := GridTotal(grid, n);
    s := Stored(n, |m| - 1, grid, tail, Likely(h, a, grid[h][a]), total + tail.probability);
  }

  /** `sum(sum(row) for row in grid)` */
  method GridTotal(grid: seq<seq<int>>, n: nat) returns (total: int)
    requires Covers(grid, n + 1, n + 1)
    ensures total == Units(grid, All, n + 1, n + 1)
  {
    total := 0;
    for i := 0 to n + 1
      invariant total == Units(grid, All, i, n + 1)
    {
      var row := 0;
      for j := 0 to n + 1
        invariant row == RowUnits(grid[i], All, i, j)
      {
        row := row + grid[i][j];
      }
      total := total + row;
    }
  }

  // ---------------------------------------------------------------------
  // Re-reading the stored object
  // ---------------------------------------------------------------------

  datatype Marginals = Marginals(home: int, draw: int, away: int)

  ghost function MarginalsOf(s: Stored): Marginals
    requires WellFormed(s)
  {
    var k := s.maxGoals + 1;
    Marginals(Units(s.grid, Home, k, k) + s.tail.home, Units(s.grid, Draw, k, k) + s.tail.draw,
              Units(s.grid, Away, k, k) + s.tail.away)
  }

  method StoredMarginals(s: Stored) returns (r: Marginals)
    requires WellFormed(s)
    ensures r == MarginalsOf(s)
  {
    var k := s.maxGoals + 1;
    var home, draw, away := 0, 0, 0;
    for i := 0 to k
      invariant home == Units(s.grid, Home, i, k)
      invariant draw == Units(s.grid, Draw, i, k)
      invariant away == Units(s.grid, Away, i, k)
    {
      ghost var home0, draw0, away0 := home, draw, away;
      for j := 0 to k
        invariant home == home0 + RowUnits(s.grid[i], Home, i, j)
        invariant draw == draw0 + RowUnits(s.grid[i], Draw, i, j)
        invariant away == away0 + RowUnits(s.grid[i], Away, i, j)
      {
        var value := s.grid[i][j];
        if i > j { home := home + value; }
        else if i == j { draw := draw + value; }
        else { away := away + value; }
      }
    }
    r := Marginals(home + s.tail.home, draw + s.tail.draw, away + s.tail.away);
  }

  datatype Violation = BadGrid | TailDecomposition | NotOne | TotalDisagrees
                     | HomeMarginal | DrawMarginal | AwayMarginal | NotArgmax | LikelyDisagrees

  predicate Near(got: int, want: real) { Abs(got as real - want) <= TOLERANCE }

  /** What the stored object has to satisfy against the sealed probabilities. */
  ghost predicate Coherent(s: Stored, probs: Probs) {
    && WellFormed(s)
    && Near(s.tail.home + s.tail.draw + s.tail.away, s.tail.probability as real)
    && var total := Units(s.grid, All, s.maxGoals + 1, s.maxGoals + 1) + s.tail.probability;
    && Near(total, UNIT) && Near(s.totalProbability, total as real)
    && var r := MarginalsOf(s);
    && Near(r.home, probs.home * UNIT) && Near(r.draw, probs.draw * UNIT) && Near(r.away, probs.away * UNIT)
    && IsArgmax(s.grid, s.maxGoals, s.mostLikely.home, s.mostLikely.away)
    && Near(s.mostLikely.probability, s.grid[s.mostLikely.home][s.mostLikely.away] as real)
  }

  method StoredCoherenceViolations(s: Stored, probs: Probs) returns (violations: seq<Violation>)
    ensures violations == [] <==> Coherent(s, probs)
    ensures BadGrid in violations <==> !WellFormed(s)
  {
    if !WellFormed(s) { return [BadGrid]; }
    hide Near, IsArgmax, Units, MarginalsOf;
    var sum := GridTotal(s.grid, s.maxGoals);
    var total := sum + s.tail.probability;
    var r := StoredMarginals(s);
    var likely := LikelyChecks(s);
    violations := Report([], Near(s.tail.home + s.tail.draw + s.tail.away, s.tail.probability as real),
      TailDecomposition);
    violations := Report(violations, Near(total, UNIT), NotOne);
    violations := Report(violations, Near(s.totalProbability, total as real), TotalDisagrees);
    violations := Report(violations, Near(r.home, probs.home * UNIT), HomeMarginal);
    violations := Report(violations, Near(r.draw, probs.draw * UNIT), DrawMarginal);
    violations := Report(violations, Near(r.away, probs.away * UNIT), AwayMarginal);
    violations := violations + likely;
  }

  /** `if not ok: violations.append(v)` */
  method Report(violations: seq<Violation>, ok: bool, v: Violation) returns (r: seq<Violation>)
    ensures r == [] <==> violations == [] && ok
    ensures forall x :: x in r <==> x in violations || (!ok && x == v)
  {
    r := if ok then violations else violations + [v];
  }

  /** The most-likely scoreline has to be the grid's own argmax, and carry its value. */
  method LikelyChecks(s: Stored) returns (violations: seq<Violation>)
    requires WellFormed(s)
    ensures BadGrid !in violations
    ensures violations == [] <==>
      && IsArgmax(s.grid, s.maxGoals, s.mostLikely.home, s.mostLikely.away)
      && Near(s.mostLikely.probability, s.grid[s.mostLikely.home][s.mostLikely.away] as real)
  {
    hide Near;
    var h, a := Argmax(s.grid, s.maxGoals);
    violations := [];
    if (s.mostLikely.home, s.mostLikely.away) != (h, a) {
      violations := [NotArgmax];
    } else if !Near(s.mostLikely.probability, s.grid[h][a] as real) {
      violations := [LikelyDisagrees];
    }
    if IsArgmax(s.grid, s.maxGoals, s.mostLikely.home, s.mostLikely.away) {
      ArgmaxUnique(s.grid, s.maxGoals, h, a, s.mostLikely.home, s.mostLikely.away);
    }
  }

  // ---------------------------------------------------------------------
  // A built object passes
  // ---------------------------------------------------------------------

  ghost function TrueProbs(m: seq<seq<real>>): Probs
    requires Square(m)
  {
    Probs(Mass(m, Home, |m|, |m|), Mass(m, Draw, |m|, |m|), Mass(m, Away, |m|, |m|))
  }

  ghost predicate NonNegative(m: seq<seq<real>>) {
    forall i, j :: 0 <= i < |m| && 0 <= j < |m[i]| ==> m[i][j] >= 0.0
  }

  lemma {:induction false} RowMassNonNegative(row: seq<real>, p: Pick, i: int, w: nat)
    requires w <= |row| && forall j :: 0 <= j < |row| ==> row[j] >= 0.0
    ensures RowMass(row, p, i, w) >= 0.0
  {
    if w > 0 { RowMassNonNegative(row, p, i, w - 1); }
  }

  lemma {:induction false} MassNonNegative(m: seq<seq<real>>, p: Pick, h: nat, w: nat)
    requires Covers(m, h, w) && NonNegative(m)
    ensures Mass(m, p, h, w) >= 0.0
  {
    if h > 0 {
      MassNonNegative(m, p, h - 1, w);
      RowMassNonNegative(m[h - 1], p, h - 1, w);
    }
  }

  /** The outcome masses of a joint distribution are probabilities that sum to one. */
  lemma TrueProbsInRange(m: seq<seq<real>>)
    requires Square(m) && NonNegative(m) && Mass(m, All, |m|, |m|) == 1.0
    ensures var t := TrueProbs(m);
      && 0.0 <= t.home <= 1.0 && 0.0 <= t.draw <= 1.0 && 0.0 <= t.away <= 1.0 && t.home + t.draw + t.away == 1.0
  {
    hide Mass;
    MassOutcomes(m, |m|, |m|);
    MassNonNegative(m, Home, |m|, |m|);
    MassNonNegative(m, Draw, |m|, |m|);
    MassNonNegative(m, Away, |m|, |m|);
  }

  /** Each marginal is off by at most half a unit per summed cell, and one for the tail. */
  lemma MarginalError(s: Stored, m: seq<seq<real>>, n: nat)
    requires Square(m) && n < |m| && IsBuilt(s, m, n)
    ensures var r, t := MarginalsOf(s), TrueProbs(m);
      && Abs(r.home as real - t.home * UNIT) <= (Count(Home, n + 1, n + 1) + 1) as real * 0.5
      && Abs(r.draw as real - t.draw * UNIT) <= (Count(Draw, n + 1, n + 1) + 1) as real * 0.5
      && Abs(r.away as real - t.away * UNIT) <= (Count(Away, n + 1, n + 1) + 1) as real * 0.5
  {
    hide Nearest, Mass, Units, Count, IsArgmax, Abs, IsRounded;
    OutcomeError(s, m, n, Home, s.tail.home);
    OutcomeError(s, m, n, Draw, s.tail.draw);
    OutcomeError(s, m, n, Away, s.tail.away);
  }

  lemma OutcomeError(s: Stored, m: seq<seq<real>>, n: nat, p: Pick, tail: int)
    requires Square(m) && n < |m| && WellFormed(s) && s.maxGoals == n && IsRounded(s.grid, m, n + 1, n + 1)
    requires tail == Nearest(Mass(ZeroBlock(m, n), p, |m|, |m|) * UNIT)
    ensures Abs((Units(s.grid, p, n + 1, n + 1) + tail) as real - Mass(m, p, |m|, |m|) * UNIT)
            <= (Count(p, n + 1, n + 1) + 1) as real * 0.5
  {
    hide Mass, Units, Count, IsRounded;
    GridError(s.grid, m, p, n + 1, n + 1);
    BlockPartition(m, p, n, |m|);
  }

  /** Every object built from a matrix of total mass 1 is coherent with any probabilities
      close enough to the matrix's own; in particular with those themselves. */
  lemma BuiltIsCoherent(s: Stored, m: seq<seq<real>>, n: nat, probs: Probs, slack: real)
    requires Square(m) && n < |m| && IsBuilt(s, m, n)
    requires Mass(m, All, |m|, |m|) == 1.0
    requires var t := TrueProbs(m);
      Abs(probs.home - t.home) <= slack && Abs(probs.draw - t.draw) <= slack && Abs(probs.away - t.away) <= slack
    requires slack * UNIT + ((n + 1) * (n + 1) + 3) as real * 0.5 <= TOLERANCE
    ensures Coherent(s, probs)
  {
    hide Mass, Units, Count, IsRounded, IsArgmax, Near, Abs, Nearest;
    var k := n + 1;
    var r, t := MarginalsOf(s), TrueProbs(m);
    MarginalError(s, m, n);
    CountBound(Home, k, k);
    CountBound(Draw, k, k);
    CountBound(Away, k, k);
    Closer(r.home, t.home, probs.home, slack, Count(Home, k, k) + 1, k * k + 3);
    Closer(r.draw, t.draw, probs.draw, slack, Count(Draw, k, k) + 1, k * k + 3);
    Closer(r.away, t.away, probs.away, slack, Count(Away, k, k) + 1, k * k + 3);
    UnitsOutcomes(s.grid, k, k);
    TotalIsOne(s, m, n);
    NonNegativeSlack(probs.home, t.home, slack);
    NearEnough(s.totalProbability as real, UNIT, k * k + 3, slack);
    NearItself(s.tail.probability);
    NearItself(s.totalProbability);
    NearItself(s.mostLikely.probability);
  }

  lemma NearItself(k: int)
    ensures Near(k, k as real)
  {
  }

  lemma NonNegativeSlack(a: real, b: real, slack: real)
    requires Abs(a - b) <= slack
    ensures slack >= 0.0
  {
  }

  lemma NearEnough(a: real, b: real, terms: nat, slack: real)
    requires a == a.Floor as real && Abs(a - b) <= terms as real * 0.5
    requires slack >= 0.0 && slack * UNIT + terms as real * 0.5 <= TOLERANCE
    ensures Near(a.Floor, b)
  {
  }

  /** Grid and tail of a built object add up to one within half a unit per term. */
  lemma TotalIsOne(s: Stored, m: seq<seq<real>>, n: nat)
    requires Square(m) && n < |m| && IsBuilt(s, m, n)
    requires Mass(m, All, |m|, |m|) == 1.0
    ensures Abs(s.totalProbability as real - UNIT) <= ((n + 1) * (n + 1) + 3) as real * 0.5
  {
    hide Mass, Units, Count, IsRounded, IsArgmax, Abs, Nearest;
    var k := n + 1;
    var r, t := MarginalsOf(s), TrueProbs(m);
    MarginalError(s, m, n);
    UnitsOutcomes(s.grid, k, k);
    MassOutcomes(m, |m|, |m|);
    OutcomeCounts(k, k);
    Triangle(r.home as real, r.draw as real, r.away as real, t.home * UNIT, t.draw * UNIT, t.away * UNIT,
             (Count(Home, k, k) + 1) as real * 0.5, (Count(Draw, k, k) + 1) as real * 0.5,
             (Count(Away, k, k) + 1) as real * 0.5);
    Distribute(t.home, t.draw, t.away);
  }

  lemma Distribute(a: real, b: real, c: real)
    ensures a * UNIT + b * UNIT + c * UNIT == (a + b + c) * UNIT
  {
  }

  lemma Triangle(a: real, b: real, c: real, x: real, y: real, z: real, d: real, e: real, f: real)
    requires Abs(a - x) <= d && Abs(b - y) <= e && Abs(c - z) <= f
    ensures Abs((a + b + c) - (x + y + z)) <= d + e + f
  {
  }

  lemma Closer(got: int, truth: real, want: real, slack: real, terms: nat, limit: nat)
    requires Abs(got as real - truth * UNIT) <= terms as real * 0.5 && Abs(want - truth) <= slack
    requires terms <= limit && slack * UNIT + limit as real * 0.5 <= TOLERANCE
    ensures Near(got, want * UNIT)
  {
    assert Abs(want * UNIT - truth * UNIT) <= slack * UNIT;
  }

  lemma {:induction false} RowOutcomeCounts(i: int, w: nat)
    ensures RowCount(Home, i, w) + RowCount(Draw, i, w) + RowCount(Away, i, w) == w
  {
    if w > 0 { RowOutcomeCounts(i, w - 1); }
  }

  lemma {:induction false} OutcomeCounts(h: nat, w: nat)
    ensures Count(Home, h, w) + Count(Draw, h, w) + Count(Away, h, w) == h * w
  {
    if h > 0 {
      OutcomeCounts(h - 1, w);
      RowOutcomeCounts(h - 1, w);
      assert h * w == (h - 1) * w + w;
    }
  }
}
