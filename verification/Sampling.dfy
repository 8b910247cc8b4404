/** Score sampling: a Dixon-Coles score shape reweighted to a voice's own 1X2 mass,
    and scorelines drawn from the result by inverse transform.  Arithmetic is exact. */
module Sampling {
  import opened Prelude

  /** A square joint score matrix, flattened row by row: home goals, then away goals. */
  datatype Matrix = Matrix(width: nat, cells: seq<real>)

  datatype Outcome = Home | Draw | Away

  predicate Square(m: Matrix) { |m.cells| == m.width * m.width }

  function OutcomeOf(width: nat, k: nat): Outcome
    requires width > 0
  {
    if k / width > k % width then Home else if k / width == k % width then Draw else Away
  }

  ghost predicate NonNegative(cells: seq<real>) { forall x :: x in cells ==> x >= 0.0 }

  /** Mass of the first n cells. */
  function Prefix(cells: seq<real>, n: nat): real
    requires n <= |cells|
  {
    if n == 0 then 0.0 else Prefix(cells, n - 1) + cells[n - 1]
  }

  /** Mass of one outcome within the first n cells. */
  function MassUpTo(width: nat, cells: seq<real>, o: Outcome, n: nat): real
    requires width > 0 && n <= |cells|
  {
    if n == 0 then 0.0
    else MassUpTo(width, cells, o, n - 1) + if OutcomeOf(width, n - 1) == o then cells[n - 1] else 0.0
  }

  function Mass(width: nat, cells: seq<real>, o: Outcome): real
    requires width > 0
  {
    MassUpTo(width, cells, o, |cells|)
  }

  lemma {:induction false} MassNonNegative(width: nat, cells: seq<real>, o: Outcome, n: nat, k: nat)
    requires width > 0 && n <= |cells| && NonNegative(cells)
    ensures MassUpTo(width, cells, o, n) >= 0.0
    ensures k < n && OutcomeOf(width, k) == o ==> cells[k] <= MassUpTo(width, cells, o, n)
  {
    if n > 0 {
      assert cells[n - 1] in cells;
      MassNonNegative(width, cells, o, n - 1, k);
    }
  }

  lemma {:induction false} OutcomesPartition(width: nat, cells: seq<real>, n: nat)
    requires width > 0 && n <= |cells|
    ensures Prefix(cells, n) == MassUpTo(width, cells, Home, n) + MassUpTo(width, cells, Draw, n)
                                + MassUpTo(width, cells, Away, n)
  {
    if n > 0 { OutcomesPartition(width, cells, n - 1); }
  }

  // ---------------------------------------------------------------------
  // Reweighting
  // ---------------------------------------------------------------------

  function ProbOf(p: Probs, o: Outcome): real {
    match o case Home => p.home case Draw => p.draw case Away => p.away
  }

  /** Where an outcome without any mass puts its probability: 1-0, 0-0 or 0-1. */
  function Fallback(width: nat, o: Outcome): nat {
    match o case Home => width case Draw => 0 case Away => 1
  }

  /** The contribution of one outcome's pass to cell k. */
  function Shaped(m: Matrix, p: real, o: Outcome, k: nat): real
    requires m.width > 0 && k < |m.cells|
  {
    var total := Mass(m.width, m.cells, o);
    if total > 0.0 then (if OutcomeOf(m.width, k) == o then p * m.cells[k] / total else 0.0)
    else if k == Fallback(m.width, o) then p else 0.0
  }

  lemma FallbackInRegion(width: nat, o: Outcome)
    requires width >= 2
    ensures Fallback(width, o) < width * width && OutcomeOf(width, Fallback(width, o)) == o
  {
    AtLeast(width, 2, width);
    DivSmall(width);
    DivSelf(width);
  }

  lemma DivSmall(width: nat)
    requires width >= 2
    ensures 0 / width == 0 % width == 0 && 1 / width == 0 && 1 % width == 1
  {
  }

  lemma DivSelf(width: nat)
    requires width > 0
    ensures width / width == 1 && width % width == 0
  {
  }

  lemma FallbackCell(m: Matrix, o: Outcome)
    requires Square(m) && m.width >= 2
    ensures Fallback(m.width, o) < |m.cells| && OutcomeOf(m.width, Fallback(m.width, o)) == o
  {
    FallbackInRegion(m.width, o);
  }

  /** The contribution in its own outcome's cells. */
  lemma ShapedHere(m: Matrix, p: real, o: Outcome, k: nat)
    requires m.width > 0 && k < |m.cells| && OutcomeOf(m.width, k) == o
    ensures var total := Mass(m.width, m.cells, o);
      Shaped(m, p, o, k) == if total > 0.0 then p / total * m.cells[k] else if k == Fallback(m.width, o) then p else 0.0
  {
    hide Mass, OutcomeOf;
    var total := Mass(m.width, m.cells, o);
    if total > 0.0 { Regroup(p, m.cells[k], total); }
  }

  /** A pass touches only cells of its own outcome. */
  lemma ShapedElsewhere(m: Matrix, p: real, o: Outcome, k: nat)
    requires Square(m) && m.width >= 2 && k < |m.cells| && OutcomeOf(m.width, k) != o
    ensures Shaped(m, p, o, k) == 0.0
  {
    FallbackInRegion(m.width, o);
  }

  /** Within an outcome that has mass, the shape is the source's; otherwise everything
      sits on the fallback cell. */
  ghost predicate BorrowsShape(m: Matrix, combined: seq<real>)
    requires m.width > 0 && |combined| == |m.cells|
  {
    && (forall k, l :: (0 <= k < |combined| && 0 <= l < |combined|
                        && OutcomeOf(m.width, k) == OutcomeOf(m.width, l)
                        && Mass(m.width, m.cells, OutcomeOf(m.width, k)) > 0.0)
                       ==> combined[k] * m.cells[l] == combined[l] * m.cells[k])
    && (forall k :: (0 <= k < |combined| && Mass(m.width, m.cells, OutcomeOf(m.width, k)) == 0.0
                     && k != Fallback(m.width, OutcomeOf(m.width, k)))
                    ==> combined[k] == 0.0)
  }

  ghost predicate HasMasses(m: Matrix, probs: Probs, cells: seq<real>, divisor: real)
    requires m.width > 0 && divisor > 0.0
  {
    forall o :: Mass(m.width, cells, o) == ProbOf(probs, o) / divisor
  }

  method ConditionalScoreMatrix(m: Matrix, probs: Probs) returns (combined: seq<real>)
    requires Square(m) && m.width >= 2 && NonNegative(m.cells)
    requires probs.home >= 0.0 && probs.draw >= 0.0 && probs.away >= 0.0 && probs.Sum() > 0.0
    ensures |combined| == |m.cells| && NonNegative(combined) && Prefix(combined, |combined|) == 1.0
    ensures HasMasses(m, probs, combined, probs.Sum())
    ensures BorrowsShape(m, combined)
  {
    var n := |m.cells|;
    var grid: seq<real> := seq(n, _ => 0.0);
    var passes := [Home, Draw, Away];
    for i := 0 to 3
      invariant |grid| == n && PassesDone(m, probs, passes[..i], grid)
    {
      var next := AddPass(m, ProbOf(probs, passes[i]), passes[i], grid);
      PassDone(m, probs, passes, i, grid, next);
      grid := next;
    }
    assert passes[..3] == passes;
    AllPasses(m, probs, passes, grid);
    RawMasses(m, probs, grid);
    var sum := Prefix(grid, n);
    combined := seq(n, k requires 0 <= k < n => grid[k] / sum);
    NormalisedMasses(m, probs, grid, combined);
    NormalisedShape(m, probs, grid, combined);
  }

  /** One turn of the loop over outcomes: add the outcome's shaped mass, or its whole
      probability on the fallback cell. */
  method AddPass(m: Matrix, p: real, o: Outcome, grid: seq<real>) returns (next: seq<real>)
    requires Square(m) && m.width >= 2 && |grid| == |m.cells|
    ensures |next| == |grid| && forall k :: 0 <= k < |grid| ==> next[k] == grid[k] + Shaped(m, p, o, k)
  {
    hide Mass, OutcomeOf, Square;
    var total := Mass(m.width, m.cells, o);
    if total > 0.0 {
      next := seq(|grid|, k requires 0 <= k < |grid| =>
        grid[k] + if OutcomeOf(m.width, k) == o then p * m.cells[k] / total else 0.0);
    } else {
      FallbackCell(m, o);
      var f := Fallback(m.width, o);
      next := grid[f := grid[f] + p];
    }
  }

  ghost predicate PassesDone(m: Matrix, probs: Probs, passes: seq<Outcome>, grid: seq<real>)
    requires m.width > 0 && |grid| == |m.cells|
  {
    forall k :: 0 <= k < |grid| ==>
      grid[k] == if OutcomeOf(m.width, k) in passes
                 then Shaped(m, ProbOf(probs, OutcomeOf(m.width, k)), OutcomeOf(m.width, k), k) else 0.0
  }

  lemma AllPasses(m: Matrix, probs: Probs, passes: seq<Outcome>, grid: seq<real>)
    requires m.width > 0 && |grid| == |m.cells| && passes == [Home, Draw, Away]
    requires PassesDone(m, probs, passes, grid)
    ensures IsShaped(m, probs, grid)
  {
    hide Shaped, OutcomeOf;
    forall o: Outcome ensures o in passes {
      assert passes[0] == Home && passes[1] == Draw && passes[2] == Away;
      match o { case Home => case Draw => case Away => }
    }
  }

  lemma PassDone(m: Matrix, probs: Probs, passes: seq<Outcome>, i: nat, before: seq<real>, after: seq<real>)
    requires Square(m) && m.width >= 2 && passes == [Home, Draw, Away] && i < 3
    requires |before| == |after| == |m.cells| && PassesDone(m, probs, passes[..i], before)
    requires forall k :: 0 <= k < |before| ==> after[k] == before[k] + Shaped(m, ProbOf(probs, passes[i]), passes[i], k)
    ensures PassesDone(m, probs, passes[..i + 1], after)
  {
    hide Shaped, OutcomeOf;
    assert passes[..i + 1] == passes[..i] + [passes[i]];
    assert passes[i] !in passes[..i];
    forall k | 0 <= k < |after|
      ensures after[k] == if OutcomeOf(m.width, k) in passes[..i + 1]
                          then Shaped(m, ProbOf(probs, OutcomeOf(m.width, k)), OutcomeOf(m.width, k), k) else 0.0
    {
      if OutcomeOf(m.width, k) != passes[i] { ShapedElsewhere(m, ProbOf(probs, passes[i]), passes[i], k); }
    }
  }

  ghost predicate IsShaped(m: Matrix, probs: Probs, raw: seq<real>)
    requires m.width > 0
  {
    |raw| == |m.cells| &&
    forall k :: 0 <= k < |raw| ==> raw[k] == Shaped(m, ProbOf(probs, OutcomeOf(m.width, k)), OutcomeOf(m.width, k), k)
  }

  lemma {:induction false} ScaledMass(width: nat, cells: seq<real>, raw: seq<real>, o: Outcome, factor: real, n: nat)
    requires width > 0 && |raw| == |cells| && n <= |cells|
    requires forall k :: 0 <= k < n && OutcomeOf(width, k) == o ==> raw[k] == factor * cells[k]
    ensures MassUpTo(width, raw, o, n) == factor * MassUpTo(width, cells, o, n)
  {
    hide OutcomeOf;
    if n > 0 { ScaledMass(width, cells, raw, o, factor, n - 1); }
  }

  lemma {:induction false} SingleMass(width: nat, raw: seq<real>, o: Outcome, f: nat, n: nat)
    requires width > 0 && n <= |raw| && f < |raw| && OutcomeOf(width, f) == o
    requires forall k :: 0 <= k < |raw| && OutcomeOf(width, k) == o && k != f ==> raw[k] == 0.0
    ensures MassUpTo(width, raw, o, n) == if f < n then raw[f] else 0.0
  {
    if n > 0 { SingleMass(width, raw, o, f, n - 1); }
  }

  /** After the three passes each outcome holds exactly its probability. */
  lemma RawMass(m: Matrix, probs: Probs, raw: seq<real>, o: Outcome)
    requires Square(m) && m.width >= 2 && NonNegative(m.cells) && IsShaped(m, probs, raw)
    ensures Mass(m.width, raw, o) == ProbOf(probs, o)
  {
    hide MassUpTo, OutcomeOf, Shaped, Square;
    var total := Mass(m.width, m.cells, o);
    FallbackCell(m, o);
    forall k | 0 <= k < |raw| && OutcomeOf(m.width, k) == o
      ensures raw[k] == if total > 0.0 then ProbOf(probs, o) / total * m.cells[k]
                        else if k == Fallback(m.width, o) then ProbOf(probs, o) else 0.0
    {
      ShapedHere(m, ProbOf(probs, o), o, k);
    }
    if total > 0.0 {
      ScaledMass(m.width, m.cells, raw, o, ProbOf(probs, o) / total, |raw|);
    } else {
      SingleMass(m.width, raw, o, Fallback(m.width, o), |raw|);
    }
  }

  lemma Regroup(p: real, x: real, t: real)
    requires t > 0.0
    ensures p * x / t == (p / t) * x
    ensures p >= 0.0 && x >= 0.0 ==> p * x / t >= 0.0
  {
    var q := p / t;
    assert q * t == p;
    assert q * x * t == p * x;
    if p >= 0.0 && x >= 0.0 {
      assert p * x >= 0.0;
    }
  }

  lemma RawMasses(m: Matrix, probs: Probs, raw: seq<real>)
    requires Square(m) && m.width >= 2 && NonNegative(m.cells) && IsShaped(m, probs, raw)
    requires probs.home >= 0.0 && probs.draw >= 0.0 && probs.away >= 0.0
    ensures forall o :: Mass(m.width, raw, o) == ProbOf(probs, o)
    ensures Prefix(raw, |raw|) == probs.Sum()
    ensures NonNegative(raw)
  {
    hide MassUpTo, OutcomeOf, IsShaped;
    forall o ensures Mass(m.width, raw, o) == ProbOf(probs, o) { RawMass(m, probs, raw, o); }
    assert Prefix(raw, |raw|) == Mass(m.width, raw, Home) + Mass(m.width, raw, Draw) + Mass(m.width, raw, Away) by {
      OutcomesPartition(m.width, raw, |raw|);
    }
    forall x | x in raw ensures x >= 0.0 {
      var k :| 0 <= k < |raw| && raw[k] == x;
      RawNonNegative(m, probs, raw, k);
    }
  }

  lemma RawNonNegative(m: Matrix, probs: Probs, raw: seq<real>, k: nat)
    requires m.width > 0 && NonNegative(m.cells) && IsShaped(m, probs, raw) && k < |raw|
    requires probs.home >= 0.0 && probs.draw >= 0.0 && probs.away >= 0.0
    ensures raw[k] >= 0.0
  {
    hide Mass, OutcomeOf;
    var o := OutcomeOf(m.width, k);
    assert m.cells[k] in m.cells;
    if Mass(m.width, m.cells, o) > 0.0 { Regroup(ProbOf(probs, o), m.cells[k], Mass(m.width, m.cells, o)); }
  }

  ghost predicate IsQuotient(combined: seq<real>, raw: seq<real>, sum: real)
    requires sum > 0.0
  {
    |combined| == |raw| && forall k :: 0 <= k < |raw| ==> combined[k] == raw[k] / sum
  }

  lemma NormalisedMasses(m: Matrix, probs: Probs, raw: seq<real>, combined: seq<real>)
    requires m.width > 0 && NonNegative(raw) && probs.Sum() > 0.0
    requires forall o :: Mass(m.width, raw, o) == ProbOf(probs, o)
    requires IsQuotient(combined, raw, probs.Sum())
    ensures NonNegative(combined)
    ensures HasMasses(m, probs, combined, probs.Sum())
    ensures Prefix(combined, |combined|) == 1.0
  {
    hide MassUpTo, OutcomeOf;
    var sum := probs.Sum();
    forall o ensures Mass(m.width, combined, o) == ProbOf(probs, o) / sum {
      QuotientMass(m.width, raw, combined, sum, o);
    }
    assert Prefix(combined, |combined|) ==
           Mass(m.width, combined, Home) + Mass(m.width, combined, Draw) + Mass(m.width, combined, Away) by {
      OutcomesPartition(m.width, combined, |combined|);
    }
    Thirds(probs.home, probs.draw, probs.away);
    forall x | x in combined ensures x >= 0.0 {
      var k :| 0 <= k < |combined| && combined[k] == x;
      assert raw[k] in raw;
      Regroup(1.0, raw[k], sum);
    }
  }

  lemma QuotientMass(width: nat, raw: seq<real>, combined: seq<real>, sum: real, o: Outcome)
    requires width > 0 && sum > 0.0 && IsQuotient(combined, raw, sum)
    ensures Mass(width, combined, o) == Mass(width, raw, o) / sum
  {
    hide MassUpTo, OutcomeOf;
    forall k | 0 <= k < |raw| ensures combined[k] == (1.0 / sum) * raw[k] {
      Regroup(1.0, raw[k], sum);
    }
    ScaledMass(width, raw, combined, o, 1.0 / sum, |raw|);
    Regroup(1.0, Mass(width, raw, o), sum);
  }

  lemma FallbackOnly(m: Matrix, probs: Probs, raw: seq<real>, combined: seq<real>)
    requires m.width > 0 && IsShaped(m, probs, raw) && probs.Sum() > 0.0
    requires IsQuotient(combined, raw, probs.Sum())
    ensures |combined| == |m.cells| == |raw|
    ensures forall k :: (0 <= k < |combined| && Mass(m.width, m.cells, OutcomeOf(m.width, k)) == 0.0
                         && k != Fallback(m.width, OutcomeOf(m.width, k)))
                        ==> combined[k] == 0.0
  {
    hide Mass, OutcomeOf;
  }

  lemma QuotientCell(m: Matrix, probs: Probs, raw: seq<real>, combined: seq<real>, k: nat)
    requires m.width > 0 && IsShaped(m, probs, raw) && probs.Sum() > 0.0
    requires IsQuotient(combined, raw, probs.Sum()) && k < |combined|
    requires Mass(m.width, m.cells, OutcomeOf(m.width, k)) > 0.0
    ensures var o := OutcomeOf(m.width, k);
      combined[k] * probs.Sum() == raw[k] && raw[k] * Mass(m.width, m.cells, o) == ProbOf(probs, o) * m.cells[k]
  {
    hide Mass, OutcomeOf;
    var o := OutcomeOf(m.width, k);
    Undo(raw[k], probs.Sum());
    Undo(ProbOf(probs, o) * m.cells[k], Mass(m.width, m.cells, o));
  }

  lemma Undo(a: real, b: real)
    requires b > 0.0
    ensures a / b * b == a
  {
  }

  lemma ProportionalCells(a: real, b: real, ra: real, rb: real, p: real, x: real, y: real, t: real, s: real)
    requires t > 0.0 && s > 0.0
    requires a * s == ra && ra * t == p * x && b * s == rb && rb * t == p * y
    ensures a * y == b * x
  {
    var st := s * t;
    assert st > 0.0;
    assert a * st == p * x && b * st == p * y by {
      assert a * st == a * s * t && b * st == b * s * t;
    }
    CrossCancel(a, b, x, y, p, st);
  }

  lemma CrossCancel(a: real, b: real, x: real, y: real, p: real, c: real)
    requires c > 0.0 && a * c == p * x && b * c == p * y
    ensures a * y == b * x
  {
    assert (a * y) * c == (a * c) * y == (p * x) * y;
    assert (b * x) * c == (b * c) * x == (p * y) * x;
    assert (a * y - b * x) * c == 0.0;
  }

  lemma NormalisedShape(m: Matrix, probs: Probs, raw: seq<real>, combined: seq<real>)
    requires m.width > 0 && IsShaped(m, probs, raw) && probs.Sum() > 0.0
    requires IsQuotient(combined, raw, probs.Sum())
    ensures BorrowsShape(m, combined)
  {
    hide Mass, OutcomeOf, IsShaped, IsQuotient;
    FallbackOnly(m, probs, raw, combined);
    forall k, l | 0 <= k < |combined| && 0 <= l < |combined|
                  && OutcomeOf(m.width, k) == OutcomeOf(m.width, l)
                  && Mass(m.width, m.cells, OutcomeOf(m.width, k)) > 0.0
      ensures combined[k] * m.cells[l] == combined[l] * m.cells[k]
    {
      QuotientCell(m, probs, raw, combined, k);
      QuotientCell(m, probs, raw, combined, l);
      var o := OutcomeOf(m.width, k);
      ProportionalCells(combined[k], combined[l], raw[k], raw[l], ProbOf(probs, o), m.cells[k], m.cells[l],
                        Mass(m.width, m.cells, o), probs.Sum());
    }
  }

  lemma Thirds(a: real, b: real, c: real)
    requires a + b + c > 0.0
    ensures a / (a + b + c) + b / (a + b + c) + c / (a + b + c) == 1.0
  {
  }

  // ---------------------------------------------------------------------
  // Drawing a scoreline
  // ---------------------------------------------------------------------

  ghost predicate IsDistribution(m: Matrix) {
    Square(m) && m.width > 0 && NonNegative(m.cells) && Prefix(m.cells, |m.cells|) == 1.0
  }

  /** `cumsum(flat)` with the last entry set to 1.0. */
  function Cdf(cells: seq<real>): (cdf: seq<real>)
    requires cells != []
    ensures |cdf| == |cells|
  {
    seq(|cells|, k requires 0 <= k < |cells| => Prefix(cells, k + 1))[|cells| - 1 := 1.0]
  }

  /** `searchsorted(cdf, u, side="right")`: the first entry above u. */
  function SearchRight(cdf: seq<real>, u: real): (k: nat)
    ensures k <= |cdf|
    ensures forall j :: 0 <= j < k ==> cdf[j] <= u
    ensures k < |cdf| ==> cdf[k] > u
  {
    if cdf == [] || cdf[0] > u then 0 else 1 + SearchRight(cdf[1..], u)
  }

  function SampledCell(m: Matrix, u: real): nat
    requires m.cells != []
  {
    SearchRight(Cdf(m.cells), u)
  }

  /** `sampled // width, sampled % width` */
  function SampleScore(m: Matrix, u: real): (nat, nat)
    requires m.cells != [] && m.width > 0
  {
    CellScore(SampledCell(m, u), m.width)
  }

  function CellScore(k: nat, width: nat): (nat, nat)
    requires width > 0
  {
    (k / width, k % width)
  }

  lemma {:induction false} PrefixMonotone(cells: seq<real>, i: nat, j: nat)
    requires i <= j <= |cells| && NonNegative(cells)
    ensures Prefix(cells, i) <= Prefix(cells, j)
  {
    if i < j {
      assert cells[j - 1] in cells;
      PrefixMonotone(cells, i, j - 1);
    }
  }

  /** Inverse transform is exact: a draw lands on cell k precisely when it falls in the
      cell's own interval, whose length is the cell's probability. */
  lemma SampledExactly(m: Matrix, u: real, k: nat)
    requires IsDistribution(m) && m.cells != [] && 0.0 <= u < 1.0 && k < |m.cells|
    ensures SampledCell(m, u) < |m.cells|
    ensures SampledCell(m, u) == k <==> Prefix(m.cells, k) <= u < Prefix(m.cells, k + 1)
  {
    var n := |m.cells|;
    var cdf := Cdf(m.cells);
    var s := SampledCell(m, u);
    assert forall j :: 0 <= j < n ==> cdf[j] == Prefix(m.cells, j + 1);
    assert cdf[n - 1] == 1.0;
    if s < k { PrefixMonotone(m.cells, s + 1, k); }
    if s > k { assert cdf[k] <= u; }
    if s == k && k > 0 { assert cdf[k - 1] <= u; }
  }

  /** Every draw decodes to a scoreline inside the matrix that has positive probability. */
  lemma SampledPossible(m: Matrix, u: real)
    requires IsDistribution(m) && m.cells != [] && 0.0 <= u < 1.0
    ensures var k, score := SampledCell(m, u), SampleScore(m, u);
      && k < |m.cells| && m.cells[k] > 0.0
      && score.0 < m.width && score.1 < m.width && k == score.0 * m.width + score.1
  {
    var k := SampledCell(m, u);
    SampledExactly(m, u, if k < |m.cells| then k else 0);
    Decode(k, m.width);
  }

  lemma Decode(k: nat, w: nat)
    requires w > 0 && k < w * w
    ensures k / w < w && k % w < w && k == (k / w) * w + k % w
  {
    var q := k / w;
    assert k == q * w + k % w;
    if q >= w { AtLeast(q, w, w); }
  }

  lemma AtLeast(a: int, b: int, w: int)
    requires a >= b && w >= 0
    ensures a * w >= b * w
  {
  }

  /** An outcome a voice gives no probability is never simulated. */
  lemma ImpossibleOutcomeNeverSampled(m: Matrix, u: real, o: Outcome)
    requires IsDistribution(m) && m.cells != [] && 0.0 <= u < 1.0
    requires Mass(m.width, m.cells, o) == 0.0
    ensures var score := SampleScore(m, u);
      o != if score.0 > score.1 then Home else if score.0 == score.1 then Draw else Away
  {
    SampledPossible(m, u);
    var k := SampledCell(m, u);
    MassNonNegative(m.width, m.cells, o, |m.cells|, k);
  }

  /** The cell of a scoreline. */
  function CellAt(m: Matrix, cells: seq<real>, home: nat, away: nat): real
    requires Square(m) && |cells| == |m.cells| && home < m.width && away < m.width
  {
    Position(home, away, m.width);
    cells[home * m.width + away]
  }

  lemma Position(home: nat, away: nat, width: nat)
    requires home < width && away < width
    ensures home * width + away < width * width
    ensures (home * width + away) / width == home && (home * width + away) % width == away
  {
    AtLeast(width - 1, home, width);
    var k := home * width + away;
    assert k == (k / width) * width + k % width;
    if k / width > home { AtLeast(k / width, home + 1, width); }
    if k / width < home { AtLeast(home, k / width + 1, width); }
  }

  /** A cell's outcome compares its two goal counts. */
  lemma OutcomeMeans(home: nat, away: nat, width: nat)
    requires home < width && away < width
    ensures OutcomeOf(width, home * width + away) == if home > away then Home else if home < away then Away else Draw
  {
    Position(home, away, width);
  }

  /** When the source gives an outcome nothing, its whole probability goes to one scoreline:
      1-0, 0-0 or 0-1. */
  lemma FallbackMeans(m: Matrix, probs: Probs, combined: seq<real>, o: Outcome)
    requires Square(m) && m.width >= 2 && |combined| == |m.cells| && probs.Sum() > 0.0
    requires HasMasses(m, probs, combined, probs.Sum()) && BorrowsShape(m, combined) && Mass(m.width, m.cells, o) == 0.0
    ensures match o
      case Home => CellAt(m, combined, 1, 0) == probs.home / probs.Sum()
      case Draw => CellAt(m, combined, 0, 0) == probs.draw / probs.Sum()
      case Away => CellAt(m, combined, 0, 1) == probs.away / probs.Sum()
  {
    hide MassUpTo, OutcomeOf;
    FallbackCell(m, o);
    SingleMass(m.width, combined, o, Fallback(m.width, o), |combined|);
    assert Mass(m.width, combined, o) == ProbOf(probs, o) / probs.Sum();
    assert 1 * m.width + 0 == m.width && 0 * m.width == 0;
  }
}
