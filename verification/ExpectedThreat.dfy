/** The expected-threat value iteration over a grid of pitch cells. */
module ExpectedThreat {
  import opened EventStream

  type Grid = seq<real>

  datatype Slice = Slice(actions: seq<nat>, shots: seq<nat>, goals: seq<nat>, moves: Counter)
  {
    predicate Shape() {
      && |actions| == |shots| == |goals| == CELLS
      && forall i :: 0 <= i < |moves| ==> moves[i].origin < CELLS && moves[i].destination < CELLS
    }

    /** Goals are shots, and shots and outgoing moves are distinct actions. */
    ghost predicate Nested() {
      && Shape()
      && forall c :: 0 <= c < CELLS ==> goals[c] <= shots[c] && shots[c] + Outgoing(moves, c) <= actions[c]
    }
  }

  function Share(a: nat, b: nat): real
    requires b > 0
  {
    a as real / b as real
  }

  ghost predicate IsGrid(v: Grid) { |v| == CELLS }

  ghost predicate Reaches(moves: Counter) { forall i :: 0 <= i < |moves| ==> moves[i].destination < CELLS }

  function Scaled(k: real, x: real): real { k * x }

  /** What the moves out of a cell carry back to it. */
  function Flow(moves: Counter, origin: nat, denom: nat, values: Grid): real
    requires denom > 0 && |values| == CELLS
    requires forall i :: 0 <= i < |moves| ==> moves[i].destination < CELLS
  {
    if moves == [] then 0.0
    else
      var last := moves[|moves| - 1];
      Flow(moves[..|moves| - 1], origin, denom, values)
      + if last.origin == origin then Scaled(Share(last.count, denom), values[last.destination]) else 0.0
  }

  function Immediate(slice: Slice, c: nat): real
    requires slice.Shape() && c < CELLS && slice.actions[c] > 0
  {
    Scaled(Share(slice.shots[c], slice.actions[c]),
           if slice.shots[c] > 0 then Share(slice.goals[c], slice.shots[c]) else 0.0)
  }

  function Worth(slice: Slice, values: Grid, c: nat): real
    requires slice.Shape() && |values| == CELLS && c < CELLS
  {
    if slice.actions[c] == 0 then 0.0
    else Immediate(slice, c) + Flow(slice.moves, c, slice.actions[c], values)
  }

  /** The right-hand side of the expected-threat equation. */
  function Step(slice: Slice, values: Grid): (r: Grid)
    requires slice.Shape() && |values| == CELLS
    ensures |r| == CELLS
  {
    seq(CELLS, c requires 0 <= c < CELLS => Worth(slice, values, c))
  }

  function Iterate(slice: Slice, k: nat): (r: Grid)
    requires slice.Shape()
    ensures |r| == CELLS
  {
    if k == 0 then seq(CELLS, c => 0.0) else Step(slice, Iterate(slice, k - 1))
  }

  ghost predicate Below(u: Grid, v: Grid) {
    |u| == |v| == CELLS && forall c :: 0 <= c < CELLS ==> u[c] <= v[c]
  }

  ghost predicate InUnit(v: Grid) {
    |v| == CELLS && forall c :: 0 <= c < CELLS ==> 0.0 <= v[c] <= 1.0
  }

  function Gap(a: real, b: real): real { if a < b then b - a else a - b }

  ghost predicate Within(u: Grid, v: Grid, e: real) {
    |u| == |v| == CELLS && forall c :: 0 <= c < CELLS ==> Gap(u[c], v[c]) <= e
  }

  lemma ShareSum(a: nat, b: nat, d: nat)
    requires d > 0
    ensures Share(a, d) + Share(b, d) == Share(a + b, d)
    ensures 0.0 <= Share(a, d)
    ensures a <= d ==> Share(a, d) <= 1.0
  {
    var x, y := Share(a, d), Share(b, d);
    assert x * (d as real) == a as real && y * (d as real) == b as real;
    assert (x + y) * (d as real) == (a + b) as real;
    Quotient(x + y, a + b, d);
    ShareBounds(a, d);
  }

  lemma Quotient(x: real, n: nat, d: nat)
    requires d > 0 && x * (d as real) == n as real
    ensures x == Share(n, d)
  {
    Cancel(x, n as real, d as real);
  }

  lemma Cancel(x: real, n: real, d: real)
    requires d > 0.0 && x * d == n
    ensures x == n / d
  {
    var q := n / d;
    assert q * d == n;
    assert (x - q) * d == 0.0;
    if x - q > 0.0 { Product(x - q, d); } else if x - q < 0.0 { Product(q - x, d); }
  }

  lemma Product(x: real, y: real)
    requires x > 0.0 && y > 0.0
    ensures x * y > 0.0
  {
  }

  lemma ShareBounds(a: nat, d: nat)
    requires d > 0
    ensures 0.0 <= Share(a, d)
    ensures a <= d ==> Share(a, d) <= 1.0
  {
  }

  lemma ScaleLe(k: real, x: real, y: real)
    requires 0.0 <= k && x <= y
    ensures Scaled(k, x) <= Scaled(k, y)
  {
  }

  lemma Trivial(k: real, e: real)
    ensures Scaled(k, 1.0) == k && Scaled(k, 0.0) == 0.0
    ensures Scaled(e, k) == Scaled(k, e)
    ensures 0.0 <= k && 0.0 <= e ==> 0.0 <= Scaled(k, e)
  {
  }

  lemma {:induction false} FlowMonotone(moves: Counter, origin: nat, denom: nat, u: Grid, v: Grid)
    requires denom > 0 && Below(u, v) && Reaches(moves)
    ensures Flow(moves, origin, denom, u) <= Flow(moves, origin, denom, v)
  {
    hide Share, Scaled;
    if moves != [] {
      var last := moves[|moves| - 1];
      FlowMonotone(moves[..|moves| - 1], origin, denom, u, v);
      ShareSum(last.count, 0, denom);
      ScaleLe(Share(last.count, denom), u[last.destination], v[last.destination]);
    }
  }

  lemma {:induction false} FlowInUnit(moves: Counter, origin: nat, denom: nat, v: Grid)
    requires denom > 0 && InUnit(v) && Reaches(moves)
    ensures 0.0 <= Flow(moves, origin, denom, v) <= Share(Outgoing(moves, origin), denom)
  {
    hide Share, Scaled;
    if moves == [] {
      ShareSum(0, 0, denom);
    } else {
      var init, last := moves[..|moves| - 1], moves[|moves| - 1];
      FlowInUnit(init, origin, denom, v);
      ShareSum(Outgoing(init, origin), last.count, denom);
      ShareSum(last.count, 0, denom);
      ScaleLe(Share(last.count, denom), v[last.destination], 1.0);
      Trivial(Share(last.count, denom), 0.0);
      ScaleLe(Share(last.count, denom), 0.0, v[last.destination]);
    }
  }

  /** Moving each cell by at most e moves what flows back by at most e per unit of share. */
  lemma {:induction false} FlowWithin(moves: Counter, origin: nat, denom: nat, u: Grid, v: Grid, e: real)
    requires denom > 0 && Within(u, v, e) && 0.0 <= e && Reaches(moves)
    ensures Gap(Flow(moves, origin, denom, u), Flow(moves, origin, denom, v))
      <= Scaled(Share(Outgoing(moves, origin), denom), e)
  {
    hide Share, Scaled;
    if moves == [] {
      ShareSum(0, 0, denom);
      Trivial(Share(0, denom), e);
    } else {
      var init, last := moves[..|moves| - 1], moves[|moves| - 1];
      FlowWithin(init, origin, denom, u, v, e);
      ShareSum(Outgoing(init, origin), last.count, denom);
      if last.origin == origin {
        ShareSum(last.count, 0, denom);
        ScaledGap(Share(last.count, denom), u[last.destination], v[last.destination], e);
        Distributes(Share(Outgoing(init, origin), denom), Share(last.count, denom), e);
      }
    }
  }

  lemma ScaledGap(k: real, x: real, y: real, e: real)
    requires 0.0 <= k && Gap(x, y) <= e
    ensures Gap(Scaled(k, x), Scaled(k, y)) <= Scaled(k, e)
  {
    ScaleLe(k, x - y, e);
    ScaleLe(k, y - x, e);
  }

  lemma Distributes(a: real, b: real, e: real)
    ensures Scaled(a + b, e) == Scaled(a, e) + Scaled(b, e)
  {
  }

  lemma ImmediateInUnit(slice: Slice, c: nat)
    requires slice.Nested() && c < CELLS && slice.actions[c] > 0
    ensures 0.0 <= Immediate(slice, c) <= Share(slice.shots[c], slice.actions[c])
  {
    hide Share, Scaled;
    ShareSum(slice.shots[c], 0, slice.actions[c]);
    Trivial(Share(slice.shots[c], slice.actions[c]), 0.0);
    if slice.shots[c] > 0 {
      ShareSum(slice.goals[c], 0, slice.shots[c]);
      ScaleLe(Share(slice.shots[c], slice.actions[c]), Share(slice.goals[c], slice.shots[c]), 1.0);
      ScaleLe(Share(slice.shots[c], slice.actions[c]), 0.0, Share(slice.goals[c], slice.shots[c]));
    }
  }

  lemma StepMonotone(slice: Slice, u: Grid, v: Grid)
    requires slice.Shape() && Below(u, v)
    ensures Below(Step(slice, u), Step(slice, v))
  {
    hide Flow, Immediate;
    forall c | 0 <= c < CELLS ensures Step(slice, u)[c] <= Step(slice, v)[c] {
      if slice.actions[c] > 0 { FlowMonotone(slice.moves, c, slice.actions[c], u, v); }
    }
  }

  lemma StepInUnit(slice: Slice, v: Grid)
    requires slice.Nested() && InUnit(v)
    ensures InUnit(Step(slice, v))
  {
    hide Flow, Immediate, Share, Outgoing;
    forall c | 0 <= c < CELLS ensures 0.0 <= Step(slice, v)[c] <= 1.0 {
      if slice.actions[c] > 0 {
        FlowInUnit(slice.moves, c, slice.actions[c], v);
        ImmediateInUnit(slice, c);
        ShareSum(slice.shots[c], Outgoing(slice.moves, c), slice.actions[c]);
        ShareSum(slice.shots[c] + Outgoing(slice.moves, c), 0, slice.actions[c]);
      }
    }
  }

  lemma StepWithin(slice: Slice, u: Grid, v: Grid, e: real)
    requires slice.Nested() && Within(u, v, e) && 0.0 <= e
    ensures Within(Step(slice, u), Step(slice, v), e)
  {
    hide Flow, Immediate, Share, Outgoing, Scaled;
    Trivial(e, 0.0);
    forall c | 0 <= c < CELLS ensures Gap(Step(slice, u)[c], Step(slice, v)[c]) <= e {
      if slice.actions[c] > 0 {
        FlowWithin(slice.moves, c, slice.actions[c], u, v, e);
        ShareSum(Outgoing(slice.moves, c), 0, slice.actions[c]);
        Trivial(Share(Outgoing(slice.moves, c), slice.actions[c]), e);
        ScaleLe(e, Share(Outgoing(slice.moves, c), slice.actions[c]), 1.0);
      }
    }
  }

  /** The iterates climb, stay in the unit interval, and stay below every non-negative grid
      that meets the equation (or lies above its right-hand side). */
  lemma {:induction false} IteratesClimb(slice: Slice, k: nat)
    requires slice.Nested()
    ensures InUnit(Iterate(slice, k)) && Below(Iterate(slice, k), Iterate(slice, k + 1))
  {
    hide Slice.Nested, Step;
    assert slice.Shape() by { NestedShape(slice); }
    if k == 0 {
      StepInUnit(slice, Iterate(slice, 0));
    } else {
      IteratesClimb(slice, k - 1);
      StepInUnit(slice, Iterate(slice, k - 1));
      StepMonotone(slice, Iterate(slice, k - 1), Iterate(slice, k));
    }
  }

  lemma NestedShape(slice: Slice)
    requires slice.Nested()
    ensures slice.Shape()
  {
  }

  lemma {:induction false} IteratesBelowSolutions(slice: Slice, k: nat, w: Grid)
    requires slice.Shape() && IsGrid(w)
    requires forall c :: 0 <= c < CELLS ==> w[c] >= 0.0
    requires Below(Step(slice, w), w)
    ensures Below(Iterate(slice, k), w)
  {
    hide Step;
    if k > 0 {
      IteratesBelowSolutions(slice, k - 1, w);
      StepMonotone(slice, Iterate(slice, k - 1), w);
    }
  }

  const ROUNDS: nat := 100
  const TOLERANCE: real := 0.0000000001

  ghost predicate Settled(u: Grid, v: Grid) {
    |u| == |v| == CELLS && forall c :: 0 <= c < CELLS ==> Gap(u[c], v[c]) < TOLERANCE
  }

  /** The iteration stops at the first round that changes every cell by less than the
      tolerance, or after the last round. */
  ghost predicate StopsAt(slice: Slice, k: nat)
    requires slice.Shape()
  {
    && 1 <= k <= ROUNDS
    && (k == ROUNDS || Settled(Iterate(slice, k - 1), Iterate(slice, k)))
    && forall j :: 1 <= j < k ==> !Settled(Iterate(slice, j - 1), Iterate(slice, j))
  }

  /** A grid the iteration stopped at before the last round meets the equation up to the
      tolerance in every cell. */
  lemma SettledSolves(slice: Slice, k: nat)
    requires slice.Nested() && StopsAt(slice, k) && k < ROUNDS
    ensures Within(Iterate(slice, k), Step(slice, Iterate(slice, k)), TOLERANCE)
  {
    hide Step;
    assert Settled(Iterate(slice, k - 1), Iterate(slice, k));
    StepWithin(slice, Iterate(slice, k - 1), Iterate(slice, k), TOLERANCE);
  }

  lemma FlowMore(moves: Counter, i: nat, origin: nat, denom: nat, values: Grid)
    requires denom > 0 && |values| == CELLS && i < |moves| && Reaches(moves)
    ensures Flow(moves[..i + 1], origin, denom, values)
      == Flow(moves[..i], origin, denom, values)
         + if moves[i].origin == origin then Scaled(Share(moves[i].count, denom), values[moves[i].destination]) else 0.0
  {
    assert moves[..i + 1][..i] == moves[..i];
  }

  /** One cell of one round. */
  method UpdateCell(slice: Slice, values: Grid, origin: nat) returns (r: real)
    requires slice.Shape() && |values| == CELLS && origin < CELLS
    ensures r == Worth(slice, values, origin)
  {
    hide Flow;
    var denom := slice.actions[origin];
    if denom == 0 {
      return 0.0;
    }
    var shotValue := 0.0;
    if slice.shots[origin] > 0 {
      shotValue := slice.goals[origin] as real / slice.shots[origin] as real;
    }
    var immediate := (slice.shots[origin] as real / denom as real) * shotValue;
    var continuation := 0.0;
    NoFlow(origin, denom, values);
    for i := 0 to |slice.moves|
      invariant continuation == Flow(slice.moves[..i], origin, denom, values)
    {
      FlowMore(slice.moves, i, origin, denom, values);
      if slice.moves[i].origin == origin {
        var move := slice.moves[i];
        continuation := continuation + (move.count as real / denom as real) * values[move.destination];
      }
    }
    assert slice.moves[..|slice.moves|] == slice.moves;
    r := immediate + continuation;
  }

  lemma NoFlow(origin: nat, denom: nat, values: Grid)
    requires denom > 0 && |values| == CELLS
    ensures Flow([], origin, denom, values) == 0.0
  {
  }

  method LargestGap(u: Grid, v: Grid) returns (most: real)
    requires |u| == |v| == CELLS
    ensures most < TOLERANCE <==> Settled(u, v)
  {
    most := 0.0;
    for c := 0 to CELLS
      invariant most >= 0.0
      invariant most < TOLERANCE <==> forall j :: 0 <= j < c ==> Gap(u[j], v[j]) < TOLERANCE
    {
      if Gap(u[c], v[c]) > most { most := Gap(u[c], v[c]); }
    }
  }

  method SolveXt(slice: Slice) returns (values: Grid)
    requires slice.Shape()
    ensures exists k :: StopsAt(slice, k) && values == Iterate(slice, k)
  {
    hide Worth, Slice.Shape, Settled;
    values := seq(CELLS, c => 0.0);
    ghost var rounds := ROUNDS;
    for round := 0 to ROUNDS
      invariant rounds == ROUNDS
      invariant values == Iterate(slice, round)
      invariant forall j :: 1 <= j <= round ==> !Settled(Iterate(slice, j - 1), Iterate(slice, j))
    {
      var updated: Grid := [];
      for origin := 0 to CELLS
        invariant |updated| == origin
        invariant forall c :: 0 <= c < origin ==> updated[c] == Worth(slice, values, c)
      {
        var value := UpdateCell(slice, values, origin);
        updated := updated + [value];
      }
      assert updated == Step(slice, values);
      var most := LargestGap(values, updated);
      if most < TOLERANCE {
        values := updated;
        rounds := round + 1;
        break;
      }
      values := updated;
    }
    assert StopsAt(slice, rounds) && values == Iterate(slice, rounds);
  }

  // ---------------------------------------------------------------------
  // The equation in counts
  // ---------------------------------------------------------------------

  /** The moves out of a cell, each worth its destination, over the first n destinations. */
  function Inflow(moves: Counter, values: Grid, c: nat, n: nat): real
    requires n <= |values|
  {
    if n == 0 then 0.0 else Inflow(moves, values, c, n - 1) + Scaled(CountOf(moves, c, n - 1) as real, values[n - 1])
  }

  lemma {:induction false} InflowSnoc(moves: Counter, last: Entry, values: Grid, c: nat, n: nat)
    requires n <= |values|
    ensures Inflow(moves + [last], values, c, n)
      == Inflow(moves, values, c, n)
         + if last.origin == c && last.destination < n
           then Scaled(last.count as real, values[last.destination])
           else 0.0
  {
    hide Scaled, CountOf;
    if n > 0 {
      InflowSnoc(moves, last, values, c, n - 1);
      var before := CountOf(moves, c, n - 1);
      CountSnoc(moves, last, c, n - 1);
      if last.origin == c && last.destination == n - 1 { Spread(before, last.count, values[n - 1]); }
    }
  }

  lemma CountSnoc(moves: Counter, last: Entry, o: nat, d: nat)
    ensures CountOf(moves + [last], o, d)
      == CountOf(moves, o, d) + if last.origin == o && last.destination == d then last.count else 0
  {
    assert (moves + [last])[..|moves|] == moves;
  }

  lemma Spread(a: nat, b: nat, x: real)
    ensures Scaled((a + b) as real, x) == Scaled(a as real, x) + Scaled(b as real, x)
  {
  }

  lemma ShareTimes(n: nat, d: nat, x: real)
    requires d > 0
    ensures Scaled(d as real, Scaled(Share(n, d), x)) == Scaled(n as real, x)
    ensures Scaled(d as real, Share(n, d)) == n as real
  {
    var q := Share(n, d);
    assert q * (d as real) == n as real;
    assert (d as real) * (q * x) == (q * (d as real)) * x;
  }

  lemma {:induction false} NoInflow(values: Grid, c: nat, n: nat)
    requires n <= |values|
    ensures Inflow([], values, c, n) == 0.0
  {
    if n > 0 { NoInflow(values, c, n - 1); }
  }

  lemma {:induction false} FlowIsInflow(moves: Counter, c: nat, denom: nat, values: Grid)
    requires denom > 0 && |values| == CELLS && Reaches(moves)
    ensures Scaled(denom as real, Flow(moves, c, denom, values)) == Inflow(moves, values, c, CELLS)
  {
    hide Share, Inflow, Scaled;
    if moves == [] {
      NoInflow(values, c, CELLS);
      Trivial(denom as real, 0.0);
    } else {
      var init, last := moves[..|moves| - 1], moves[|moves| - 1];
      assert moves == init + [last];
      FlowIsInflow(init, c, denom, values);
      InflowSnoc(init, last, values, c, CELLS);
      if last.origin == c {
        ShareTimes(last.count, denom, values[last.destination]);
        ScaledSum(denom as real, Flow(init, c, denom, values),
                  Scaled(Share(last.count, denom), values[last.destination]));
      }
    }
  }

  lemma ScaledSum(k: real, x: real, y: real)
    ensures Scaled(k, x + y) == Scaled(k, x) + Scaled(k, y)
  {
  }

  lemma ImmediateIsGoals(slice: Slice, c: nat)
    requires slice.Nested() && c < CELLS && slice.actions[c] > 0
    ensures Scaled(slice.actions[c] as real, Immediate(slice, c)) == slice.goals[c] as real
  {
    hide Scaled, Share;
    var a, s, g := slice.actions[c], slice.shots[c], slice.goals[c];
    if s > 0 {
      ShareTimes(s, a, Share(g, s));
      ShareTimes(g, s, 0.0);
      AsScaled(s as real, Share(g, s));
    } else {
      Trivial(Share(s, a), 0.0);
      Trivial(a as real, 0.0);
    }
  }

  lemma AsScaled(k: real, x: real)
    ensures Scaled(k, x) == k * x
  {
  }

  lemma CountsScaled(slice: Slice, values: Grid, c: nat)
    requires slice.Nested() && |values| == CELLS && c < CELLS && slice.actions[c] > 0
    ensures Scaled(slice.actions[c] as real, Step(slice, values)[c])
      == slice.goals[c] as real + Inflow(slice.moves, values, c, CELLS)
  {
    hide Flow, Immediate, Scaled, Inflow, Outgoing;
    var a := slice.actions[c];
    ImmediateIsGoals(slice, c);
    FlowIsInflow(slice.moves, c, a, values);
    ScaledSum(a as real, Immediate(slice, c), Flow(slice.moves, c, a, values));
  }

  /** One round in counts: a cell's actions times its new worth are its goals plus each move
      out of it at its destination's worth; a cell without actions is worth nothing. */
  lemma EquationInCounts(slice: Slice, values: Grid, c: nat)
    requires slice.Nested() && |values| == CELLS && c < CELLS
    ensures var next := Step(slice, values);
      if slice.actions[c] == 0 then next[c] == 0.0
      else (slice.actions[c] as real) * next[c] == slice.goals[c] as real + Inflow(slice.moves, values, c, CELLS)
  {
    hide Flow, Immediate, Scaled, Inflow, Outgoing;
    if slice.actions[c] > 0 {
      CountsScaled(slice, values, c);
      AsScaled(slice.actions[c] as real, Step(slice, values)[c]);
    }
  }

  lemma {:induction false} NothingFlows(moves: Counter, values: Grid, c: nat, n: nat)
    requires n <= |values| && forall d :: 0 <= d < n ==> CountOf(moves, c, d) == 0
    ensures Inflow(moves, values, c, n) == 0.0
  {
    hide CountOf;
    if n > 0 { NothingFlows(moves, values, c, n - 1); }
  }

  /** From the first round on, a cell without moves out is worth its goals per action. */
  lemma ShotsOnlyCell(slice: Slice, c: nat, k: nat)
    requires slice.Nested() && c < CELLS && slice.actions[c] > 0 && k > 0
    requires forall d :: 0 <= d < CELLS ==> CountOf(slice.moves, c, d) == 0
    ensures Iterate(slice, k)[c] == Share(slice.goals[c], slice.actions[c])
  {
    hide Step, Inflow, CountOf;
    NothingFlows(slice.moves, Iterate(slice, k - 1), c, CELLS);
    EquationInCounts(slice, Iterate(slice, k - 1), c);
    var r := Iterate(slice, k)[c];
    assert r == Step(slice, Iterate(slice, k - 1))[c];
    Quotient(r, slice.goals[c], slice.actions[c]);
  }

  /** A grid the iteration stopped at early meets the equation in counts, up to the tolerance
      for each action. */
  lemma SolvedInCounts(slice: Slice, k: nat, c: nat)
    requires slice.Nested() && StopsAt(slice, k) && k < ROUNDS && c < CELLS && slice.actions[c] > 0
    ensures var v, a := Iterate(slice, k), slice.actions[c] as real;
      Gap(Scaled(a, v[c]), slice.goals[c] as real + Inflow(slice.moves, v, c, CELLS)) <= Scaled(a, TOLERANCE)
  {
    hide Step, Inflow, Scaled, Iterate, StopsAt;
    var v, a := Iterate(slice, k), slice.actions[c] as real;
    SettledSolves(slice, k);
    CountsScaled(slice, v, c);
    ScaledGap(a, v[c], Step(slice, v)[c], TOLERANCE);
  }
}
