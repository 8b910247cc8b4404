/** Exact enumeration of a four-team knockout bracket and the advance probability behind it. */
module Bracket {
  import opened Prelude
  import opened Ordering
  import opened Rounding

  type Advance = (string, string) -> real

  function Times(x: real, y: real): real { x * y }

  /** The value expected when the first case has probability p. */
  function Weigh(p: real, x: real, y: real): real { Times(p, x) + Times(1.0 - p, y) }

  lemma TimesFacts(x: real, y: real, z: real)
    ensures Times(x, 1.0) == x && Times(x, 0.0) == 0.0 && Times(1.0, x) == x && Times(0.0, x) == 0.0
    ensures Times(x, y) == Times(y, x)
    ensures Times(x, y + z) == Times(x, y) + Times(x, z)
    ensures Times(x, y - z) == Times(x, y) - Times(x, z)
    ensures Times(Times(x, y), z) == Times(x, Times(y, z))
  {
  }

  lemma TimesSign(x: real, y: real)
    requires 0.0 <= x && 0.0 <= y
    ensures 0.0 <= Times(x, y)
  {
  }

  // ---------------------------------------------------------------------
  // What the enumeration should mean
  // ---------------------------------------------------------------------

  /** How a bracket can end. */
  datatype Outcome = Outcome(champion: string, runnerUp: string, third: string, fourth: string)

  datatype Metric = ReachFinal | ReachThirdPlaceMatch | Champion | Third

  predicate Achieves(o: Outcome, team: string, metric: Metric) {
    match metric
    case ReachFinal => team == o.champion || team == o.runnerUp
    case ReachThirdPlaceMatch => team == o.third || team == o.fourth
    case Champion => team == o.champion
    case Third => team == o.third
  }

  function Indicator(team: string, metric: Metric): Outcome -> real {
    (o: Outcome) => if Achieves(o, team, metric) then 1.0 else 0.0
  }

  /** The two last matches: the final decides first and second, the other match third and
      fourth. */
  function Finish(f1: string, f2: string, t1: string, t2: string, adv: Advance, value: Outcome -> real): real {
    Weigh(adv(f1, f2),
          Weigh(adv(t1, t2), value(Outcome(f1, f2, t1, t2)), value(Outcome(f1, f2, t2, t1))),
          Weigh(adv(t1, t2), value(Outcome(f2, f1, t1, t2)), value(Outcome(f2, f1, t2, t1))))
  }

  /** The expectation of a value of the outcome over both semifinals, the final and the
      third-place match. */
  function Expect(one: (string, string), two: (string, string), adv: Advance, value: Outcome -> real): real {
    var (a, b) := one;
    var (c, d) := two;
    Weigh(adv(a, b),
          Weigh(adv(c, d), Finish(a, c, b, d, adv, value), Finish(a, d, b, c, adv, value)),
          Weigh(adv(c, d), Finish(b, c, a, d, adv, value), Finish(b, d, a, c, adv, value)))
  }

  function Probability(one: (string, string), two: (string, string), adv: Advance, team: string,
                       metric: Metric): real {
    Expect(one, two, adv, Indicator(team, metric))
  }

  // ---------------------------------------------------------------------
  // The enumeration
  // ---------------------------------------------------------------------

  datatype Chances = Chances(reachFinal: real, reachThird: real, champion: real, third: real)

  function Of(chances: Chances, metric: Metric): real {
    match metric
    case ReachFinal => chances.reachFinal
    case ReachThirdPlaceMatch => chances.reachThird
    case Champion => chances.champion
    case Third => chances.third
  }

  datatype Refusal = NotDistinct | OutOfRange

  predicate FourTeams(one: (string, string), two: (string, string)) {
    |{one.0, one.1, two.0, two.1}| == 4
  }

  /** One way a semifinal can go: who reaches the final, who the third-place match. */
  datatype Way = Way(finalist: string, third: string, probability: real)

  function Ways(semifinal: (string, string), p: real): (ways: seq<Way>)
    ensures |ways| == 2
  {
    [Way(semifinal.0, semifinal.1, p), Way(semifinal.1, semifinal.0, 1.0 - p)]
  }

  /** What one pair of ways adds to a team's chance of the title. */
  function TitlePart(x: Way, y: Way, adv: Advance, team: string): real {
    var path := Times(x.probability, y.probability);
    if team == x.finalist then Times(path, adv(x.finalist, y.finalist))
    else if team == y.finalist then Times(path, 1.0 - adv(x.finalist, y.finalist))
    else 0.0
  }

  function ThirdPart(x: Way, y: Way, adv: Advance, team: string): real {
    var path := Times(x.probability, y.probability);
    if team == x.third then Times(path, adv(x.third, y.third))
    else if team == y.third then Times(path, 1.0 - adv(x.third, y.third))
    else 0.0
  }

  /** Totals after the first k of the four pairs of ways. */
  function TitleAfter(xs: seq<Way>, ys: seq<Way>, adv: Advance, team: string, k: nat): real
    requires |xs| == |ys| == 2 && k <= 4
  {
    if k == 0 then 0.0
    else TitleAfter(xs, ys, adv, team, k - 1) + TitlePart(xs[(k - 1) / 2], ys[(k - 1) % 2], adv, team)
  }

  function ThirdAfter(xs: seq<Way>, ys: seq<Way>, adv: Advance, team: string, k: nat): real
    requires |xs| == |ys| == 2 && k <= 4
  {
    if k == 0 then 0.0
    else ThirdAfter(xs, ys, adv, team, k - 1) + ThirdPart(xs[(k - 1) / 2], ys[(k - 1) % 2], adv, team)
  }

  function FinalAfter(xs: seq<Way>, team: string, i: nat): real
    requires i <= |xs|
  {
    if i == 0 then 0.0
    else FinalAfter(xs, team, i - 1) + if team == xs[i - 1].finalist then xs[i - 1].probability else 0.0
  }

  function LostAfter(xs: seq<Way>, team: string, i: nat): real
    requires i <= |xs|
  {
    if i == 0 then 0.0 else LostAfter(xs, team, i - 1) + if team == xs[i - 1].third then xs[i - 1].probability else 0.0
  }

  type Totals = map<string, Chances>

  ghost predicate TotalsAfter(totals: Totals, teams: set<string>, xs: seq<Way>, ys: seq<Way>, adv: Advance,
                              i: nat, k: nat)
    requires |xs| == |ys| == 2 && k <= 4 && i <= 2
  {
    && totals.Keys == teams
    && forall t :: t in teams ==>
         totals[t] == Chances(FinalAfter(xs, t, i), LostAfter(xs, t, i), TitleAfter(xs, ys, adv, t, k),
           ThirdAfter(xs, ys, adv, t, k))
  }

  /** One entry for each of the four teams, holding its true chances. */
  ghost predicate IsExpected(totals: Totals, one: (string, string), two: (string, string), adv: Advance) {
    && totals.Keys == {one.0, one.1, two.0, two.1}
    && forall team, metric :: team in totals ==> Of(totals[team], metric) == Probability(one, two, adv, team, metric)
  }

  /** One way of each semifinal names four different teams. */
  predicate Apart(x: Way, y: Way, teams: set<string>) {
    && {x.finalist, x.third, y.finalist, y.third} <= teams
    && x.finalist != y.finalist && x.finalist != x.third && x.finalist != y.third
    && y.finalist != x.third && y.finalist != y.third && x.third != y.third
  }

  lemma WaysApart(one: (string, string), two: (string, string), p: real, q: real)
    requires FourTeams(one, two)
    ensures var xs, ys := Ways(one, p), Ways(two, q);
      forall i, j :: 0 <= i < 2 && 0 <= j < 2 ==> Apart(xs[i], ys[j], {one.0, one.1, two.0, two.1})
  {
    AllDifferent(one.0, one.1, two.0, two.1);
  }

  method EnumerateFourTeamBracket(one: (string, string), two: (string, string), adv: Advance)
    returns (r: Result<Totals, Refusal>)
    ensures r == Err(NotDistinct) <==> !FourTeams(one, two)
    ensures r == Err(OutOfRange) <==>
      FourTeams(one, two) && !(0.0 <= adv(one.0, one.1) <= 1.0 && 0.0 <= adv(two.0, two.1) <= 1.0)
    ensures r.Ok? ==> IsExpected(r.value, one, two, adv)
  {
    hide Times, IsExpected, TotalsAfter, Ways;
    var (a, b) := one;
    var (c, d) := two;
    var teams := {a, b, c, d};
    if |teams| != 4 {
      return Err(NotDistinct);
    }
    var totals: Totals := map t | t in teams :: Chances(0.0, 0.0, 0.0, 0.0);
    var pA, pC := adv(a, b), adv(c, d);
    if !(0.0 <= pA <= 1.0 && 0.0 <= pC <= 1.0) {
      return Err(OutOfRange);
    }
    var semifinalPaths, otherPaths := Ways(one, pA), Ways(two, pC);
    WaysApart(one, two, pA, pC);
    TotalsStart(totals, teams, semifinalPaths, otherPaths, adv);
    for i := 0 to 2
      invariant TotalsAfter(totals, teams, semifinalPaths, otherPaths, adv, i, 2 * i)
    {
      totals := BookSemifinal(totals, teams, semifinalPaths, otherPaths, adv, i);
    }
    ghost var enumerated := totals;
    TotalsKeys(totals, teams, semifinalPaths, otherPaths, adv, 2, 4);
    totals := totals[c := totals[c].(reachFinal := pC, reachThird := 1.0 - pC)];
    totals := totals[d := totals[d].(reachFinal := 1.0 - pC, reachThird := pC)];
    StampedIsExpected(one, two, adv, enumerated, totals);
    return Ok(totals);
  }

  lemma StampedIsExpected(one: (string, string), two: (string, string), adv: Advance, before: Totals, totals: Totals)
    requires FourTeams(one, two)
    requires TotalsAfter(before, {one.0, one.1, two.0, two.1}, Ways(one, adv(one.0, one.1)),
                         Ways(two, adv(two.0, two.1)), adv, 2, 4)
    requires var q := adv(two.0, two.1);
      var stamped := before[two.0 := before[two.0].(reachFinal := q, reachThird := 1.0 - q)];
      totals == stamped[two.1 := stamped[two.1].(reachFinal := 1.0 - q, reachThird := q)]
    ensures IsExpected(totals, one, two, adv)
  {
    hide Probability, TitleAfter, ThirdAfter, FinalAfter, LostAfter;
    AllDifferent(one.0, one.1, two.0, two.1);
    forall team, metric | team in totals ensures Of(totals[team], metric) == Probability(one, two, adv, team, metric) {
      EnumeratedIsExpected(one, two, adv, team, metric);
    }
  }

  lemma AllDifferent(a: string, b: string, c: string, d: string)
    requires |{a, b, c, d}| == 4
    ensures a != b && a != c && a != d && b != c && b != d && c != d
  {
    if a == b || a == c || a == d { AtMostThree({a, b, c, d}, b, c, d); }
    if b == c || b == d { AtMostThree({a, b, c, d}, a, c, d); }
    if c == d { AtMostThree({a, b, c, d}, a, b, c); }
  }

  lemma AtMostThree(s: set<string>, x: string, y: string, z: string)
    requires s <= {x, y, z}
    ensures |s| <= 3
  {
    var rest := {x, y, z} - s;
    assert {x, y, z} == s + rest && s !! rest;
    assert |{x, y, z}| <= 3;
  }

  /** One way the first semifinal can go, with both ways of the other. */
  method BookSemifinal(totals: Totals, ghost teams: set<string>, xs: seq<Way>, ys: seq<Way>, adv: Advance, i: nat)
    returns (r: Totals)
    requires |xs| == |ys| == 2 && i < 2 && TotalsAfter(totals, teams, xs, ys, adv, i, 2 * i)
    requires Apart(xs[i], ys[0], teams) && Apart(xs[i], ys[1], teams)
    ensures TotalsAfter(r, teams, xs, ys, adv, i + 1, 2 * (i + 1))
  {
    hide TotalsAfter;
    var x := xs[i];
    TotalsKeys(totals, teams, xs, ys, adv, i, 2 * i);
    r := totals;
    r := r[x.finalist := r[x.finalist].(reachFinal := r[x.finalist].reachFinal + x.probability)];
    r := r[x.third := r[x.third].(reachThird := r[x.third].reachThird + x.probability)];
    SemifinalBooked(totals, r, teams, xs, ys, adv, i);
    for j := 0 to 2
      invariant TotalsAfter(r, teams, xs, ys, adv, i + 1, 2 * i + j)
    {
      r := BookPath(r, teams, xs, ys, adv, i, j);
    }
  }

  lemma TotalsStart(totals: Totals, teams: set<string>, xs: seq<Way>, ys: seq<Way>, adv: Advance)
    requires |xs| == |ys| == 2 && totals == map t | t in teams :: Chances(0.0, 0.0, 0.0, 0.0)
    ensures TotalsAfter(totals, teams, xs, ys, adv, 0, 0)
  {
  }

  lemma TotalsKeys(totals: Totals, teams: set<string>, xs: seq<Way>, ys: seq<Way>, adv: Advance, i: nat, k: nat)
    requires |xs| == |ys| == 2 && k <= 4 && i <= 2 && TotalsAfter(totals, teams, xs, ys, adv, i, k)
    ensures totals.Keys == teams
  {
  }

  lemma SemifinalBooked(before: Totals, totals: Totals, teams: set<string>, xs: seq<Way>, ys: seq<Way>,
                        adv: Advance, i: nat)
    requires |xs| == |ys| == 2 && i < 2 && TotalsAfter(before, teams, xs, ys, adv, i, 2 * i)
    requires xs[i].finalist in teams && xs[i].third in teams && xs[i].finalist != xs[i].third
    requires var x := xs[i];
      totals == before[x.finalist := before[x.finalist].(reachFinal := before[x.finalist].reachFinal + x.probability)]
                      [x.third := before[x.third].(reachThird := before[x.third].reachThird + x.probability)]
    ensures TotalsAfter(totals, teams, xs, ys, adv, i + 1, 2 * i)
  {
    hide TitleAfter, ThirdAfter;
    forall t | t in teams
      ensures totals[t] == Chances(FinalAfter(xs, t, i + 1), LostAfter(xs, t, i + 1),
                                   TitleAfter(xs, ys, adv, t, 2 * i), ThirdAfter(xs, ys, adv, t, 2 * i))
    {
    }
  }

  /** One path: the final and the third-place match of one pair of semifinal results. */
  method BookPath(totals: Totals, ghost teams: set<string>, xs: seq<Way>, ys: seq<Way>, adv: Advance, i: nat, j: nat)
    returns (r: Totals)
    requires |xs| == |ys| == 2 && i < 2 && j < 2
    requires TotalsAfter(totals, teams, xs, ys, adv, i + 1, 2 * i + j)
    requires Apart(xs[i], ys[j], teams)
    ensures TotalsAfter(r, teams, xs, ys, adv, i + 1, 2 * i + j + 1)
  {
    hide Times, FinalAfter, LostAfter;
    var x, y := xs[i], ys[j];
    var path := Times(x.probability, y.probability);
    var finalHome, thirdHome := adv(x.finalist, y.finalist), adv(x.third, y.third);
    r := totals;
    r := r[x.finalist := r[x.finalist].(champion := r[x.finalist].champion + Times(path, finalHome))];
    r := r[y.finalist := r[y.finalist].(champion := r[y.finalist].champion + Times(path, 1.0 - finalHome))];
    r := r[x.third := r[x.third].(third := r[x.third].third + Times(path, thirdHome))];
    r := r[y.third := r[y.third].(third := r[y.third].third + Times(path, 1.0 - thirdHome))];
    assert (2 * i + j) / 2 == i && (2 * i + j) % 2 == j;
  }

  /** The expected value when the outcome's final part does not depend on the last match. */
  lemma FinishTitle(f1: string, f2: string, t1: string, t2: string, adv: Advance, team: string)
    requires f1 != f2 && t1 != t2 && f1 != t1 && f1 != t2 && f2 != t1 && f2 != t2
    ensures Finish(f1, f2, t1, t2, adv, Indicator(team, Champion))
      == if team == f1 then adv(f1, f2) else if team == f2 then 1.0 - adv(f1, f2) else 0.0
    ensures Finish(f1, f2, t1, t2, adv, Indicator(team, Third))
      == if team == t1 then adv(t1, t2) else if team == t2 then 1.0 - adv(t1, t2) else 0.0
    ensures Finish(f1, f2, t1, t2, adv, Indicator(team, ReachFinal)) == if team == f1 || team == f2 then 1.0 else 0.0
    ensures Finish(f1, f2, t1, t2, adv, Indicator(team, ReachThirdPlaceMatch))
      == if team == t1 || team == t2 then 1.0 else 0.0
  {
    hide Weigh;
    var p, q := adv(f1, f2), adv(t1, t2);
    WeighCertain(p);
    WeighCertain(q);
    WeighSame(q, 0.0);
    WeighSame(q, 1.0);
    WeighSame(p, q);
    WeighSame(p, 1.0 - q);
    WeighSame(p, 0.0);
    WeighSame(p, 1.0);
  }

  lemma WeighCertain(p: real)
    ensures Weigh(p, 1.0, 0.0) == p && Weigh(p, 0.0, 1.0) == 1.0 - p
  {
  }

  lemma WeighPaths(p: real, q: real, v00: real, v01: real, v10: real, v11: real)
    ensures Weigh(p, Weigh(q, v00, v01), Weigh(q, v10, v11))
      == Times(Times(p, q), v00) + Times(Times(p, 1.0 - q), v01) + Times(Times(1.0 - p, q), v10)
        + Times(Times(1.0 - p, 1.0 - q), v11)
  {
    hide Times;
    TimesFacts(p, Times(q, v00), Times(1.0 - q, v01));
    TimesFacts(1.0 - p, Times(q, v10), Times(1.0 - q, v11));
    TimesFacts(p, q, v00);
    TimesFacts(p, 1.0 - q, v01);
    TimesFacts(1.0 - p, q, v10);
    TimesFacts(1.0 - p, 1.0 - q, v11);
  }

  /** The four paths' parts written out. */
  lemma PartsUnrolled(one: (string, string), two: (string, string), adv: Advance, team: string, p: real, q: real)
    ensures var xs, ys := Ways(one, p), Ways(two, q);
      && TitleAfter(xs, ys, adv, team, 4)
         == TitlePart(xs[0], ys[0], adv, team) + TitlePart(xs[0], ys[1], adv, team)
           + TitlePart(xs[1], ys[0], adv, team) + TitlePart(xs[1], ys[1], adv, team)
      && ThirdAfter(xs, ys, adv, team, 4)
         == ThirdPart(xs[0], ys[0], adv, team) + ThirdPart(xs[0], ys[1], adv, team)
           + ThirdPart(xs[1], ys[0], adv, team) + ThirdPart(xs[1], ys[1], adv, team)
      && FinalAfter(xs, team, 2) == (if team == one.0 then p else 0.0) + (if team == one.1 then 1.0 - p else 0.0)
      && LostAfter(xs, team, 2) == (if team == one.1 then p else 0.0) + (if team == one.0 then 1.0 - p else 0.0)
  {
    hide TitlePart, ThirdPart;
    var xs, ys := Ways(one, p), Ways(two, q);
    assert TitleAfter(xs, ys, adv, team, 1) == TitlePart(xs[0], ys[0], adv, team);
    assert TitleAfter(xs, ys, adv, team, 2) == TitleAfter(xs, ys, adv, team, 1) + TitlePart(xs[0], ys[1], adv, team);
    assert TitleAfter(xs, ys, adv, team, 3) == TitleAfter(xs, ys, adv, team, 2) + TitlePart(xs[1], ys[0], adv, team);
    assert ThirdAfter(xs, ys, adv, team, 1) == ThirdPart(xs[0], ys[0], adv, team);
    assert ThirdAfter(xs, ys, adv, team, 2) == ThirdAfter(xs, ys, adv, team, 1) + ThirdPart(xs[0], ys[1], adv, team);
    assert ThirdAfter(xs, ys, adv, team, 3) == ThirdAfter(xs, ys, adv, team, 2) + ThirdPart(xs[1], ys[0], adv, team);
    assert FinalAfter(xs, team, 1) == if team == one.0 then p else 0.0;
    assert LostAfter(xs, team, 1) == if team == one.1 then p else 0.0;
  }

  function TitleIf(f1: string, f2: string, adv: Advance, team: string): real {
    if team == f1 then adv(f1, f2) else if team == f2 then 1.0 - adv(f1, f2) else 0.0
  }

  lemma PartIsWeighted(x: Way, y: Way, adv: Advance, team: string)
    ensures TitlePart(x, y, adv, team)
      == Times(Times(x.probability, y.probability), TitleIf(x.finalist, y.finalist, adv, team))
    ensures ThirdPart(x, y, adv, team)
      == Times(Times(x.probability, y.probability), TitleIf(x.third, y.third, adv, team))
  {
  }

  /** Summing over the four paths is taking the expectation. */
  lemma PathsAreExpected(one: (string, string), two: (string, string), adv: Advance, team: string)
    requires FourTeams(one, two)
    ensures var xs, ys := Ways(one, adv(one.0, one.1)), Ways(two, adv(two.0, two.1));
      && TitleAfter(xs, ys, adv, team, 4) == Probability(one, two, adv, team, Champion)
      && ThirdAfter(xs, ys, adv, team, 4) == Probability(one, two, adv, team, Third)
  {
    hide Times, TitleAfter, ThirdAfter, TitlePart, ThirdPart, Finish, TitleIf, Weigh;
    var (a, b) := one;
    var (c, d) := two;
    var p, q := adv(a, b), adv(c, d);
    var xs, ys := Ways(one, p), Ways(two, q);
    AllDifferent(a, b, c, d);
    PartsUnrolled(one, two, adv, team, p, q);
    PartIsWeighted(xs[0], ys[0], adv, team);
    PartIsWeighted(xs[0], ys[1], adv, team);
    PartIsWeighted(xs[1], ys[0], adv, team);
    PartIsWeighted(xs[1], ys[1], adv, team);
    WeighPaths(p, q, TitleIf(a, c, adv, team), TitleIf(a, d, adv, team), TitleIf(b, c, adv, team),
      TitleIf(b, d, adv, team));
    WeighPaths(p, q, TitleIf(b, d, adv, team), TitleIf(b, c, adv, team), TitleIf(a, d, adv, team),
      TitleIf(a, c, adv, team));
    FinishIf(a, c, b, d, adv, team);
    FinishIf(a, d, b, c, adv, team);
    FinishIf(b, c, a, d, adv, team);
    FinishIf(b, d, a, c, adv, team);
  }

  lemma FinishIf(f1: string, f2: string, t1: string, t2: string, adv: Advance, team: string)
    requires f1 != f2 && t1 != t2 && f1 != t1 && f1 != t2 && f2 != t1 && f2 != t2
    ensures Finish(f1, f2, t1, t2, adv, Indicator(team, Champion)) == TitleIf(f1, f2, adv, team)
    ensures Finish(f1, f2, t1, t2, adv, Indicator(team, Third)) == TitleIf(t1, t2, adv, team)
  {
    hide Finish;
    FinishTitle(f1, f2, t1, t2, adv, team);
  }

  /** Reaching either last match is decided by the team's own semifinal. */
  lemma ReachIsExpected(one: (string, string), two: (string, string), adv: Advance, team: string)
    requires FourTeams(one, two)
    ensures var (a, b) := one; var (c, d) := two; var p, q := adv(a, b), adv(c, d);
      && Probability(one, two, adv, team, ReachFinal)
         == (if team == a then p else if team == b then 1.0 - p else if team == c then q
           else if team == d then 1.0 - q else 0.0)
      && Probability(one, two, adv, team, ReachThirdPlaceMatch)
         == (if team == a then 1.0 - p else if team == b then p else if team == c then 1.0 - q
           else if team == d then q else 0.0)
  {
    hide Weigh, Finish;
    var (a, b) := one;
    var (c, d) := two;
    var p, q := adv(a, b), adv(c, d);
    AllDifferent(a, b, c, d);
    FinishTitle(a, c, b, d, adv, team);
    FinishTitle(a, d, b, c, adv, team);
    FinishTitle(b, c, a, d, adv, team);
    FinishTitle(b, d, a, c, adv, team);
    WeighCertain(p);
    WeighCertain(q);
    WeighSame(q, 0.0);
    WeighSame(q, 1.0);
    WeighSame(p, q);
    WeighSame(p, 1.0 - q);
    WeighSame(p, 0.0);
  }

  /** What the enumeration ends with, metric by metric, is the expectation. */
  lemma EnumeratedIsExpected(one: (string, string), two: (string, string), adv: Advance, team: string, metric: Metric)
    requires FourTeams(one, two) && team in {one.0, one.1, two.0, two.1}
    ensures var p, q := adv(one.0, one.1), adv(two.0, two.1);
      var xs, ys := Ways(one, p), Ways(two, q);
      Probability(one, two, adv, team, metric)
      == match metric
         case Champion => TitleAfter(xs, ys, adv, team, 4)
         case Third => ThirdAfter(xs, ys, adv, team, 4)
         case ReachFinal => if team == two.0 then q else if team == two.1 then 1.0 - q else FinalAfter(xs, team, 2)
         case ReachThirdPlaceMatch => if team == two.0 then 1.0 - q else if team == two.1 then q
           else LostAfter(xs, team, 2)
  {
    hide Expect, TitleAfter, ThirdAfter, FinalAfter, LostAfter;
    AllDifferent(one.0, one.1, two.0, two.1);
    PathsAreExpected(one, two, adv, team);
    ReachIsExpected(one, two, adv, team);
    PartsUnrolled(one, two, adv, team, adv(one.0, one.1), adv(two.0, two.1));
  }

  // ---------------------------------------------------------------------
  // Laws of the expectation
  // ---------------------------------------------------------------------

  ghost predicate Proper(adv: Advance) { forall x, y :: 0.0 <= adv(x, y) <= 1.0 }

  /** Constants are expected, and sums add up, whatever the advance values are. */
  lemma ExpectSum(one: (string, string), two: (string, string), adv: Advance, f: Outcome -> real,
                  g: Outcome -> real, h: Outcome -> real)
    requires forall o :: h(o) == f(o) + g(o)
    ensures Expect(one, two, adv, h) == Expect(one, two, adv, f) + Expect(one, two, adv, g)
  {
    hide Weigh, Finish;
    var (a, b) := one;
    var (c, d) := two;
    var p, q := adv(a, b), adv(c, d);
    FinishSum(a, c, b, d, adv, f, g, h);
    FinishSum(a, d, b, c, adv, f, g, h);
    FinishSum(b, c, a, d, adv, f, g, h);
    FinishSum(b, d, a, c, adv, f, g, h);
    var fv, gv := (x: string, y: string, z: string, w: string) => Finish(x, y, z, w, adv, f),
      (x: string, y: string, z: string, w: string) => Finish(x, y, z, w, adv, g);
    WeighSum(q, fv(a, c, b, d), fv(a, d, b, c), gv(a, c, b, d), gv(a, d, b, c));
    WeighSum(q, fv(b, c, a, d), fv(b, d, a, c), gv(b, c, a, d), gv(b, d, a, c));
    WeighSum(p, Weigh(q, fv(a, c, b, d), fv(a, d, b, c)), Weigh(q, fv(b, c, a, d), fv(b, d, a, c)),
             Weigh(q, gv(a, c, b, d), gv(a, d, b, c)), Weigh(q, gv(b, c, a, d), gv(b, d, a, c)));
  }

  lemma WeighSum(p: real, x: real, y: real, x': real, y': real)
    ensures Weigh(p, x + x', y + y') == Weigh(p, x, y) + Weigh(p, x', y')
  {
    hide Times;
    TimesFacts(p, x, x');
    TimesFacts(1.0 - p, y, y');
  }

  lemma FinishSum(f1: string, f2: string, t1: string, t2: string, adv: Advance, f: Outcome -> real,
                  g: Outcome -> real, h: Outcome -> real)
    requires forall o :: h(o) == f(o) + g(o)
    ensures Finish(f1, f2, t1, t2, adv, h) == Finish(f1, f2, t1, t2, adv, f) + Finish(f1, f2, t1, t2, adv, g)
  {
    hide Weigh;
    var p, q := adv(f1, f2), adv(t1, t2);
    var o1, o2, o3, o4 := Outcome(f1, f2, t1, t2), Outcome(f1, f2, t2, t1), Outcome(f2, f1, t1, t2),
      Outcome(f2, f1, t2, t1);
    WeighSum(q, f(o1), f(o2), g(o1), g(o2));
    WeighSum(q, f(o3), f(o4), g(o3), g(o4));
    WeighSum(p, Weigh(q, f(o1), f(o2)), Weigh(q, f(o3), f(o4)), Weigh(q, g(o1), g(o2)), Weigh(q, g(o3), g(o4)));
  }

  lemma WeighSame(p: real, x: real)
    ensures Weigh(p, x, x) == x
  {
    hide Times;
    TimesFacts(x, p, 1.0 - p);
    TimesFacts(p, x, 0.0);
    TimesFacts(1.0 - p, x, 0.0);
  }

  lemma WeighOrdered(p: real, x: real, y: real, x': real, y': real)
    requires 0.0 <= p <= 1.0 && x <= x' && y <= y'
    ensures Weigh(p, x, y) <= Weigh(p, x', y')
  {
    hide Times;
    TimesSign(p, x' - x);
    TimesSign(1.0 - p, y' - y);
    TimesFacts(p, x', x);
    TimesFacts(1.0 - p, y', y);
  }

  /** A value that is larger on every possible outcome is expected to be larger. */
  lemma ExpectOrdered(one: (string, string), two: (string, string), adv: Advance, f: Outcome -> real,
                      g: Outcome -> real)
    requires Proper(adv) && forall o :: f(o) <= g(o)
    ensures Expect(one, two, adv, f) <= Expect(one, two, adv, g)
  {
    hide Weigh, Finish;
    var (a, b) := one;
    var (c, d) := two;
    var p, q := adv(a, b), adv(c, d);
    FinishOrdered(a, c, b, d, adv, f, g);
    FinishOrdered(a, d, b, c, adv, f, g);
    FinishOrdered(b, c, a, d, adv, f, g);
    FinishOrdered(b, d, a, c, adv, f, g);
    var fv, gv := (x: string, y: string, z: string, w: string) => Finish(x, y, z, w, adv, f),
      (x: string, y: string, z: string, w: string) => Finish(x, y, z, w, adv, g);
    WeighOrdered(q, fv(a, c, b, d), fv(a, d, b, c), gv(a, c, b, d), gv(a, d, b, c));
    WeighOrdered(q, fv(b, c, a, d), fv(b, d, a, c), gv(b, c, a, d), gv(b, d, a, c));
    WeighOrdered(p, Weigh(q, fv(a, c, b, d), fv(a, d, b, c)), Weigh(q, fv(b, c, a, d), fv(b, d, a, c)),
                 Weigh(q, gv(a, c, b, d), gv(a, d, b, c)), Weigh(q, gv(b, c, a, d), gv(b, d, a, c)));
  }

  lemma FinishOrdered(f1: string, f2: string, t1: string, t2: string, adv: Advance, f: Outcome -> real,
                      g: Outcome -> real)
    requires Proper(adv) && forall o :: f(o) <= g(o)
    ensures Finish(f1, f2, t1, t2, adv, f) <= Finish(f1, f2, t1, t2, adv, g)
  {
    hide Weigh;
    var p, q := adv(f1, f2), adv(t1, t2);
    var o1, o2, o3, o4 := Outcome(f1, f2, t1, t2), Outcome(f1, f2, t2, t1), Outcome(f2, f1, t1, t2),
      Outcome(f2, f1, t2, t1);
    WeighOrdered(q, f(o1), f(o2), g(o1), g(o2));
    WeighOrdered(q, f(o3), f(o4), g(o3), g(o4));
    WeighOrdered(p, Weigh(q, f(o1), f(o2)), Weigh(q, f(o3), f(o4)), Weigh(q, g(o1), g(o2)), Weigh(q, g(o3), g(o4)));
  }

  /** Champion is never likelier than reaching the final, nor third than its match. */
  lemma TitleNeedsFinal(one: (string, string), two: (string, string), adv: Advance, team: string)
    requires Proper(adv)
    ensures Probability(one, two, adv, team, Champion) <= Probability(one, two, adv, team, ReachFinal)
    ensures Probability(one, two, adv, team, Third) <= Probability(one, two, adv, team, ReachThirdPlaceMatch)
  {
    hide Expect;
    ExpectOrdered(one, two, adv, Indicator(team, Champion), Indicator(team, ReachFinal));
    ExpectOrdered(one, two, adv, Indicator(team, Third), Indicator(team, ReachThirdPlaceMatch));
  }

  // ---------------------------------------------------------------------
  // When a title stays below its final
  // ---------------------------------------------------------------------

  /** A team's chance in the final once it is there, over the opponents it may meet. */
  function InFinal(one: (string, string), two: (string, string), adv: Advance, team: string): real {
    var (a, b) := one;
    var (c, d) := two;
    var p, q := adv(a, b), adv(c, d);
    if team == a || team == b then Weigh(q, adv(team, c), adv(team, d))
    else Weigh(p, 1.0 - adv(a, team), 1.0 - adv(b, team))
  }

  /** The same for the third-place match, where the opponents are the losers. */
  function InThirdPlaceMatch(one: (string, string), two: (string, string), adv: Advance, team: string): real {
    var (a, b) := one;
    var (c, d) := two;
    var p, q := adv(a, b), adv(c, d);
    if team == a || team == b then Weigh(q, adv(team, d), adv(team, c))
    else Weigh(p, 1.0 - adv(b, team), 1.0 - adv(a, team))
  }

  lemma WeighZero(p: real, x: real)
    ensures Weigh(p, x, 0.0) == Times(p, x) && Weigh(p, 0.0, x) == Times(1.0 - p, x)
  {
  }

  /** Winning the title is reaching the final and winning it; likewise for third place. */
  lemma TitleIsFinalThenWin(one: (string, string), two: (string, string), adv: Advance, team: string)
    requires FourTeams(one, two) && team in {one.0, one.1, two.0, two.1}
    ensures Probability(one, two, adv, team, Champion)
      == Times(Probability(one, two, adv, team, ReachFinal), InFinal(one, two, adv, team))
    ensures Probability(one, two, adv, team, Third)
      == Times(Probability(one, two, adv, team, ReachThirdPlaceMatch), InThirdPlaceMatch(one, two, adv, team))
  {
    hide Weigh, Times, Finish;
    var (a, b) := one;
    var (c, d) := two;
    var p, q := adv(a, b), adv(c, d);
    AllDifferent(a, b, c, d);
    ReachIsExpected(one, two, adv, team);
    FinishIf(a, c, b, d, adv, team);
    FinishIf(a, d, b, c, adv, team);
    FinishIf(b, c, a, d, adv, team);
    FinishIf(b, d, a, c, adv, team);
    WeighSame(q, 0.0);
    WeighSame(p, 0.0);
    if team == a || team == b {
      WeighZero(p, Weigh(q, adv(team, c), adv(team, d)));
      WeighZero(p, Weigh(q, adv(team, d), adv(team, c)));
    } else {
      var x, y := 1.0 - adv(a, team), 1.0 - adv(b, team);
      WeighExchange(p, q, x, 0.0, y, 0.0);
      WeighExchange(p, q, 0.0, x, 0.0, y);
      WeighExchange(p, q, y, 0.0, x, 0.0);
      WeighExchange(p, q, 0.0, y, 0.0, x);
      WeighZero(q, Weigh(p, x, y));
      WeighZero(q, Weigh(p, y, x));
    }
  }

  lemma ProductAtMost(k: real, x: real)
    requires 0.0 <= k
    ensures Times(k, x) <= k <==> k == 0.0 || x <= 1.0
  {
    TimesFacts(k, 1.0, x);
    if x <= 1.0 { TimesSign(k, 1.0 - x); } else if k > 0.0 { TimesPositive(k, x - 1.0); }
  }

  lemma TimesPositive(x: real, y: real)
    requires 0.0 < x && 0.0 < y
    ensures 0.0 < Times(x, y)
  {
  }

  /** For every bracket the enumeration accepts: a team's title is no likelier than its final
      exactly when the final is out of its reach or its chance there is at most one; and
      likewise for third place. */
  lemma TitleNeedsFinalIff(one: (string, string), two: (string, string), adv: Advance, team: string)
    requires FourTeams(one, two) && team in {one.0, one.1, two.0, two.1}
    requires 0.0 <= adv(one.0, one.1) <= 1.0 && 0.0 <= adv(two.0, two.1) <= 1.0
    ensures Probability(one, two, adv, team, Champion) <= Probability(one, two, adv, team, ReachFinal)
      <==> Probability(one, two, adv, team, ReachFinal) == 0.0 || InFinal(one, two, adv, team) <= 1.0
    ensures Probability(one, two, adv, team, Third) <= Probability(one, two, adv, team, ReachThirdPlaceMatch)
      <==> Probability(one, two, adv, team, ReachThirdPlaceMatch) == 0.0
           || InThirdPlaceMatch(one, two, adv, team) <= 1.0
  {
    hide Probability, InFinal, InThirdPlaceMatch;
    ReachIsExpected(one, two, adv, team);
    TitleIsFinalThenWin(one, two, adv, team);
    ProductAtMost(Probability(one, two, adv, team, ReachFinal), InFinal(one, two, adv, team));
    ProductAtMost(Probability(one, two, adv, team, ReachThirdPlaceMatch), InThirdPlaceMatch(one, two, adv, team));
  }

  /** The four teams finish in some order. */
  predicate Ranks(o: Outcome, one: (string, string), two: (string, string)) {
    {o.champion, o.runnerUp, o.third, o.fourth} == {one.0, one.1, two.0, two.1}
  }

  /** A value that is the same for every order of the four teams is expected to be it. */
  lemma ExpectConstant(one: (string, string), two: (string, string), adv: Advance, value: Outcome -> real, k: real)
    requires forall o :: Ranks(o, one, two) ==> value(o) == k
    ensures Expect(one, two, adv, value) == k
  {
    hide Weigh, Finish;
    var (a, b) := one;
    var (c, d) := two;
    FinishConstant(a, c, b, d, one, two, adv, value, k);
    FinishConstant(a, d, b, c, one, two, adv, value, k);
    FinishConstant(b, c, a, d, one, two, adv, value, k);
    FinishConstant(b, d, a, c, one, two, adv, value, k);
    WeighSame(adv(c, d), k);
    WeighSame(adv(a, b), k);
  }

  lemma FinishConstant(f1: string, f2: string, t1: string, t2: string, one: (string, string), two: (string, string),
                       adv: Advance, value: Outcome -> real, k: real)
    requires {f1, f2, t1, t2} == {one.0, one.1, two.0, two.1}
    requires forall o :: Ranks(o, one, two) ==> value(o) == k
    ensures Finish(f1, f2, t1, t2, adv, value) == k
  {
    hide Weigh;
    assert Ranks(Outcome(f1, f2, t1, t2), one, two) && Ranks(Outcome(f1, f2, t2, t1), one, two);
    assert Ranks(Outcome(f2, f1, t1, t2), one, two) && Ranks(Outcome(f2, f1, t2, t1), one, two);
    WeighSame(adv(t1, t2), k);
    WeighSame(adv(f1, f2), k);
  }

  function Total(one: (string, string), two: (string, string), adv: Advance, metric: Metric): real {
    Probability(one, two, adv, one.0, metric) + Probability(one, two, adv, one.1, metric)
    + Probability(one, two, adv, two.0, metric) + Probability(one, two, adv, two.1, metric)
  }

  /** Someone wins the title and someone comes third; two teams play each last match, and
      every team plays in exactly one of them.  None of this needs the advance values to
      be probabilities. */
  lemma ChancesAddUp(one: (string, string), two: (string, string), adv: Advance)
    requires FourTeams(one, two)
    ensures Total(one, two, adv, Champion) == 1.0 && Total(one, two, adv, Third) == 1.0
    ensures Total(one, two, adv, ReachFinal) == 2.0 && Total(one, two, adv, ReachThirdPlaceMatch) == 2.0
    ensures forall team :: team in {one.0, one.1, two.0, two.1} ==>
      Probability(one, two, adv, team, ReachFinal) + Probability(one, two, adv, team, ReachThirdPlaceMatch) == 1.0
  {
    hide Probability;
    AllDifferent(one.0, one.1, two.0, two.1);
    TotalIsCount(one, two, adv, Champion, 1.0);
    TotalIsCount(one, two, adv, Third, 1.0);
    forall team ensures team in {one.0, one.1, two.0, two.1} ==>
      Probability(one, two, adv, team, ReachFinal) + Probability(one, two, adv, team, ReachThirdPlaceMatch) == 1.0
    {
      ReachIsExpected(one, two, adv, team);
    }
    ReachIsExpected(one, two, adv, one.0);
    ReachIsExpected(one, two, adv, one.1);
    ReachIsExpected(one, two, adv, two.0);
    ReachIsExpected(one, two, adv, two.1);
  }

  /** How many of the four teams achieve a metric. */
  function Achievers(one: (string, string), two: (string, string), metric: Metric): Outcome -> real {
    (o: Outcome) => Indicator(one.0, metric)(o) + Indicator(one.1, metric)(o) + Indicator(two.0, metric)(o)
      + Indicator(two.1, metric)(o)
  }

  lemma TotalIsCount(one: (string, string), two: (string, string), adv: Advance, metric: Metric, k: real)
    requires FourTeams(one, two)
    requires (metric == Champion || metric == Third) && k == 1.0
    ensures Total(one, two, adv, metric) == k
  {
    hide Expect;
    var (a, b) := one;
    var (c, d) := two;
    AllDifferent(a, b, c, d);
    var ia, ib, ic, id := Indicator(a, metric), Indicator(b, metric), Indicator(c, metric), Indicator(d, metric);
    var ab, abc := (o: Outcome) => ia(o) + ib(o), (o: Outcome) => ia(o) + ib(o) + ic(o);
    ExpectSum(one, two, adv, ia, ib, ab);
    ExpectSum(one, two, adv, ab, ic, abc);
    ExpectSum(one, two, adv, abc, id, Achievers(one, two, metric));
    forall o | Ranks(o, one, two) ensures Achievers(one, two, metric)(o) == k {
      assert o.champion in {o.champion, o.runnerUp, o.third, o.fourth}
        && o.third in {o.champion, o.runnerUp, o.third, o.fourth};
    }
    ExpectConstant(one, two, adv, Achievers(one, two, metric), k);
  }

  /** Only the two semifinal values are range-checked: a final value outside [0, 1] passes
      and pushes a title chance above the chance of the final. */
  lemma FinalValueIsNotChecked()
    ensures exists adv: Advance ::
      && 0.0 <= adv("a", "b") <= 1.0 && 0.0 <= adv("c", "d") <= 1.0
      && var one, two := ("a", "b"), ("c", "d");
         Probability(one, two, adv, "a", Champion) > Probability(one, two, adv, "a", ReachFinal)
  {
    hide Expect, Times, TitleAfter, TitlePart;
    var adv: Advance := (x: string, y: string) => if (x == "a" && y == "b") || (x == "c" && y == "d") then 1.0 else 2.0;
    assert "a" != "b" && "a" != "c" && "a" != "d" && "b" != "c" && "b" != "d" && "c" != "d";
    assert |{"a", "b", "c", "d"}| == 4;
    var one, two := ("a", "b"), ("c", "d");
    PathsAreExpected(one, two, adv, "a");
    ReachIsExpected(one, two, adv, "a");
    var xs, ys := Ways(one, 1.0), Ways(two, 1.0);
    PartsUnrolled(one, two, adv, "a", 1.0, 1.0);
    PartIsWeighted(xs[0], ys[0], adv, "a");
    PartIsWeighted(xs[0], ys[1], adv, "a");
    PartIsWeighted(xs[1], ys[0], adv, "a");
    PartIsWeighted(xs[1], ys[1], adv, "a");
    TimesFacts(1.0, 1.0, 0.0);
    TimesFacts(2.0, 1.0, 0.0);
    TimesFacts(0.0, 2.0, 0.0);
  }

  // ---------------------------------------------------------------------
  // The rows shown
  // ---------------------------------------------------------------------

  const BILLION: real := 1000000000.0

  /** One row in units of 1e-9. */
  datatype Row = Row(team: string, reachFinal: int, reachThird: int, champion: int, third: int)

  function RowOf(team: string, chances: Chances): Row {
    Row(team, Nearest(chances.reachFinal * BILLION), Nearest(chances.reachThird * BILLION),
        Nearest(chances.champion * BILLION), Nearest(chances.third * BILLION))
  }

  function RowKey(row: Row): Key { [-row.champion] + NameKey(row.team) }

  method Rows(one: (string, string), two: (string, string), totals: Totals) returns (rows: seq<Row>)
    requires totals.Keys == {one.0, one.1, two.0, two.1}
    ensures multiset(rows) == multiset{RowOf(one.0, totals[one.0]), RowOf(one.1, totals[one.1]),
                                       RowOf(two.0, totals[two.0]), RowOf(two.1, totals[two.1])}
    ensures SortedBy(rows, RowKey)
  {
    hide RowOf;
    rows := [RowOf(one.0, totals[one.0]), RowOf(one.1, totals[one.1]), RowOf(two.0, totals[two.0]),
      RowOf(two.1, totals[two.1])];
    rows := SortBy(rows, RowKey);
  }

  lemma NearestMonotone(x: real, y: real)
    requires x <= y
    ensures Nearest(x) <= Nearest(y)
  {
    assert x.Floor <= y.Floor;
  }

  /** After rounding, shown titles still add up to 1 within 2e-9 and no team shows a likelier
      title than final. */
  lemma ShownChances(one: (string, string), two: (string, string), adv: Advance, totals: Totals)
    requires FourTeams(one, two) && Proper(adv) && IsExpected(totals, one, two, adv)
    ensures var sum := RowOf(one.0, totals[one.0]).champion + RowOf(one.1, totals[one.1]).champion
                       + RowOf(two.0, totals[two.0]).champion + RowOf(two.1, totals[two.1]).champion;
      999_999_998 <= sum <= 1_000_000_002
    ensures forall team :: team in totals ==> RowOf(team, totals[team]).champion <= RowOf(team, totals[team]).reachFinal
  {
    hide Probability, Nearest;
    ChancesAddUp(one, two, adv);
    forall team | team in totals
      ensures Of(totals[team], Champion) == Probability(one, two, adv, team, Champion)
      ensures totals[team].champion <= totals[team].reachFinal
    {
      assert Of(totals[team], Champion) == Probability(one, two, adv, team, Champion);
      assert Of(totals[team], ReachFinal) == Probability(one, two, adv, team, ReachFinal);
      TitleNeedsFinal(one, two, adv, team);
    }
    forall team | team in totals ensures RowOf(team, totals[team]).champion <= RowOf(team, totals[team]).reachFinal {
      NearestMonotone(totals[team].champion * BILLION, totals[team].reachFinal * BILLION);
    }
    assert one.0 in totals && one.1 in totals && two.0 in totals && two.1 in totals;
  }

  // ---------------------------------------------------------------------
  // Orientation
  // ---------------------------------------------------------------------

  ghost predicate Complementary(adv: Advance) { forall x, y :: x != y ==> adv(x, y) + adv(y, x) == 1.0 }

  lemma WeighFlip(p: real, q: real, x: real, y: real)
    requires p + q == 1.0
    ensures Weigh(p, x, y) == Weigh(q, y, x)
  {
  }

  lemma WeighExchange(p: real, q: real, x: real, y: real, z: real, w: real)
    ensures Weigh(p, Weigh(q, x, y), Weigh(q, z, w)) == Weigh(q, Weigh(p, x, z), Weigh(p, y, w))
  {
    WeighPaths(p, q, x, y, z, w);
    WeighPaths(q, p, x, z, y, w);
    hide Times;
    TimesFacts(p, q, 0.0);
    TimesFacts(p, 1.0 - q, 0.0);
    TimesFacts(1.0 - p, q, 0.0);
    TimesFacts(1.0 - p, 1.0 - q, 0.0);
  }

  /** With complementary advance values it does not matter who is named first in a
      semifinal, nor which semifinal is named first. */
  lemma NamingOrderIrrelevant(one: (string, string), two: (string, string), adv: Advance, value: Outcome -> real)
    requires FourTeams(one, two) && Complementary(adv)
    ensures Expect((one.1, one.0), two, adv, value) == Expect(one, two, adv, value)
    ensures Expect(two, one, adv, value) == Expect(one, two, adv, value)
  {
    hide Weigh, Finish;
    var (a, b) := one;
    var (c, d) := two;
    AllDifferent(a, b, c, d);
    var p, q := adv(a, b), adv(c, d);
    var ac, ad := Finish(a, c, b, d, adv, value), Finish(a, d, b, c, adv, value);
    var bc, bd := Finish(b, c, a, d, adv, value), Finish(b, d, a, c, adv, value);
    WeighFlip(p, adv(b, a), Weigh(q, ac, ad), Weigh(q, bc, bd));
    FinishFlip(a, c, b, d, adv, value);
    FinishFlip(a, d, b, c, adv, value);
    FinishFlip(b, c, a, d, adv, value);
    FinishFlip(b, d, a, c, adv, value);
    WeighExchange(p, q, ac, ad, bc, bd);
  }

  lemma FinishFlip(f1: string, f2: string, t1: string, t2: string, adv: Advance, value: Outcome -> real)
    requires Complementary(adv) && f1 != f2 && t1 != t2
    ensures Finish(f2, f1, t2, t1, adv, value) == Finish(f1, f2, t1, t2, adv, value)
  {
    hide Weigh;
    var o1, o2, o3, o4 := value(Outcome(f1, f2, t1, t2)), value(Outcome(f1, f2, t2, t1)),
      value(Outcome(f2, f1, t1, t2)), value(Outcome(f2, f1, t2, t1));
    WeighFlip(adv(t1, t2), adv(t2, t1), o1, o2);
    WeighFlip(adv(t1, t2), adv(t2, t1), o3, o4);
    WeighFlip(adv(f1, f2), adv(f2, f1), Weigh(adv(t1, t2), o1, o2), Weigh(adv(t1, t2), o3, o4));
  }

  // ---------------------------------------------------------------------
  // The advance probability
  // ---------------------------------------------------------------------

  /** A fitted voice on neutral ground; only some voices predict a shorter match. */
  datatype Voice = Voice(predict: (string, string) -> Probs, extraTime: Option<(string, string) -> Probs>)

  predicate IsDistribution(p: Probs) { p.home >= 0.0 && p.draw >= 0.0 && p.away >= 0.0 && p.Sum() == 1.0 }

  function Mirror(p: Probs): Probs { Probs(p.away, p.draw, p.home) }

  /** On neutral ground the two orientations of a match mirror each other. */
  ghost predicate MirrorsOnNeutralGround(predict: (string, string) -> Probs) {
    forall x, y :: IsDistribution(predict(x, y)) && predict(y, x) == Mirror(predict(x, y))
  }

  ghost predicate NeutralVoice(voice: Voice) {
    MirrorsOnNeutralGround(voice.predict) && (voice.extraTime.Some? ==> MirrorsOnNeutralGround(voice.extraTime.value))
  }

  function NormalisePair(home: real, away: real): (r: (real, real))
    ensures r.0 + r.1 == 1.0
    ensures home >= 0.0 && away >= 0.0 ==> 0.0 <= r.0 <= 1.0
  {
    if home + away <= 0.0 then (0.5, 0.5) else (home / (home + away), away / (home + away))
  }

  function Clip(x: real): (r: real)
    ensures 0.0 <= r <= 1.0
    ensures 0.0 <= x <= 1.0 ==> r == x
  {
    var low := if x > 0.0 then x else 0.0;
    if low < 1.0 then low else 1.0
  }

  function Beyond90(voice: Voice, home: string, away: string): real {
    var regulation := voice.predict(home, away);
    match voice.extraTime
    case Some(predict) => predict(home, away).home + 0.5 * predict(home, away).draw
    case None => NormalisePair(regulation.home, regulation.away).0
  }

  function KnockoutAdvance(voice: Voice): Advance {
    (home: string, away: string) =>
      var regulation := voice.predict(home, away);
      Clip(regulation.home + Times(regulation.draw, Beyond90(voice, home, away)))
  }

  lemma BeyondIsShare(voice: Voice, home: string, away: string)
    requires NeutralVoice(voice)
    ensures 0.0 <= Beyond90(voice, home, away) <= 1.0
    ensures Beyond90(voice, home, away) + Beyond90(voice, away, home) == 1.0
  {
    if voice.extraTime.Some? {
      var p := voice.extraTime.value(home, away);
      assert IsDistribution(p) && voice.extraTime.value(away, home) == Mirror(p);
    } else {
      var p := voice.predict(home, away);
      assert IsDistribution(p) && voice.predict(away, home) == Mirror(p);
      NormaliseMirror(p.home, p.away);
    }
  }

  lemma NormaliseMirror(x: real, y: real)
    ensures NormalisePair(y, x) == (NormalisePair(x, y).1, NormalisePair(x, y).0)
  {
  }

  /** For either kind of voice, someone advances: the two orientations add up to 1, each is
      a probability, and the clipping never bites. */
  lemma SomeoneAdvances(voice: Voice, home: string, away: string)
    requires NeutralVoice(voice)
    ensures var p := voice.predict(home, away);
      KnockoutAdvance(voice)(home, away) == p.home + Times(p.draw, Beyond90(voice, home, away))
    ensures KnockoutAdvance(voice)(home, away) + KnockoutAdvance(voice)(away, home) == 1.0
    ensures 0.0 <= KnockoutAdvance(voice)(home, away) <= 1.0
  {
    hide Beyond90, Times, NeutralVoice;
    var p := voice.predict(home, away);
    assert IsDistribution(p) && voice.predict(away, home) == Mirror(p) by { NeutralPredict(voice, home, away); }
    BeyondIsShare(voice, home, away);
    var x, y := Beyond90(voice, home, away), Beyond90(voice, away, home);
    TimesFacts(p.draw, x, y);
    TimesFacts(p.draw, 1.0, x);
    TimesSign(p.draw, x);
    TimesSign(p.draw, y);
  }

  lemma NeutralPredict(voice: Voice, home: string, away: string)
    requires NeutralVoice(voice)
    ensures IsDistribution(voice.predict(home, away)) && voice.predict(away, home) == Mirror(voice.predict(home, away))
  {
  }

  /** So for every neutral voice the bracket is proper whatever order it is written in. */
  lemma NeutralBracket(voice: Voice)
    requires NeutralVoice(voice)
    ensures Proper(KnockoutAdvance(voice)) && Complementary(KnockoutAdvance(voice))
  {
    hide KnockoutAdvance;
    forall x, y
      ensures 0.0 <= KnockoutAdvance(voice)(x, y) <= 1.0
      ensures KnockoutAdvance(voice)(x, y) + KnockoutAdvance(voice)(y, x) == 1.0
    {
      SomeoneAdvances(voice, x, y);
    }
  }

  // ---------------------------------------------------------------------
  // The callers
  // ---------------------------------------------------------------------

  /** The advance value the two callers pass: a played semifinal is certain, any other match
      falls to the fitted voice, or to one half without one. */
  function CallerAdvance(voice: Option<Voice>, played: map<(string, string), bool>): Advance {
    (home: string, away: string) =>
      if (home, away) in played then (if played[(home, away)] then 1.0 else 0.0)
      else if voice.Some? then KnockoutAdvance(voice.value)(home, away)
      else 0.5
  }

  lemma Clipped(voice: Voice, home: string, away: string)
    ensures 0.0 <= KnockoutAdvance(voice)(home, away) <= 1.0
  {
    hide Times, Beyond90;
    var p := voice.predict(home, away);
    assert KnockoutAdvance(voice)(home, away) == Clip(p.home + Times(p.draw, Beyond90(voice, home, away)));
  }

  /** Whatever the voice predicts, every value a caller passes is clipped into [0, 1], so no
      caller's bracket ever shows a title likelier than its final. */
  lemma CallersAreProper(voice: Option<Voice>, played: map<(string, string), bool>, one: (string, string),
                         two: (string, string), team: string)
    ensures Proper(CallerAdvance(voice, played))
    ensures var adv := CallerAdvance(voice, played);
      Probability(one, two, adv, team, Champion) <= Probability(one, two, adv, team, ReachFinal)
  {
    hide Probability;
    forall x, y ensures 0.0 <= CallerAdvance(voice, played)(x, y) <= 1.0 {
      if voice.Some? { Clipped(voice.value, x, y); }
    }
    TitleNeedsFinal(one, two, CallerAdvance(voice, played), team);
  }

  /** The home team's chance in full: it wins in regulation, or draws and then wins extra time
      or, level again, half the shoot-outs; without an extra-time forecast its share of the
      decided matches stands in. */
  lemma AdvanceMeans(voice: Voice, home: string, away: string)
    requires NeutralVoice(voice)
    ensures var p := voice.predict(home, away);
      voice.extraTime.Some? ==>
        var e := voice.extraTime.value(home, away);
        KnockoutAdvance(voice)(home, away) == p.home + p.draw * (e.home + 0.5 * e.draw)
    ensures var p := voice.predict(home, away);
      voice.extraTime.None? ==>
        KnockoutAdvance(voice)(home, away)
        == p.home + p.draw * (if p.home + p.away <= 0.0 then 0.5 else p.home / (p.home + p.away))
  {
    hide Times, KnockoutAdvance, NeutralVoice;
    SomeoneAdvances(voice, home, away);
    TimesIsProduct(voice.predict(home, away).draw, Beyond90(voice, home, away));
  }

  lemma TimesIsProduct(x: real, y: real)
    ensures Times(x, y) == x * y
  {
  }

  /** A team forecast to win at least as often as its opponent, in both periods, advances with
      at least even chances. */
  lemma FavouriteAdvances(voice: Voice, home: string, away: string)
    requires NeutralVoice(voice)
    requires voice.predict(home, away).home >= voice.predict(home, away).away
    requires voice.extraTime.Some? ==> voice.extraTime.value(home, away).home >= voice.extraTime.value(home, away).away
    ensures KnockoutAdvance(voice)(home, away) >= 0.5
  {
    hide Times;
    SomeoneAdvances(voice, home, away);
    var p, x := voice.predict(home, away), Beyond90(voice, home, away);
    FavouriteBeyond(voice, home, away);
    NeutralPredict(voice, home, away);
    TimesSign(p.draw, x - 0.5);
    TimesFacts(p.draw, x, 0.5);
    Half(p.draw);
  }

  lemma Half(x: real)
    ensures Times(x, 0.5) == x / 2.0
  {
  }

  lemma FavouriteBeyond(voice: Voice, home: string, away: string)
    requires NeutralVoice(voice)
    requires voice.predict(home, away).home >= voice.predict(home, away).away
    requires voice.extraTime.Some? ==> voice.extraTime.value(home, away).home >= voice.extraTime.value(home, away).away
    ensures Beyond90(voice, home, away) >= 0.5
  {
    if voice.extraTime.Some? {
      assert IsDistribution(voice.extraTime.value(home, away));
    } else {
      var p := voice.predict(home, away);
      if p.home + p.away > 0.0 { LargerShare(p.home, p.away); }
    }
  }

  lemma LargerShare(x: real, y: real)
    requires x >= y && x + y > 0.0
    ensures x / (x + y) >= 0.5
  {
    var q := x / (x + y);
    assert q * (x + y) == x;
    if q < 0.5 { TimesPositive(0.5 - q, x + y); }
  }
}
