/** A whole simulated season: totals, terminal orders, play-off swaps, stake counts
    and the displayed percentages. */
module SeasonSimulation {
  import opened Prelude
  import opened Ordering
  import opened Sums
  import opened Pairs
  import opened Standings
  import opened SeasonRuns
  import opened SimulatedRanking
  import Apportionment
  import TableMeaning

  /** The terminal order of a run is the league table of that run's results. */
  ghost predicate OrdersRun(order: seq<nat>, season: Season, run: Run)
    requires |run| == |season.fixtures|
  {
    && multiset(order) == multiset(Range(|season.teams|))
    && (forall k :: 0 <= k < |order| ==> order[k] < |season.teams|)
    && IsStandings(RowsOf(Results(season, run), season.league, season.teams, order),
                   Results(season, run), season.league, Everyone(season))
  }

  /** The refinement, against the table method's own output: filling the schedule with a
      run's scores and building the table from scratch gives the simulated order, with
      every figure the same. */
  lemma TerminalOrderIsTable(season: Season, run: Run, order: seq<nat>, ranked: seq<Row>)
    requires season.Valid() && |run| == |season.fixtures| && OrdersRun(order, season, run)
    requires IsStandings(ranked, Completed(Filled(season, run)), season.league,
                         Population(Filled(season, run), season.teams))
    ensures ranked == RowsOf(Results(season, run), season.league, season.teams, order)
    ensures |ranked| == |order| && forall k :: 0 <= k < |order| ==> ranked[k].team == season.teams[order[k]]
  {
    hide IsStandings, TallyOf, Season.Valid;
    FilledCompletes(season, run, |run|);
    assert Filled(season, run)[..|run|] == Filled(season, run);
    assert Results(season, run)[..|run|] == Results(season, run);
    FilledPopulation(season, run);
    StandingsUnique(ranked, RowsOf(Results(season, run), season.league, season.teams, order),
                    Results(season, run), season.league, Everyone(season));
  }

  lemma FilledPopulation(season: Season, run: Run)
    requires season.Valid() && |run| == |season.fixtures|
    requires Completed(Filled(season, run)) == Results(season, run)
    ensures Population(Filled(season, run), season.teams) == Everyone(season)
  {
    hide Completed, IsDoubleRoundRobin;
    var ms := Results(season, run);
    forall m | m in ms ensures m.home in season.teams && m.away in season.teams {
      var i :| 0 <= i < |ms| && ms[i] == m;
      assert season.fixtures[i].home == season.teams[season.homeIndex[i]];
      assert season.fixtures[i].away == season.teams[season.awayIndex[i]];
    }
  }

  /** In plain figures: every run's order before the deciders is the league table of that
      run's results. */
  lemma TerminalOrderMeans(season: Season, run: Run, order: seq<nat>)
    requires |run| == |season.fixtures| && OrdersRun(order, season, run)
    ensures TableMeaning.IsLeagueTable(RowsOf(Results(season, run), season.league, season.teams, order),
                                       Results(season, run), season.league, Everyone(season))
  {
    hide IsStandings, Results;
    TableMeaning.StandingsMean(RowsOf(Results(season, run), season.league, season.teams, order),
                               Results(season, run), season.league, Everyone(season));
  }

  /** The ranker the rule calls for. */
  method RankRun(season: Season, ghost run: Run, lines: seq<Line>, scores: seq<(int, int)>) returns (order: seq<nat>)
    requires Ready(season, run, lines, scores)
    ensures OrdersRun(order, season, run)
  {
    hide TallyOf, FinalRow, Results, MatchesOf, IsListing, SortedBy, Season.Valid;
    if season.league.rule.headToHeadOnPoints {
      order := HeadToHeadOrder(season, run, lines, scores);
    } else {
      ReadyTeams(season, run, lines, scores);
      order := OverallOrder(season.league.rule, season.teams, lines);
      OverallIsTable(season, run, lines, scores, order);
    }
  }

  lemma OverallIsTable(season: Season, run: Run, lines: seq<Line>, scores: seq<(int, int)>, order: seq<nat>)
    requires Ready(season, run, lines, scores) && !season.league.rule.headToHeadOnPoints
    requires multiset(order) == multiset(Range(|season.teams|)) && |lines| == |season.teams|
    requires SortedBy(order, OverallIndexKey(season.league.rule, season.teams, lines))
    ensures OrdersRun(order, season, run)
  {
    hide TallyOf, FinalRow, Results, MatchesOf, IsListing, SortedBy, Season.Valid, OverallIndexKey, LinesMatch;
    var ms, league, teams := Results(season, run), season.league, season.teams;
    ReadyTeams(season, run, lines, scores);
    OrderRows(order, ms, league, teams);
    forall i | i in order
      ensures OverallIndexKey(league.rule, teams, lines)(i)
          == OverallRanker(league.rule)(FinalRow(ms, league, teams[i]))
    {
      OverallKeysAgree(league.rule, teams, lines, ms, league, i);
    }
    SortedRows(order, OverallIndexKey(league.rule, teams, lines), OverallRanker(league.rule), ms, league, teams);
    var rows := RowsOf(ms, league, teams, order);
    OverallStandings(rows, rows, ms, league, Everyone(season));
  }

  /** The finished arrays hand the rankers exactly their run. */
  lemma RunReady(a: Arrays, season: Season, chance: Chance, r: nat, lines: seq<Line>, scores: seq<(int, int)>)
    requires a.Valid() && season.Valid() && chance.Valid(season.fixtures, a.iterations)
    requires a.size == |season.teams| && a.matches == |season.fixtures| && r < a.iterations
    requires Tracks(a, season, chance, |season.fixtures|)
    requires |lines| == a.size && forall t :: 0 <= t < a.size ==> lines[t] == a.LineAt(r, t)
    requires |scores| == a.matches && forall i :: 0 <= i < a.matches ==> scores[i] == a.ScoreAt(r, i)
    ensures Ready(season, RunOf(season, chance, a.iterations, r), lines, scores)
  {
    hide LineAfter, Season.Valid, FinalRow, Results, MatchesOf, IsRun;
    var run := RunOf(season, chance, a.iterations, r);
    SampledRun(season, chance, a.iterations, r);
    EndLines(season, run);
    forall t | 0 <= t < a.size ensures lines[t] == LineAfter(season, run, |run|, t) {}
    forall i | 0 <= i < |run| ensures scores[i] == (run[i].0 as int, run[i].1 as int) {}
    RunMatches(season, run, scores);
  }

  lemma RunMatches(season: Season, run: Run, scores: seq<(int, int)>)
    requires season.Valid() && |run| == |season.fixtures| == |scores|
    requires forall i :: 0 <= i < |run| ==> scores[i] == (run[i].0 as int, run[i].1 as int)
    ensures MatchesOf(Results(season, run), season, scores)
  {
    hide IsDoubleRoundRobin;
    forall k | 0 <= k < |run| ensures season.homeIndex[k] != season.awayIndex[k] { NotSelf(season, k); }
  }

  lemma EndLines(season: Season, run: Run)
    requires season.Valid() && IsRun(season, run)
    ensures forall t :: 0 <= t < |season.teams| ==>
      LineAfter(season, run, |run|, t) == LineOfRow(FinalRow(Results(season, run), season.league, season.teams[t]))
  {
    hide TallyOf;
    PartialEnd(season, run, |run|, |run|);
    assert Results(season, run)[..|run|] == Results(season, run);
  }

  // ---------------------------------------------------------------------
  // Play-offs
  // ---------------------------------------------------------------------

  function SwapIf(order: seq<nat>, k: nat, condition: bool): (swapped: seq<nat>)
    requires condition ==> k + 1 < |order|
    ensures |swapped| == |order|
  {
    if condition then order[k := order[k + 1]][k + 1 := order[k]] else order
  }

  lemma SwapKeeps(order: seq<nat>, k: nat, condition: bool)
    requires condition ==> k + 1 < |order|
    ensures multiset(SwapIf(order, k, condition)) == multiset(order)
  {
    if condition {
      var s := SwapIf(order, k, condition);
      assert order == order[..k] + [order[k], order[k + 1]] + order[k + 2..];
      assert s == order[..k] + [order[k + 1], order[k]] + order[k + 2..];
    }
  }

  /** Only teams level on points are ever swapped, so the points column is untouched. */
  ghost predicate SamePoints(before: seq<nat>, after: seq<nat>, lines: seq<Line>)
    requires forall k :: 0 <= k < |before| ==> before[k] < |lines|
  {
    && |after| == |before| && multiset(after) == multiset(before)
    && forall k :: 0 <= k < |after| ==> after[k] < |lines| && lines[after[k]].points == lines[before[k]].points
  }

  /** `playoff_probability`: the chance that the first of two teams, named by index, wins a
      decider. */
  type Playoff = (nat, nat) -> real

  /** The decider at place k is played when the rule asks for it and the two teams are
      level; the lower-placed team wins it, and they swap, when the draw exceeds the other's
      chance. */
  function Decider(lines: seq<Line>, order: seq<nat>, k: int, asked: bool, playoff: Playoff, draw: real): bool
    requires forall j :: 0 <= j < |order| ==> order[j] < |lines|
  {
    && asked && 0 <= k && k + 1 < |order| && lines[order[k]].points == lines[order[k + 1]].points
    && draw > playoff(order[k], order[k + 1])
  }

  /** The order after the title decider and then the decider around the last safe place. */
  function Decided(rule: LeagueRule, lines: seq<Line>, order: seq<nat>, playoff: Playoff,
                   draws: (real, real)): seq<nat>
    requires forall j :: 0 <= j < |order| ==> order[j] < |lines|
  {
    var middle := SwapIf(order, 0, Decider(lines, order, 0, rule.titlePlayoff, playoff, draws.0));
    var safe := |order| - rule.relegationSlots - 1;
    var survival := Decider(lines, middle, safe, rule.relegationPlayoff, playoff, draws.1);
    SwapIf(middle, if safe >= 0 then safe else 0, survival)
  }

  /** Swapping level neighbours leaves the points column alone. */
  lemma SwapSamePoints(lines: seq<Line>, order: seq<nat>, k: nat, condition: bool)
    requires forall j :: 0 <= j < |order| ==> order[j] < |lines|
    requires condition ==> k + 1 < |order| && lines[order[k]].points == lines[order[k + 1]].points
    ensures SamePoints(order, SwapIf(order, k, condition), lines)
  {
    SwapKeeps(order, k, condition);
  }

  lemma DecidedSamePoints(rule: LeagueRule, lines: seq<Line>, order: seq<nat>, playoff: Playoff, draws: (real, real))
    requires forall j :: 0 <= j < |order| ==> order[j] < |lines|
    ensures SamePoints(order, Decided(rule, lines, order, playoff, draws), lines)
  {
    hide SwapIf;
    var title := Decider(lines, order, 0, rule.titlePlayoff, playoff, draws.0);
    SwapSamePoints(lines, order, 0, title);
    var middle := SwapIf(order, 0, title);
    var safe := |order| - rule.relegationSlots - 1;
    SwapSamePoints(lines, middle, if safe >= 0 then safe else 0,
                   Decider(lines, middle, safe, rule.relegationPlayoff, playoff, draws.1));
  }

  /** Who wins the title and who stays up.  With the two deciders apart, the title goes to the
      upper team unless the two are level, a decider is asked for and the draw exceeds its
      chance; likewise the last safe place; every other place stays as it was. */
  lemma DecidersMean(rule: LeagueRule, lines: seq<Line>, order: seq<nat>, playoff: Playoff, draws: (real, real), k: nat)
    requires forall j :: 0 <= j < |order| ==> order[j] < |lines|
    requires 1 <= rule.relegationSlots && k == |order| - rule.relegationSlots - 1 && k >= 2
    ensures var final := Decided(rule, lines, order, playoff, draws);
      var title := rule.titlePlayoff && lines[order[0]].points == lines[order[1]].points;
      var survival := rule.relegationPlayoff && lines[order[k]].points == lines[order[k + 1]].points;
      var upset := survival && draws.1 > playoff(order[k], order[k + 1]);
      && |final| == |order|
      && (title && draws.0 > playoff(order[0], order[1]) ==> final[0] == order[1] && final[1] == order[0])
      && (!(title && draws.0 > playoff(order[0], order[1])) ==> final[0] == order[0] && final[1] == order[1])
      && (upset ==> final[k] == order[k + 1] && final[k + 1] == order[k])
      && (!upset ==> final[k] == order[k] && final[k + 1] == order[k + 1])
      && (forall j :: 2 <= j < |order| && j != k && j != k + 1 ==> final[j] == order[j])
  {
  }

  /** The play-off statements of the ranking loop, with the run's next two uniform draws. */
  method Playoffs(rule: LeagueRule, lines: seq<Line>, order: seq<nat>, playoff: Playoff, draws: (real, real))
    returns (final: seq<nat>)
    requires rule.relegationSlots >= 1
    requires forall k :: 0 <= k < |order| ==> order[k] < |lines|
    ensures final == Decided(rule, lines, order, playoff, draws)
  {
    final := order;
    if rule.titlePlayoff && |order| > 1 {
      if lines[final[0]].points == lines[final[1]].points && draws.0 > playoff(final[0], final[1]) {
        final := final[0 := final[1]][1 := final[0]];
      }
    }
    var safe := |order| - rule.relegationSlots - 1;
    if rule.relegationPlayoff && safe >= 0 && lines[final[safe]].points == lines[final[safe + 1]].points {
      if draws.1 > playoff(final[safe], final[safe + 1]) {
        final := final[safe := final[safe + 1]][safe + 1 := final[safe]];
      }
    }
  }

  /** The counters a run's table says every team ends on. */
  function ScratchLines(season: Season, run: Run): (lines: seq<Line>)
    requires |run| == |season.fixtures|
    ensures |lines| == |season.teams|
  {
    seq(|season.teams|, i requires 0 <= i < |season.teams| =>
      LineOfRow(FinalRow(Results(season, run), season.league, season.teams[i])))
  }

  /** An iteration's two orders: the table of its run, and the table after its deciders. */
  ghost predicate IsIteration(order: seq<nat>, final: seq<nat>, season: Season, run: Run, playoff: Playoff,
                              draws: (real, real))
    requires |run| == |season.fixtures|
  {
    && OrdersRun(order, season, run)
    && final == Decided(season.league.rule, ScratchLines(season, run), order, playoff, draws)
    && multiset(final) == multiset(Range(|season.teams|)) && |final| == |season.teams|
  }

  // ---------------------------------------------------------------------
  // Stake counts
  // ---------------------------------------------------------------------

  /** The places each stake is about, run by run. */
  function Slices(orders: seq<seq<nat>>, low: nat, high: nat): seq<seq<nat>> {
    seq(|orders|, r requires 0 <= r < |orders| => if low <= high <= |orders[r]| then orders[r][low..high] else [])
  }

  /** In how many of the picks team t appears. */
  function TimesPicked(picks: seq<seq<nat>>, t: nat): nat {
    if picks == [] then 0
    else TimesPicked(picks[..|picks| - 1], t) + if t in picks[|picks| - 1] then 1 else 0
  }

  function Counts(picks: seq<seq<nat>>, n: nat): (counts: seq<nat>)
    ensures |counts| == n && forall t :: 0 <= t < n ==> counts[t] == TimesPicked(picks, t)
  {
    seq(n, t requires 0 <= t < n => TimesPicked(picks, t))
  }

  function PickedBy(picks: seq<seq<nat>>): nat -> int { (t: nat) => TimesPicked(picks, t) }

  /** A slice of an order: the places a stake is about. */
  ghost predicate IsPlaces(pick: seq<nat>, n: nat, slots: nat) {
    |pick| == slots && Distinct(pick) && forall t :: t in pick ==> t < n
  }

  lemma {:induction false} PlacesCount(pick: seq<nat>, n: nat, slots: nat)
    requires IsPlaces(pick, n, slots)
    ensures SumBy(Range(n), Apportionment.Bonus(pick)) == slots
    decreases n
  {
    var b := Apportionment.Bonus(pick);
    if n == 0 {
      DistinctSize(pick);
      assert (set t | t in pick) == {};
    } else {
      var r := Range(n);
      assert r[..n - 1] == Range(n - 1);
      if n - 1 in pick {
        var k :| 0 <= k < |pick| && pick[k] == n - 1;
        var rest := pick[..k] + pick[k + 1..];
        RestPlaces(pick, k, n, slots);
        PlacesCount(rest, n - 1, slots - 1);
        SumAgrees(Range(n - 1), b, Apportionment.Bonus(rest));
      } else {
        PlacesCount(pick, n - 1, slots);
      }
    }
  }

  lemma RestPlaces(pick: seq<nat>, k: nat, n: nat, slots: nat)
    requires IsPlaces(pick, n, slots) && k < |pick| && n > 0 && pick[k] == n - 1
    ensures slots > 0 && IsPlaces(pick[..k] + pick[k + 1..], n - 1, slots - 1)
    ensures forall t :: t in Range(n - 1) ==> (t in pick <==> t in pick[..k] + pick[k + 1..])
  {
    var rest := pick[..k] + pick[k + 1..];
    assert pick == pick[..k] + [pick[k]] + pick[k + 1..];
    forall t | t in rest ensures t < n - 1 {
      assert t in pick;
    }
  }

  lemma {:induction false} SumAgrees(s: seq<nat>, f: nat -> int, g: nat -> int)
    requires forall x :: x in s ==> f(x) == g(x)
    ensures SumBy(s, f) == SumBy(s, g)
  {
    if s != [] {
      assert s[|s| - 1] in s;
      SumAgrees(s[..|s| - 1], f, g);
    }
  }

  /** Every run fills the same number of places, so the counts add up. */
  lemma {:induction false} CountsAddUp(picks: seq<seq<nat>>, n: nat, slots: nat)
    requires forall r :: 0 <= r < |picks| ==> IsPlaces(picks[r], n, slots)
    ensures SumBy(Range(n), PickedBy(picks)) == slots * |picks|
  {
    if picks == [] {
      SumBound(Range(n), PickedBy(picks), 0, 0);
    } else {
      var init, last := picks[..|picks| - 1], picks[|picks| - 1];
      CountsAddUp(init, n, slots);
      PlacesCount(last, n, slots);
      SumSplit(Range(n), PickedBy(init), Apportionment.Bonus(last), PickedBy(picks));
      Times(slots, |init|);
    }
  }

  lemma Times(a: int, b: int)
    ensures a * b + a == a * (b + 1)
  {
  }

  lemma CountsMeetSlots(picks: seq<seq<nat>>, n: nat, slots: nat)
    requires forall r :: 0 <= r < |picks| ==> IsPlaces(picks[r], n, slots)
    ensures var counts := Counts(picks, n);
      SumBy(Range(|counts|), Apportionment.CountAt(counts)) == slots * |picks|
  {
    CountsAddUp(picks, n, slots);
    SumAgrees(Range(n), Apportionment.CountAt(Counts(picks, n)), PickedBy(picks));
  }

  lemma SliceIsPlaces(order: seq<nat>, n: nat, low: nat, high: nat)
    requires multiset(order) == multiset(Range(n)) && low <= high <= n
    ensures |order| == n && IsPlaces(order[low..high], n, high - low)
  {
    PermutationOfRange(order, n);
    forall t | t in order[low..high] ensures t < n { assert t in order; }
  }

  /** A stake's flag array, filled run by run. */
  method StakeFlags(orders: seq<seq<nat>>, low: nat, high: nat, n: nat) returns (flags: array2<bool>)
    requires low <= high <= n
    requires forall r :: 0 <= r < |orders| ==> multiset(orders[r]) == multiset(Range(n)) && |orders[r]| == n
    ensures flags.Length0 == |orders| && flags.Length1 == n
    ensures forall q, t :: 0 <= q < |orders| && 0 <= t < n ==> (flags[q, t] <==> t in Slices(orders, low, high)[q])
  {
    flags := new bool[|orders|, n]((_, _) => false);
    ghost var picks := Slices(orders, low, high);
    for r := 0 to |orders|
      invariant forall q, t :: 0 <= q < r && 0 <= t < n ==> (flags[q, t] <==> t in picks[q])
      invariant forall q, t :: r <= q < |orders| && 0 <= t < n ==> !flags[q, t]
    {
      SliceIsPlaces(orders[r], n, low, high);
      for k := low to high
        invariant forall q, t :: 0 <= q < r && 0 <= t < n ==> (flags[q, t] <==> t in picks[q])
        invariant forall q, t :: r < q < |orders| && 0 <= t < n ==> !flags[q, t]
        invariant forall t :: 0 <= t < n ==> (flags[r, t] <==> t in orders[r][low..k])
      {
        assert orders[r][low..k + 1] == orders[r][low..k] + [orders[r][k]];
        assert orders[r][k] in picks[r] by { assert picks[r][k - low] == orders[r][k]; }
        flags[r, orders[r][k]] := true;
      }
    }
  }

  /** The shown percentages of a stake. */
  method StakePercent(orders: seq<seq<nat>>, low: nat, high: nat, teams: seq<Team>) returns (units: seq<int>)
    requires |orders| > 0 && low <= high <= |teams|
    requires forall r :: 0 <= r < |orders| ==> multiset(orders[r]) == multiset(Range(|teams|)) && |orders[r]| == |teams|
    ensures Apportionment.IsApportionment(units, Counts(Slices(orders, low, high), |teams|), |orders|, high - low,
                                          teams)
  {
    hide Apportionment.IsApportionment, IsPlaces;
    var n := |teams|;
    var flags := StakeFlags(orders, low, high, n);
    ghost var picks := Slices(orders, low, high);
    var counts := ColumnSums(flags, picks);
    forall r | 0 <= r < |picks| ensures IsPlaces(picks[r], n, high - low) {
      SliceIsPlaces(orders[r], n, low, high);
    }
    CountsMeetSlots(picks, n, high - low);
    units := Apportionment.LargestRemainderPercent(counts, |orders|, high - low, teams);
  }

  /** `flags.sum(axis=0)` */
  method ColumnSums(flags: array2<bool>, ghost picks: seq<seq<nat>>) returns (counts: seq<nat>)
    requires |picks| == flags.Length0
    requires forall q, t :: 0 <= q < flags.Length0 && 0 <= t < flags.Length1 ==> (flags[q, t] <==> t in picks[q])
    ensures counts == Counts(picks, flags.Length1)
  {
    counts := seq(flags.Length1, _ => 0);
    for r := 0 to flags.Length0
      invariant |counts| == flags.Length1
      invariant forall t :: 0 <= t < |counts| ==> counts[t] == TimesPicked(picks[..r], t)
    {
      assert picks[..r + 1][..r] == picks[..r];
      counts := seq(|counts|, t requires 0 <= t < |counts| <= flags.Length1 && r < flags.Length0 reads flags =>
        counts[t] + if flags[r, t] then 1 else 0);
    }
    assert picks[..flags.Length0] == picks;
  }

  // ---------------------------------------------------------------------
  // Expected points
  // ---------------------------------------------------------------------

  /** Team t's points over the from-scratch tables of the first n runs. */
  ghost function TablePoints(season: Season, chance: Chance, iterations: nat, n: nat, t: nat): int
    requires season.Valid() && chance.Valid(season.fixtures, iterations) && n <= iterations && t < |season.teams|
  {
    if n == 0 then 0
    else TablePoints(season, chance, iterations, n - 1, t)
         + FinalRow(Results(season, RunOf(season, chance, iterations, n - 1)), season.league, season.teams[t]).points
  }

  /** `points.mean(axis=0)`: the average over runs of the points in each run's own table. */
  method ExpectedPoints(a: Arrays, season: Season, ghost chance: Chance) returns (mean: seq<real>)
    requires a.Valid() && season.Valid() && chance.Valid(season.fixtures, a.iterations) && a.iterations > 0
    requires a.size == |season.teams| && a.matches == |season.fixtures|
    requires Tracks(a, season, chance, |season.fixtures|)
    ensures IsMean(mean, season, chance, a.iterations)
  {
    hide Season.Valid, Chance.Valid, Tracks, FinalRow, Results, LineAfter, IsRun;
    mean := [];
    for t := 0 to a.size
      invariant |mean| == t
      invariant forall u :: 0 <= u < t ==>
        mean[u] == TablePoints(season, chance, a.iterations, a.iterations, u) as real / a.iterations as real
    {
      var sum := 0;
      for r := 0 to a.iterations
        invariant sum == TablePoints(season, chance, a.iterations, r, t)
      {
        RunPoints(a, season, chance, r, t);
        sum := sum + a.points[r, t] as int;
      }
      mean := mean + [sum as real / a.iterations as real];
    }
  }

  ghost predicate IsMean(mean: seq<real>, season: Season, chance: Chance, iterations: nat)
    requires season.Valid() && chance.Valid(season.fixtures, iterations) && iterations > 0
  {
    && |mean| == |season.teams|
    && forall t :: 0 <= t < |mean| ==>
         mean[t] == TablePoints(season, chance, iterations, iterations, t) as real / iterations as real
  }

  lemma RunPoints(a: Arrays, season: Season, chance: Chance, r: nat, t: nat)
    requires a.Valid() && season.Valid() && chance.Valid(season.fixtures, a.iterations)
    requires a.size == |season.teams| && a.matches == |season.fixtures| && r < a.iterations && t < a.size
    requires Tracks(a, season, chance, |season.fixtures|)
    ensures a.LineAt(r, t).points
      == FinalRow(Results(season, RunOf(season, chance, a.iterations, r)), season.league, season.teams[t]).points
  {
    hide LineAfter, Season.Valid, FinalRow, Results, IsRun;
    var run := RunOf(season, chance, a.iterations, r);
    SampledRun(season, chance, a.iterations, r);
    EndLines(season, run);
    assert a.LineAt(r, t) == LineAfter(season, run, |run|, t);
  }

  // ---------------------------------------------------------------------
  // One voice, start to finish
  // ---------------------------------------------------------------------

  /** `_voice_simulation`: terminal holds each run's order before the play-off swaps,
      final the order after them. */
  method VoiceSimulation(season: Season, chance: Chance, playoff: Playoff, deciders: seq<(real, real)>)
    returns (terminal: seq<seq<nat>>, final: seq<seq<nat>>, title: seq<int>, topFour: seq<int>, relegation: seq<int>,
             expected: seq<real>)
    requires season.Valid() && chance.Valid(season.fixtures, |deciders|) && |deciders| > 0
    requires 1 <= season.league.rule.relegationSlots <= |season.teams|
    ensures |terminal| == |final| == |deciders|
    ensures forall r :: 0 <= r < |deciders| ==>
      IsIteration(terminal[r], final[r], season, RunOf(season, chance, |deciders|, r), playoff, deciders[r])
    ensures var rule, n := season.league.rule, |season.teams|;
      var top := if n < 4 then n else 4;
      && Apportionment.IsApportionment(title, Counts(Slices(final, 0, 1), n), |deciders|, 1, season.teams)
      && Apportionment.IsApportionment(topFour, Counts(Slices(final, 0, top), n), |deciders|, top, season.teams)
      && Apportionment.IsApportionment(relegation, Counts(Slices(final, n - rule.relegationSlots, n), n), |deciders|,
                                       rule.relegationSlots, season.teams)
    ensures IsMean(expected, season, chance, |deciders|)
  {
    hide Season.Valid, Chance.Valid, OrdersRun, IsMean, Decided, LineAfter, IsRun, Tracks, ScoreOf,
         Apportionment.IsApportionment;
    var rule, n := season.league.rule, |season.teams|;
    var a := new Arrays(|deciders|, n, |season.fixtures|);
    StartFromTable(a, season, chance);
    SimulateFixtures(a, season, chance);
    terminal, final := RankIterations(a, season, chance, playoff, deciders);
    var top := if n < 4 then n else 4;
    title := StakePercent(final, 0, 1, season.teams);
    topFour := StakePercent(final, 0, top, season.teams);
    relegation := StakePercent(final, n - rule.relegationSlots, n, season.teams);
    expected := ExpectedPoints(a, season, chance);
  }

  lemma FromScratch(season: Season, run: Run, lines: seq<Line>, scores: seq<(int, int)>)
    requires Ready(season, run, lines, scores)
    ensures lines == ScratchLines(season, run)
  {
    hide FinalRow, Season.Valid, MatchesOf;
  }

  /** The ranking loop. */
  method RankIterations(a: Arrays, season: Season, ghost chance: Chance, playoff: Playoff,
                        deciders: seq<(real, real)>)
    returns (terminal: seq<seq<nat>>, final: seq<seq<nat>>)
    requires a.Valid() && season.Valid() && chance.Valid(season.fixtures, a.iterations)
    requires a.size == |season.teams| && a.matches == |season.fixtures| && a.iterations == |deciders|
    requires Tracks(a, season, chance, |season.fixtures|)
    requires season.league.rule.relegationSlots >= 1
    ensures |terminal| == |final| == |deciders|
    ensures forall r :: 0 <= r < |deciders| ==>
      IsIteration(terminal[r], final[r], season, RunOf(season, chance, a.iterations, r), playoff, deciders[r])
  {
    hide Season.Valid, Chance.Valid, IsIteration, LineAfter, IsRun, Tracks, ScoreOf;
    terminal, final := [], [];
    for r := 0 to |deciders|
      invariant Tracks(a, season, chance, |season.fixtures|)
      invariant |terminal| == |final| == r
      invariant forall q :: 0 <= q < r ==>
        IsIteration(terminal[q], final[q], season, RunOf(season, chance, a.iterations, q), playoff, deciders[q])
    {
      var order, swapped := RankIteration(a, season, chance, r, playoff, deciders[r]);
      terminal := terminal + [order];
      final := final + [swapped];
    }
  }

  /** The body of the ranking loop. */
  method RankIteration(a: Arrays, season: Season, ghost chance: Chance, r: nat, playoff: Playoff, draws: (real, real))
    returns (order: seq<nat>, swapped: seq<nat>)
    requires a.Valid() && season.Valid() && chance.Valid(season.fixtures, a.iterations)
    requires a.size == |season.teams| && a.matches == |season.fixtures| && r < a.iterations
    requires Tracks(a, season, chance, |season.fixtures|)
    requires season.league.rule.relegationSlots >= 1
    ensures IsIteration(order, swapped, season, RunOf(season, chance, a.iterations, r), playoff, draws)
  {
    hide Season.Valid, Chance.Valid, IsStandings, FinalRow, Results, MatchesOf, LineAfter, IsRun, Tracks,
         LinesMatch, Decided;
    var lines := a.Lines(r);
    var scores := seq(a.matches, i requires a.Valid() && 0 <= i < a.matches && r < a.iterations
      reads a.homeScores, a.awayScores => a.ScoreAt(r, i));
    RunReady(a, season, chance, r, lines, scores);
    order := RankRun(season, RunOf(season, chance, a.iterations, r), lines, scores);
    PermutationOfRange(order, |season.teams|);
    FromScratch(season, RunOf(season, chance, a.iterations, r), lines, scores);
    swapped := Playoffs(season.league.rule, lines, order, playoff, draws);
    DecidedSamePoints(season.league.rule, lines, order, playoff, draws);
  }
}
