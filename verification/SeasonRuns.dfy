/** The season simulator's running totals: every run starts from the current table
    and adds sampled results in place, in 16-bit counters. */
module SeasonRuns {
  import opened Prelude
  import opened Ordering
  import opened Pairs
  import opened Standings
  import opened Sampling

  newtype Int16 = x: int | -0x8000 <= x < 0x8000
  newtype Int8 = x: int | -0x80 <= x < 0x80

  function PairsOfFixtures(fixtures: seq<Fixture>): seq<(Team, Team)> {
    seq(|fixtures|, i requires 0 <= i < |fixtures| => (fixtures[i].home, fixtures[i].away))
  }

  /** A certified season: the rule and adjustments in force, the teams in index order,
      and a schedule that is a double round robin of them. */
  datatype Season = Season(league: League, teams: seq<Team>, fixtures: seq<Fixture>,
                           homeIndex: seq<nat>, awayIndex: seq<nat>) {
    ghost predicate Valid() {
      && Distinct(teams) && |teams| <= 20 && league.Bounded()
      && |homeIndex| == |awayIndex| == |fixtures|
      && (forall i :: 0 <= i < |fixtures| ==>
            && homeIndex[i] < |teams| && fixtures[i].home == teams[homeIndex[i]]
            && awayIndex[i] < |teams| && fixtures[i].away == teams[awayIndex[i]])
      && IsDoubleRoundRobin(PairsOfFixtures(fixtures), set t | t in teams)
      && (forall f :: f in fixtures && f.isComplete ==>
            Counted(f) && InByte(f.homeScore.value) && InByte(f.awayScore.value))
    }

    /** A played fixture's own score. */
    function Own(i: nat): (nat, nat)
      requires Valid() && i < |fixtures| && fixtures[i].isComplete
    {
      assert fixtures[i] in fixtures;
      (fixtures[i].homeScore.value, fixtures[i].awayScore.value)
    }
  }

  predicate InByte(goals: int) { 0 <= goals <= 127 }

  /** One run: a score for every fixture of the season. */
  type Run = seq<(nat, nat)>

  ghost predicate IsRun(season: Season, run: Run)
    requires season.Valid()
  {
    && |run| == |season.fixtures|
    && forall i :: 0 <= i < |run| ==>
         && InByte(run[i].0) && InByte(run[i].1)
         && (season.fixtures[i].isComplete ==> run[i] == season.Own(i))
  }

  function Result(season: Season, run: Run, i: nat): Played
    requires i < |season.fixtures| && |run| == |season.fixtures|
  {
    Played(season.fixtures[i].home, season.fixtures[i].away, run[i].0, run[i].1)
  }

  /** The schedule with one run's scores filled in. */
  function Filled(season: Season, run: Run): seq<Fixture>
    requires |run| == |season.fixtures|
  {
    seq(|run|, i requires 0 <= i < |run| =>
      Fixture(season.fixtures[i].home, season.fixtures[i].away, true, Some(run[i].0), Some(run[i].1)))
  }

  function Results(season: Season, run: Run): seq<Played>
    requires |run| == |season.fixtures|
  {
    seq(|run|, i requires 0 <= i < |run| => Result(season, run, i))
  }

  /** The results among the first n fixtures once the first k have been simulated. */
  function Partial(season: Season, run: Run, k: nat, n: nat): seq<Played>
    requires n <= |season.fixtures| == |run|
  {
    if n == 0 then []
    else Partial(season, run, k, n - 1) + Entry(season, run, k, n - 1)
  }

  function Entry(season: Season, run: Run, k: nat, i: nat): seq<Played>
    requires i < |season.fixtures| == |run|
  {
    if season.fixtures[i].isComplete || i < k then [Result(season, run, i)] else []
  }

  lemma {:induction false} PartialStart(season: Season, run: Run, n: nat)
    requires season.Valid() && IsRun(season, run) && n <= |season.fixtures|
    ensures Partial(season, run, 0, n) == Completed(season.fixtures[..n])
  {
    hide Season.Valid, IsRun, Entry;
    if n > 0 {
      PartialStart(season, run, n - 1);
      assert season.fixtures[..n][..n - 1] == season.fixtures[..n - 1];
      PlayedEntry(season, run, n - 1);
    }
  }

  /** Before any fixture is simulated the run shows the played ones, as the table does. */
  lemma PlayedEntry(season: Season, run: Run, i: nat)
    requires season.Valid() && IsRun(season, run) && i < |season.fixtures|
    ensures Entry(season, run, 0, i) == Observed(season.fixtures[i])
  {
    hide IsDoubleRoundRobin;
    assert season.fixtures[i] in season.fixtures;
  }

  lemma {:induction false} PartialEnd(season: Season, run: Run, k: nat, n: nat)
    requires n <= |season.fixtures| == |run| && n <= k
    ensures Partial(season, run, k, n) == Results(season, run)[..n]
  {
    if n > 0 {
      PartialEnd(season, run, k, n - 1);
      assert Results(season, run)[..n] == Results(season, run)[..n - 1] + [Result(season, run, n - 1)];
    }
  }

  lemma {:induction false} FilledCompletes(season: Season, run: Run, n: nat)
    requires n <= |season.fixtures| == |run|
    ensures Completed(Filled(season, run)[..n]) == Results(season, run)[..n]
  {
    if n > 0 {
      FilledCompletes(season, run, n - 1);
      var f := Filled(season, run);
      assert f[..n][..n - 1] == f[..n - 1];
      assert Results(season, run)[..n] == Results(season, run)[..n - 1] + [Result(season, run, n - 1)];
    }
  }

  /** Filling in fixture k adds its share, unless it had been played already. */
  lemma {:induction false} PartialStep(season: Season, run: Run, k: nat, n: nat, t: Team)
    requires k < n <= |season.fixtures| == |run|
    ensures TallyOf(Partial(season, run, k + 1, n), t) ==
            if season.fixtures[k].isComplete then TallyOf(Partial(season, run, k, n), t)
            else Plus(TallyOf(Partial(season, run, k, n), t), Share(Result(season, run, k), t))
  {
    hide TallyOf, Share, Plus, Result;
    var m := Result(season, run, n - 1);
    if n - 1 == k {
      PartialEnd(season, run, k, k);
      PartialEnd(season, run, k + 1, k);
      Snoc(Partial(season, run, k, k), m, t);
      var a := Partial(season, run, k, k);
      assert Partial(season, run, k + 1, k) == a;
      assert Partial(season, run, k + 1, n) == a + [m];
      assert Partial(season, run, k, n) == if season.fixtures[k].isComplete then a + [m] else a;
    } else {
      var a, b := Partial(season, run, k, n - 1), Partial(season, run, k + 1, n - 1);
      PartialStep(season, run, k, n - 1, t);
      assert Entry(season, run, k, n - 1) == Entry(season, run, k + 1, n - 1);
      if Entry(season, run, k, n - 1) == [] {
        assert Partial(season, run, k, n) == a && Partial(season, run, k + 1, n) == b;
      } else {
        assert Partial(season, run, k, n) == a + [m] && Partial(season, run, k + 1, n) == b + [m];
        Snoc(a, m, t);
        Snoc(b, m, t);
        Swap(TallyOf(a, t), Share(Result(season, run, k), t), Share(m, t));
      }
    }
  }

  lemma Swap(a: Tally, b: Tally, c: Tally)
    ensures Plus(Plus(a, b), c) == Plus(Plus(a, c), b)
  {
  }

  lemma Snoc(ms: seq<Played>, m: Played, t: Team)
    ensures TallyOf(ms + [m], t) == Plus(TallyOf(ms, t), Share(m, t))
  {
    assert (ms + [m])[..|ms|] == ms;
  }

  // ---------------------------------------------------------------------
  // Counter bounds
  // ---------------------------------------------------------------------

  ghost predicate Within(d: Tally, games: int) {
    && 0 <= d.played <= games && 0 <= d.won <= games && 0 <= d.points <= 3 * games
    && 0 <= d.goalsFor <= 127 * games && 0 <= d.goalsAgainst <= 127 * games
  }

  /** Every total is bounded by the team's games among the first n fixtures. */
  lemma {:induction false} PartialWithin(season: Season, run: Run, k: nat, n: nat, t: Team)
    requires season.Valid() && IsRun(season, run) && n <= |season.fixtures|
    ensures var pairs := PairsOfFixtures(season.fixtures)[..n];
      Within(TallyOf(Partial(season, run, k, n), t), CountWhere(pairs, Hosts(t)) + CountWhere(pairs, Visits(t)))
  {
    hide CountWhere, TallyOf, Share, Plus, Within, Season.Valid, IsRun, Hosts, Visits;
    var pairs := PairsOfFixtures(season.fixtures);
    RunSize(season, run);
    if n == 0 {
      WithinZero(pairs, t);
    } else {
      PartialWithin(season, run, k, n - 1, t);
      var m := Result(season, run, n - 1);
      var a := Partial(season, run, k, n - 1);
      GamesSnoc(pairs, n - 1, t);
      RunGoals(season, run, n - 1);
      WithinStep(TallyOf(a, t), CountWhere(pairs[..n - 1], Hosts(t)) + CountWhere(pairs[..n - 1], Visits(t)), m, t);
      Snoc(a, m, t);
      if Entry(season, run, k, n - 1) == [] {
        assert Partial(season, run, k, n) == a;
      } else {
        assert Partial(season, run, k, n) == a + [m];
      }
    }
  }

  lemma WithinZero(pairs: seq<(Team, Team)>, t: Team)
    ensures Within(TallyOf([], t), CountWhere(pairs[..0], Hosts(t)) + CountWhere(pairs[..0], Visits(t)))
  {
  }

  lemma RunSize(season: Season, run: Run)
    requires season.Valid() && IsRun(season, run)
    ensures |run| == |season.fixtures|
  {
  }

  lemma RunGoals(season: Season, run: Run, i: nat)
    requires season.Valid() && IsRun(season, run) && i < |season.fixtures|
    ensures |run| == |season.fixtures| && InByte(run[i].0) && InByte(run[i].1)
  {
  }

  lemma GamesSnoc(pairs: seq<(Team, Team)>, i: nat, t: Team)
    requires i < |pairs|
    ensures CountWhere(pairs[..i + 1], Hosts(t)) == CountWhere(pairs[..i], Hosts(t)) + if pairs[i].0 == t then 1 else 0
    ensures CountWhere(pairs[..i + 1], Visits(t))
      == CountWhere(pairs[..i], Visits(t)) + if pairs[i].1 == t then 1 else 0
  {
    assert pairs[..i + 1][..i] == pairs[..i];
  }

  lemma WithinStep(d: Tally, games: int, m: Played, t: Team)
    requires Within(d, games) && InByte(m.homeGoals) && InByte(m.awayGoals)
    ensures var more := games + (if m.home == t then 1 else 0) + (if m.away == t then 1 else 0);
      Within(d, more) && Within(Plus(d, Share(m, t)), more)
  {
  }

  /** A team's counters in one run. */
  datatype Line = Line(points: int, goalsFor: int, goalsAgainst: int, wins: int)

  function Fits(line: Line): bool {
    && -0x8000 <= line.points < 0x8000 && -0x8000 <= line.goalsFor < 0x8000
    && -0x8000 <= line.goalsAgainst < 0x8000 && -0x8000 <= line.wins < 0x8000
    && -0x8000 <= line.goalsFor - line.goalsAgainst < 0x8000
  }

  /** The counters of team t once the first k fixtures have been simulated. */
  function LineAfter(season: Season, run: Run, k: nat, t: nat): Line
    requires |run| == |season.fixtures| && t < |season.teams|
  {
    var d := TallyOf(Partial(season, run, k, |run|), season.teams[t]);
    Line(d.points + season.league.Adjustment(season.teams[t]), d.goalsFor, d.goalsAgainst, d.won)
  }

  /** No 16-bit counter overflows: at most 38 games of at most 127 goals a side. */
  lemma CountersFit(season: Season, run: Run, k: nat, t: nat)
    requires season.Valid() && IsRun(season, run) && t < |season.teams|
    ensures Fits(LineAfter(season, run, k, t))
  {
    hide TallyOf, CountWhere;
    var name := season.teams[t];
    var pairs := PairsOfFixtures(season.fixtures);
    PartialWithin(season, run, k, |run|, name);
    assert pairs[..|run|] == pairs;
    RoundRobinGames(pairs, (set u | u in season.teams), name);
    MembersBound(season.teams);
  }

  function AddLine(a: Line, b: Line): Line {
    Line(a.points + b.points, a.goalsFor + b.goalsFor, a.goalsAgainst + b.goalsAgainst, a.wins + b.wins)
  }

  /** What one result adds to the counters of team index t. */
  function Gain(home: nat, away: nat, homeGoals: int, awayGoals: int, t: nat): Line {
    if t == home then
      Line(if homeGoals > awayGoals then 3 else if homeGoals == awayGoals then 1 else 0,
           homeGoals, awayGoals, if homeGoals > awayGoals then 1 else 0)
    else if t == away then
      Line(if homeGoals < awayGoals then 3 else if homeGoals == awayGoals then 1 else 0,
           awayGoals, homeGoals, if homeGoals < awayGoals then 1 else 0)
    else Line(0, 0, 0, 0)
  }

  lemma LineStep(season: Season, run: Run, k: nat, t: nat)
    requires season.Valid() && IsRun(season, run) && k < |run| && t < |season.teams|
    ensures |run| == |season.fixtures| == |season.homeIndex| == |season.awayIndex|
    ensures season.homeIndex[k] != season.awayIndex[k]
    ensures LineAfter(season, run, k + 1, t) ==
            if season.fixtures[k].isComplete then LineAfter(season, run, k, t)
            else AddLine(LineAfter(season, run, k, t),
                         Gain(season.homeIndex[k], season.awayIndex[k], run[k].0, run[k].1, t))
  {
    hide TallyOf, Partial, IsRun, Gain, Share, Season.Valid;
    RunSize(season, run);
    NotSelf(season, k);
    RunGoals(season, run, k);
    PartialStep(season, run, k, |run|, season.teams[t]);
    GainIsShare(season, run, k, t);
  }

  lemma IndexNames(season: Season, k: nat, t: nat)
    requires season.Valid() && k < |season.fixtures| && t < |season.teams|
    ensures |season.fixtures| == |season.homeIndex| == |season.awayIndex|
    ensures season.fixtures[k].home == season.teams[t] <==> season.homeIndex[k] == t
    ensures season.fixtures[k].away == season.teams[t] <==> season.awayIndex[k] == t
  {
  }

  function LineOf(d: Tally): Line { Line(d.points, d.goalsFor, d.goalsAgainst, d.won) }

  lemma SideLine(scored: int, conceded: int)
    ensures LineOf(Side(scored, conceded)) ==
            Line(if scored > conceded then 3 else if scored == conceded then 1 else 0,
                 scored, conceded, if scored > conceded then 1 else 0)
  {
  }

  lemma LineOfPlus(a: Tally, b: Tally)
    ensures LineOf(Plus(a, b)) == AddLine(LineOf(a), LineOf(b))
    ensures LineOf(ZERO) == Line(0, 0, 0, 0)
  {
  }

  lemma GainParts(h: nat, a: nat, hg: int, ag: int, t: nat)
    requires h != a
    ensures Gain(h, a, hg, ag, t) == LineOf(Plus(When(h == t, Side(hg, ag)), When(a == t, Side(ag, hg))))
  {
    hide Side, Plus, LineOf;
    SideLine(hg, ag);
    SideLine(ag, hg);
    LineOfPlus(When(h == t, Side(hg, ag)), When(a == t, Side(ag, hg)));
  }

  /** The array update is the table's own share of the match. */
  lemma GainIsShare(season: Season, run: Run, k: nat, t: nat)
    requires season.Valid() && k < |season.fixtures| == |run| && t < |season.teams|
    ensures |season.fixtures| == |season.homeIndex| == |season.awayIndex|
    ensures var d := Share(Result(season, run, k), season.teams[t]);
      Gain(season.homeIndex[k], season.awayIndex[k], run[k].0, run[k].1, t)
      == LineOf(d)
  {
    hide Season.Valid, Side;
    NotSelf(season, k);
    IndexNames(season, k, t);
    var m := Result(season, run, k);
    var h, a := season.homeIndex[k], season.awayIndex[k];
    assert Share(m, season.teams[t]) == Plus(When(h == t, Side(m.homeGoals, m.awayGoals)),
                                             When(a == t, Side(m.awayGoals, m.homeGoals)));
    GainParts(h, a, m.homeGoals, m.awayGoals, t);
  }

  lemma NotSelf(season: Season, k: nat)
    requires season.Valid() && k < |season.fixtures|
    ensures |season.fixtures| == |season.homeIndex| == |season.awayIndex|
    ensures season.fixtures[k].home != season.fixtures[k].away
    ensures season.homeIndex[k] != season.awayIndex[k]
  {
    var pairs := PairsOfFixtures(season.fixtures);
    assert pairs[k] in pairs && pairs[k] in set p | p in pairs;
    assert pairs[k] in OffDiagonal(set t | t in season.teams);
  }

  // ---------------------------------------------------------------------
  // The arrays
  // ---------------------------------------------------------------------

  /** The simulator's arrays: one row per run, one column per team or fixture. */
  class Arrays {
    const points: array2<Int16>
    const goalsFor: array2<Int16>
    const goalsAgainst: array2<Int16>
    const wins: array2<Int16>
    const homeScores: array2<Int8>
    const awayScores: array2<Int8>
    const iterations: nat
    const size: nat
    const matches: nat

    ghost predicate Valid() {
      && points.Length0 == goalsFor.Length0 == goalsAgainst.Length0 == wins.Length0 == iterations
      && points.Length1 == goalsFor.Length1 == goalsAgainst.Length1 == wins.Length1 == size
      && homeScores.Length0 == awayScores.Length0 == iterations
      && homeScores.Length1 == awayScores.Length1 == matches
      && points != goalsFor && points != goalsAgainst && points != wins
      && goalsFor != goalsAgainst && goalsFor != wins && goalsAgainst != wins
      && homeScores != awayScores
    }

    constructor (iterations: nat, size: nat, matches: nat)
      ensures Valid() && this.iterations == iterations && this.size == size && this.matches == matches
      ensures fresh(points) && fresh(goalsFor) && fresh(goalsAgainst) && fresh(wins)
      ensures fresh(homeScores) && fresh(awayScores)
    {
      points := new Int16[iterations, size]((_, _) => 0);
      goalsFor := new Int16[iterations, size]((_, _) => 0);
      goalsAgainst := new Int16[iterations, size]((_, _) => 0);
      wins := new Int16[iterations, size]((_, _) => 0);
      homeScores := new Int8[iterations, matches]((_, _) => 0);
      awayScores := new Int8[iterations, matches]((_, _) => 0);
      this.iterations, this.size, this.matches := iterations, size, matches;
    }

    function LineAt(r: nat, t: nat): Line
      requires Valid() && r < iterations && t < size
      reads points, goalsFor, goalsAgainst, wins
    {
      Line(points[r, t] as int, goalsFor[r, t] as int, goalsAgainst[r, t] as int, wins[r, t] as int)
    }

    /** The row views of one run. */
    function Lines(r: nat): (lines: seq<Line>)
      requires Valid() && r < iterations
      reads points, goalsFor, goalsAgainst, wins
      ensures |lines| == size && forall t :: 0 <= t < size ==> lines[t] == LineAt(r, t)
    {
      seq(size, t requires Valid() && 0 <= t < size reads points, goalsFor, goalsAgainst, wins => LineAt(r, t))
    }

    /** The in-place updates of one result in one run. */
    method ApplyRun(r: nat, home: nat, away: nat, homeGoals: nat, awayGoals: nat)
      requires Valid() && r < iterations && home < size && away < size && home != away
      requires Fits(AddLine(LineAt(r, home), Gain(home, away, homeGoals, awayGoals, home)))
      requires Fits(AddLine(LineAt(r, away), Gain(home, away, homeGoals, awayGoals, away)))
      modifies points, goalsFor, goalsAgainst, wins
      ensures forall t :: 0 <= t < size ==>
        LineAt(r, t) == AddLine(old(LineAt(r, t)), Gain(home, away, homeGoals, awayGoals, t))
      ensures forall q, t :: 0 <= q < iterations && 0 <= t < size && q != r ==> LineAt(q, t) == old(LineAt(q, t))
    {
      goalsFor[r, home] := (goalsFor[r, home] as int + homeGoals) as Int16;
      goalsAgainst[r, home] := (goalsAgainst[r, home] as int + awayGoals) as Int16;
      goalsFor[r, away] := (goalsFor[r, away] as int + awayGoals) as Int16;
      goalsAgainst[r, away] := (goalsAgainst[r, away] as int + homeGoals) as Int16;
      var homeWin := homeGoals > awayGoals;
      var awayWin := homeGoals < awayGoals;
      var draw := !(homeWin || awayWin);
      points[r, home] := (points[r, home] as int + (if homeWin then 3 else 0) + (if draw then 1 else 0)) as Int16;
      points[r, away] := (points[r, away] as int + (if awayWin then 3 else 0) + (if draw then 1 else 0)) as Int16;
      wins[r, home] := (wins[r, home] as int + if homeWin then 1 else 0) as Int16;
      wins[r, away] := (wins[r, away] as int + if awayWin then 1 else 0) as Int16;
    }

    /** `_apply_scores`: one fixture's results, for every run at once. */
    method ApplyScores(home: nat, away: nat, homeGoals: seq<nat>, awayGoals: seq<nat>)
      requires Valid() && home < size && away < size && home != away
      requires |homeGoals| == |awayGoals| == iterations
      requires forall r, t :: 0 <= r < iterations && 0 <= t < size ==>
        Fits(AddLine(LineAt(r, t), Gain(home, away, homeGoals[r], awayGoals[r], t)))
      modifies points, goalsFor, goalsAgainst, wins
      ensures forall r, t :: 0 <= r < iterations && 0 <= t < size ==>
        LineAt(r, t) == AddLine(old(LineAt(r, t)), Gain(home, away, homeGoals[r], awayGoals[r], t))
    {
      for r := 0 to iterations
        invariant forall q, t :: 0 <= q < r && 0 <= t < size ==>
          LineAt(q, t) == AddLine(old(LineAt(q, t)), Gain(home, away, homeGoals[q], awayGoals[q], t))
        invariant forall q, t :: r <= q < iterations && 0 <= t < size ==> LineAt(q, t) == old(LineAt(q, t))
      {
        ApplyRun(r, home, away, homeGoals[r], awayGoals[r]);
      }
    }

    method SetCell(r: nat, t: nat, line: Line)
      requires Valid() && r < iterations && t < size && Fits(line)
      modifies points, goalsFor, goalsAgainst, wins
      ensures LineAt(r, t) == line
      ensures forall q, u :: 0 <= q < iterations && 0 <= u < size && (q, u) != (r, t) ==>
          LineAt(q, u) == old(LineAt(q, u))
    {
      points[r, t] := line.points as Int16;
      goalsFor[r, t] := line.goalsFor as Int16;
      goalsAgainst[r, t] := line.goalsAgainst as Int16;
      wins[r, t] := line.wins as Int16;
    }

    /** `points[:, t] = ...` and the other three counters. */
    method SetColumn(t: nat, line: Line)
      requires Valid() && t < size && Fits(line)
      modifies points, goalsFor, goalsAgainst, wins
      ensures forall r :: 0 <= r < iterations ==> LineAt(r, t) == line
      ensures forall r, u :: 0 <= r < iterations && 0 <= u < size && u != t ==> LineAt(r, u) == old(LineAt(r, u))
    {
      for r := 0 to iterations
        invariant forall q :: 0 <= q < r ==> LineAt(q, t) == line
        invariant forall q, u :: 0 <= q < iterations && 0 <= u < size && u != t ==> LineAt(q, u) == old(LineAt(q, u))
      {
        SetCell(r, t, line);
      }
    }

    /** `all_home_scores[:, i] = ...` and the away scores. */
    method SetScores(i: nat, homeGoals: seq<nat>, awayGoals: seq<nat>)
      requires Valid() && i < matches && |homeGoals| == |awayGoals| == iterations
      requires forall r :: 0 <= r < iterations ==> InByte(homeGoals[r]) && InByte(awayGoals[r])
      modifies homeScores, awayScores
      ensures forall r :: 0 <= r < iterations ==> ScoreAt(r, i) == (homeGoals[r], awayGoals[r])
      ensures forall r, j :: 0 <= r < iterations && 0 <= j < matches && j != i ==> ScoreAt(r, j) == old(ScoreAt(r, j))
    {
      for r := 0 to iterations
        invariant forall q :: 0 <= q < r ==> ScoreAt(q, i) == (homeGoals[q], awayGoals[q])
        invariant forall q, j :: 0 <= q < iterations && 0 <= j < matches && j != i ==>
            ScoreAt(q, j) == old(ScoreAt(q, j))
      {
        homeScores[r, i] := homeGoals[r] as Int8;
        awayScores[r, i] := awayGoals[r] as Int8;
      }
    }

    function ScoreAt(r: nat, i: nat): (int, int)
      requires Valid() && r < iterations && i < matches
      reads homeScores, awayScores
    {
      (homeScores[r, i] as int, awayScores[r, i] as int)
    }
  }

  // ---------------------------------------------------------------------
  // Filling the arrays
  // ---------------------------------------------------------------------

  /** The random inputs of a simulation: for every fixture still to be played a score
      distribution and one uniform draw per run. */
  datatype Chance = Chance(matrices: seq<Matrix>, draws: seq<seq<real>>) {
    ghost predicate Valid(fixtures: seq<Fixture>, iterations: nat) {
      && |matrices| == |draws| == |fixtures|
      && (forall i :: 0 <= i < |fixtures| && !fixtures[i].isComplete ==>
            && IsDistribution(matrices[i]) && matrices[i].cells != [] && matrices[i].width <= 128
            && |draws[i]| == iterations)
      && (forall i, r :: 0 <= i < |fixtures| && !fixtures[i].isComplete && 0 <= r < iterations ==>
            0.0 <= draws[i][r] < 1.0)
    }
  }

  /** The scores of run r: a played fixture keeps its own, the rest are sampled. */
  function ScoreOf(season: Season, chance: Chance, iterations: nat, r: nat, i: nat): (nat, nat)
    requires season.Valid() && chance.Valid(season.fixtures, iterations) && r < iterations && i < |season.fixtures|
  {
    if season.fixtures[i].isComplete then season.Own(i) else SampleScore(chance.matrices[i], chance.draws[i][r])
  }

  function RunOf(season: Season, chance: Chance, iterations: nat, r: nat): Run
    requires season.Valid() && chance.Valid(season.fixtures, iterations) && r < iterations
  {
    seq(|season.fixtures|, i requires 0 <= i < |season.fixtures| => ScoreOf(season, chance, iterations, r, i))
  }

  lemma SampledRun(season: Season, chance: Chance, iterations: nat, r: nat)
    requires season.Valid() && chance.Valid(season.fixtures, iterations) && r < iterations
    ensures IsRun(season, RunOf(season, chance, iterations, r))
  {
    hide IsDistribution, SampleScore, SampledCell;
    var run := RunOf(season, chance, iterations, r);
    forall i | 0 <= i < |run|
      ensures InByte(run[i].0) && InByte(run[i].1)
    {
      if season.fixtures[i].isComplete {
        assert season.fixtures[i] in season.fixtures;
      } else {
        SampledPossible(chance.matrices[i], chance.draws[i][r]);
      }
    }
  }

  /** Every counter and score of every run is what the run's own schedule says after
      the first k fixtures. */
  ghost predicate Tracks(a: Arrays, season: Season, chance: Chance, k: nat)
    requires a.Valid() && season.Valid() && chance.Valid(season.fixtures, a.iterations)
    requires a.size == |season.teams| && a.matches == |season.fixtures|
    reads a.points, a.goalsFor, a.goalsAgainst, a.wins, a.homeScores, a.awayScores
  {
    && (forall r, t :: 0 <= r < a.iterations && 0 <= t < a.size ==>
          a.LineAt(r, t) == LineAfter(season, RunOf(season, chance, a.iterations, r), k, t))
    && (forall r, i :: 0 <= r < a.iterations && 0 <= i < k && i < a.matches ==>
          a.ScoreAt(r, i) == ScoreOf(season, chance, a.iterations, r, i))
  }

  lemma StartLine(season: Season, run: Run, t: nat)
    requires season.Valid() && IsRun(season, run) && t < |season.teams|
    ensures var row := FinalRow(Completed(season.fixtures), season.league, season.teams[t]);
      Line(row.points, row.goalsFor, row.goalsAgainst, row.won) == LineAfter(season, run, 0, t)
  {
    hide TallyOf;
    PartialStart(season, run, |run|);
    assert season.fixtures[..|run|] == season.fixtures;
  }

  /** `{row["team"]: row for row in current}` */
  method ByTeam(current: seq<Row>) returns (byTeam: map<Team, Row>)
    ensures forall row :: row in current ==> row.team in byTeam
    ensures forall t :: t in byTeam ==> byTeam[t] in current && byTeam[t].team == t
  {
    byTeam := map[];
    for i := 0 to |current|
      invariant forall j :: 0 <= j < i ==> current[j].team in byTeam
      invariant forall t :: t in byTeam ==> byTeam[t] in current && byTeam[t].team == t
    {
      byTeam := byTeam[current[i].team := current[i]];
    }
  }

  lemma CurrentRow(season: Season, current: seq<Row>, byTeam: map<Team, Row>, t: nat)
    requires season.Valid() && t < |season.teams|
    requires IsStandings(current, Completed(season.fixtures), season.league, Population(season.fixtures, season.teams))
    requires forall row :: row in current ==> row.team in byTeam
    requires forall u :: u in byTeam ==> byTeam[u] in current && byTeam[u].team == u
    ensures season.teams[t] in byTeam
    ensures byTeam[season.teams[t]] == FinalRow(Completed(season.fixtures), season.league, season.teams[t])
  {
    hide TallyOf, SortedBy, Season.Valid, Completed;
    assert season.teams[t] in Population(season.fixtures, season.teams);
    assert FinalRow(Completed(season.fixtures), season.league, season.teams[t]) in current;
  }

  /** Every run starts from the current table, adjustments included. */
  method StartFromTable(a: Arrays, season: Season, ghost chance: Chance)
    requires a.Valid() && season.Valid() && chance.Valid(season.fixtures, a.iterations)
    requires a.size == |season.teams| && a.matches == |season.fixtures|
    modifies a.points, a.goalsFor, a.goalsAgainst, a.wins
    ensures Tracks(a, season, chance, 0)
  {
    hide Season.Valid, IsStandings, FinalRow, LineAfter, IsRun;
    var current := StandingsTable(season.fixtures, season.league, season.teams);
    var byTeam := ByTeam(current);
    for t := 0 to a.size
      invariant forall r, u :: 0 <= r < a.iterations && 0 <= u < t ==>
        a.LineAt(r, u) == LineAfter(season, RunOf(season, chance, a.iterations, r), 0, u)
    {
      CurrentRow(season, current, byTeam, t);
      var row := byTeam[season.teams[t]];
      var line := Line(row.points, row.goalsFor, row.goalsAgainst, row.won);
      forall r | 0 <= r < a.iterations
        ensures line == LineAfter(season, RunOf(season, chance, a.iterations, r), 0, t)
      {
        SampledRun(season, chance, a.iterations, r);
        StartLine(season, RunOf(season, chance, a.iterations, r), t);
      }
      TableFits(season, t);
      a.SetColumn(t, line);
    }
  }

  /** The current table fits too, also when there are no runs to carry it. */
  lemma TableFits(season: Season, t: nat)
    requires season.Valid() && t < |season.teams|
    ensures var row := FinalRow(Completed(season.fixtures), season.league, season.teams[t]);
      Fits(Line(row.points, row.goalsFor, row.goalsAgainst, row.won))
  {
    hide FinalRow, LineAfter;
    var run: Run := seq(|season.fixtures|, i requires 0 <= i < |season.fixtures| =>
      if season.fixtures[i].isComplete then season.Own(i) else (0, 0));
    forall i | 0 <= i < |run| ensures InByte(run[i].0) && InByte(run[i].1) {
      assert season.fixtures[i] in season.fixtures;
    }
    StartLine(season, run, t);
    CountersFit(season, run, 0, t);
  }

  /** The fixture loop: played fixtures keep their score, the others are sampled for
      every run and added to the counters. */
  method SimulateFixtures(a: Arrays, season: Season, chance: Chance)
    requires a.Valid() && season.Valid() && chance.Valid(season.fixtures, a.iterations)
    requires a.size == |season.teams| && a.matches == |season.fixtures|
    requires Tracks(a, season, chance, 0)
    modifies a.points, a.goalsFor, a.goalsAgainst, a.wins, a.homeScores, a.awayScores
    ensures Tracks(a, season, chance, |season.fixtures|)
  {
    for i := 0 to a.matches
      invariant Tracks(a, season, chance, i)
    {
      SimulateFixture(a, season, chance, i);
    }
  }

  method SimulateFixture(a: Arrays, season: Season, chance: Chance, i: nat)
    requires a.Valid() && season.Valid() && chance.Valid(season.fixtures, a.iterations)
    requires a.size == |season.teams| && a.matches == |season.fixtures| && i < a.matches
    requires Tracks(a, season, chance, i)
    modifies a.points, a.goalsFor, a.goalsAgainst, a.wins, a.homeScores, a.awayScores
    ensures Tracks(a, season, chance, i + 1)
  {
    hide Season.Valid, LineAfter, Gain, AddLine, Fits, ScoreOf, IsRun, SampleScore, InByte;
    var scores := seq(a.iterations, r requires 0 <= r < a.iterations requires season.Valid()
      requires chance.Valid(season.fixtures, a.iterations) => ScoreOf(season, chance, a.iterations, r, i));
    var homeGoals := seq(a.iterations, r requires 0 <= r < |scores| => scores[r].0);
    var awayGoals := seq(a.iterations, r requires 0 <= r < |scores| => scores[r].1);
    ScoresInByte(season, chance, a.iterations, i);
    StepRuns(season, chance, a.iterations, i);
    a.SetScores(i, homeGoals, awayGoals);
    if !season.fixtures[i].isComplete {
      forall r, t | 0 <= r < a.iterations && 0 <= t < a.size
        ensures Fits(AddLine(a.LineAt(r, t),
                             Gain(season.homeIndex[i], season.awayIndex[i], homeGoals[r], awayGoals[r], t)))
      {
        assert Steps(season, chance, a.iterations, i, r, t);
      }
      a.ApplyScores(season.homeIndex[i], season.awayIndex[i], homeGoals, awayGoals);
    }
    forall r, t | 0 <= r < a.iterations && 0 <= t < a.size
      ensures a.LineAt(r, t) == LineAfter(season, RunOf(season, chance, a.iterations, r), i + 1, t)
    {
      assert Steps(season, chance, a.iterations, i, r, t);
    }
  }

  lemma ScoresInByte(season: Season, chance: Chance, iterations: nat, i: nat)
    requires season.Valid() && chance.Valid(season.fixtures, iterations) && i < |season.fixtures|
    ensures forall r :: 0 <= r < iterations ==>
      var s := ScoreOf(season, chance, iterations, r, i); InByte(s.0) && InByte(s.1)
  {
    hide ScoreOf, Season.Valid;
    forall r | 0 <= r < iterations
      ensures var s := ScoreOf(season, chance, iterations, r, i); InByte(s.0) && InByte(s.1)
    {
      SampledRun(season, chance, iterations, r);
      RunGoals(season, RunOf(season, chance, iterations, r), i);
    }
  }

  /** One more fixture, for one team in one run. */
  ghost predicate Steps(season: Season, chance: Chance, iterations: nat, k: nat, r: nat, t: nat)
    requires season.Valid() && chance.Valid(season.fixtures, iterations) && k < |season.fixtures|
    requires r < iterations && t < |season.teams|
  {
    var run, s := RunOf(season, chance, iterations, r), ScoreOf(season, chance, iterations, r, k);
    && Fits(LineAfter(season, run, k + 1, t))
    && LineAfter(season, run, k + 1, t) ==
       if season.fixtures[k].isComplete then LineAfter(season, run, k, t)
       else AddLine(LineAfter(season, run, k, t), Gain(season.homeIndex[k], season.awayIndex[k], s.0, s.1, t))
  }

  lemma StepRuns(season: Season, chance: Chance, iterations: nat, k: nat)
    requires season.Valid() && chance.Valid(season.fixtures, iterations) && k < |season.fixtures|
    ensures |season.fixtures| == |season.homeIndex| == |season.awayIndex|
    ensures season.homeIndex[k] < |season.teams| && season.awayIndex[k] < |season.teams|
    ensures season.homeIndex[k] != season.awayIndex[k]
    ensures forall r, t :: 0 <= r < iterations && 0 <= t < |season.teams| ==> Steps(season, chance, iterations, k, r, t)
  {
    hide LineAfter, Gain, AddLine, Fits, IsRun, ScoreOf;
    NotSelf(season, k);
    forall r, t | 0 <= r < iterations && 0 <= t < |season.teams|
      ensures Steps(season, chance, iterations, k, r, t)
    {
      hide Season.Valid;
      var run := RunOf(season, chance, iterations, r);
      SampledRun(season, chance, iterations, r);
      LineStep(season, run, k, t);
      CountersFit(season, run, k + 1, t);
    }
  }
}
