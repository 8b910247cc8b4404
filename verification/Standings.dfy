/** The competition-aware league table: built from match rows one `Apply` at a time,
    then ranked by the league's own tie-break rule. */
module Standings {
  import opened Prelude
  import opened Ordering

  type Team = string

  datatype Criterion = Points | HeadToHead | GoalDifference | GoalsFor | Wins

  datatype LeagueRule = LeagueRule(
    competitionId: string,
    ruleId: string,
    expectedTeams: nat,
    championsLeagueSlots: nat,
    relegationSlots: nat,
    primary: seq<Criterion>,
    headToHeadOnPoints: bool,
    titlePlayoff: bool,
    relegationPlayoff: bool)

  const LEAGUE_RULES: seq<LeagueRule> := [
    LeagueRule("england-premier-league", "england-2024.1", 20, 4, 3,
      [Points, GoalDifference, GoalsFor, HeadToHead], false, false, false),
    LeagueRule("spain-la-liga", "spain-2024.1", 20, 4, 3,
      [Points, HeadToHead, GoalDifference, GoalsFor], true, false, false),
    LeagueRule("germany-bundesliga", "germany-2024.1", 18, 4, 2,
      [Points, GoalDifference, GoalsFor, Wins, HeadToHead], false, false, false),
    LeagueRule("italy-serie-a", "italy-2024.1", 20, 4, 3,
      [Points, HeadToHead, GoalDifference, GoalsFor], true, true, true),
    LeagueRule("france-ligue-1", "france-2024.1", 18, 4, 2,
      [Points, GoalDifference, GoalsFor, HeadToHead], false, false, false)
  ]

  /** Disciplinary deductions that match results cannot encode. */
  const POINT_ADJUSTMENTS: map<(string, string, Team), int> := map[
    ("england-premier-league", "2023-24", "Everton") := -8,
    ("england-premier-league", "2023-24", "Nottingham Forest") := -4,
    ("france-ligue-1", "2023-24", "Montpellier") := -1
  ]

  /** A rule together with the adjustments in force: none when no season is named. */
  datatype League = League(rule: LeagueRule, adjustments: map<Team, int>) {
    function Adjustment(t: Team): int {
      if t in adjustments then adjustments[t] else 0
    }

    ghost predicate Bounded() {
      forall t :: t in adjustments ==> -8 <= adjustments[t] <= 0
    }
  }

  function AdjustmentsFor(competitionId: string, season: Option<string>): map<Team, int> {
    if season.None? then map[]
    else map k | k in POINT_ADJUSTMENTS && k.0 == competitionId && k.1 == season.value :: k.2 := POINT_ADJUSTMENTS[k]
  }

  lemma KnownAdjustmentsBounded(rule: LeagueRule, season: Option<string>)
    ensures League(rule, AdjustmentsFor(rule.competitionId, season)).Bounded()
  {
    assert forall k :: k in POINT_ADJUSTMENTS ==> -8 <= POINT_ADJUSTMENTS[k] <= 0;
  }

  /** A match row; a missing score is None. */
  datatype Fixture = Fixture(home: Team, away: Team, isComplete: bool,
                             homeScore: Option<int>, awayScore: Option<int>)

  datatype Played = Played(home: Team, away: Team, homeGoals: int, awayGoals: int)

  predicate Counted(f: Fixture) {
    f.isComplete && f.homeScore.Some? && f.awayScore.Some?
  }

  function Observed(f: Fixture): seq<Played> {
    if Counted(f) then [Played(f.home, f.away, f.homeScore.value, f.awayScore.value)] else []
  }

  /** The rows the table counts: declared complete and carrying both scores. */
  function Completed(fs: seq<Fixture>): seq<Played> {
    if fs == [] then []
    else
      Completed(fs[..|fs| - 1]) + Observed(fs[|fs| - 1])
  }

  // ---------------------------------------------------------------------
  // What a list of matches is worth to one team
  // ---------------------------------------------------------------------

  datatype Tally = Tally(played: int, won: int, drawn: int, lost: int,
                         goalsFor: int, goalsAgainst: int, points: int)

  const ZERO := Tally(0, 0, 0, 0, 0, 0, 0)

  function Plus(a: Tally, b: Tally): Tally {
    Tally(a.played + b.played, a.won + b.won, a.drawn + b.drawn, a.lost + b.lost,
          a.goalsFor + b.goalsFor, a.goalsAgainst + b.goalsAgainst, a.points + b.points)
  }

  /** One side's share of a result: three points for a win, one for a draw. */
  function Side(scored: int, conceded: int): Tally {
    Tally(1,
          if scored > conceded then 1 else 0,
          if scored == conceded then 1 else 0,
          if scored < conceded then 1 else 0,
          scored, conceded,
          if scored > conceded then 3 else if scored == conceded then 1 else 0)
  }

  function When(b: bool, d: Tally): Tally { if b then d else ZERO }

  function Share(m: Played, t: Team): Tally {
    Plus(When(m.home == t, Side(m.homeGoals, m.awayGoals)),
         When(m.away == t, Side(m.awayGoals, m.homeGoals)))
  }

  function TallyOf(ms: seq<Played>, t: Team): Tally {
    if ms == [] then ZERO
    else Plus(TallyOf(ms[..|ms| - 1], t), Share(ms[|ms| - 1], t))
  }

  // ---------------------------------------------------------------------
  // Table rows
  // ---------------------------------------------------------------------

  datatype Row = Row(team: Team, played: int, won: int, drawn: int, lost: int,
                     goalsFor: int, goalsAgainst: int, goalDifference: int,
                     pointsAdjustment: int, points: int)

  function Blank(t: Team): Row { Row(t, 0, 0, 0, 0, 0, 0, 0, 0, 0) }

  function Bump(r: Row, d: Tally): Row {
    r.(played := r.played + d.played, won := r.won + d.won, drawn := r.drawn + d.drawn,
       lost := r.lost + d.lost, goalsFor := r.goalsFor + d.goalsFor,
       goalsAgainst := r.goalsAgainst + d.goalsAgainst, points := r.points + d.points)
  }

  /** The finished row of a team: its tally, goal difference and adjustment. */
  function FinalRow(ms: seq<Played>, league: League, t: Team): Row {
    var d := TallyOf(ms, t);
    Row(t, d.played, d.won, d.drawn, d.lost, d.goalsFor, d.goalsAgainst,
        d.goalsFor - d.goalsAgainst, league.Adjustment(t), d.points + league.Adjustment(t))
  }

  lemma BumpBump(r: Row, a: Tally, b: Tally)
    ensures Bump(Bump(r, a), b) == Bump(r, Plus(a, b))
  {
  }

  /** The four row updates of one match amount to each side's share of it, also
      when both names are the same team and every update lands on one row. */
  lemma ApplySteps(r: Row, isHome: bool, isAway: bool, hg: int, ag: int)
    ensures
      Bump(Bump(Bump(Bump(r, When(isHome, Tally(1, 0, 0, 0, hg, ag, 0))),
                     When(isAway, Tally(1, 0, 0, 0, ag, hg, 0))),
                When(isHome, Outcome(hg, ag))),
           When(isAway, Outcome(ag, hg)))
      == Bump(r, Plus(When(isHome, Side(hg, ag)), When(isAway, Side(ag, hg))))
  {
    var a, b := When(isHome, Tally(1, 0, 0, 0, hg, ag, 0)), When(isAway, Tally(1, 0, 0, 0, ag, hg, 0));
    var c, d := When(isHome, Outcome(hg, ag)), When(isAway, Outcome(ag, hg));
    BumpFour(r, a, b, c, d);
    SideParts(isHome, hg, ag);
    SideParts(isAway, ag, hg);
  }

  lemma BumpFour(r: Row, a: Tally, b: Tally, c: Tally, d: Tally)
    ensures Bump(Bump(Bump(Bump(r, a), b), c), d) == Bump(r, Plus(Plus(a, c), Plus(b, d)))
  {
    BumpBump(r, a, b);
    BumpBump(Bump(r, Plus(a, b)), c, d);
    BumpBump(r, Plus(a, b), Plus(c, d));
    PlusExchange(a, b, c, d);
  }

  lemma PlusExchange(a: Tally, b: Tally, c: Tally, d: Tally)
    ensures Plus(Plus(a, b), Plus(c, d)) == Plus(Plus(a, c), Plus(b, d))
  {
  }

  lemma SideParts(b: bool, scored: int, conceded: int)
    ensures Plus(When(b, Tally(1, 0, 0, 0, scored, conceded, 0)), When(b, Outcome(scored, conceded)))
            == When(b, Side(scored, conceded))
  {
  }

  /** The win, draw or loss part of one side's share. */
  function Outcome(scored: int, conceded: int): Tally {
    if scored > conceded then Tally(0, 1, 0, 0, 0, 0, 3)
    else if scored < conceded then Tally(0, 0, 0, 1, 0, 0, 0)
    else Tally(0, 0, 1, 0, 0, 0, 1)
  }

  function WithDifference(r: Row): Row { r.(goalDifference := r.goalsFor - r.goalsAgainst) }

  function Adjusted(r: Row, adjustment: int): Row {
    r.(pointsAdjustment := adjustment, points := r.points + adjustment)
  }

  function Get(rows: map<Team, Row>, t: Team): Row {
    if t in rows then rows[t] else Blank(t)
  }

  /** After adds d to the row of u, then e to the row of v. */
  ghost predicate Credits(before: map<Team, Row>, after: map<Team, Row>, u: Team, d: Tally, v: Team, e: Tally) {
    forall t :: Get(after, t) == Bump(Bump(Get(before, t), When(t == u, d)), When(t == v, e))
  }

  /** After adds to every row its team's share of m. */
  ghost predicate Shares(before: map<Team, Row>, after: map<Team, Row>, m: Played) {
    forall t :: Get(after, t) == Bump(Get(before, t), Share(m, t))
  }

  lemma ApplyCredits(start: map<Team, Row>, middle: map<Team, Row>, end: map<Team, Row>, m: Played)
    requires Credits(start, middle, m.home, Tally(1, 0, 0, 0, m.homeGoals, m.awayGoals, 0),
                     m.away, Tally(1, 0, 0, 0, m.awayGoals, m.homeGoals, 0))
    requires Credits(middle, end, m.home, Outcome(m.homeGoals, m.awayGoals), m.away, Outcome(m.awayGoals, m.homeGoals))
    ensures Shares(start, end, m)
  {
    forall t
      ensures Get(end, t) == Bump(Get(start, t), Share(m, t))
    {
      ApplySteps(Get(start, t), t == m.home, t == m.away, m.homeGoals, m.awayGoals);
    }
  }

  /** A dict of rows, in insertion order. */
  class Table {
    var teams: seq<Team>
    var rows: map<Team, Row>

    ghost predicate Valid()
      reads this
    {
      && Distinct(teams)
      && (forall t :: t in teams <==> t in rows)
      && (forall t :: t in rows ==> rows[t].team == t)
    }

    /** `{team: blank(team) for team in names}` */
    constructor (names: seq<Team>)
      ensures Valid()
      ensures rows.Keys == set t | t in names
      ensures forall t :: Get(rows, t) == Blank(t)
    {
      teams, rows := [], map[];
      new;
      for i := 0 to |names|
        invariant Valid()
        invariant rows.Keys == set t | t in names[..i]
        invariant forall t :: Get(rows, t) == Blank(t)
      {
        SetDefault(names[i]);
        assert names[..i + 1] == names[..i] + [names[i]];
      }
      assert names[..|names|] == names;
    }

    method SetDefault(t: Team)
      requires Valid()
      modifies this
      ensures Valid()
      ensures rows.Keys == old(rows).Keys + {t}
      ensures forall u :: Get(rows, u) == Get(old(rows), u)
      ensures teams == if t in old(rows) then old(teams) else old(teams) + [t]
    {
      if t !in rows {
        rows := rows[t := Blank(t)];
        teams := teams + [t];
      }
    }

    method Apply(home: Team, away: Team, homeGoals: int, awayGoals: int)
      requires Valid()
      modifies this
      ensures Valid()
      ensures rows.Keys == old(rows).Keys + {home, away}
      ensures Shares(old(rows), rows, Played(home, away, homeGoals, awayGoals))
    {
      SetDefault(home);
      SetDefault(away);
      ghost var start := rows;
      Record(home, away, homeGoals, awayGoals);
      ghost var middle := rows;
      Settle(home, away, homeGoals, awayGoals);
      ApplyCredits(start, middle, rows, Played(home, away, homeGoals, awayGoals));
    }

    /** The played and goal counters of `Apply`. */
    method Record(home: Team, away: Team, homeGoals: int, awayGoals: int)
      requires Valid() && home in rows && away in rows
      modifies this`rows
      ensures Valid()
      ensures rows.Keys == old(rows).Keys
      ensures Credits(old(rows), rows, home, Tally(1, 0, 0, 0, homeGoals, awayGoals, 0),
                      away, Tally(1, 0, 0, 0, awayGoals, homeGoals, 0))
    {
      Add(home, Tally(1, 0, 0, 0, homeGoals, awayGoals, 0));
      Add(away, Tally(1, 0, 0, 0, awayGoals, homeGoals, 0));
    }

    /** The outcome branches of `Apply`. */
    method Settle(home: Team, away: Team, homeGoals: int, awayGoals: int)
      requires Valid() && home in rows && away in rows
      modifies this`rows
      ensures Valid()
      ensures rows.Keys == old(rows).Keys
      ensures Credits(old(rows), rows, home, Outcome(homeGoals, awayGoals), away, Outcome(awayGoals, homeGoals))
    {
      if homeGoals > awayGoals {
        Add(home, Tally(0, 1, 0, 0, 0, 0, 3));
        Add(away, Tally(0, 0, 0, 1, 0, 0, 0));
      } else if homeGoals < awayGoals {
        Add(home, Tally(0, 0, 0, 1, 0, 0, 0));
        Add(away, Tally(0, 1, 0, 0, 0, 0, 3));
      } else {
        Add(home, Tally(0, 0, 1, 0, 0, 0, 1));
        Add(away, Tally(0, 0, 1, 0, 0, 0, 1));
      }
    }

    /** The `row[field] += n` statements on one team's row. */
    method Add(t: Team, d: Tally)
      requires Valid() && t in rows
      modifies this`rows
      ensures Valid()
      ensures rows.Keys == old(rows).Keys
      ensures forall u :: Get(rows, u) == Bump(Get(old(rows), u), When(u == t, d))
    {
      rows := rows[t := Bump(rows[t], d)];
    }

    /** The loop both table builders share: apply every match in order. */
    method ApplyAll(ms: seq<Played>)
      requires Valid()
      requires forall t :: Get(rows, t) == Blank(t)
      modifies this
      ensures Valid()
      ensures rows.Keys == old(rows).Keys + Sides(ms)
      ensures forall t :: Get(rows, t) == Bump(Blank(t), TallyOf(ms, t))
    {
      for i := 0 to |ms|
        invariant Valid()
        invariant rows.Keys == old(rows).Keys + Sides(ms[..i])
        invariant forall t :: Get(rows, t) == Bump(Blank(t), TallyOf(ms[..i], t))
      {
        Apply(ms[i].home, ms[i].away, ms[i].homeGoals, ms[i].awayGoals);
        SidesSnoc(ms, i);
        forall t
          ensures Get(rows, t) == Bump(Blank(t), TallyOf(ms[..i + 1], t))
        {
          TallySnoc(ms, i, t);
          BumpBump(Blank(t), TallyOf(ms[..i], t), Share(ms[i], t));
        }
      }
      assert ms[..|ms|] == ms;
    }

    /** `row["goal_difference"] = row["goals_for"] - row["goals_against"]`, for every row. */
    method SetGoalDifferences()
      requires Valid()
      modifies this`rows
      ensures Valid() && rows.Keys == old(rows).Keys
      ensures forall t :: t in rows ==> rows[t] == WithDifference(old(rows)[t])
    {
      for i := 0 to |teams|
        invariant Valid() && rows.Keys == old(rows).Keys
        invariant forall j :: 0 <= j < i ==> rows[teams[j]] == WithDifference(old(rows)[teams[j]])
        invariant forall j :: i <= j < |teams| ==> rows[teams[j]] == old(rows)[teams[j]]
      {
        rows := rows[teams[i] := WithDifference(rows[teams[i]])];
      }
    }

    /** The closing loop of the league table: goal difference and adjustment. */
    method Finish(league: League)
      requires Valid()
      modifies this`rows
      ensures Valid() && rows.Keys == old(rows).Keys
      ensures forall t :: t in rows ==> rows[t] == Adjusted(WithDifference(old(rows)[t]), league.Adjustment(t))
    {
      for i := 0 to |teams|
        invariant Valid() && rows.Keys == old(rows).Keys
        invariant forall j :: 0 <= j < i ==>
          rows[teams[j]] == Adjusted(WithDifference(old(rows)[teams[j]]), league.Adjustment(teams[j]))
        invariant forall j :: i <= j < |teams| ==> rows[teams[j]] == old(rows)[teams[j]]
      {
        var t := teams[i];
        rows := rows[t := Adjusted(WithDifference(rows[t]), league.Adjustment(t))];
      }
    }

    /** `list(table.values())` */
    method Values() returns (values: seq<Row>)
      requires Valid()
      ensures |values| == |teams| && forall i :: 0 <= i < |teams| ==> values[i] == rows[teams[i]]
    {
      values := seq(|teams|, i requires 0 <= i < |teams| reads this requires Valid() => rows[teams[i]]);
    }
  }

  /** Every team that played. */
  function Sides(ms: seq<Played>): set<Team> {
    (set m | m in ms :: m.home) + (set m | m in ms :: m.away)
  }

  lemma SidesSnoc(ms: seq<Played>, i: nat)
    requires i < |ms|
    ensures Sides(ms[..i + 1]) == Sides(ms[..i]) + {ms[i].home, ms[i].away}
  {
    assert ms[..i + 1] == ms[..i] + [ms[i]];
    forall t | t in Sides(ms[..i]) + {ms[i].home, ms[i].away}
      ensures t in Sides(ms[..i + 1])
    {
      assert ms[i] in ms[..i + 1];
    }
  }

  lemma TallySnoc(ms: seq<Played>, i: nat, t: Team)
    requires i < |ms|
    ensures TallyOf(ms[..i + 1], t) == Plus(TallyOf(ms[..i], t), Share(ms[i], t))
  {
    assert ms[..i + 1][..i] == ms[..i];
  }

  // ---------------------------------------------------------------------
  // Sort keys
  // ---------------------------------------------------------------------

  function CriteriaKey(criteria: seq<Criterion>, row: Row): (k: Key) {
    if criteria == [] then []
    else
      (match criteria[0]
       case GoalDifference => [-row.goalDifference]
       case GoalsFor => [-row.goalsFor]
       case Wins => [-row.won]
       case _ => []) + CriteriaKey(criteria[1..], row)
  }

  function OverallPrefix(rule: LeagueRule, row: Row): Key {
    CriteriaKey(if rule.primary == [] then [] else rule.primary[1..], row)
  }

  function OverallKey(rule: LeagueRule, row: Row): Key {
    [-row.points] + (OverallPrefix(rule, row) + NameKey(row.team))
  }

  /** The mini-table first, then the overall figures. */
  function HeadToHeadPrefix(mini: Row, row: Row): (k: Key)
    ensures |k| == 6
  {
    [-mini.points, -mini.goalDifference, -mini.goalsFor,
     -row.goalDifference, -row.goalsFor, -row.won]
  }

  function Scoped(ms: seq<Played>, teams: set<Team>): seq<Played> {
    if ms == [] then []
    else Scoped(ms[..|ms| - 1], teams) + Among(ms[|ms| - 1], teams)
  }

  function Among(m: Played, teams: set<Team>): seq<Played> {
    if m.home in teams && m.away in teams then [m] else []
  }

  function PairsOf(ms: seq<Played>): set<(Team, Team)> {
    set m | m in ms :: (m.home, m.away)
  }

  predicate HeadToHeadComplete(ms: seq<Played>, teams: set<Team>) {
    |teams| < 2 || |PairsOf(Scoped(ms, teams))| == |teams| * (|teams| - 1)
  }

  /** A team's row in the table of the matches among `teams` alone. */
  function MiniRow(ms: seq<Played>, teams: set<Team>, t: Team): Row {
    var d := TallyOf(Scoped(ms, teams), t);
    Row(t, d.played, d.won, d.drawn, d.lost, d.goalsFor, d.goalsAgainst,
        d.goalsFor - d.goalsAgainst, 0, d.points)
  }

  // ---------------------------------------------------------------------
  // What the ranked table has to be
  // ---------------------------------------------------------------------

  /** The teams finishing on p points. */
  function Level(ms: seq<Played>, league: League, population: set<Team>, p: int): set<Team> {
    set t | t in population && FinalRow(ms, league, t).points == p
  }

  function HeadToHeadApplies(ms: seq<Played>, league: League, level: set<Team>): bool {
    league.rule.headToHeadOnPoints && |level| != 1 && HeadToHeadComplete(ms, level)
  }

  /** The figures that rank a team within its level, before the name tie-break. */
  function LevelPrefix(ms: seq<Played>, league: League, level: set<Team>, row: Row): Key {
    if HeadToHeadApplies(ms, league, level) then HeadToHeadPrefix(MiniRow(ms, level, row.team), row)
    else OverallPrefix(league.rule, row)
  }

  function RankKey(ms: seq<Played>, league: League, population: set<Team>, row: Row): Key {
    [-row.points] +
    (LevelPrefix(ms, league, Level(ms, league, population, row.points), row) + NameKey(row.team))
  }

  function Ranker(ms: seq<Played>, league: League, population: set<Team>): Row -> Key {
    (row: Row) => RankKey(ms, league, population, row)
  }

  /** One finished row per team of the population, in rank order. */
  ghost predicate IsListing(rows: seq<Row>, ms: seq<Played>, league: League, population: set<Team>) {
    && Distinct(rows)
    && (forall r :: r in rows ==> r.team in population && r == FinalRow(ms, league, r.team))
    && (forall t :: t in population ==> FinalRow(ms, league, t) in rows)
  }

  ghost predicate IsStandings(ranked: seq<Row>, ms: seq<Played>, league: League, population: set<Team>) {
    && IsListing(ranked, ms, league, population)
    && SortedBy(ranked, Ranker(ms, league, population))
  }

  lemma {:induction false} CriteriaKeyLength(criteria: seq<Criterion>, a: Row, b: Row)
    ensures |CriteriaKey(criteria, a)| == |CriteriaKey(criteria, b)|
  {
    if criteria != [] { CriteriaKeyLength(criteria[1..], a, b); }
  }

  /** No two teams share a rank key: the final name tie-break separates them. */
  lemma RankKeySeparates(ms: seq<Played>, league: League, population: set<Team>, a: Row, b: Row)
    requires RankKey(ms, league, population, a) == RankKey(ms, league, population, b)
    ensures a.team == b.team
  {
    var ka, kb := RankKey(ms, league, population, a), RankKey(ms, league, population, b);
    assert ka[0] == -a.points && kb[0] == -b.points;
    var level := Level(ms, league, population, a.points);
    var pa, pb := LevelPrefix(ms, league, level, a), LevelPrefix(ms, league, level, b);
    LevelPrefixLength(ms, league, level, a, b);
    assert ka[1..] == pa + NameKey(a.team);
    assert kb[1..] == pb + NameKey(b.team);
    SuffixInjective(pa, pb, a.team, b.team);
  }

  lemma LevelPrefixLength(ms: seq<Played>, league: League, level: set<Team>, a: Row, b: Row)
    ensures |LevelPrefix(ms, league, level, a)| == |LevelPrefix(ms, league, level, b)|
  {
    CriteriaKeyLength(if league.rule.primary == [] then [] else league.rule.primary[1..], a, b);
  }

  lemma ListingMultiset(a: seq<Row>, b: seq<Row>, ms: seq<Played>, league: League, population: set<Team>)
    requires IsListing(a, ms, league, population) && IsListing(b, ms, league, population)
    ensures multiset(a) == multiset(b)
  {
    DistinctCounts(a);
    DistinctCounts(b);
    forall r ensures multiset(a)[r] == multiset(b)[r] {
      if r in a { assert r in b; }
      if r in b { assert r in a; }
    }
  }

  lemma RankerSeparates(rows: seq<Row>, ms: seq<Played>, league: League, population: set<Team>)
    requires IsListing(rows, ms, league, population)
    ensures KeysSeparate(rows, Ranker(ms, league, population))
  {
    var key := Ranker(ms, league, population);
    forall x, y | x in rows && y in rows && key(x) == key(y)
      ensures x == y
    {
      RankKeySeparates(ms, league, population, x, y);
    }
  }

  /** The table is determined: any two answers that meet the specification agree. */
  lemma StandingsUnique(a: seq<Row>, b: seq<Row>, ms: seq<Played>, league: League, population: set<Team>)
    requires IsStandings(a, ms, league, population) && IsStandings(b, ms, league, population)
    ensures a == b
  {
    ListingMultiset(a, b, ms, league, population);
    RankerSeparates(a, ms, league, population);
    RankerSeparates(b, ms, league, population);
    SortUnique(a, b, Ranker(ms, league, population));
  }

  // ---------------------------------------------------------------------
  // Building and ranking the table
  // ---------------------------------------------------------------------

  lemma {:induction false} ScopedSides(ms: seq<Played>, teams: set<Team>)
    ensures forall m :: m in Scoped(ms, teams) <==> m in ms && m.home in teams && m.away in teams
    ensures Sides(Scoped(ms, teams)) <= teams
  {
    if ms != [] {
      ScopedSides(ms[..|ms| - 1], teams);
      assert ms == ms[..|ms| - 1] + [ms[|ms| - 1]];
    }
  }

  /** The table of the matches played among `names` alone. */
  method MiniTable(ms: seq<Played>, names: seq<Team>) returns (mini: map<Team, Row>)
    ensures var teams := set t | t in names;
      mini.Keys == teams && forall t :: t in mini ==> mini[t] == MiniRow(ms, teams, t)
  {
    var teams := set t | t in names;
    var table := new Table(names);
    ScopedSides(ms, teams);
    table.ApplyAll(Scoped(ms, teams));
    table.SetGoalDifferences();
    mini := table.rows;
    assert mini.Keys == teams;
  }

  function PointsOf(): Row -> int { (r: Row) => r.points }

  /** The rows on p points, in table order. */
  function AtPoints(rows: seq<Row>, p: int): seq<Row> { AtLevel(rows, PointsOf(), p) }

  /** `[row["team"] for row in rows]` */
  function Names(rows: seq<Row>): (names: seq<Team>)
    ensures |names| == |rows| && forall i :: 0 <= i < |rows| ==> names[i] == rows[i].team
  {
    seq(|rows|, i requires 0 <= i < |rows| => rows[i].team)
  }

  /** A group of rows on p points holds exactly the teams of that level. */
  lemma GroupIsLevel(rows: seq<Row>, ms: seq<Played>, league: League, population: set<Team>, p: int)
    requires IsListing(rows, ms, league, population)
    ensures var group := AtPoints(rows, p);
      && (set t | t in Names(group)) == Level(ms, league, population, p)
      && |Level(ms, league, population, p)| == |group|
  {
    var group := AtPoints(rows, p);
    var names := Names(group);
    AtLevelMembers(rows, PointsOf(), p);
    forall i, j | 0 <= i < j < |names|
      ensures names[i] != names[j]
    {
      assert group[i] in group && group[j] in group;
    }
    DistinctSize(names);
    forall t | t in Level(ms, league, population, p)
      ensures t in names
    {
      var r := FinalRow(ms, league, t);
      assert r in group;
      var i :| 0 <= i < |group| && group[i] == r;
      assert names[i] == t;
    }
    forall t | t in names
      ensures t in Level(ms, league, population, p)
    {
      var i :| 0 <= i < |names| && names[i] == t;
      assert group[i] in group;
    }
    assert (set t | t in names) == Level(ms, league, population, p);
  }

  function OverallRanker(rule: LeagueRule): Row -> Key {
    (row: Row) => OverallKey(rule, row)
  }

  function MiniRanker(mini: map<Team, Row>): Row -> Key {
    (row: Row) => HeadToHeadPrefix(Get(mini, row.team), row) + NameKey(row.team)
  }

  /** A common first component does not change a comparison. */
  lemma KeyLeCons(p: int, a: Key, b: Key)
    ensures KeyLe([p] + a, [p] + b) <==> KeyLe(a, b)
  {
    assert ([p] + a)[1..] == a && ([p] + b)[1..] == b;
  }

  /** Sorting one level by the source's key sorts it by the rank key. */
  lemma LevelSorted(group: seq<Row>, key: Row -> Key, ms: seq<Played>, league: League,
                    population: set<Team>, p: int, pointsFirst: bool)
    requires SortedBy(group, key)
    requires forall r :: r in group ==> r.points == p
    requires forall r :: r in group ==>
      var k := LevelPrefix(ms, league, Level(ms, league, population, p), r) + NameKey(r.team);
      key(r) == if pointsFirst then [-p] + k else k
    ensures SortedBy(group, Ranker(ms, league, population))
  {
    var ranker := Ranker(ms, league, population);
    var level := Level(ms, league, population, p);
    forall i, j | 0 <= i < j < |group|
      ensures KeyLe(ranker(group[i]), ranker(group[j]))
    {
      var a, b := group[i], group[j];
      assert a in group && b in group;
      KeyLeCons(-p, LevelPrefix(ms, league, level, a) + NameKey(a.team),
                LevelPrefix(ms, league, level, b) + NameKey(b.team));
    }
  }

  /** Levels are ranked by points, so a lower level goes below everything so far. */
  lemma AppendLevel(ranked: seq<Row>, group: seq<Row>, ms: seq<Played>, league: League, population: set<Team>)
    requires SortedBy(ranked, Ranker(ms, league, population))
    requires SortedBy(group, Ranker(ms, league, population))
    requires forall a, b :: a in ranked && b in group ==> a.points > b.points
    ensures SortedBy(ranked + group, Ranker(ms, league, population))
  {
    var key := Ranker(ms, league, population);
    var all := ranked + group;
    forall i, j | 0 <= i < j < |all|
      ensures KeyLe(key(all[i]), key(all[j]))
    {
      if i < |ranked| <= j {
        assert ranked[i] in ranked && group[j - |ranked|] in group;
        KeyLeHead(key(all[i]), key(all[j]));
      } else if j < |ranked| {
        assert all[i] == ranked[i] && all[j] == ranked[j];
      } else {
        assert all[i] == group[i - |ranked|] && all[j] == group[j - |ranked|];
      }
    }
  }

  /** One group of level teams, in final order. */
  method RankLevel(group: seq<Row>, ghost rows: seq<Row>, ms: seq<Played>, league: League,
                   ghost population: set<Team>, ghost p: int)
    returns (sorted: seq<Row>)
    requires league.rule.headToHeadOnPoints
    requires IsListing(rows, ms, league, population) && group == AtPoints(rows, p)
    ensures SortedBy(sorted, Ranker(ms, league, population))
    ensures Distinct(sorted) && forall r :: r in sorted <==> r in rows && r.points == p
  {
    AtLevelMembers(rows, PointsOf(), p);
    var names := Names(group);
    if |group| == 1 || !HeadToHeadComplete(ms, set t | t in names) {
      sorted := Sort(group, OverallRanker(league.rule));
      OverallLevel(sorted, rows, ms, league, population, p);
    } else {
      var mini := MiniTable(ms, names);
      sorted := Sort(group, MiniRanker(mini));
      MiniLevel(sorted, mini, rows, ms, league, population, p);
    }
    DistinctMultiset(group, sorted);
  }

  lemma OverallLevel(sorted: seq<Row>, rows: seq<Row>, ms: seq<Played>, league: League,
                     population: set<Team>, p: int)
    requires IsListing(rows, ms, league, population)
    requires var group := AtPoints(rows, p);
      && multiset(sorted) == multiset(group)
      && (|group| == 1 || !HeadToHeadComplete(ms, set t | t in Names(group)))
    requires SortedBy(sorted, OverallRanker(league.rule))
    ensures SortedBy(sorted, Ranker(ms, league, population))
  {
    hide TallyOf, AtLevel, HeadToHeadComplete, SortedBy, CriteriaKey;
    GroupIsLevel(rows, ms, league, population, p);
    AtLevelMembers(rows, PointsOf(), p);
    SameMembers(sorted, AtPoints(rows, p));
    LevelSorted(sorted, OverallRanker(league.rule), ms, league, population, p, true);
  }

  lemma MiniLevel(sorted: seq<Row>, mini: map<Team, Row>, rows: seq<Row>, ms: seq<Played>, league: League,
                  population: set<Team>, p: int)
    requires league.rule.headToHeadOnPoints
    requires IsListing(rows, ms, league, population)
    requires var group := AtPoints(rows, p);
      && multiset(sorted) == multiset(group)
      && !(|group| == 1 || !HeadToHeadComplete(ms, set t | t in Names(group)))
    requires var teams := set t | t in Names(AtPoints(rows, p));
      mini.Keys == teams && forall t :: t in mini ==> mini[t] == MiniRow(ms, teams, t)
    requires SortedBy(sorted, MiniRanker(mini))
    ensures SortedBy(sorted, Ranker(ms, league, population))
  {
    var group := AtPoints(rows, p);
    GroupIsLevel(rows, ms, league, population, p);
    AtLevelMembers(rows, PointsOf(), p);
    SameMembers(sorted, group);
    MiniMembers(group, mini);
    LevelSorted(sorted, MiniRanker(mini), ms, league, population, p, false);
  }

  method RankWithHeadToHead(rows: seq<Row>, ms: seq<Played>, league: League, ghost population: set<Team>)
    returns (ranked: seq<Row>)
    requires league.rule.headToHeadOnPoints
    requires IsListing(rows, ms, league, population)
    ensures IsStandings(ranked, ms, league, population)
  {
    var byPoints, levels := GroupBy(rows, PointsOf());
    var order := Sort(levels, Descending());
    DescendingLevels(levels, order);
    ranked := [];
    for i := 0 to |order|
      invariant IsRankedDownTo(ranked, rows, ms, league, population, order[..i])
    {
      assert order[i] in order && order[i] in levels;
      var sorted := RankLevel(byPoints[order[i]], rows, ms, league, population, order[i]);
      ExtendRanked(ranked, sorted, rows, ms, league, population, order, i);
      ranked := ranked + sorted;
    }
    assert order[..|order|] == order;
    AllLevelsRanked(ranked, rows, ms, league, population, order);
  }

  lemma AllLevelsRanked(ranked: seq<Row>, rows: seq<Row>, ms: seq<Played>, league: League,
                        population: set<Team>, order: seq<int>)
    requires IsListing(rows, ms, league, population)
    requires IsRankedDownTo(ranked, rows, ms, league, population, order)
    requires forall r :: r in rows ==> r.points in order
    ensures IsStandings(ranked, ms, league, population)
  {
    assert forall r :: r in ranked <==> r in rows;
  }

  ghost predicate IsRankedDownTo(ranked: seq<Row>, rows: seq<Row>, ms: seq<Played>, league: League,
                                 population: set<Team>, levels: seq<int>) {
    && Distinct(ranked)
    && (forall r :: r in ranked <==> r in rows && r.points in levels)
    && SortedBy(ranked, Ranker(ms, league, population))
  }

  lemma MiniMembers(group: seq<Row>, mini: map<Team, Row>)
    requires mini.Keys == set t | t in Names(group)
    ensures forall r :: r in group ==> r.team in mini
  {
    forall r | r in group ensures r.team in mini {
      var i :| 0 <= i < |group| && group[i] == r;
      assert Names(group)[i] == r.team;
    }
  }

  lemma ExtendRanked(ranked: seq<Row>, sorted: seq<Row>, rows: seq<Row>, ms: seq<Played>, league: League,
                     population: set<Team>, order: seq<int>, i: nat)
    requires i < |order| && forall i, j :: 0 <= i < j < |order| ==> order[i] > order[j]
    requires IsRankedDownTo(ranked, rows, ms, league, population, order[..i])
    requires Distinct(sorted) && SortedBy(sorted, Ranker(ms, league, population))
    requires forall r :: r in sorted <==> r in rows && r.points == order[i]
    ensures IsRankedDownTo(ranked + sorted, rows, ms, league, population, order[..i + 1])
  {
    assert order[..i + 1] == order[..i] + [order[i]];
    AppendLevel(ranked, sorted, ms, league, population);
  }

  /** The whole population: the named teams and every team that played. */
  function Population(fixtures: seq<Fixture>, names: seq<Team>): set<Team> {
    (set t | t in names) + Sides(Completed(fixtures))
  }

  /** The league table, from match rows alone. */
  method StandingsTable(fixtures: seq<Fixture>, league: League, names: seq<Team>) returns (ranked: seq<Row>)
    ensures IsStandings(ranked, Completed(fixtures), league, Population(fixtures, names))
  {
    hide TallyOf, IsStandings, Completed, Sides;
    var completed := Completed(fixtures);
    var table := new Table(names);
    table.ApplyAll(completed);
    table.Finish(league);
    var rows := table.Values();
    ghost var population := Population(fixtures, names);
    ValuesListing(table.teams, table.rows, rows, completed, league, population);
    if league.rule.headToHeadOnPoints {
      ranked := RankWithHeadToHead(rows, completed, league, population);
    } else {
      ranked := Sort(rows, OverallRanker(league.rule));
      OverallStandings(rows, ranked, completed, league, population);
    }
  }

  lemma OverallStandings(rows: seq<Row>, ranked: seq<Row>, ms: seq<Played>, league: League, population: set<Team>)
    requires !league.rule.headToHeadOnPoints
    requires IsListing(rows, ms, league, population) && multiset(ranked) == multiset(rows)
    requires SortedBy(ranked, OverallRanker(league.rule))
    ensures IsStandings(ranked, ms, league, population)
  {
    hide TallyOf;
    DistinctMultiset(rows, ranked);
    SameMembers(rows, ranked);
    var a, b := OverallRanker(league.rule), Ranker(ms, league, population);
    forall i, j | 0 <= i < j < |ranked|
      ensures KeyLe(b(ranked[i]), b(ranked[j]))
    {
      assert KeyLe(a(ranked[i]), a(ranked[j]));
    }
  }

  lemma ValuesListing(teams: seq<Team>, table: map<Team, Row>, rows: seq<Row>, ms: seq<Played>, league: League,
                      population: set<Team>)
    requires Distinct(teams) && |rows| == |teams| && table.Keys == population
    requires forall t :: t in teams <==> t in table
    requires forall t :: t in table ==> table[t] == FinalRow(ms, league, t)
    requires forall i :: 0 <= i < |teams| ==> rows[i] == table[teams[i]]
    ensures IsListing(rows, ms, league, population)
  {
    forall t | t in population
      ensures FinalRow(ms, league, t) in rows
    {
      var i :| 0 <= i < |teams| && teams[i] == t;
      assert rows[i] == FinalRow(ms, league, t);
    }
  }
}
