/** The simulator's own array-based rankers, proved to order every run exactly as the
    league table computed from scratch on that run's results. */
module SimulatedRanking {
  import opened Prelude
  import opened Ordering
  import opened Pairs
  import opened Standings
  import opened StandingsLaws
  import opened SeasonRuns

  /** The finished rows of the given team indices, computed from the run's matches. */
  function RowsOf(ms: seq<Played>, league: League, teams: seq<Team>, order: seq<nat>): (rows: seq<Row>)
    requires forall k :: 0 <= k < |order| ==> order[k] < |teams|
    ensures |rows| == |order|
  {
    seq(|order|, k requires 0 <= k < |order| => FinalRow(ms, league, teams[order[k]]))
  }

  /** The counters agree with the finished rows. */
  ghost predicate LinesMatch(lines: seq<Line>, ms: seq<Played>, league: League, teams: seq<Team>) {
    |lines| == |teams| &&
    forall i :: 0 <= i < |teams| ==> lines[i] == LineOfRow(FinalRow(ms, league, teams[i]))
  }

  function LineOfRow(r: Row): Line { Line(r.points, r.goalsFor, r.goalsAgainst, r.won) }

  // ---------------------------------------------------------------------
  // Ranking on overall figures
  // ---------------------------------------------------------------------

  function IndexCriteria(criteria: seq<Criterion>, line: Line): Key {
    if criteria == [] then []
    else
      (match criteria[0]
       case GoalDifference => [-(line.goalsFor - line.goalsAgainst)]
       case GoalsFor => [-line.goalsFor]
       case Wins => [-line.wins]
       case _ => []) + IndexCriteria(criteria[1..], line)
  }

  function OverallIndexKey(rule: LeagueRule, teams: seq<Team>, lines: seq<Line>): nat -> Key
    requires |lines| == |teams|
  {
    (i: nat) =>
      if i < |teams| then
        [-lines[i].points] +
        (IndexCriteria(if rule.primary == [] then [] else rule.primary[1..], lines[i]) + NameKey(teams[i]))
      else []
  }

  /** `_overall_order` */
  method OverallOrder(rule: LeagueRule, teams: seq<Team>, lines: seq<Line>) returns (order: seq<nat>)
    requires |lines| == |teams|
    ensures multiset(order) == multiset(Range(|teams|))
    ensures SortedBy(order, OverallIndexKey(rule, teams, lines))
  {
    order := Sort(Range(|teams|), OverallIndexKey(rule, teams, lines));
  }

  lemma {:induction false} CriteriaAgree(criteria: seq<Criterion>, row: Row)
    requires row.goalDifference == row.goalsFor - row.goalsAgainst
    ensures IndexCriteria(criteria, LineOfRow(row)) == CriteriaKey(criteria, row)
  {
    if criteria != [] { CriteriaAgree(criteria[1..], row); }
  }

  /** Sorting indices by keys that agree with row keys sorts the rows. */
  lemma SortedRows(order: seq<nat>, key: nat -> Key, rowKey: Row -> Key, ms: seq<Played>, league: League,
                   teams: seq<Team>)
    requires forall k :: 0 <= k < |order| ==> order[k] < |teams|
    requires SortedBy(order, key)
    requires forall i :: i in order ==> key(i) == rowKey(FinalRow(ms, league, teams[i]))
    ensures SortedBy(RowsOf(ms, league, teams, order), rowKey)
  {
    hide FinalRow;
    var rows := RowsOf(ms, league, teams, order);
    forall j, k | 0 <= j < k < |rows|
      ensures KeyLe(rowKey(rows[j]), rowKey(rows[k]))
    {
      assert order[j] in order && order[k] in order;
      assert KeyLe(key(order[j]), key(order[k]));
    }
  }

  lemma OverallKeysAgree(rule: LeagueRule, teams: seq<Team>, lines: seq<Line>, ms: seq<Played>, league: League,
                         i: nat)
    requires LinesMatch(lines, ms, league, teams) && i < |teams|
    ensures OverallIndexKey(rule, teams, lines)(i) == OverallRanker(rule)(FinalRow(ms, league, teams[i]))
  {
    hide TallyOf;
    CriteriaAgree(if rule.primary == [] then [] else rule.primary[1..], FinalRow(ms, league, teams[i]));
  }

  lemma OrderRows(order: seq<nat>, ms: seq<Played>, league: League, teams: seq<Team>)
    requires Distinct(teams) && multiset(order) == multiset(Range(|teams|))
    ensures forall i :: i in order <==> 0 <= i < |teams|
    ensures forall k :: 0 <= k < |order| ==> order[k] < |teams|
    ensures IsListing(RowsOf(ms, league, teams, order), ms, league, set t | t in teams)
  {
    hide TallyOf;
    PermutationOfRange(order, |teams|);
    forall k | 0 <= k < |order| ensures order[k] < |teams| { assert order[k] in order; }
    var rows := RowsOf(ms, league, teams, order);
    forall j, k | 0 <= j < k < |rows|
      ensures rows[j] != rows[k]
    {
      assert order[j] in order && order[k] in order;
      assert rows[j].team == teams[order[j]] && rows[k].team == teams[order[k]];
    }
    forall r | r in rows ensures r.team in teams && r == FinalRow(ms, league, r.team) {
      var k :| 0 <= k < |rows| && rows[k] == r;
      assert order[k] in order;
    }
    forall t | t in teams ensures FinalRow(ms, league, t) in rows {
      var i :| 0 <= i < |teams| && teams[i] == t;
      assert i in order;
      var k :| 0 <= k < |order| && order[k] == i;
      assert rows[k] == FinalRow(ms, league, t);
    }
  }

  // ---------------------------------------------------------------------
  // Ranking with the head-to-head mini-table
  // ---------------------------------------------------------------------

  datatype Mini = Mini(points: int, goalsFor: int, goalsAgainst: int)

  function MiniOf(d: Tally): Mini { Mini(d.points, d.goalsFor, d.goalsAgainst) }

  function AddMini(a: Mini, b: Mini): Mini {
    Mini(a.points + b.points, a.goalsFor + b.goalsFor, a.goalsAgainst + b.goalsAgainst)
  }

  function MiniGain(home: nat, away: nat, homeGoals: int, awayGoals: int, i: nat): Mini {
    var g := Gain(home, away, homeGoals, awayGoals, i);
    Mini(g.points, g.goalsFor, g.goalsAgainst)
  }

  /** The dict updates of one head-to-head match. */
  method CreditMini(mini: map<nat, Mini>, home: nat, away: nat, homeGoals: int, awayGoals: int)
    returns (next: map<nat, Mini>)
    requires home in mini && away in mini && home != away
    ensures next.Keys == mini.Keys
    ensures forall i :: i in mini ==> next[i] == AddMini(mini[i], MiniGain(home, away, homeGoals, awayGoals, i))
  {
    next := mini[home := AddMini(mini[home], Mini(0, homeGoals, awayGoals))];
    next := next[away := AddMini(next[away], Mini(0, awayGoals, homeGoals))];
    if homeGoals > awayGoals {
      next := next[home := AddMini(next[home], Mini(3, 0, 0))];
    } else if homeGoals < awayGoals {
      next := next[away := AddMini(next[away], Mini(3, 0, 0))];
    } else {
      next := next[home := AddMini(next[home], Mini(1, 0, 0))];
      next := next[away := AddMini(next[away], Mini(1, 0, 0))];
    }
  }

  /** The names of a group of team indices. */
  function GroupNames(teams: seq<Team>, group: seq<nat>): set<Team>
    requires forall i :: i in group ==> i < |teams|
  {
    set i | i in group :: teams[i]
  }

  /** A run's matches are the season's fixtures with the run's scores. */
  ghost predicate MatchesOf(ms: seq<Played>, season: Season, scores: seq<(int, int)>) {
    && |ms| == |scores| == |season.homeIndex| == |season.awayIndex|
    && forall k :: 0 <= k < |ms| ==>
         && season.homeIndex[k] < |season.teams| && season.awayIndex[k] < |season.teams|
         && season.homeIndex[k] != season.awayIndex[k]
         && ms[k] == Played(season.teams[season.homeIndex[k]], season.teams[season.awayIndex[k]], scores[k].0,
           scores[k].1)
  }

  lemma ScopedSnoc(ms: seq<Played>, k: nat, names: set<Team>, t: Team)
    requires k < |ms|
    ensures var m := ms[k];
      TallyOf(Scoped(ms[..k + 1], names), t) ==
      if m.home in names && m.away in names then Plus(TallyOf(Scoped(ms[..k], names), t), Share(m, t))
      else TallyOf(Scoped(ms[..k], names), t)
  {
    hide Share, Plus, TallyOf;
    assert ms[..k + 1][..k] == ms[..k];
    var m := ms[k];
    assert Scoped(ms[..k + 1], names) == Scoped(ms[..k], names) + Among(m, names);
    if m.home in names && m.away in names {
      Snoc(Scoped(ms[..k], names), m, t);
    } else {
      assert Among(m, names) == [];
      assert Scoped(ms[..k + 1], names) == Scoped(ms[..k], names);
    }
  }

  /** One step of the mini-table loop, seen from one team of the group. */
  lemma MiniStep(ms: seq<Played>, season: Season, scores: seq<(int, int)>, group: seq<nat>, k: nat, i: nat)
    requires MatchesOf(ms, season, scores) && k < |ms| && Distinct(season.teams)
    requires (forall j :: j in group ==> j < |season.teams|) && i in group
    ensures var names, h, a := GroupNames(season.teams, group), season.homeIndex[k], season.awayIndex[k];
      MiniOf(TallyOf(Scoped(ms[..k + 1], names), season.teams[i])) ==
      if h in group && a in group
      then AddMini(MiniOf(TallyOf(Scoped(ms[..k], names), season.teams[i])),
        MiniGain(h, a, scores[k].0, scores[k].1, i))
      else MiniOf(TallyOf(Scoped(ms[..k], names), season.teams[i]))
  {
    hide TallyOf, Scoped, Side, Gain;
    var names, h, a, t := GroupNames(season.teams, group), season.homeIndex[k], season.awayIndex[k], season.teams[i];
    ScopedSnoc(ms, k, names, t);
    InGroup(season.teams, group, h);
    InGroup(season.teams, group, a);
    assert Share(ms[k], t) == Plus(When(h == i, Side(scores[k].0, scores[k].1)),
      When(a == i, Side(scores[k].1, scores[k].0)));
    GainParts(h, a, scores[k].0, scores[k].1, i);
  }

  lemma InGroup(teams: seq<Team>, group: seq<nat>, h: nat)
    requires Distinct(teams) && h < |teams| && forall j :: j in group ==> j < |teams|
    ensures teams[h] in GroupNames(teams, group) <==> h in group
  {
  }

  method MiniTableOf(ghost ms: seq<Played>, season: Season, scores: seq<(int, int)>, group: seq<nat>)
    returns (mini: map<nat, Mini>)
    requires MatchesOf(ms, season, scores) && Distinct(season.teams)
    requires forall j :: j in group ==> j < |season.teams|
    ensures mini.Keys == set i | i in group
    ensures forall i :: i in group ==>
      mini[i] == MiniOf(TallyOf(Scoped(ms, GroupNames(season.teams, group)), season.teams[i]))
  {
    hide TallyOf, Scoped, MiniGain;
    var members := set i | i in group;
    ghost var names := GroupNames(season.teams, group);
    mini := map i | i in members :: Mini(0, 0, 0);
    NothingScoped(ms, names);
    for k := 0 to |scores|
      invariant mini.Keys == members
      invariant forall i :: i in group ==> mini[i] == MiniOf(TallyOf(Scoped(ms[..k], names), season.teams[i]))
    {
      forall i | i in group
        ensures var h, a := season.homeIndex[k], season.awayIndex[k];
          MiniOf(TallyOf(Scoped(ms[..k + 1], names), season.teams[i])) ==
          if h in group && a in group then AddMini(mini[i], MiniGain(h, a, scores[k].0, scores[k].1, i)) else mini[i]
      {
        MiniStep(ms, season, scores, group, k, i);
      }
      if season.homeIndex[k] in members && season.awayIndex[k] in members {
        mini := CreditMini(mini, season.homeIndex[k], season.awayIndex[k], scores[k].0, scores[k].1);
      }
    }
    assert ms[..|scores|] == ms;
  }

  lemma NothingScoped(ms: seq<Played>, names: set<Team>)
    ensures forall t :: TallyOf(Scoped(ms[..0], names), t) == ZERO
  {
  }

  function MiniIndexKey(mini: map<nat, Mini>, teams: seq<Team>, lines: seq<Line>): nat -> Key
    requires |lines| == |teams|
  {
    (i: nat) =>
      if i < |teams| && i in mini then
        [-mini[i].points, -(mini[i].goalsFor - mini[i].goalsAgainst), -mini[i].goalsFor,
         -(lines[i].goalsFor - lines[i].goalsAgainst), -lines[i].goalsFor, -lines[i].wins] + NameKey(teams[i])
      else []
  }

  function PointsAt(lines: seq<Line>): nat -> int { (i: nat) => if i < |lines| then lines[i].points else 0 }

  /** Selecting indices by points selects the rows on those points. */
  lemma {:induction false} LevelRows(order: seq<nat>, lines: seq<Line>, ms: seq<Played>, league: League,
                                     teams: seq<Team>, p: int)
    requires LinesMatch(lines, ms, league, teams)
    requires forall k :: 0 <= k < |order| ==> order[k] < |teams|
    ensures var group := AtLevel<nat>(order, PointsAt(lines), p);
      && (forall k :: 0 <= k < |group| ==> group[k] < |teams|)
      && RowsOf(ms, league, teams, group) == AtPoints(RowsOf(ms, league, teams, order), p)
  {
    hide FinalRow;
    if order != [] {
      var init, last := order[..|order| - 1], order[|order| - 1];
      LevelRows(init, lines, ms, league, teams, p);
      var rows := RowsOf(ms, league, teams, order);
      assert rows[..|rows| - 1] == RowsOf(ms, league, teams, init);
      assert rows[|rows| - 1] == FinalRow(ms, league, teams[last]);
    }
  }

  function LevelRanker(ms: seq<Played>, league: League, level: set<Team>): Row -> Key {
    (row: Row) => LevelPrefix(ms, league, level, row) + NameKey(row.team)
  }

  /** In a certified season every pair of teams has met, so the head-to-head tie-break
      applies to every level: the simulator need not ask. */
  lemma EveryLevelComplete(season: Season, run: Run, level: set<Team>)
    requires season.Valid() && |run| == |season.fixtures| && level <= set t | t in season.teams
    ensures HeadToHeadComplete(Results(season, run), level)
  {
    hide HeadToHeadComplete;
    var ms := Results(season, run);
    var teams := set t | t in season.teams;
    var pairs := PairsOfFixtures(season.fixtures);
    ResultPairs(season, run);
    assert PairsOf(ms) == OffDiagonal(teams);
    CompleteWithoutSelfFixtures(ms, level);
  }

  lemma ResultPairs(season: Season, run: Run)
    requires |run| == |season.fixtures|
    ensures PairsOf(Results(season, run)) == set p | p in PairsOfFixtures(season.fixtures)
  {
    var ms, pairs := Results(season, run), PairsOfFixtures(season.fixtures);
    forall p | p in PairsOf(ms) ensures p in pairs {
      var m :| m in ms && (m.home, m.away) == p;
      var i :| 0 <= i < |ms| && ms[i] == m;
      assert pairs[i] == p;
    }
    forall p | p in pairs ensures p in PairsOf(ms) {
      var i :| 0 <= i < |pairs| && pairs[i] == p;
      assert ms[i] in ms;
    }
  }

  /** One run, as the rankers receive it. */
  ghost predicate Ready(season: Season, run: Run, lines: seq<Line>, scores: seq<(int, int)>) {
    && season.Valid() && |run| == |season.fixtures|
    && LinesMatch(lines, Results(season, run), season.league, season.teams)
    && MatchesOf(Results(season, run), season, scores)
  }

  function TeamSet(teams: seq<Team>): set<Team> { set t | t in teams }

  function Everyone(season: Season): set<Team> { TeamSet(season.teams) }

  /** The group of a level, and the level it is. */
  lemma GroupOfLevel(season: Season, run: Run, lines: seq<Line>, scores: seq<(int, int)>, overall: seq<nat>,
                     group: seq<nat>, p: int)
    requires Ready(season, run, lines, scores)
    requires multiset(overall) == multiset(Range(|season.teams|))
    requires group == AtLevel<nat>(overall, PointsAt(lines), p)
    ensures forall i :: i in group ==> i < |season.teams|
    ensures forall k :: 0 <= k < |group| ==> group[k] < |season.teams|
    ensures forall k :: 0 <= k < |overall| ==> overall[k] < |season.teams|
    ensures Distinct(group)
    ensures var ms, level := Results(season, run), Level(Results(season, run), season.league, Everyone(season), p);
      && GroupNames(season.teams, group) == level
      && |level| == |group|
      && (forall r :: r in RowsOf(ms, season.league, season.teams, group) <==>
            r in RowsOf(ms, season.league, season.teams, overall) && r.points == p)
  {
    hide TallyOf, FinalRow, Results, MatchesOf, IsListing;
    var ms, teams := Results(season, run), season.teams;
    PermutationOfRange(overall, |teams|);
    OrderRows(overall, ms, season.league, teams);
    AtLevelMembers(overall, PointsAt(lines), p);
    LevelRows(overall, lines, ms, season.league, teams, p);
    var rows := RowsOf(ms, season.league, teams, overall);
    AtLevelMembers(rows, PointsOf(), p);
    GroupIsLevel(rows, ms, season.league, Everyone(season), p);
    NamesOfGroup(ms, season.league, teams, group);
  }

  lemma NamesOfGroup(ms: seq<Played>, league: League, teams: seq<Team>, group: seq<nat>)
    requires forall k :: 0 <= k < |group| ==> group[k] < |teams|
    requires forall i :: i in group ==> i < |teams|
    ensures (set t | t in Names(RowsOf(ms, league, teams, group))) == GroupNames(teams, group)
  {
    hide TallyOf;
    var names := Names(RowsOf(ms, league, teams, group));
    forall t | t in GroupNames(teams, group) ensures t in names {
      var i :| i in group && teams[i] == t;
      var k :| 0 <= k < |group| && group[k] == i;
      assert names[k] == t;
    }
    forall t | t in names ensures t in GroupNames(teams, group) {
      var k :| 0 <= k < |names| && names[k] == t;
      assert group[k] in group;
    }
  }

  /** The simulator's mini-table key is the table's own level key. */
  lemma MiniKeysAgree(season: Season, run: Run, lines: seq<Line>, scores: seq<(int, int)>,
                      mini: map<nat, Mini>, level: set<Team>, i: nat)
    requires Ready(season, run, lines, scores) && i < |season.teams| && i in mini
    requires season.league.rule.headToHeadOnPoints && |level| != 1 && level <= Everyone(season)
    requires mini[i] == MiniOf(TallyOf(Scoped(Results(season, run), level), season.teams[i]))
    ensures MiniIndexKey(mini, season.teams, lines)(i) ==
            LevelRanker(Results(season, run), season.league, level)
              (FinalRow(Results(season, run), season.league, season.teams[i]))
  {
    hide TallyOf, Results, MatchesOf, HeadToHeadComplete, Scoped, FinalRow, LevelPrefix, Season.Valid;
    EveryLevelComplete(season, run, level);
    var ms, league, t := Results(season, run), season.league, season.teams[i];
    assert lines[i] == LineOfRow(FinalRow(ms, league, t));
    FinalDifference(ms, league, t);
    PrefixApplies(ms, league, level, FinalRow(ms, league, t));
    FinalTeam(ms, league, t);
  }

  lemma FinalDifference(ms: seq<Played>, league: League, t: Team)
    ensures var r := FinalRow(ms, league, t); r.goalDifference == r.goalsFor - r.goalsAgainst
  {
    hide TallyOf;
  }

  lemma FinalTeam(ms: seq<Played>, league: League, t: Team)
    ensures FinalRow(ms, league, t).team == t
  {
    hide TallyOf;
  }

  lemma PrefixApplies(ms: seq<Played>, league: League, level: set<Team>, row: Row)
    requires league.rule.headToHeadOnPoints && |level| != 1 && HeadToHeadComplete(ms, level)
    ensures var d := TallyOf(Scoped(ms, level), row.team);
      LevelPrefix(ms, league, level, row) ==
      [-d.points, -(d.goalsFor - d.goalsAgainst), -d.goalsFor, -row.goalDifference, -row.goalsFor, -row.won]
  {
    hide TallyOf, Scoped, HeadToHeadComplete;
  }

  /** One group of level teams, sorted by its mini-table. */
  method RankGroup(season: Season, ghost run: Run, lines: seq<Line>, scores: seq<(int, int)>,
                   ghost overall: seq<nat>, group: seq<nat>, ghost p: int)
    returns (sorted: seq<nat>)
    requires Ready(season, run, lines, scores) && season.league.rule.headToHeadOnPoints
    requires multiset(overall) == multiset(Range(|season.teams|))
    requires group == AtLevel<nat>(overall, PointsAt(lines), p)
    ensures multiset(sorted) == multiset(group)
    ensures forall k :: 0 <= k < |sorted| ==> sorted[k] < |season.teams|
    ensures SortedBy(RowsOf(Results(season, run), season.league, season.teams, sorted),
                     Ranker(Results(season, run), season.league, Everyone(season)))
  {
    hide TallyOf, FinalRow, Results, MatchesOf, LinesMatch, AtLevel, SortedBy, Level, RankKey, LevelPrefix,
         Season.Valid;
    GroupOfLevel(season, run, lines, scores, overall, group, p);
    if |group| == 1 {
      sorted := group;
      OneRowSorted(RowsOf(Results(season, run), season.league, season.teams, sorted),
                   Ranker(Results(season, run), season.league, Everyone(season)));
    } else {
      ReadyTeams(season, run, lines, scores);
      var mini := MiniTableOf(Results(season, run), season, scores, group);
      sorted := Sort(group, MiniIndexKey(mini, season.teams, lines));
      MiniSorted(season, run, lines, scores, overall, group, sorted, mini, p);
    }
  }

  lemma ReadyTeams(season: Season, run: Run, lines: seq<Line>, scores: seq<(int, int)>)
    requires Ready(season, run, lines, scores)
    ensures Distinct(season.teams) && |lines| == |season.teams|
    ensures MatchesOf(Results(season, run), season, scores)
  {
  }

  lemma OneRowSorted(rows: seq<Row>, key: Row -> Key)
    requires |rows| == 1
    ensures SortedBy(rows, key)
  {
  }

  lemma MiniSorted(season: Season, run: Run, lines: seq<Line>, scores: seq<(int, int)>, overall: seq<nat>,
                   group: seq<nat>, sorted: seq<nat>, mini: map<nat, Mini>, p: int)
    requires Ready(season, run, lines, scores) && season.league.rule.headToHeadOnPoints
    requires multiset(overall) == multiset(Range(|season.teams|))
    requires group == AtLevel<nat>(overall, PointsAt(lines), p) && |group| != 1
    requires forall i :: i in group ==> i < |season.teams|
    requires mini.Keys == set i | i in group
    requires forall i :: i in group ==>
      mini[i] == MiniOf(TallyOf(Scoped(Results(season, run), GroupNames(season.teams, group)), season.teams[i]))
    requires multiset(sorted) == multiset(group) && |lines| == |season.teams|
    requires SortedBy(sorted, MiniIndexKey(mini, season.teams, lines))
    ensures forall k :: 0 <= k < |sorted| ==> sorted[k] < |season.teams|
    ensures SortedBy(RowsOf(Results(season, run), season.league, season.teams, sorted),
                     Ranker(Results(season, run), season.league, Everyone(season)))
  {
    hide TallyOf, FinalRow, Results, MatchesOf, LinesMatch, AtLevel, SortedBy, RankKey, LevelPrefix,
         Season.Valid, Scoped, MiniIndexKey;
    var ms, league, teams := Results(season, run), season.league, season.teams;
    var level := Level(ms, league, Everyone(season), p);
    GroupOfLevel(season, run, lines, scores, overall, group, p);
    SameMembers(sorted, group);
    forall k | 0 <= k < |sorted| ensures sorted[k] < |teams| { assert sorted[k] in sorted; }
    forall i | i in sorted
      ensures MiniIndexKey(mini, teams, lines)(i) == LevelRanker(ms, league, level)(FinalRow(ms, league, teams[i]))
    {
      MiniKeysAgree(season, run, lines, scores, mini, level, i);
    }
    SortedRows(sorted, MiniIndexKey(mini, teams, lines), LevelRanker(ms, league, level), ms, league, teams);
    SameRows(ms, league, teams, group, sorted);
    LevelSorted(RowsOf(ms, league, teams, sorted), LevelRanker(ms, league, level), ms, league, Everyone(season),
      p, false);
  }

  /** `_head_to_head_order` */
  method HeadToHeadOrder(season: Season, ghost run: Run, lines: seq<Line>, scores: seq<(int, int)>)
    returns (ranked: seq<nat>)
    requires Ready(season, run, lines, scores) && season.league.rule.headToHeadOnPoints
    ensures multiset(ranked) == multiset(Range(|season.teams|))
    ensures forall k :: 0 <= k < |ranked| ==> ranked[k] < |season.teams|
    ensures IsStandings(RowsOf(Results(season, run), season.league, season.teams, ranked),
                        Results(season, run), season.league, Everyone(season))
  {
    hide TallyOf, FinalRow, Results, MatchesOf, LinesMatch, AtLevel, SortedBy, IsListing, Season.Valid,
         IsRankedDownTo;
    ReadyTeams(season, run, lines, scores);
    var overall := OverallOrder(season.league.rule, season.teams, lines);
    ghost var ms, league, teams := Results(season, run), season.league, season.teams;
    OrderRows(overall, ms, league, teams);
    ghost var rows := RowsOf(ms, league, teams, overall);
    var groups, levels := GroupBy(overall, PointsAt(lines));
    var order := Sort(levels, Descending());
    DescendingLevels(levels, order);
    ranked := [];
    NothingRanked(rows, ms, league, Everyone(season));
    assert order[..0] == [];
    for i := 0 to |order|
      invariant forall k :: 0 <= k < |ranked| ==> ranked[k] < |teams|
      invariant IsRankedDownTo(RowsOf(ms, league, teams, ranked), rows, ms, league, Everyone(season), order[..i])
    {
      assert order[i] in order && order[i] in levels;
      var sorted := RankGroup(season, run, lines, scores, overall, groups[order[i]], order[i]);
      GroupOfLevel(season, run, lines, scores, overall, groups[order[i]], order[i]);
      ExtendOrder(ms, league, teams, overall, groups[order[i]], sorted, ranked, order, i);
      ranked := ranked + sorted;
    }
    assert order[..|order|] == order;
    Everything(season, run, lines, scores, overall, ranked, order);
  }

  lemma NothingRanked(rows: seq<Row>, ms: seq<Played>, league: League, population: set<Team>)
    ensures IsRankedDownTo([], rows, ms, league, population, [])
  {
  }

  /** Appending a sorted group of the next level extends the ranking by that level. */
  lemma ExtendOrder(ms: seq<Played>, league: League, teams: seq<Team>, overall: seq<nat>, group: seq<nat>,
                    sorted: seq<nat>, ranked: seq<nat>, order: seq<int>, i: nat)
    requires Distinct(teams)
    requires forall k :: 0 <= k < |overall| ==> overall[k] < |teams|
    requires forall k :: 0 <= k < |group| ==> group[k] < |teams|
    requires forall k :: 0 <= k < |sorted| ==> sorted[k] < |teams|
    requires forall k :: 0 <= k < |ranked| ==> ranked[k] < |teams|
    requires i < |order| && forall i, j :: 0 <= i < j < |order| ==> order[i] > order[j]
    requires Distinct(group) && multiset(sorted) == multiset(group)
    requires forall r :: r in RowsOf(ms, league, teams, group) <==>
      r in RowsOf(ms, league, teams, overall) && r.points == order[i]
    requires SortedBy(RowsOf(ms, league, teams, sorted), Ranker(ms, league, TeamSet(teams)))
    requires IsRankedDownTo(RowsOf(ms, league, teams, ranked), RowsOf(ms, league, teams, overall), ms, league,
                            TeamSet(teams), order[..i])
    ensures forall k :: 0 <= k < |ranked + sorted| ==> (ranked + sorted)[k] < |teams|
    ensures IsRankedDownTo(RowsOf(ms, league, teams, ranked + sorted), RowsOf(ms, league, teams, overall), ms, league,
                           TeamSet(teams), order[..i + 1])
  {
    hide TallyOf, FinalRow, SortedBy, IsRankedDownTo, RankKey, RowsOf;
    DistinctMultiset(group, sorted);
    SameMembers(group, sorted);
    RowsDistinct(ms, league, teams, sorted);
    SameRows(ms, league, teams, group, sorted);
    ExtendRanked(RowsOf(ms, league, teams, ranked), RowsOf(ms, league, teams, sorted),
                 RowsOf(ms, league, teams, overall), ms, league, TeamSet(teams), order, i);
    RowsConcat(ms, league, teams, ranked, sorted);
  }

  lemma RowsConcat(ms: seq<Played>, league: League, teams: seq<Team>, a: seq<nat>, b: seq<nat>)
    requires forall k :: 0 <= k < |a| ==> a[k] < |teams|
    requires forall k :: 0 <= k < |b| ==> b[k] < |teams|
    ensures forall k :: 0 <= k < |a + b| ==> (a + b)[k] < |teams|
    ensures RowsOf(ms, league, teams, a + b) == RowsOf(ms, league, teams, a) + RowsOf(ms, league, teams, b)
  {
    hide FinalRow;
  }

  lemma RowsDistinct(ms: seq<Played>, league: League, teams: seq<Team>, order: seq<nat>)
    requires Distinct(teams) && Distinct(order) && forall k :: 0 <= k < |order| ==> order[k] < |teams|
    ensures Distinct(RowsOf(ms, league, teams, order))
  {
    hide TallyOf;
    var rows := RowsOf(ms, league, teams, order);
    forall j, k | 0 <= j < k < |rows| ensures rows[j] != rows[k] {
      assert rows[j].team == teams[order[j]] && rows[k].team == teams[order[k]];
    }
  }

  lemma SameRows(ms: seq<Played>, league: League, teams: seq<Team>, a: seq<nat>, b: seq<nat>)
    requires forall k :: 0 <= k < |a| ==> a[k] < |teams|
    requires forall k :: 0 <= k < |b| ==> b[k] < |teams|
    requires forall i :: i in a <==> i in b
    ensures forall r :: r in RowsOf(ms, league, teams, a) <==> r in RowsOf(ms, league, teams, b)
  {
    hide FinalRow;
    var ra, rb := RowsOf(ms, league, teams, a), RowsOf(ms, league, teams, b);
    forall r | r in ra ensures r in rb {
      var k :| 0 <= k < |ra| && ra[k] == r;
      assert a[k] in a;
      var h :| 0 <= h < |b| && b[h] == a[k];
      assert rb[h] == r;
    }
    forall r | r in rb ensures r in ra {
      var k :| 0 <= k < |rb| && rb[k] == r;
      assert b[k] in b;
      var h :| 0 <= h < |a| && a[h] == b[k];
      assert ra[h] == r;
    }
  }

  /** Every level has been ranked: the order is complete, and it is the table. */
  lemma Everything(season: Season, run: Run, lines: seq<Line>, scores: seq<(int, int)>, overall: seq<nat>,
                   ranked: seq<nat>, order: seq<int>)
    requires Ready(season, run, lines, scores)
    requires multiset(overall) == multiset(Range(|season.teams|))
    requires forall k :: 0 <= k < |overall| ==> overall[k] < |season.teams|
    requires forall k :: 0 <= k < |ranked| ==> ranked[k] < |season.teams|
    requires forall i :: i in overall ==> PointsAt(lines)(i) in order
    requires var ms, league, teams := Results(season, run), season.league, season.teams;
      IsRankedDownTo(RowsOf(ms, league, teams, ranked), RowsOf(ms, league, teams, overall), ms, league,
                     Everyone(season), order)
    ensures multiset(ranked) == multiset(Range(|season.teams|))
    ensures IsStandings(RowsOf(Results(season, run), season.league, season.teams, ranked),
                        Results(season, run), season.league, Everyone(season))
  {
    hide TallyOf, Results, MatchesOf, AtLevel, SortedBy, Season.Valid, IsListing, FinalRow;
    var ms, league, teams := Results(season, run), season.league, season.teams;
    var rows, final := RowsOf(ms, league, teams, overall), RowsOf(ms, league, teams, ranked);
    ReadyTeams(season, run, lines, scores);
    OrderRows(overall, ms, league, teams);
    forall r | r in rows ensures r.points in order {
      var k :| 0 <= k < |rows| && rows[k] == r;
      assert overall[k] in overall;
      LinePoints(lines, ms, league, teams, overall[k]);
    }
    AllLevelsRanked(final, rows, ms, league, Everyone(season), order);
    RankedIndices(ms, league, teams, overall, ranked);
  }

  lemma LinePoints(lines: seq<Line>, ms: seq<Played>, league: League, teams: seq<Team>, i: nat)
    requires LinesMatch(lines, ms, league, teams) && i < |teams|
    ensures PointsAt(lines)(i) == FinalRow(ms, league, teams[i]).points
  {
    hide FinalRow;
  }

  lemma RankedIndices(ms: seq<Played>, league: League, teams: seq<Team>, overall: seq<nat>, ranked: seq<nat>)
    requires Distinct(teams) && multiset(overall) == multiset(Range(|teams|))
    requires forall k :: 0 <= k < |overall| ==> overall[k] < |teams|
    requires forall k :: 0 <= k < |ranked| ==> ranked[k] < |teams|
    requires Distinct(RowsOf(ms, league, teams, ranked))
    requires forall r :: r in RowsOf(ms, league, teams, ranked) <==> r in RowsOf(ms, league, teams, overall)
    ensures multiset(ranked) == multiset(Range(|teams|))
  {
    hide TallyOf;
    var ra, rb := RowsOf(ms, league, teams, overall), RowsOf(ms, league, teams, ranked);
    PermutationOfRange(overall, |teams|);
    forall j, k | 0 <= j < k < |ranked| ensures ranked[j] != ranked[k] {
      assert rb[j] != rb[k];
    }
    forall i | 0 <= i < |teams| ensures i in ranked {
      assert i in overall;
      var k :| 0 <= k < |overall| && overall[k] == i;
      assert ra[k] in ra && ra[k] in rb;
      var h :| 0 <= h < |rb| && rb[h] == ra[k];
      assert teams[ranked[h]] == teams[i];
    }
    forall i | i in ranked ensures 0 <= i < |teams| {
      var k :| 0 <= k < |ranked| && ranked[k] == i;
    }
    DistinctCounts(ranked);
    DistinctCounts(Range(|teams|));
    forall i ensures multiset(ranked)[i] == multiset(Range(|teams|))[i] {
      assert i in ranked <==> i in Range(|teams|) by {
        if 0 <= i < |teams| { assert Range(|teams|)[i] == i; }
      }
    }
  }
}
