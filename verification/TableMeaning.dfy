/** What a league table says, in figures read straight off the matches: every row's counts,
    and for any two rows which of them stands higher and why. */
module TableMeaning {
  import opened Prelude
  import opened Ordering
  import opened Pairs
  import opened Standings

  // ---------------------------------------------------------------------
  // A team's figures, match by match
  // ---------------------------------------------------------------------

  /** Goals the team scores in one match, from either side. */
  function ScoredIn(m: Played, t: Team): int {
    (if m.home == t then m.homeGoals else 0) + (if m.away == t then m.awayGoals else 0)
  }

  function ConcededIn(m: Played, t: Team): int {
    (if m.home == t then m.awayGoals else 0) + (if m.away == t then m.homeGoals else 0)
  }

  datatype Ending = Win | Draw | Loss

  /** How often the match ends that way for the team; twice at most, against itself. */
  function EndsIn(m: Played, t: Team, e: Ending): nat {
    var d := m.homeGoals - m.awayGoals;
    match e
    case Win => (if m.home == t && d > 0 then 1 else 0) + (if m.away == t && d < 0 then 1 else 0)
    case Draw => (if m.home == t && d == 0 then 1 else 0) + (if m.away == t && d == 0 then 1 else 0)
    case Loss => (if m.home == t && d < 0 then 1 else 0) + (if m.away == t && d > 0 then 1 else 0)
  }

  function Scored(ms: seq<Played>, t: Team): int {
    if ms == [] then 0 else Scored(ms[..|ms| - 1], t) + ScoredIn(ms[|ms| - 1], t)
  }

  function Conceded(ms: seq<Played>, t: Team): int {
    if ms == [] then 0 else Conceded(ms[..|ms| - 1], t) + ConcededIn(ms[|ms| - 1], t)
  }

  function Ends(ms: seq<Played>, t: Team, e: Ending): nat {
    if ms == [] then 0 else Ends(ms[..|ms| - 1], t, e) + EndsIn(ms[|ms| - 1], t, e)
  }

  function Earned(ms: seq<Played>, t: Team): int { 3 * Ends(ms, t, Win) + Ends(ms, t, Draw) }

  /** The matches between two teams of a group. */
  function Between(ms: seq<Played>, group: set<Team>): seq<Played> {
    if ms == [] then []
    else
      var m := ms[|ms| - 1];
      Between(ms[..|ms| - 1], group) + if m.home in group && m.away in group then [m] else []
  }

  /** Three points for each win, one for each draw, and every goal on the right side. */
  lemma {:induction false} TallyMeans(ms: seq<Played>, t: Team)
    ensures var d := TallyOf(ms, t);
      && d.won == Ends(ms, t, Win) && d.drawn == Ends(ms, t, Draw) && d.lost == Ends(ms, t, Loss)
      && d.played == d.won + d.drawn + d.lost && d.points == Earned(ms, t)
      && d.goalsFor == Scored(ms, t) && d.goalsAgainst == Conceded(ms, t)
  {
    hide Share, ScoredIn, ConcededIn, EndsIn;
    if ms != [] {
      TallyMeans(ms[..|ms| - 1], t);
      ShareMeans(ms[|ms| - 1], t);
    }
  }

  lemma ShareMeans(m: Played, t: Team)
    ensures var d := Share(m, t);
      && d.won == EndsIn(m, t, Win) && d.drawn == EndsIn(m, t, Draw) && d.lost == EndsIn(m, t, Loss)
      && d.played == d.won + d.drawn + d.lost && d.points == 3 * d.won + d.drawn
      && d.goalsFor == ScoredIn(m, t) && d.goalsAgainst == ConcededIn(m, t)
  {
    hide Side, When, EndsIn, ScoredIn, ConcededIn, Ended;
    SideMeans(m.home == t, m.homeGoals, m.awayGoals);
    SideMeans(m.away == t, m.awayGoals, m.homeGoals);
    EndsMeans(m, t);
    assert Share(m, t)
      == Plus(When(m.home == t, Side(m.homeGoals, m.awayGoals)), When(m.away == t, Side(m.awayGoals, m.homeGoals)));
  }

  /** One side's ending, from its own goals. */
  function Ended(plays: bool, scored: int, conceded: int, e: Ending): nat {
    if !plays then 0
    else if (match e case Win => scored > conceded case Draw => scored == conceded case Loss => scored < conceded)
    then 1 else 0
  }

  lemma EndsMeans(m: Played, t: Team)
    ensures forall e ::
      EndsIn(m, t, e)
      == Ended(m.home == t, m.homeGoals, m.awayGoals, e) + Ended(m.away == t, m.awayGoals, m.homeGoals, e)
    ensures ScoredIn(m, t) == (if m.home == t then m.homeGoals else 0) + (if m.away == t then m.awayGoals else 0)
    ensures ConcededIn(m, t) == (if m.home == t then m.awayGoals else 0) + (if m.away == t then m.homeGoals else 0)
  {
  }

  lemma SideMeans(plays: bool, scored: int, conceded: int)
    ensures var d := When(plays, Side(scored, conceded));
      && d.won == Ended(plays, scored, conceded, Win) && d.drawn == Ended(plays, scored, conceded, Draw)
      && d.lost == Ended(plays, scored, conceded, Loss) && d.played == d.won + d.drawn + d.lost
      && d.points == 3 * d.won + d.drawn
      && d.goalsFor == (if plays then scored else 0) && d.goalsAgainst == (if plays then conceded else 0)
  {
  }

  lemma {:induction false} BetweenIsScoped(ms: seq<Played>, group: set<Team>)
    ensures Scoped(ms, group) == Between(ms, group)
  {
    if ms != [] { BetweenIsScoped(ms[..|ms| - 1], group); }
  }

  // ---------------------------------------------------------------------
  // Which of two rows stands higher
  // ---------------------------------------------------------------------

  /** The first figure on which the two differ is greater in a. */
  predicate FirstGreater(a: seq<int>, b: seq<int>) {
    |a| == |b| && exists k :: 0 <= k < |a| && a[k] > b[k] && a[..k] == b[..k]
  }

  /** A figure a rule may name; points and head-to-head are settled before. */
  function Figure(c: Criterion, r: Row): int {
    match c
    case GoalDifference => r.goalDifference
    case GoalsFor => r.goalsFor
    case Wins => r.won
    case _ => 0
  }

  /** The figures a rule names after points, in its order. */
  function RuleFigures(rule: LeagueRule, r: Row): seq<int> {
    var criteria := if rule.primary == [] then [] else rule.primary[1..];
    seq(|criteria|, i requires 0 <= i < |criteria| => Figure(criteria[i], r))
  }

  /** Points, difference and goals in the group's own matches, then the overall figures. */
  function GroupFigures(ms: seq<Played>, group: set<Team>, r: Row): seq<int> {
    var own := Between(ms, group);
    [Earned(own, r.team), Scored(own, r.team) - Conceded(own, r.team), Scored(own, r.team),
     r.goalDifference, r.goalsFor, r.won]
  }

  /** Of two rows level on points, a stands above b. */
  ghost predicate Above(ms: seq<Played>, rule: LeagueRule, group: set<Team>, a: Row, b: Row) {
    var groupDecides := rule.headToHeadOnPoints && HeadToHeadComplete(ms, group);
    var x := if groupDecides then GroupFigures(ms, group, a) else RuleFigures(rule, a);
    var y := if groupDecides then GroupFigures(ms, group, b) else RuleFigures(rule, b);
    FirstGreater(x, y) || (x == y && NameBefore(a.team, b.team))
  }

  /** The teams of the rows on p points. */
  function OnPoints(ranked: seq<Row>, p: int): set<Team> { set r | r in ranked && r.points == p :: r.team }

  /** A row holds its team's figures. */
  ghost predicate HoldsFigures(r: Row, ms: seq<Played>, adjustment: int) {
    && r.won == Ends(ms, r.team, Win) && r.drawn == Ends(ms, r.team, Draw) && r.lost == Ends(ms, r.team, Loss)
    && r.played == r.won + r.drawn + r.lost
    && r.goalsFor == Scored(ms, r.team) && r.goalsAgainst == Conceded(ms, r.team)
    && r.goalDifference == Scored(ms, r.team) - Conceded(ms, r.team)
    && r.pointsAdjustment == adjustment && r.points == 3 * r.won + r.drawn + adjustment
  }

  ghost predicate IsLeagueTable(ranked: seq<Row>, ms: seq<Played>, league: League, population: set<Team>) {
    && (set r | r in ranked :: r.team) == population
    && (forall i, j :: 0 <= i < j < |ranked| ==> ranked[i].team != ranked[j].team)
    && (forall r :: r in ranked ==> HoldsFigures(r, ms, league.Adjustment(r.team)))
    && (forall i, j :: 0 <= i < j < |ranked| ==> ranked[i].points >= ranked[j].points)
    && (forall i, j :: 0 <= i < j < |ranked| && ranked[i].points == ranked[j].points ==>
          Above(ms, league.rule, OnPoints(ranked, ranked[i].points), ranked[i], ranked[j]))
  }

  // ---------------------------------------------------------------------
  // The sort keys say the same
  // ---------------------------------------------------------------------

  function Negated(figures: seq<int>): Key { seq(|figures|, i requires 0 <= i < |figures| => -figures[i]) }

  lemma {:induction false} NegatedFirst(a: seq<int>, b: seq<int>, x: Key, y: Key)
    requires |a| == |b| && KeyLe(Negated(a) + x, Negated(b) + y)
    ensures FirstGreater(a, b) || (a == b && KeyLe(x, y))
    decreases |a|
  {
    if a == [] {
      assert Negated(a) + x == x && Negated(b) + y == y;
    } else if a[0] == b[0] {
      assert (Negated(a) + x)[1..] == Negated(a[1..]) + x && (Negated(b) + y)[1..] == Negated(b[1..]) + y;
      NegatedFirst(a[1..], b[1..], x, y);
      assert a == [a[0]] + a[1..] && b == [b[0]] + b[1..];
      if FirstGreater(a[1..], b[1..]) { GreaterLater(a, b); }
    } else {
      assert a[0] > b[0] && a[..0] == b[..0];
    }
  }

  lemma GreaterLater(a: seq<int>, b: seq<int>)
    requires a != [] && b != [] && a[0] == b[0] && FirstGreater(a[1..], b[1..])
    ensures FirstGreater(a, b)
  {
    var k :| 0 <= k < |a| - 1 && a[1..][k] > b[1..][k] && a[1..][..k] == b[1..][..k];
    assert a[..k + 1] == [a[0]] + a[1..][..k] && b[..k + 1] == [b[0]] + b[1..][..k];
    assert a[k + 1] > b[k + 1];
  }

  function Listed(criteria: seq<Criterion>, r: Row): seq<int> {
    seq(|criteria|, i requires 0 <= i < |criteria| => Figure(criteria[i], r))
  }

  lemma {:induction false} CriteriaFirst(criteria: seq<Criterion>, a: Row, b: Row, x: Key, y: Key)
    requires KeyLe(CriteriaKey(criteria, a) + x, CriteriaKey(criteria, b) + y)
    ensures FirstGreater(Listed(criteria, a), Listed(criteria, b))
            || (Listed(criteria, a) == Listed(criteria, b) && KeyLe(x, y))
  {
    if criteria == [] {
      assert CriteriaKey(criteria, a) + x == x && CriteriaKey(criteria, b) + y == y;
    } else {
      var rest := criteria[1..];
      var p, q := CriteriaKey(criteria, a) + x, CriteriaKey(criteria, b) + y;
      var f, g := Listed(criteria, a), Listed(criteria, b);
      assert f[1..] == Listed(rest, a) && g[1..] == Listed(rest, b);
      if f[0] == g[0] {
        CriteriaTail(criteria, a, b, x, y);
        CriteriaFirst(rest, a, b, x, y);
        assert f == [f[0]] + f[1..] && g == [g[0]] + g[1..];
        if FirstGreater(f[1..], g[1..]) { GreaterLater(f, g); }
      } else {
        assert p != [] && q != [] && p[0] == -f[0] && q[0] == -g[0];
        assert f[0] > g[0] && f[..0] == g[..0];
      }
    }
  }

  /** A criterion on which two rows agree, or that names no figure, decides nothing. */
  lemma CriteriaTail(criteria: seq<Criterion>, a: Row, b: Row, x: Key, y: Key)
    requires criteria != [] && Figure(criteria[0], a) == Figure(criteria[0], b)
    requires KeyLe(CriteriaKey(criteria, a) + x, CriteriaKey(criteria, b) + y)
    ensures KeyLe(CriteriaKey(criteria[1..], a) + x, CriteriaKey(criteria[1..], b) + y)
  {
    hide KeyLe;
    var p, q := CriteriaKey(criteria, a) + x, CriteriaKey(criteria, b) + y;
    var p', q' := CriteriaKey(criteria[1..], a) + x, CriteriaKey(criteria[1..], b) + y;
    var head := [-Figure(criteria[0], a)];
    match criteria[0] {
      case GoalDifference => assert p == head + p' && q == head + q'; TailLe(head, p', q');
      case GoalsFor => assert p == head + p' && q == head + q'; TailLe(head, p', q');
      case Wins => assert p == head + p' && q == head + q'; TailLe(head, p', q');
      case _ => assert p == p' && q == q';
    }
  }

  // ---------------------------------------------------------------------
  // The ranked table
  // ---------------------------------------------------------------------

  lemma RowMeans(ms: seq<Played>, league: League, t: Team)
    ensures HoldsFigures(FinalRow(ms, league, t), ms, league.Adjustment(t))
  {
    TallyMeans(ms, t);
  }

  lemma GroupKey(ms: seq<Played>, group: set<Team>, r: Row)
    ensures HeadToHeadPrefix(MiniRow(ms, group, r.team), r) == Negated(GroupFigures(ms, group, r))
  {
    hide TallyOf, Scoped, Between;
    BetweenIsScoped(ms, group);
    TallyMeans(Scoped(ms, group), r.team);
  }

  lemma LevelIsOnPoints(ranked: seq<Row>, ms: seq<Played>, league: League, population: set<Team>, p: int)
    requires IsListing(ranked, ms, league, population)
    ensures Level(ms, league, population, p) == OnPoints(ranked, p)
  {
    hide TallyOf;
    forall t | t in Level(ms, league, population, p) ensures t in OnPoints(ranked, p) {
      assert FinalRow(ms, league, t) in ranked;
    }
  }

  /** Two rows in key order stand in the order their figures say. */
  lemma KeysMean(ranked: seq<Row>, ms: seq<Played>, league: League, population: set<Team>, a: Row, b: Row)
    requires IsListing(ranked, ms, league, population) && a in ranked && b in ranked && a.team != b.team
    requires KeyLe(RankKey(ms, league, population, a), RankKey(ms, league, population, b))
    ensures a.points >= b.points
    ensures a.points == b.points ==> Above(ms, league.rule, OnPoints(ranked, a.points), a, b)
  {
    hide IsListing, CriteriaKey, HeadToHeadPrefix, NameBefore, FirstGreater, HeadToHeadComplete, GroupFigures, NameKey,
         Level, OnPoints, KeyLe, MiniRow;
    var group := Level(ms, league, population, a.points);
    KeyLeHead(RankKey(ms, league, population, a), RankKey(ms, league, population, b));
    if a.points == b.points {
      LevelIsOnPoints(ranked, ms, league, population, a.points);
      TailLe([-a.points], LevelPrefix(ms, league, group, a) + NameKey(a.team),
             LevelPrefix(ms, league, group, b) + NameKey(b.team));
      if HeadToHeadApplies(ms, league, group) {
        GroupKey(ms, group, a);
        GroupKey(ms, group, b);
        NegatedFirst(GroupFigures(ms, group, a), GroupFigures(ms, group, b), NameKey(a.team), NameKey(b.team));
      } else {
        TwoOnLevel(ranked, ms, league, population, a, b);
        CriteriaFirst(if league.rule.primary == [] then [] else league.rule.primary[1..], a, b,
                      NameKey(a.team), NameKey(b.team));
      }
      if KeyLe(NameKey(a.team), NameKey(b.team)) { NameFirst(a.team, b.team); }
    }
  }

  lemma TailLe(head: Key, x: Key, y: Key)
    requires |head| == 1 && KeyLe(head + x, head + y)
    ensures KeyLe(x, y)
  {
    assert (head + x)[1..] == x && (head + y)[1..] == y;
  }

  lemma TwoOnLevel(ranked: seq<Row>, ms: seq<Played>, league: League, population: set<Team>, a: Row, b: Row)
    requires IsListing(ranked, ms, league, population) && a in ranked && b in ranked && a.team != b.team
    requires a.points == b.points
    ensures |Level(ms, league, population, a.points)| != 1
  {
    hide TallyOf;
    var group := Level(ms, league, population, a.points);
    var both := {a.team, b.team};
    assert both <= group;
    FullSubset(both, group);
    assert |both| == 2;
  }

  /** The table the engine builds is the league table: every row's figures are right, more
      points stand higher, and level teams are separated by the first figure of the rule on
      which they differ, or else by name. */
  lemma StandingsMean(ranked: seq<Row>, ms: seq<Played>, league: League, population: set<Team>)
    requires IsStandings(ranked, ms, league, population)
    ensures IsLeagueTable(ranked, ms, league, population)
  {
    hide TallyOf, RankKey, KeyLe, Above, HoldsFigures;
    forall r | r in ranked ensures HoldsFigures(r, ms, league.Adjustment(r.team)) { RowMeans(ms, league, r.team); }
    forall t | t in population ensures t in (set r | r in ranked :: r.team) {
      assert FinalRow(ms, league, t) in ranked && FinalRow(ms, league, t).team == t;
    }
    forall i, j | 0 <= i < j < |ranked|
      ensures ranked[i].team != ranked[j].team && ranked[i].points >= ranked[j].points
      ensures ranked[i].points == ranked[j].points ==>
        Above(ms, league.rule, OnPoints(ranked, ranked[i].points), ranked[i], ranked[j])
    {
      assert ranked[i] in ranked && ranked[j] in ranked;
      KeysMean(ranked, ms, league, population, ranked[i], ranked[j]);
    }
  }
}
