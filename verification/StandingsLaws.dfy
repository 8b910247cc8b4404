/** What the league table promises about itself: it does not depend on the order of
    the match rows, it conserves wins, goals and points, and its head-to-head test
    means what it says. */
module StandingsLaws {
  import opened Prelude
  import opened Ordering
  import opened Standings
  import opened Pairs

  // ---------------------------------------------------------------------
  // The order of the match rows is irrelevant
  // ---------------------------------------------------------------------

  lemma PlusAssociative(a: Tally, b: Tally, c: Tally)
    ensures Plus(Plus(a, b), c) == Plus(a, Plus(b, c)) && Plus(a, b) == Plus(b, a) && Plus(a, ZERO) == a
  {
  }

  lemma {:induction false} TallyAppend(a: seq<Played>, b: seq<Played>, t: Team)
    ensures TallyOf(a + b, t) == Plus(TallyOf(a, t), TallyOf(b, t))
  {
    if b == [] {
      assert a + b == a;
      PlusAssociative(TallyOf(a, t), ZERO, ZERO);
    } else {
      var init, last := b[..|b| - 1], b[|b| - 1];
      AppendInit(a, b);
      TallyAppend(a, init, t);
      PlusAssociative(TallyOf(a, t), TallyOf(init, t), Share(last, t));
    }
  }

  lemma {:induction false} ScopedAppend(a: seq<Played>, b: seq<Played>, teams: set<Team>)
    ensures Scoped(a + b, teams) == Scoped(a, teams) + Scoped(b, teams)
  {
    if b == [] {
      assert a + b == a;
    } else {
      AppendInit(a, b);
      ScopedAppend(a, b[..|b| - 1], teams);
    }
  }

  lemma {:induction false} CompletedAppend(a: seq<Fixture>, b: seq<Fixture>)
    ensures Completed(a + b) == Completed(a) + Completed(b)
  {
    if b == [] {
      assert a + b == a;
    } else {
      AppendInit(a, b);
      CompletedAppend(a, b[..|b| - 1]);
    }
  }

  lemma One(m: Played, t: Team, teams: set<Team>)
    ensures TallyOf([m], t) == Share(m, t)
    ensures Scoped([m], teams) == Among(m, teams)
  {
    hide Share, Among;
    assert [m][..0] == [];
    PlusAssociative(Share(m, t), ZERO, ZERO);
    assert TallyOf([m], t) == Plus(TallyOf([m][..0], t), Share(m, t));
    assert Scoped([m], teams) == Scoped([m][..0], teams) + Among(m, teams);
  }

  lemma {:induction false} TallyPermutes(a: seq<Played>, b: seq<Played>, t: Team)
    requires multiset(a) == multiset(b)
    ensures TallyOf(a, t) == TallyOf(b, t)
    decreases |a|
  {
    SameMembers(a, b);
    if a != [] {
      var p, x, q := TakeOut(a, b);
      TallyPermutes(a[..|a| - 1], p + q, t);
      TallyAppend(p, q, t);
      TallyAppend(p, [x] + q, t);
      TallyAppend([x], q, t);
      One(x, t, {});
      PlusAssociative(TallyOf(p, t), TallyOf(q, t), Share(x, t));
      PlusAssociative(TallyOf(q, t), Share(x, t), ZERO);
    }
  }

  lemma {:induction false} ScopedPermutes(a: seq<Played>, b: seq<Played>, teams: set<Team>)
    requires multiset(a) == multiset(b)
    ensures multiset(Scoped(a, teams)) == multiset(Scoped(b, teams))
    decreases |a|
  {
    SameMembers(a, b);
    if a != [] {
      var p, x, q := TakeOut(a, b);
      ScopedPermutes(a[..|a| - 1], p + q, teams);
      ScopedAppend(p, q, teams);
      ScopedAppend(p, [x] + q, teams);
      ScopedAppend([x], q, teams);
      One(x, "", teams);
    }
  }

  lemma {:induction false} CompletedPermutes(a: seq<Fixture>, b: seq<Fixture>)
    requires multiset(a) == multiset(b)
    ensures multiset(Completed(a)) == multiset(Completed(b))
    decreases |a|
  {
    SameMembers(a, b);
    if a != [] {
      var p, x, q := TakeOut(a, b);
      CompletedPermutes(a[..|a| - 1], p + q);
      CompletedAppend(p, q);
      CompletedAppend(p, [x] + q);
      CompletedAppend([x], q);
      assert [x][..0] == [];
      assert Completed([x]) == Observed(x);
    }
  }

  lemma LevelPermutes(a: seq<Played>, b: seq<Played>, league: League, population: set<Team>, p: int)
    requires multiset(a) == multiset(b)
    ensures Level(a, league, population, p) == Level(b, league, population, p)
  {
    hide TallyOf;
    forall t ensures FinalRow(a, league, t) == FinalRow(b, league, t) { TallyPermutes(a, b, t); }
  }

  lemma PairsPermute(a: seq<Played>, b: seq<Played>)
    requires multiset(a) == multiset(b)
    ensures PairsOf(a) == PairsOf(b)
  {
    SameMembers(a, b);
  }

  /** The rank key of a row sees the matches only as a collection. */
  lemma RankKeyPermutes(a: seq<Played>, b: seq<Played>, league: League, population: set<Team>, row: Row)
    requires multiset(a) == multiset(b)
    ensures RankKey(a, league, population, row) == RankKey(b, league, population, row)
  {
    LevelPermutes(a, b, league, population, row.points);
    var level := Level(a, league, population, row.points);
    ScopedPermutes(a, b, level);
    PairsPermute(Scoped(a, level), Scoped(b, level));
    TallyPermutes(Scoped(a, level), Scoped(b, level), row.team);
    assert MiniRow(a, level, row.team) == MiniRow(b, level, row.team);
    assert LevelPrefix(a, league, level, row) == LevelPrefix(b, league, level, row);
  }

  lemma StandingsPermute(ranked: seq<Row>, a: seq<Played>, b: seq<Played>, league: League, population: set<Team>)
    requires multiset(a) == multiset(b)
    requires IsStandings(ranked, b, league, population)
    ensures IsStandings(ranked, a, league, population)
  {
    hide TallyOf, RankKey;
    forall t ensures FinalRow(a, league, t) == FinalRow(b, league, t) { TallyPermutes(a, b, t); }
    var ka, kb := Ranker(a, league, population), Ranker(b, league, population);
    forall i, j | 0 <= i < j < |ranked|
      ensures KeyLe(ka(ranked[i]), ka(ranked[j]))
    {
      RankKeyPermutes(a, b, league, population, ranked[i]);
      RankKeyPermutes(a, b, league, population, ranked[j]);
      assert KeyLe(kb(ranked[i]), kb(ranked[j]));
    }
  }

  /** Every permutation of the match rows gives the same rows in the same order,
      under either ranking rule. */
  lemma RowOrderIrrelevant(fs: seq<Fixture>, gs: seq<Fixture>, league: League, names: seq<Team>,
                           ranked: seq<Row>, reranked: seq<Row>)
    requires multiset(fs) == multiset(gs)
    requires IsStandings(ranked, Completed(fs), league, Population(fs, names))
    requires IsStandings(reranked, Completed(gs), league, Population(gs, names))
    ensures ranked == reranked
  {
    hide TallyOf, IsStandings;
    var a, b := Completed(fs), Completed(gs);
    CompletedPermutes(fs, gs);
    SameMembers(a, b);
    assert Population(fs, names) == Population(gs, names);
    StandingsPermute(reranked, a, b, league, Population(fs, names));
    StandingsUnique(ranked, reranked, a, league, Population(fs, names));
  }

  // ---------------------------------------------------------------------
  // Conservation
  // ---------------------------------------------------------------------

  function Total(ranked: seq<Row>): Row {
    if ranked == [] then Blank("")
    else
      var a, b := Total(ranked[..|ranked| - 1]), ranked[|ranked| - 1];
      Row("", a.played + b.played, a.won + b.won, a.drawn + b.drawn, a.lost + b.lost,
          a.goalsFor + b.goalsFor, a.goalsAgainst + b.goalsAgainst,
          a.goalDifference + b.goalDifference,
          a.pointsAdjustment + b.pointsAdjustment, a.points + b.points)
  }

  function TotalTally(names: seq<Team>, ms: seq<Played>): Tally {
    if names == [] then ZERO
    else Plus(TotalTally(names[..|names| - 1], ms), TallyOf(ms, names[|names| - 1]))
  }

  function TotalShare(names: seq<Team>, m: Played): Tally {
    if names == [] then ZERO
    else Plus(TotalShare(names[..|names| - 1], m), Share(m, names[|names| - 1]))
  }

  function Draws(ms: seq<Played>): nat {
    if ms == [] then 0
    else Draws(ms[..|ms| - 1]) + if ms[|ms| - 1].homeGoals == ms[|ms| - 1].awayGoals then 1 else 0
  }

  /** Over distinct names the shares of one match add up to its two sides. */
  lemma {:induction false} TotalShareIs(names: seq<Team>, m: Played)
    requires Distinct(names)
    ensures TotalShare(names, m) ==
            Plus(When(m.home in names, Side(m.homeGoals, m.awayGoals)),
                 When(m.away in names, Side(m.awayGoals, m.homeGoals)))
  {
    hide Side, Plus, Distinct;
    if names == [] {
      assert Plus(ZERO, ZERO) == ZERO by { PlusAssociative(ZERO, ZERO, ZERO); }
    } else {
      var n := |names| - 1;
      DistinctLast(names, m.home);
      TotalShareIs(names[..n], m);
      DistinctLast(names, m.home);
      DistinctLast(names, m.away);
      Interleave(m.home in names[..n], m.home == names[n], Side(m.homeGoals, m.awayGoals),
                 m.away in names[..n], m.away == names[n], Side(m.awayGoals, m.homeGoals));
    }
  }

  lemma DistinctLast(names: seq<Team>, t: Team)
    requires Distinct(names) && names != []
    ensures Distinct(names[..|names| - 1])
    ensures t in names <==> t in names[..|names| - 1] || t == names[|names| - 1]
    ensures !(t in names[..|names| - 1] && t == names[|names| - 1])
  {
    assert names == names[..|names| - 1] + [names[|names| - 1]];
  }

  lemma Interleave(b: bool, c: bool, h: Tally, d: bool, e: bool, a: Tally)
    requires !(b && c) && !(d && e)
    ensures Plus(Plus(When(b, h), When(d, a)), Plus(When(c, h), When(e, a)))
            == Plus(When(b || c, h), When(d || e, a))
  {
  }

  lemma {:induction false} TotalTallySnoc(names: seq<Team>, ms: seq<Played>)
    requires ms != []
    ensures TotalTally(names, ms) == Plus(TotalTally(names, ms[..|ms| - 1]), TotalShare(names, ms[|ms| - 1]))
  {
    if names != [] { TotalTallySnoc(names[..|names| - 1], ms); }
  }

  lemma {:induction false} TotalTallyEmpty(names: seq<Team>)
    ensures TotalTally(names, []) == ZERO
  {
    if names != [] { TotalTallyEmpty(names[..|names| - 1]); }
  }

  lemma {:induction false} Conserved(names: seq<Team>, ms: seq<Played>)
    requires Distinct(names) && forall m :: m in ms ==> m.home in names && m.away in names
    ensures Balanced(TotalTally(names, ms), |ms|, Draws(ms))
  {
    if ms == [] {
      TotalTallyEmpty(names);
    } else {
      var n := |ms| - 1;
      assert ms[n] in ms;
      forall m | m in ms[..n] ensures m in ms {}
      Conserved(names, ms[..n]);
      TotalTallySnoc(names, ms);
      TotalShareIs(names, ms[n]);
      ConservedStep(TotalTally(names, ms[..n]), ms[n], n, Draws(ms[..n]));
    }
  }

  ghost predicate Balanced(d: Tally, matches: int, draws: int) {
    && d.won == d.lost == matches - draws && d.drawn == 2 * draws
    && d.goalsFor == d.goalsAgainst && d.played == 2 * matches
    && d.points == 3 * (matches - draws) + 2 * draws
  }

  lemma ConservedStep(d: Tally, m: Played, matches: int, draws: int)
    requires Balanced(d, matches, draws)
    ensures Balanced(Plus(d, Plus(Side(m.homeGoals, m.awayGoals), Side(m.awayGoals, m.homeGoals))),
                     matches + 1, draws + if m.homeGoals == m.awayGoals then 1 else 0)
  {
  }

  lemma {:induction false} TotalOfRows(ranked: seq<Row>, ms: seq<Played>, league: League)
    requires forall r :: r in ranked ==> r == FinalRow(ms, league, r.team)
    ensures var t, d := Total(ranked), TotalTally(Names(ranked), ms);
      && t.won == d.won && t.lost == d.lost && t.drawn == d.drawn && t.played == d.played
      && t.goalDifference == d.goalsFor - d.goalsAgainst
      && t.points - t.pointsAdjustment == d.points
  {
    if ranked != [] {
      var n := |ranked| - 1;
      assert ranked[n] in ranked;
      TotalOfRows(ranked[..n], ms, league);
      assert Names(ranked)[..n] == Names(ranked[..n]);
    }
  }

  /** In every league table: wins equal losses, goal differences cancel, and the points
      before adjustment are three per decisive match and two per draw. */
  lemma TableConserves(ranked: seq<Row>, fixtures: seq<Fixture>, league: League, names: seq<Team>)
    requires IsStandings(ranked, Completed(fixtures), league, Population(fixtures, names))
    ensures var t, ms := Total(ranked), Completed(fixtures);
      && t.won == t.lost && t.goalDifference == 0 && t.played == 2 * |ms|
      && t.points - t.pointsAdjustment == 3 * (|ms| - Draws(ms)) + 2 * Draws(ms)
  {
    var ms := Completed(fixtures);
    var teams := Names(ranked);
    forall i, j | 0 <= i < j < |teams|
      ensures teams[i] != teams[j]
    {
      assert ranked[i] in ranked && ranked[j] in ranked;
    }
    forall m, t | m in ms && (t == m.home || t == m.away)
      ensures t in teams
    {
      assert t in Sides(ms);
      RowOf(ranked, ms, league, Population(fixtures, names), t);
    }
    Conserved(teams, ms);
    TotalOfRows(ranked, ms, league);
  }

  lemma RowOf(ranked: seq<Row>, ms: seq<Played>, league: League, population: set<Team>, t: Team)
    requires IsListing(ranked, ms, league, population) && t in population
    ensures t in Names(ranked)
  {
    var i :| 0 <= i < |ranked| && ranked[i] == FinalRow(ms, league, t);
    assert Names(ranked)[i] == t;
  }

  // ---------------------------------------------------------------------
  // The head-to-head completeness test
  // ---------------------------------------------------------------------

  ghost predicate EveryPairPlayed(ms: seq<Played>, teams: set<Team>) {
    forall a, b :: a in teams && b in teams && a != b ==> (a, b) in PairsOf(ms)
  }

  lemma ScopedPairs(ms: seq<Played>, teams: set<Team>)
    ensures forall a, b :: (a, b) in PairsOf(Scoped(ms, teams)) <==> (a, b) in PairsOf(ms) && a in teams && b in teams
  {
    ScopedSides(ms, teams);
    forall a, b | (a, b) in PairsOf(ms) && a in teams && b in teams
      ensures (a, b) in PairsOf(Scoped(ms, teams))
    {
      var m :| m in ms && (m.home, m.away) == (a, b);
      assert m in Scoped(ms, teams);
    }
    forall a, b | (a, b) in PairsOf(Scoped(ms, teams))
      ensures (a, b) in PairsOf(ms) && a in teams && b in teams
    {
      var m :| m in Scoped(ms, teams) && (m.home, m.away) == (a, b);
    }
  }

  /** Matches a team of the group played against itself. */
  ghost function SelfPairs(ms: seq<Played>, teams: set<Team>): set<(Team, Team)> {
    set t | t in teams && (t, t) in PairsOf(ms) :: (t, t)
  }

  /** Ordered pairs of the group that were never played. */
  ghost function MissingPairs(ms: seq<Played>, teams: set<Team>): set<(Team, Team)> {
    OffDiagonal(teams) - PairsOf(ms)
  }

  lemma MissingNone(ms: seq<Played>, teams: set<Team>)
    ensures EveryPairPlayed(ms, teams) <==> MissingPairs(ms, teams) == {}
  {
    if MissingPairs(ms, teams) == {} {
      forall a, b | a in teams && b in teams && a != b ensures (a, b) in PairsOf(ms) {
        assert (a, b) in OffDiagonal(teams);
        assert (a, b) !in MissingPairs(ms, teams);
      }
    }
  }

  /** What the test counts: all pairs of the group, less the missing ones, plus the
      self-fixtures. */
  lemma CountedPairs(ms: seq<Played>, teams: set<Team>)
    ensures |PairsOf(Scoped(ms, teams))|
      == |teams| * (|teams| - 1) - |MissingPairs(ms, teams)| + |SelfPairs(ms, teams)|
  {
    hide PairsOf, Scoped;
    var pairs, self, missing := PairsOf(Scoped(ms, teams)), SelfPairs(ms, teams), MissingPairs(ms, teams);
    ScopedPairs(ms, teams);
    OffDiagonalSize(teams);
    forall p ensures p in pairs - self <==> p in OffDiagonal(teams) - missing {
      assert p in pairs <==> (p.0, p.1) in PairsOf(ms) && p.0 in teams && p.1 in teams;
      assert p in self <==> p.0 == p.1 && p.0 in teams && (p.0, p.0) in PairsOf(ms);
    }
    assert pairs - self == OffDiagonal(teams) - missing;
    assert self <= pairs && missing <= OffDiagonal(teams);
    assert pairs == (pairs - self) + self;
    assert OffDiagonal(teams) == (OffDiagonal(teams) - missing) + missing;
  }

  /** The test passes exactly when there are as many self-fixtures as missing pairs. */
  lemma HeadToHeadCompleteCounts(ms: seq<Played>, teams: set<Team>)
    requires |teams| >= 2
    ensures HeadToHeadComplete(ms, teams) <==> |SelfPairs(ms, teams)| == |MissingPairs(ms, teams)|
  {
    hide SelfPairs, MissingPairs, PairsOf, Scoped;
    CountedPairs(ms, teams);
  }

  /** So it is right exactly when the group holds no self-fixture, or when pairs are missing
      and their number differs from that of the self-fixtures. */
  lemma HeadToHeadCompleteIff(ms: seq<Played>, teams: set<Team>)
    requires |teams| >= 2
    ensures (HeadToHeadComplete(ms, teams) <==> EveryPairPlayed(ms, teams)) <==>
      var self, missing := |SelfPairs(ms, teams)|, |MissingPairs(ms, teams)|;
      self == 0 || (missing != 0 && missing != self)
  {
    hide SelfPairs, HeadToHeadComplete, EveryPairPlayed;
    HeadToHeadCompleteCounts(ms, teams);
    MissingNone(ms, teams);
  }

  /** In particular the count decides completeness when no team of the group played itself. */
  lemma CompleteWithoutSelfFixtures(ms: seq<Played>, teams: set<Team>)
    requires forall t :: t in teams ==> (t, t) !in PairsOf(ms)
    ensures HeadToHeadComplete(ms, teams) <==> EveryPairPlayed(ms, teams)
  {
    hide HeadToHeadComplete, EveryPairPlayed, PairsOf;
    if |teams| < 2 {
      SmallGroupsPass(ms, teams);
    } else {
      assert SelfPairs(ms, teams) == {};
      HeadToHeadCompleteIff(ms, teams);
    }
  }

  /** Groups of fewer than two teams pass, and have nothing to play. */
  lemma SmallGroupsPass(ms: seq<Played>, teams: set<Team>)
    requires |teams| < 2
    ensures HeadToHeadComplete(ms, teams) && EveryPairPlayed(ms, teams)
  {
    forall a, b | a in teams && b in teams ensures a == b { FullSubset({a, b}, teams); }
  }

  /** A self-fixture fools the count: B against A was never played, yet the test passes. */
  lemma SelfFixtureFoolsTheCount()
    ensures var ms := [Played("A", "A", 0, 0), Played("A", "B", 1, 0)];
      HeadToHeadComplete(ms, {"A", "B"}) && !EveryPairPlayed(ms, {"A", "B"})
  {
    var ms := [Played("A", "A", 0, 0), Played("A", "B", 1, 0)];
    var teams := {"A", "B"};
    assert "A"[0] != "B"[0];
    ScopedPairs(ms, teams);
    assert ms[0] in ms && ms[1] in ms;
    assert PairsOf(Scoped(ms, teams)) == {("A", "A"), ("A", "B")};
    assert ("B", "A") !in PairsOf(ms);
    assert |teams| == 2;
  }

  /** The opposite failure: both meetings were played, yet a self-fixture makes the test
      call the group incomplete. */
  lemma SelfFixtureHidesACompleteGroup()
    ensures var ms := [Played("A", "A", 0, 0), Played("A", "B", 1, 0), Played("B", "A", 0, 0)];
      !HeadToHeadComplete(ms, {"A", "B"}) && EveryPairPlayed(ms, {"A", "B"})
  {
    hide PairsOf, HeadToHeadComplete, Scoped;
    var ms := [Played("A", "A", 0, 0), Played("A", "B", 1, 0), Played("B", "A", 0, 0)];
    var teams := {"A", "B"};
    assert "A"[0] != "B"[0];
    assert |teams| == 2;
    assert ("A", "A") in PairsOf(ms) && ("A", "B") in PairsOf(ms) && ("B", "A") in PairsOf(ms) by {
      PlayedPairs(ms, 0);
      PlayedPairs(ms, 1);
      PlayedPairs(ms, 2);
    }
    MissingNone(ms, teams);
    assert ("A", "A") in SelfPairs(ms, teams);
    HeadToHeadCompleteIff(ms, teams);
  }

  lemma PlayedPairs(ms: seq<Played>, i: nat)
    requires i < |ms|
    ensures (ms[i].home, ms[i].away) in PairsOf(ms)
  {
    assert ms[i] in ms;
  }
}
