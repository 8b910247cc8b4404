/** From a loaded schedule to a season fit to simulate: the gates, forced results, and why
    both leave a double round robin whose declared results are real ones. */
module Scenario {
  import opened Prelude
  import opened Ordering
  import opened Pairs
  import opened Standings
  import opened Schedule
  import opened SeasonRuns

  datatype Entry = Entry(id: string, listed: Listed)

  function RowsIn(schedule: seq<Entry>): seq<Listed> {
    seq(|schedule|, i requires 0 <= i < |schedule| => schedule[i].listed)
  }

  // ---------------------------------------------------------------------
  // The gates in front of the simulation
  // ---------------------------------------------------------------------

  /** The certificate checks that block a projection. */
  predicate Admitted(c: Certificate) {
    c.futureCompletedResults == 0 && c.pastResultGaps == 0 && c.completeFixtureList && c.incompleteFixtures > 0
  }

  /** The simulator takes a row for played when it is declared complete; the table counts
      only rows that also carry both scores.  The two agree on such a schedule. */
  ghost predicate PlayedIsScored(matches: seq<Listed>) {
    forall m :: m in matches && m.isComplete ==> HasResult(m)
  }

  /** A row the past-gap count misses: declared complete without a score, and not before the
      cutoff.  A row without a kickoff is missed too, but belongs to no season, so only a
      direct call of the certificate can meet it. */
  predicate Unseen(m: Listed, asOf: int) {
    m.isComplete && !HasResult(m) && (m.kickoff.None? || m.kickoff.value >= asOf)
  }

  /** The gates make played the same as scored exactly when no such row is listed. */
  lemma GatesSeeScores(matches: seq<Listed>, expectedTeams: nat, asOf: int)
    requires CertifySchedule(matches, expectedTeams, asOf).pastResultGaps == 0
    ensures PlayedIsScored(matches) <==> forall m :: m in matches ==> !Unseen(m, asOf)
  {
    hide CountWhere;
    forall m | m in matches ensures !PastGap(asOf)(m) {}
  }

  /** Such a schedule can be admitted: two teams, one match declared complete in the future
      without a score. */
  lemma UnseenRowIsAdmitted()
    ensures exists matches: seq<Listed>, asOf :: Admitted(CertifySchedule(matches, 2, asOf)) && !PlayedIsScored(matches)
  {
    hide Present, CountWhere, CertifySchedule;
    var x := Listed(Some("A"), Some("B"), true, None, None, Some(2));
    var y := Listed(Some("B"), Some("A"), false, None, None, Some(2));
    var matches := [x, y];
    TwoTeams(matches);
    CertifiedIff(matches, 2, 1);
    var c := CertifySchedule(matches, 2, 1);
    assert c.teams == {"A", "B"} by { TwoTeamNames(matches); }
    GateCounts(matches);
    assert x in matches;
  }

  lemma TwoTeams(matches: seq<Listed>)
    requires |matches| == 2
    requires matches[0].home == Some("A") && matches[0].away == Some("B")
    requires matches[1].home == Some("B") && matches[1].away == Some("A")
    ensures IsFullSchedule(matches, 2, {"A", "B"})
  {
    var pairs := PairsListed(matches);
    assert "A" != "B";
    assert pairs == [("A", "B"), ("B", "A")];
    assert OffDiagonal({"A", "B"}) == {("A", "B"), ("B", "A")};
    assert |{"A", "B"}| == 2;
    assert (set p | p in pairs) == {("A", "B"), ("B", "A")};
  }

  lemma TwoTeamNames(matches: seq<Listed>)
    requires |matches| == 2 && IsFullSchedule(matches, 2, {"A", "B"})
    requires matches[0].home == Some("A") && matches[0].away == Some("B")
    requires matches[1].home == Some("B") && matches[1].away == Some("A")
    ensures CertifySchedule(matches, 2, 1).teams == {"A", "B"}
  {
    hide CountWhere, Zip, IsDoubleRoundRobin, PairsListed;
    var home, away := Homes(matches), Aways(matches);
    assert Present(home) == ["A", "B"] && Present(away) == ["B", "A"];
  }

  lemma GateCounts(matches: seq<Listed>)
    requires |matches| == 2 && !HasResult(matches[0]) && !HasResult(matches[1])
    requires matches[0].kickoff == matches[1].kickoff == Some(2)
    ensures var c := CertifySchedule(matches, 2, 1);
      c.futureCompletedResults == 0 && c.pastResultGaps == 0 && c.incompleteFixtures > 0
  {
    hide Present, Zip;
    assert matches[0] in matches && Lacking()(matches[0]);
  }

  // ---------------------------------------------------------------------
  // Forced results
  // ---------------------------------------------------------------------

  /** One what-if item; a score that is missing or not an integer is None. */
  datatype Forced = Forced(id: string, home: Option<int>, away: Option<int>)

  datatype Fault = TooMany | BadId | NotInteger | OutOfRange | NotInSeason | NotFuture

  const MAX_FORCED: nat := 12

  predicate InRange(score: Option<int>) { score.Some? && 0 <= score.value <= 20 }

  function IdCount(schedule: seq<Entry>, id: string): nat {
    if schedule == [] then 0
    else IdCount(schedule[..|schedule| - 1], id) + if schedule[|schedule| - 1].id == id then 1 else 0
  }

  /** An unplayed match after the cutoff. */
  predicate StillOpen(m: Listed, asOf: int) {
    !m.isComplete && !(m.kickoff.Some? && m.kickoff.value <= asOf)
  }

  /** The item names exactly one row of the season, which is still open. */
  ghost predicate Forcible(schedule: seq<Entry>, item: Forced, asOf: int) {
    && item.id != "" && InRange(item.home) && InRange(item.away) && IdCount(schedule, item.id) == 1
    && forall i :: 0 <= i < |schedule| && schedule[i].id == item.id ==> StillOpen(schedule[i].listed, asOf)
  }

  ghost predicate IdsDistinct(forced: seq<Forced>) {
    forall i, j :: 0 <= i < j < |forced| ==> forced[i].id != forced[j].id
  }

  /** Everything a request must meet, judged against the schedule as loaded. */
  ghost predicate Acceptable(schedule: seq<Entry>, forced: seq<Forced>, asOf: int) {
    && |forced| <= MAX_FORCED && IdsDistinct(forced)
    && forall k :: 0 <= k < |forced| ==> Forcible(schedule, forced[k], asOf)
  }

  function Settled(m: Listed, item: Forced): Listed {
    m.(isComplete := true, homeScore := item.home, awayScore := item.away)
  }

  function WithScore(e: Entry, item: Forced): Entry {
    if e.id == item.id then e.(listed := Settled(e.listed, item)) else e
  }

  function EntryAfter(e: Entry, forced: seq<Forced>): Entry {
    if forced == [] then e else WithScore(EntryAfter(e, forced[..|forced| - 1]), forced[|forced| - 1])
  }

  /** The schedule with every forced score filled in. */
  function After(schedule: seq<Entry>, forced: seq<Forced>): (r: seq<Entry>)
    ensures |r| == |schedule|
  {
    seq(|schedule|, i requires 0 <= i < |schedule| => EntryAfter(schedule[i], forced))
  }

  lemma {:induction false} EntryKeeps(e: Entry, forced: seq<Forced>)
    ensures var r := EntryAfter(e, forced);
      && r.id == e.id && r.listed.home == e.listed.home && r.listed.away == e.listed.away
      && r.listed.kickoff == e.listed.kickoff
      && ((forall k :: 0 <= k < |forced| ==> forced[k].id != e.id) ==> r == e)
  {
    if forced != [] { EntryKeeps(e, forced[..|forced| - 1]); }
  }

  /** A forced fixture carries the scores asked for, whatever else is forced. */
  lemma {:induction false} EntryForced(e: Entry, forced: seq<Forced>, k: nat)
    requires IdsDistinct(forced) && k < |forced| && forced[k].id == e.id
    ensures EntryAfter(e, forced) == WithScore(e, forced[k])
    ensures var m := EntryAfter(e, forced).listed;
      m.isComplete && m.homeScore == forced[k].home && m.awayScore == forced[k].away
  {
    var n := |forced| - 1;
    if k == n {
      EntryKeeps(e, forced[..n]);
    } else {
      EntryForced(e, forced[..n], k);
    }
  }

  lemma {:induction false} SameIdCount(a: seq<Entry>, b: seq<Entry>, id: string)
    requires |a| == |b| && forall i :: 0 <= i < |a| ==> a[i].id == b[i].id
    ensures IdCount(a, id) == IdCount(b, id)
  {
    if a != [] { SameIdCount(a[..|a| - 1], b[..|b| - 1], id); }
  }

  lemma {:induction false} OnlyRow(schedule: seq<Entry>, id: string, i: nat, j: nat)
    requires i < j < |schedule| && schedule[i].id == schedule[j].id == id
    ensures IdCount(schedule, id) >= 2
  {
    var n := |schedule| - 1;
    if j < n { OnlyRow(schedule[..n], id, i, j); } else { SomeRow(schedule[..n], id, i); }
  }

  lemma {:induction false} SomeRow(schedule: seq<Entry>, id: string, i: nat)
    requires i < |schedule| && schedule[i].id == id
    ensures IdCount(schedule, id) >= 1
  {
    var n := |schedule| - 1;
    if i < n { SomeRow(schedule[..n], id, i); }
  }

  /** The count and the first position of the rows with an id. */
  method Locate(schedule: seq<Entry>, id: string) returns (count: nat, at: nat)
    ensures count == IdCount(schedule, id)
    ensures count > 0 ==> at < |schedule| && schedule[at].id == id
    ensures count == 1 ==> forall i :: 0 <= i < |schedule| && schedule[i].id == id ==> i == at
  {
    hide IdCount;
    count, at := 0, 0;
    assert IdCount([], id) == 0 by { NoRows(id); }
    for i := 0 to |schedule|
      invariant count == IdCount(schedule[..i], id)
      invariant count > 0 ==> at < i && schedule[at].id == id
    {
      CountRow(schedule, i, id);
      if schedule[i].id == id {
        if count == 0 { at := i; }
        count := count + 1;
      }
    }
    assert schedule[..|schedule|] == schedule;
    if count == 1 {
      forall i | 0 <= i < |schedule| && schedule[i].id == id ensures i == at {
        if i < at { OnlyRow(schedule, id, i, at); }
        if at < i { OnlyRow(schedule, id, at, i); }
      }
    }
  }

  lemma NoRows(id: string)
    ensures IdCount([], id) == 0
  {
  }

  lemma CountRow(schedule: seq<Entry>, i: nat, id: string)
    requires i < |schedule|
    ensures IdCount(schedule[..i + 1], id) == IdCount(schedule[..i], id) + if schedule[i].id == id then 1 else 0
  {
    assert schedule[..i + 1][..i] == schedule[..i];
  }

  /** Everything the loop has checked so far, stated about the schedule as loaded. */
  lemma AfterMore(schedule: seq<Entry>, forced: seq<Forced>, k: nat, at: nat)
    requires k < |forced| && at < |schedule| && schedule[at].id == forced[k].id
    requires forall i :: 0 <= i < |schedule| && schedule[i].id == forced[k].id ==> i == at
    ensures After(schedule, forced[..k + 1])
      == After(schedule, forced[..k])[at := WithScore(After(schedule, forced[..k])[at], forced[k])]
  {
    hide EntryAfter;
    var before, after := After(schedule, forced[..k]), After(schedule, forced[..k + 1]);
    forall i | 0 <= i < |schedule|
      ensures after[i] == WithScore(before[i], forced[k]) && before[i].id == schedule[i].id
    {
      EntryKeeps(schedule[i], forced[..k]);
      StepEntry(schedule[i], forced, k);
    }
  }

  lemma StepEntry(e: Entry, forced: seq<Forced>, k: nat)
    requires k < |forced|
    ensures EntryAfter(e, forced[..k + 1]) == WithScore(EntryAfter(e, forced[..k]), forced[k])
  {
    assert forced[..k + 1][..k] == forced[..k];
  }

  /** A fresh id leaves its row as loaded until its own turn. */
  lemma FreshRow(schedule: seq<Entry>, forced: seq<Forced>, k: nat, i: nat)
    requires k < |forced| && i < |schedule| && schedule[i].id == forced[k].id
    requires forall j :: 0 <= j < k ==> forced[j].id != forced[k].id
    ensures After(schedule, forced[..k])[i] == schedule[i]
  {
    EntryKeeps(schedule[i], forced[..k]);
  }

  lemma AfterCounts(schedule: seq<Entry>, forced: seq<Forced>, id: string)
    ensures IdCount(After(schedule, forced), id) == IdCount(schedule, id)
    ensures forall i :: 0 <= i < |schedule| ==> After(schedule, forced)[i].id == schedule[i].id
  {
    hide EntryAfter, IdCount;
    forall i | 0 <= i < |schedule| ensures After(schedule, forced)[i].id == schedule[i].id {
      EntryKeeps(schedule[i], forced);
    }
    SameIdCount(After(schedule, forced), schedule, id);
  }

  method ApplyForcedResults(schedule: seq<Entry>, forced: seq<Forced>,
                            asOf: int) returns (r: Result<seq<Entry>, Fault>)
    ensures r.Ok? <==> Acceptable(schedule, forced, asOf)
    ensures r.Ok? ==> r.value == After(schedule, forced)
  {
    hide After, IdCount, StillOpen;
    if |forced| > MAX_FORCED {
      return Err(TooMany);
    }
    var result := schedule;
    var seen: set<string> := {};
    AfterNothing(schedule);
    assert forced[..0] == [];
    for k := 0 to |forced|
      invariant result == After(schedule, forced[..k])
      invariant seen == set j | 0 <= j < k :: forced[j].id
      invariant forall i, j :: 0 <= i < j < k ==> forced[i].id != forced[j].id
      invariant forall j :: 0 <= j < k ==> Forcible(schedule, forced[j], asOf)
    {
      var item := forced[k];
      if item.id == "" || item.id in seen {
        return Err(BadId);
      }
      seen := seen + {item.id};
      if item.home.None? || item.away.None? {
        return Err(NotInteger);
      }
      if !(0 <= item.home.value <= 20) || !(0 <= item.away.value <= 20) {
        return Err(OutOfRange);
      }
      var count, at := Locate(result, item.id);
      AfterCounts(schedule, forced[..k], item.id);
      if count != 1 {
        return Err(NotInSeason);
      }
      FreshRow(schedule, forced, k, at);
      assert schedule[at].id == item.id;
      if result[at].listed.isComplete || (result[at].listed.kickoff.Some? && result[at].listed.kickoff.value <= asOf) {
        assert !StillOpen(schedule[at].listed, asOf) by { OpenMeans(schedule[at].listed, asOf); }
        return Err(NotFuture);
      }
      OpenMeans(schedule[at].listed, asOf);
      AfterMore(schedule, forced, k, at);
      result := result[at := result[at].(listed := Settled(result[at].listed, item))];
    }
    assert forced[..|forced|] == forced;
    return Ok(result);
  }

  lemma OpenMeans(m: Listed, asOf: int)
    ensures StillOpen(m, asOf) <==> !(m.isComplete || (m.kickoff.Some? && m.kickoff.value <= asOf))
  {
  }

  lemma AfterNothing(schedule: seq<Entry>)
    ensures After(schedule, []) == schedule
  {
  }

  // ---------------------------------------------------------------------
  // What a scenario leaves alone
  // ---------------------------------------------------------------------

  lemma {:induction false} CountUpdate<T>(s: seq<T>, at: nat, x: T, p: T -> bool)
    requires at < |s|
    ensures CountWhere(s[at := x], p) == CountWhere(s, p) - (if p(s[at]) then 1 else 0) + (if p(x) then 1 else 0)
  {
    var n := |s| - 1;
    if at < n {
      assert s[at := x][..n] == s[..n][at := x];
      CountUpdate(s[..n], at, x, p);
    } else {
      assert s[at := x][..n] == s[..n];
    }
  }

  lemma RowOfForced(schedule: seq<Entry>, item: Forced, asOf: int) returns (at: nat)
    requires Forcible(schedule, item, asOf)
    ensures at < |schedule| && schedule[at].id == item.id && StillOpen(schedule[at].listed, asOf)
    ensures forall i :: 0 <= i < |schedule| && schedule[i].id == item.id ==> i == at
  {
    at := FindRow(schedule, item.id);
    forall i | 0 <= i < |schedule| && schedule[i].id == item.id ensures i == at {
      if i < at { OnlyRow(schedule, item.id, i, at); }
      if at < i { OnlyRow(schedule, item.id, at, i); }
    }
  }

  lemma {:induction false} FindRow(schedule: seq<Entry>, id: string) returns (at: nat)
    requires IdCount(schedule, id) >= 1
    ensures at < |schedule| && schedule[at].id == id
  {
    var n := |schedule| - 1;
    if schedule[n].id == id { at := n; } else { at := FindRow(schedule[..n], id); }
  }

  /** Each forced result closes exactly one open fixture. */
  lemma {:induction false} ScenarioClosesFixtures(schedule: seq<Entry>, forced: seq<Forced>, asOf: int, k: nat)
    requires Acceptable(schedule, forced, asOf) && k <= |forced|
    ensures CountWhere(RowsIn(After(schedule, forced[..k])), Lacking()) == CountWhere(RowsIn(schedule), Lacking()) - k
  {
    hide CountWhere, After, IdCount;
    if k == 0 {
      AfterNothing(schedule);
      assert forced[..0] == [];
    } else {
      ScenarioClosesFixtures(schedule, forced, asOf, k - 1);
      var item := forced[k - 1];
      var at := RowOfForced(schedule, item, asOf);
      AfterMore(schedule, forced, k - 1, at);
      FreshRow(schedule, forced, k - 1, at);
      var before := After(schedule, forced[..k - 1]);
      var closed := WithScore(before[at], item);
      assert RowsIn(before[at := closed]) == RowsIn(before)[at := closed.listed];
      CountUpdate(RowsIn(before), at, closed.listed, Lacking());
    }
  }

  lemma ScenarioKeepsPairs(schedule: seq<Entry>, forced: seq<Forced>)
    ensures PairsListed(RowsIn(After(schedule, forced))) == PairsListed(RowsIn(schedule))
    ensures Homes(RowsIn(After(schedule, forced))) == Homes(RowsIn(schedule))
    ensures Aways(RowsIn(After(schedule, forced))) == Aways(RowsIn(schedule))
  {
    hide EntryAfter;
    forall i | 0 <= i < |schedule|
      ensures After(schedule, forced)[i].listed.home == schedule[i].listed.home
      ensures After(schedule, forced)[i].listed.away == schedule[i].listed.away
    {
      EntryKeeps(schedule[i], forced);
    }
  }

  /** A what-if schedule has the certificate of the real one, except that each forced result
      moves one fixture from incomplete to complete; declared results stay real ones. */
  lemma ScenarioKeepsCertificate(schedule: seq<Entry>, forced: seq<Forced>, expectedTeams: nat, asOf: int)
    requires Acceptable(schedule, forced, asOf)
    ensures var actual := CertifySchedule(RowsIn(schedule), expectedTeams, asOf);
      var what := CertifySchedule(RowsIn(After(schedule, forced)), expectedTeams, asOf);
      && what.completeFixtureList == actual.completeFixtureList && what.teams == actual.teams
      && what.incompleteFixtures == actual.incompleteFixtures - |forced|
    ensures PlayedIsScored(RowsIn(schedule)) ==> PlayedIsScored(RowsIn(After(schedule, forced)))
  {
    hide CountWhere, After, Zip, Present, Homes, Aways;
    ScenarioKeepsPairs(schedule, forced);
    ScenarioClosesFixtures(schedule, forced, asOf, |forced|);
    assert forced[..|forced|] == forced;
    if PlayedIsScored(RowsIn(schedule)) { ScenarioKeepsScores(schedule, forced, asOf); }
  }

  lemma ScenarioKeepsScores(schedule: seq<Entry>, forced: seq<Forced>, asOf: int)
    requires Acceptable(schedule, forced, asOf) && PlayedIsScored(RowsIn(schedule))
    ensures PlayedIsScored(RowsIn(After(schedule, forced)))
  {
    hide EntryAfter, IdCount;
    var rows := RowsIn(After(schedule, forced));
    forall i | 0 <= i < |rows| && rows[i].isComplete ensures HasResult(rows[i]) {
      if k :| 0 <= k < |forced| && forced[k].id == schedule[i].id {
        EntryForced(schedule[i], forced, k);
        assert Forcible(schedule, forced[k], asOf);
      } else {
        EntryKeeps(schedule[i], forced);
        assert RowsIn(schedule)[i] in RowsIn(schedule);
      }
    }
  }

  // ---------------------------------------------------------------------
  // The season handed to the simulation
  // ---------------------------------------------------------------------

  function FixtureOf(m: Listed): Fixture {
    Fixture(PairOf(m).0, PairOf(m).1, m.isComplete, m.homeScore, m.awayScore)
  }

  function Fixtures(matches: seq<Listed>): seq<Fixture> {
    seq(|matches|, i requires 0 <= i < |matches| => FixtureOf(matches[i]))
  }

  /** `team_index[team]`; every fixture's teams are among the certificate's. */
  function IndexOf(teams: seq<Team>, team: Team): nat {
    if teams == [] || teams[0] == team then 0 else 1 + IndexOf(teams[1..], team)
  }

  lemma {:induction false} IndexFound(teams: seq<Team>, team: Team)
    requires team in teams
    ensures IndexOf(teams, team) < |teams| && teams[IndexOf(teams, team)] == team
  {
    if teams[0] != team {
      assert team in teams[1..];
      IndexFound(teams[1..], team);
    }
  }

  function SeasonOf(matches: seq<Listed>, rule: LeagueRule, season: string, teams: seq<Team>): Season {
    Season(League(rule, AdjustmentsFor(rule.competitionId, Some(season))), teams, Fixtures(matches),
           seq(|matches|, i requires 0 <= i < |matches| => IndexOf(teams, PairOf(matches[i]).0)),
           seq(|matches|, i requires 0 <= i < |matches| => IndexOf(teams, PairOf(matches[i]).1)))
  }

  ghost predicate ScoresInByte(matches: seq<Listed>) {
    forall m :: m in matches && HasResult(m) ==> InByte(m.homeScore.value) && InByte(m.awayScore.value)
  }

  /** A certified schedule whose declared results carry byte-sized scores is a season the
      simulation may run on: all it relies on follows. */
  lemma CertifiedSeasonIsValid(matches: seq<Listed>, rule: LeagueRule, season: string, teams: seq<Team>, asOf: int)
    requires rule in LEAGUE_RULES
    requires CertifySchedule(matches, rule.expectedTeams, asOf).completeFixtureList
    requires Distinct(teams) && (set t | t in teams) == CertifySchedule(matches, rule.expectedTeams, asOf).teams
    requires PlayedIsScored(matches) && ScoresInByte(matches)
    ensures SeasonOf(matches, rule, season, teams).Valid() && 1 <= rule.relegationSlots <= |teams|
  {
    hide CertifySchedule, AdjustmentsFor, OffDiagonal, IndexOf;
    CertifiedIff(matches, rule.expectedTeams, asOf);
    KnownAdjustmentsBounded(rule, Some(season));
    DistinctSize(teams);
    KnownRules(rule);
    assert PairsOfFixtures(Fixtures(matches)) == PairsListed(matches);
    forall i | 0 <= i < |matches|
      ensures PairOf(matches[i]).0 in teams && PairOf(matches[i]).1 in teams
    {
      PairInTeams(PairsListed(matches), teams, i);
    }
    forall i | 0 <= i < |matches|
      ensures var h := IndexOf(teams, PairOf(matches[i]).0); h < |teams| && teams[h] == PairOf(matches[i]).0
      ensures var a := IndexOf(teams, PairOf(matches[i]).1); a < |teams| && teams[a] == PairOf(matches[i]).1
    {
      IndexFound(teams, PairOf(matches[i]).0);
      IndexFound(teams, PairOf(matches[i]).1);
    }
    forall f | f in Fixtures(matches) && f.isComplete
      ensures Counted(f) && InByte(f.homeScore.value) && InByte(f.awayScore.value)
    {
      var i :| 0 <= i < |matches| && Fixtures(matches)[i] == f;
      assert matches[i] in matches;
    }
  }

  lemma PairInTeams(pairs: seq<(Team, Team)>, teams: seq<Team>, i: nat)
    requires IsDoubleRoundRobin(pairs, set t | t in teams) && i < |pairs|
    ensures pairs[i].0 in teams && pairs[i].1 in teams
  {
    var all := set t | t in teams;
    assert pairs[i] in (set p | p in pairs);
    assert pairs[i] in OffDiagonal(all);
    assert pairs[i].0 in all && pairs[i].1 in all;
  }

  lemma KnownRules(rule: LeagueRule)
    requires rule in LEAGUE_RULES
    ensures rule.expectedTeams <= 20 && 1 <= rule.relegationSlots <= rule.expectedTeams
  {
    var i :| 0 <= i < |LEAGUE_RULES| && LEAGUE_RULES[i] == rule;
  }

  /** So every acceptable what-if on an admitted schedule is simulated on solid ground. */
  lemma ScenarioSeasonIsValid(schedule: seq<Entry>, forced: seq<Forced>, rule: LeagueRule, season: string,
                              teams: seq<Team>, asOf: int)
    requires rule in LEAGUE_RULES && Acceptable(schedule, forced, asOf)
    requires Admitted(CertifySchedule(RowsIn(schedule), rule.expectedTeams, asOf))
    requires Distinct(teams)
    requires (set t | t in teams) == CertifySchedule(RowsIn(schedule), rule.expectedTeams, asOf).teams
    requires forall m :: m in RowsIn(schedule) ==> !Unseen(m, asOf)
    requires ScoresInByte(RowsIn(schedule))
    ensures SeasonOf(RowsIn(After(schedule, forced)), rule, season, teams).Valid()
    ensures 1 <= rule.relegationSlots <= |teams|
  {
    hide CertifySchedule, After, PlayedIsScored, Season.Valid, ScoresInByte;
    GatesSeeScores(RowsIn(schedule), rule.expectedTeams, asOf);
    ScenarioKeepsCertificate(schedule, forced, rule.expectedTeams, asOf);
    ScenarioKeepsBytes(schedule, forced, asOf);
    CertifiedSeasonIsValid(RowsIn(After(schedule, forced)), rule, season, teams, asOf);
  }

  lemma ScenarioKeepsBytes(schedule: seq<Entry>, forced: seq<Forced>, asOf: int)
    requires Acceptable(schedule, forced, asOf) && ScoresInByte(RowsIn(schedule))
    ensures ScoresInByte(RowsIn(After(schedule, forced)))
  {
    hide EntryAfter, IdCount;
    var rows := RowsIn(After(schedule, forced));
    forall i | 0 <= i < |rows| && HasResult(rows[i])
      ensures InByte(rows[i].homeScore.value) && InByte(rows[i].awayScore.value)
    {
      if k :| 0 <= k < |forced| && forced[k].id == schedule[i].id {
        EntryForced(schedule[i], forced, k);
        assert Forcible(schedule, forced[k], asOf);
      } else {
        EntryKeeps(schedule[i], forced);
        assert RowsIn(schedule)[i] in RowsIn(schedule);
      }
    }
  }
}
