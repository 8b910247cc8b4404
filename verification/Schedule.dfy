/** Two independent checks of a double round robin: the certificate that admits a
    season to simulation, and the audit that admits a season pack as history. */
module Schedule {
  import opened Prelude
  import opened Ordering
  import opened Pairs
  import opened Standings

  /** A schedule row as loaded: any column may be missing. */
  datatype Listed = Listed(home: Option<Team>, away: Option<Team>, isComplete: bool,
                           homeScore: Option<int>, awayScore: Option<int>, kickoff: Option<int>)

  datatype Certificate = Certificate(
    expectedTeams: nat, teams: set<Team>, expectedMatches: int, observedMatches: nat,
    uniqueOrderedPairs: nat, duplicateOrderedPairs: nat, selfFixtures: nat,
    incompleteFixtures: nat, pastResultGaps: nat, futureCompletedResults: nat,
    completeFixtureList: bool)

  /** `column.dropna()` */
  function Present<T>(column: seq<Option<T>>): (r: seq<T>)
    ensures |r| <= |column|
    ensures |r| == |column| ==> forall i :: 0 <= i < |r| ==> column[i] == Some(r[i])
    ensures (forall i :: 0 <= i < |column| ==> column[i].Some?) ==> |r| == |column|
  {
    if column == [] then []
    else
      var init := column[..|column| - 1];
      Present(init) + match column[|column| - 1] { case None => [] case Some(x) => [x] }
  }

  /** `zip(a, b, strict=False)`: stops at the shorter list. */
  function Zip<A, B>(a: seq<A>, b: seq<B>): (r: seq<(A, B)>)
    ensures |r| <= |a| && |r| <= |b| && (|r| == |a| || |r| == |b|)
    ensures forall i :: 0 <= i < |r| ==> r[i] == (a[i], b[i])
  {
    seq(if |a| <= |b| then |a| else |b|, i requires 0 <= i < |a| && i < |b| => (a[i], b[i]))
  }

  function Homes(matches: seq<Listed>): seq<Option<Team>> {
    seq(|matches|, i requires 0 <= i < |matches| => matches[i].home)
  }

  function Aways(matches: seq<Listed>): seq<Option<Team>> {
    seq(|matches|, i requires 0 <= i < |matches| => matches[i].away)
  }

  function Members<T(==)>(s: seq<T>): set<T> { set x | x in s }

  predicate HasResult(m: Listed) { m.isComplete && m.homeScore.Some? && m.awayScore.Some? }

  function Lacking(): Listed -> bool { (m: Listed) => !HasResult(m) }

  function PastGap(asOf: int): Listed -> bool {
    (m: Listed) => !HasResult(m) && m.kickoff.Some? && m.kickoff.value < asOf
  }

  function FutureResult(asOf: int): Listed -> bool {
    (m: Listed) => HasResult(m) && m.kickoff.Some? && m.kickoff.value > asOf
  }

  function CertifySchedule(matches: seq<Listed>, expectedTeams: nat, asOf: int): Certificate {
    var home, away := Present(Homes(matches)), Present(Aways(matches));
    var teams := Members(home) + Members(away);
    var pairs := Zip(home, away);
    var unique := Members(pairs);
    var selfFixtures := CountWhere(pairs, (p: (Team, Team)) => p.0 == p.1);
    var expectedMatches := expectedTeams * (expectedTeams - 1);
    var duplicates := if |pairs| > |unique| then |pairs| - |unique| else 0;
    Certificate(
      expectedTeams, teams, expectedMatches, |matches|, |unique|, duplicates, selfFixtures,
      CountWhere(matches, Lacking()),
      CountWhere(matches, PastGap(asOf)),
      CountWhere(matches, FutureResult(asOf)),
      && |teams| == expectedTeams
      && |matches| == expectedMatches
      && |unique| == expectedMatches
      && duplicates == 0
      && selfFixtures == 0)
  }

  ghost predicate Named(matches: seq<Listed>) {
    forall m :: m in matches ==> m.home.Some? && m.away.Some?
  }

  function PairOf(m: Listed): (Team, Team) {
    (if m.home.Some? then m.home.value else "", if m.away.Some? then m.away.value else "")
  }

  function PairsListed(matches: seq<Listed>): seq<(Team, Team)> {
    seq(|matches|, i requires 0 <= i < |matches| => PairOf(matches[i]))
  }

  /** What the certificate is for: the list is exactly all ordered pairs of distinct
      teams, each once, over the expected number of teams. */
  ghost predicate IsFullSchedule(matches: seq<Listed>, expectedTeams: nat, teams: set<Team>) {
    Named(matches) && |teams| == expectedTeams && IsDoubleRoundRobin(PairsListed(matches), teams)
  }

  lemma NamedColumns(matches: seq<Listed>)
    ensures var home, away := Present(Homes(matches)), Present(Aways(matches));
      && |Zip(home, away)| <= |matches|
      && (|Zip(home, away)| == |matches| ==> Named(matches))
      && (Named(matches) ==> |home| == |away| == |matches| && Zip(home, away) == PairsListed(matches))
  {
    hide Present;
    var home, away := Present(Homes(matches)), Present(Aways(matches));
    if |home| == |away| == |matches| {
      forall m | m in matches
        ensures m.home.Some? && m.away.Some?
      {
        var i :| 0 <= i < |matches| && matches[i] == m;
        assert Homes(matches)[i] == Some(home[i]) && Aways(matches)[i] == Some(away[i]);
      }
    }
    if Named(matches) {
      forall i | 0 <= i < |matches|
        ensures Homes(matches)[i].Some? && Aways(matches)[i].Some?
      {
        assert matches[i] in matches;
      }
      forall i | 0 <= i < |matches|
        ensures Zip(home, away)[i] == PairsListed(matches)[i]
      {
        assert Homes(matches)[i] == Some(home[i]) && Aways(matches)[i] == Some(away[i]);
      }
    }
  }

  /** Pigeonhole: enough distinct non-self pairs over the teams is every pair. */
  lemma EnoughPairs(pairs: seq<(Team, Team)>, teams: set<Team>)
    requires forall p :: p in pairs ==> p.0 in teams && p.1 in teams
    requires |Members(pairs)| == |pairs| == |teams| * (|teams| - 1)
    requires forall p :: p in pairs ==> p.0 != p.1
    ensures IsDoubleRoundRobin(pairs, teams)
  {
    MembersBound(pairs);
    OffDiagonalSize(teams);
    FullSubset(Members(pairs), OffDiagonal(teams));
  }

  lemma RoundRobinCounts(pairs: seq<(Team, Team)>, teams: set<Team>)
    requires IsDoubleRoundRobin(pairs, teams)
    ensures |Members(pairs)| == |pairs| == |teams| * (|teams| - 1)
    ensures forall p :: p in pairs ==> p.0 != p.1
  {
    DistinctSize(pairs);
    OffDiagonalSize(teams);
    forall p | p in pairs ensures p.0 != p.1 {
      assert p in Members(pairs);
    }
  }

  lemma ZipTeams(home: seq<Team>, away: seq<Team>)
    requires |home| == |away|
    ensures forall p :: p in Zip(home, away) ==>
      p.0 in Members(home) + Members(away) && p.1 in Members(home) + Members(away)
    ensures forall t :: t in Members(home) + Members(away) ==>
      exists p :: p in Zip(home, away) && (p.0 == t || p.1 == t)
  {
    var z := Zip(home, away);
    forall t | t in Members(home) + Members(away)
      ensures exists p :: p in z && (p.0 == t || p.1 == t)
    {
      if t in home {
        var i :| 0 <= i < |home| && home[i] == t;
        assert z[i] in z;
      } else {
        var i :| 0 <= i < |away| && away[i] == t;
        assert z[i] in z;
      }
    }
  }

  /** The certificate holds if and only if the list is a full schedule of its teams. */
  lemma CertifiedIff(matches: seq<Listed>, expectedTeams: nat, asOf: int)
    ensures var c := CertifySchedule(matches, expectedTeams, asOf);
      c.completeFixtureList <==> IsFullSchedule(matches, expectedTeams, c.teams)
  {
    hide Present, Zip, CountWhere, Homes, Aways, Members, PairsListed, OffDiagonal;
    var c := CertifySchedule(matches, expectedTeams, asOf);
    var home, away := Present(Homes(matches)), Present(Aways(matches));
    var pairs := Zip(home, away);
    NamedColumns(matches);
    MembersBound(pairs);
    MembersIs(pairs);
    if c.completeFixtureList {
      assert |pairs| == |matches|;
      ZipTeams(home, away);
      forall p | p in pairs ensures p.0 != p.1 {}
      EnoughPairs(pairs, c.teams);
    }
    if IsFullSchedule(matches, expectedTeams, c.teams) {
      RoundRobinCounts(pairs, c.teams);
    }
  }

  lemma MembersIs<T>(s: seq<T>)
    ensures Members(s) == set x | x in s
  {
  }

  // ---------------------------------------------------------------------
  // The season audit
  // ---------------------------------------------------------------------

  /** What the loader makes of a raw score: none, a pair, or a refused bare list. */
  datatype FullTime = NoScore | Score(home: int, away: int) | Refused

  /** A raw season-file match; a team name may be missing, and then counts as one team. */
  datatype RawMatch = RawMatch(team1: Option<Team>, team2: Option<Team>, bareList: bool, fullTime: FullTime)

  datatype Reason = TeamCount | FixtureCount | ResultsMissing | BareScores | SelfMatches
                  | NegativeScores | DuplicatePairs | HomeRange | AwayRange

  datatype Stats = Stats(
    matches: nat, complete: nat, bareListScores: nat, nonZeroBare: nat, teams: nat, expectedTeams: nat,
    expectedMatches: int, selfMatches: nat, negativeScores: nat, duplicateOrderedPairs: nat,
    homeRange: (int, int), awayRange: (int, int))

  type Club = Option<Team>

  function RawPairs(matches: seq<RawMatch>): seq<(Club, Club)> {
    seq(|matches|, i requires 0 <= i < |matches| => (matches[i].team1, matches[i].team2))
  }

  function Clubs(pairs: seq<(Club, Club)>): set<Club> {
    (set p | p in pairs :: p.0) + (set p | p in pairs :: p.1)
  }

  /** A counter dict: keys in order of first insertion. */
  datatype Counter<!K> = Counter(keys: seq<K>, counts: map<K, nat>)

  /** `d[k] = d.get(k, 0) + 1` */
  function Increment<K>(c: Counter<K>, k: K): Counter<K> {
    if k in c.counts then Counter(c.keys, c.counts[k := c.counts[k] + 1])
    else Counter(c.keys + [k], c.counts[k := 1])
  }

  ghost predicate Counts<K(!new)>(c: Counter<K>, s: seq<K>) {
    && Distinct(c.keys)
    && (forall k :: k in c.keys <==> k in s)
    && (forall k :: k in c.counts <==> k in s)
    && (forall k :: k in c.counts ==> c.counts[k] == multiset(s)[k])
  }

  lemma IncrementCounts<K(!new)>(c: Counter<K>, s: seq<K>, k: K)
    requires Counts(c, s)
    ensures Counts(Increment(c, k), s + [k])
  {
    assert multiset(s + [k]) == multiset(s) + multiset{k};
    assert k in s <==> k in multiset(s);
  }

  /** `list(d.values())` */
  function Values<K>(c: Counter<K>): (values: seq<int>)
    requires forall k :: k in c.keys ==> k in c.counts
    ensures |values| == |c.keys| && forall i :: 0 <= i < |values| ==> values[i] == c.counts[c.keys[i]]
  {
    seq(|c.keys|, i requires 0 <= i < |c.keys| => c.counts[c.keys[i]])
  }

  /** `[values[0], values[-1]]` of the sorted values, `[0, 0]` when there are none. */
  method RangeOf(values: seq<int>) returns (range: (int, int))
    ensures values == [] ==> range == (0, 0)
    ensures values != [] ==>
      range.0 in values && range.1 in values && forall v :: v in values ==> range.0 <= v <= range.1
  {
    if values == [] { return (0, 0); }
    var sorted := Sort(values, (v: int) => [v]);
    range := (sorted[0], sorted[|sorted| - 1]);
    forall v | v in values ensures range.0 <= v <= range.1 {
      var i :| 0 <= i < |sorted| && sorted[i] == v;
      if i > 0 { KeyLeHead([sorted[0]], [sorted[i]]); }
      if i < |sorted| - 1 { KeyLeHead([sorted[i]], [sorted[|sorted| - 1]]); }
    }
  }

  function HomeClubs(matches: seq<RawMatch>): seq<Club> {
    seq(|matches|, i requires 0 <= i < |matches| => matches[i].team1)
  }

  function AwayClubs(matches: seq<RawMatch>): seq<Club> {
    seq(|matches|, i requires 0 <= i < |matches| => matches[i].team2)
  }

  function IsSelf(): RawMatch -> bool { (m: RawMatch) => m.team1 == m.team2 }
  function IsScored(): RawMatch -> bool { (m: RawMatch) => m.fullTime.Score? }
  function IsRefused(): RawMatch -> bool { (m: RawMatch) => m.fullTime.Refused? }
  function IsBare(): RawMatch -> bool { (m: RawMatch) => m.bareList }
  function IsNegative(): RawMatch -> bool {
    (m: RawMatch) => m.fullTime.Score? && (m.fullTime.home < 0 || m.fullTime.away < 0)
  }
  function IsRepeated(): int -> bool { v => v > 1 }

  /** The least and greatest number of times any entry of s occurs. */
  ghost predicate IsRange<K(!new)>(range: (int, int), s: seq<K>) {
    && (s == [] ==> range == (0, 0))
    && (s != [] ==>
          && (exists k :: k in s && multiset(s)[k] == range.0)
          && (exists k :: k in s && multiset(s)[k] == range.1)
          && forall k :: k in s ==> range.0 <= multiset(s)[k] <= range.1)
  }

  /** The entries of s that occur more than once. */
  ghost function Repeated<K(!new)>(s: seq<K>): set<K> { set k | k in s && multiset(s)[k] > 1 }

  ghost predicate IsStatsOf(stats: Stats, matches: seq<RawMatch>, expectedTeams: nat) {
    && stats.matches == |matches|
    && stats.complete == CountWhere(matches, IsScored())
    && stats.bareListScores == CountWhere(matches, IsBare())
    && stats.nonZeroBare == CountWhere(matches, IsRefused())
    && stats.teams == |Clubs(RawPairs(matches))|
    && stats.expectedTeams == expectedTeams
    && stats.expectedMatches == stats.teams * (stats.teams - 1)
    && stats.selfMatches == CountWhere(matches, IsSelf())
    && stats.negativeScores == CountWhere(matches, IsNegative())
    && stats.duplicateOrderedPairs == |Repeated(RawPairs(matches))|
    && IsRange(stats.homeRange, HomeClubs(matches))
    && IsRange(stats.awayRange, AwayClubs(matches))
  }

  lemma RangeFromValues<K(!new)>(c: Counter<K>, s: seq<K>, range: (int, int))
    requires Counts(c, s)
    requires var values := Values(c);
      && (values == [] ==> range == (0, 0))
      && (values != [] ==>
            range.0 in values && range.1 in values && forall v :: v in values ==> range.0 <= v <= range.1)
    ensures IsRange(range, s)
  {
    var values := Values(c);
    if s != [] {
      assert s[0] in c.keys;
      var i :| 0 <= i < |values| && values[i] == range.0;
      var j :| 0 <= j < |values| && values[j] == range.1;
      assert c.keys[i] in s && c.keys[j] in s;
      forall k | k in s
        ensures range.0 <= multiset(s)[k] <= range.1
      {
        var h :| 0 <= h < |c.keys| && c.keys[h] == k;
        assert values[h] in values && values[h] == multiset(s)[k];
      }
    }
    if values != [] { assert c.keys[0] in s; }
  }

  ghost function RepeatedAmong<K(!new)>(keys: seq<K>, s: seq<K>): set<K> { set k | k in keys && multiset(s)[k] > 1 }

  lemma RepeatedSnoc<K(!new)>(keys: seq<K>, s: seq<K>, n: nat)
    requires Distinct(keys) && n < |keys|
    ensures |RepeatedAmong(keys[..n + 1], s)| == |RepeatedAmong(keys[..n], s)|
        + if multiset(s)[keys[n]] > 1 then 1 else 0
  {
    var key := keys[n];
    assert keys[..n + 1] == keys[..n] + [key];
    assert key !in keys[..n];
    if multiset(s)[key] > 1 {
      assert RepeatedAmong(keys[..n + 1], s) == RepeatedAmong(keys[..n], s) + {key};
    } else {
      assert RepeatedAmong(keys[..n + 1], s) == RepeatedAmong(keys[..n], s);
    }
  }

  /** Among the first n keys, the counts above one belong to that many repeated entries. */
  lemma {:induction false} RepeatsUpTo<K(!new)>(c: Counter<K>, s: seq<K>, n: nat)
    requires Counts(c, s) && n <= |c.keys|
    ensures CountWhere(Values(c)[..n], IsRepeated()) == |RepeatedAmong(c.keys[..n], s)|
  {
    hide CountWhere, RepeatedAmong;
    if n == 0 {
      NothingRepeated(s);
      assert c.keys[..0] == [] && Values(c)[..0] == [];
    } else {
      RepeatsUpTo(c, s, n - 1);
      RepeatedSnoc(c.keys, s, n - 1);
      CountSnoc(Values(c), n - 1, IsRepeated());
      assert c.keys[n - 1] in c.keys;
    }
  }

  lemma NothingRepeated<K(!new)>(s: seq<K>)
    ensures RepeatedAmong([], s) == {} && CountWhere([], IsRepeated()) == 0
  {
  }

  /** `sum(1 for v in counts.values() if v > 1)` counts the repeated entries. */
  lemma RepeatsFromValues<K(!new)>(c: Counter<K>, s: seq<K>)
    requires Counts(c, s)
    ensures CountWhere(Values(c), IsRepeated()) == |Repeated(s)|
  {
    RepeatsUpTo(c, s, |c.keys|);
    assert c.keys[..|c.keys|] == c.keys && Values(c)[..|c.keys|] == Values(c);
    assert RepeatedAmong(c.keys, s) == Repeated(s);
  }

  lemma NoneRepeatedIff<K(!new)>(s: seq<K>)
    ensures Repeated(s) == {} <==> Distinct(s)
  {
    if Distinct(s) {
      DistinctCounts(s);
    } else {
      var i, j :| 0 <= i < j < |s| && s[i] == s[j];
      RepeatCounts(s, i, j);
      assert s[i] in Repeated(s);
    }
  }

  lemma RawSnoc(matches: seq<RawMatch>, i: nat)
    requires i < |matches|
    ensures RawPairs(matches[..i + 1]) == RawPairs(matches[..i]) + [(matches[i].team1, matches[i].team2)]
    ensures HomeClubs(matches[..i + 1]) == HomeClubs(matches[..i]) + [matches[i].team1]
    ensures AwayClubs(matches[..i + 1]) == AwayClubs(matches[..i]) + [matches[i].team2]
    ensures Clubs(RawPairs(matches[..i + 1])) == Clubs(RawPairs(matches[..i])) + {matches[i].team1, matches[i].team2}
  {
    var a, p := RawPairs(matches[..i]), (matches[i].team1, matches[i].team2);
    assert RawPairs(matches[..i + 1]) == a + [p];
    ClubsSnoc(a, p);
  }

  lemma ClubsSnoc(a: seq<(Club, Club)>, p: (Club, Club))
    ensures Clubs(a + [p]) == Clubs(a) + {p.0, p.1}
  {
    forall c | c in Clubs(a) + {p.0, p.1}
      ensures c in Clubs(a + [p])
    {
      assert p in a + [p];
    }
  }

  lemma CountSnoc<T>(s: seq<T>, i: nat, p: T -> bool)
    requires i < |s|
    ensures CountWhere(s[..i + 1], p) == CountWhere(s[..i], p) + if p(s[i]) then 1 else 0
  {
    assert s[..i + 1][..i] == s[..i];
  }

  method SeasonStats(matches: seq<RawMatch>, expectedTeams: nat) returns (stats: Stats)
    ensures IsStatsOf(stats, matches, expectedTeams)
  {
    hide CountWhere, RowCounts, Counts, IsRange, RawPairs, HomeClubs, AwayClubs, Clubs, Increment;
    var teams: set<Club> := {};
    var homeCount: Counter<Club> := Counter([], map[]);
    var awayCount: Counter<Club> := Counter([], map[]);
    var orderedPairs: Counter<(Club, Club)> := Counter([], map[]);
    var complete, negative, selfMatches, bareListScores, nonZeroBare := 0, 0, 0, 0, 0;
    EmptyCounts(matches);
    for i := 0 to |matches|
      invariant teams == Clubs(RawPairs(matches[..i]))
      invariant Counts(homeCount, HomeClubs(matches[..i]))
      invariant Counts(awayCount, AwayClubs(matches[..i]))
      invariant Counts(orderedPairs, RawPairs(matches[..i]))
      invariant (selfMatches, bareListScores, complete, nonZeroBare, negative) == RowCounts(matches[..i])
    {
      var m := matches[i];
      RawSnoc(matches, i);
      IncrementCounts(homeCount, HomeClubs(matches[..i]), m.team1);
      IncrementCounts(awayCount, AwayClubs(matches[..i]), m.team2);
      IncrementCounts(orderedPairs, RawPairs(matches[..i]), (m.team1, m.team2));
      RowCountsSnoc(matches, i);
      teams := teams + {m.team1, m.team2};
      homeCount := Increment(homeCount, m.team1);
      awayCount := Increment(awayCount, m.team2);
      orderedPairs := Increment(orderedPairs, (m.team1, m.team2));
      if m.team1 == m.team2 { selfMatches := selfMatches + 1; }
      if m.bareList { bareListScores := bareListScores + 1; }
      match m.fullTime {
        case Refused => nonZeroBare := nonZeroBare + 1;
        case NoScore =>
        case Score(home, away) =>
          complete := complete + 1;
          if home < 0 || away < 0 { negative := negative + 1; }
      }
    }
    assert matches[..|matches|] == matches;
    RowCountsAre(matches);
    CountedKeys(homeCount, HomeClubs(matches));
    CountedKeys(awayCount, AwayClubs(matches));
    CountedKeys(orderedPairs, RawPairs(matches));
    var homeRange := RangeOf(Values(homeCount));
    var awayRange := RangeOf(Values(awayCount));
    RangeFromValues(homeCount, HomeClubs(matches), homeRange);
    RangeFromValues(awayCount, AwayClubs(matches), awayRange);
    RepeatsFromValues(orderedPairs, RawPairs(matches));
    stats := Stats(|matches|, complete, bareListScores, nonZeroBare, |teams|, expectedTeams,
                   |teams| * (|teams| - 1), selfMatches, negative,
                   CountWhere(Values(orderedPairs), IsRepeated()), homeRange, awayRange);
  }

  lemma EmptyCounts(matches: seq<RawMatch>)
    ensures matches[..0] == []
    ensures Clubs(RawPairs([])) == {}
    ensures RowCounts([]) == (0, 0, 0, 0, 0)
    ensures Counts(Counter([], map[]), HomeClubs([])) && Counts(Counter([], map[]), AwayClubs([]))
    ensures Counts(Counter([], map[]), RawPairs([]))
  {
  }

  lemma CountedKeys<K(!new)>(c: Counter<K>, s: seq<K>)
    requires Counts(c, s)
    ensures forall k :: k in c.keys ==> k in c.counts
  {
  }

  /** The five row counts of the audit over the first i rows. */
  function RowCounts(matches: seq<RawMatch>): (nat, nat, nat, nat, nat) {
    (CountWhere(matches, IsSelf()), CountWhere(matches, IsBare()), CountWhere(matches, IsScored()),
     CountWhere(matches, IsRefused()), CountWhere(matches, IsNegative()))
  }

  function RowCount(m: RawMatch): (nat, nat, nat, nat, nat) {
    (if IsSelf()(m) then 1 else 0, if IsBare()(m) then 1 else 0, if IsScored()(m) then 1 else 0,
     if IsRefused()(m) then 1 else 0, if IsNegative()(m) then 1 else 0)
  }

  lemma RowCountsAre(matches: seq<RawMatch>)
    ensures RowCounts(matches) ==
            (CountWhere(matches, IsSelf()), CountWhere(matches, IsBare()), CountWhere(matches, IsScored()),
             CountWhere(matches, IsRefused()), CountWhere(matches, IsNegative()))
  {
  }

  lemma RowCountsSnoc(matches: seq<RawMatch>, i: nat)
    requires i < |matches|
    ensures var a, b, m := RowCounts(matches[..i]), RowCounts(matches[..i + 1]), RowCount(matches[i]);
      b == (a.0 + m.0, a.1 + m.1, a.2 + m.2, a.3 + m.3, a.4 + m.4)
  {
    hide CountWhere;
    CountSnoc(matches, i, IsSelf());
    CountSnoc(matches, i, IsBare());
    CountSnoc(matches, i, IsScored());
    CountSnoc(matches, i, IsRefused());
    CountSnoc(matches, i, IsNegative());
  }

  method FlagReasons(s: Stats) returns (reasons: seq<Reason>)
    ensures TeamCount in reasons <==> s.teams != s.expectedTeams
    ensures FixtureCount in reasons <==> s.matches != s.expectedMatches
    ensures ResultsMissing in reasons <==> s.complete != s.matches
    ensures BareScores in reasons <==> s.nonZeroBare != 0
    ensures SelfMatches in reasons <==> s.selfMatches != 0
    ensures NegativeScores in reasons <==> s.negativeScores != 0
    ensures DuplicatePairs in reasons <==> s.duplicateOrderedPairs != 0
    ensures HomeRange in reasons <==> s.homeRange != (s.teams - 1, s.teams - 1)
    ensures AwayRange in reasons <==> s.awayRange != (s.teams - 1, s.teams - 1)
  {
    var perSide := s.teams - 1;
    reasons := [];
    reasons := Flag(reasons, s.teams != s.expectedTeams, TeamCount);
    reasons := Flag(reasons, s.matches != s.expectedMatches, FixtureCount);
    reasons := Flag(reasons, s.complete != s.matches, ResultsMissing);
    reasons := Flag(reasons, s.nonZeroBare != 0, BareScores);
    reasons := Flag(reasons, s.selfMatches != 0, SelfMatches);
    reasons := Flag(reasons, s.negativeScores != 0, NegativeScores);
    reasons := Flag(reasons, s.duplicateOrderedPairs != 0, DuplicatePairs);
    reasons := Flag(reasons, s.homeRange != (perSide, perSide), HomeRange);
    reasons := Flag(reasons, s.awayRange != (perSide, perSide), AwayRange);
  }

  method Flag(reasons: seq<Reason>, condition: bool, reason: Reason) returns (r: seq<Reason>)
    ensures forall x :: x in r <==> x in reasons || (condition && x == reason)
  {
    r := if condition then reasons + [reason] else reasons;
  }

  // ---------------------------------------------------------------------
  // What a clean audit means
  // ---------------------------------------------------------------------

  /** `stats["clean"]`: no reason applies. */
  predicate Clean(s: Stats) {
    && s.teams == s.expectedTeams && s.matches == s.expectedMatches && s.complete == s.matches
    && s.nonZeroBare == 0 && s.selfMatches == 0 && s.negativeScores == 0 && s.duplicateOrderedPairs == 0
    && s.homeRange == (s.teams - 1, s.teams - 1) && s.awayRange == (s.teams - 1, s.teams - 1)
  }

  lemma CleanIsNoReason(s: Stats, reasons: seq<Reason>)
    requires TeamCount in reasons <==> s.teams != s.expectedTeams
    requires FixtureCount in reasons <==> s.matches != s.expectedMatches
    requires ResultsMissing in reasons <==> s.complete != s.matches
    requires BareScores in reasons <==> s.nonZeroBare != 0
    requires SelfMatches in reasons <==> s.selfMatches != 0
    requires NegativeScores in reasons <==> s.negativeScores != 0
    requires DuplicatePairs in reasons <==> s.duplicateOrderedPairs != 0
    requires HomeRange in reasons <==> s.homeRange != (s.teams - 1, s.teams - 1)
    requires AwayRange in reasons <==> s.awayRange != (s.teams - 1, s.teams - 1)
    ensures reasons == [] <==> Clean(s)
  {
    if reasons != [] {
      assert reasons[0] in reasons;
      match reasons[0] {
        case TeamCount => case FixtureCount => case ResultsMissing => case BareScores => case SelfMatches =>
        case NegativeScores => case DuplicatePairs => case HomeRange => case AwayRange =>
      }
    }
  }

  /** The structural checks: league size, fixture count, no self-match, no repeat. */
  predicate StructurallySound(s: Stats) {
    s.teams == s.expectedTeams && s.matches == s.expectedMatches && s.selfMatches == 0 && s.duplicateOrderedPairs == 0
  }

  lemma RawPairMembers(matches: seq<RawMatch>)
    ensures var pairs := RawPairs(matches);
      && (forall p :: p in pairs ==> p.0 in Clubs(pairs) && p.1 in Clubs(pairs))
      && (CountWhere(matches, IsSelf()) == 0 <==> forall p :: p in pairs ==> p.0 != p.1)
  {
    var pairs := RawPairs(matches);
    forall m | m in matches
      ensures (m.team1, m.team2) in pairs
    {
      var i :| 0 <= i < |matches| && matches[i] == m;
      assert pairs[i] == (m.team1, m.team2);
    }
    forall p | p in pairs
      ensures exists m :: m in matches && p == (m.team1, m.team2)
    {
      var i :| 0 <= i < |pairs| && pairs[i] == p;
      assert matches[i] in matches;
    }
    if forall p :: p in pairs ==> p.0 != p.1 {
      forall m | m in matches ensures !IsSelf()(m) {
        assert (m.team1, m.team2) in pairs;
      }
    }
    if CountWhere(matches, IsSelf()) == 0 {
      forall p | p in pairs ensures p.0 != p.1 {
        var m :| m in matches && p == (m.team1, m.team2);
        assert !IsSelf()(m);
      }
    }
  }

  /** The structural checks hold exactly when the season is a double round robin of
      its clubs, of the league's size. */
  lemma SoundIff(s: Stats, matches: seq<RawMatch>, expectedTeams: nat)
    requires IsStatsOf(s, matches, expectedTeams)
    ensures var pairs := RawPairs(matches);
      StructurallySound(s) <==> |Clubs(pairs)| == expectedTeams && IsDoubleRoundRobin(pairs, Clubs(pairs))
  {
    hide CountWhere, Clubs, OffDiagonal, IsRange, Repeated;
    var pairs := RawPairs(matches);
    var clubs := Clubs(pairs);
    NoneRepeatedIff(pairs);
    RawPairMembers(matches);
    OffDiagonalSize(clubs);
    MembersBound(pairs);
    if StructurallySound(s) {
      DistinctSize(pairs);
      DiagonalFree(pairs, clubs);
      FullSubset((set p | p in pairs), OffDiagonal(clubs));
    }
    if IsDoubleRoundRobin(pairs, clubs) {
      DistinctSize(pairs);
      forall p | p in pairs ensures p.0 != p.1 {
        assert p in set q | q in pairs;
        OffDiagonalMember(p, clubs);
      }
    }
  }

  lemma DiagonalFree(pairs: seq<(Club, Club)>, clubs: set<Club>)
    requires forall p :: p in pairs ==> p.0 in clubs && p.1 in clubs && p.0 != p.1
    ensures (set p | p in pairs) <= OffDiagonal(clubs)
  {
  }

  lemma OffDiagonalMember<T>(p: (T, T), s: set<T>)
    requires p in OffDiagonal(s)
    ensures p.0 != p.1 && p.0 in s && p.1 in s
  {
  }

  lemma {:induction false} ColumnCounts(matches: seq<RawMatch>, t: Club)
    ensures multiset(HomeClubs(matches))[t] == CountWhere(RawPairs(matches), Hosts(t))
    ensures multiset(AwayClubs(matches))[t] == CountWhere(RawPairs(matches), Visits(t))
  {
    if matches != [] {
      var n := |matches| - 1;
      ColumnCounts(matches[..n], t);
      RawSnoc(matches, n);
      assert matches[..n + 1] == matches;
      assert RawPairs(matches)[..n] == RawPairs(matches[..n]);
    }
  }

  /** The two range checks never fire on a structurally sound season: they are implied. */
  lemma RangesImplied(s: Stats, matches: seq<RawMatch>, expectedTeams: nat)
    requires IsStatsOf(s, matches, expectedTeams) && StructurallySound(s) && expectedTeams >= 2
    ensures s.homeRange == s.awayRange == (s.teams - 1, s.teams - 1)
  {
    hide CountWhere, OffDiagonal;
    var pairs := RawPairs(matches);
    var clubs := Clubs(pairs);
    SoundIff(s, matches, expectedTeams);
    forall t | t in HomeClubs(matches)
      ensures multiset(HomeClubs(matches))[t] == |clubs| - 1
    {
      var i :| 0 <= i < |matches| && HomeClubs(matches)[i] == t;
      assert pairs[i] in pairs;
      ColumnCounts(matches, t);
      RoundRobinGames(pairs, clubs, t);
    }
    forall t | t in AwayClubs(matches)
      ensures multiset(AwayClubs(matches))[t] == |clubs| - 1
    {
      var i :| 0 <= i < |matches| && AwayClubs(matches)[i] == t;
      assert pairs[i] in pairs;
      ColumnCounts(matches, t);
      RoundRobinGames(pairs, clubs, t);
    }
    NonEmptySeason(expectedTeams);
    assert |HomeClubs(matches)| == |AwayClubs(matches)| == |matches| > 0;
  }

  lemma NonEmptySeason(n: int)
    requires n >= 2
    ensures n * (n - 1) > 0
  {
  }

  /** The same rows, as the certificate reads them. */
  ghost predicate SameNames(matches: seq<RawMatch>, listed: seq<Listed>) {
    && |matches| == |listed|
    && forall i :: 0 <= i < |matches| ==> listed[i].home == matches[i].team1 && listed[i].away == matches[i].team2
  }

  /** A structurally sound season certifies exactly when no club name is missing: the
      audit counts a missing name as a club, the certificate drops it. */
  lemma CleanCertifiesIff(s: Stats, matches: seq<RawMatch>, listed: seq<Listed>, expectedTeams: nat, asOf: int)
    requires IsStatsOf(s, matches, expectedTeams) && Clean(s) && expectedTeams >= 2
    requires SameNames(matches, listed)
    ensures CertifySchedule(listed, expectedTeams, asOf).completeFixtureList <==> None !in Clubs(RawPairs(matches))
  {
    hide CountWhere, IsRange, CertifySchedule;
    CertifiedIff(listed, expectedTeams, asOf);
    SoundIff(s, matches, expectedTeams);
    if None in Clubs(RawPairs(matches)) {
      MissingNameListed(matches, listed);
    } else {
      FullyNamed(matches, listed);
      CertificateTeams(listed, expectedTeams, asOf);
      NamedRoundRobin(matches, listed, CertifySchedule(listed, expectedTeams, asOf).teams);
    }
  }

  /** Such a season exists: two rows, each naming one club and leaving the other out, are
      clean for a league of two. */
  lemma NamelessSeasonIsClean()
    ensures exists matches: seq<RawMatch>, stats ::
      IsStatsOf(stats, matches, 2) && Clean(stats) && None in Clubs(RawPairs(matches))
  {
    hide CountWhere, Repeated, IsRange;
    var x := RawMatch(None, Some("A"), false, Score(1, 0));
    var y := RawMatch(Some("A"), None, false, Score(0, 0));
    var matches := [x, y];
    var pairs := RawPairs(matches);
    assert pairs == [(None, Some("A")), (Some("A"), None)];
    assert pairs[0] in pairs && pairs[1] in pairs;
    assert Clubs(pairs) == {None, Some("A")};
    NoneRepeatedIff(pairs);
    TwoRowCounts(x, y);
    OnceEach(HomeClubs(matches));
    OnceEach(AwayClubs(matches));
    var stats := Stats(2, 2, 0, 0, 2, 2, 2, 0, 0, 0, (1, 1), (1, 1));
    assert |{None, Some("A")}| == 2;
    assert IsStatsOf(stats, matches, 2);
  }

  lemma TwoRowCounts(x: RawMatch, y: RawMatch)
    requires x.team1 != x.team2 && y.team1 != y.team2 && !x.bareList && !y.bareList
    requires x.fullTime == Score(1, 0) && y.fullTime == Score(0, 0)
    ensures CountWhere([x, y], IsScored()) == 2 && CountWhere([x, y], IsBare()) == 0
    ensures CountWhere([x, y], IsRefused()) == 0 && CountWhere([x, y], IsSelf()) == 0
    ensures CountWhere([x, y], IsNegative()) == 0
  {
    hide CountWhere;
    var s := [x, y];
    assert s[..0] == [] && s[..1] == [x] && s[..2] == s;
    CountSnoc(s, 1, IsScored());
    CountSnoc(s, 0, IsScored());
    NothingCounted(IsScored());
    assert CountWhere(s, IsBare()) == 0 by { CountsNone(s, IsBare()); }
    assert CountWhere(s, IsRefused()) == 0 by { CountsNone(s, IsRefused()); }
    assert CountWhere(s, IsSelf()) == 0 by { CountsNone(s, IsSelf()); }
    assert CountWhere(s, IsNegative()) == 0 by { CountsNone(s, IsNegative()); }
  }

  lemma NothingCounted<T>(p: T -> bool)
    ensures CountWhere([], p) == 0
  {
  }

  lemma CountsNone<T>(s: seq<T>, p: T -> bool)
    requires forall i :: 0 <= i < |s| ==> !p(s[i])
    ensures CountWhere(s, p) == 0
  {
  }

  lemma OnceEach(s: seq<Club>)
    requires |s| == 2 && s[0] != s[1]
    ensures IsRange((1, 1), s)
  {
    assert s == [s[0], s[1]];
    assert multiset(s) == multiset{s[0], s[1]};
  }

  lemma MissingNameListed(matches: seq<RawMatch>, listed: seq<Listed>)
    requires SameNames(matches, listed) && None in Clubs(RawPairs(matches))
    ensures !Named(listed)
  {
    var p :| p in RawPairs(matches) && (p.0 == None || p.1 == None);
    var i :| 0 <= i < |matches| && RawPairs(matches)[i] == p;
    assert listed[i] in listed;
  }

  lemma FullyNamed(matches: seq<RawMatch>, listed: seq<Listed>)
    requires SameNames(matches, listed) && None !in Clubs(RawPairs(matches))
    ensures Named(listed)
  {
    forall m | m in listed
      ensures m.home.Some? && m.away.Some?
    {
      var i :| 0 <= i < |listed| && listed[i] == m;
      assert RawPairs(matches)[i] in RawPairs(matches);
    }
  }

  /** On fully named rows the certificate's teams are the teams of the listed pairs. */
  lemma CertificateTeams(listed: seq<Listed>, expectedTeams: nat, asOf: int)
    requires Named(listed)
    ensures CertifySchedule(listed, expectedTeams, asOf).teams ==
            (set p | p in PairsListed(listed) :: p.0) + (set p | p in PairsListed(listed) :: p.1)
  {
    var home, away := Present(Homes(listed)), Present(Aways(listed));
    NamedColumns(listed);
    ZipTeams(home, away);
  }

  lemma NamedRoundRobin(matches: seq<RawMatch>, listed: seq<Listed>, teams: set<Team>)
    requires SameNames(matches, listed) && Named(listed)
    requires teams == (set p | p in PairsListed(listed) :: p.0) + (set p | p in PairsListed(listed) :: p.1)
    requires IsDoubleRoundRobin(RawPairs(matches), Clubs(RawPairs(matches)))
    ensures IsDoubleRoundRobin(PairsListed(listed), teams) && |teams| == |Clubs(RawPairs(matches))|
  {
    var raw, pairs := RawPairs(matches), PairsListed(listed);
    forall i | 0 <= i < |raw|
      ensures raw[i] == (Some(pairs[i].0), Some(pairs[i].1))
    {
      assert listed[i] in listed;
    }
    LiftedTeams(raw, pairs, teams);
    LiftedPairs(raw, pairs, teams);
  }

  ghost predicate Lifts(raw: seq<(Club, Club)>, pairs: seq<(Team, Team)>) {
    |raw| == |pairs| && forall i :: 0 <= i < |raw| ==> raw[i] == (Some(pairs[i].0), Some(pairs[i].1))
  }

  lemma LiftedTeams(raw: seq<(Club, Club)>, pairs: seq<(Team, Team)>, teams: set<Team>)
    requires Lifts(raw, pairs)
    requires teams == (set p | p in pairs :: p.0) + (set p | p in pairs :: p.1)
    ensures Clubs(raw) == set t | t in teams :: Some(t)
    ensures |teams| == |Clubs(raw)|
  {
    forall t | t in teams ensures Some(t) in Clubs(raw) {
      var p :| p in pairs && (p.0 == t || p.1 == t);
      var i :| 0 <= i < |pairs| && pairs[i] == p;
      assert raw[i] in raw;
    }
    forall c | c in Clubs(raw) ensures c.Some? && c.value in teams {
      var p :| p in raw && (p.0 == c || p.1 == c);
      var i :| 0 <= i < |raw| && raw[i] == p;
      assert pairs[i] in pairs;
    }
    SomeSize(teams);
  }

  lemma {:induction false} SomeSize(teams: set<Team>)
    ensures |set t | t in teams :: Some(t)| == |teams|
  {
    if teams == {} {
      assert (set t | t in teams :: Some(t)) == {};
    } else {
      var x :| x in teams;
      SomeSize(teams - {x});
      assert (set t | t in teams :: Some(t)) == (set t | t in teams - {x} :: Some(t)) + {Some(x)};
    }
  }

  lemma LiftedPairs(raw: seq<(Club, Club)>, pairs: seq<(Team, Team)>, teams: set<Team>)
    requires Lifts(raw, pairs)
    requires Clubs(raw) == set t | t in teams :: Some(t)
    requires IsDoubleRoundRobin(raw, Clubs(raw))
    ensures IsDoubleRoundRobin(pairs, teams)
  {
    forall p | p in pairs
      ensures p in OffDiagonal(teams)
    {
      var i :| 0 <= i < |pairs| && pairs[i] == p;
      assert raw[i] in set q | q in raw;
      OffDiagonalMember(raw[i], Clubs(raw));
    }
    forall p | p in OffDiagonal(teams)
      ensures p in pairs
    {
      assert (Some(p.0), Some(p.1)) in OffDiagonal(Clubs(raw));
      assert (Some(p.0), Some(p.1)) in set q | q in raw;
      var i :| 0 <= i < |raw| && raw[i] == (Some(p.0), Some(p.1));
      assert pairs[i] == p;
    }
    assert Distinct(pairs) by {
      forall i, j | 0 <= i < j < |pairs| ensures pairs[i] != pairs[j] {
        assert raw[i] != raw[j];
      }
    }
  }
}
