/** One chronological Elo pass that snapshots every rating at a series of checkpoints. */
module Ratings {
  import opened Prelude
  import opened Ordering

  type Team = string

  datatype Match = Match(instant: int, home: Team, away: Team, matchId: string,
                         homeScore: int, awayScore: int, neutral: bool, isComplete: bool)

  /** The rating change the home team earns; the update rule itself is not interpreted. */
  type Delta = (real, real, Match) -> real

  const ELO_INITIAL: real := 1500.0

  /** The running dicts of the replay: the teams in first-seen order, and their figures. */
  datatype Book = Book(teams: seq<Team>, ratings: map<Team, real>, counts: map<Team, nat>, lastSeen: map<Team, int>)

  const EMPTY := Book([], map[], map[], map[])

  function RatingOf(b: Book, t: Team): real { if t in b.ratings then b.ratings[t] else ELO_INITIAL }

  function CountOf(b: Book, t: Team): nat { if t in b.counts then b.counts[t] else 0 }

  function Seen(teams: seq<Team>, t: Team): seq<Team> { if t in teams then teams else teams + [t] }

  /** The dict updates of one match; both ratings are read before either is written. */
  function Play(b: Book, m: Match, delta: Delta): Book {
    var h, a := RatingOf(b, m.home), RatingOf(b, m.away);
    var d := delta(h, a, m);
    var counted := b.counts[m.home := CountOf(b, m.home) + 1];
    Book(Seen(Seen(b.teams, m.home), m.away),
         b.ratings[m.home := h + d][m.away := a - d],
         counted[m.away := (if m.away in counted then counted[m.away] else 0) + 1],
         b.lastSeen[m.home := m.instant][m.away := m.instant])
  }

  /** A fresh replay. */
  function Replay(ms: seq<Match>, delta: Delta): Book {
    if ms == [] then EMPTY else Play(Replay(ms[..|ms| - 1], delta), ms[|ms| - 1], delta)
  }

  /** The completed matches at or before an instant. */
  function Upto(ms: seq<Match>, instant: int): seq<Match> {
    if ms == [] then []
    else Upto(ms[..|ms| - 1], instant) + Kept(ms[|ms| - 1], instant)
  }

  function Kept(m: Match, instant: int): seq<Match> {
    if m.isComplete && m.instant <= instant then [m] else []
  }

  lemma UptoSnoc(s: seq<Match>, m: Match, instant: int)
    ensures Upto(s + [m], instant) == Upto(s, instant) + Kept(m, instant)
  {
    assert (s + [m])[..|s|] == s;
  }

  /** `(order_instant, home_team, away_team, match_id)` */
  function ChronoKey(): Match -> Key {
    (m: Match) => [m.instant] + (NameKey(m.home) + ([-1] + (NameKey(m.away) + ([-1] + NameKey(m.matchId)))))
  }

  ghost predicate Chronological(ms: seq<Match>) {
    forall i, j :: 0 <= i < j < |ms| ==> ms[i].instant <= ms[j].instant
  }

  ghost predicate Ascending(checkpoints: seq<int>) {
    forall i, j :: 0 <= i < j < |checkpoints| ==> checkpoints[i] <= checkpoints[j]
  }

  lemma SortedIsChronological(ms: seq<Match>)
    requires SortedBy(ms, ChronoKey())
    ensures Chronological(ms)
  {
    forall i, j | 0 <= i < j < |ms| ensures ms[i].instant <= ms[j].instant {
      KeyLeHead(ChronoKey()(ms[i]), ChronoKey()(ms[j]));
    }
  }

  /** In a chronological list the matches up to an instant are a prefix. */
  lemma {:induction false} PrefixUpto(ms: seq<Match>, k: nat, instant: int)
    requires k <= |ms| && forall i :: 0 <= i < |ms| ==> ms[i].isComplete
    requires forall i :: 0 <= i < k ==> ms[i].instant <= instant
    requires forall i :: k <= i < |ms| ==> ms[i].instant > instant
    ensures Upto(ms, instant) == ms[..k]
  {
    hide Upto;
    if ms == [] {
      NothingUpto(instant);
    } else {
      var n := |ms| - 1;
      assert ms == ms[..n] + [ms[n]];
      UptoSnoc(ms[..n], ms[n], instant);
      if k == |ms| {
        PrefixUpto(ms[..n], n, instant);
        assert ms[..n][..n] == ms[..n] && ms[..k] == ms[..n] + [ms[n]];
      } else {
        PrefixUpto(ms[..n], k, instant);
        assert ms[..n][..k] == ms[..k] && ms[..k] + [] == ms[..k];
      }
    }
  }

  /** What the replay loop promises: snapshot k is a fresh replay of only the matches at or
      before checkpoint k. */
  ghost predicate AreSnapshots(snapshots: seq<map<Team, real>>, ordered: seq<Match>, checkpoints: seq<int>,
                               delta: Delta) {
    |snapshots| <= |checkpoints| &&
    forall k :: 0 <= k < |snapshots| ==> snapshots[k] == Replay(Upto(ordered, checkpoints[k]), delta).ratings
  }

  /** Between matches, the running ratings are the snapshot of any checkpoint that falls
      there. */
  lemma SnapshotHere(snapshots: seq<map<Team, real>>, ordered: seq<Match>, checkpoints: seq<int>, delta: Delta,
                     i: nat, ratings: map<Team, real>)
    requires Chronological(ordered) && i <= |ordered| && |snapshots| < |checkpoints|
    requires forall j :: 0 <= j < |ordered| ==> ordered[j].isComplete
    requires AreSnapshots(snapshots, ordered, checkpoints, delta)
    requires ratings == Replay(ordered[..i], delta).ratings
    requires i > 0 ==> ordered[i - 1].instant <= checkpoints[|snapshots|]
    requires i < |ordered| ==> checkpoints[|snapshots|] < ordered[i].instant
    ensures AreSnapshots(snapshots + [ratings], ordered, checkpoints, delta)
  {
    hide Replay, Upto;
    PrefixUpto(ordered, i, checkpoints[|snapshots|]);
  }

  /** The replay loop with its checkpoint cursor. */
  method ReplayWithCheckpoints(ordered: seq<Match>, checkpoints: seq<int>, delta: Delta)
    returns (book: Book, snapshots: seq<map<Team, real>>)
    requires Chronological(ordered) && Ascending(checkpoints)
    requires forall i :: 0 <= i < |ordered| ==> ordered[i].isComplete
    ensures book == Replay(ordered, delta)
    ensures |snapshots| == |checkpoints| && AreSnapshots(snapshots, ordered, checkpoints, delta)
  {
    hide Play, Upto;
    book, snapshots := EMPTY, [];
    var cursor := 0;
    for i := 0 to |ordered|
      invariant book == Replay(ordered[..i], delta)
      invariant cursor == |snapshots| <= |checkpoints|
      invariant AreSnapshots(snapshots, ordered, checkpoints, delta)
      invariant cursor < |checkpoints| && i > 0 ==> ordered[i - 1].instant <= checkpoints[cursor]
    {
      var m := ordered[i];
      while cursor < |checkpoints| && checkpoints[cursor] < m.instant
        invariant cursor == |snapshots| <= |checkpoints|
        invariant AreSnapshots(snapshots, ordered, checkpoints, delta)
        invariant cursor < |checkpoints| && i > 0 ==> ordered[i - 1].instant <= checkpoints[cursor]
      {
        SnapshotHere(snapshots, ordered, checkpoints, delta, i, book.ratings);
        snapshots := snapshots + [book.ratings];
        cursor := cursor + 1;
      }
      assert ordered[..i + 1][..i] == ordered[..i];
      book := Play(book, m, delta);
    }
    assert ordered[..|ordered|] == ordered;
    while cursor < |checkpoints|
      invariant cursor == |snapshots| <= |checkpoints|
      invariant AreSnapshots(snapshots, ordered, checkpoints, delta)
      invariant cursor < |checkpoints| && |ordered| > 0 ==> ordered[|ordered| - 1].instant <= checkpoints[cursor]
    {
      SnapshotHere(snapshots, ordered, checkpoints, delta, |ordered|, book.ratings);
      snapshots := snapshots + [book.ratings];
      cursor := cursor + 1;
    }
  }

  /** The month ends up to an anchor close with the anchor itself. */
  ghost predicate EndsAt(checkpoints: seq<int>, anchor: int) {
    checkpoints != [] && checkpoints[|checkpoints| - 1] == anchor
  }

  // ---------------------------------------------------------------------
  // A team's rating, match by match
  // ---------------------------------------------------------------------

  /** A team's rating after a list of matches: the initial rating and the change of every
      match it played, which the home team earns and the away team pays.  A team against
      itself pays. */
  function Elo(ms: seq<Match>, delta: Delta, t: Team): real {
    if ms == [] then 1500.0
    else
      var init, m := ms[..|ms| - 1], ms[|ms| - 1];
      var change := delta(Elo(init, delta, m.home), Elo(init, delta, m.away), m);
      Elo(init, delta, t) + if t == m.away then -change else if t == m.home then change else 0.0
  }

  ghost predicate PlaysIn(ms: seq<Match>, t: Team) { exists m :: m in ms && (m.home == t || m.away == t) }

  /** One more match between two teams moves their ratings by the same amount, the home
      team's by exactly the change it earned at the two ratings before, and no other. */
  lemma OneMoreMatch(ms: seq<Match>, m: Match, delta: Delta, t: Team)
    requires m.home != m.away
    ensures var change := delta(Elo(ms, delta, m.home), Elo(ms, delta, m.away), m);
      && Elo(ms + [m], delta, m.home) == Elo(ms, delta, m.home) + change
      && Elo(ms + [m], delta, m.away) == Elo(ms, delta, m.away) - change
      && (t != m.home && t != m.away ==> Elo(ms + [m], delta, t) == Elo(ms, delta, t))
  {
    assert (ms + [m])[..|ms|] == ms;
  }

  /** The replay rates exactly the teams that played, each at its own rating. */
  ghost predicate Rates(ratings: map<Team, real>, ms: seq<Match>, delta: Delta) {
    forall t :: (t in ratings <==> PlaysIn(ms, t)) && (t in ratings ==> ratings[t] == Elo(ms, delta, t))
  }

  lemma {:induction false} ReplayRates(ms: seq<Match>, delta: Delta)
    ensures Rates(Replay(ms, delta).ratings, ms, delta)
    ensures forall t :: RatingOf(Replay(ms, delta), t) == Elo(ms, delta, t)
  {
    hide Play, PlaysIn;
    if ms != [] {
      var init, m := ms[..|ms| - 1], ms[|ms| - 1];
      ReplayRates(init, delta);
      assert ms == init + [m];
      PlaysSnoc(init, m);
      forall t ensures RatingOf(Replay(ms, delta), t) == Elo(ms, delta, t) {
        PlayMoves(Replay(init, delta), m, delta, t);
      }
      forall t ensures t in Replay(ms, delta).ratings <==> PlaysIn(ms, t) {
        PlayMoves(Replay(init, delta), m, delta, t);
      }
    } else {
      forall t ensures !PlaysIn(ms, t) { NobodyPlays(t); }
    }
  }

  lemma NobodyPlays(t: Team)
    ensures !PlaysIn([], t)
  {
  }

  lemma PlayMoves(b: Book, m: Match, delta: Delta, t: Team)
    ensures var change := delta(RatingOf(b, m.home), RatingOf(b, m.away), m);
      RatingOf(Play(b, m, delta), t)
      == RatingOf(b, t) + if t == m.away then -change else if t == m.home then change else 0.0
    ensures t in Play(b, m, delta).ratings <==> t in b.ratings || t == m.home || t == m.away
  {
  }

  lemma PlaysSnoc(ms: seq<Match>, m: Match)
    ensures forall t :: PlaysIn(ms + [m], t) <==> PlaysIn(ms, t) || t == m.home || t == m.away
  {
    forall t ensures PlaysIn(ms + [m], t) <==> PlaysIn(ms, t) || t == m.home || t == m.away {
      assert m in ms + [m];
      if PlaysIn(ms, t) {
        var x :| x in ms && (x.home == t || x.away == t);
        assert x in ms + [m];
      }
    }
  }

  /** Earlier instant first; at one instant by home team, away team and id. */
  ghost predicate NotAfter(a: Match, b: Match) {
    || a.instant < b.instant
    || (a.instant == b.instant
        && (NameBefore(a.home, b.home)
            || (a.home == b.home
                && (NameBefore(a.away, b.away)
                    || (a.away == b.away && (a.matchId == b.matchId || NameBefore(a.matchId, b.matchId)))))))
  }

  lemma ChronoMeans(a: Match, b: Match)
    requires KeyLe(ChronoKey()(a), ChronoKey()(b))
    ensures NotAfter(a, b)
  {
    hide NameKey, NameBefore;
    var x, y := ChronoKey()(a), ChronoKey()(b);
    KeyLeHead(x, y);
    if a.instant == b.instant {
      assert x[1..] == NameKey(a.home) + ([-1] + (NameKey(a.away) + ([-1] + NameKey(a.matchId))));
      assert y[1..] == NameKey(b.home) + ([-1] + (NameKey(b.away) + ([-1] + NameKey(b.matchId))));
      ClosedName(a.home, b.home, NameKey(a.away) + ([-1] + NameKey(a.matchId)),
                 NameKey(b.away) + ([-1] + NameKey(b.matchId)));
      if a.home == b.home && !NameBefore(a.home, b.home) {
        ClosedName(a.away, b.away, NameKey(a.matchId), NameKey(b.matchId));
        if a.away == b.away && a.matchId != b.matchId && !NameBefore(a.away, b.away) {
          NameFirst(a.matchId, b.matchId);
        }
      }
    }
  }

  /** The kept rows, each once, earliest first. */
  ghost predicate InOrder(ordered: seq<Match>, rows: seq<Match>, cutoff: int) {
    && multiset(ordered) == multiset(Upto(rows, cutoff))
    && forall i, j :: 0 <= i < j < |ordered| ==> NotAfter(ordered[i], ordered[j])
  }

  lemma SortedInOrder(rows: seq<Match>, cutoff: int)
    ensures InOrder(SortBy(Upto(rows, cutoff), ChronoKey()), rows, cutoff)
  {
    hide NotAfter, Upto, NameKey, SortBy, Insert;
    var ordered := SortBy(Upto(rows, cutoff), ChronoKey());
    forall i, j | 0 <= i < j < |ordered| ensures NotAfter(ordered[i], ordered[j]) {
      ChronoMeans(ordered[i], ordered[j]);
    }
  }

  /** The ratings are those of the kept matches played in order. */
  ghost predicate AreRatings(ratings: map<Team, real>, rows: seq<Match>, cutoff: int, delta: Delta) {
    exists ordered :: InOrder(ordered, rows, cutoff) && Rates(ratings, ordered, delta)
  }

  lemma ReplayedRatings(rows: seq<Match>, cutoff: int, delta: Delta)
    ensures AreRatings(Replay(SortBy(Upto(rows, cutoff), ChronoKey()), delta).ratings, rows, cutoff, delta)
  {
    hide InOrder, Rates, Replay, SortBy, Upto;
    SortedInOrder(rows, cutoff);
    ReplayRates(SortBy(Upto(rows, cutoff), ChronoKey()), delta);
  }

  /** `elo_trajectory`: completed rows up to the cutoff, in chronological order, replayed
      with the checkpoints of the last one's month ends. */
  method EloTrajectory(rows: seq<Match>, cutoff: int, checkpointsOf: int -> seq<int>, delta: Delta)
    returns (book: Book, snapshots: seq<map<Team, real>>, checkpoints: seq<int>)
    requires forall anchor :: Ascending(checkpointsOf(anchor))
    requires forall anchor :: EndsAt(checkpointsOf(anchor), anchor)
    ensures book == Replay(SortBy(Upto(rows, cutoff), ChronoKey()), delta)
    ensures AreRatings(book.ratings, rows, cutoff, delta)
    ensures |snapshots| == |checkpoints|
    ensures forall k :: 0 <= k < |checkpoints| ==> AreRatings(snapshots[k], rows, checkpoints[k], delta)
    ensures Upto(rows, cutoff) == [] ==> checkpoints == []
    ensures Upto(rows, cutoff) != [] ==> checkpoints == checkpointsOf(Latest(Upto(rows, cutoff)))
    ensures forall k :: 0 <= k < |checkpoints| ==>
      snapshots[k] == Replay(SortBy(Upto(rows, checkpoints[k]), ChronoKey()), delta).ratings
    ensures Upto(rows, cutoff) != [] ==> snapshots != [] && snapshots[|snapshots| - 1] == book.ratings
  {
    hide SortedBy, Insert, Play, NameKey, Upto, SortBy, Replay, Ascending, AreRatings;
    var kept := Upto(rows, cutoff);
    ReplayedRatings(rows, cutoff, delta);
    if kept == [] {
      SortedNothing();
      assert Replay([], delta) == EMPTY by { NoReplay(delta); }
      return EMPTY, [], [];
    }
    var ordered := SortBy(kept, ChronoKey());
    SortedIsChronological(ordered);
    KeptComplete(rows, cutoff, ordered);
    var anchor := ordered[|ordered| - 1].instant;
    AnchorIsLatest(kept, ordered);
    checkpoints := checkpointsOf(anchor);
    CheckpointsBefore(checkpoints, anchor);
    book, snapshots := ReplayWithCheckpoints(ordered, checkpoints, delta);
    forall k | 0 <= k < |checkpoints|
      ensures snapshots[k] == Replay(SortBy(Upto(rows, checkpoints[k]), ChronoKey()), delta).ratings
    {
      SnapshotIsFreshTable(rows, cutoff, checkpoints[k]);
    }
    forall k | 0 <= k < |checkpoints| ensures AreRatings(snapshots[k], rows, checkpoints[k], delta) {
      ReplayedRatings(rows, checkpoints[k], delta);
    }
    AllUpto(ordered, anchor);
  }

  /** `ordered[ORDER_INSTANT].max()`: the latest instant of a list that holds a match. */
  function Latest(ms: seq<Match>): (instant: int)
    requires ms != []
    ensures forall m :: m in ms ==> m.instant <= instant
    ensures exists m :: m in ms && m.instant == instant
  {
    if |ms| == 1 then ms[0].instant
    else
      var init, last := ms[..|ms| - 1], ms[|ms| - 1];
      assert ms == init + [last];
      if last.instant > Latest(init) then last.instant else Latest(init)
  }

  lemma AnchorIsLatest(kept: seq<Match>, ordered: seq<Match>)
    requires ordered != [] && multiset(ordered) == multiset(kept) && Chronological(ordered)
    ensures kept != [] && ordered[|ordered| - 1].instant == Latest(kept)
  {
    hide Latest;
    SameMembers(ordered, kept);
    var last := ordered[|ordered| - 1];
    LatestIs(kept, last);
  }

  lemma LatestIs(ms: seq<Match>, m: Match)
    requires m in ms && forall x :: x in ms ==> x.instant <= m.instant
    ensures Latest(ms) == m.instant
  {
  }

  lemma CheckpointsBefore(checkpoints: seq<int>, anchor: int)
    requires Ascending(checkpoints) && checkpoints != [] && checkpoints[|checkpoints| - 1] == anchor
    ensures forall k :: 0 <= k < |checkpoints| ==> checkpoints[k] <= anchor
  {
  }

  lemma AllUpto(ordered: seq<Match>, anchor: int)
    requires forall i :: 0 <= i < |ordered| ==> ordered[i].isComplete && ordered[i].instant <= anchor
    ensures Upto(ordered, anchor) == ordered
  {
    PrefixUpto(ordered, |ordered|, anchor);
    assert ordered[..|ordered|] == ordered;
  }

  lemma NoReplay(delta: Delta)
    ensures Replay([], delta) == EMPTY
  {
  }

  lemma {:induction false} UptoMembers(rows: seq<Match>, cutoff: int)
    ensures forall m :: m in Upto(rows, cutoff) <==> m in rows && m.isComplete && m.instant <= cutoff
  {
    if rows != [] {
      UptoMembers(rows[..|rows| - 1], cutoff);
      assert rows == rows[..|rows| - 1] + [rows[|rows| - 1]];
    }
  }

  lemma KeptComplete(rows: seq<Match>, cutoff: int, ordered: seq<Match>)
    requires multiset(ordered) == multiset(Upto(rows, cutoff))
    ensures forall i :: 0 <= i < |ordered| ==> ordered[i].isComplete && ordered[i].instant <= cutoff
  {
    UptoMembers(rows, cutoff);
    SameMembers(ordered, Upto(rows, cutoff));
    forall i | 0 <= i < |ordered| ensures ordered[i].isComplete && ordered[i].instant <= cutoff {
      assert ordered[i] in ordered;
    }
  }

  // ---------------------------------------------------------------------
  // A snapshot is the table one would have drawn at its checkpoint
  // ---------------------------------------------------------------------

  /** Selecting by time twice is selecting by the earlier time. */
  lemma {:induction false} UptoUpto(rows: seq<Match>, cutoff: int, instant: int)
    requires instant <= cutoff
    ensures Upto(Upto(rows, cutoff), instant) == Upto(rows, instant)
  {
    if rows != [] {
      var n := |rows| - 1;
      UptoUpto(rows[..n], cutoff, instant);
      var u := Upto(rows[..n], cutoff);
      if Kept(rows[n], cutoff) == [] {
        assert u + [] == u;
      } else {
        UptoSnoc(u, rows[n], instant);
      }
    }
  }

  /** Selecting by time commutes with inserting into a sorted list. */
  lemma {:induction false} UptoInsert(s: seq<Match>, x: Match, instant: int)
    requires SortedBy(s, ChronoKey()) && forall m :: m in s || m == x ==> m.isComplete
    ensures Upto(Insert(s, x, ChronoKey()), instant) ==
            if x.instant <= instant then Insert(Upto(s, instant), x, ChronoKey()) else Upto(s, instant)
    decreases |s|
  {
    hide Upto, SortedBy, NameKey, Insert, ChronoKey;
    var key := ChronoKey();
    if s == [] {
      NothingUpto(instant);
      UptoSnoc([], x, instant);
      InsertOnly(x, key);
      assert [] + [x] == [x];
    } else {
      var init, last := s[..|s| - 1], s[|s| - 1];
      assert s == init + [last] && last in s;
      InitSorted(s, key);
      if KeyLe(key(last), key(x)) {
        InsertAtEnd(s, x, key);
        UptoSnoc(s, x, instant);
        if x.instant <= instant {
          InsertLast(s, x, instant);
        } else {
          assert Upto(s, instant) + [] == Upto(s, instant);
        }
      } else {
        forall m | m in init || m == x ensures m.isComplete { assert m in s || m == x; }
        UptoInsert(init, x, instant);
        InsertBeforeLast(init, x, last, key);
        UptoSnoc(init, last, instant);
        UptoSnoc(Insert(init, x, key), last, instant);
        EarlierInstant(x, last);
        if last.instant <= instant {
          InsertBeforeLast(Upto(init, instant), x, last, key);
        } else {
          assert Upto(init, instant) + [] == Upto(init, instant);
          assert Upto(Insert(init, x, key), instant) + [] == Upto(Insert(init, x, key), instant);
        }
      }
    }
  }

  lemma EarlierInstant(x: Match, last: Match)
    requires !KeyLe(ChronoKey()(last), ChronoKey()(x))
    ensures x.instant <= last.instant
  {
    hide NameKey;
    KeyLeTotal(ChronoKey()(last), ChronoKey()(x));
    KeyLeHead(ChronoKey()(x), ChronoKey()(last));
  }

  lemma InsertOnly<T>(x: T, key: T -> Key)
    ensures Insert([], x, key) == [x]
  {
  }

  lemma InsertAtEnd<T>(s: seq<T>, x: T, key: T -> Key)
    requires s != [] && KeyLe(key(s[|s| - 1]), key(x))
    ensures Insert(s, x, key) == s + [x]
  {
  }

  lemma NothingUpto(instant: int)
    ensures Upto([], instant) == []
  {
  }

  lemma InitSorted<T>(s: seq<T>, key: T -> Key)
    requires s != [] && SortedBy(s, key)
    ensures SortedBy(s[..|s| - 1], key)
  {
  }

  /** x goes below a greater last element. */
  lemma InsertBeforeLast<T>(u: seq<T>, x: T, last: T, key: T -> Key)
    requires !KeyLe(key(last), key(x))
    ensures Insert(u + [last], x, key) == Insert(u, x, key) + [last]
  {
    assert (u + [last])[..|u|] == u;
  }

  /** x goes after everything, also among the kept matches. */
  lemma InsertLast(s: seq<Match>, x: Match, instant: int)
    requires s != [] && SortedBy(s, ChronoKey()) && KeyLe(ChronoKey()(s[|s| - 1]), ChronoKey()(x))
    requires forall m :: m in s ==> m.isComplete
    ensures Insert(Upto(s, instant), x, ChronoKey()) == Upto(s, instant) + [x]
  {
    hide Upto, NameKey;
    var u := Upto(s, instant);
    UptoMembers(s, instant);
    if u != [] {
      assert u[|u| - 1] in u;
      LastIsGreatest(s, ChronoKey(), u[|u| - 1]);
      KeyLeTransitive(ChronoKey()(u[|u| - 1]), ChronoKey()(s[|s| - 1]), ChronoKey()(x));
    }
  }

  lemma {:induction false} UptoSort(s: seq<Match>, instant: int)
    requires forall m :: m in s ==> m.isComplete
    ensures Upto(SortBy(s, ChronoKey()), instant) == SortBy(Upto(s, instant), ChronoKey())
    decreases |s|
  {
    hide Insert, SortedBy, NameKey, Upto, SortBy;
    if s == [] {
      NothingUpto(instant);
      SortedNothing();
    } else {
      var init, last := s[..|s| - 1], s[|s| - 1];
      assert s == init + [last];
      forall m | m in init ensures m.isComplete { assert m in s; }
      assert last in s;
      UptoSort(init, instant);
      var sorted := SortBy(init, ChronoKey());
      SameMembers(sorted, init);
      UptoInsert(sorted, last, instant);
      UptoSnoc(init, last, instant);
      SortedSnoc(init, last);
      SortedSnoc(Upto(init, instant), last);
      if last.instant > instant { assert Upto(init, instant) + [] == Upto(init, instant); }
    }
  }

  lemma SortedNothing()
    ensures SortBy<Match>([], ChronoKey()) == []
  {
  }

  lemma SortedSnoc(s: seq<Match>, m: Match)
    ensures SortBy(s + [m], ChronoKey()) == Insert(SortBy(s, ChronoKey()), m, ChronoKey())
  {
    hide Insert, SortedBy, NameKey;
    assert (s + [m])[..|s|] == s;
  }

  /** Filtering the ordered history at a checkpoint is ordering the history known then. */
  lemma SnapshotIsFreshTable(rows: seq<Match>, cutoff: int, instant: int)
    requires instant <= cutoff
    ensures Upto(SortBy(Upto(rows, cutoff), ChronoKey()), instant) == SortBy(Upto(rows, instant), ChronoKey())
  {
    hide SortBy;
    UptoMembers(rows, cutoff);
    UptoSort(Upto(rows, cutoff), instant);
    UptoUpto(rows, cutoff, instant);
  }

  /** Rows after the cutoff, wherever they sit in the input, change nothing. */
  lemma {:induction false} LaterRowsIrrelevant(rows: seq<Match>, more: seq<Match>, cutoff: int)
    requires forall m :: m in more ==> m.instant > cutoff || !m.isComplete
    ensures Upto(rows + more, cutoff) == Upto(rows, cutoff)
    decreases |more|
  {
    if more == [] {
      assert rows + more == rows;
    } else {
      AppendInit(rows, more);
      assert more[|more| - 1] in more;
      LaterRowsIrrelevant(rows, more[..|more| - 1], cutoff);
    }
  }

  // ---------------------------------------------------------------------
  // Conservation
  // ---------------------------------------------------------------------

  /** The sum of the ratings of the named teams. */
  function Sum(teams: seq<Team>, ratings: map<Team, real>): real {
    if teams == [] then 0.0
    else
      var last := teams[|teams| - 1];
      Sum(teams[..|teams| - 1], ratings) + if last in ratings then ratings[last] else ELO_INITIAL
  }

  /** What matches of a team against itself leak: both writes land on one entry. */
  function Leak(ms: seq<Match>, delta: Delta): real {
    if ms == [] then 0.0
    else
      var m, b := ms[|ms| - 1], Replay(ms[..|ms| - 1], delta);
      Leak(ms[..|ms| - 1], delta) + if m.home == m.away then delta(RatingOf(b, m.home), RatingOf(b, m.away), m) else 0.0
  }

  lemma {:induction false} SumUpdate(teams: seq<Team>, ratings: map<Team, real>, t: Team, x: real)
    requires Distinct(teams)
    ensures Sum(teams, ratings[t := x]) ==
            Sum(teams, ratings) + if t in teams then x - (if t in ratings then ratings[t] else ELO_INITIAL) else 0.0
  {
    if teams != [] {
      var init, last := teams[..|teams| - 1], teams[|teams| - 1];
      assert teams == init + [last] && last !in init;
      SumUpdate(init, ratings, t, x);
    }
  }

  ghost predicate Tidy(b: Book) {
    Distinct(b.teams) && forall t :: t in b.teams <==> t in b.ratings
  }

  lemma SeenSum(teams: seq<Team>, ratings: map<Team, real>, t: Team)
    requires Distinct(teams) && forall u :: u in teams <==> u in ratings
    ensures Distinct(Seen(teams, t))
    ensures Sum(Seen(teams, t), ratings) - ELO_INITIAL * |Seen(teams, t)| as real
            == Sum(teams, ratings) - ELO_INITIAL * |teams| as real
  {
    if t !in teams { assert (teams + [t])[..|teams|] == teams; }
  }

  lemma SeenSum2(teams: seq<Team>, ratings: map<Team, real>, t: Team, u: Team)
    requires Distinct(teams) && forall v :: v in teams <==> v in ratings
    ensures var all := Seen(Seen(teams, t), u);
      && Distinct(all) && (forall v :: v in all <==> v in teams || v == t || v == u)
      && Sum(all, ratings) - ELO_INITIAL * |all| as real == Sum(teams, ratings) - ELO_INITIAL * |teams| as real
  {
    hide Sum, Seen;
    var mid := Seen(teams, t);
    SeenSum(teams, ratings, t);
    SeenMore(teams, ratings, t);
    SeenMore(mid, ratings, u);
  }

  /** Listing a team whose rating is its own or the initial one. */
  lemma SeenMore(teams: seq<Team>, ratings: map<Team, real>, t: Team)
    requires Distinct(teams) && forall u :: u in ratings ==> u in teams
    ensures var all := Seen(teams, t);
      && Distinct(all) && (forall u :: u in all <==> u in teams || u == t)
      && Sum(all, ratings) - ELO_INITIAL * |all| as real == Sum(teams, ratings) - ELO_INITIAL * |teams| as real
  {
    if t !in teams { assert (teams + [t])[..|teams|] == teams; }
  }

  lemma PlayConserves(b: Book, m: Match, delta: Delta)
    requires Tidy(b)
    ensures Tidy(Play(b, m, delta))
    ensures var c, d := Play(b, m, delta), delta(RatingOf(b, m.home), RatingOf(b, m.away), m);
      Sum(c.teams, c.ratings) - ELO_INITIAL * |c.teams| as real
      == Sum(b.teams, b.ratings) - ELO_INITIAL * |b.teams| as real - if m.home == m.away then d else 0.0
  {
    hide Sum, Seen;
    var all := Seen(Seen(b.teams, m.home), m.away);
    var h, a := RatingOf(b, m.home), RatingOf(b, m.away);
    var d := delta(h, a, m);
    SeenSum2(b.teams, b.ratings, m.home, m.away);
    PairUpdate(all, b.ratings, m.home, m.away, h, a, d);
  }

  /** Both writes of a match: they cancel, unless they land on one entry. */
  lemma PairUpdate(all: seq<Team>, ratings: map<Team, real>, t: Team, u: Team, h: real, a: real, d: real)
    requires Distinct(all) && t in all && u in all
    requires h == (if t in ratings then ratings[t] else ELO_INITIAL)
    requires a == (if u in ratings then ratings[u] else ELO_INITIAL)
    ensures Sum(all, ratings[t := h + d][u := a - d]) == Sum(all, ratings) - if t == u then d else 0.0
  {
    hide Sum;
    SumUpdate(all, ratings, t, h + d);
    SumUpdate(all, ratings[t := h + d], u, a - d);
  }

  /** Ratings always sum to the initial rating times the number of teams seen, less what
      self-matches leak; with distinct opponents the total is exact. */
  lemma {:induction false} RatingsConserved(ms: seq<Match>, delta: Delta)
    ensures var b := Replay(ms, delta);
      Tidy(b) && Sum(b.teams, b.ratings) == ELO_INITIAL * |b.teams| as real - Leak(ms, delta)
  {
    hide Play;
    if ms != [] {
      RatingsConserved(ms[..|ms| - 1], delta);
      PlayConserves(Replay(ms[..|ms| - 1], delta), ms[|ms| - 1], delta);
    }
  }

  lemma {:induction false} DistinctOpponentsLeakNothing(ms: seq<Match>, delta: Delta)
    requires forall m :: m in ms ==> m.home != m.away
    ensures Leak(ms, delta) == 0.0
  {
    hide Play;
    if ms != [] {
      assert ms[|ms| - 1] in ms;
      DistinctOpponentsLeakNothing(ms[..|ms| - 1], delta);
    }
  }

  predicate Involves(m: Match, t: Team) { m.home == t || m.away == t }

  /** instant is that of the last match of t in the list, hence of its latest match in a
      chronological one. */
  ghost predicate IsLatest(ms: seq<Match>, t: Team, instant: int) {
    exists i :: 0 <= i < |ms| && Involves(ms[i], t) && ms[i].instant == instant
                && forall j :: i < j < |ms| ==> !Involves(ms[j], t)
  }

  lemma LatestSnoc(ms: seq<Match>, t: Team, instant: int)
    requires ms != []
    ensures Involves(ms[|ms| - 1], t) ==> IsLatest(ms, t, ms[|ms| - 1].instant)
    ensures !Involves(ms[|ms| - 1], t) && IsLatest(ms[..|ms| - 1], t, instant) ==> IsLatest(ms, t, instant)
  {
    if !Involves(ms[|ms| - 1], t) && IsLatest(ms[..|ms| - 1], t, instant) {
      var init := ms[..|ms| - 1];
      var i :| 0 <= i < |init| && Involves(init[i], t) && init[i].instant == instant
               && forall j :: i < j < |init| ==> !Involves(init[j], t);
      assert Involves(ms[i], t);
    }
  }

  /** A team's match count is its appearances, and its last date that of its last match. */
  lemma {:induction false} CountsAndDates(ms: seq<Match>, delta: Delta, t: Team)
    ensures var b := Replay(ms, delta);
      && CountOf(b, t) == Appearances(ms, t)
      && (t in b.lastSeen <==> Appearances(ms, t) > 0)
      && (t in b.lastSeen ==> IsLatest(ms, t, b.lastSeen[t]))
  {
    if ms != [] {
      var n := |ms| - 1;
      CountsAndDates(ms[..n], delta, t);
      var before := Replay(ms[..n], delta);
      LatestSnoc(ms, t, if t in before.lastSeen then before.lastSeen[t] else 0);
    }
  }

  function Appearances(ms: seq<Match>, t: Team): nat {
    if ms == [] then 0
    else
      var last := ms[|ms| - 1];
      Appearances(ms[..|ms| - 1], t) + (if last.home == t then 1 else 0) + (if last.away == t then 1 else 0)
  }
}
