/** `calculateRanking` (src/app.js:2186-2238): per-player statistics
    accumulated over every match with both scores entered, then sorted by
    wins, score difference and points scored, each descending. Statistics
    are keyed by player name, in the order names are first met. */
module Ranking {
  import opened Common
  import opened Domain
  import opened Sorting
  import opened Views

  datatype Stats = Stats(wins: int, losses: int, pointsFor: int, pointsAgainst: int)

  /** One row of the ranking table. */
  datatype RankRow = RankRow(name: string, wins: int, losses: int, pointsFor: int, pointsAgainst: int, scoreDifference: int)

  /** `playerStats`: the names in insertion order (`Object.keys`) and their
      counters. */
  datatype Table = Table(keys: seq<string>, stats: map<string, Stats>)

  const Zero := Stats(0, 0, 0, 0)

  /** The counters of a name, zero for a name not met yet. */
  function Get(t: Table, n: string): Stats
  {
    if n in t.stats then t.stats[n] else Zero
  }

  /** Every key once, and exactly the names that have counters. */
  ghost predicate TableOk(t: Table)
  {
    && (forall i, j :: 0 <= i < j < |t.keys| ==> t.keys[i] != t.keys[j])
    && (forall n :: n in t.stats <==> n in t.keys)
  }

  /** One appearance of a player whose team scored `own` against `other`,
      credited `k` times: points for and against, a win or a loss by strict
      comparison, nothing extra for a draw. */
  function CreditTimes(st: Stats, k: nat, own: int, other: int): Stats
  {
    Stats(st.wins + (if own > other then k else 0), st.losses + (if own < other then k else 0),
          st.pointsFor + k * own, st.pointsAgainst + k * other)
  }

  /** The body of the per-player `forEach`: create the counters if needed,
      then credit one appearance. */
  function Credit(t: Table, n: string, own: int, other: int): Table
  {
    Table(if n in t.stats then t.keys else t.keys + [n], t.stats[n := CreditTimes(Get(t, n), 1, own, other)])
  }

  /** `team.forEach(...)` for a team that scored `own` against `other`. */
  function CreditTeam(t: Table, team: seq<string>, own: int, other: int): Table
  {
    if team == [] then t
    else Credit(CreditTeam(t, team[..|team| - 1], own, other), team[|team| - 1], own, other)
  }

  /** One match: counted only when both scores are entered. */
  function CreditMatch(t: Table, m: Match): Table
  {
    if Scored(m) then
      CreditTeam(CreditTeam(t, m.team1, m.scoreTeam1.value, m.scoreTeam2.value), m.team2, m.scoreTeam2.value, m.scoreTeam1.value)
    else t
  }

  /** `matchesData.forEach(...)`: the table after every match. */
  function Tally(ms: seq<Match>): Table
  {
    if ms == [] then Table([], map[]) else CreditMatch(Tally(ms[..|ms| - 1]), ms[|ms| - 1])
  }

  /** The statistics of one player, defined match by match without the
      shared table: every appearance in a counted match is credited. */
  function PlayerStats(ms: seq<Match>, n: string): Stats
  {
    if ms == [] then Zero
    else
      var m := ms[|ms| - 1];
      var st := PlayerStats(ms[..|ms| - 1], n);
      if Scored(m) then
        CreditTimes(CreditTimes(st, multiset(m.team1)[n], m.scoreTeam1.value, m.scoreTeam2.value),
                    multiset(m.team2)[n], m.scoreTeam2.value, m.scoreTeam1.value)
      else st
  }

  /** The name plays in a match whose two scores are entered. */
  ghost predicate PlaysCounted(ms: seq<Match>, n: string)
  {
    exists m :: m in ms && Scored(m) && (n in m.team1 || n in m.team2)
  }

  function Row(t: Table, n: string): RankRow
  {
    var st := Get(t, n);
    RankRow(n, st.wins, st.losses, st.pointsFor, st.pointsAgainst, st.pointsFor - st.pointsAgainst)
  }

  /** `Object.keys(playerStats).map(...)`. */
  function Rows(t: Table): seq<RankRow>
  {
    seq(|t.keys|, i requires 0 <= i < |t.keys| => Row(t, t.keys[i]))
  }

  /** The comparator: `a` may precede `b` when it has more wins, or as many
      and a larger score difference, or both equal and no fewer points. */
  predicate RankLe(a: RankRow, b: RankRow)
  {
    || a.wins > b.wins
    || (a.wins == b.wins && a.scoreDifference > b.scoreDifference)
    || (a.wins == b.wins && a.scoreDifference == b.scoreDifference && a.pointsFor >= b.pointsFor)
  }

  /** The ranking `calculateRanking` stores. */
  function RankingOf(ms: seq<Match>): seq<RankRow>
  {
    InsertionSort(Rows(Tally(ms)), RankLe)
  }

  /** The loops over the matches and their teams, then the sort. */
  method CalculateRanking(ms: seq<Match>) returns (ranking: seq<RankRow>)
    ensures ranking == RankingOf(ms)
  {
    var keys: seq<string> := [];
    var stats: map<string, Stats> := map[];
    var i := 0;
    while i < |ms|
      invariant 0 <= i <= |ms|
      invariant Table(keys, stats) == Tally(ms[..i])
    {
      var m := ms[i];
      assert ms[..i + 1][..i] == ms[..i];
      if m.scoreTeam1.Some? && m.scoreTeam2.Some? {
        var s1, s2 := m.scoreTeam1.value, m.scoreTeam2.value;
        ghost var before := Table(keys, stats);
        var j := 0;
        while j < |m.team1|
          invariant 0 <= j <= |m.team1|
          invariant Table(keys, stats) == CreditTeam(before, m.team1[..j], s1, s2)
        {
          var p := m.team1[j];
          assert m.team1[..j + 1][..j] == m.team1[..j];
          if p !in stats {
            keys := keys + [p];
            stats := stats[p := Zero];
          }
          stats := stats[p := CreditTimes(stats[p], 1, s1, s2)];
          j := j + 1;
        }
        assert m.team1[..j] == m.team1;
        ghost var middle := Table(keys, stats);
        j := 0;
        while j < |m.team2|
          invariant 0 <= j <= |m.team2|
          invariant Table(keys, stats) == CreditTeam(middle, m.team2[..j], s2, s1)
        {
          var p := m.team2[j];
          assert m.team2[..j + 1][..j] == m.team2[..j];
          if p !in stats {
            keys := keys + [p];
            stats := stats[p := Zero];
          }
          stats := stats[p := CreditTimes(stats[p], 1, s2, s1)];
          j := j + 1;
        }
        assert m.team2[..j] == m.team2;
      }
      i := i + 1;
    }
    assert ms[..i] == ms;
    ranking := InsertionSort(Rows(Table(keys, stats)), RankLe);
  }

  /** One credit keeps the table well formed, meets the name, and credits
      that name once and no other. */
  lemma {:induction false} CreditFacts(t: Table, p: string, own: int, other: int)
    requires TableOk(t)
    ensures TableOk(Credit(t, p, own, other))
    ensures forall n :: n in Credit(t, p, own, other).stats <==> n in t.stats || n == p
    ensures Get(Credit(t, p, own, other), p) == CreditTimes(Get(t, p), 1, own, other)
    ensures forall n :: n != p ==> Get(Credit(t, p, own, other), n) == Get(t, n)
  {
    var t' := Credit(t, p, own, other);
    if p !in t.stats {
      forall i, j | 0 <= i < j < |t'.keys| ensures t'.keys[i] != t'.keys[j] {
        if j == |t.keys| {
          assert t.keys[i] in t.keys;
        }
      }
    }
  }

  /** Crediting a team keeps the table well formed, meets every name of the
      team, and credits each name once per appearance in the team. */
  lemma {:induction false} CreditTeamFacts(t: Table, team: seq<string>, own: int, other: int, n: string)
    requires TableOk(t)
    ensures TableOk(CreditTeam(t, team, own, other))
    ensures n in CreditTeam(t, team, own, other).stats <==> n in t.stats || n in team
    ensures Get(CreditTeam(t, team, own, other), n) == CreditTimes(Get(t, n), multiset(team)[n], own, other)
  {
    if team != [] {
      var front, p := team[..|team| - 1], team[|team| - 1];
      assert team == front + [p];
      CreditTeamFacts(t, front, own, other, n);
      var t1 := CreditTeam(t, front, own, other);
      CreditFacts(t1, p, own, other);
      var k := multiset(front)[n];
      if n == p {
        assert multiset(team)[n] == k + 1;
        CreditTwice(Get(t, n), k, own, other);
      } else {
        assert multiset(team)[n] == k;
      }
    }
  }

  /** Crediting `k` times and once more is crediting `k + 1` times. */
  lemma {:induction false} CreditTwice(st: Stats, k: nat, own: int, other: int)
    ensures CreditTimes(CreditTimes(st, k, own, other), 1, own, other) == CreditTimes(st, k + 1, own, other)
  {
    MulSucc(k, own);
    MulSucc(k, other);
  }

  /** The shared table agrees with the per-player definition: it holds
      exactly the players of counted matches, each with the statistics
      their own appearances give. */
  lemma {:induction false} TallyPerPlayer(ms: seq<Match>, n: string)
    ensures TableOk(Tally(ms))
    ensures n in Tally(ms).stats <==> PlaysCounted(ms, n)
    ensures Get(Tally(ms), n) == PlayerStats(ms, n)
  {
    if ms != [] {
      var front, m := ms[..|ms| - 1], ms[|ms| - 1];
      assert ms == front + [m];
      TallyPerPlayer(front, n);
      var t := Tally(front);
      if Scored(m) {
        var s1, s2 := m.scoreTeam1.value, m.scoreTeam2.value;
        CreditTeamFacts(t, m.team1, s1, s2, n);
        CreditTeamFacts(CreditTeam(t, m.team1, s1, s2), m.team2, s2, s1, n);
      }
      if PlaysCounted(ms, n) && !PlaysCounted(front, n) {
        var m' :| m' in ms && Scored(m') && (n in m'.team1 || n in m'.team2);
        assert m' !in front;
      }
      if PlaysCounted(front, n) {
        var m' :| m' in front && Scored(m') && (n in m'.team1 || n in m'.team2);
        assert m' in ms;
      }
    }
  }

  /** The comparator orders any two rows and chains. */
  lemma {:induction false} RankLeTotalPreorder()
    ensures TotalPreorder(RankLe)
  {
  }

  /** The ranking is the table's rows, ordered by the comparator. */
  lemma {:induction false} RankingSorted(ms: seq<Match>)
    ensures SortedBy(RankingOf(ms), RankLe)
    ensures multiset(RankingOf(ms)) == multiset(Rows(Tally(ms)))
  {
    RankLeTotalPreorder();
    InsertionSortSorted(Rows(Tally(ms)), RankLe);
    InsertionSortPermutes(Rows(Tally(ms)), RankLe);
  }

  /** Every row of the ranking is a player of a counted match, shown with
      the statistics their own appearances give. */
  lemma {:induction false} RankingRows(ms: seq<Match>, r: RankRow)
    requires r in RankingOf(ms)
    ensures PlaysCounted(ms, r.name)
    ensures r.wins == PlayerStats(ms, r.name).wins && r.losses == PlayerStats(ms, r.name).losses
    ensures r.pointsFor == PlayerStats(ms, r.name).pointsFor && r.pointsAgainst == PlayerStats(ms, r.name).pointsAgainst
    ensures r.scoreDifference == r.pointsFor - r.pointsAgainst
  {
    RankingSorted(ms);
    var rows := Rows(Tally(ms));
    assert r in multiset(rows);
    var i :| 0 <= i < |rows| && rows[i] == r;
    TallyPerPlayer(ms, r.name);
  }

  /** Every player of a counted match has exactly one row. */
  lemma {:induction false} RankingComplete(ms: seq<Match>, n: string)
    requires PlaysCounted(ms, n)
    ensures exists r :: r in RankingOf(ms) && r.name == n
  {
    RankingSorted(ms);
    var t := Tally(ms);
    TallyPerPlayer(ms, n);
    var i :| 0 <= i < |t.keys| && t.keys[i] == n;
    assert Rows(t)[i] in multiset(RankingOf(ms));
  }

  /** No name has two rows. */
  lemma {:induction false} RankingDistinct(ms: seq<Match>)
    ensures forall i, j :: 0 <= i < j < |RankingOf(ms)| ==> RankingOf(ms)[i].name != RankingOf(ms)[j].name
  {
    RankingSorted(ms);
    TallyPerPlayer(ms, "");
    forall i, j | 0 <= i < j < |RankingOf(ms)| ensures RankingOf(ms)[i].name != RankingOf(ms)[j].name {
      DistinctNames(Tally(ms), RankingOf(ms), i, j);
    }
  }

  /** Two places of a permutation of the rows hold rows of different names. */
  lemma {:induction false} DistinctNames(t: Table, ranked: seq<RankRow>, i: nat, j: nat)
    requires TableOk(t) && multiset(ranked) == multiset(Rows(t))
    requires i < j < |ranked|
    ensures ranked[i].name != ranked[j].name
  {
    var rows := Rows(t);
    if ranked[i].name == ranked[j].name {
      assert ranked[i] in multiset(rows) && ranked[j] in multiset(rows);
      var a :| 0 <= a < |rows| && rows[a] == ranked[i];
      var b :| 0 <= b < |rows| && rows[b] == ranked[j];
      assert a == b;
      TwiceCounted(ranked, i, j);
      RowsOnce(t, a);
    }
  }

  /** A value at two places of a sequence is counted at least twice. */
  lemma {:induction false} TwiceCounted<T>(s: seq<T>, i: nat, j: nat)
    requires i < j < |s| && s[i] == s[j]
    ensures multiset(s)[s[i]] >= 2
  {
    var rest := s[..i] + s[i + 1..];
    assert s == s[..i] + [s[i]] + s[i + 1..];
    assert rest[j - 1] == s[j];
    assert multiset(s) == multiset(rest) + multiset{s[i]};
  }

  /** Every row occurs once: the names are distinct. */
  lemma {:induction false} RowsOnce(t: Table, a: nat)
    requires TableOk(t) && a < |t.keys|
    ensures multiset(Rows(t))[Rows(t)[a]] == 1
  {
    var rows := Rows(t);
    var rest := rows[..a] + rows[a + 1..];
    assert rows == rows[..a] + [rows[a]] + rows[a + 1..];
    assert multiset(rows) == multiset(rest) + multiset{rows[a]};
    forall k | 0 <= k < |rest|
      ensures rest[k] != rows[a]
    {
      var j := if k < a then k else k + 1;
      assert rest[k] == rows[j];
      assert rows[j].name == t.keys[j] != t.keys[a] == rows[a].name;
    }
  }

  /** A match without both scores changes nothing: the ranking of the
      whole history is the ranking of its played matches. */
  lemma {:induction false} RankingOnlyPlayed(ms: seq<Match>)
    ensures RankingOf(ms) == RankingOf(PastMatches(ms))
  {
    TallyOnlyPlayed(ms);
  }

  lemma {:induction false} TallyOnlyPlayed(ms: seq<Match>)
    ensures Tally(ms) == Tally(PastMatches(ms))
  {
    if ms != [] {
      var front, m := ms[..|ms| - 1], ms[|ms| - 1];
      assert ms == front + [m];
      TallyOnlyPlayed(front);
      PastSnoc(front, m);
      var p := PastMatches(front);
      if Scored(m) {
        assert PastMatches(ms) == p + [m];
        assert (p + [m])[..|p + [m]| - 1] == p;
        assert Tally(p + [m]) == CreditMatch(Tally(p), m);
      } else {
        assert PastMatches(ms) == p;
      }
    }
  }
}
