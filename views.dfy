/** Read-only views over a tournament's matches: the history page's split
    into played and upcoming matches (src/app.js:2527-2535) and the players
    on the bench during the current tour (src/app.js:1759-1770). */
module Views {
  import opened Common
  import opened Domain

  /** `allMatches.filter(m => m.scoreTeam1 !== null && m.scoreTeam2 !== null)` */
  function PastMatches(ms: seq<Match>): seq<Match>
  {
    if ms == [] then []
    else (if Scored(ms[0]) then [ms[0]] else []) + PastMatches(ms[1..])
  }

  /** `allMatches.filter(m => m.scoreTeam1 === null || m.scoreTeam2 === null)` */
  function UpcomingMatches(ms: seq<Match>): seq<Match>
  {
    if ms == [] then []
    else (if Scored(ms[0]) then [] else [ms[0]]) + UpcomingMatches(ms[1..])
  }

  /** The two lists split the history: every match lands in exactly one of
      them, as often as it occurs, played ones in the first. */
  lemma {:induction false} PastUpcomingPartition(ms: seq<Match>)
    ensures multiset(PastMatches(ms)) + multiset(UpcomingMatches(ms)) == multiset(ms)
    ensures forall m :: m in PastMatches(ms) <==> m in ms && Scored(m)
    ensures forall m :: m in UpcomingMatches(ms) <==> m in ms && !Scored(m)
  {
    if ms != [] {
      PastUpcomingPartition(ms[1..]);
      assert ms == [ms[0]] + ms[1..];
    }
  }

  /** Filtering a longer history extends the filtered one. */
  lemma {:induction false} PastSnoc(ms: seq<Match>, m: Match)
    ensures PastMatches(ms + [m]) == PastMatches(ms) + (if Scored(m) then [m] else [])
  {
    if ms != [] {
      assert (ms + [m])[1..] == ms[1..] + [m];
      PastSnoc(ms[1..], m);
    }
  }

  /** Every name in either team of the tour's matches. */
  function Playing(ms: seq<Match>): set<string>
  {
    if ms == [] then {}
    else (set n | n in ms[0].team1) + (set n | n in ms[0].team2) + Playing(ms[1..])
  }

  lemma {:induction false} PlayingMembers(ms: seq<Match>, n: string)
    ensures n in Playing(ms) <==> exists m :: m in ms && (n in m.team1 || n in m.team2)
  {
    if ms != [] {
      PlayingMembers(ms[1..], n);
      assert ms == [ms[0]] + ms[1..];
      if exists m :: m in ms && (n in m.team1 || n in m.team2) {
        var m :| m in ms && (n in m.team1 || n in m.team2);
        if m != ms[0] {
          assert m in ms[1..];
        }
      }
    }
  }

  /** The names of the tournament's players, in roster order, whose name is
      in no team of the current tour (every one of them when there is no
      current tour). */
  function Bench(players: seq<Player>, ids: seq<PlayerId>, current: Option<Tour>): seq<string>
  {
    var playing := if current.Some? then Playing(current.value.matches) else {};
    BenchOf(SelectedPlayers(players, ids), playing)
  }

  function BenchOf(ps: seq<Player>, playing: set<string>): seq<string>
  {
    if ps == [] then []
    else (if ps[0].name in playing then [] else [ps[0].name]) + BenchOf(ps[1..], playing)
  }

  /** A name is on the bench exactly when a selected player has it and no
      team of the current tour does. */
  lemma {:induction false} BenchMembers(players: seq<Player>, ids: seq<PlayerId>, current: Option<Tour>, n: string)
    ensures n in Bench(players, ids, current) <==>
      (exists p :: p in players && p.id in ids && p.name == n) &&
      (current.Some? ==> forall m :: m in current.value.matches ==> n !in m.team1 && n !in m.team2)
  {
    var playing := if current.Some? then Playing(current.value.matches) else {};
    BenchOfMembers(SelectedPlayers(players, ids), playing, n);
    if current.Some? {
      PlayingMembers(current.value.matches, n);
    }
  }

  lemma {:induction false} BenchOfMembers(ps: seq<Player>, playing: set<string>, n: string)
    ensures n in BenchOf(ps, playing) <==> (exists p :: p in ps && p.name == n) && n !in playing
  {
    if ps != [] {
      BenchOfMembers(ps[1..], playing, n);
      assert ps == [ps[0]] + ps[1..];
      if n !in playing && exists p :: p in ps && p.name == n {
        var p :| p in ps && p.name == n;
        if p != ps[0] {
          assert p in ps[1..];
        }
      }
    }
  }
}
