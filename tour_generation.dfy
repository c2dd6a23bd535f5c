/** `generateSingleTourMatches` (src/app.js:1105-1212): one round of matches
    drawn from the front of a player pool. The pool is refilled from the
    reshuffled roster when it cannot fill one match; up to
    `courts * 2 * perTeam` players are set aside; courts 1, 2, ... each take
    the next `2 * perTeam` of them while enough remain; the rest go back to
    the pool. */
module TourGeneration {
  import opened Common
  import opened Clock
  import opened Domain
  import opened Shuffle
  import opened Chunks
  import opened TeamFormation

  /** The pool the tour draws from: the pool it is given, or the whole roster
      reshuffled when the given pool cannot fill one match. */
  function PoolUsed(pool: seq<Player>, base: seq<Player>, c: TournamentConfig, draws: seq<nat>): seq<Player>
  {
    if |pool| < MatchSize(c) then Shuffled(base, draws) else pool
  }

  /** How many players are set aside for the courts: one full tour's worth,
      or the whole pool if it is shorter. */
  function SelectionSize(c: TournamentConfig, poolSize: nat): nat
  {
    Min(c.numCourts * MatchSize(c), poolSize)
  }

  /** The match a court gets from its players: both teams as names, no
      scores yet. */
  function MatchFor(c: TournamentConfig, group: seq<Player>, id: MatchId, court: int): Match
    requires |group| == MatchSize(c)
  {
    var (t1, t2) := TeamsOf(group, c.balanceTeamsByLevel, c.numPlayersPerTeam);
    Match(id, court, Names(t1), Names(t2), None, None, Upcoming)
  }

  /** The matches of the courts that received the given groups: group `i`
      plays on court `i + 1` under id `nextId + i`. */
  function MatchesFor(c: TournamentConfig, groups: seq<seq<Player>>, nextId: MatchId): seq<Match>
    requires forall i :: 0 <= i < |groups| ==> |groups[i]| == MatchSize(c)
  {
    seq(|groups|, i requires 0 <= i < |groups| => MatchFor(c, groups[i], nextId + i, i + 1))
  }

  /** When a tour starts: a break after the previous tour's actual end, or at
      the configured start time on the current day for the first tour. */
  function TourStart(c: TournamentConfig, lastEnd: Option<int>, dayStart: int): int
  {
    match lastEnd
    case Some(e) => e + BreakMs(c)
    case None => TournamentStart(c, dayStart)
  }

  /** The draft `generateSingleTourMatches` returns for the pool, the roster
      `base`, the shuffle draws, the previous tour's actual end and the id of
      its first match. */
  function SingleTour(pool: seq<Player>, base: seq<Player>, c: TournamentConfig, draws: seq<nat>,
                      lastEnd: Option<int>, dayStart: int, nextId: MatchId): TourDraft
  {
    var p := PoolUsed(pool, base, c, draws);
    var selection := p[..SelectionSize(c, |p|)];
    var k := Dealt(selection, MatchSize(c), c.numCourts);
    var start := TourStart(c, lastEnd, dayStart);
    TourDraft(MatchesFor(c, Blocks(selection, MatchSize(c), c.numCourts), nextId),
              start, start + MatchMs(c), p[..k], p[k..])
  }

  /** `for (i = 0; i < limit; i++) { if (pool.length === 0) break;
      taken.push(pool.shift()); }`: moves up to `limit` players from the
      front of the pool. */
  method TakeFront(pool: seq<Player>, limit: nat) returns (taken: seq<Player>, rest: seq<Player>)
    ensures taken == pool[..Min(limit, |pool|)] && rest == pool[Min(limit, |pool|)..]
    ensures taken + rest == pool
  {
    taken, rest := [], pool;
    var i := 0;
    while i < limit
      invariant 0 <= i <= limit && i <= |pool|
      invariant taken == pool[..i] && rest == pool[i..]
    {
      if |rest| == 0 {
        break;
      }
      taken := taken + [rest[0]];
      rest := rest[1..];
      i := i + 1;
    }
    assert i == Min(limit, |pool|);
  }

  /** One court's turn: its players leave the front of the set-aside
      players and are split into the two teams of its match. */
  method FormMatch(c: TournamentConfig, leftover: seq<Player>, id: MatchId, court: int)
    returns (mt: Match, matchPlayers: seq<Player>, rest: seq<Player>)
    requires |leftover| >= MatchSize(c)
    ensures matchPlayers == leftover[..MatchSize(c)] && rest == leftover[MatchSize(c)..]
    ensures mt == MatchFor(c, matchPlayers, id, court)
  {
    var perTeam := c.numPlayersPerTeam;
    matchPlayers, rest := TakeFront(leftover, perTeam * 2);
    var team1, team2 := FormTeams(matchPlayers, c.balanceTeamsByLevel, perTeam);
    mt := Match(id, court, Names(team1), Names(team2), None, None, Upcoming);
  }

  /** The court loop: courts 1, 2, ... each take the next full match of
      set-aside players, stopping at the first court that cannot be filled. */
  method FillCourts(c: TournamentConfig, selection: seq<Player>, nextId: MatchId)
    returns (matches: seq<Match>, played: seq<Player>, leftover: seq<Player>)
    ensures matches == MatchesFor(c, Blocks(selection, MatchSize(c), c.numCourts), nextId)
    ensures played == selection[..Dealt(selection, MatchSize(c), c.numCourts)]
    ensures leftover == selection[Dealt(selection, MatchSize(c), c.numCourts)..]
    ensures played + leftover == selection
  {
    var perMatch := MatchSize(c);
    ghost var groups: seq<seq<Player>> := [];
    matches, played, leftover := [], [], selection;
    var court := 1;
    while court <= c.numCourts
      invariant 1 <= court <= c.numCourts + 1 && |groups| == court - 1
      invariant Dealing(selection, perMatch, c.numCourts, played, groups, leftover, c.numCourts - court + 1)
      invariant forall i :: 0 <= i < |groups| ==> |groups[i]| == perMatch
      invariant matches == MatchesFor(c, groups, nextId)
    {
      if |leftover| < perMatch {
        break;
      }
      DealingStep(selection, perMatch, c.numCourts, played, groups, leftover, c.numCourts - court + 1);
      var mt, matchPlayers;
      mt, matchPlayers, leftover := FormMatch(c, leftover, nextId + court - 1, court);
      MatchesForSnoc(c, groups, matchPlayers, nextId);
      matches := matches + [mt];
      groups := groups + [matchPlayers];
      played := played + matchPlayers;
      court := court + 1;
    }
    DealingDone(selection, perMatch, c.numCourts, played, groups, leftover, c.numCourts - court + 1);
  }

  /** One more filled court adds its match at the end. */
  lemma {:induction false} MatchesForSnoc(c: TournamentConfig, groups: seq<seq<Player>>, g: seq<Player>, nextId: MatchId)
    requires forall i :: 0 <= i < |groups| ==> |groups[i]| == MatchSize(c)
    requires |g| == MatchSize(c)
    ensures MatchesFor(c, groups + [g], nextId)
         == MatchesFor(c, groups, nextId) + [MatchFor(c, g, nextId + |groups|, |groups| + 1)]
  {
  }

  /** The source's procedure: refill and shuffle if needed, set players
      aside, fill the courts, then time the tour. */
  method GenerateSingleTourMatches(pool: seq<Player>, base: seq<Player>, c: TournamentConfig, draws: seq<nat>,
                                   lastEnd: Option<int>, dayStart: int, nextId: MatchId)
    returns (d: TourDraft)
    ensures d == SingleTour(pool, base, c, draws, lastEnd, dayStart, nextId)
  {
    var perMatch := c.numPlayersPerTeam * 2;
    var temp := Refill(pool, base, c, draws);
    var selection, newPool := TakeFront(temp, c.numCourts * perMatch);
    assert selection == temp[..SelectionSize(c, |temp|)];
    var matches, played, leftover := FillCourts(c, selection, nextId);
    var start, end := TourTimes(c, lastEnd, dayStart);
    SplitSelection(temp, selection, newPool, played, leftover);
    d := TourDraft(matches, start, end, played, leftover + newPool);
  }

  /** Cutting the first `|selection|` players of `temp` after the first
      `|played|` ones cuts `temp` after `|played|`. */
  lemma {:induction false} SplitSelection(temp: seq<Player>, selection: seq<Player>, newPool: seq<Player>,
                                          played: seq<Player>, leftover: seq<Player>)
    requires selection + newPool == temp && played + leftover == selection
    ensures played == temp[..|played|] && leftover + newPool == temp[|played|..]
  {
    assert played + (leftover + newPool) == temp;
  }

  /** `if (tempPlayersPool.length < numPlayersPerMatch) tempPlayersPool =
      shuffleArray([...availablePlayersBase])`. */
  method Refill(pool: seq<Player>, base: seq<Player>, c: TournamentConfig, draws: seq<nat>) returns (p: seq<Player>)
    ensures p == PoolUsed(pool, base, c, draws)
  {
    p := pool;
    if |p| < c.numPlayersPerTeam * 2 {
      var a := new Player[|base|](k requires 0 <= k < |base| => base[k]);
      assert a[..] == base;
      ShuffleArray(a, draws);
      p := a[..];
    }
  }

  /** The tour's start and end instants. */
  method TourTimes(c: TournamentConfig, lastEnd: Option<int>, dayStart: int) returns (start: int, end: int)
    ensures start == TourStart(c, lastEnd, dayStart) && end == start + MatchMs(c)
  {
    if lastEnd.Some? {
      start := lastEnd.value + c.breakDuration * 60 * 1000;
    } else {
      start := InstantToday(dayStart, c.startTime);
    }
    end := start + c.matchDuration * 60 * 1000;
  }

  /** Names of a concatenation are the concatenated names. */
  lemma {:induction false} NamesAppend(u: seq<Player>, v: seq<Player>)
    ensures Names(u + v) == Names(u) + Names(v)
  {
  }

  /** Taking out the player at index `k` takes out one copy of its name. */
  lemma {:induction false} NamesRemoveAt(b: seq<Player>, k: nat)
    requires k < |b|
    ensures multiset(Names(b)) == multiset(Names(b[..k] + b[k + 1..])) + multiset{b[k].name}
  {
    var u, v := b[..k], b[k + 1..];
    assert b == u + [b[k]] + v;
    NamesAppend(u + [b[k]], v);
    NamesAppend(u, [b[k]]);
    NamesAppend(u, v);
    assert Names([b[k]]) == [b[k].name];
    calc {
      multiset(Names(b));
      multiset(Names(u) + [b[k].name] + Names(v));
      multiset(Names(u)) + multiset{b[k].name} + multiset(Names(v));
      multiset(Names(u) + Names(v)) + multiset{b[k].name};
    }
  }

  /** Where a player occurs, and what is left without that occurrence. */
  lemma {:induction false} Occurrence(a: seq<Player>, b: seq<Player>) returns (k: nat)
    requires a != [] && multiset(a) == multiset(b)
    ensures k < |b| && b[k] == a[0]
    ensures multiset(a[1..]) == multiset(b[..k] + b[k + 1..])
  {
    assert a == [a[0]] + a[1..];
    assert a[0] in multiset(b);
    k :| 0 <= k < |b| && b[k] == a[0];
    RemoveAt(b, k);
    assert multiset(a) == multiset(a[1..]) + multiset{a[0]};
    MultisetCancel(multiset(a[1..]), multiset(b[..k] + b[k + 1..]), a[0]);
  }

  /** Taking out the element at index `k` takes out one copy of it. */
  lemma {:induction false} RemoveAt<T>(b: seq<T>, k: nat)
    requires k < |b|
    ensures multiset(b) == multiset(b[..k] + b[k + 1..]) + multiset{b[k]}
  {
    var u, v := b[..k], b[k + 1..];
    assert b == u + [b[k]] + v;
    calc {
      multiset(b);
      multiset(u) + multiset{b[k]} + multiset(v);
      multiset(u + v) + multiset{b[k]};
    }
  }

  /** Names of the same players, each as often, are the same names. */
  lemma {:induction false} NamesOfPermutation(a: seq<Player>, b: seq<Player>)
    requires multiset(a) == multiset(b)
    ensures multiset(Names(a)) == multiset(Names(b))
    decreases |a|
  {
    if a == [] {
      assert |b| == |multiset(b)| == 0;
    } else {
      var k := Occurrence(a, b);
      var rest := b[..k] + b[k + 1..];
      NamesOfPermutation(a[1..], rest);
      NamesRemoveAt(b, k);
      calc {
        multiset(Names(a));
        { NamesAppend([a[0]], a[1..]); assert [a[0]] + a[1..] == a; }
        multiset(Names([a[0]]) + Names(a[1..]));
        { assert Names([a[0]]) == [a[0].name]; }
        multiset([a[0].name]) + multiset(Names(a[1..]));
        multiset(Names(rest)) + multiset{b[k].name};
        multiset(Names(b));
      }
    }
  }

  /** A formed match: its id and court as given, both scores null, status
      `'upcoming'`, `perTeam` names on each side, and between them exactly
      the names of the match's players. */
  lemma {:induction false} MatchForFacts(c: TournamentConfig, group: seq<Player>, id: MatchId, court: int)
    requires |group| == MatchSize(c)
    ensures var mt := MatchFor(c, group, id, court);
      && mt.id == id && mt.court == court
      && mt.scoreTeam1 == None && mt.scoreTeam2 == None && mt.status == Upcoming
      && |mt.team1| == c.numPlayersPerTeam && |mt.team2| == c.numPlayersPerTeam
      && multiset(mt.team1 + mt.team2) == multiset(Names(group))
  {
    var (t1, t2) := TeamsOf(group, c.balanceTeamsByLevel, c.numPlayersPerTeam);
    TeamsSizes(group, c.balanceTeamsByLevel, c.numPlayersPerTeam);
    TeamsPartition(group, c.balanceTeamsByLevel, c.numPlayersPerTeam);
    NamesOfPermutation(t1 + t2, group);
    assert Names(t1 + t2) == Names(t1) + Names(t2);
  }

  /** Setting aside at most one tour's worth of players does not change how
      many matches the courts can form. */
  lemma {:induction false} SelectionCount(c: TournamentConfig, n: nat)
    ensures Min(c.numCourts, SelectionSize(c, n) / MatchSize(c)) == Min(c.numCourts, n / MatchSize(c))
  {
    var m := MatchSize(c);
    if c.numCourts * m <= n {
      DivIsQuotient(c.numCourts * m, m, c.numCourts);
      AboveQuotient(c.numCourts, n, m);
    }
  }

  /** Conservation: the players who played followed by the remaining pool are
      exactly the pool the tour drew from, which holds the same players as
      the given pool or, after a reshuffle, as the roster. */
  lemma {:induction false} SingleTourConserves(pool: seq<Player>, base: seq<Player>, c: TournamentConfig, draws: seq<nat>,
                            lastEnd: Option<int>, dayStart: int, nextId: MatchId)
    ensures var d := SingleTour(pool, base, c, draws, lastEnd, dayStart, nextId);
      && d.playersPlayed + d.remainingPlayersPool == PoolUsed(pool, base, c, draws)
      && multiset(d.playersPlayed + d.remainingPlayersPool)
         == (if |pool| < MatchSize(c) then multiset(base) else multiset(pool))
  {
    var p := PoolUsed(pool, base, c, draws);
    var d := SingleTour(pool, base, c, draws, lastEnd, dayStart, nextId);
    assert d.playersPlayed + d.remainingPlayersPool == p;
    ShuffledPermutes(base, draws);
  }

  /** Match count: `min(courts, floor(|pool| / matchSize))` matches, whose
      players are those who played. */
  lemma {:induction false} SingleTourCount(pool: seq<Player>, base: seq<Player>, c: TournamentConfig, draws: seq<nat>,
                          lastEnd: Option<int>, dayStart: int, nextId: MatchId)
    ensures var d := SingleTour(pool, base, c, draws, lastEnd, dayStart, nextId);
      var p := PoolUsed(pool, base, c, draws);
      && |d.matches| == Min(c.numCourts, |p| / MatchSize(c))
      && |d.playersPlayed| == |d.matches| * MatchSize(c)
  {
    CourtCount(c, PoolUsed(pool, base, c, draws));
  }

  /** Match order: match `i` is on court `i + 1`, has id `nextId + i` and is
      formed from the pool's `i`-th block of `matchSize` players. */
  lemma {:induction false} SingleTourCourts(pool: seq<Player>, base: seq<Player>, c: TournamentConfig, draws: seq<nat>,
                          lastEnd: Option<int>, dayStart: int, nextId: MatchId)
    ensures forall i :: 0 <= i < |SingleTour(pool, base, c, draws, lastEnd, dayStart, nextId).matches| ==>
      && HasBlock(PoolUsed(pool, base, c, draws), MatchSize(c), i)
      && SingleTour(pool, base, c, draws, lastEnd, dayStart, nextId).matches[i]
         == MatchFor(c, BlockOf(PoolUsed(pool, base, c, draws), MatchSize(c), i), nextId + i, i + 1)
  {
    var p := PoolUsed(pool, base, c, draws);
    var ms := SingleTour(pool, base, c, draws, lastEnd, dayStart, nextId).matches;
    CourtsAt(c, p, p[..SelectionSize(c, |p|)], nextId);
    forall i | 0 <= i < |ms|
      ensures HasBlock(p, MatchSize(c), i)
      ensures ms[i] == MatchFor(c, BlockOf(p, MatchSize(c), i), nextId + i, i + 1)
    {
      assert CourtPlays(c, p, ms, nextId, i);
    }
  }

  /** Court `i + 1` among the matches `ms` plays the `i`-th block of
      `matchSize` players of the pool `p`, under id `nextId + i`. */
  ghost predicate CourtPlays(c: TournamentConfig, p: seq<Player>, ms: seq<Match>, nextId: MatchId, i: nat)
  {
    && i < |ms|
    && HasBlock(p, MatchSize(c), i)
    && ms[i] == MatchFor(c, BlockOf(p, MatchSize(c), i), nextId + i, i + 1)
  }

  /** Court `i + 1` of those filled from a prefix `q` of the pool `p` plays
      the `i`-th block of `matchSize` players of `p`. */
  lemma {:induction false} CourtsAt(c: TournamentConfig, p: seq<Player>, q: seq<Player>, nextId: MatchId)
    requires |q| <= |p| && q == p[..|q|]
    ensures forall i :: 0 <= i < |Blocks(q, MatchSize(c), c.numCourts)| ==>
      CourtPlays(c, p, MatchesFor(c, Blocks(q, MatchSize(c), c.numCourts), nextId), nextId, i)
  {
    var ms := MatchesFor(c, Blocks(q, MatchSize(c), c.numCourts), nextId);
    forall i | 0 <= i < |ms| ensures CourtPlays(c, p, ms, nextId, i) {
      CourtMatch(c, p, q, nextId, i);
    }
  }

  /** The courts filled from the pool `p` form `min(courts, floor(|p| /
      matchSize))` matches and take that many blocks of players. */
  lemma {:induction false} CourtCount(c: TournamentConfig, p: seq<Player>)
    ensures var selection := p[..SelectionSize(c, |p|)];
      && |Blocks(selection, MatchSize(c), c.numCourts)| == Min(c.numCourts, |p| / MatchSize(c))
      && Dealt(selection, MatchSize(c), c.numCourts) == |Blocks(selection, MatchSize(c), c.numCourts)| * MatchSize(c)
  {
    var selection := p[..SelectionSize(c, |p|)];
    BlocksCount(selection, MatchSize(c), c.numCourts);
    DealtCount(selection, MatchSize(c), c.numCourts);
    SelectionCount(c, |p|);
  }

  /** Court `i + 1` gets the `i`-th block of `matchSize` players of the pool. */
  lemma {:induction false} CourtMatch(c: TournamentConfig, p: seq<Player>, q: seq<Player>, nextId: MatchId, i: nat)
    requires |q| <= |p| && q == p[..|q|]
    requires i < |Blocks(q, MatchSize(c), c.numCourts)|
    ensures HasBlock(p, MatchSize(c), i)
    ensures MatchesFor(c, Blocks(q, MatchSize(c), c.numCourts), nextId)[i]
         == MatchFor(c, BlockOf(p, MatchSize(c), i), nextId + i, i + 1)
  {
    var m := MatchSize(c);
    BlockAt(q, m, c.numCourts, i);
    assert BlockOf(q, m, i) == BlockOf(p, m, i);
  }

  /** Timing: the tour starts a break after the previous tour's actual end
      (at the configured start for the first tour) and lasts one match
      duration. */
  lemma {:induction false} SingleTourTiming(pool: seq<Player>, base: seq<Player>, c: TournamentConfig, draws: seq<nat>,
                         lastEnd: Option<int>, dayStart: int, nextId: MatchId)
    ensures var d := SingleTour(pool, base, c, draws, lastEnd, dayStart, nextId);
      && d.actualStartTime == (if lastEnd.Some? then lastEnd.value + c.breakDuration * MsPerMinute
                               else dayStart + MinutesOfDay(c.startTime) * MsPerMinute)
      && d.actualEndTime == d.actualStartTime + c.matchDuration * MsPerMinute
  {
  }
}
