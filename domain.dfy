/** The records the tour engine works on: players, matches, tours and the
    tournament configuration a schedule is generated from. */
module Domain {
  import opened Common
  import opened Clock

  type PlayerId = string

  /** Match identifiers stand for the fresh `crypto.randomUUID()` values: the
      caller supplies them from a counter, so they are distinct by construction. */
  type MatchId = nat

  type Positive = n: int | n >= 1 witness 1

  datatype Player = Player(id: PlayerId, name: string, level: int)

  /** Every generated match starts `'upcoming'`; it counts as played once both
      scores are entered, which the status field does not record. */
  datatype MatchStatus = Upcoming

  /** A match on one court: the two teams as player names and two scores that
      stay `null` until entered. */
  datatype Match = Match(
    id: MatchId,
    court: int,
    team1: seq<string>,
    team2: seq<string>,
    scoreTeam1: Option<int>,
    scoreTeam2: Option<int>,
    status: MatchStatus)

  /** A match counts as played once both scores are entered. */
  predicate Scored(m: Match)
  {
    m.scoreTeam1.Some? && m.scoreTeam2.Some?
  }

  /** A stored tournament, as the creation form accepts it: counts and
      durations are the validated numbers, times are `HH:MM` strings. */
  datatype TournamentConfig = TournamentConfig(
    name: string,
    numPlayers: nat,
    numCourts: Positive,
    matchDuration: Positive,
    breakDuration: nat,
    startTime: ClockString,
    endTime: ClockString,
    balanceTeamsByLevel: bool,
    numPlayersPerTeam: Positive,
    selectedPlayerIds: seq<PlayerId>)

  /** What `generateSingleTourMatches` returns: one round of matches, its
      timing and how the pool it drew from was split (its `tour` is `null`). */
  datatype TourDraft = TourDraft(
    matches: seq<Match>,
    actualStartTime: int,
    actualEndTime: int,
    playersPlayed: seq<Player>,
    remainingPlayersPool: seq<Player>)

  /** A tour as stored in a schedule: its 1-based number, its matches and
      timing, the pool split it came from and whether it has been finished. */
  datatype Tour = Tour(
    tour: nat,
    matches: seq<Match>,
    actualStartTime: int,
    actualEndTime: int,
    playersPlayed: seq<Player>,
    remainingPlayersPool: seq<Player>,
    isCompleted: bool)

  /** Numbers a draft; the tour starts unfinished. */
  function Commit(d: TourDraft, number: nat): Tour
  {
    Tour(number, d.matches, d.actualStartTime, d.actualEndTime, d.playersPlayed, d.remainingPlayersPool, false)
  }

  /** Players per match: two teams. */
  function MatchSize(c: TournamentConfig): int
  {
    2 * c.numPlayersPerTeam
  }

  function MatchMs(c: TournamentConfig): int
  {
    c.matchDuration * MsPerMinute
  }

  function BreakMs(c: TournamentConfig): int
  {
    c.breakDuration * MsPerMinute
  }

  /** Start-to-start distance of two consecutive tours. */
  function PeriodMs(c: TournamentConfig): int
  {
    (c.matchDuration + c.breakDuration) * MsPerMinute
  }

  function TournamentStart(c: TournamentConfig, dayStart: int): int
  {
    InstantToday(dayStart, c.startTime)
  }

  function TournamentEnd(c: TournamentConfig, dayStart: int): int
  {
    InstantToday(dayStart, c.endTime)
  }

  function Names(ps: seq<Player>): (r: seq<string>)
    ensures |r| == |ps|
    ensures forall i :: 0 <= i < |ps| ==> r[i] == ps[i].name
  {
    seq(|ps|, i requires 0 <= i < |ps| => ps[i].name)
  }

  /** `players.filter(p => selectedPlayerIds.includes(p.id))`: the roster a
      tournament draws from, in roster order. */
  function SelectedPlayers(players: seq<Player>, ids: seq<PlayerId>): (r: seq<Player>)
    ensures |r| <= |players|
    ensures forall p :: p in r <==> p in players && p.id in ids
  {
    if players == [] then []
    else
      var rest := SelectedPlayers(players[..|players| - 1], ids);
      var last := players[|players| - 1];
      assert players == players[..|players| - 1] + [last];
      if last.id in ids then rest + [last] else rest
  }
}
