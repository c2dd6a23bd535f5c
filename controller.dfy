/** The state the `MatchSchedule` screen keeps about the selected
    tournament and the handlers that change it: generating the day's
    schedule (src/app.js:1501-1622), entering a score (src/app.js:1624-1640),
    moving to the next tour (src/app.js:1265-1412) or back
    (src/app.js:1745-1756), and reloading a saved schedule
    (src/app.js:3104-3123). Timers, modals and messages are not state here. */
module Controller {
  import opened Common
  import opened Clock
  import opened Domain
  import opened TourGeneration
  import opened ScheduleGeneration
  import opened Scores
  import opened TourAdvance
  import opened ConfigRules

  /** `tours.flatMap(tour => tour.matches)`: the history a fresh schedule
      saves, one entry per match, in tour and court order. */
  function AllMatches(ts: seq<Tour>): (r: seq<Match>)
    ensures |r| == MatchCount(ts)
  {
    if ts == [] then [] else ts[0].matches + AllMatches(ts[1..])
  }

  /** The `forEach` that writes both scores of every finished match into
      the saved history, one `updateMatchScore` call per team. */
  method SaveScores(h: seq<Match>, ms: seq<Match>) returns (r: seq<Match>)
    ensures r == RecordScores(h, ms)
  {
    r := h;
    var i := 0;
    while i < |ms|
      invariant 0 <= i <= |ms|
      invariant r == RecordScores(h, ms[..i])
    {
      assert ms[..i + 1][..i] == ms[..i];
      r := UpdateMatchScore(r, ms[i].id, "team1", ms[i].scoreTeam1);
      r := UpdateMatchScore(r, ms[i].id, "team2", ms[i].scoreTeam2);
      i := i + 1;
    }
    assert ms[..i] == ms;
  }

  /** The body of `handleNextTourLogic` on values: finish the current tour,
      record its scores, then re-time the next tour or generate a new one,
      unless the next tour would end after the tournament's end. Returns the
      step and the saved history the queued updates leave behind. */
  method NextTourStep(c: TournamentConfig, base: seq<Player>, draws: seq<nat>, dayStart: int, now: int,
                      s: seq<Tour>, k: nat, id0: MatchId, history: seq<Match>)
    returns (step: Step, h: seq<Match>)
    ensures step == Advance(c, base, draws, dayStart, now, s, k, id0)
    ensures h == HistoryAfter(history, s, k, step)
  {
    ghost var expected := Advance(c, base, draws, dayStart, now, s, k, id0);
    var updated := Finalized(s, k);
    var recorded := history;
    if k < |s| {
      recorded := SaveScores(history, updated[k].matches);
    }
    var endOfCurrent := EndOfCurrent(s, k, now);
    var start := TourStart(c, Some(endOfCurrent), dayStart);
    var end := start + MatchMs(c);
    if end > TournamentEnd(c, dayStart) {
      assert expected == Refused;
      return Refused, recorded;
    }
    if k + 1 < |s| {
      updated := updated[k + 1 := Retime(c, updated[k + 1], start)];
      step, h := Advanced(updated, k + 1, id0), recorded;
      assert step == expected;
    } else if |s| <= k {
      assert expected == MissingCurrentTour;
      return MissingCurrentTour, history;
    } else {
      var d := GenerateSingleTourMatches(s[k].remainingPlayersPool + s[k].playersPlayed, base, c, draws,
                                         Some(endOfCurrent), dayStart, id0);
      var newTour := Tour(|s| + 1, d.matches, start, end, d.playersPlayed, d.remainingPlayersPool, false);
      updated := updated + [newTour];
      step := Advanced(updated, |s|, id0 + |d.matches|);
      assert step == expected;
      h := if |newTour.matches| > 0 then history + newTour.matches else recorded;
    }
  }

  /** `AdvanceKeepsInv` for a step already taken. */
  lemma {:induction false} StepKeepsInv(c: TournamentConfig, base: seq<Player>, draws: seq<nat>, dayStart: int, now: int,
                                        s: seq<Tour>, k: nat, id0: MatchId, step: Step)
    requires step == Advance(c, base, draws, dayStart, now, s, k, id0) && step.Advanced?
    ensures ScheduleInv(c, dayStart, s, k) ==> ScheduleInv(c, dayStart, step.schedule, step.cursor)
  {
    if ScheduleInv(c, dayStart, s, k) {
      AdvanceKeepsInv(c, base, draws, dayStart, now, s, k, id0);
    }
  }

  class MatchSchedule {
    /** The selected tournament. */
    var config: TournamentConfig
    /** Every player of the roster; the tournament uses the selected ones. */
    var players: seq<Player>
    /** `generatedScheduleTours` */
    var schedule: seq<Tour>
    /** `currentTourIndex` */
    var cursor: nat
    /** The tournament's saved matches. */
    var history: seq<Match>
    /** Stands for the fresh ids new matches receive. */
    var nextId: MatchId
    /** `lastGeneratedTournamentConfig` */
    var lastGenerated: Option<TournamentConfig>

    constructor(config: TournamentConfig, players: seq<Player>, nextId: MatchId)
      ensures this.config == config && this.players == players && this.nextId == nextId
      ensures schedule == [] && cursor == 0 && history == [] && lastGenerated == None
    {
      this.config := config;
      this.players := players;
      this.nextId := nextId;
      schedule := [];
      cursor := 0;
      history := [];
      lastGenerated := None;
    }

    /** `players.filter(p => selectedPlayerIds.includes(p.id))` */
    function Roster(): seq<Player>
      reads this
    {
      SelectedPlayers(players, config.selectedPlayerIds)
    }

    /** `configHasChanged`: a schedule was generated from a configuration
        that no longer compares equal to the selected one. */
    function ConfigHasChanged(): bool
      reads this
    {
      lastGenerated.Some? && !AreTournamentConfigsEqual(Some(config), lastGenerated)
    }

    /** `generateMatchSchedule`: when the loop yields no tour nothing
        changes; otherwise the schedule replaces the old one, the cursor goes
        to its first tour and its matches replace the saved history. */
    method GenerateMatchSchedule(draws: seq<seq<nat>>, dayStart: int)
      modifies this
      ensures config == old(config) && players == old(players)
      ensures Schedule(config, old(Roster()), draws, dayStart, old(nextId)) == [] ==>
        && schedule == old(schedule) && cursor == old(cursor) && history == old(history)
        && nextId == old(nextId) && lastGenerated == old(lastGenerated)
      ensures Schedule(config, old(Roster()), draws, dayStart, old(nextId)) != [] ==>
        && schedule == Schedule(config, old(Roster()), draws, dayStart, old(nextId))
        && cursor == 0 && history == AllMatches(schedule) && nextId == old(nextId) + |history|
        && lastGenerated == Some(config) && !ConfigHasChanged()
        && ScheduleInv(config, dayStart, schedule, cursor)
    {
      var tours, idAfter := GenerateTours(config, SelectedPlayers(players, config.selectedPlayerIds), draws, dayStart, nextId);
      if tours == [] {
        return;
      }
      GeneratedInv(config, SelectedPlayers(players, config.selectedPlayerIds), draws, dayStart, nextId, tours);
      ConfigsEqualReflexive(config);
      schedule := tours;
      cursor := 0;
      lastGenerated := Some(config);
      history := AllMatches(tours);
      nextId := idAfter;
    }

    /** `handleNextTourLogic`: the step `Advance` describes, with the history
        updated as the source's queued state updates leave it. */
    method NextTour(draws: seq<nat>, now: int, dayStart: int) returns (step: Step)
      modifies this
      ensures config == old(config) && players == old(players) && lastGenerated == old(lastGenerated)
      ensures step == Advance(config, Roster(), draws, dayStart, now, old(schedule), old(cursor), old(nextId))
      ensures step.Advanced? ==> schedule == step.schedule && cursor == step.cursor && nextId == step.nextId
      ensures !step.Advanced? ==> schedule == old(schedule) && cursor == old(cursor) && nextId == old(nextId)
      ensures history == HistoryAfter(old(history), old(schedule), old(cursor), step)
      ensures ScheduleInv(config, dayStart, old(schedule), old(cursor)) && step.Advanced? ==>
        ScheduleInv(config, dayStart, schedule, cursor)
    {
      var s, k, id0 := schedule, cursor, nextId;
      var base := SelectedPlayers(players, config.selectedPlayerIds);
      var h;
      step, h := NextTourStep(config, base, draws, dayStart, now, s, k, id0, history);
      history := h;
      if step.Advanced? {
        schedule, cursor, nextId := step.schedule, step.cursor, step.nextId;
        StepKeepsInv(config, base, draws, dayStart, now, s, k, id0, step);
      }
    }

    /** `handleMatchScoreChange`: one score of a match of the current tour,
        written into the schedule and into the saved history. */
    method ScoreChange(matchIdx: nat, team: string, score: Option<int>, ghost dayStart: int)
      requires cursor < |schedule| && matchIdx < |schedule[cursor].matches|
      modifies this
      ensures config == old(config) && players == old(players) && cursor == old(cursor)
      ensures nextId == old(nextId) && lastGenerated == old(lastGenerated)
      ensures |schedule| == |old(schedule)|
      ensures forall j :: 0 <= j < |schedule| && j != cursor ==> schedule[j] == old(schedule)[j]
      ensures var t := old(schedule)[cursor];
        schedule[cursor] == t.(matches := t.matches[matchIdx := SetScore(t.matches[matchIdx], team, score)])
      ensures history == UpdateMatchScore(old(history), old(schedule)[cursor].matches[matchIdx].id, team, score)
      ensures ScheduleInv(config, dayStart, old(schedule), cursor) ==> ScheduleInv(config, dayStart, schedule, cursor)
    {
      var t := schedule[cursor];
      var m := t.matches[matchIdx];
      schedule := schedule[cursor := t.(matches := t.matches[matchIdx := SetScore(m, team, score)])];
      history := UpdateMatchScore(history, m.id, team, score);
    }

    /** `handlePreviousTour`: back one tour, never before the first. */
    method PreviousTour(ghost dayStart: int)
      modifies this
      ensures cursor == if old(cursor) > 0 then old(cursor) - 1 else old(cursor)
      ensures schedule == old(schedule) && history == old(history) && nextId == old(nextId)
      ensures config == old(config) && players == old(players) && lastGenerated == old(lastGenerated)
      ensures ScheduleInv(config, dayStart, schedule, old(cursor)) ==> ScheduleInv(config, dayStart, schedule, cursor)
    {
      if cursor > 0 {
        cursor := cursor - 1;
      }
    }

    /** Selecting a tournament with a saved schedule: the saved schedule is
        taken only when its length differs from the one on screen (tours
        carry no `id`, so the source's first-tour test never fires), and the
        cursor resumes at its first unfinished tour. */
    method LoadSchedule(saved: seq<Tour>, ghost dayStart: int)
      modifies this
      ensures |saved| == |old(schedule)| ==>
        schedule == old(schedule) && cursor == old(cursor) && lastGenerated == old(lastGenerated)
      ensures |saved| != |old(schedule)| ==>
        schedule == saved && cursor == ResumeCursor(saved) && lastGenerated == Some(config)
      ensures history == old(history) && nextId == old(nextId) && config == old(config) && players == old(players)
      ensures |saved| != |old(schedule)| && Chained(config, dayStart, saved) ==> ScheduleInv(config, dayStart, schedule, cursor)
      ensures |saved| != |old(schedule)| ==> !ConfigHasChanged()
    {
      if |saved| != |schedule| {
        schedule := saved;
        lastGenerated := Some(config);
        cursor := ResumeCursor(saved);
        ConfigsEqualReflexive(config);
      }
    }
  }
}
