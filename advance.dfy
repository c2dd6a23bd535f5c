/** Moving to the next tour, the schedule-and-cursor part of
    `handleNextTourLogic` (src/app.js:1265-1412). The current tour is
    finished (scores never entered become 0); then either the next
    pre-generated tour is re-timed from the current tour's actual end, or, at
    the end of the schedule, one more tour is generated from the rotated pool
    and appended. Either move is refused when the next tour would end after
    the configured end time. */
module TourAdvance {
  import opened Common
  import opened Clock
  import opened Domain
  import opened TourGeneration
  import opened ScheduleGeneration
  import opened Scores

  /** `if (score === null) score = 0` */
  function ScoreOrZero(s: Option<int>): int
  {
    if s.Some? then s.value else 0
  }

  /** A match as a finished tour keeps it. */
  function FinalizeMatch(m: Match): Match
  {
    m.(scoreTeam1 := Some(ScoreOrZero(m.scoreTeam1)), scoreTeam2 := Some(ScoreOrZero(m.scoreTeam2)))
  }

  /** The current tour once finished: its matches scored, the tour completed. */
  function Finalize(t: Tour): Tour
  {
    t.(matches := seq(|t.matches|, i requires 0 <= i < |t.matches| => FinalizeMatch(t.matches[i])), isCompleted := true)
  }

  /** A finished match is scored and is the same fixture; an entered score
      is kept and a missing one reads 0, so a scored match stays as it is. */
  lemma {:induction false} FinalizeMatchFacts(m: Match)
    ensures Scored(FinalizeMatch(m)) && SameFixture(m, FinalizeMatch(m))
    ensures m.scoreTeam1.Some? ==> FinalizeMatch(m).scoreTeam1 == m.scoreTeam1
    ensures m.scoreTeam2.Some? ==> FinalizeMatch(m).scoreTeam2 == m.scoreTeam2
    ensures m.scoreTeam1.None? ==> FinalizeMatch(m).scoreTeam1 == Some(0)
    ensures m.scoreTeam2.None? ==> FinalizeMatch(m).scoreTeam2 == Some(0)
    ensures Scored(m) ==> FinalizeMatch(m) == m
  {
  }

  /** Finishing a tour completes it, scores every match of it without
      touching the fixtures or an entered score, changes nothing else, and
      finishing it again changes nothing. */
  lemma {:induction false} FinalizeFacts(t: Tour)
    ensures Finalize(t).isCompleted && |Finalize(t).matches| == |t.matches|
    ensures forall i :: 0 <= i < |t.matches| ==>
      Scored(Finalize(t).matches[i]) && SameFixture(t.matches[i], Finalize(t).matches[i])
    ensures forall i :: 0 <= i < |t.matches| && Scored(t.matches[i]) ==> Finalize(t).matches[i] == t.matches[i]
    ensures Finalize(t).(matches := t.matches, isCompleted := t.isCompleted) == t
    ensures Finalize(Finalize(t)) == Finalize(t)
  {
    var f := Finalize(t);
    forall i | 0 <= i < |t.matches|
      ensures Scored(f.matches[i]) && SameFixture(t.matches[i], f.matches[i])
      ensures Scored(t.matches[i]) ==> f.matches[i] == t.matches[i]
      ensures FinalizeMatch(f.matches[i]) == f.matches[i]
    {
      FinalizeMatchFacts(t.matches[i]);
      FinalizeMatchFacts(f.matches[i]);
    }
    assert Finalize(f).matches == f.matches;
  }

  /** What advancing from tour `cursor` does. */
  datatype Step =
    | Advanced(schedule: seq<Tour>, cursor: nat, nextId: MatchId)
    /** the next tour would end after the configured end: nothing moves */
    | Refused
    /** the cursor is past the schedule and the next tour would fit: the
        source reads the pool of a tour that does not exist (a TypeError) */
    | MissingCurrentTour

  /** The schedule with the current tour finished, when there is one. */
  function Finalized(s: seq<Tour>, cursor: nat): seq<Tour>
  {
    if cursor < |s| then s[cursor := Finalize(s[cursor])] else s
  }

  /** The instant the next tour is timed from: the current tour's actual end,
      or the clock when the cursor is past the schedule. */
  function EndOfCurrent(s: seq<Tour>, cursor: nat, now: int): int
  {
    if cursor < |s| then s[cursor].actualEndTime else now
  }

  /** A tour moved to start at `start`, lasting one match. */
  function Retime(c: TournamentConfig, t: Tour, start: int): Tour
  {
    t.(actualStartTime := start, actualEndTime := start + MatchMs(c))
  }

  /** `handleNextTourLogic` on the schedule `s` at `cursor`, for the
      tournament's players `base`, the draws of the reshuffle a new tour may
      need, the current day and clock, and the id of the next new match. */
  function Advance(c: TournamentConfig, base: seq<Player>, draws: seq<nat>, dayStart: int, now: int,
                   s: seq<Tour>, cursor: nat, nextId: MatchId): Step
  {
    var finished := Finalized(s, cursor);
    var start := TourStart(c, Some(EndOfCurrent(s, cursor, now)), dayStart);
    if start + MatchMs(c) > TournamentEnd(c, dayStart) then Refused
    else if cursor + 1 < |s| then
      Advanced(finished[cursor + 1 := Retime(c, finished[cursor + 1], start)], cursor + 1, nextId)
    else if |s| <= cursor then MissingCurrentTour
    else
      var d := SingleTour(s[cursor].remainingPlayersPool + s[cursor].playersPlayed, base, c, draws,
                          Some(s[cursor].actualEndTime), dayStart, nextId);
      Advanced(finished + [Tour(|s| + 1, d.matches, start, start + MatchMs(c), d.playersPlayed, d.remainingPlayersPool, false)],
               |s|, nextId + |d.matches|)
  }

  /** A break and a match make one period. */
  lemma {:induction false} PeriodSplits(c: TournamentConfig)
    ensures BreakMs(c) + MatchMs(c) == PeriodMs(c)
  {
    assert (c.matchDuration + c.breakDuration) * MsPerMinute == c.matchDuration * MsPerMinute + c.breakDuration * MsPerMinute;
  }

  /** Advancing is refused exactly when one more period after the current
      tour's actual end (the clock's, past the schedule) overruns the end. */
  lemma {:induction false} AdvanceRefusal(c: TournamentConfig, base: seq<Player>, draws: seq<nat>, dayStart: int, now: int,
                                          s: seq<Tour>, cursor: nat, nextId: MatchId)
    ensures Advance(c, base, draws, dayStart, now, s, cursor, nextId).Refused?
        <==> EndOfCurrent(s, cursor, now) + PeriodMs(c) > TournamentEnd(c, dayStart)
  {
    PeriodSplits(c);
  }

  /** The source fails on a missing current tour exactly when the cursor is
      past the schedule and a tour starting a break from now would fit. */
  lemma {:induction false} AdvanceMissing(c: TournamentConfig, base: seq<Player>, draws: seq<nat>, dayStart: int, now: int,
                                          s: seq<Tour>, cursor: nat, nextId: MatchId)
    ensures Advance(c, base, draws, dayStart, now, s, cursor, nextId).MissingCurrentTour?
        <==> |s| <= cursor && now + PeriodMs(c) <= TournamentEnd(c, dayStart)
  {
    PeriodSplits(c);
  }

  /** Inside the pre-generated schedule an advance finishes the current
      tour, moves the next one to start a break after the current tour's
      actual end without touching its matches, pools or number, keeps every
      other tour, and moves the cursor by one. */
  lemma {:induction false} AdvanceWithin(c: TournamentConfig, base: seq<Player>, draws: seq<nat>, dayStart: int, now: int,
                                         s: seq<Tour>, cursor: nat, nextId: MatchId)
    requires cursor + 1 < |s|
    requires !Advance(c, base, draws, dayStart, now, s, cursor, nextId).Refused?
    ensures var r := Advance(c, base, draws, dayStart, now, s, cursor, nextId);
      && r.Advanced? && r.cursor == cursor + 1 && r.nextId == nextId && |r.schedule| == |s|
      && r.schedule[cursor] == Finalize(s[cursor])
      && r.schedule[cursor + 1].actualStartTime == s[cursor].actualEndTime + BreakMs(c)
      && r.schedule[cursor + 1].actualEndTime == r.schedule[cursor + 1].actualStartTime + MatchMs(c)
      && r.schedule[cursor + 1].(actualStartTime := s[cursor + 1].actualStartTime,
                                 actualEndTime := s[cursor + 1].actualEndTime) == s[cursor + 1]
      && forall j :: 0 <= j < |s| && j != cursor && j != cursor + 1 ==> r.schedule[j] == s[j]
  {
  }

  /** At the last tour an advance appends exactly one tour, numbered one
      past the schedule, even when it has no match: the tour the generator
      makes from the pool rotated as in pre-generation, timed from the last
      tour's actual end. */
  lemma {:induction false} AdvanceAppends(c: TournamentConfig, base: seq<Player>, draws: seq<nat>, dayStart: int, now: int,
                                          s: seq<Tour>, cursor: nat, nextId: MatchId)
    requires cursor + 1 == |s|
    requires !Advance(c, base, draws, dayStart, now, s, cursor, nextId).Refused?
    ensures var r := Advance(c, base, draws, dayStart, now, s, cursor, nextId);
      && r.Advanced? && r.cursor == cursor + 1 && |r.schedule| == |s| + 1
      && r.schedule[..|s|] == s[cursor := Finalize(s[cursor])]
      && r.schedule[|s|] == Commit(SingleTour(s[cursor].remainingPlayersPool + s[cursor].playersPlayed, base, c, draws,
                                              Some(s[cursor].actualEndTime), dayStart, nextId), |s| + 1)
      && r.nextId == nextId + |r.schedule[|s|].matches|
  {
    var r := Advance(c, base, draws, dayStart, now, s, cursor, nextId);
    SingleTourTiming(s[cursor].remainingPlayersPool + s[cursor].playersPlayed, base, c, draws,
                     Some(s[cursor].actualEndTime), dayStart, nextId);
    assert r.schedule[..|s|] == Finalized(s, cursor);
  }

  /** Tour `i` of a schedule runs on time: it is numbered `i + 1`, starts `i`
      periods after the configured start, lasts one match and ends by the
      configured end. */
  predicate OnTime(c: TournamentConfig, dayStart: int, t: Tour, i: nat)
  {
    && t.tour == i + 1
    && t.actualStartTime == TournamentStart(c, dayStart) + i * PeriodMs(c)
    && t.actualEndTime == t.actualStartTime + MatchMs(c)
    && t.actualEndTime <= TournamentEnd(c, dayStart)
  }

  predicate Chained(c: TournamentConfig, dayStart: int, s: seq<Tour>)
  {
    forall i :: 0 <= i < |s| ==> OnTime(c, dayStart, s[i], i)
  }

  /** The schedule as generation and advancing leave it: every tour on time,
      the cursor at most one past the end, every tour before it finished. */
  predicate ScheduleInv(c: TournamentConfig, dayStart: int, s: seq<Tour>, cursor: nat)
  {
    && cursor <= |s|
    && Chained(c, dayStart, s)
    && forall i :: 0 <= i < cursor ==> s[i].isCompleted
  }

  /** A freshly generated schedule, with the cursor on its first tour. */
  lemma {:induction false} GeneratedInv(c: TournamentConfig, base: seq<Player>, draws: seq<seq<nat>>, dayStart: int,
                                        nextId: MatchId, ts: seq<Tour>)
    requires ts == Schedule(c, base, draws, dayStart, nextId)
    ensures ScheduleInv(c, dayStart, ts, 0)
  {
    ScheduleShape(c, base, draws, dayStart, nextId, ts);
    forall i | 0 <= i < |ts| ensures OnTime(c, dayStart, ts[i], i) {
      ScheduleStart(c, base, draws, dayStart, nextId, ts, i);
    }
  }

  /** One period after tour `i` of a chained schedule ends, tour `i + 1` ends. */
  lemma {:induction false} NextOnTime(c: TournamentConfig, dayStart: int, i: nat, end: int)
    requires end == TournamentStart(c, dayStart) + i * PeriodMs(c) + MatchMs(c)
    ensures end + BreakMs(c) == TournamentStart(c, dayStart) + (i + 1) * PeriodMs(c)
  {
    NextPeriod(TournamentStart(c, dayStart), c, i + 1, end, end + BreakMs(c));
  }

  /** On a chained schedule re-timing changes nothing: inside it an advance
      is never refused and only finishes the current tour. */
  lemma {:induction false} RetimeIsIdentity(c: TournamentConfig, base: seq<Player>, draws: seq<nat>, dayStart: int, now: int,
                                            s: seq<Tour>, cursor: nat, nextId: MatchId)
    requires ScheduleInv(c, dayStart, s, cursor) && cursor + 1 < |s|
    ensures Advance(c, base, draws, dayStart, now, s, cursor, nextId) == Advanced(s[cursor := Finalize(s[cursor])], cursor + 1, nextId)
  {
    assert OnTime(c, dayStart, s[cursor], cursor) && OnTime(c, dayStart, s[cursor + 1], cursor + 1);
    NextOnTime(c, dayStart, cursor, s[cursor].actualEndTime);
    var f := s[cursor := Finalize(s[cursor])];
    assert Retime(c, f[cursor + 1], s[cursor].actualEndTime + BreakMs(c)) == s[cursor + 1];
  }

  /** On a chained schedule, advancing from tour `cursor` is refused exactly
      when a tour `cursor + 1` periods after the configured start would end
      after the configured end. */
  lemma {:induction false} AdvanceRefusedAt(c: TournamentConfig, base: seq<Player>, draws: seq<nat>, dayStart: int, now: int,
                                            s: seq<Tour>, cursor: nat, nextId: MatchId)
    requires ScheduleInv(c, dayStart, s, cursor) && cursor < |s|
    ensures Advance(c, base, draws, dayStart, now, s, cursor, nextId).Refused?
        <==> TournamentStart(c, dayStart) + (cursor + 1) * PeriodMs(c) + MatchMs(c) > TournamentEnd(c, dayStart)
  {
    assert OnTime(c, dayStart, s[cursor], cursor);
    NextOnTime(c, dayStart, cursor, s[cursor].actualEndTime);
    AdvanceRefusal(c, base, draws, dayStart, now, s, cursor, nextId);
    PeriodSplits(c);
  }

  /** Every advance keeps the schedule chained and finished up to the cursor. */
  lemma {:induction false} AdvanceKeepsInv(c: TournamentConfig, base: seq<Player>, draws: seq<nat>, dayStart: int, now: int,
                                           s: seq<Tour>, cursor: nat, nextId: MatchId)
    requires ScheduleInv(c, dayStart, s, cursor)
    requires Advance(c, base, draws, dayStart, now, s, cursor, nextId).Advanced?
    ensures var r := Advance(c, base, draws, dayStart, now, s, cursor, nextId);
      ScheduleInv(c, dayStart, r.schedule, r.cursor)
  {
    var r := Advance(c, base, draws, dayStart, now, s, cursor, nextId);
    FinalizeFacts(s[cursor]);
    if cursor + 1 < |s| {
      RetimeIsIdentity(c, base, draws, dayStart, now, s, cursor, nextId);
      assert forall i :: 0 <= i < |s| ==> r.schedule[i] == s[i] || r.schedule[i] == Finalize(s[i]);
    } else {
      AdvanceAppends(c, base, draws, dayStart, now, s, cursor, nextId);
      AdvanceRefusal(c, base, draws, dayStart, now, s, cursor, nextId);
      assert OnTime(c, dayStart, s[cursor], cursor);
      NextOnTime(c, dayStart, cursor, s[cursor].actualEndTime);
      SingleTourTiming(s[cursor].remainingPlayersPool + s[cursor].playersPlayed, base, c, draws,
                       Some(s[cursor].actualEndTime), dayStart, nextId);
      PeriodSplits(c);
      assert OnTime(c, dayStart, r.schedule[|s|], |s|);
      forall i | 0 <= i < |s| ensures OnTime(c, dayStart, r.schedule[i], i) {
        assert r.schedule[i] == r.schedule[..|s|][i];
      }
    }
  }

  /** The cursor a reloaded schedule resumes at: the first unfinished tour,
      or one past the end when every tour is finished (src/app.js:3120-3122). */
  function ResumeCursor(s: seq<Tour>): (r: nat)
    ensures r <= |s|
    ensures forall i :: 0 <= i < r ==> s[i].isCompleted
    ensures r < |s| ==> !s[r].isCompleted
  {
    if s == [] || !s[0].isCompleted then 0 else 1 + ResumeCursor(s[1..])
  }

  /** Resuming a chained schedule gives a cursor the invariant accepts. */
  lemma {:induction false} ResumeKeepsInv(c: TournamentConfig, dayStart: int, s: seq<Tour>)
    requires Chained(c, dayStart, s)
    ensures ScheduleInv(c, dayStart, s, ResumeCursor(s))
  {
  }

  /** `updateMatchScore` for both teams of one finished match. */
  function RecordMatch(h: seq<Match>, m: Match): (r: seq<Match>)
    ensures |r| == |h|
  {
    UpdateMatchScore(UpdateMatchScore(h, m.id, "team1", m.scoreTeam1), m.id, "team2", m.scoreTeam2)
  }

  /** The history after `updateMatchScore` has recorded both scores of each
      finished match, in order. */
  function RecordScores(h: seq<Match>, ms: seq<Match>): (r: seq<Match>)
    ensures |r| == |h|
  {
    if ms == [] then h else RecordMatch(RecordScores(h, ms[..|ms| - 1]), ms[|ms| - 1])
  }

  /** Recording one match writes its two scores into the first entry with
      its id and changes nothing else. */
  lemma {:induction false} RecordMatchFacts(h: seq<Match>, m: Match)
    ensures forall j :: 0 <= j < |h| ==> SameFixture(h[j], RecordMatch(h, m)[j])
    ensures forall j :: 0 <= j < |h| && FindMatch(h, m.id) != Some(j) ==> RecordMatch(h, m)[j] == h[j]
    ensures FindMatch(h, m.id).Some? ==>
      && RecordMatch(h, m)[FindMatch(h, m.id).value].scoreTeam1 == m.scoreTeam1
      && RecordMatch(h, m)[FindMatch(h, m.id).value].scoreTeam2 == m.scoreTeam2
  {
    UpdateMatchScoreFacts(h, m.id, "team1", m.scoreTeam1);
    var h2 := UpdateMatchScore(h, m.id, "team1", m.scoreTeam1);
    FindKept(h, h2, m.id);
    UpdateMatchScoreFacts(h2, m.id, "team2", m.scoreTeam2);
  }

  /** Recording keeps the history's fixtures, and leaves every entry whose
      id no recorded match has as it was. */
  lemma {:induction false} RecordScoresKeeps(h: seq<Match>, ms: seq<Match>)
    ensures forall j :: 0 <= j < |h| ==> SameFixture(h[j], RecordScores(h, ms)[j])
    ensures forall j :: 0 <= j < |h| && (forall m :: m in ms ==> m.id != h[j].id) ==> RecordScores(h, ms)[j] == h[j]
  {
    if ms != [] {
      var m := ms[|ms| - 1];
      var ms' := ms[..|ms| - 1];
      RecordScoresKeeps(h, ms');
      var h1 := RecordScores(h, ms');
      RecordMatchFacts(h1, m);
      forall j | 0 <= j < |h| && (forall m' :: m' in ms ==> m'.id != h[j].id)
        ensures RecordScores(h, ms)[j] == h[j]
      {
        assert m in ms;
        forall m' | m' in ms' ensures m'.id != h[j].id {
          assert m' in ms;
        }
      }
    }
  }

  /** Recording finished matches with distinct ids leaves, at the first
      history entry of each, exactly that match's two scores. */
  lemma {:induction false} RecordScoresWrites(h: seq<Match>, ms: seq<Match>, k: nat)
    requires forall a, b :: 0 <= a < b < |ms| ==> ms[a].id != ms[b].id
    requires k < |ms| && FindMatch(h, ms[k].id).Some?
    ensures var j := FindMatch(h, ms[k].id).value;
      RecordScores(h, ms)[j].scoreTeam1 == ms[k].scoreTeam1 && RecordScores(h, ms)[j].scoreTeam2 == ms[k].scoreTeam2
  {
    var m := ms[|ms| - 1];
    var ms' := ms[..|ms| - 1];
    var j := FindMatch(h, ms[k].id).value;
    RecordScoresKeeps(h, ms');
    var h1 := RecordScores(h, ms');
    FindKept(h, h1, m.id);
    RecordMatchFacts(h1, m);
    if k < |ms| - 1 {
      RecordScoresWrites(h, ms', k);
      assert ms'[k] == ms[k];
      assert FindMatch(h, m.id) != Some(j);
    }
  }

  /** The match history after the advance. Every finished score is recorded,
      unless a tour with matches is appended: its matches are then added to
      the history as it was when the advance began, so the recorded zeros
      are lost. */
  function HistoryAfter(h: seq<Match>, s: seq<Tour>, cursor: nat, step: Step): seq<Match>
  {
    if step.Advanced? && |s| < |step.schedule| && |step.schedule[|s|].matches| > 0 then h + step.schedule[|s|].matches
    else if cursor < |s| then RecordScores(h, Finalize(s[cursor]).matches)
    else h
  }
}
