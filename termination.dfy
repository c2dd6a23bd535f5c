/** `isTournamentFinishedState` (src/app.js:1215-1262): whether the day is
    over, which is also whether the "next tour" button is disabled
    (src/app.js:1788). Its last test counts how many match-plus-break
    periods fit in the window, while advancing checks whether the next tour
    itself ends in time; the two disagree when the next tour would start
    inside the window but end after it. */
module Termination {
  import opened Common
  import opened Clock
  import opened Domain
  import opened TourAdvance

  /** The predicate as written, for the selected tournament, the schedule's
      length, the cursor and the current day. The source caches the value
      and recomputes it only when the tournament, the schedule's length or
      the cursor changes, so `now` is the time of that last recomputation,
      not a live clock. */
  function IsTournamentFinishedState(tournament: Option<TournamentConfig>, scheduleLength: nat, cursor: nat,
                                     now: int, dayStart: int): bool
  {
    if tournament.None? || scheduleLength == 0 then true
    else
      var c := tournament.value;
      var window := TournamentEnd(c, dayStart) - TournamentStart(c, dayStart);
      if now > TournamentEnd(c, dayStart) then true
      else if window <= 0 then true
      else cursor + 1 > window / PeriodMs(c)
  }

  /** The predicate with its last test replaced by the one advancing
      applies: no further tour fits when the tour `cursor + 1` periods after
      the configured start would end after the configured end. */
  function NoFurtherTourFits(tournament: Option<TournamentConfig>, scheduleLength: nat, cursor: nat,
                             now: int, dayStart: int): bool
  {
    if tournament.None? || scheduleLength == 0 then true
    else
      var c := tournament.value;
      var window := TournamentEnd(c, dayStart) - TournamentStart(c, dayStart);
      if now > TournamentEnd(c, dayStart) then true
      else if window <= 0 then true
      else TournamentStart(c, dayStart) + (cursor + 1) * PeriodMs(c) + MatchMs(c) > TournamentEnd(c, dayStart)
  }

  /** With a tournament, a schedule, the day not over and a non-empty
      window, the predicate as written says finished exactly when `cursor + 1`
      whole periods do not fit in the window. */
  lemma {:induction false} FinishedCountsPeriods(c: TournamentConfig, scheduleLength: nat, cursor: nat, now: int, dayStart: int)
    requires scheduleLength > 0 && now <= TournamentEnd(c, dayStart)
    requires TournamentEnd(c, dayStart) - TournamentStart(c, dayStart) > 0
    ensures IsTournamentFinishedState(Some(c), scheduleLength, cursor, now, dayStart)
        <==> (cursor + 1) * PeriodMs(c) > TournamentEnd(c, dayStart) - TournamentStart(c, dayStart)
  {
    AboveQuotient(cursor + 1, TournamentEnd(c, dayStart) - TournamentStart(c, dayStart), PeriodMs(c));
  }

  /** The predicate as written never reports the day over too early: when
      it says finished, no further tour fits. */
  lemma {:induction false} FinishedMeansNoFit(tournament: Option<TournamentConfig>, scheduleLength: nat, cursor: nat,
                                              now: int, dayStart: int)
    requires IsTournamentFinishedState(tournament, scheduleLength, cursor, now, dayStart)
    ensures NoFurtherTourFits(tournament, scheduleLength, cursor, now, dayStart)
  {
    if tournament.Some? && scheduleLength > 0 {
      var c := tournament.value;
      if now <= TournamentEnd(c, dayStart) && TournamentEnd(c, dayStart) - TournamentStart(c, dayStart) > 0 {
        FinishedCountsPeriods(c, scheduleLength, cursor, now, dayStart);
      }
    }
  }

  /** While the day is not over, the corrected predicate holds exactly when
      advancing from the cursor is refused. */
  lemma {:induction false} NoFitMeansRefused(c: TournamentConfig, base: seq<Player>, draws: seq<nat>, dayStart: int, now: int,
                                             s: seq<Tour>, cursor: nat, nextId: MatchId)
    requires ScheduleInv(c, dayStart, s, cursor) && cursor < |s|
    requires now <= TournamentEnd(c, dayStart)
    ensures NoFurtherTourFits(Some(c), |s|, cursor, now, dayStart)
        <==> Advance(c, base, draws, dayStart, now, s, cursor, nextId).Refused?
  {
    assert OnTime(c, dayStart, s[0], 0);
    AdvanceRefusedAt(c, base, draws, dayStart, now, s, cursor, nextId);
  }

  /** The predicate as written keeps the "next tour" button enabled while
      advancing is refused whenever `cursor + 1` periods fit in the window
      but the next tour's match does not. */
  lemma {:induction false} FinishedTooLate(c: TournamentConfig, base: seq<Player>, draws: seq<nat>, dayStart: int, now: int,
                                           s: seq<Tour>, cursor: nat, nextId: MatchId)
    requires ScheduleInv(c, dayStart, s, cursor) && cursor < |s|
    requires now <= TournamentEnd(c, dayStart)
    requires TournamentStart(c, dayStart) + (cursor + 1) * PeriodMs(c) <= TournamentEnd(c, dayStart)
    requires TournamentStart(c, dayStart) + (cursor + 1) * PeriodMs(c) + MatchMs(c) > TournamentEnd(c, dayStart)
    ensures !IsTournamentFinishedState(Some(c), |s|, cursor, now, dayStart)
    ensures Advance(c, base, draws, dayStart, now, s, cursor, nextId).Refused?
  {
    assert OnTime(c, dayStart, s[0], 0);
    FinishedCountsPeriods(c, |s|, cursor, now, dayStart);
    AdvanceRefusedAt(c, base, draws, dayStart, now, s, cursor, nextId);
  }

  /** A 10:00-11:00 day of 20-minute matches without breaks. */
  function ExampleConfig(): TournamentConfig
  {
    TournamentConfig("", 2, 1, 20, 0, "10:00", "11:00", false, 1, [])
  }

  /** Its three pre-generated tours (no players), the first two finished. */
  function ExampleSchedule(): seq<Tour>
  {
    [Tour(1, [], 36_000_000, 37_200_000, [], [], true),
     Tour(2, [], 37_200_000, 38_400_000, [], [], true),
     Tour(3, [], 38_400_000, 39_600_000, [], [], false)]
  }

  /** On the third and last tour of that day, at 10:45, the predicate as
      written says the day is not over, yet advancing is refused. */
  lemma {:induction false} FinishedStateCounterexample()
    ensures !IsTournamentFinishedState(Some(ExampleConfig()), 3, 2, 38_700_000, 0)
    ensures Advance(ExampleConfig(), [], [], 0, 38_700_000, ExampleSchedule(), 2, 0).Refused?
  {
    var c := ExampleConfig();
    var s := ExampleSchedule();
    assert MinutesOfDay(c.startTime) == 600 && MinutesOfDay(c.endTime) == 660;
    assert OnTime(c, 0, s[0], 0) && OnTime(c, 0, s[1], 1) && OnTime(c, 0, s[2], 2);
    FinishedTooLate(c, [], [], 0, 38_700_000, s, 2, 0);
  }
}
