# MatchPlanner tour engine

MatchPlanner runs a friendly tournament on a few courts during one day.
Players are selected for a tournament. The schedule screen then cuts the day
into *tours*. A tour is one round of matches, one match per court, followed
by a break. Players who just played go to the back of the pool, so everyone
gets a turn.

This project models the tour engine inside the `MatchSchedule` screen of
`src/app.js`, plus the pure helpers around it:

- **One tour** (`generateSingleTourMatches`). If the pool is too small it
  reshuffles the whole roster. It takes one tour's worth of players from the
  front of the pool and fills courts 1, 2, … with full matches. It splits each
  match into two teams, either by halves or by level, alternating.
- **The day's schedule** (`generateMatchSchedule`). It repeats the single tour
  from the pool the previous tour left. It stops when a tour would end after
  the configured end, or at 50 tours.
- **Advancing** (`handleNextTourLogic`):
  - It finishes the current tour: a missing score becomes 0.
  - It records the scores in the saved history.
  - It then either re-times the next pre-generated tour or appends one new
    tour.
  - It refuses when that tour would end after the configured end.
- **The end-of-day test** (`isTournamentFinishedState`). It disables the
  "next tour" button. The value is cached: it is recomputed, with the time
  of that moment, only when the tournament, the schedule's length or the
  cursor changes.
- **Smaller pieces:**
  - the Fisher–Yates shuffle;
  - the `MM:SS` countdown format;
  - the tournament form's checks;
  - the configuration comparison;
  - `updateMatchScore`;
  - the ranking;
  - the bench;
  - the past/upcoming split;
  - reloading a saved schedule.

Instants are integer milliseconds, and `dayStart` is the midnight of the
current day. `Math.random` is replaced by recorded draws. `crypto.randomUUID`
is replaced by a counter of fresh match ids. The screen's state is the class
`Controller.MatchSchedule`, whose handlers are methods.

The files and modules:

- `common.dfy`, `clock.dfy`, `domain.dfy`: shared helpers and the records.
- `shuffle.dfy`, `sorting.dfy`: the shuffle and the sort.
- `chunks.dfy`, `team_formation.dfy`, `tour_generation.dfy`: one tour.
- `schedule_generation.dfy`: the day's schedule.
- `advance.dfy` (module `TourAdvance`), `termination.dfy`: advancing and the
  end of the day.
- `scores.dfy`, `views.dfy`, `ranking.dfy`: scores, views and the ranking.
- `config_rules.dfy`: the form's checks and the configuration comparison.
- `controller.dfy`: the screen's state and handlers.

## Model

| member | source | states |
|---|---|---|
| Clock.DecimalDigits | src/app.js:1099-1103 | `toString` of a count yields at least one digit, all digits, reading back as the count |
| Clock.Pad2Digits | src/app.js:1099-1103 | `padStart(2, '0')` gives at least two digits, exactly two below 100, and keeps the value |
| Clock.FormatTimeRoundTrip | src/app.js:1099-1103 | `formatTime` gives minutes, a colon and two seconds digits; reading them back gives minutes·60+seconds, with seconds below 60 |
| Clock.ParseClockOfPadded | src/app.js:1227-1231 | an `HH:MM` string made of two padded numbers splits back into hours·60+minutes |
| Shuffle.SwapPermutes | src/app.js:88-91 | one swap of the shuffle keeps the multiset of elements |
| Shuffle.ShuffleArray | src/app.js:87-93 | the in-place loop leaves the array equal to the `Shuffled` specification of its old contents |
| Shuffle.ShuffledPermutes | src/app.js:87-93 | a shuffle keeps the length and the multiset: nothing lost or duplicated |
| Shuffle.ShuffledDownSameDraws | src/app.js:88-90 | steps `i` down to 1 depend only on the draws of those steps |
| Shuffle.ShuffleReachesEveryPermutation | src/app.js:87-93 | every rearrangement of the input is the outcome of some draws |
| Sorting.Insert | src/app.js:1151 | inserting adds exactly the element to the multiset |
| Sorting.InsertionSort | src/app.js:2230-2235 | the sort keeps the multiset of its input |
| Sorting.InsertKeepsSorted | src/app.js:2230-2235 | for a total preorder, insertion into a sorted list keeps it sorted |
| Sorting.InsertionSortSorted | src/app.js:2230-2235 | for a total preorder, the output is sorted |
| Sorting.InsertionSortPermutes | src/app.js:1151 | the output has the input's length and elements, each as often |
| TeamFormation.SortByLevel | src/app.js:1151 | sorting a match by level keeps its players |
| TeamFormation.Rebalance | src/app.js:1160-1166 | the two `while` loops compute `Rebalanced` |
| TeamFormation.Deal | src/app.js:1153-1159 | the alternating loop gives the even positions to team 1 and the odd ones to team 2 |
| TeamFormation.FormTeams | src/app.js:1147-1171 | the team-forming block equals `TeamsOf` in both modes |
| TeamFormation.DealOne | src/app.js:1153-1159 | dealing one more player extends the even or the odd positions by its parity |
| TeamFormation.SpillFacts | src/app.js:1160-1166 | a spill loop conserves players, leaves at most `p` in its source, and moves no one when the source fits |
| TeamFormation.RebalancedFacts | src/app.js:1160-1166 | rebalancing conserves players, makes two teams of `p` out of `2p`, and leaves fitting teams alone |
| TeamFormation.EvensOddsPartition | src/app.js:1153-1159 | even and odd positions together hold every player once |
| TeamFormation.TeamsSizes | src/app.js:1147-1171 | each team has exactly `numPlayersPerTeam` players in either mode |
| TeamFormation.TeamsPartition | src/app.js:1147-1171 | the two teams together are the match's players, each once |
| TeamFormation.UnbalancedHalves | src/app.js:1168-1171 | without balancing, team 1 is the first half and team 2 the second |
| TeamFormation.BalancedPairing | src/app.js:1151-1166 | with balancing, the rebalance loops move no one and `team1[i].level <= team2[i].level` |
| Chunks.BlocksStop | src/app.js:1133-1138 | the court loop stops when all courts are filled or fewer than one match of players remain |
| Chunks.BlocksCount | src/app.js:1133-1143 | the courts form `min(courts, floor(n / matchSize))` matches |
| Chunks.DealtCount | src/app.js:1139-1142 | the courts take exactly matchSize players per match |
| Chunks.BlocksFlatten | src/app.js:1133-1143 | the matches' players, in order, are a prefix of the set-aside players |
| Chunks.BlockAt | src/app.js:1139-1142 | court `i+1` gets the `i`-th run of matchSize consecutive players |
| Chunks.DealingDone | src/app.js:1133-1143 | once the loop stops, it has dealt exactly the blocks and left the rest |
| TourGeneration.TakeFront | src/app.js:1121-1129 | the shifting loop takes `min(limit, pool size)` players from the front and leaves the rest |
| TourGeneration.FormMatch | src/app.js:1139-1182 | one court takes the next matchSize players and forms their match |
| TourGeneration.FillCourts | src/app.js:1133-1185 | the court loop yields the matches of the blocks, the players who played and the leftover |
| TourGeneration.Refill | src/app.js:1115-1117 | the pool used is the given pool, or the shuffled roster when the pool holds less than one match |
| TourGeneration.TourTimes | src/app.js:1190-1200 | the tour starts at `TourStart` and lasts one match |
| TourGeneration.GenerateSingleTourMatches | src/app.js:1105-1212 | the procedure's draft equals the `SingleTour` specification |
| TourGeneration.MatchForFacts | src/app.js:1173-1182 | a formed match has its id and court, null scores, status upcoming, two teams of `perTeam`, holding the group's names |
| TourGeneration.SingleTourConserves | src/app.js:1110-1188 | played followed by remaining is the pool used, the same players as the given pool, or the roster after a reshuffle |
| TourGeneration.SingleTourCount | src/app.js:1121-1143 | the tour has `min(courts, floor(pool size / matchSize))` matches and `matches·matchSize` players played |
| TourGeneration.SingleTourCourts | src/app.js:1133-1183 | match `i` is on court `i+1`, has id `nextId+i` and plays the `i`-th block of the pool, front to back |
| TourGeneration.SingleTourTiming | src/app.js:1190-1200 | the first tour starts at the configured start, later ones a break after the previous actual end; each lasts one match |
| ScheduleGeneration.GenerateTours | src/app.js:1532-1590 | the `while (true)` loop computes `Schedule` and uses exactly its matches' ids |
| ScheduleGeneration.ScheduleShape | src/app.js:1552-1590 | at most 50 tours, numbered 1..k, unfinished, each ending by the configured end |
| ScheduleGeneration.ScheduleTour | src/app.js:1552-1590 | tour `i` is the single tour from the pool and end the previous tour left |
| ScheduleGeneration.ScheduleStart | src/app.js:1555-1561 | tour `i` starts `i` periods (match plus break) after the configured start and lasts one match |
| ScheduleGeneration.ScheduleNoOverlap | src/app.js:1555-1561 | each tour starts one break after the previous one ends, and every tour ends no later than any later tour starts |
| ScheduleGeneration.ScheduleMaximal | src/app.js:1563-1590 | below 50 tours, one more tour would end after the configured end |
| ScheduleGeneration.ScheduleRotation | src/app.js:1583 | tour `i+1` is generated from tour `i`'s remaining pool followed by its players |
| ScheduleGeneration.ScheduleConserves | src/app.js:1532-1583 | every tour's played and remaining players are the tournament's players, each once |
| Scores.FindMatch | src/app.js:165 | `findIndex`: the first index with the id, or none exactly when no entry has it |
| Scores.UpdateMatchScoreFacts | src/app.js:162-181 | an absent id changes nothing; otherwise only the first match with the id gets the score for `team1` (any other team name: team 2), and every fixture is unchanged |
| Scores.UpdateMatchScoreIdempotent | src/app.js:162-181 | writing the same score twice is writing it once |
| Scores.FindKept | src/app.js:162-181 | histories with the same ids find the same index |
| Views.PastUpcomingPartition | src/app.js:2527-2535 | past and upcoming together are the history; a match is past exactly when both scores are entered |
| Views.PastSnoc | src/app.js:2527-2530 | a later match adds to the past matches exactly when it is scored |
| Views.PlayingMembers | src/app.js:1761-1766 | a name is playing exactly when it is in a team of the current tour |
| Views.BenchMembers | src/app.js:1759-1770 | a name is on the bench exactly when a selected player has it and no team of the current tour does |
| Views.BenchOfMembers | src/app.js:1768-1770 | the bench filter keeps exactly the players whose names are not playing |
| TourAdvance.FinalizeMatchFacts | src/app.js:1273-1278 | a finished match is scored with the same fixture; a missing score reads 0, an entered one is kept |
| TourAdvance.FinalizeFacts | src/app.js:1272-1284 | finishing completes the tour, scores every match, keeps fixtures, entered scores and other fields, and is idempotent |
| TourAdvance.AdvanceRefusal | src/app.js:1304-1357 | advancing is refused exactly when a break and a match after the current end overrun the end |
| TourAdvance.AdvanceMissing | src/app.js:1304-1360 | the missing-tour failure happens exactly when the cursor is past the schedule and a tour from now would fit |
| TourAdvance.AdvanceWithin | src/app.js:1308-1341 | inside the schedule: finish the current tour, re-time only the next one from the actual end, move the cursor by one |
| TourAdvance.AdvanceAppends | src/app.js:1342-1406 | at the last tour: append exactly one tour numbered one past the schedule's length, even with no match, from the rotated pool; the cursor goes to it |
| TourAdvance.GeneratedInv | src/app.js:1552-1597 | a generated schedule with the cursor at 0 satisfies the schedule invariant |
| TourAdvance.NextOnTime | src/app.js:1313 | a break after tour `i`'s on-time end is tour `i+1`'s start |
| TourAdvance.RetimeIsIdentity | src/app.js:1308-1337 | on a chained schedule an advance inside it is never refused and only finishes the current tour |
| TourAdvance.AdvanceRefusedAt | src/app.js:1304-1357 | on a chained schedule, refusal happens exactly when tour `cursor+1` periods after the start would end after the end |
| TourAdvance.AdvanceKeepsInv | src/app.js:1265-1412 | every advance keeps tours on time and finished before the cursor |
| TourAdvance.ResumeCursor | src/app.js:3119-3121 | the cursor is the first unfinished tour, or the length when all are finished |
| TourAdvance.ResumeKeepsInv | src/app.js:3119-3121 | resuming a chained schedule satisfies the invariant |
| TourAdvance.RecordMatchFacts | src/app.js:1287-1288 | both scores go to the first entry with the match's id; fixtures and other entries are unchanged |
| TourAdvance.RecordScoresKeeps | src/app.js:1286-1289 | recording leaves entries whose ids are not recorded unchanged, and keeps every fixture |
| TourAdvance.RecordScoresWrites | src/app.js:1286-1289 | with distinct ids, each recorded match's scores end up at its first entry in the history |
| Termination.FinishedCountsPeriods | src/app.js:1241-1258 | in the non-trivial case the predicate says finished exactly when `cursor+1` periods exceed the window |
| Termination.FinishedMeansNoFit | src/app.js:1215-1262 | the predicate as written never reports the end too early |
| Termination.NoFitMeansRefused | src/app.js:1313-1357 | the corrected predicate holds exactly when advancing is refused |
| Termination.FinishedTooLate | src/app.js:1251-1258 | when `cursor+1` periods fit but the next match does not, the predicate says not finished while advancing is refused |
| Termination.FinishedStateCounterexample | src/app.js:1251-1258 | a concrete 10:00–11:00 day on which the button stays enabled and advancing is refused |
| Ranking.CalculateRanking | src/app.js:2186-2238 | the loops over matches and teams and the sort compute `RankingOf` |
| Ranking.CreditFacts | src/app.js:2197-2207 | one credit adds the player if new and credits points and a win or loss to that player only |
| Ranking.CreditTeamFacts | src/app.js:2197-2222 | crediting a team credits each name as often as it appears in the team |
| Ranking.CreditTwice | src/app.js:2201-2206 | crediting `k` times then once is crediting `k+1` times |
| Ranking.TallyPerPlayer | src/app.js:2189-2224 | the shared table holds exactly the players of scored matches, each with the per-player sums |
| Ranking.RankLeTotalPreorder | src/app.js:2230-2235 | the comparator orders any two rows and chains |
| Ranking.RankingSorted | src/app.js:2226-2235 | the ranking is sorted by wins, then difference, then points for, and is a permutation of the rows |
| Ranking.RankingRows | src/app.js:2226-2229 | every row is a player of a scored match with their wins, losses, points and difference |
| Ranking.RankingComplete | src/app.js:2189-2229 | every player of a scored match has a row |
| Ranking.RankingDistinct | src/app.js:2226-2229 | no name has two rows |
| Ranking.RankingOnlyPlayed | src/app.js:2190 | matches missing a score do not affect the ranking |
| ConfigRules.Trim | src/app.js:483 | `trim` never lengthens and leaves no space at either end |
| ConfigRules.TrimIdempotent | src/app.js:483 | trimming twice is trimming once |
| ConfigRules.TrimTimeInput | src/app.js:488 | a time input trims to empty exactly when it is empty |
| ConfigRules.ValidateFormAccepts | src/app.js:482-511 | the form is accepted exactly when every listed field is valid, one tour fills every court, and the end is after the start |
| ConfigRules.NoPlayersUnreachable | src/app.js:482-498 | the "no player" message is never shown; an empty selection fails the first check |
| ConfigRules.AcceptedConfig | src/app.js:482-511 | an accepted tournament counts its selected players, fills every court, has a non-empty window and a trimmed name |
| ConfigRules.ConfigsEqualReflexive | src/app.js:1037-1065 | every configuration compares equal to itself |
| ConfigRules.ConfigsEqualIff | src/app.js:1037-1065 | without repeated ids: equal exactly when plain fields agree and the same set of players is selected; the comparison is symmetric |
| ConfigRules.ConfigsEqualAsymmetric | src/app.js:1057-1064 | with a repeated id the comparison is one-sided |
| Controller.AllMatches | src/app.js:1608-1619 | the saved matches number exactly the schedule's matches |
| Controller.SaveScores | src/app.js:1286-1289 | the `forEach` computes `RecordScores` |
| Controller.NextTourStep | src/app.js:1265-1412 | the handler's computation is `Advance`, and it leaves the history `HistoryAfter` describes |
| Controller.StepKeepsInv | src/app.js:1265-1412 | a step taken from an invariant state keeps the invariant |
| Controller.MatchSchedule.GenerateMatchSchedule | src/app.js:1501-1622 | with no tour nothing changes; otherwise the schedule and history are replaced, the cursor is 0, the config is no longer "changed", and the invariant holds |
| Controller.MatchSchedule.NextTour | src/app.js:1265-1412 | the state becomes what `Advance` gives (unchanged when not advanced), the history what `HistoryAfter` gives, and the invariant is kept |
| Controller.MatchSchedule.ScoreChange | src/app.js:1625-1641 | one score of one current match changes in the schedule and in the history; nothing else changes |
| Controller.MatchSchedule.PreviousTour | src/app.js:1745-1756 | the cursor goes back one, never below 0, and keeps the invariant |
| Controller.MatchSchedule.LoadSchedule | src/app.js:3104-3122 | a saved schedule of a different length is taken and resumed at its first unfinished tour |

## Left out

- Persistence in `localStorage`: the saved schedule and the saved matches are the class's `schedule` and `history` fields.
- The display strings `startTime`/`endTime`, built with `toLocaleTimeString`, are not modelled. Neither are ISO strings, time zones, daylight-saving shifts or date rollover. Instants are integers from `dayStart`.
- Timers, the countdown state, modals, navigation and messages. These are UI.
- `Math.random` and `crypto.randomUUID` are not modelled. Draws are parameters and ids come from a counter.
- The `if (!selectedTournament) return` guards: the class always holds a tournament. `Termination.IsTournamentFinishedState` keeps the `Option`.
- History entries carry extra fields (tour number, tournament id, times, timestamp). Those fields are dropped: the history stores plain matches.
- `Controller.MatchSchedule.ScoreChange` takes the score as already parsed. Text that `parseInt` turns into `NaN` is not modelled.
- `Controller.MatchSchedule.LoadSchedule` does not model copying the tournament's selected ids into screen state. The roster always comes from the tournament.
- `handleScoreChange` on the results page (src/app.js:2240-2250) is not modelled separately. It is one more call of `updateMatchScore`, which is modelled.
- Tournament creation after validation (the upsert after src/app.js:511) is UI plumbing.
- `ConfigRules.Trim` removes only space, tab, line feed and carriage return. JavaScript's `trim` also removes other Unicode white space.
- Ranking.CalculateRanking: the source keeps the statistics in a plain object and creates an entry only when `!playerStats[player]` holds (src/app.js:2198, 2212). A player named after an `Object.prototype` property (`toString`, `constructor`, `valueOf`, `hasOwnProperty`, `__proto__`, …) finds an inherited value. The source writes that player's sums onto the inherited member and gives them no row. The model gives every such player a row, so `Ranking.RankingComplete` and `Ranking.TallyPerPlayer` hold in the source only for the other names.
- Ranking: `Object.keys` lists names in insertion order. Names that look like array indices come first in JavaScript; the model ignores this. Scores are integers, so `parseInt` is the identity.
- Levels are integers, so `parseInt(level)` is the identity.
- `Array.prototype.sort` is modelled as a stable insertion sort.
- Termination.IsTournamentFinishedState: the source caches the value and recomputes it only when the tournament, the schedule's length or the cursor changes. The model takes `now` as the time of that last recomputation. It does not model that the button stays enabled when the clock passes the end time with none of them changing.
- Views.PastMatches and Views.UpcomingMatches keep the history's order. The history page first sorts the fetched matches in place by tour, then by court (src/app.js:2521). History entries here carry no tour number, so the display order of those lists is not modelled.

## Behaviour worth knowing

These are modelled as written. Each is stated by the members named.

- **Stale history on append.** When advancing appends a tour that has matches, the history saved is the history from before the current tour's scores were recorded, plus the new matches. A missing score that was finalised to 0 is therefore not in the saved history.
  - See `TourAdvance.HistoryAfter` and `Controller.MatchSchedule.NextTour`.
- **Missing current tour.** A reloaded schedule whose tours are all finished resumes one past the end. If the next tour would fit, advancing then reads a tour that does not exist. This screen never saves such a schedule: generation saves every tour unfinished (src/app.js:1576), an advance inside the schedule saves the next tour re-timed and still unfinished (src/app.js:1326-1335), an append saves a new unfinished tour (src/app.js:1371-1386), and a refusal saves nothing. So the crash needs a saved schedule written by something else.
  - See `TourAdvance.AdvanceMissing`.
- **Unreachable message.** The "no player selected" message can never show.
  - See `ConfigRules.NoPlayersUnreachable`.
- **Reload by length only.** Reloading compares schedules by length only. Tours have no `id`, so the source's first-tour test never differs.

## Findings

| source | as written | input that shows it | evidently intended | confidence | as-written member | corrected member |
|---|---|---|---|---|---|---|
| src/app.js:1251-1258 | the day counts as over only when `cursor+1` whole match-plus-break periods exceed the window, so the "next tour" button (src/app.js:1788) stays enabled while advancing refuses because the next match would end after the end time | 10:00–11:00, 20-minute matches, no break, on the third tour at 10:45: `floor(60/20) = 3` is not below 3, yet a fourth tour would end at 11:20 | over exactly when the next tour, `cursor+1` periods after the start, would end after the end | not executed | Termination.FinishedStateCounterexample | Termination.NoFitMeansRefused |
