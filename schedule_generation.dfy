/** The loop of `generateMatchSchedule` (src/app.js:1501-1622) that
    pre-generates a whole day: the roster is shuffled once, then tour after
    tour is generated from the pool the previous one left behind, until a
    tour would end after the configured end time or 50 tours exist. */
module ScheduleGeneration {
  import opened Common
  import opened Clock
  import opened Domain
  import opened Shuffle
  import opened TourGeneration

  /** The loop's hard stop. */
  const MaxTours: nat := 50

  /** The draws the shuffle uses on its `i`-th call: call 0 is the initial
      shuffle, call `k` a reshuffle while tour `k` is generated. */
  function DrawsAt(draws: seq<seq<nat>>, i: nat): seq<nat>
  {
    if i < |draws| then draws[i] else []
  }

  /** Matches in a run of tours: how many ids they used up. */
  function MatchCount(ts: seq<Tour>): nat
  {
    if ts == [] then 0 else |ts[0].matches| + MatchCount(ts[1..])
  }

  /** `currentPlayersPool` when tour `j` of the run `ts` is generated: the
      starting pool, then what the previous tour left followed by its
      players. */
  function PoolBefore(ts: seq<Tour>, j: nat, pool0: seq<Player>): seq<Player>
    requires j <= |ts|
  {
    if j == 0 then pool0 else ts[j - 1].remainingPlayersPool + ts[j - 1].playersPlayed
  }

  /** `lastTourActualEndTime` when tour `j` of the run is generated. */
  function EndBefore(ts: seq<Tour>, j: nat, lastEnd0: Option<int>): Option<int>
    requires j <= |ts|
  {
    if j == 0 then lastEnd0 else Some(ts[j - 1].actualEndTime)
  }

  /** One turn of the loop as a function of the state it starts from: the
      current pool, the previous tour's actual end, the tour number and the
      id of the next match. */
  type Turn = (seq<Player>, Option<int>, nat, MatchId) -> TourDraft

  /** The loop's turn: `generateSingleTourMatches` on the current pool, with
      the draws of the reshuffle that tour number may need. */
  function TurnOf(c: TournamentConfig, base: seq<Player>, draws: seq<seq<nat>>, dayStart: int): Turn
  {
    (pool: seq<Player>, lastEnd: Option<int>, k: nat, id: MatchId) =>
      SingleTour(pool, base, c, DrawsAt(draws, k), lastEnd, dayStart, id)
  }

  /** The tours the loop commits from tour number `counter` on, given the
      pool, previous end and next match id it has reached: each turn's draft
      is committed while it ends by `end`, and tour 50 is the last. */
  function ToursFrom(turn: Turn, end: int, pool: seq<Player>, lastEnd: Option<int>, counter: nat, id: MatchId): seq<Tour>
    decreases MaxTours + 1 - counter, id
  {
    if counter > MaxTours then []
    else
      var d := turn(pool, lastEnd, counter, id);
      if d.actualEndTime > end then []
      else [Commit(d, counter)] + ToursFrom(turn, end, d.remainingPlayersPool + d.playersPlayed, Some(d.actualEndTime),
                                            counter + 1, id + |d.matches|)
  }

  /** The first pool: the tournament's players, shuffled. */
  function InitialPool(base: seq<Player>, draws: seq<seq<nat>>): seq<Player>
  {
    Shuffled(base, DrawsAt(draws, 0))
  }

  /** The pre-generated schedule for the tournament's players `base`. */
  function Schedule(c: TournamentConfig, base: seq<Player>, draws: seq<seq<nat>>, dayStart: int, nextId: MatchId): seq<Tour>
  {
    ToursFrom(TurnOf(c, base, draws, dayStart), TournamentEnd(c, dayStart), InitialPool(base, draws), None, 1, nextId)
  }

  /** The `while (true)` loop, with the id counter it leaves behind. */
  method GenerateTours(c: TournamentConfig, base: seq<Player>, draws: seq<seq<nat>>, dayStart: int, nextId: MatchId)
    returns (tours: seq<Tour>, idAfter: MatchId)
    ensures tours == Schedule(c, base, draws, dayStart, nextId)
    ensures idAfter == nextId + MatchCount(tours)
  {
    var a := new Player[|base|](k requires 0 <= k < |base| => base[k]);
    assert a[..] == base;
    ShuffleArray(a, DrawsAt(draws, 0));
    var pool := a[..];
    var lastEnd: Option<int> := None;
    var tourEnd := TournamentEnd(c, dayStart);
    tours := [];
    var counter := 1;
    idAfter := nextId;
    ghost var turn := TurnOf(c, base, draws, dayStart);
    ghost var schedule := Schedule(c, base, draws, dayStart, nextId);
    while true
      invariant 1 <= counter <= MaxTours && |tours| == counter - 1
      invariant tours + ToursFrom(turn, tourEnd, pool, lastEnd, counter, idAfter) == schedule
      invariant idAfter == nextId + MatchCount(tours)
      decreases MaxTours - counter
    {
      var d := GenerateSingleTourMatches(pool, base, c, DrawsAt(draws, counter), lastEnd, dayStart, idAfter);
      var start, end := TourTimes(c, lastEnd, dayStart);
      SingleTourTiming(pool, base, c, DrawsAt(draws, counter), lastEnd, dayStart, idAfter);
      TurnIs(c, base, draws, dayStart, pool, lastEnd, counter, idAfter);
      if end > tourEnd {
        RunStops(turn, tourEnd, schedule, tours, pool, lastEnd, counter, idAfter);
        break;
      }
      var t := Tour(counter, d.matches, start, end, d.playersPlayed, d.remainingPlayersPool, false);
      ghost var (tours0, pool0, lastEnd0, counter0, id0) := (tours, pool, lastEnd, counter, idAfter);
      tours := tours + [t];
      lastEnd := Some(end);
      pool := d.remainingPlayersPool + d.playersPlayed;
      idAfter := idAfter + |d.matches|;
      counter := counter + 1;
      RunGoesOn(turn, tourEnd, schedule, tours0, pool0, lastEnd0, counter0, id0, d, t,
                tours, pool, lastEnd, counter, idAfter);
      if counter > MaxTours {
        break;
      }
    }
  }

  /** A turn taken before tour 51 that ends by `end` is committed, and the
      run goes on from the state it leaves behind. */
  lemma {:induction false} RunUnfolds(turn: Turn, end: int, pool: seq<Player>, lastEnd: Option<int>, counter: nat, id: MatchId)
    requires counter <= MaxTours && turn(pool, lastEnd, counter, id).actualEndTime <= end
    ensures var d := turn(pool, lastEnd, counter, id);
      ToursFrom(turn, end, pool, lastEnd, counter, id)
      == [Commit(d, counter)] + ToursFrom(turn, end, d.remainingPlayersPool + d.playersPlayed, Some(d.actualEndTime),
                                           counter + 1, id + |d.matches|)
  {
  }

  /** A turn that ends after `end` closes the run. */
  lemma {:induction false} RunStops(turn: Turn, end: int, s: seq<Tour>, tours: seq<Tour>, pool: seq<Player>, lastEnd: Option<int>,
                 counter: nat, id: MatchId)
    requires tours + ToursFrom(turn, end, pool, lastEnd, counter, id) == s
    requires turn(pool, lastEnd, counter, id).actualEndTime > end
    ensures tours == s
  {
    assert ToursFrom(turn, end, pool, lastEnd, counter, id) == [];
  }

  /** A turn that ends by `end` is committed and the run goes on from the
      state it leaves behind. */
  lemma {:induction false} RunGoesOn(turn: Turn, end: int, s: seq<Tour>, tours: seq<Tour>, pool: seq<Player>, lastEnd: Option<int>,
                  counter: nat, id: MatchId, d: TourDraft, t: Tour,
                  tours': seq<Tour>, pool': seq<Player>, lastEnd': Option<int>, counter': nat, id': MatchId)
    requires counter <= MaxTours
    requires tours + ToursFrom(turn, end, pool, lastEnd, counter, id) == s
    requires d == turn(pool, lastEnd, counter, id) && d.actualEndTime <= end
    requires t == Tour(counter, d.matches, d.actualStartTime, d.actualEndTime, d.playersPlayed, d.remainingPlayersPool, false)
    requires tours' == tours + [t] && pool' == d.remainingPlayersPool + d.playersPlayed
    requires lastEnd' == Some(d.actualEndTime) && counter' == counter + 1 && id' == id + |d.matches|
    ensures tours' + ToursFrom(turn, end, pool', lastEnd', counter', id') == s
    ensures MatchCount(tours') == MatchCount(tours) + |d.matches|
    ensures counter' > MaxTours ==> tours' == s
  {
    var rest := ToursFrom(turn, end, pool', lastEnd', counter', id');
    assert ToursFrom(turn, end, pool, lastEnd, counter, id) == [t] + rest;
    AppendAssoc(tours, [t], rest);
    MatchCountSnoc(tours, t);
  }

  lemma {:induction false} AppendAssoc<T>(a: seq<T>, b: seq<T>, c: seq<T>)
    ensures a + (b + c) == (a + b) + c
  {
  }

  lemma {:induction false} MatchCountSnoc(ts: seq<Tour>, t: Tour)
    ensures MatchCount(ts + [t]) == MatchCount(ts) + |t.matches|
    decreases |ts|
  {
    if ts != [] {
      assert (ts + [t])[1..] == ts[1..] + [t];
      MatchCountSnoc(ts[1..], t);
    }
  }

  /** The loop's turn is `generateSingleTourMatches`. */
  lemma {:induction false} TurnIs(c: TournamentConfig, base: seq<Player>, draws: seq<seq<nat>>, dayStart: int,
               pool: seq<Player>, lastEnd: Option<int>, k: nat, id: MatchId)
    ensures TurnOf(c, base, draws, dayStart)(pool, lastEnd, k, id) == SingleTour(pool, base, c, DrawsAt(draws, k), lastEnd, dayStart, id)
  {
  }

  /** Turns taken from equal states are equal. */
  lemma {:induction false} SameTurn(turn: Turn, p: seq<Player>, e: Option<int>, k: nat, a: MatchId,
                 p': seq<Player>, e': Option<int>, k': nat, a': MatchId)
    requires p == p' && e == e' && k == k' && a == a'
    ensures turn(p, e, k, a) == turn(p', e', k', a')
  {
  }

  /** Turns taken from equal states end at the same time. */
  lemma {:induction false} SameEnd(turn: Turn, p: seq<Player>, e: Option<int>, k: nat, a: MatchId,
                p': seq<Player>, e': Option<int>, k': nat, a': MatchId)
    requires p == p' && e == e' && k == k' && a == a'
    ensures turn(p, e, k, a).actualEndTime == turn(p', e', k', a').actualEndTime
  {
  }

  /** The run from tour number `counter` holds no tour beyond number 50. */
  lemma {:induction false} RunLength(turn: Turn, end: int, pool: seq<Player>, lastEnd: Option<int>, counter: nat, id: MatchId)
    requires counter <= MaxTours + 1
    ensures counter + |ToursFrom(turn, end, pool, lastEnd, counter, id)| <= MaxTours + 1
    decreases MaxTours + 1 - counter
  {
    if counter <= MaxTours {
      var d := turn(pool, lastEnd, counter, id);
      if d.actualEndTime <= end {
        RunLength(turn, end, d.remainingPlayersPool + d.playersPlayed, Some(d.actualEndTime), counter + 1, id + |d.matches|);
      }
    }
  }

  /** Tour `j` of the run `ts` is numbered `counter + j` and is the turn
      taken from the pool and end the previous tour left behind, with the ids
      the earlier tours did not use. */
  ghost predicate TurnAt(turn: Turn, ts: seq<Tour>, j: nat, pool: seq<Player>, lastEnd: Option<int>, counter: nat, id: MatchId)
  {
    && j < |ts|
    && ts[j] == Commit(turn(PoolBefore(ts, j, pool), EndBefore(ts, j, lastEnd), counter + j, id + MatchCount(ts[..j])),
                       counter + j)
  }

  /** Tour `j` of the run is the turn of its state, and ends by `end`. */
  lemma {:induction false} RunAt(turn: Turn, end: int, pool: seq<Player>, lastEnd: Option<int>, counter: nat, id: MatchId, j: nat)
    requires j < |ToursFrom(turn, end, pool, lastEnd, counter, id)|
    ensures TurnAt(turn, ToursFrom(turn, end, pool, lastEnd, counter, id), j, pool, lastEnd, counter, id)
    ensures ToursFrom(turn, end, pool, lastEnd, counter, id)[j].actualEndTime <= end
    decreases j
  {
    var ts := ToursFrom(turn, end, pool, lastEnd, counter, id);
    var d := turn(pool, lastEnd, counter, id);
    var pool', lastEnd', id' := d.remainingPlayersPool + d.playersPlayed, Some(d.actualEndTime), id + |d.matches|;
    var rest := ToursFrom(turn, end, pool', lastEnd', counter + 1, id');
    RunUnfolds(turn, end, pool, lastEnd, counter, id);
    if j == 0 {
      TurnAtFirst(turn, ts, rest, d, pool, lastEnd, counter, id);
    } else {
      RunAt(turn, end, pool', lastEnd', counter + 1, id', j - 1);
      TurnAtStep(turn, ts, rest, d, j, pool, lastEnd, counter, id, pool', lastEnd', id');
    }
  }

  /** The first tour of a run is the turn of its starting state. */
  lemma {:induction false} TurnAtFirst(turn: Turn, ts: seq<Tour>, rest: seq<Tour>, d: TourDraft, pool: seq<Player>,
                                       lastEnd: Option<int>, counter: nat, id: MatchId)
    requires d == turn(pool, lastEnd, counter, id) && ts == [Commit(d, counter)] + rest
    ensures TurnAt(turn, ts, 0, pool, lastEnd, counter, id)
  {
    assert ts[..0] == [];
  }

  /** Tour `j` of a run that begins with a committed draft is tour `j - 1`
      of the rest of the run. */
  lemma {:induction false} TurnAtStep(turn: Turn, ts: seq<Tour>, rest: seq<Tour>, d: TourDraft, j: nat, pool: seq<Player>,
                                      lastEnd: Option<int>, counter: nat, id: MatchId,
                                      pool': seq<Player>, lastEnd': Option<int>, id': MatchId)
    requires ts == [Commit(d, counter)] + rest && 0 < j
    requires pool' == d.remainingPlayersPool + d.playersPlayed && lastEnd' == Some(d.actualEndTime)
    requires id' == id + |d.matches|
    requires TurnAt(turn, rest, j - 1, pool', lastEnd', counter + 1, id')
    ensures TurnAt(turn, ts, j, pool, lastEnd, counter, id)
  {
    assert ts[j] == rest[j - 1];
    assert ts[..j][1..] == rest[..j - 1];
    SameTurn(turn, PoolBefore(ts, j, pool), EndBefore(ts, j, lastEnd), counter + j, id + MatchCount(ts[..j]),
             PoolBefore(rest, j - 1, pool'), EndBefore(rest, j - 1, lastEnd'), counter + 1 + (j - 1),
             id' + MatchCount(rest[..j - 1]));
  }

  /** The state after a run that begins with a committed draft is the
      state after the rest of the run, started from what the draft left. */
  lemma {:induction false} StateAfter(ts: seq<Tour>, t: Tour, d: TourDraft, k: nat, rest: seq<Tour>, pool: seq<Player>, lastEnd: Option<int>,
                   pool': seq<Player>, lastEnd': Option<int>)
    requires ts == [t] + rest && t == Commit(d, k)
    requires pool' == d.remainingPlayersPool + d.playersPlayed && lastEnd' == Some(d.actualEndTime)
    ensures |ts| == |rest| + 1
    ensures PoolBefore(ts, |ts|, pool) == PoolBefore(rest, |rest|, pool')
    ensures EndBefore(ts, |ts|, lastEnd) == EndBefore(rest, |rest|, lastEnd')
    ensures MatchCount(ts) == |d.matches| + MatchCount(rest)
  {
    assert ts[1..] == rest;
    if rest != [] {
      assert ts[|ts| - 1] == rest[|rest| - 1];
    }
  }

  /** The run `ts`, begun from `pool`, `lastEnd`, `counter` and `id`, stops
      before tour 50 only when the next turn would end after `end`. */
  ghost predicate StopsMaximally(turn: Turn, end: int, ts: seq<Tour>, pool: seq<Player>, lastEnd: Option<int>,
                                 counter: nat, id: MatchId)
  {
    counter + |ts| <= MaxTours ==>
      turn(PoolBefore(ts, |ts|, pool), EndBefore(ts, |ts|, lastEnd), counter + |ts|, id + MatchCount(ts)).actualEndTime > end
  }

  /** The run stops before tour 50 only when the next turn would end after
      `end`. */
  lemma {:induction false} RunMaximal(turn: Turn, end: int, pool: seq<Player>, lastEnd: Option<int>, counter: nat, id: MatchId)
    ensures StopsMaximally(turn, end, ToursFrom(turn, end, pool, lastEnd, counter, id), pool, lastEnd, counter, id)
    decreases MaxTours + 1 - counter
  {
    if counter <= MaxTours {
      var d := turn(pool, lastEnd, counter, id);
      if d.actualEndTime <= end {
        var pool', lastEnd', id' := d.remainingPlayersPool + d.playersPlayed, Some(d.actualEndTime), id + |d.matches|;
        var rest := ToursFrom(turn, end, pool', lastEnd', counter + 1, id');
        RunUnfolds(turn, end, pool, lastEnd, counter, id);
        RunMaximal(turn, end, pool', lastEnd', counter + 1, id');
        MaximalStep(turn, end, ToursFrom(turn, end, pool, lastEnd, counter, id), rest, pool, lastEnd, counter, id,
                    d, pool', lastEnd', id');
      } else {
        MaximalStop(turn, end, pool, lastEnd, counter, id);
      }
    }
  }

  /** A run whose first turn ends after `end` is empty, and that turn is
      the one that would come next. */
  lemma {:induction false} MaximalStop(turn: Turn, end: int, pool: seq<Player>, lastEnd: Option<int>, counter: nat, id: MatchId)
    requires turn(pool, lastEnd, counter, id).actualEndTime > end
    ensures StopsMaximally(turn, end, ToursFrom(turn, end, pool, lastEnd, counter, id), pool, lastEnd, counter, id)
  {
    var ts := ToursFrom(turn, end, pool, lastEnd, counter, id);
    assert ts == [];
    SameEnd(turn, PoolBefore(ts, |ts|, pool), EndBefore(ts, |ts|, lastEnd), counter + |ts|, id + MatchCount(ts),
             pool, lastEnd, counter, id);
  }

  /** Maximality carries over from the rest of a run to the run that begins
      with one more committed draft. */
  lemma {:induction false} MaximalStep(turn: Turn, end: int, ts: seq<Tour>, rest: seq<Tour>, pool: seq<Player>, lastEnd: Option<int>,
                    counter: nat, id: MatchId, d: TourDraft, pool': seq<Player>, lastEnd': Option<int>, id': MatchId)
    requires ts == [Commit(d, counter)] + rest
    requires pool' == d.remainingPlayersPool + d.playersPlayed && lastEnd' == Some(d.actualEndTime)
    requires id' == id + |d.matches|
    requires StopsMaximally(turn, end, rest, pool', lastEnd', counter + 1, id')
    ensures StopsMaximally(turn, end, ts, pool, lastEnd, counter, id)
  {
    StateAfter(ts, Commit(d, counter), d, counter, rest, pool, lastEnd, pool', lastEnd');
    SameEnd(turn, PoolBefore(ts, |ts|, pool), EndBefore(ts, |ts|, lastEnd), counter + |ts|, id + MatchCount(ts),
             PoolBefore(rest, |rest|, pool'), EndBefore(rest, |rest|, lastEnd'), counter + 1 + |rest|,
             id' + MatchCount(rest));
  }

  /** A turn of the loop starts a break after the previous tour's end (at
      the configured start for the first tour) and lasts one match. */
  lemma {:induction false} TurnTiming(c: TournamentConfig, base: seq<Player>, draws: seq<seq<nat>>, dayStart: int,
                   pool: seq<Player>, lastEnd: Option<int>, k: nat, id: MatchId)
    ensures var d := TurnOf(c, base, draws, dayStart)(pool, lastEnd, k, id);
      && d.actualStartTime == TourStart(c, lastEnd, dayStart)
      && d.actualEndTime == d.actualStartTime + MatchMs(c)
  {
    TurnIs(c, base, draws, dayStart, pool, lastEnd, k, id);
  }

  /** Tours are numbered 1, 2, ... in order and start unfinished; there are
      at most 50; each ends by the configured end time. */
  lemma {:induction false} ScheduleShape(c: TournamentConfig, base: seq<Player>, draws: seq<seq<nat>>, dayStart: int, nextId: MatchId,
                                         ts: seq<Tour>)
    requires ts == Schedule(c, base, draws, dayStart, nextId)
    ensures |ts| <= MaxTours
    ensures forall i :: 0 <= i < |ts| ==>
      ts[i].tour == i + 1 && !ts[i].isCompleted && ts[i].actualEndTime <= TournamentEnd(c, dayStart)
  {
    RunLength(TurnOf(c, base, draws, dayStart), TournamentEnd(c, dayStart), InitialPool(base, draws), None, 1, nextId);
    forall i | 0 <= i < |ts|
      ensures ts[i].tour == i + 1 && !ts[i].isCompleted && ts[i].actualEndTime <= TournamentEnd(c, dayStart)
    {
      RunAt(TurnOf(c, base, draws, dayStart), TournamentEnd(c, dayStart), InitialPool(base, draws), None, 1, nextId, i);
    }
  }

  /** Tour `i` (from 0) is the turn taken from the pool and end tour `i - 1`
      left behind, with the ids the earlier tours did not use. */
  lemma {:induction false} ScheduleTour(c: TournamentConfig, base: seq<Player>, draws: seq<seq<nat>>, dayStart: int, nextId: MatchId,
                                        ts: seq<Tour>, i: nat)
    requires ts == Schedule(c, base, draws, dayStart, nextId) && i < |ts|
    ensures ts[i] == Commit(SingleTour(PoolBefore(ts, i, InitialPool(base, draws)), base, c, DrawsAt(draws, i + 1),
                                 EndBefore(ts, i, None), dayStart, nextId + MatchCount(ts[..i])), i + 1)
  {
    RunAt(TurnOf(c, base, draws, dayStart), TournamentEnd(c, dayStart), InitialPool(base, draws), None, 1, nextId, i);
    TurnOfAt(c, base, draws, dayStart, ts, i, InitialPool(base, draws), nextId);
  }

  /** The tour a turn of the loop commits is the draft of
      `generateSingleTourMatches` for its state. */
  lemma {:induction false} TurnOfAt(c: TournamentConfig, base: seq<Player>, draws: seq<seq<nat>>, dayStart: int,
                                    ts: seq<Tour>, i: nat, pool: seq<Player>, nextId: MatchId)
    requires TurnAt(TurnOf(c, base, draws, dayStart), ts, i, pool, None, 1, nextId)
    ensures ts[i] == Commit(SingleTour(PoolBefore(ts, i, pool), base, c, DrawsAt(draws, i + 1),
                                       EndBefore(ts, i, None), dayStart, nextId + MatchCount(ts[..i])), i + 1)
  {
    TurnIs(c, base, draws, dayStart, PoolBefore(ts, i, pool), EndBefore(ts, i, None), 1 + i, nextId + MatchCount(ts[..i]));
  }

  /** Tour `i` starts `i` periods (match plus break) after the configured
      start and lasts one match duration. */
  lemma {:induction false} ScheduleStart(c: TournamentConfig, base: seq<Player>, draws: seq<seq<nat>>, dayStart: int,
                                         nextId: MatchId, ts: seq<Tour>, i: nat)
    requires ts == Schedule(c, base, draws, dayStart, nextId) && i < |ts|
    ensures ts[i].actualStartTime == TournamentStart(c, dayStart) + i * PeriodMs(c)
    ensures ts[i].actualEndTime == ts[i].actualStartTime + MatchMs(c)
    decreases i
  {
    ScheduleTour(c, base, draws, dayStart, nextId, ts, i);
    TurnTiming(c, base, draws, dayStart, PoolBefore(ts, i, InitialPool(base, draws)), EndBefore(ts, i, None), i + 1,
               nextId + MatchCount(ts[..i]));
    TurnIs(c, base, draws, dayStart, PoolBefore(ts, i, InitialPool(base, draws)), EndBefore(ts, i, None), i + 1,
           nextId + MatchCount(ts[..i]));
    if i > 0 {
      ScheduleStart(c, base, draws, dayStart, nextId, ts, i - 1);
      NextPeriod(TournamentStart(c, dayStart), c, i, ts[i - 1].actualEndTime, ts[i].actualStartTime);
    }
  }

  /** A tour that starts one break after a tour that ended one match after
      period `i - 1` starts at period `i`. */
  lemma {:induction false} NextPeriod(first: int, c: TournamentConfig, i: nat, prevEnd: int, start: int)
    requires i > 0
    requires prevEnd == first + (i - 1) * PeriodMs(c) + MatchMs(c)
    requires start == prevEnd + BreakMs(c)
    ensures start == first + i * PeriodMs(c)
  {
    MulSucc(i - 1, PeriodMs(c));
  }

  /** Tours do not overlap: each starts one break after the previous one
      ends, and every tour ends before any later tour starts. */
  lemma {:induction false} ScheduleNoOverlap(c: TournamentConfig, base: seq<Player>, draws: seq<seq<nat>>, dayStart: int,
                          nextId: MatchId, ts: seq<Tour>, i: nat)
    requires ts == Schedule(c, base, draws, dayStart, nextId) && i + 1 < |ts|
    ensures ts[i + 1].actualStartTime == ts[i].actualEndTime + BreakMs(c) >= ts[i].actualEndTime
    ensures forall a, b :: 0 <= a < b < |ts| ==> ts[a].actualEndTime <= ts[b].actualStartTime
  {
    ScheduleStart(c, base, draws, dayStart, nextId, ts, i);
    ScheduleStart(c, base, draws, dayStart, nextId, ts, i + 1);
    MulSucc(i, PeriodMs(c));
    forall a, b | 0 <= a < b < |ts|
      ensures ts[a].actualEndTime <= ts[b].actualStartTime
    {
      ScheduleStart(c, base, draws, dayStart, nextId, ts, a);
      ScheduleStart(c, base, draws, dayStart, nextId, ts, b);
      MulSucc(a, PeriodMs(c));
      MulMonotone(a + 1, b, PeriodMs(c));
    }
  }

  /** The loop does not stop early: fewer than 50 tours means one more would
      end after the configured end time. */
  lemma {:induction false} ScheduleMaximal(c: TournamentConfig, base: seq<Player>, draws: seq<seq<nat>>, dayStart: int, nextId: MatchId,
                                           ts: seq<Tour>)
    requires ts == Schedule(c, base, draws, dayStart, nextId)
    ensures |ts| < MaxTours ==> TournamentStart(c, dayStart) + |ts| * PeriodMs(c) + MatchMs(c) > TournamentEnd(c, dayStart)
  {
    var k := |ts|;
    RunMaximal(TurnOf(c, base, draws, dayStart), TournamentEnd(c, dayStart), InitialPool(base, draws), None, 1, nextId);
    TurnTiming(c, base, draws, dayStart, PoolBefore(ts, k, InitialPool(base, draws)), EndBefore(ts, k, None), 1 + k,
               nextId + MatchCount(ts));
    if 0 < k {
      ScheduleStart(c, base, draws, dayStart, nextId, ts, k - 1);
      NextPeriod(TournamentStart(c, dayStart), c, k, ts[k - 1].actualEndTime,
                 TourStart(c, EndBefore(ts, k, None), dayStart));
    }
  }

  /** Rotation: tour `i + 1` is generated from the players the previous tour
      left in the pool followed by those who just played, right after it. */
  lemma {:induction false} ScheduleRotation(c: TournamentConfig, base: seq<Player>, draws: seq<seq<nat>>, dayStart: int,
                                            nextId: MatchId, ts: seq<Tour>, i: nat)
    requires ts == Schedule(c, base, draws, dayStart, nextId) && i + 1 < |ts|
    ensures ts[i + 1] == Commit(SingleTour(ts[i].remainingPlayersPool + ts[i].playersPlayed, base, c,
                                           DrawsAt(draws, i + 2), Some(ts[i].actualEndTime), dayStart,
                                           nextId + MatchCount(ts[..i + 1])), i + 2)
  {
    ScheduleTour(c, base, draws, dayStart, nextId, ts, i + 1);
    assert PoolBefore(ts, i + 1, InitialPool(base, draws)) == ts[i].remainingPlayersPool + ts[i].playersPlayed;
    assert EndBefore(ts, i + 1, None) == Some(ts[i].actualEndTime);
  }

  /** Conservation across the day: every tour's players and remaining pool
      are the tournament's players, each once. */
  lemma {:induction false} ScheduleConserves(c: TournamentConfig, base: seq<Player>, draws: seq<seq<nat>>, dayStart: int,
                                             nextId: MatchId, ts: seq<Tour>, i: nat)
    requires ts == Schedule(c, base, draws, dayStart, nextId) && i < |ts|
    ensures multiset(ts[i].playersPlayed + ts[i].remainingPlayersPool) == multiset(base)
  {
    var holdsAll := (p: seq<Player>) => multiset(p) == multiset(base);
    TurnOfPreserves(c, base, draws, dayStart);
    ShuffledPermutes(base, DrawsAt(draws, 0));
    RunPreserves(TurnOf(c, base, draws, dayStart), TournamentEnd(c, dayStart), InitialPool(base, draws), None, 1, nextId,
                 holdsAll, i);
    SwapHalves(ts[i].remainingPlayersPool, ts[i].playersPlayed);
  }

  /** Every turn from a pool satisfying `inv` leaves a next pool (what
      remains followed by who played) that satisfies `inv` too. */
  ghost predicate Preserves(turn: Turn, inv: seq<Player> -> bool)
  {
    forall p, e, k, a :: inv(p) ==> inv(turn(p, e, k, a).remainingPlayersPool + turn(p, e, k, a).playersPlayed)
  }

  /** The loop's turn keeps the tournament's players: from a pool holding
      them, or from a short pool it replaces by them. */
  lemma {:induction false} TurnOfPreserves(c: TournamentConfig, base: seq<Player>, draws: seq<seq<nat>>, dayStart: int)
    ensures Preserves(TurnOf(c, base, draws, dayStart), (p: seq<Player>) => multiset(p) == multiset(base))
  {
    forall p, e, k, a | multiset(p) == multiset(base)
      ensures var d := TurnOf(c, base, draws, dayStart)(p, e, k, a);
        multiset(d.remainingPlayersPool + d.playersPlayed) == multiset(base)
    {
      var d := TurnOf(c, base, draws, dayStart)(p, e, k, a);
      TurnIs(c, base, draws, dayStart, p, e, k, a);
      SingleTourConserves(p, base, c, DrawsAt(draws, k), e, dayStart, a);
      SwapHalves(d.remainingPlayersPool, d.playersPlayed);
    }
  }

  lemma {:induction false} SwapHalves<T>(a: seq<T>, b: seq<T>)
    ensures multiset(a + b) == multiset(b + a)
  {
  }

  /** A run of turns that preserve `inv`, started from a pool satisfying
      `inv`, leaves a pool satisfying `inv` after every tour. */
  lemma {:induction false} RunPreserves(turn: Turn, end: int, pool: seq<Player>, lastEnd: Option<int>, counter: nat,
                                        id: MatchId, inv: seq<Player> -> bool, j: nat)
    requires Preserves(turn, inv) && inv(pool)
    requires j < |ToursFrom(turn, end, pool, lastEnd, counter, id)|
    ensures var t := ToursFrom(turn, end, pool, lastEnd, counter, id)[j];
      inv(t.remainingPlayersPool + t.playersPlayed)
    decreases j
  {
    var ts := ToursFrom(turn, end, pool, lastEnd, counter, id);
    var d := turn(pool, lastEnd, counter, id);
    var pool', lastEnd', id' := d.remainingPlayersPool + d.playersPlayed, Some(d.actualEndTime), id + |d.matches|;
    var rest := ToursFrom(turn, end, pool', lastEnd', counter + 1, id');
    RunUnfolds(turn, end, pool, lastEnd, counter, id);
    if j > 0 {
      RunPreserves(turn, end, pool', lastEnd', counter + 1, id', inv, j - 1);
      assert ts[j] == rest[j - 1];
    }
  }
}
