/** The rules a tournament configuration obeys: the checks the creation
    form applies before saving one (src/app.js:482-511), and
    `areTournamentConfigsEqual` (src/app.js:1037-1065), which decides
    whether the schedule was generated from the current configuration. */
module ConfigRules {
  import opened Common
  import opened Clock
  import opened Domain

  /** What the creation form holds: the name as typed, each number as
      `parseInt` read it (`None` for `NaN`), the time inputs' strings, the
      balancing switch and the selected players. */
  datatype TournamentForm = TournamentForm(
    name: string,
    numCourts: Option<int>,
    matchDuration: Option<int>,
    breakDuration: Option<int>,
    startTime: string,
    endTime: string,
    balanceTeamsByLevel: bool,
    numPlayersPerTeam: Option<int>,
    selectedPlayerIds: seq<PlayerId>)

  /** The outcome of pressing "create": the configuration saved, or the
      message the form shows instead. */
  datatype Validation =
    | Accepted(config: TournamentConfig)
    | MissingFields
    | NoPlayers
    | NotEnoughPlayers
    | EndNotAfterStart

  predicate IsSpace(ch: char)
  {
    ch == ' ' || ch == '\t' || ch == '\n' || ch == '\r'
  }

  /** `String.prototype.trim`. */
  function Trim(s: string): (r: string)
    ensures |r| <= |s|
    ensures r != [] ==> !IsSpace(r[0]) && !IsSpace(r[|r| - 1])
  {
    if s != [] && IsSpace(s[0]) then Trim(s[1..])
    else if s != [] && IsSpace(s[|s| - 1]) then Trim(s[..|s| - 1])
    else s
  }

  /** What an `<input type="time">` yields: nothing, or a time of day. */
  predicate TimeInput(s: string)
  {
    s == "" || (ParseClock(s).Some? && 0 <= ParseClock(s).value < 24 * 60)
  }

  /** A number field holding a positive number. */
  predicate PositiveField(n: Option<int>)
  {
    n.Some? && n.value > 0
  }

  /** `handleCreateTournament` up to saving: the first failing check decides
      the message. */
  function ValidateForm(f: TournamentForm): Validation
    requires TimeInput(f.startTime) && TimeInput(f.endTime)
  {
    var numPlayers := |f.selectedPlayerIds|;
    if Trim(f.name) == [] || numPlayers <= 0 || !PositiveField(f.numCourts) || !PositiveField(f.matchDuration)
       || f.breakDuration.None? || f.breakDuration.value < 0 || Trim(f.startTime) == [] || Trim(f.endTime) == []
       || !PositiveField(f.numPlayersPerTeam)
    then MissingFields
    else if |f.selectedPlayerIds| == 0 then NoPlayers
    else if f.numPlayersPerTeam.value * 2 * f.numCourts.value > numPlayers then NotEnoughPlayers
    else if ParseClock(f.endTime).value <= ParseClock(f.startTime).value then EndNotAfterStart
    else
      Accepted(TournamentConfig(Trim(f.name), numPlayers, f.numCourts.value, f.matchDuration.value, f.breakDuration.value,
                                f.startTime, f.endTime, f.balanceTeamsByLevel, f.numPlayersPerTeam.value,
                                f.selectedPlayerIds))
  }

  /** A time input's string is never changed by trimming. */
  lemma {:induction false} TrimTimeInput(s: string)
    requires TimeInput(s)
    ensures Trim(s) == [] <==> s == ""
  {
    if s != "" {
      assert !IsSpace(s[0]) && !IsSpace(s[|s| - 1]);
    }
  }

  /** The form is accepted exactly when the name is not blank, players are
      selected, every number is valid, both times are filled in, one tour
      can fill every court and the end comes after the start. */
  lemma {:induction false} ValidateFormAccepts(f: TournamentForm)
    requires TimeInput(f.startTime) && TimeInput(f.endTime)
    ensures ValidateForm(f).Accepted? <==>
      && Trim(f.name) != [] && |f.selectedPlayerIds| > 0
      && PositiveField(f.numCourts) && PositiveField(f.matchDuration) && PositiveField(f.numPlayersPerTeam)
      && f.breakDuration.Some? && f.breakDuration.value >= 0
      && f.startTime != "" && f.endTime != ""
      && f.numPlayersPerTeam.value * 2 * f.numCourts.value <= |f.selectedPlayerIds|
      && ParseClock(f.startTime).value < ParseClock(f.endTime).value
  {
    TrimTimeInput(f.startTime);
    TrimTimeInput(f.endTime);
  }

  /** The separate "no player selected" message is never shown: the first
      check already rejects an empty selection. */
  lemma {:induction false} NoPlayersUnreachable(f: TournamentForm)
    requires TimeInput(f.startTime) && TimeInput(f.endTime)
    ensures ValidateForm(f) != NoPlayers
    ensures |f.selectedPlayerIds| == 0 ==> ValidateForm(f) == MissingFields
  {
  }

  /** An accepted configuration can fill every court in one tour, has a
      non-empty time window, and counts exactly its selected players. */
  lemma {:induction false} AcceptedConfig(f: TournamentForm, dayStart: int)
    requires TimeInput(f.startTime) && TimeInput(f.endTime)
    requires ValidateForm(f).Accepted?
    ensures var c := ValidateForm(f).config;
      && c.numPlayers == |c.selectedPlayerIds| > 0
      && c.numCourts * MatchSize(c) <= c.numPlayers
      && TournamentStart(c, dayStart) < TournamentEnd(c, dayStart)
      && Trim(c.name) == c.name
  {
    var c := ValidateForm(f).config;
    TrimTimeInput(f.startTime);
    TrimTimeInput(f.endTime);
    PlayersForAllCourts(f.numPlayersPerTeam.value, f.numCourts.value);
    TrimIdempotent(f.name);
    assert MinutesOfDay(c.startTime) < MinutesOfDay(c.endTime);
    MulMonotone(MinutesOfDay(c.startTime), MinutesOfDay(c.endTime) - 1, MsPerMinute);
  }

  /** The form's count of players one tour needs, in the order the tour
      generator multiplies it. */
  lemma {:induction false} PlayersForAllCourts(perTeam: int, courts: int)
    ensures perTeam * 2 * courts == courts * (2 * perTeam)
  {
  }

  lemma {:induction false} TrimIdempotent(s: string)
    ensures Trim(Trim(s)) == Trim(s)
  {
    if s != [] && IsSpace(s[0]) {
      TrimIdempotent(s[1..]);
    } else if s != [] && IsSpace(s[|s| - 1]) {
      TrimIdempotent(s[..|s| - 1]);
    }
  }

  /** `areTournamentConfigsEqual`: both present, every plain field equal, and
      the selections of the same length with every id of the first found in
      the second. */
  function AreTournamentConfigsEqual(config1: Option<TournamentConfig>, config2: Option<TournamentConfig>): bool
  {
    if config1.None? || config2.None? then false
    else
      var a, b := config1.value, config2.value;
      && a.name == b.name && a.numPlayers == b.numPlayers && a.numCourts == b.numCourts
      && a.matchDuration == b.matchDuration && a.breakDuration == b.breakDuration
      && a.startTime == b.startTime && a.endTime == b.endTime
      && a.balanceTeamsByLevel == b.balanceTeamsByLevel && a.numPlayersPerTeam == b.numPlayersPerTeam
      && |a.selectedPlayerIds| == |b.selectedPlayerIds|
      && forall i :: 0 <= i < |a.selectedPlayerIds| ==> a.selectedPlayerIds[i] in b.selectedPlayerIds
  }

  /** The ids a selection holds, ignoring order and repeats. */
  function Elements<T>(s: seq<T>): set<T>
  {
    set x | x in s
  }

  predicate Distinct<T(==)>(s: seq<T>)
  {
    forall i, j :: 0 <= i < j < |s| ==> s[i] != s[j]
  }

  /** Every configuration equals itself, so a schedule just generated is
      never flagged as stale. */
  lemma {:induction false} ConfigsEqualReflexive(c: TournamentConfig)
    ensures AreTournamentConfigsEqual(Some(c), Some(c))
  {
  }

  /** For selections without repeated ids, two configurations compare
      equal exactly when every plain field agrees and they select the same
      set of players, in any order; the comparison is then symmetric. */
  lemma {:induction false} ConfigsEqualIff(a: TournamentConfig, b: TournamentConfig)
    requires Distinct(a.selectedPlayerIds) && Distinct(b.selectedPlayerIds)
    ensures AreTournamentConfigsEqual(Some(a), Some(b)) <==>
      a.(selectedPlayerIds := []) == b.(selectedPlayerIds := []) && Elements(a.selectedPlayerIds) == Elements(b.selectedPlayerIds)
    ensures AreTournamentConfigsEqual(Some(a), Some(b)) == AreTournamentConfigsEqual(Some(b), Some(a))
  {
    var x, y := a.selectedPlayerIds, b.selectedPlayerIds;
    DistinctCard(x);
    DistinctCard(y);
    var allIn := forall i :: 0 <= i < |x| ==> x[i] in y;
    if |x| == |y| && allIn {
      assert Elements(x) <= Elements(y);
      SubsetSameSize(Elements(x), Elements(y));
    }
    if Elements(x) == Elements(y) {
      forall i | 0 <= i < |x| ensures x[i] in y {
        assert x[i] in Elements(x);
      }
      forall i | 0 <= i < |y| ensures y[i] in x {
        assert y[i] in Elements(y);
      }
    }
    if |x| == |y| && (forall i :: 0 <= i < |y| ==> y[i] in x) {
      assert Elements(y) <= Elements(x);
      SubsetSameSize(Elements(y), Elements(x));
    }
    if a.(selectedPlayerIds := []) == b.(selectedPlayerIds := []) {
      assert a.name == b.name && a.numPlayers == b.numPlayers && a.numCourts == b.numCourts;
    }
  }

  /** A sequence without repeats has as many distinct elements as places. */
  lemma {:induction false} DistinctCard<T>(s: seq<T>)
    requires Distinct(s)
    ensures |Elements(s)| == |s|
  {
    if s != [] {
      var front := s[..|s| - 1];
      assert Distinct(front);
      DistinctCard(front);
      assert s == front + [s[|s| - 1]];
      assert Elements(s) == Elements(front) + {s[|s| - 1]};
      forall k | 0 <= k < |front|
        ensures front[k] != s[|s| - 1]
      {
        assert front[k] == s[k];
      }
      assert s[|s| - 1] !in Elements(front);
    }
  }

  /** A subset as large as its superset is the superset. */
  lemma {:induction false} SubsetSameSize<T>(u: set<T>, v: set<T>)
    requires u <= v && |u| == |v|
    ensures u == v
  {
    if u != v {
      var e :| e in v && e !in u;
      assert u <= v - {e};
      assert |v - {e}| == |v| - 1;
      SubsetCard(u, v - {e});
    }
  }

  lemma {:induction false} SubsetCard<T>(u: set<T>, v: set<T>)
    requires u <= v
    ensures |u| <= |v|
  {
    assert v == u + (v - u);
  }

  /** With a repeated id the comparison is one-sided: `[a, a]` against
      `[a, b]` compares equal, and `[a, b]` against `[a, a]` does not. */
  lemma {:induction false} ConfigsEqualAsymmetric(c: TournamentConfig)
    ensures AreTournamentConfigsEqual(Some(c.(selectedPlayerIds := ["a", "a"])), Some(c.(selectedPlayerIds := ["a", "b"])))
    ensures !AreTournamentConfigsEqual(Some(c.(selectedPlayerIds := ["a", "b"])), Some(c.(selectedPlayerIds := ["a", "a"])))
  {
    var ab: seq<string> := ["a", "b"];
    var aa: seq<string> := ["a", "a"];
    assert ab[1] == "b" && "b" !in aa;
  }
}
