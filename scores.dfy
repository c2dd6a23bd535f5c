/** The match history a tournament keeps beside its schedule, and
    `updateMatchScore` (src/app.js:162-181): a score written into the first
    history entry with the match's id. */
module Scores {
  import opened Common
  import opened Domain

  /** `findIndex(m => m.id === matchId)`: the first entry with that id. */
  function FindMatch(h: seq<Match>, id: MatchId): (r: Option<nat>)
    ensures r.Some? ==> r.value < |h| && h[r.value].id == id
    ensures r.Some? ==> forall j :: 0 <= j < r.value ==> h[j].id != id
    ensures r.None? <==> forall j :: 0 <= j < |h| ==> h[j].id != id
  {
    if h == [] then None
    else if h[0].id == id then Some(0)
    else
      match FindMatch(h[1..], id)
      case None => None
      case Some(k) => Some(k + 1)
  }

  /** Writes one team's score: `'team1'` names the first team, any other
      team name the second. */
  function SetScore(m: Match, team: string, score: Option<int>): Match
  {
    if team == "team1" then m.(scoreTeam1 := score) else m.(scoreTeam2 := score)
  }

  /** The score one team has in a match. */
  function ScoreOf(m: Match, team: string): Option<int>
  {
    if team == "team1" then m.scoreTeam1 else m.scoreTeam2
  }

  /** The two matches are the same fixture: same id, court, teams and status. */
  predicate SameFixture(m: Match, m': Match)
  {
    m'.id == m.id && m'.court == m.court && m'.team1 == m.team1 && m'.team2 == m.team2 && m'.status == m.status
  }

  /** The history after `updateMatchScore`: an unknown id leaves it as it is. */
  function UpdateMatchScore(h: seq<Match>, id: MatchId, team: string, score: Option<int>): (r: seq<Match>)
    ensures |r| == |h|
  {
    match FindMatch(h, id)
    case None => h
    case Some(k) => h[k := SetScore(h[k], team, score)]
  }

  /** The update keeps the history's length and fixtures, changes only the
      first entry with the id, and reading that team's score back gives the
      score written. */
  lemma {:induction false} UpdateMatchScoreFacts(h: seq<Match>, id: MatchId, team: string, score: Option<int>)
    ensures |UpdateMatchScore(h, id, team, score)| == |h|
    ensures forall j :: 0 <= j < |h| ==> SameFixture(h[j], UpdateMatchScore(h, id, team, score)[j])
    ensures FindMatch(h, id).None? ==> UpdateMatchScore(h, id, team, score) == h
    ensures FindMatch(h, id).Some? ==>
      var k := FindMatch(h, id).value;
      && ScoreOf(UpdateMatchScore(h, id, team, score)[k], team) == score
      && (team == "team1" ==> UpdateMatchScore(h, id, team, score)[k].scoreTeam2 == h[k].scoreTeam2)
      && (team != "team1" ==> UpdateMatchScore(h, id, team, score)[k].scoreTeam1 == h[k].scoreTeam1)
      && forall j :: 0 <= j < |h| && j != k ==> UpdateMatchScore(h, id, team, score)[j] == h[j]
  {
  }

  /** Writing the same score twice is writing it once. */
  lemma {:induction false} UpdateMatchScoreIdempotent(h: seq<Match>, id: MatchId, team: string, score: Option<int>)
    ensures UpdateMatchScore(UpdateMatchScore(h, id, team, score), id, team, score) == UpdateMatchScore(h, id, team, score)
  {
    var h1 := UpdateMatchScore(h, id, team, score);
    UpdateMatchScoreFacts(h, id, team, score);
    FindKept(h, h1, id);
  }

  /** A history with the same ids in the same places finds the same entry. */
  lemma {:induction false} FindKept(h: seq<Match>, h': seq<Match>, id: MatchId)
    requires |h'| == |h| && forall j :: 0 <= j < |h| ==> h'[j].id == h[j].id
    ensures FindMatch(h', id) == FindMatch(h, id)
  {
    if h != [] {
      FindKept(h[1..], h'[1..], id);
    }
  }
}
