/** Splitting the players of one match into two teams (src/app.js:1148-1172):
    either the first half against the second half, or, when teams are
    balanced by level, the players sorted by level and dealt out alternately,
    followed by two loops that move surplus players from one team to the
    other. */
module TeamFormation {
  import opened Domain
  import opened Sorting

  /** The comparator `parseInt(a.level) - parseInt(b.level)`, read as
      "may come first". */
  predicate LevelLe(a: Player, b: Player)
  {
    a.level <= b.level
  }

  /** The match's players in ascending level, ties in their pool order. */
  function SortByLevel(ps: seq<Player>): (r: seq<Player>)
    ensures |r| == |ps| && multiset(r) == multiset(ps)
  {
    InsertionSortPermutes(ps, LevelLe);
    InsertionSort(ps, LevelLe)
  }

  /** The players at even positions: those the dealing loop gives team 1. */
  function Evens(s: seq<Player>): (r: seq<Player>)
    ensures |r| == (|s| + 1) / 2
  {
    seq((|s| + 1) / 2, k requires 0 <= k < (|s| + 1) / 2 => s[2 * k])
  }

  /** The players at odd positions: those the dealing loop gives team 2. */
  function Odds(s: seq<Player>): (r: seq<Player>)
    ensures |r| == |s| / 2
  {
    seq(|s| / 2, k requires 0 <= k < |s| / 2 => s[2 * k + 1])
  }

  /** One `while (from.length > p) to.push(from.pop())` loop: the result is
      the new `from` and the new `to`. */
  function Spill(from: seq<Player>, to: seq<Player>, p: nat): (seq<Player>, seq<Player>)
    decreases |from|
  {
    if |from| <= p then (from, to)
    else Spill(from[..|from| - 1], to + [from[|from| - 1]], p)
  }

  /** Both rebalancing loops: surplus of team 1 moves to team 2, then surplus
      of team 2 moves back to team 1. */
  function Rebalanced(t1: seq<Player>, t2: seq<Player>, p: nat): (seq<Player>, seq<Player>)
  {
    var (a, b) := Spill(t1, t2, p);
    var (b', a') := Spill(b, a, p);
    (a', b')
  }

  /** The two teams the source forms from the players of one match. */
  function TeamsOf(mp: seq<Player>, balanced: bool, p: nat): (seq<Player>, seq<Player>)
    requires |mp| == 2 * p
  {
    if balanced then
      var sorted := SortByLevel(mp);
      Rebalanced(Evens(sorted), Odds(sorted), p)
    else (mp[..p], mp[p..])
  }

  /** The two rebalancing loops. */
  method Rebalance(t1: seq<Player>, t2: seq<Player>, p: nat) returns (team1: seq<Player>, team2: seq<Player>)
    ensures (team1, team2) == Rebalanced(t1, t2, p)
  {
    team1, team2 := t1, t2;
    while |team1| > p
      invariant Spill(team1, team2, p) == Spill(t1, t2, p)
      decreases |team1|
    {
      var last := team1[|team1| - 1];
      team1 := team1[..|team1| - 1];
      team2 := team2 + [last];
    }
    ghost var (a, b) := (team1, team2);
    while |team2| > p
      invariant Spill(team2, team1, p) == Spill(b, a, p)
      decreases |team2|
    {
      var last := team2[|team2| - 1];
      team2 := team2[..|team2| - 1];
      team1 := team1 + [last];
    }
  }

  /** Dealing one more player extends the even positions when their count
      is even, the odd positions otherwise. */
  lemma {:induction false} DealOne(s: seq<Player>, x: Player)
    ensures Evens(s + [x]) == if |s| % 2 == 0 then Evens(s) + [x] else Evens(s)
    ensures Odds(s + [x]) == if |s| % 2 == 0 then Odds(s) else Odds(s) + [x]
  {
  }

  /** `for (i = 0; i < n; i++) (i % 2 === 0 ? team1 : team2).push(sorted[i])`:
      deals the sorted players out alternately. */
  method Deal(sorted: seq<Player>) returns (evens: seq<Player>, odds: seq<Player>)
    ensures evens == Evens(sorted) && odds == Odds(sorted)
  {
    evens, odds := [], [];
    var i := 0;
    while i < |sorted|
      invariant 0 <= i <= |sorted|
      invariant evens == Evens(sorted[..i]) && odds == Odds(sorted[..i])
    {
      DealOne(sorted[..i], sorted[i]);
      assert sorted[..i + 1] == sorted[..i] + [sorted[i]];
      if i % 2 == 0 {
        evens := evens + [sorted[i]];
      } else {
        odds := odds + [sorted[i]];
      }
      i := i + 1;
    }
    assert sorted[..i] == sorted;
  }

  /** The team-forming block of the court loop: sort and deal alternately
      then rebalance, or cut the match's players in half. */
  method FormTeams(matchPlayers: seq<Player>, balanced: bool, p: nat) returns (team1: seq<Player>, team2: seq<Player>)
    requires |matchPlayers| == 2 * p
    ensures (team1, team2) == TeamsOf(matchPlayers, balanced, p)
  {
    if balanced {
      var sorted := SortByLevel(matchPlayers);
      var evens, odds := Deal(sorted);
      team1, team2 := Rebalance(evens, odds, p);
    } else {
      team1 := matchPlayers[..p];
      team2 := matchPlayers[p..2 * p];
      assert matchPlayers[p..2 * p] == matchPlayers[p..];
    }
  }

  /** A spill loop conserves the players, leaves no more than `p` in `from`
      and moves nothing when `from` already fits. */
  lemma {:induction false} SpillFacts(from: seq<Player>, to: seq<Player>, p: nat)
    ensures var (f, t) := Spill(from, to, p);
      && multiset(f + t) == multiset(from + to)
      && |f| + |t| == |from| + |to|
      && |f| == (if |from| <= p then |from| else p)
      && (|from| <= p ==> f == from && t == to)
    decreases |from|
  {
    if |from| > p {
      var from', to' := from[..|from| - 1], to + [from[|from| - 1]];
      SpillFacts(from', to', p);
      assert from == from' + [from[|from| - 1]];
      assert multiset(from' + to') == multiset(from + to);
    }
  }

  /** Rebalancing conserves the players; when there are exactly `2 * p` of
      them it leaves `p` in each team, and teams that already hold `p` each
      are left alone. */
  lemma {:induction false} RebalancedFacts(t1: seq<Player>, t2: seq<Player>, p: nat)
    ensures var (a, b) := Rebalanced(t1, t2, p);
      && multiset(a + b) == multiset(t1 + t2)
      && (|t1| + |t2| == 2 * p ==> |a| == p && |b| == p)
      && (|t1| <= p && |t2| <= p ==> a == t1 && b == t2)
  {
    var (a0, b0) := Spill(t1, t2, p);
    SpillFacts(t1, t2, p);
    SpillFacts(b0, a0, p);
    var (b1, a1) := Spill(b0, a0, p);
    assert multiset(a1 + b1) == multiset(b1 + a1);
    assert multiset(b0 + a0) == multiset(a0 + b0);
  }

  /** Dealing two players gives one to each team. */
  lemma {:induction false} DealTwo(s: seq<Player>)
    requires |s| >= 2
    ensures Evens(s) == [s[0]] + Evens(s[2..])
    ensures Odds(s) == [s[1]] + Odds(s[2..])
  {
  }

  /** Between them, the even and the odd positions hold every player once. */
  lemma {:induction false} EvensOddsPartition(s: seq<Player>)
    ensures multiset(Evens(s) + Odds(s)) == multiset(s)
    decreases |s|
  {
    if |s| >= 2 {
      EvensOddsPartition(s[2..]);
      EvensOddsTwoMore(s);
    } else if |s| == 1 {
      assert Evens(s) == s;
    }
  }

  /** Two more players keep the even and odd positions a partition. */
  lemma {:induction false} EvensOddsTwoMore(s: seq<Player>)
    requires |s| >= 2
    requires multiset(Evens(s[2..]) + Odds(s[2..])) == multiset(s[2..])
    ensures multiset(Evens(s) + Odds(s)) == multiset(s)
  {
    var u := s[2..];
    DealTwo(s);
    var e, o := Evens(u), Odds(u);
    assert s == [s[0], s[1]] + u;
    calc {
      multiset(Evens(s) + Odds(s));
      multiset([s[0]] + e) + multiset([s[1]] + o);
      multiset{s[0], s[1]} + multiset(e + o);
      multiset{s[0], s[1]} + multiset(u);
      multiset([s[0], s[1]] + u);
    }
  }

  /** Each team gets exactly `p` players, in either mode. */
  lemma {:induction false} TeamsSizes(mp: seq<Player>, balanced: bool, p: nat)
    requires |mp| == 2 * p
    ensures |TeamsOf(mp, balanced, p).0| == p
    ensures |TeamsOf(mp, balanced, p).1| == p
  {
    if balanced {
      var sorted := SortByLevel(mp);
      RebalancedFacts(Evens(sorted), Odds(sorted), p);
    }
  }

  /** The two teams together are the match's players, each once. */
  lemma {:induction false} TeamsPartition(mp: seq<Player>, balanced: bool, p: nat)
    requires |mp| == 2 * p
    ensures var (t1, t2) := TeamsOf(mp, balanced, p);
      multiset(t1 + t2) == multiset(mp)
  {
    if balanced {
      var sorted := SortByLevel(mp);
      RebalancedFacts(Evens(sorted), Odds(sorted), p);
      EvensOddsPartition(sorted);
    } else {
      assert mp[..p] + mp[p..] == mp;
    }
  }

  /** Without balancing, team 1 is the first half and team 2 the second. */
  lemma {:induction false} UnbalancedHalves(mp: seq<Player>, p: nat)
    requires |mp| == 2 * p
    ensures TeamsOf(mp, false, p).0 + TeamsOf(mp, false, p).1 == mp
    ensures |TeamsOf(mp, false, p).0| == p
  {
  }

  /** With balancing, the rebalancing loops never move anyone: team 1 holds
      the sorted players at even positions, team 2 those at odd positions, so
      each player of team 1 is at most as strong as the team-2 player at the
      same position. */
  lemma {:induction false} BalancedPairing(mp: seq<Player>, p: nat)
    requires |mp| == 2 * p
    ensures var sorted := SortByLevel(mp);
      TeamsOf(mp, true, p) == (Evens(sorted), Odds(sorted))
    ensures var (t1, t2) := TeamsOf(mp, true, p);
      forall i :: 0 <= i < p ==> t1[i].level <= t2[i].level
  {
    var sorted := SortByLevel(mp);
    RebalancedFacts(Evens(sorted), Odds(sorted), p);
    InsertionSortSorted(mp, LevelLe);
    forall i | 0 <= i < p ensures Evens(sorted)[i].level <= Odds(sorted)[i].level {
      assert LevelLe(sorted[2 * i], sorted[2 * i + 1]);
    }
  }
}
