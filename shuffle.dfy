/** `shuffleArray`: the in-place Fisher-Yates shuffle. `Math.random()` is
    replaced by a sequence of draws; the swap partner chosen at step `i` is any
    index from 0 to `i`, so every permutation remains reachable. */
module Shuffle {

  function Swap<T>(s: seq<T>, i: nat, j: nat): (r: seq<T>)
    requires i < |s| && j < |s|
  {
    s[i := s[j]][j := s[i]]
  }

  lemma {:induction false} SwapPermutes<T>(s: seq<T>, i: nat, j: nat)
    requires i < |s| && j < |s|
    ensures multiset(Swap(s, i, j)) == multiset(s)
  {
  }

  /** `Math.floor(Math.random() * (i + 1))`: the draw recorded for step `i`,
      brought into range; a missing draw means "no swap". */
  function DrawAt(draws: seq<nat>, i: nat): (j: nat)
    ensures j <= i
  {
    if i < |draws| then draws[i] % (i + 1) else i
  }

  /** The array after the loop has run its steps `i, i - 1, ..., 1`. */
  function ShuffledDown<T>(s: seq<T>, draws: seq<nat>, i: int): seq<T>
    requires i < |s|
    decreases i
  {
    if i <= 0 then s else ShuffledDown(Swap(s, i, DrawAt(draws, i)), draws, i - 1)
  }

  /** The whole shuffle of `s` under the given draws. */
  function Shuffled<T>(s: seq<T>, draws: seq<nat>): seq<T>
  {
    ShuffledDown(s, draws, |s| - 1)
  }

  /** The source's loop: from the last index down to 1, swap with a drawn
      index not above it. */
  method ShuffleArray<T>(a: array<T>, draws: seq<nat>)
    modifies a
    ensures a[..] == Shuffled(old(a[..]), draws)
  {
    var i := a.Length - 1;
    while i > 0
      invariant -1 <= i < a.Length
      invariant ShuffledDown(a[..], draws, i) == Shuffled(old(a[..]), draws)
    {
      var j := DrawAt(draws, i);
      ghost var before := a[..];
      a[i], a[j] := a[j], a[i];
      assert a[..] == Swap(before, i, j);
      i := i - 1;
    }
  }

  lemma {:induction false} ShuffledDownPermutes<T>(s: seq<T>, draws: seq<nat>, i: int)
    requires i < |s|
    ensures |ShuffledDown(s, draws, i)| == |s|
    ensures multiset(ShuffledDown(s, draws, i)) == multiset(s)
    decreases i
  {
    if i > 0 {
      var j := DrawAt(draws, i);
      SwapPermutes(s, i, j);
      ShuffledDownPermutes(Swap(s, i, j), draws, i - 1);
    }
  }

  /** A shuffle neither loses nor duplicates an element. */
  lemma {:induction false} ShuffledPermutes<T>(s: seq<T>, draws: seq<nat>)
    ensures |Shuffled(s, draws)| == |s|
    ensures multiset(Shuffled(s, draws)) == multiset(s)
  {
    ShuffledDownPermutes(s, draws, |s| - 1);
  }

  /** Steps `i` down to 1 read only the draws of those steps. */
  lemma {:induction false} ShuffledDownSameDraws<T>(s: seq<T>, d1: seq<nat>, d2: seq<nat>, i: int)
    requires i < |s|
    requires forall k: nat :: k <= i ==> DrawAt(d1, k) == DrawAt(d2, k)
    ensures ShuffledDown(s, d1, i) == ShuffledDown(s, d2, i)
    decreases i
  {
    if i > 0 {
      ShuffledDownSameDraws(Swap(s, i, DrawAt(d1, i)), d1, d2, i - 1);
    }
  }

  lemma {:induction false} MultisetCancel<T>(a: multiset<T>, b: multiset<T>, x: T)
    requires a + multiset{x} == b + multiset{x}
    ensures a == b
  {
    assert forall y :: a[y] == (a + multiset{x})[y] - multiset{x}[y];
    assert forall y :: b[y] == (b + multiset{x})[y] - multiset{x}[y];
  }

  /** A swap at or below index `i` leaves the rest alone and keeps the
      elements up to `i`. */
  lemma {:induction false} SwapBelow<T>(s: seq<T>, i: nat, j: nat)
    requires j <= i < |s|
    ensures |Swap(s, i, j)| == |s|
    ensures Swap(s, i, j)[i] == s[j]
    ensures Swap(s, i, j)[i + 1..] == s[i + 1..]
    ensures multiset(Swap(s, i, j)[..i + 1]) == multiset(s[..i + 1])
  {
    var u := s[..i + 1];
    assert Swap(s, i, j) == Swap(u, i, j) + s[i + 1..];
    SwapPermutes(u, i, j);
  }

  /** An element among the first `i + 1` has an index not above `i`. */
  lemma {:induction false} FindBelow<T>(s: seq<T>, x: T, i: nat) returns (j: nat)
    requires i < |s|
    requires x in multiset(s[..i + 1])
    ensures j <= i && s[j] == x
  {
    assert x in s[..i + 1];
    j :| 0 <= j <= i && s[..i + 1][j] == x;
  }

  /** One step of the shuffle can bring `t[i]` to index `i` of `s`, after
      which both agree from `i` on and hold the same elements below it. */
  lemma {:induction false} StepTowards<T>(s: seq<T>, t: seq<T>, i: nat) returns (j: nat)
    requires i < |s| == |t|
    requires s[i + 1..] == t[i + 1..]
    requires multiset(s[..i + 1]) == multiset(t[..i + 1])
    ensures j <= i
    ensures Swap(s, i, j)[i..] == t[i..]
    ensures multiset(Swap(s, i, j)[..i]) == multiset(t[..i])
  {
    assert t[..i + 1] == t[..i] + [t[i]];
    assert t[i] in multiset(t[..i + 1]);
    j := FindBelow(s, t[i], i);
    SwapBelow(s, i, j);
    var s' := Swap(s, i, j);
    assert s'[..i + 1] == s'[..i] + [t[i]];
    calc {
      multiset(s'[..i]) + multiset{t[i]};
      multiset(s'[..i + 1]);
      multiset(s[..i + 1]);
      multiset(t[..i + 1]);
      multiset(t[..i]) + multiset{t[i]};
    }
    MultisetCancel(multiset(s'[..i]), multiset(t[..i]), t[i]);
    assert s'[i..] == [t[i]] + s[i + 1..];
    assert t[i..] == [t[i]] + t[i + 1..];
  }

  /** Sequences that agree after index 0 and hold the same first element. */
  lemma {:induction false} SameFromOne<T>(s: seq<T>, t: seq<T>)
    requires 1 <= |s| == |t|
    requires s[1..] == t[1..]
    requires multiset(s[..1]) == multiset(t[..1])
    ensures s == t
  {
    assert s[..1] == [s[0]] && t[..1] == [t[0]];
    assert s[0] in multiset(t[..1]);
    assert s == [s[0]] + s[1..] && t == [t[0]] + t[1..];
  }

  /** A recorded draw already in range is taken as it is. */
  lemma {:induction false} DrawOfSmall(draws: seq<nat>, i: nat)
    requires i < |draws| && draws[i] <= i
    ensures DrawAt(draws, i) == draws[i]
  {
    var n := draws[i];
    assert n == 0 * (i + 1) + n;
  }

  /** Steps `i` down to 1 can turn `s` into any `t` that agrees with it above
      index `i` and holds the same elements up to `i`. */
  lemma {:induction false} ShuffledDownReaches<T>(s: seq<T>, t: seq<T>, i: int) returns (draws: seq<nat>)
    requires 0 <= i < |s| == |t|
    requires s[i + 1..] == t[i + 1..]
    requires multiset(s[..i + 1]) == multiset(t[..i + 1])
    ensures |draws| == i + 1
    ensures ShuffledDown(s, draws, i) == t
    decreases i
  {
    if i == 0 {
      draws := [0];
      SameFromOne(s, t);
    } else {
      var j := StepTowards(s, t, i);
      var s' := Swap(s, i, j);
      var rest := ShuffledDownReaches(s', t, i - 1);
      draws := rest + [j];
      forall k: nat | k <= i - 1 ensures DrawAt(draws, k) == DrawAt(rest, k) {
        assert draws[k] == rest[k];
      }
      ShuffledDownSameDraws(s', draws, rest, i - 1);
      DrawOfSmall(draws, i);
    }
  }

  /** Every rearrangement of the input is the outcome of some draws: the
      draws stand for an arbitrary permutation. */
  lemma {:induction false} ShuffleReachesEveryPermutation<T>(s: seq<T>, t: seq<T>) returns (draws: seq<nat>)
    requires multiset(s) == multiset(t)
    ensures Shuffled(s, draws) == t
  {
    assert |s| == |multiset(s)| == |multiset(t)| == |t|;
    if s == [] {
      draws := [];
    } else {
      assert s[..|s|] == s && t[..|t|] == t;
      draws := ShuffledDownReaches(s, t, |s| - 1);
    }
  }
}
