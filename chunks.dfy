/** The way the court loop carves the players set aside for a tour into
    matches: court after court takes the next block of `m` players, and stops
    at the first court for which no full block remains. */
module Chunks {
  import opened Common

  /** The blocks handed to `left` courts from `q`, in court order; each is a
      full match. */
  function Blocks<T>(q: seq<T>, m: nat, left: nat): (r: seq<seq<T>>)
    requires m > 0
    ensures forall i :: 0 <= i < |r| ==> |r[i]| == m
    decreases left
  {
    if left == 0 || |q| < m then [] else [q[..m]] + Blocks(q[m..], m, left - 1)
  }

  /** How many players of `q` those courts take. */
  function Dealt<T>(q: seq<T>, m: nat, left: nat): (n: nat)
    requires m > 0
    ensures n <= |q|
    decreases left
  {
    if left == 0 || |q| < m then 0 else m + Dealt(q[m..], m, left - 1)
  }

  function Flatten<T>(bs: seq<seq<T>>): seq<T>
  {
    if bs == [] then [] else bs[0] + Flatten(bs[1..])
  }

  /** `(n - m) / m` is one less than `n / m` once `n` reaches `m`. */
  lemma {:induction false} DivStep(n: int, m: int)
    requires m > 0 && n >= m
    ensures (n - m) / m == n / m - 1
  {
    var q := (n - m) / m;
    assert q * m <= n - m < q * m + m;
    DivIsQuotient(n, m, q + 1);
  }

  /** The courts stop either because all `left` are filled or because fewer
      than `m` players remain. */
  lemma {:induction false} BlocksStop<T>(q: seq<T>, m: nat, left: nat)
    requires m > 0
    ensures |Blocks(q, m, left)| <= left
    ensures |Blocks(q, m, left)| == left || |q| - Dealt(q, m, left) < m
    decreases left
  {
    if left > 0 && |q| >= m {
      BlocksStop(q[m..], m, left - 1);
    }
  }

  /** `left` courts fill `min(left, floor(|q| / m))` blocks. */
  lemma {:induction false} BlocksCount<T>(q: seq<T>, m: nat, left: nat)
    requires m > 0
    ensures |Blocks(q, m, left)| == Min(left, |q| / m)
  {
    var k := |Blocks(q, m, left)|;
    BlocksStop(q, m, left);
    DealtCount(q, m, left);
    AboveQuotient(k, |q|, m);
    if |q| - k * m < m {
      DivIsQuotient(|q|, m, k);
    }
  }

  /** The courts take exactly the players of their blocks. */
  lemma {:induction false} DealtCount<T>(q: seq<T>, m: nat, left: nat)
    requires m > 0
    ensures Dealt(q, m, left) == |Blocks(q, m, left)| * m
    decreases left
  {
    if left > 0 && |q| >= m {
      var k := |Blocks(q[m..], m, left - 1)|;
      DealtCount(q[m..], m, left - 1);
      assert |Blocks(q, m, left)| == k + 1;
      MulSucc(k, m);
    }
  }

  /** The blocks, one after the other, are the players taken: a prefix of
      `q`. */
  lemma {:induction false} BlocksFlatten<T>(q: seq<T>, m: nat, left: nat)
    requires m > 0
    ensures Flatten(Blocks(q, m, left)) == q[..Dealt(q, m, left)]
    decreases left
  {
    if left > 0 && |q| >= m {
      var bs := Blocks(q, m, left);
      var d := Dealt(q[m..], m, left - 1);
      BlocksFlatten(q[m..], m, left - 1);
      assert bs[1..] == Blocks(q[m..], m, left - 1);
      assert Flatten(bs) == q[..m] + q[m..][..d];
      assert q[..m] + q[m..][..d] == q[..m + d];
    }
  }

  /** Where block `i` begins when every block holds `m`: `i * m`, counted
      block by block. */
  function Offset(i: nat, m: nat): nat
  {
    if i == 0 then 0 else Offset(i - 1, m) + m
  }

  lemma {:induction false} OffsetIsProduct(i: nat, m: nat)
    ensures Offset(i, m) == i * m
  {
    if i > 0 {
      OffsetIsProduct(i - 1, m);
      MulSucc(i - 1, m);
    }
  }

  /** `q` holds at least `i + 1` runs of `m` elements. */
  predicate HasBlock<T>(q: seq<T>, m: nat, i: nat)
  {
    Offset(i + 1, m) <= |q|
  }

  /** The `i`-th run of `m` consecutive elements of `q`. */
  function BlockOf<T>(q: seq<T>, m: nat, i: nat): (b: seq<T>)
    requires HasBlock(q, m, i)
    ensures |b| == m
  {
    q[Offset(i, m)..Offset(i + 1, m)]
  }

  /** Block `i` is the `i`-th run of `m` consecutive players of `q`. */
  lemma {:induction false} BlockAt<T>(q: seq<T>, m: nat, left: nat, i: nat)
    requires m > 0 && i < |Blocks(q, m, left)|
    ensures HasBlock(q, m, i) && Blocks(q, m, left)[i] == BlockOf(q, m, i)
    decreases i
  {
    if i > 0 {
      BlockAt(q[m..], m, left - 1, i - 1);
      var a, b := Offset(i - 1, m), Offset(i, m);
      assert q[m..][a..b] == q[a + m..b + m];
    }
  }

  /** The state of a court loop part-way through: `taken` went to the courts
      in the blocks `blocks`, `rest` is still set aside for the `restLeft`
      courts to come. */
  ghost predicate Dealing<T>(q: seq<T>, m: nat, left: nat, taken: seq<T>, blocks: seq<seq<T>>, rest: seq<T>, restLeft: nat)
    requires m > 0
  {
    && taken + rest == q
    && blocks + Blocks(rest, m, restLeft) == Blocks(q, m, left)
    && |taken| + Dealt(rest, m, restLeft) == Dealt(q, m, left)
  }

  /** A court that can be filled takes the next block. */
  lemma {:induction false} DealingStep<T>(q: seq<T>, m: nat, left: nat, taken: seq<T>, blocks: seq<seq<T>>, rest: seq<T>, restLeft: nat)
    requires m > 0 && Dealing(q, m, left, taken, blocks, rest, restLeft)
    requires restLeft > 0 && |rest| >= m
    ensures Dealing(q, m, left, taken + rest[..m], blocks + [rest[..m]], rest[m..], restLeft - 1)
  {
    assert Blocks(rest, m, restLeft) == [rest[..m]] + Blocks(rest[m..], m, restLeft - 1);
    assert taken + rest[..m] + rest[m..] == taken + rest;
  }

  /** Once no court is left or no full block remains, the loop has dealt
      exactly the blocks and the players of `Blocks` and `Dealt`. */
  lemma {:induction false} DealingDone<T>(q: seq<T>, m: nat, left: nat, taken: seq<T>, blocks: seq<seq<T>>, rest: seq<T>, restLeft: nat)
    requires m > 0 && Dealing(q, m, left, taken, blocks, rest, restLeft)
    requires restLeft == 0 || |rest| < m
    ensures blocks == Blocks(q, m, left)
    ensures taken == q[..Dealt(q, m, left)] && rest == q[Dealt(q, m, left)..]
  {
    assert taken == q[..|taken|];
  }
}
