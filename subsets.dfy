/**
 * `itertools.combinations(range(n), k)`: every size-k subset of the price
 * levels 0..n-1, each written as a strictly increasing tuple, in
 * lexicographic order.
 */
module Subsets {

  /** Pascal's rule for C(n, k). */
  function Binomial(n: nat, k: nat): nat
  {
    if k == 0 then 1 else if n == 0 then 0 else Binomial(n - 1, k - 1) + Binomial(n - 1, k)
  }

  /** A size-k subset of lo..n-1 written in increasing order. */
  predicate IsCombination(c: seq<nat>, lo: nat, n: nat, k: nat)
  {
    |c| == k &&
    (forall i :: 0 <= i < |c| ==> lo <= c[i] < n) &&
    (forall i, j :: 0 <= i < j < |c| ==> c[i] < c[j])
  }

  /** Each tuple of `tails`, with `x` put in front. */
  function PrependAll(x: nat, tails: seq<seq<nat>>): (r: seq<seq<nat>>)
    ensures |r| == |tails|
    ensures forall i :: 0 <= i < |r| ==> r[i] == [x] + tails[i]
  {
    seq(|tails|, i requires 0 <= i < |tails| => [x] + tails[i])
  }

  /** The size-k combinations of lo..n-1: those that take `lo`, then those that do not. */
  function CombinationsFrom(lo: nat, n: nat, k: nat): seq<seq<nat>>
    decreases n - lo, k
  {
    if k == 0 then [[]]
    else if lo >= n then []
    else PrependAll(lo, CombinationsFrom(lo + 1, n, k - 1)) + CombinationsFrom(lo + 1, n, k)
  }

  /** Line 92: `list(combinations(range(n), k))`. */
  function Combinations(n: nat, k: nat): seq<seq<nat>>
  {
    CombinationsFrom(0, n, k)
  }

  /** There are C(n - lo, k) of them. */
  lemma {:induction false} CombinationsFromCount(lo: nat, n: nat, k: nat)
    requires lo <= n
    ensures |CombinationsFrom(lo, n, k)| == Binomial(n - lo, k)
    decreases n - lo, k
  {
    if k > 0 && lo < n {
      CombinationsFromCount(lo + 1, n, k - 1);
      CombinationsFromCount(lo + 1, n, k);
    }
  }

  /** Every tuple produced is a size-k combination of lo..n-1. */
  lemma {:induction false} CombinationsFromSound(lo: nat, n: nat, k: nat)
    ensures forall c :: c in CombinationsFrom(lo, n, k) ==> IsCombination(c, lo, n, k)
    decreases n - lo, k
  {
    if k > 0 && lo < n {
      CombinationsFromSound(lo + 1, n, k - 1);
      CombinationsFromSound(lo + 1, n, k);
      var taking := CombinationsFrom(lo + 1, n, k - 1);
      forall c | c in PrependAll(lo, taking)
        ensures IsCombination(c, lo, n, k)
      {
        var i :| 0 <= i < |taking| && c == [lo] + taking[i];
        assert taking[i] in taking;
      }
    }
  }

  lemma PrependAllHas(x: nat, tails: seq<seq<nat>>, t: seq<nat>)
    requires t in tails
    ensures [x] + t in PrependAll(x, tails)
  {
    var i :| 0 <= i < |tails| && tails[i] == t;
    assert PrependAll(x, tails)[i] == [x] + t;
  }

  /** A combination of lo..n-1 that starts at `lo` continues with one of (lo + 1)..n-1. */
  lemma CombinationTail(c: seq<nat>, lo: nat, n: nat, k: nat)
    requires k > 0 && IsCombination(c, lo, n, k) && c[0] == lo
    ensures IsCombination(c[1..], lo + 1, n, k - 1) && c == [lo] + c[1..]
  {
    forall i | 0 <= i < |c[1..]| ensures lo + 1 <= c[1..][i] < n {
      assert c[0] < c[i + 1];
    }
  }

  /** A combination of lo..n-1 that does not start at `lo` is one of (lo + 1)..n-1. */
  lemma CombinationWithoutLow(c: seq<nat>, lo: nat, n: nat, k: nat)
    requires k > 0 && IsCombination(c, lo, n, k) && c[0] != lo
    ensures IsCombination(c, lo + 1, n, k)
  {
    forall i | 0 <= i < |c| ensures lo + 1 <= c[i] {
      if i > 0 { assert c[0] < c[i]; }
    }
  }

  /** Every size-k combination of lo..n-1 is produced. */
  lemma {:induction false} CombinationsFromComplete(lo: nat, n: nat, k: nat, c: seq<nat>)
    requires IsCombination(c, lo, n, k)
    ensures c in CombinationsFrom(lo, n, k)
    decreases n - lo, k
  {
    if k > 0 {
      assert lo <= c[0] < n;
      var taking := CombinationsFrom(lo + 1, n, k - 1);
      var skipping := CombinationsFrom(lo + 1, n, k);
      assert CombinationsFrom(lo, n, k) == PrependAll(lo, taking) + skipping;
      if c[0] == lo {
        CombinationTail(c, lo, n, k);
        CombinationsFromComplete(lo + 1, n, k - 1, c[1..]);
        PrependAllHas(lo, taking, c[1..]);
      } else {
        CombinationWithoutLow(c, lo, n, k);
        CombinationsFromComplete(lo + 1, n, k, c);
      }
    }
  }

  /** No tuple is produced twice. */
  lemma {:induction false} CombinationsFromDistinct(lo: nat, n: nat, k: nat)
    ensures forall i, j :: 0 <= i < j < |CombinationsFrom(lo, n, k)| ==>
      CombinationsFrom(lo, n, k)[i] != CombinationsFrom(lo, n, k)[j]
    decreases n - lo, k
  {
    if k > 0 && lo < n {
      CombinationsFromDistinct(lo + 1, n, k - 1);
      CombinationsFromDistinct(lo + 1, n, k);
      CombinationsFromSound(lo + 1, n, k);
      var taking := PrependAll(lo, CombinationsFrom(lo + 1, n, k - 1));
      var skipping := CombinationsFrom(lo + 1, n, k);
      var all := taking + skipping;
      forall i, j | 0 <= i < j < |all|
        ensures all[i] != all[j]
      {
        if j < |taking| {
          assert all[i][1..] == CombinationsFrom(lo + 1, n, k - 1)[i];
          assert all[j][1..] == CombinationsFrom(lo + 1, n, k - 1)[j];
        } else if i < |taking| {
          assert all[j] in skipping;
          assert all[i][0] == lo;
        }
      }
    }
  }

  /**
   * The strategies are exactly the size-k subsets of 0..n-1, each once:
   * C(n, k) tuples, every one strictly increasing over 0..n-1, none
   * repeated, none missing.
   */
  lemma CombinationsExactly(n: nat, k: nat)
    ensures |Combinations(n, k)| == Binomial(n, k)
    ensures forall c :: c in Combinations(n, k) <==> IsCombination(c, 0, n, k)
    ensures forall i, j :: 0 <= i < j < |Combinations(n, k)| ==> Combinations(n, k)[i] != Combinations(n, k)[j]
  {
    CombinationsFromCount(0, n, k);
    CombinationsFromSound(0, n, k);
    CombinationsFromDistinct(0, n, k);
    forall c | IsCombination(c, 0, n, k) ensures c in Combinations(n, k) {
      CombinationsFromComplete(0, n, k, c);
    }
  }

  /** Five price levels taken two at a time give ten strategies. */
  lemma FiveChooseTwo()
    ensures |Combinations(5, 2)| == 10
  {
    CombinationsFromCount(0, 5, 2);
    assert Binomial(4, 1) == 4 by {
      assert Binomial(1, 1) == 1;
      assert Binomial(2, 1) == 2;
      assert Binomial(3, 1) == 3;
    }
    assert Binomial(4, 2) == 6 by {
      assert Binomial(2, 2) == 1;
      assert Binomial(3, 2) == 3;
    }
  }
}
