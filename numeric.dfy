/**
 * Real-valued stand-ins for the numpy helpers the engine calls: sums, the
 * arithmetic mean, the sample variance (the square of pandas' `std`, whose
 * square root is not modelled) and `np.linspace`.
 */
module Numeric {

  /** Sum of a sequence, folded from the back so that appending one value adds it. */
  function Sum(xs: seq<real>): real
  {
    if xs == [] then 0.0 else Sum(xs[..|xs| - 1]) + xs[|xs| - 1]
  }

  /** `np.mean` / pandas `mean` of a non-empty sequence. */
  function Mean(xs: seq<real>): real
    requires |xs| > 0
  {
    Sum(xs) / (|xs| as real)
  }

  /** Sum of squared deviations from `m`. */
  function SquaredDeviations(xs: seq<real>, m: real): real
  {
    if xs == [] then 0.0
    else SquaredDeviations(xs[..|xs| - 1], m) + (xs[|xs| - 1] - m) * (xs[|xs| - 1] - m)
  }

  /**
   * Sample variance with Bessel's correction (pandas' default `ddof=1`);
   * pandas' `std` is its square root.
   */
  function SampleVariance(xs: seq<real>): real
    requires |xs| >= 2
  {
    SquaredDeviations(xs, Mean(xs)) / ((|xs| - 1) as real)
  }

  lemma {:induction false} SumWithin(xs: seq<real>, lo: real, hi: real)
    requires forall i :: 0 <= i < |xs| ==> lo <= xs[i] <= hi
    ensures (|xs| as real) * lo <= Sum(xs) <= (|xs| as real) * hi
  {
    if xs != [] {
      SumWithin(xs[..|xs| - 1], lo, hi);
    }
  }

  /** A mean lies between any common lower and upper bound of its values. */
  lemma MeanWithin(xs: seq<real>, lo: real, hi: real)
    requires |xs| > 0
    requires forall i :: 0 <= i < |xs| ==> lo <= xs[i] <= hi
    ensures lo <= Mean(xs) <= hi
  {
    SumWithin(xs, lo, hi);
    var n := |xs| as real;
    assert Sum(xs) / n >= lo by {
      assert Sum(xs) >= n * lo;
    }
    assert Sum(xs) / n <= hi by {
      assert Sum(xs) <= n * hi;
    }
  }

  lemma {:induction false} SquaredDeviationsNonNegative(xs: seq<real>, m: real)
    ensures SquaredDeviations(xs, m) >= 0.0
  {
    if xs != [] {
      SquaredDeviationsNonNegative(xs[..|xs| - 1], m);
      var d := xs[|xs| - 1] - m;
      assert d * d >= 0.0;
    }
  }

  /** The sample variance is never negative, so its square root is a usable spread. */
  lemma SampleVarianceNonNegative(xs: seq<real>)
    requires |xs| >= 2
    ensures SampleVariance(xs) >= 0.0
  {
    SquaredDeviationsNonNegative(xs, Mean(xs));
  }

  /** The `i`-th of `n` evenly spaced points from `a` to `b` (`np.linspace` with its default `endpoint=True`). */
  function LinspaceAt(a: real, b: real, n: nat, i: nat): real
    requires i < n
  {
    if n == 1 then a else a + (i as real) * ((b - a) / ((n - 1) as real))
  }

  /** `np.linspace(a, b, n)`: `n` evenly spaced points; with one point it is `[a]`, with none empty. */
  function Linspace(a: real, b: real, n: nat): (xs: seq<real>)
    ensures |xs| == n
  {
    seq(n, i requires 0 <= i < n => LinspaceAt(a, b, n, i))
  }

  /** The grid starts at `a` and, once it has two points or more, ends exactly at `b`. */
  lemma LinspaceEndpoints(a: real, b: real, n: nat)
    requires n >= 1
    ensures Linspace(a, b, n)[0] == a
    ensures n >= 2 ==> Linspace(a, b, n)[n - 1] == b
    ensures n == 1 ==> Linspace(a, b, n) == [a]
  {
    if n >= 2 {
      var step := (b - a) / ((n - 1) as real);
      assert ((n - 1) as real) * step == b - a;
      assert Linspace(a, b, n)[n - 1] == a + ((n - 1) as real) * step;
    }
  }

  /** Consecutive points are `(b - a) / (n - 1)` apart: the grid is evenly spaced. */
  lemma LinspaceEvenlySpaced(a: real, b: real, n: nat, i: nat)
    requires i + 1 < n
    ensures Linspace(a, b, n)[i + 1] - Linspace(a, b, n)[i] == (b - a) / ((n - 1) as real)
  {
    var step := (b - a) / ((n - 1) as real);
    assert (((i + 1) as real) * step) - ((i as real) * step) == step;
  }

  lemma ProductNonNegative(x: real, y: real)
    requires x >= 0.0 && y >= 0.0
    ensures x * y >= 0.0
  {
  }

  lemma ProductPositive(x: real, y: real)
    requires x > 0.0 && y > 0.0
    ensures x * y > 0.0
  {
  }

  /** A part over a positive whole is a fraction in [0, 1]. */
  lemma FractionWithinUnit(part: real, whole: real)
    requires 0.0 <= part <= whole && whole > 0.0
    ensures 0.0 <= part / whole <= 1.0
  {
    var q := part / whole;
    assert q * whole == part;
    if q > 1.0 {
      ProductPositive(q - 1.0, whole);
    }
    if q < 0.0 {
      ProductPositive(-q, whole);
    }
  }

  /** With `a <= b` the `i`-th point lies in `[a, b]`. */
  lemma LinspacePointWithin(a: real, b: real, n: nat, i: nat)
    requires a <= b && i < n
    ensures a <= Linspace(a, b, n)[i] <= b
  {
    if n >= 2 {
      var step := (b - a) / ((n - 1) as real);
      var x := Linspace(a, b, n)[i];
      assert x == a + (i as real) * step;
      ProductNonNegative(i as real, step);
      ProductNonNegative((n - 1 - i) as real, step);
      assert ((n - 1) as real) * step == b - a;
      assert ((n - 1 - i) as real) * step == ((n - 1) as real) * step - (i as real) * step;
    }
  }

  /** With `a < b` the points strictly increase. */
  lemma LinspacePointsIncrease(a: real, b: real, n: nat, i: nat, j: nat)
    requires a < b && i < j < n
    ensures Linspace(a, b, n)[i] < Linspace(a, b, n)[j]
  {
    var step := (b - a) / ((n - 1) as real);
    ProductPositive((j - i) as real, step);
    assert ((j - i) as real) * step == (j as real) * step - (i as real) * step;
  }

  /** With `a <= b` every point lies in `[a, b]`; with `a < b` the points strictly increase. */
  lemma LinspaceBounds(a: real, b: real, n: nat)
    requires a <= b
    ensures forall i :: 0 <= i < n ==> a <= Linspace(a, b, n)[i] <= b
    ensures a < b ==> forall i, j :: 0 <= i < j < n ==> Linspace(a, b, n)[i] < Linspace(a, b, n)[j]
  {
    forall i | 0 <= i < n
      ensures a <= Linspace(a, b, n)[i] <= b
    {
      LinspacePointWithin(a, b, n, i);
    }
    if a < b {
      forall i, j | 0 <= i < j < n
        ensures Linspace(a, b, n)[i] < Linspace(a, b, n)[j]
      {
        LinspacePointsIncrease(a, b, n, i, j);
      }
    }
  }
}
