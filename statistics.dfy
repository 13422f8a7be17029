/**
 * Window statistics over reals: `average()` and the population standard
 * deviation of `stdDev` (the mean of squared deviations, divided by n and
 * not by n - 1). Dafny has no square root, so the standard deviation is
 * characterised through the variance: `sd` is the standard deviation of
 * `s` exactly when `sd >= 0` and `sd * sd == Variance(s)`.
 */
module Statistics {

  function Sum(s: seq<real>): real
  {
    if s == [] then 0.0 else s[0] + Sum(s[1..])
  }

  /** Kotlin's `average()` of a non-empty collection. */
  function Mean(s: seq<real>): real
    requires |s| > 0
  {
    Sum(s) / (|s| as real)
  }

  /** The square of a value, as the standard deviation's deviations are squared. */
  function Square(x: real): real
  {
    x * x
  }

  /** The squared distance of every value from `m`, in window order. */
  function SquaredDeviations(s: seq<real>, m: real): (r: seq<real>)
    ensures |r| == |s|
    ensures forall i :: 0 <= i < |r| ==> r[i] >= 0.0
  {
    seq(|s|, i requires 0 <= i < |s| => Square(s[i] - m))
  }

  /** A square grows strictly with a non-negative base. */
  lemma SquareStrictlyIncreasing(a: real, b: real)
    requires 0.0 <= a < b
    ensures a * a < b * b
  {
    var d := b - a;
    assert b * b == a * a + 2.0 * a * d + d * d;
    assert a * d >= 0.0;
    assert d * d > 0.0;
  }

  /** A non-negative value is determined by its square. */
  lemma NonNegativeRootUnique(a: real, b: real)
    requires a >= 0.0 && b >= 0.0 && a * a == b * b
    ensures a == b
  {
    if a < b {
      SquareStrictlyIncreasing(a, b);
    } else if b < a {
      SquareStrictlyIncreasing(b, a);
    }
  }

  /** The population variance: the average of the squared deviations from the mean. */
  function Variance(s: seq<real>): real
    requires |s| > 0
  {
    Mean(SquaredDeviations(s, Mean(s)))
  }

  /** `sd` is what `stdDev(s)` returns: the non-negative square root of the variance. */
  ghost predicate IsStdDev(sd: real, s: seq<real>)
  {
    |s| > 0 && sd >= 0.0 && sd * sd == Variance(s)
  }

  ghost predicate AllNonNegative(s: seq<real>)
  {
    forall i :: 0 <= i < |s| ==> s[i] >= 0.0
  }

  ghost predicate AllEqualTo(s: seq<real>, c: real)
  {
    forall i :: 0 <= i < |s| ==> s[i] == c
  }

  lemma {:induction false} SumBounds(s: seq<real>, lo: real, hi: real)
    requires forall i :: 0 <= i < |s| ==> lo <= s[i] <= hi
    ensures (|s| as real) * lo <= Sum(s) <= (|s| as real) * hi
  {
    if s != [] {
      SumBounds(s[1..], lo, hi);
      assert (|s| as real) * lo == lo + ((|s| - 1) as real) * lo;
      assert (|s| as real) * hi == hi + ((|s| - 1) as real) * hi;
    }
  }

  /** The mean lies between any lower and upper bound of the values. */
  lemma MeanBounds(s: seq<real>, lo: real, hi: real)
    requires |s| > 0
    requires forall i :: 0 <= i < |s| ==> lo <= s[i] <= hi
    ensures lo <= Mean(s) <= hi
  {
    SumBounds(s, lo, hi);
    var n := |s| as real;
    DivisionBounds(Sum(s), n, lo, hi);
  }

  lemma DivisionBounds(x: real, n: real, lo: real, hi: real)
    requires n > 0.0 && n * lo <= x <= n * hi
    ensures lo <= x / n <= hi
  {
    var q := x / n;
    assert x == q * n;
    assert (q - lo) * n >= 0.0;
    assert (hi - q) * n >= 0.0;
  }

  lemma {:induction false} SumNonNegative(s: seq<real>)
    requires AllNonNegative(s)
    ensures Sum(s) >= 0.0
    ensures Sum(s) == 0.0 ==> AllEqualTo(s, 0.0)
  {
    if s != [] {
      SumNonNegative(s[1..]);
      forall i | 1 <= i < |s| ensures s[i] == s[1..][i - 1] { }
    }
  }

  /** The mean of non-negative values (such as the deltas) is non-negative. */
  lemma MeanNonNegative(s: seq<real>)
    requires |s| > 0
    requires AllNonNegative(s)
    ensures Mean(s) >= 0.0
  {
    SumNonNegative(s);
  }

  lemma {:induction false} SumConstant(s: seq<real>, c: real)
    requires AllEqualTo(s, c)
    ensures Sum(s) == (|s| as real) * c
  {
    if s != [] {
      SumConstant(s[1..], c);
      assert (|s| as real) * c == c + ((|s| - 1) as real) * c;
    }
  }

  /** A window of equal values has that value as its mean. */
  lemma MeanConstant(s: seq<real>, c: real)
    requires |s| > 0
    requires AllEqualTo(s, c)
    ensures Mean(s) == c
  {
    SumConstant(s, c);
  }

  /** The variance is never negative. */
  lemma VarianceNonNegative(s: seq<real>)
    requires |s| > 0
    ensures Variance(s) >= 0.0
  {
    MeanNonNegative(SquaredDeviations(s, Mean(s)));
  }

  /** A window has at most one standard deviation. */
  lemma StdDevUnique(s: seq<real>, sd1: real, sd2: real)
    requires IsStdDev(sd1, s) && IsStdDev(sd2, s)
    ensures sd1 == sd2
  {
    NonNegativeRootUnique(sd1, sd2);
  }

  /** A window whose values are all equal has variance 0 (and so standard deviation 0). */
  lemma ConstantHasZeroVariance(s: seq<real>, c: real)
    requires |s| > 0
    requires AllEqualTo(s, c)
    ensures Variance(s) == 0.0
  {
    MeanConstant(s, c);
    var d := SquaredDeviations(s, c);
    forall i | 0 <= i < |d| ensures d[i] == 0.0 {
      assert s[i] - c == 0.0;
      assert Square(0.0) == 0.0;
    }
    MeanConstant(d, 0.0);
  }

  /** The window [1, 2, 3, 4] has mean 2.5 and population variance 1.25 (divided by 4, not by 3). */
  lemma SmallWindowExample()
    ensures Mean([1.0, 2.0, 3.0, 4.0]) == 2.5
    ensures Variance([1.0, 2.0, 3.0, 4.0]) == 1.25
  {
  }
}
