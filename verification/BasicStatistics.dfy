/**
 Mean, variance, covariance and correlation as folds over data of any length, in
 exact arithmetic.
 */
module BasicStatistics {
  import opened Reals

  function Accumulate(data: seq<real>): real {
    if data == [] then 0.0 else Accumulate(data[..|data| - 1]) + data[|data| - 1]
  }

  function InnerProduct(x: seq<real>, y: seq<real>): real
    requires |x| == |y|
  {
    if x == [] then 0.0
    else var n := |x| - 1; InnerProduct(x[..n], y[..n]) + x[n] * y[n]
  }

  function Mean(data: seq<real>): real {
    if data == [] then 0.0 else Accumulate(data) / |data| as real
  }

  /** Deviations from the mean. */
  function Deviations(data: seq<real>): (d: seq<real>)
    ensures |d| == |data| && forall i :: 0 <= i < |d| ==> d[i] == data[i] - Mean(data)
  {
    var mean := Mean(data);
    seq(|data|, i requires 0 <= i < |data| => data[i] - mean)
  }

  function Variance(x: seq<real>): real {
    if x == [] then 0.0 else InnerProduct(Deviations(x), Deviations(x)) / |x| as real
  }

  function Covariance(x: seq<real>, y: seq<real>): real {
    if x == [] || |x| != |y| then 0.0 else InnerProduct(Deviations(x), Deviations(y)) / |x| as real
  }

  /** The result of a division, which is no number when both operands are zero. */
  datatype Ratio = Ratio(value: real) | NotANumber

  /** The square root is not modelled: the standard deviations are given. */
  function Correlation(x: seq<real>, y: seq<real>, stddevX: real, stddevY: real): Ratio {
    if x == [] || |x| != |y| then Ratio(0.0)
    else if stddevX * stddevY == 0.0 then NotANumber
    else Ratio(Covariance(x, y) / (stddevX * stddevY))
  }

  // ----- Cauchy-Schwarz ----------------------------------------------------

  lemma SquareNonNegative(x: real)
    ensures x * x >= 0.0
  {
  }

  lemma {:induction false} SquaresNonNegative(x: seq<real>)
    ensures InnerProduct(x, x) >= 0.0
  {
    if x != [] {
      SquaresNonNegative(x[..|x| - 1]);
      SquareNonNegative(x[|x| - 1]);
    }
  }

  /** A geometric mean is at most the arithmetic one. */
  lemma MeansOrdered(p: real, q: real, r: real)
    requires p >= 0.0 && q >= 0.0 && r * r <= p * q
    ensures 2.0 * r <= p + q
  {
    SquareNonNegative(p - q);
    assert (p + q) * (p + q) == (p - q) * (p - q) + 4.0 * (p * q);
    assert (2.0 * r) * (2.0 * r) == 4.0 * (r * r);
    if 2.0 * r > p + q {
      SquareGrows(p + q, 2.0 * r);
    }
  }

  lemma SquareGrows(x: real, y: real)
    requires 0.0 <= x && x < y
    ensures x * x < y * y
  {
    MulPositive(y - x, y + x);
    assert (y - x) * (y + x) == y * y - x * x;
  }

  lemma ScaledSquares(a: real, b: real, c: real, x: real, y: real)
    requires c * c <= a * b
    ensures (c * (x * y)) * (c * (x * y)) <= (a * (y * y)) * (b * (x * x))
  {
    var s := (x * y) * (x * y);
    SquareNonNegative(x * y);
    MulMonotone(c * c, a * b, s);
    Rearranged(c, c, x * y, x * y);
    assert (a * (y * y)) * (b * (x * x)) == (a * b) * ((y * y) * (x * x));
    assert (y * y) * (x * x) == s;
  }

  lemma Rearranged(a: real, b: real, p: real, q: real)
    ensures (a * p) * (b * q) == (a * b) * (p * q)
  {
  }

  /** Adding one pair of values keeps the inequality. */
  lemma OneMorePair(a: real, b: real, c: real, x: real, y: real)
    requires a >= 0.0 && b >= 0.0 && c * c <= a * b
    ensures (c + x * y) * (c + x * y) <= (a + x * x) * (b + y * y)
  {
    SquareNonNegative(x);
    SquareNonNegative(y);
    MulNonNegative(a, y * y);
    MulNonNegative(b, x * x);
    ScaledSquares(a, b, c, x, y);
    MeansOrdered(a * (y * y), b * (x * x), c * (x * y));
    Expanded(a, b, c, x, y);
  }

  lemma Expanded(a: real, b: real, c: real, x: real, y: real)
    ensures (c + x * y) * (c + x * y) == c * c + 2.0 * (c * (x * y)) + (x * x) * (y * y)
    ensures (a + x * x) * (b + y * y) == a * b + a * (y * y) + b * (x * x) + (x * x) * (y * y)
  {
  }

  lemma {:induction false} CauchySchwarz(x: seq<real>, y: seq<real>)
    requires |x| == |y|
    ensures InnerProduct(x, y) * InnerProduct(x, y) <= InnerProduct(x, x) * InnerProduct(y, y)
  {
    if x != [] {
      var n := |x| - 1;
      CauchySchwarz(x[..n], y[..n]);
      SquaresNonNegative(x[..n]);
      SquaresNonNegative(y[..n]);
      OneMorePair(InnerProduct(x[..n], x[..n]), InnerProduct(y[..n], y[..n]), InnerProduct(x[..n], y[..n]), x[n], y[n]);
    }
  }

  // ----- the statistics ----------------------------------------------------

  lemma DivideBoth(a: real, b: real, c: real, n: real)
    requires n > 0.0 && c * c <= a * b
    ensures (c / n) * (c / n) <= (a / n) * (b / n)
  {
    var k := 1.0 / n;
    assert c / n == c * k && a / n == a * k && b / n == b * k;
    SquareNonNegative(k);
    MulMonotone(c * c, a * b, k * k);
    Rearranged(c, c, k, k);
    Rearranged(a, b, k, k);
  }

  /** The variance is the covariance of the data with itself and never negative. */
  lemma VarianceIsCovariance(x: seq<real>)
    ensures Covariance(x, x) == Variance(x) >= 0.0
  {
    if x != [] {
      SquaresNonNegative(Deviations(x));
      DivideNonNegative(InnerProduct(Deviations(x), Deviations(x)), |x| as real);
    }
  }

  lemma DivideNonNegative(a: real, n: real)
    requires a >= 0.0 && n > 0.0
    ensures a / n >= 0.0
  {
  }

  /** The covariance is bounded by the variances, whatever the data. */
  lemma CovarianceBound(x: seq<real>, y: seq<real>)
    ensures Covariance(x, y) * Covariance(x, y) <= Variance(x) * Variance(y)
  {
    VarianceIsCovariance(x);
    VarianceIsCovariance(y);
    MulNonNegative(Variance(x), Variance(y));
    if x != [] && |x| == |y| {
      var dx, dy := Deviations(x), Deviations(y);
      CauchySchwarz(dx, dy);
      DivideBoth(InnerProduct(dx, dx), InnerProduct(dy, dy), InnerProduct(dx, dy), |x| as real);
    }
  }

  lemma SquareBound(r: real, s: real)
    requires s > 0.0 && r * r <= s * s
    ensures -s <= r <= s
  {
    if r > s { SquareGrows(s, r); }
    if r < -s { SquareGrows(s, -r); }
  }

  /** With the standard deviations as the non-negative roots of the variances, the
      correlation is no number, zero over zero, exactly when one of two equally long
      data sets is constant; otherwise it lies between -1 and 1. */
  lemma CorrelationBound(x: seq<real>, y: seq<real>, sx: real, sy: real)
    requires sx >= 0.0 && sy >= 0.0 && sx * sx == Variance(x) && sy * sy == Variance(y)
    ensures var r := Correlation(x, y, sx, sy);
            && (r.NotANumber? <==> x != [] && |x| == |y| && (Constant(x) || Constant(y)))
            && (r.NotANumber? ==> Covariance(x, y) == 0.0)
            && (r.Ratio? ==> -1.0 <= r.value <= 1.0)
  {
    ZeroVarianceIffConstant(x);
    ZeroVarianceIffConstant(y);
    ProductZero(sx, sx);
    ProductZero(sy, sy);
    ProductZero(sx, sy);
    CovarianceBound(x, y);
    hide Variance, Constant;
    if sx * sy != 0.0 {
      MulNonNegative(sx, sy);
      Rearranged(sx, sy, sx, sy);
      Rearranged(sx, sx, sy, sy);
      SquareBound(Covariance(x, y), sx * sy);
      DivideBetween(Covariance(x, y), sx * sy);
    } else {
      assert Variance(x) * Variance(y) == 0.0;
      ProductZero(Covariance(x, y), Covariance(x, y));
      SquareNonNegative(Covariance(x, y));
    }
  }

  lemma ProductZero(x: real, y: real)
    ensures x * y == 0.0 <==> x == 0.0 || y == 0.0
  {
    if x != 0.0 && y != 0.0 {
      assert x * y / y == x;
    }
  }

  lemma DivideBetween(r: real, s: real)
    requires s > 0.0 && -s <= r <= s
    ensures -1.0 <= r / s <= 1.0
  {
  }

  // ----- the mean ----------------------------------------------------------

  lemma {:induction false} ShiftedSum(d: seq<real>, x: seq<real>, c: real)
    requires |d| == |x| && forall i :: 0 <= i < |x| ==> d[i] == x[i] - c
    ensures Accumulate(d) == Accumulate(x) - c * |x| as real
  {
    if x != [] {
      var n := |x| - 1;
      ShiftedSum(d[..n], x[..n], c);
      assert |x| as real == n as real + 1.0;
      assert c * |x| as real == c * n as real + c;
    }
  }

  lemma MeanTimesCount(x: seq<real>)
    ensures Mean(x) * |x| as real == Accumulate(x)
  {
    if x != [] { DivTimes(Accumulate(x), |x| as real); }
  }

  /** The mean is the value that the data deviate from by nothing in total. */
  lemma DeviationsAddUpToZero(x: seq<real>)
    ensures Accumulate(Deviations(x)) == 0.0
  {
    ShiftedSum(Deviations(x), x, Mean(x));
    MeanTimesCount(x);
  }

  /** A sum of products of two differences, from the sum of products and the two sums. */
  function Shifted(p: real, c: real, e: real, sx: real, sy: real, n: real): real {
    p - c * sy - e * sx + c * e * n
  }

  lemma OneMoreProduct(q: real, p: real, c: real, e: real, du: real, dv: real, u: real, v: real, sx: real, sy: real,
      n: real)
    requires q == Shifted(p, c, e, sx, sy, n) && du == u - c && dv == v - e
    ensures q + du * dv == Shifted(p + u * v, c, e, sx + u, sy + v, n + 1.0)
  {
    assert du * dv == u * v - u * e - c * v + c * e;
    assert c * (sy + v) == c * sy + c * v && e * (sx + u) == e * sx + u * e;
    assert c * e * (n + 1.0) == c * e * n + c * e;
  }

  /** The sums over data with one more value. */
  lemma LastOfSums(x: seq<real>, y: seq<real>)
    requires |x| == |y| > 0
    ensures var n := |x| - 1;
            && InnerProduct(x, y) == InnerProduct(x[..n], y[..n]) + x[n] * y[n]
            && Accumulate(x) == Accumulate(x[..n]) + x[n] && |x| as real == n as real + 1.0
  {
  }

  lemma {:induction false} ShiftedProduct(dx: seq<real>, dy: seq<real>, x: seq<real>, y: seq<real>, c: real, e: real)
    requires |dx| == |dy| == |x| == |y|
    requires forall i :: 0 <= i < |x| ==> dx[i] == x[i] - c && dy[i] == y[i] - e
    ensures InnerProduct(dx, dy) == Shifted(InnerProduct(x, y), c, e, Accumulate(x), Accumulate(y), |x| as real)
  {
    if x == [] {
      NothingShifted(c, e);
    } else {
      var n := |x| - 1;
      ShiftedProduct(dx[..n], dy[..n], x[..n], y[..n], c, e);
      LastOfSums(dx, dy);
      LastOfSums(x, y);
      LastOfSums(y, x);
      hide Shifted, InnerProduct, Accumulate;
      OneMoreProduct(InnerProduct(dx[..n], dy[..n]), InnerProduct(x[..n], y[..n]), c, e, dx[n], dy[n], x[n], y[n],
                     Accumulate(x[..n]), Accumulate(y[..n]), n as real);
    }
  }

  lemma NothingShifted(c: real, e: real)
    ensures Shifted(0.0, c, e, 0.0, 0.0, 0.0) == 0.0
  {
  }

  /** The covariance is the mean of the products less the product of the means, and so is
      the variance. */
  lemma CovarianceByMeans(x: seq<real>, y: seq<real>)
    requires |x| == |y| > 0
    ensures Covariance(x, y) == InnerProduct(x, y) / |x| as real - Mean(x) * Mean(y)
  {
    CovarianceIsQuotient(x, y);
    ShiftedProduct(Deviations(x), Deviations(y), x, y, Mean(x), Mean(y));
    hide *;
    CenteredMean(x, y, InnerProduct(Deviations(x), Deviations(y)));
  }

  lemma CovarianceIsQuotient(x: seq<real>, y: seq<real>)
    requires |x| == |y| > 0
    ensures Covariance(x, y) == InnerProduct(Deviations(x), Deviations(y)) / |x| as real
  {
    hide InnerProduct, Deviations;
  }

  lemma CenteredMean(x: seq<real>, y: seq<real>, c: real)
    requires |x| == |y| > 0
    requires c == Shifted(InnerProduct(x, y), Mean(x), Mean(y), Accumulate(x), Accumulate(y), |x| as real)
    ensures c / |x| as real == InnerProduct(x, y) / |x| as real - Mean(x) * Mean(y)
  {
    hide *;
    MeanTimesCount(x);
    MeanTimesCount(y);
    DifferenceOfMeans(c, InnerProduct(x, y), Mean(x), Mean(y), Accumulate(x), Accumulate(y), |x| as real);
  }

  lemma DifferenceOfMeans(c: real, p: real, mx: real, my: real, sx: real, sy: real, n: real)
    requires n > 0.0 && mx * n == sx && my * n == sy && c == Shifted(p, mx, my, sx, sy, n)
    ensures c / n == p / n - mx * my
  {
    var m := mx * my;
    assert mx * sy == m * n && my * sx == m * n;
    assert c == p - m * n;
    hide Shifted;
    DifferenceOver(p, m, n);
  }

  lemma DifferenceOver(a: real, b: real, n: real)
    requires n > 0.0
    ensures (a - b * n) / n == a / n - b
  {
    var q := a / n - b;
    assert q * n == a - b * n by {
      DivTimes(a, n);
      MulSub(a / n, b, n);
    }
    TimesDiv(q, n);
  }

  // ----- when the variance vanishes ----------------------------------------

  predicate Constant(x: seq<real>) {
    forall i, j :: 0 <= i < |x| && 0 <= j < |x| ==> x[i] == x[j]
  }

  lemma {:induction false} ZeroSquares(x: seq<real>)
    ensures InnerProduct(x, x) == 0.0 <==> forall i :: 0 <= i < |x| ==> x[i] == 0.0
  {
    if x != [] {
      var n := |x| - 1;
      ZeroSquares(x[..n]);
      SquaresNonNegative(x[..n]);
      SquareNonNegative(x[n]);
      ProductZero(x[n], x[n]);
      assert forall i :: 0 <= i < n ==> x[..n][i] == x[i];
    }
  }

  lemma {:induction false} SumOfConstant(x: seq<real>, c: real)
    requires forall i :: 0 <= i < |x| ==> x[i] == c
    ensures Accumulate(x) == c * |x| as real
  {
    if x != [] {
      SumOfConstant(x[..|x| - 1], c);
      assert |x| as real == (|x| - 1) as real + 1.0;
      assert c * |x| as real == c * (|x| - 1) as real + c;
    }
  }

  /** The variance is zero exactly for constant data. */
  lemma ZeroVarianceIffConstant(x: seq<real>)
    ensures Variance(x) == 0.0 <==> Constant(x)
  {
    if x != [] {
      var d := Deviations(x);
      ZeroSquares(d);
      QuotientZero(InnerProduct(d, d), |x| as real);
      hide InnerProduct, Deviations;
      if Constant(x) {
        MeanOfConstant(x);
      }
      hide Mean;
      if (forall i :: 0 <= i < |d| ==> d[i] == 0.0) {
        forall i | 0 <= i < |x| ensures x[i] == Mean(x) {
          assert d[i] == x[i] - Mean(x);
        }
      }
    }
  }

  lemma MeanOfConstant(x: seq<real>)
    requires x != [] && Constant(x)
    ensures Mean(x) == x[0]
  {
    SumOfConstant(x, x[0]);
    TimesDiv(x[0], |x| as real);
    hide Accumulate;
  }

  lemma TimesDiv(c: real, n: real)
    requires n != 0.0
    ensures c * n / n == c
  {
  }

  lemma QuotientZero(a: real, n: real)
    requires n > 0.0
    ensures a / n == 0.0 <==> a == 0.0
  {
    DivTimes(a, n);
  }
}
