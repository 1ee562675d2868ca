/** Ordinary least squares with one regressor, the fit that scikit-learn's
    `LinearRegression().fit(X, y)` computes when X has a single column:
    slope = sum (x - mean x)(y - mean y) / sum (x - mean x)^2 and
    intercept = mean y - slope * mean x. When every x is the same the
    minimum-norm solution is taken: slope 0 and intercept mean y. */
module LeastSquares {
  import Numeric

  datatype Point = Point(x: real, y: real)

  datatype Line = Line(slope: real, intercept: real)

  /** `model.predict([[x]])`. */
  function At(l: Line, x: real): real {
    l.slope * x + l.intercept
  }

  /** d squared. The second factor goes through `Id` so that the solver sees
      a product of two terms rather than a literal square, which its
      arithmetic handles poorly. */
  function Sq(d: real): real {
    d * Id(d)
  }

  function Id(d: real): real {
    d
  }

  function SumX(ps: seq<Point>): real {
    if ps == [] then 0.0 else ps[0].x + SumX(ps[1..])
  }

  function SumY(ps: seq<Point>): real {
    if ps == [] then 0.0 else ps[0].y + SumY(ps[1..])
  }

  function SumXX(ps: seq<Point>): real {
    if ps == [] then 0.0 else Sq(ps[0].x) + SumXX(ps[1..])
  }

  function SumXY(ps: seq<Point>): real {
    if ps == [] then 0.0 else ps[0].x * ps[0].y + SumXY(ps[1..])
  }

  function MeanX(ps: seq<Point>): real
    requires |ps| > 0
  {
    SumX(ps) / |ps| as real
  }

  function MeanY(ps: seq<Point>): real
    requires |ps| > 0
  {
    SumY(ps) / |ps| as real
  }

  /** sum (x - u)^2 */
  function Cxx(ps: seq<Point>, u: real): real {
    if ps == [] then 0.0 else Sq(ps[0].x - u) + Cxx(ps[1..], u)
  }

  /** sum (x - u)(y - v) */
  function Cxy(ps: seq<Point>, u: real, v: real): real {
    if ps == [] then 0.0 else (ps[0].x - u) * (ps[0].y - v) + Cxy(ps[1..], u, v)
  }

  function Slope(ps: seq<Point>): real
    requires |ps| > 0
  {
    var sxx := Cxx(ps, MeanX(ps));
    if sxx == 0.0 then 0.0 else Cxy(ps, MeanX(ps), MeanY(ps)) / sxx
  }

  /** The fitted line, as `LinearRegression().fit` leaves it in `coef_` and `intercept_`. */
  function Fit(ps: seq<Point>): Line
    requires |ps| > 0
  {
    Line(Slope(ps), MeanY(ps) - Slope(ps) * MeanX(ps))
  }

  /** sum of residuals y - l(x) */
  function SumResidual(ps: seq<Point>, l: Line): real {
    if ps == [] then 0.0 else (ps[0].y - At(l, ps[0].x)) + SumResidual(ps[1..], l)
  }

  /** sum of x * (y - l(x)) */
  function SumXResidual(ps: seq<Point>, l: Line): real {
    if ps == [] then 0.0 else ps[0].x * (ps[0].y - At(l, ps[0].x)) + SumXResidual(ps[1..], l)
  }

  /** The least-squares objective: sum (y - l(x))^2. */
  function SquaredError(ps: seq<Point>, l: Line): real {
    if ps == [] then 0.0 else Sq(ps[0].y - At(l, ps[0].x)) + SquaredError(ps[1..], l)
  }

  /** sum (l(x) - k(x))^2 */
  function Gap(ps: seq<Point>, l: Line, k: Line): real {
    if ps == [] then 0.0 else Sq(At(l, ps[0].x) - At(k, ps[0].x)) + Gap(ps[1..], l, k)
  }

  /** Every point of ps lies on l. */
  predicate OnLine(ps: seq<Point>, l: Line) {
    forall i :: 0 <= i < |ps| ==> ps[i].y == At(l, ps[i].x)
  }

  // ---- arithmetic helpers, each over plain reals ----

  lemma MulEq(a: real, b: real, c: real)
    requires b == c
    ensures a * b == a * c
  {
  }

  lemma MulPositive(a: real, b: real, q: real)
    requires a > 0.0 && b > 0.0 && q == a * b
    ensures q > 0.0
  {
  }

  lemma SquareNonNegative(d: real)
    ensures Sq(d) >= 0.0
  {
    if d != 0.0 {
      SquarePositive(d);
    }
  }

  lemma SquarePositive(d: real)
    requires d != 0.0
    ensures Sq(d) > 0.0
  {
    if d > 0.0 {
      MulPositive(d, d, Sq(d));
    } else {
      MulPositive(-d, -d, Sq(d));
    }
  }

  /** A square plus something non-negative is zero only when the square's root is. */
  lemma SquareSumZero(d: real, rest: real)
    requires Sq(d) + rest == 0.0 && rest >= 0.0
    ensures d == 0.0
  {
    if d != 0.0 {
      SquarePositive(d);
    }
  }

  lemma ProductNonZero(a: real, b: real)
    requires a != 0.0 && b != 0.0
    ensures a * b != 0.0
  {
    if a > 0.0 && b > 0.0 {
      MulPositive(a, b, a * b);
    } else if a > 0.0 {
      MulPositive(a, -b, a * -b);
    } else if b > 0.0 {
      MulPositive(-a, b, -a * b);
    } else {
      MulPositive(-a, -b, -a * -b);
    }
  }

  /** Two lines that agree at two distinct abscissae are the same line. */
  lemma TwoPointsFixLine(s: real, c: real, m: real, b: real, xi: real, xj: real)
    requires s * xi + c == m * xi + b && s * xj + c == m * xj + b && xi != xj
    ensures s == m && c == b
  {
    var d := s - m;
    assert d * (xi - xj) == 0.0;
    if d != 0.0 {
      ProductNonZero(d, xi - xj);
    }
  }

  lemma {:induction false} Tail(ps: seq<Point>, i: int)
    requires 0 < i < |ps|
    ensures ps[i] == ps[1..][i - 1]
  {
  }

  // ---- the sums in closed form ----
  // Each identity that multiplies a sum by a coefficient is a predicate over
  // plain reals; the lemmas about sequences only pass sums to it.

  /** r == sy - s * sx - n * c */
  predicate ResidualRelation(r: real, sy: real, sx: real, n: real, s: real, c: real) {
    r == sy - s * sx - n * c
  }

  lemma {:induction false} SumResidualExpand(ps: seq<Point>, l: Line)
    ensures ResidualRelation(SumResidual(ps, l), SumY(ps), SumX(ps), |ps| as real, l.slope, l.intercept)
  {
    if ps != [] {
      var x, y, rest := ps[0].x, ps[0].y, ps[1..];
      SumResidualExpand(rest, l);
      StepSumResidual(x, y, l.slope, l.intercept,
        SumY(rest), SumX(rest), |rest| as real, SumResidual(rest, l),
        SumY(ps), SumX(ps), |ps| as real, SumResidual(ps, l));
    } else {
      BaseSumResidual(l.slope, l.intercept);
    }
  }

  lemma BaseSumResidual(s: real, c: real)
    ensures ResidualRelation(0.0, 0.0, 0.0, 0.0, s, c)
  {
  }

  lemma StepSumResidual(x: real, y: real, s: real, c: real,
                        sy: real, sx: real, n: real, r: real,
                        sy': real, sx': real, n': real, r': real)
    requires sy' == y + sy && sx' == x + sx && n' == n + 1.0
    requires ResidualRelation(r, sy, sx, n, s, c) && r' == (y - (s * x + c)) + r
    ensures ResidualRelation(r', sy', sx', n', s, c)
  {
    MulEq(s, sx', x + sx);
    MulEq(c, n', n + 1.0);
  }

  /** r == sxy - s * sxx - c * sx */
  predicate XResidualRelation(r: real, sxy: real, sxx: real, sx: real, s: real, c: real) {
    r == sxy - s * sxx - c * sx
  }

  lemma {:induction false} SumXResidualExpand(ps: seq<Point>, l: Line)
    ensures XResidualRelation(SumXResidual(ps, l), SumXY(ps), SumXX(ps), SumX(ps), l.slope, l.intercept)
  {
    if ps != [] {
      var x, y, rest := ps[0].x, ps[0].y, ps[1..];
      SumXResidualExpand(rest, l);
      StepSumXResidual(x, y, l.slope, l.intercept, At(l, x),
        SumXY(rest), SumXX(rest), SumX(rest), SumXResidual(rest, l),
        SumXY(ps), SumXX(ps), SumX(ps), SumXResidual(ps, l));
    } else {
      BaseSumXResidual(l.slope, l.intercept);
    }
  }

  lemma BaseSumXResidual(s: real, c: real)
    ensures XResidualRelation(0.0, 0.0, 0.0, 0.0, s, c)
  {
  }

  lemma StepSumXResidual(x: real, y: real, s: real, c: real, a: real,
                         sxy: real, sxx: real, sx: real, r: real,
                         sxy': real, sxx': real, sx': real, r': real)
    requires a == s * x + c
    requires sxy' == x * y + sxy && sxx' == Sq(x) + sxx && sx' == x + sx
    requires XResidualRelation(r, sxy, sxx, sx, s, c) && r' == x * (y - a) + r
    ensures XResidualRelation(r', sxy', sxx', sx', s, c)
  {
    MulEq(x, a, s * x + c);
    MulEq(s * x, x, Id(x));
    MulEq(s, sxx', Sq(x) + sxx);
    MulEq(c, sx', x + sx);
  }

  /** cv == sxy - v * sx - u * sy + n * (u * v) */
  predicate CovarianceRelation(cv: real, sxy: real, sx: real, sy: real, n: real, u: real, v: real) {
    cv == sxy - v * sx - u * sy + n * (u * v)
  }

  lemma {:induction false} CxyExpand(ps: seq<Point>, u: real, v: real)
    ensures CovarianceRelation(Cxy(ps, u, v), SumXY(ps), SumX(ps), SumY(ps), |ps| as real, u, v)
  {
    if ps != [] {
      var x, y, rest := ps[0].x, ps[0].y, ps[1..];
      CxyExpand(rest, u, v);
      StepCxy(x, y, u, v, SumXY(rest), SumX(rest), SumY(rest), |rest| as real, Cxy(rest, u, v),
        SumXY(ps), SumX(ps), SumY(ps), |ps| as real, Cxy(ps, u, v));
    } else {
      BaseCxy(u, v);
    }
  }

  lemma BaseCxy(u: real, v: real)
    ensures CovarianceRelation(0.0, 0.0, 0.0, 0.0, 0.0, u, v)
  {
  }

  lemma StepCxy(x: real, y: real, u: real, v: real,
                sxy: real, sx: real, sy: real, n: real, c: real,
                sxy': real, sx': real, sy': real, n': real, c': real)
    requires sxy' == x * y + sxy && sx' == x + sx && sy' == y + sy && n' == n + 1.0
    requires CovarianceRelation(c, sxy, sx, sy, n, u, v) && c' == (x - u) * (y - v) + c
    ensures CovarianceRelation(c', sxy', sx', sy', n', u, v)
  {
    MulEq(v, sx', x + sx);
    MulEq(u, sy', y + sy);
    MulEq(u * v, n', n + 1.0);
  }

  /** c == sxx - 2u * sx + n * u^2 */
  predicate SpreadRelation(c: real, sxx: real, sx: real, n: real, u: real) {
    c == sxx - 2.0 * u * sx + n * Sq(u)
  }

  lemma {:induction false} CxxExpand(ps: seq<Point>, u: real)
    ensures SpreadRelation(Cxx(ps, u), SumXX(ps), SumX(ps), |ps| as real, u)
  {
    if ps != [] {
      var x, rest := ps[0].x, ps[1..];
      CxxExpand(rest, u);
      StepCxx(x, u, SumXX(rest), SumX(rest), |rest| as real, Cxx(rest, u),
        SumXX(ps), SumX(ps), |ps| as real, Cxx(ps, u));
    } else {
      BaseCxx(u);
    }
  }

  lemma BaseCxx(u: real)
    ensures SpreadRelation(0.0, 0.0, 0.0, 0.0, u)
  {
  }

  lemma StepCxx(x: real, u: real, sxx: real, sx: real, n: real, c: real,
                sxx': real, sx': real, n': real, c': real)
    requires sxx' == Sq(x) + sxx && sx' == x + sx && n' == n + 1.0
    requires SpreadRelation(c, sxx, sx, n, u) && c' == Sq(x - u) + c
    ensures SpreadRelation(c', sxx', sx', n', u)
  {
    MulEq(2.0 * u, sx', x + sx);
    MulEq(Sq(u), n', n + 1.0);
    MulEq(x - u, x - u, Id(x - u));
    MulEq(x, x, Id(x));
    MulEq(u, u, Id(u));
  }

  // ---- sums of squares ----

  lemma {:induction false} CxxNonNegative(ps: seq<Point>, u: real)
    ensures Cxx(ps, u) >= 0.0
  {
    if ps != [] {
      CxxNonNegative(ps[1..], u);
      SquareNonNegative(ps[0].x - u);
    }
  }

  lemma {:induction false} GapNonNegative(ps: seq<Point>, l: Line, k: Line)
    ensures Gap(ps, l, k) >= 0.0
  {
    if ps != [] {
      GapNonNegative(ps[1..], l, k);
      var d := At(l, ps[0].x) - At(k, ps[0].x);
      SquareNonNegative(d);
    }
  }

  lemma {:induction false} SquaredErrorNonNegative(ps: seq<Point>, l: Line)
    ensures SquaredError(ps, l) >= 0.0
  {
    if ps != [] {
      SquaredErrorNonNegative(ps[1..], l);
      var d := ps[0].y - At(l, ps[0].x);
      SquareNonNegative(d);
    }
  }

  /** No spread in x around u means every x is u, and then there is no
      covariance either. */
  lemma {:induction false} NoSpreadNoCovariance(ps: seq<Point>, u: real, v: real)
    requires Cxx(ps, u) == 0.0
    ensures forall i :: 0 <= i < |ps| ==> ps[i].x == u
    ensures Cxy(ps, u, v) == 0.0
  {
    if ps != [] {
      var p := ps[0];
      CxxNonNegative(ps[1..], u);
      SquareSumZero(p.x - u, Cxx(ps[1..], u));
      MulEq(p.y - v, p.x - u, 0.0);
      NoSpreadNoCovariance(ps[1..], u, v);
      forall i | 0 < i < |ps|
        ensures ps[i].x == u
      {
        Tail(ps, i);
      }
    }
  }

  // ---- what the fit is ----

  lemma {:induction false} MeansTimesCount(ps: seq<Point>)
    requires |ps| > 0
    ensures SumX(ps) == MeanX(ps) * |ps| as real
    ensures SumY(ps) == MeanY(ps) * |ps| as real
  {
    Numeric.DivMulCancel(SumX(ps), |ps| as real);
    Numeric.DivMulCancel(SumY(ps), |ps| as real);
  }

  /** (u, v) is the mean of n points whose coordinates sum to (sx, sy), stated without division. */
  predicate CentroidRelation(sx: real, sy: real, n: real, u: real, v: real) {
    sx == u * n && sy == v * n
  }

  /** (u, v) is the centroid of ps. */
  predicate Centroid(ps: seq<Point>, u: real, v: real) {
    CentroidRelation(SumX(ps), SumY(ps), |ps| as real, u, v)
  }

  /** The line passes through (u, v). */
  predicate Through(l: Line, u: real, v: real) {
    l.intercept == v - l.slope * u
  }

  /** m * cxx == cxy: a slope m that balances the spread cxx against the covariance cxy. */
  predicate Balanced(m: real, cxx: real, cxy: real) {
    m * cxx == cxy
  }

  lemma ResidualAlgebra(n: real, sx: real, sy: real, u: real, v: real, l: Line, sr: real)
    requires CentroidRelation(sx, sy, n, u, v) && Through(l, u, v)
    requires ResidualRelation(sr, sy, sx, n, l.slope, l.intercept)
    ensures sr == 0.0
  {
    MulEq(l.slope, sx, u * n);
    MulEq(n, l.intercept, v - l.slope * u);
  }

  /** A line through the centroid has residuals that sum to zero. */
  lemma {:induction false} CentroidLineResiduals(ps: seq<Point>, l: Line, u: real, v: real)
    requires Centroid(ps, u, v) && Through(l, u, v)
    ensures SumResidual(ps, l) == 0.0
  {
    SumResidualExpand(ps, l);
    ResidualAlgebra(|ps| as real, SumX(ps), SumY(ps), u, v, l, SumResidual(ps, l));
  }

  /** The covariance around the centroid in raw sums. */
  lemma {:induction false} CxyAtMeans(ps: seq<Point>, u: real, v: real)
    requires Centroid(ps, u, v)
    ensures Cxy(ps, u, v) == SumXY(ps) - |ps| as real * (u * v)
  {
    CxyExpand(ps, u, v);
    CxyAlgebra(|ps| as real, SumX(ps), SumY(ps), SumXY(ps), u, v, Cxy(ps, u, v));
  }

  lemma CxyAlgebra(n: real, sx: real, sy: real, sxy: real, u: real, v: real, c: real)
    requires CentroidRelation(sx, sy, n, u, v)
    requires CovarianceRelation(c, sxy, sx, sy, n, u, v)
    ensures c == sxy - n * (u * v)
  {
    MulEq(v, sx, u * n);
    MulEq(u, sy, v * n);
  }

  /** The spread around the centroid in raw sums. */
  lemma {:induction false} CxxAtMean(ps: seq<Point>, u: real, v: real)
    requires Centroid(ps, u, v)
    ensures Cxx(ps, u) == SumXX(ps) - |ps| as real * Sq(u)
  {
    CxxExpand(ps, u);
    CxxAlgebra(|ps| as real, SumX(ps), SumY(ps), SumXX(ps), u, v, Cxx(ps, u));
  }

  lemma CxxAlgebra(n: real, sx: real, sy: real, sxx: real, u: real, v: real, c: real)
    requires CentroidRelation(sx, sy, n, u, v)
    requires SpreadRelation(c, sxx, sx, n, u)
    ensures c == sxx - n * Sq(u)
  {
    MulEq(2.0 * u, sx, u * n);
    MulEq(n * u, u, Id(u));
  }

  /** Covariance and spread around (u, v) in raw sums. */
  predicate MomentRelation(cxy: real, cxx: real, sxy: real, sxx: real, n: real, u: real, v: real) {
    cxy == sxy - n * (u * v) && cxx == sxx - n * Sq(u)
  }

  lemma {:induction false} CentroidMoments(ps: seq<Point>, u: real, v: real)
    requires Centroid(ps, u, v)
    ensures MomentRelation(Cxy(ps, u, v), Cxx(ps, u), SumXY(ps), SumXX(ps), |ps| as real, u, v)
  {
    CxyAtMeans(ps, u, v);
    CxxAtMean(ps, u, v);
  }

  /** A line through the centroid whose slope balances spread against
      covariance has residuals uncorrelated with x. */
  lemma {:induction false} CentroidLineXResiduals(ps: seq<Point>, l: Line, u: real, v: real)
    requires Centroid(ps, u, v) && Through(l, u, v) && Balanced(l.slope, Cxx(ps, u), Cxy(ps, u, v))
    ensures SumXResidual(ps, l) == 0.0
  {
    CentroidMoments(ps, u, v);
    SumXResidualExpand(ps, l);
    XResidualAlgebra(|ps| as real, SumX(ps), SumY(ps), SumXX(ps), SumXY(ps), u, v, l,
      SumXResidual(ps, l), Cxy(ps, u, v), Cxx(ps, u));
  }

  lemma XResidualAlgebra(n: real, sx: real, sy: real, sxx: real, sxy: real, u: real, v: real,
                         l: Line, r: real, cxy: real, cxx: real)
    requires CentroidRelation(sx, sy, n, u, v) && Through(l, u, v)
    requires XResidualRelation(r, sxy, sxx, sx, l.slope, l.intercept)
    requires MomentRelation(cxy, cxx, sxy, sxx, n, u, v) && Balanced(l.slope, cxx, cxy)
    ensures r == 0.0
  {
    var m, b := l.slope, l.intercept;
    MulEq(b, sx, u * n);
    MulEq(u * n, b, v - m * u);
    MulEq(m * n * u, u, Id(u));
    MulEq(m, cxx, sxx - n * Sq(u));
  }

  lemma BalancedByQuotient(cxx: real, cxy: real)
    requires cxx != 0.0
    ensures Balanced(cxy / cxx, cxx, cxy)
  {
  }

  lemma BalancedByZero(m: real)
    ensures Balanced(m, 0.0, 0.0)
  {
  }

  /** The slope balances spread against covariance, also when there is no spread. */
  lemma {:induction false} SlopeBalancesSpread(ps: seq<Point>)
    requires |ps| > 0
    ensures Balanced(Slope(ps), Cxx(ps, MeanX(ps)), Cxy(ps, MeanX(ps), MeanY(ps)))
  {
    var cxy, cxx := Cxy(ps, MeanX(ps), MeanY(ps)), Cxx(ps, MeanX(ps));
    if cxx == 0.0 {
      NoSpreadNoCovariance(ps, MeanX(ps), MeanY(ps));
      BalancedByZero(Slope(ps));
    } else {
      BalancedByQuotient(cxx, cxy);
    }
  }

  /** The fitted line passes through the centroid and its slope balances the spread. */
  lemma {:induction false} FitThroughCentroid(ps: seq<Point>)
    requires |ps| > 0
    ensures Centroid(ps, MeanX(ps), MeanY(ps))
    ensures Through(Fit(ps), MeanX(ps), MeanY(ps))
    ensures Balanced(Fit(ps).slope, Cxx(ps, MeanX(ps)), Cxy(ps, MeanX(ps), MeanY(ps)))
  {
    MeansTimesCount(ps);
    SlopeBalancesSpread(ps);
  }

  /** The fitted line solves the normal equations: its residuals sum to zero
      and are uncorrelated with x. */
  lemma {:induction false} FitSolvesNormalEquations(ps: seq<Point>)
    requires |ps| > 0
    ensures SumResidual(ps, Fit(ps)) == 0.0
    ensures SumXResidual(ps, Fit(ps)) == 0.0
  {
    FitThroughCentroid(ps);
    CentroidLineResiduals(ps, Fit(ps), MeanX(ps), MeanY(ps));
    CentroidLineXResiduals(ps, Fit(ps), MeanX(ps), MeanY(ps));
  }

  /** ek == el + 2 (ds * sxr + di * sr) + g */
  predicate SplitRelation(ek: real, el: real, ds: real, sxr: real, di: real, sr: real, g: real) {
    ek == el + 2.0 * (ds * sxr + di * sr) + g
  }

  lemma StepDecompose(x: real, y: real, a: real, b: real, c: real, d: real, al: real, ak: real,
                      e: real, sxr: real, sr: real, g: real, f: real,
                      e': real, sxr': real, sr': real, g': real, f': real)
    requires al == a * x + b && ak == c * x + d
    requires SplitRelation(f, e, a - c, sxr, b - d, sr, g)
    requires e' == Sq(y - al) + e && sxr' == x * (y - al) + sxr && sr' == (y - al) + sr
    requires g' == Sq(al - ak) + g && f' == Sq(y - ak) + f
    ensures SplitRelation(f', e', a - c, sxr', b - d, sr', g')
  {
    MulEq(y - al, al - ak, (a - c) * x + (b - d));
    MulEq(a - c, sxr', x * (y - al) + sxr);
    MulEq(b - d, sr', (y - al) + sr);
  }

  lemma BaseDecompose(ds: real, di: real)
    ensures SplitRelation(0.0, 0.0, ds, 0.0, di, 0.0, 0.0)
  {
  }

  /** Replacing line l by k changes the squared error by the gap between the
      lines plus a cross term made of l's normal-equation sums. */
  lemma {:induction false} SquaredErrorDecomposes(ps: seq<Point>, l: Line, k: Line)
    ensures SplitRelation(SquaredError(ps, k), SquaredError(ps, l), l.slope - k.slope, SumXResidual(ps, l),
      l.intercept - k.intercept, SumResidual(ps, l), Gap(ps, l, k))
  {
    if ps != [] {
      var x, y, rest := ps[0].x, ps[0].y, ps[1..];
      SquaredErrorDecomposes(rest, l, k);
      StepDecompose(x, y, l.slope, l.intercept, k.slope, k.intercept, At(l, x), At(k, x),
        SquaredError(rest, l), SumXResidual(rest, l), SumResidual(rest, l), Gap(rest, l, k),
        SquaredError(rest, k), SquaredError(ps, l), SumXResidual(ps, l), SumResidual(ps, l),
        Gap(ps, l, k), SquaredError(ps, k));
    } else {
      BaseDecompose(l.slope - k.slope, l.intercept - k.intercept);
    }
  }

  lemma CompareErrors(ek: real, el: real, ds: real, sxr: real, di: real, sr: real, g: real)
    requires SplitRelation(ek, el, ds, sxr, di, sr, g)
    requires sxr == 0.0 && sr == 0.0 && g >= 0.0
    ensures el <= ek
  {
    MulEq(ds, sxr, 0.0);
    MulEq(di, sr, 0.0);
  }

  /** The fit is a least-squares line: no line has a smaller squared error. */
  lemma {:induction false} FitMinimizesSquaredError(ps: seq<Point>, k: Line)
    requires |ps| > 0
    ensures SquaredError(ps, Fit(ps)) <= SquaredError(ps, k)
  {
    var l := Fit(ps);
    FitSolvesNormalEquations(ps);
    SquaredErrorDecomposes(ps, l, k);
    GapNonNegative(ps, l, k);
    CompareErrors(SquaredError(ps, k), SquaredError(ps, l), l.slope - k.slope, SumXResidual(ps, l),
      l.intercept - k.intercept, SumResidual(ps, l), Gap(ps, l, k));
  }

  /** A line has zero squared error exactly when every point lies on it. */
  lemma {:induction false} ZeroErrorIffOnLine(ps: seq<Point>, l: Line)
    ensures SquaredError(ps, l) == 0.0 <==> OnLine(ps, l)
  {
    if ps != [] {
      ZeroErrorIffOnLine(ps[1..], l);
      var d := ps[0].y - At(l, ps[0].x);
      SquaredErrorNonNegative(ps[1..], l);
      if SquaredError(ps, l) == 0.0 {
        SquareSumZero(d, SquaredError(ps[1..], l));
        forall i | 0 < i < |ps|
          ensures ps[i].y == At(l, ps[i].x)
        {
          Tail(ps, i);
        }
      }
      if OnLine(ps, l) {
        assert OnLine(ps[1..], l) by {
          forall i | 0 <= i < |ps[1..]|
            ensures ps[1..][i].y == At(l, ps[1..][i].x)
          {
            Tail(ps, i + 1);
          }
        }
        MulEq(d, d, 0.0);
      }
    }
  }

  /** A line whose squared error is no larger than that of a line through
      all the points, two of them with distinct x, is that line. */
  lemma {:induction false} NoWorseThanExactIsExact(ps: seq<Point>, f: Line, l: Line, i: int, j: int)
    requires OnLine(ps, l) && SquaredError(ps, f) <= SquaredError(ps, l)
    requires 0 <= i < |ps| && 0 <= j < |ps| && ps[i].x != ps[j].x
    ensures f == l
  {
    ZeroErrorIffOnLine(ps, l);
    SquaredErrorNonNegative(ps, f);
    ZeroErrorIffOnLine(ps, f);
    TwoPointsFixLine(f.slope, f.intercept, l.slope, l.intercept, ps[i].x, ps[j].x);
  }

  /** Points that lie exactly on a line, with at least two distinct x values,
      give back that line. */
  lemma {:induction false} ExactLineIsRecovered(ps: seq<Point>, l: Line, i: int, j: int)
    requires OnLine(ps, l)
    requires 0 <= i < |ps| && 0 <= j < |ps| && ps[i].x != ps[j].x
    ensures Fit(ps) == l
  {
    FitMinimizesSquaredError(ps, l);
    NoWorseThanExactIsExact(ps, Fit(ps), l, i, j);
  }

  /** With no spread in x (in particular with a single point) the fit is the
      horizontal line through the mean of y. */
  lemma {:induction false} NoSpreadFitIsFlat(ps: seq<Point>)
    requires |ps| > 0 && Cxx(ps, MeanX(ps)) == 0.0
    ensures Fit(ps) == Line(0.0, MeanY(ps))
  {
  }

  lemma {:induction false} SinglePointFit(p: Point)
    ensures Fit([p]) == Line(0.0, p.y)
  {
    var ps := [p];
    assert ps[1..] == [];
    assert SumX(ps) == p.x && SumY(ps) == p.y;
    assert MeanX(ps) == p.x;
    assert Cxx(ps, p.x) == Sq(0.0);
    NoSpreadFitIsFlat(ps);
  }
}
