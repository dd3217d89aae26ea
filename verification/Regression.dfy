/** The slope of a vCPU's consumption history: what computeSlope computes, and
    the proof that it is the slope of the least-squares line through the points
    (0, h[0]), (1, h[1]), ... */
module Regression {

  /** f(0) + ... + f(n - 1) */
  function Series(f: nat -> real, n: nat): real {
    if n == 0 then 0.0 else Series(f, n - 1) + f(n - 1)
  }

  function Index(): nat -> real { (x: nat) => x as real }

  function Value(h: seq<real>): nat -> real { (x: nat) => if x < |h| then h[x] else 0.0 }

  function Minus(f: nat -> real, m: real): nat -> real { (x: nat) => f(x) - m }

  function Times(f: nat -> real, g: nat -> real): nat -> real { (x: nat) => f(x) * g(x) }

  function One(): nat -> real { (x: nat) => 1.0 }

  function MeanX(h: seq<real>): real
    requires h != []
  {
    Series(Index(), |h|) / |h| as real
  }

  function MeanY(h: seq<real>): real
    requires h != []
  {
    Series(Value(h), |h|) / |h| as real
  }

  /** Deviation of an abscissa from the mean abscissa. */
  function Dx(h: seq<real>): nat -> real
    requires h != []
  {
    Minus(Index(), MeanX(h))
  }

  /** Deviation of a value from the mean value. */
  function Dy(h: seq<real>): nat -> real
    requires h != []
  {
    Minus(Value(h), MeanY(h))
  }

  /** Spread of the abscissas, ss_x in the source. */
  function Spread(h: seq<real>): real
    requires h != []
  {
    Series(Times(Dx(h), Dx(h)), |h|)
  }

  function Slope(h: seq<real>): real
    requires |h| >= 2
  {
    SpreadPositive(h);
    Series(Times(Dx(h), Dy(h)), |h|) / Spread(h)
  }

  /** The value at 0 of the line of slope Slope(h) through the centre of the points. */
  function Intercept(h: seq<real>): real
    requires |h| >= 2
  {
    MeanY(h) - Slope(h) * MeanX(h)
  }

  /** Vertical distance of a point from the line a * x + b. */
  function Residual(h: seq<real>, a: real, b: real): nat -> real {
    (x: nat) => Value(h)(x) - (a * x as real + b)
  }

  /** Sum of squared residuals of the line a * x + b. */
  function SquaredError(h: seq<real>, a: real, b: real): real {
    Series(Times(Residual(h, a, b), Residual(h, a, b)), |h|)
  }

  // ---- signs of products ----

  lemma ProductPositive(u: real, v: real, w: real)
    requires u > 0.0 && v > 0.0 && w == u * v
    ensures w > 0.0
  {
  }

  lemma MirrorSquare(a: real, b: real, s: real)
    requires b == -a && s == a * a
    ensures s == b * b
  {
  }

  lemma SquarePositive(a: real, s: real)
    requires a != 0.0 && s == a * a
    ensures s > 0.0
  {
    if a > 0.0 {
      ProductPositive(a, a, s);
    } else {
      var b: real :| b == -a;
      MirrorSquare(a, b, s);
      ProductPositive(b, b, s);
    }
  }

  lemma PositiveProduct(a: real, b: real, s: real, t: real)
    requires b > 0.0 && s == a * a && t == s * b
    ensures if a == 0.0 then t == 0.0 else t > 0.0
  {
    if a != 0.0 {
      SquarePositive(a, s);
      ProductPositive(s, b, t);
    }
  }

  // ---- the divisor is never zero ----

  lemma {:induction false} SeriesIndex(n: nat)
    ensures 2.0 * Series(Index(), n) == n as real * (n as real - 1.0)
  {
    if n > 0 {
      SeriesIndex(n - 1);
      var k := n as real;
      assert (k - 1.0) * (k - 2.0) + 2.0 * (k - 1.0) == k * (k - 1.0);
    }
  }

  lemma {:induction false} SeriesOfSquares(f: nat -> real, n: nat)
    ensures Series(Times(f, f), n) >= 0.0
    ensures Series(Times(f, f), n) == 0.0 <==> forall x: nat :: x < n ==> f(x) == 0.0
  {
    if n > 0 {
      SeriesOfSquares(f, n - 1);
      var e := f(n - 1);
      assert e * e >= 0.0;
      if e != 0.0 {
        SquarePositive(e, e * e);
      }
      assert (forall x: nat :: x < n ==> f(x) == 0.0)
        <==> (forall x: nat :: x < n - 1 ==> f(x) == 0.0) && f(n - 1) == 0.0;
    }
  }

  /** With two points or more the abscissas are spread out, so computeSlope never divides by zero. */
  lemma SpreadPositive(h: seq<real>)
    requires |h| >= 2
    ensures Spread(h) > 0.0
  {
    SeriesOfSquares(Dx(h), |h|);
    assert Dx(h)(1) - Dx(h)(0) == 1.0;
    assert Dx(h)(0) != 0.0 || Dx(h)(1) != 0.0;
  }

  // ---- linear combinations of series ----

  lemma {:induction false} Combine(f: nat -> real, n: nat,
                                   g0: nat -> real, g1: nat -> real, g2: nat -> real,
                                   g3: nat -> real, g4: nat -> real, g5: nat -> real,
                                   c1: real, c2: real, c3: real, c4: real, c5: real)
    requires forall x: nat :: x < n ==>
      f(x) == g0(x) + c1 * g1(x) + c2 * g2(x) + c3 * g3(x) + c4 * g4(x) + c5 * g5(x)
    ensures Series(f, n) == Series(g0, n) + c1 * Series(g1, n) + c2 * Series(g2, n)
                            + c3 * Series(g3, n) + c4 * Series(g4, n) + c5 * Series(g5, n)
  {
    if n > 0 {
      Combine(f, n - 1, g0, g1, g2, g3, g4, g5, c1, c2, c3, c4, c5);
      Distribute(c1, Series(g1, n - 1), g1(n - 1));
      Distribute(c2, Series(g2, n - 1), g2(n - 1));
      Distribute(c3, Series(g3, n - 1), g3(n - 1));
      Distribute(c4, Series(g4, n - 1), g4(n - 1));
      Distribute(c5, Series(g5, n - 1), g5(n - 1));
    }
  }

  lemma {:induction false} Combine2(f: nat -> real, n: nat, g: nat -> real, h: nat -> real, c: real)
    requires forall x: nat :: x < n ==> f(x) == g(x) + c * h(x)
    ensures Series(f, n) == Series(g, n) + c * Series(h, n)
  {
    if n > 0 {
      Combine2(f, n - 1, g, h, c);
      Distribute(c, Series(h, n - 1), h(n - 1));
    }
  }

  lemma DropZeros(f: real, s0: real, s1: real, s2: real, s3: real, s4: real, s5: real,
                  c1: real, c2: real, c3: real, c4: real, c5: real)
    requires f == s0 + c1 * s1 + c2 * s2 + c3 * s3 + c4 * s4 + c5 * s5
    requires s1 == 0.0 && s2 == 0.0 && s4 == 0.0
    ensures f == s0 + c3 * s3 + c5 * s5
  {
  }

  /** Combine, when three of the series sum to nothing. */
  lemma CombineVanishing(f: nat -> real, n: nat,
                         g0: nat -> real, g1: nat -> real, g2: nat -> real,
                         g3: nat -> real, g4: nat -> real, g5: nat -> real,
                         c1: real, c2: real, c3: real, c4: real, c5: real)
    requires forall x: nat :: x < n ==>
      f(x) == g0(x) + c1 * g1(x) + c2 * g2(x) + c3 * g3(x) + c4 * g4(x) + c5 * g5(x)
    requires Series(g1, n) == 0.0 && Series(g2, n) == 0.0 && Series(g4, n) == 0.0
    ensures Series(f, n) == Series(g0, n) + c3 * Series(g3, n) + c5 * Series(g5, n)
  {
    Combine(f, n, g0, g1, g2, g3, g4, g5, c1, c2, c3, c4, c5);
    DropZeros(Series(f, n), Series(g0, n), Series(g1, n), Series(g2, n), Series(g3, n), Series(g4, n),
              Series(g5, n), c1, c2, c3, c4, c5);
  }

  lemma Distribute(c: real, s: real, t: real)
    ensures c * (s + t) == c * s + c * t
  {
  }

  lemma {:induction false} SeriesMinus(f: nat -> real, m: real, n: nat)
    ensures Series(Minus(f, m), n) == Series(f, n) - m * n as real
  {
    if n > 0 {
      SeriesMinus(f, m, n - 1);
      assert m * n as real == m * (n - 1) as real + m;
    }
  }

  lemma {:induction false} SeriesOne(n: nat)
    ensures Series(One(), n) == n as real
  {
    if n > 0 {
      SeriesOne(n - 1);
    }
  }

  lemma DeviationsCancel(h: seq<real>)
    requires h != []
    ensures Series(Dx(h), |h|) == 0.0
    ensures Series(Dy(h), |h|) == 0.0
  {
    SeriesMinus(Index(), MeanX(h), |h|);
    SeriesMinus(Value(h), MeanY(h), |h|);
  }

  // ---- the normal equations of the fitted line ----

  lemma FittedResidual(h: seq<real>, x: nat)
    requires |h| >= 2
    ensures Residual(h, Slope(h), Intercept(h))(x) == Dy(h)(x) - Slope(h) * Dx(h)(x)
  {
    var s, t, m := Slope(h), x as real, MeanX(h);
    assert s * (t - m) == s * t - s * m;
  }

  lemma ResidualsCancel(h: seq<real>)
    requires |h| >= 2
    ensures Series(Residual(h, Slope(h), Intercept(h)), |h|) == 0.0
  {
    var n, s := |h|, Slope(h);
    var r := Residual(h, s, Intercept(h));
    DeviationsCancel(h);
    forall x: nat | x < n ensures r(x) == Dy(h)(x) + -s * Dx(h)(x) {
      FittedResidual(h, x);
    }
    Combine2(r, n, Dy(h), Dx(h), -s);
  }

  lemma Weighted(d: real, y: real, s: real, r: real, dr: real, dy: real, dd: real)
    requires r == y - s * d
    requires dr == d * r && dy == d * y && dd == d * d
    ensures dr == dy + -s * dd
  {
  }

  lemma WeightedSeries(d: nat -> real, y: nat -> real, r: nat -> real, s: real, n: nat)
    requires forall x: nat :: x < n ==> r(x) == y(x) - s * d(x)
    ensures Series(Times(d, r), n) == Series(Times(d, y), n) + -s * Series(Times(d, d), n)
  {
    hide Series;
    forall x: nat | x < n ensures Times(d, r)(x) == Times(d, y)(x) + -s * Times(d, d)(x) {
      Weighted(d(x), y(x), s, r(x), Times(d, r)(x), Times(d, y)(x), Times(d, d)(x));
    }
    Combine2(Times(d, r), n, Times(d, y), Times(d, d), -s);
  }

  lemma SlopeTimesSpread(h: seq<real>)
    requires |h| >= 2
    ensures Series(Times(Dx(h), Dy(h)), |h|) == Slope(h) * Spread(h)
  {
    SpreadPositive(h);
  }

  lemma WeightedResidualsCancel(h: seq<real>)
    requires |h| >= 2
    ensures Series(Times(Dx(h), Residual(h, Slope(h), Intercept(h))), |h|) == 0.0
  {
    hide Series, Slope, Intercept, MeanX, MeanY;
    var s := Slope(h);
    var r := Residual(h, s, Intercept(h));
    forall x: nat | x < |h| ensures r(x) == Dy(h)(x) - s * Dx(h)(x) {
      FittedResidual(h, x);
    }
    hide Series, Times, Residual, Slope, Intercept, Dx, Dy;
    WeightedSeries(Dx(h), Dy(h), r, s, |h|);
    SlopeTimesSpread(h);
  }

  // ---- the fitted line is the best one ----

  lemma SquareOfSum(e: real, r: real, p: real, d: real, q: real, rr: real, dr: real, dd: real)
    requires e == r + (p * d + q)
    requires rr == r * r && dr == d * r && dd == d * d
    ensures e * e == rr + 2.0 * p * dr + 2.0 * q * r + p * p * dd + 2.0 * p * q * d + q * q * 1.0
  {
  }

  lemma ResidualShift(h: seq<real>, a: real, b: real, x: nat)
    requires |h| >= 2
    ensures Residual(h, a, b)(x)
         == Residual(h, Slope(h), Intercept(h))(x)
            + ((Slope(h) - a) * Dx(h)(x) + (MeanY(h) - b - a * MeanX(h)))
  {
    var s, t, m := Slope(h), x as real, MeanX(h);
    assert (s - a) * (t - m) == s * t - s * m - a * t + a * m;
  }

  /** The coefficients of the square of r + p * d + q. */
  datatype Coefficients = Coefficients(dr: real, r: real, dd: real, d: real, one: real)

  function Expand(p: real, q: real): Coefficients {
    Coefficients(2.0 * p, 2.0 * q, p * p, 2.0 * p * q, q * q)
  }

  ghost predicate Expanded(e: nat -> real, r: nat -> real, d: nat -> real, c: Coefficients) {
    forall x: nat :: Times(e, e)(x) == Times(r, r)(x) + c.dr * Times(d, r)(x) + c.r * r(x)
                                       + c.dd * Times(d, d)(x) + c.d * d(x) + c.one * One()(x)
  }

  lemma SquaresExpand(e: nat -> real, r: nat -> real, d: nat -> real, p: real, q: real)
    requires forall x: nat :: e(x) == r(x) + (p * d(x) + q)
    ensures Expanded(e, r, d, Expand(p, q))
  {
    forall x: nat
      ensures Times(e, e)(x) == Times(r, r)(x) + 2.0 * p * Times(d, r)(x) + 2.0 * q * r(x)
                                + p * p * Times(d, d)(x) + 2.0 * p * q * d(x) + q * q * One()(x)
    {
      SquareOfSum(e(x), r(x), p, d(x), q, Times(r, r)(x), Times(d, r)(x), Times(d, d)(x));
    }
  }

  /** The squares summed, when r, d and d * r each sum to nothing. */
  lemma SumOfSquares(e: nat -> real, r: nat -> real, d: nat -> real, n: nat, c: Coefficients)
    requires Expanded(e, r, d, c)
    requires Series(r, n) == 0.0 && Series(d, n) == 0.0 && Series(Times(d, r), n) == 0.0
    ensures Series(Times(e, e), n)
         == Series(Times(r, r), n) + c.dd * Series(Times(d, d), n) + c.one * Series(One(), n)
  {
    CombineVanishing(Times(e, e), n, Times(r, r), Times(d, r), r, Times(d, d), d, One(),
                     c.dr, c.r, c.dd, c.d, c.one);
  }

  /** By how much the squared error of any line exceeds that of the fitted line. */
  lemma ExcessError(h: seq<real>, a: real, b: real) returns (p: real, q: real, c: Coefficients)
    requires |h| >= 2
    ensures p == Slope(h) - a && q == MeanY(h) - b - a * MeanX(h) && c == Expand(p, q)
    ensures SquaredError(h, a, b)
         == SquaredError(h, Slope(h), Intercept(h)) + c.dd * Spread(h) + c.one * Series(One(), |h|)
  {
    p, q := Slope(h) - a, MeanY(h) - b - a * MeanX(h);
    c := Expand(p, q);
    var e, r, d := Residual(h, a, b), Residual(h, Slope(h), Intercept(h)), Dx(h);
    forall x: nat ensures e(x) == r(x) + (p * d(x) + q) {
      ResidualShift(h, a, b, x);
    }
    SquaresExpand(e, r, d, p, q);
    ResidualsCancel(h);
    WeightedResidualsCancel(h);
    DeviationsCancel(h);
    SumOfSquares(e, r, d, |h|, c);
  }

  /** A line minimises the squared error over all lines exactly when it is the fitted one. */
  lemma LeastSquares(h: seq<real>, a: real, b: real)
    requires |h| >= 2
    ensures SquaredError(h, Slope(h), Intercept(h)) <= SquaredError(h, a, b)
    ensures SquaredError(h, a, b) == SquaredError(h, Slope(h), Intercept(h))
       <==> a == Slope(h) && b == Intercept(h)
  {
    var p, q, c := ExcessError(h, a, b);
    SpreadPositive(h);
    PositiveProduct(p, Spread(h), c.dd, c.dd * Spread(h));
    SeriesOne(|h|);
    var n := Series(One(), |h|);
    PositiveProduct(q, n, c.one, c.one * n);
  }

  /** The slope is a exactly on the line when all points lie on a line of slope a; in particular
      it is 0 on a constant history. */
  lemma SlopeExactOnLines(h: seq<real>, a: real, b: real)
    requires |h| >= 2
    requires forall x :: 0 <= x < |h| ==> h[x] == a * x as real + b
    ensures Slope(h) == a
  {
    var e, f := Residual(h, a, b), Residual(h, Slope(h), Intercept(h));
    SeriesOfSquares(e, |h|);
    SeriesOfSquares(f, |h|);
    assert forall x: nat :: x < |h| ==> e(x) == 0.0;
    LeastSquares(h, a, b);
  }

  /** computeSlope: two passes over the history. */
  method ComputeSlope(history: seq<real>) returns (slope: real)
    requires |history| >= 2
    ensures slope == Slope(history)
  {
    var sumX, sumY := 0.0, 0.0;
    for x := 0 to |history|
      invariant sumX == Series(Index(), x) && sumY == Series(Value(history), x)
    {
      sumY := sumY + history[x];
      sumX := sumX + x as real;
    }
    var mX, mY := sumX / |history| as real, sumY / |history| as real;
    ghost var dx, dy := Dx(history), Dy(history);
    var ssX, sp := 0.0, 0.0;
    for x := 0 to |history|
      invariant ssX == Series(Times(dx, dx), x) && sp == Series(Times(dx, dy), x)
    {
      assert dx(x) == x as real - mX && dy(x) == history[x] - mY;
      ssX := ssX + (x as real - mX) * (x as real - mX);
      sp := sp + (x as real - mX) * (history[x] - mY);
    }
    SpreadPositive(history);
    slope := sp / ssX;
  }
}
