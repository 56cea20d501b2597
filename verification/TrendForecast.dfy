/** The straight-line trend fitted to a sequence of amounts, and why it is the best one. */
module TrendForecast {
  import opened Money

  /** Slope and intercept before rounding. */
  datatype Trend = Trend(slope: real, intercept: real)

  datatype Forecast = Forecast(slope: int, intercept: int, nextValue: int)

  function Mul(x: real, y: real): real { x * y }

  function IntMul(x: int, y: int): int { x * y }

  // ---- the sums, over positions 0, 1, 2, ... ----------------------------------

  function SumX(n: nat): int { if n == 0 then 0 else SumX(n - 1) + (n - 1) }

  function SumXX(n: nat): int { if n == 0 then 0 else SumXX(n - 1) + IntMul(n - 1, n - 1) }

  function SumY(v: seq<int>): int { if v == [] then 0 else SumY(v[..|v| - 1]) + v[|v| - 1] }

  function SumXY(v: seq<int>): int { if v == [] then 0 else SumXY(v[..|v| - 1]) + IntMul(|v| - 1, v[|v| - 1]) }

  function Denominator(n: nat): int { n * SumXX(n) - SumX(n) * SumX(n) }

  function Fit(v: seq<int>): Trend {
    var n := |v|;
    if n < 2 then Trend(0.0, if n == 0 then 0.0 else v[0] as real)
    else
      var denom := Denominator(n);
      var slope := if denom == 0 then 0.0 else (n * SumXY(v) - SumX(n) * SumY(v)) as real / denom as real;
      Trend(slope, (SumY(v) as real - slope * SumX(n) as real) / n as real)
  }

  function LinearTrendForecast(v: seq<int>): Forecast {
    if |v| < 2 then var first := if v == [] then 0 else v[0]; Forecast(0, first, first)
    else
      var t := Fit(v);
      Forecast(RoundCents(t.slope), RoundCents(t.intercept), RoundCents(Mul(t.slope, |v| as real) + t.intercept))
  }

  // ---- the denominator is never zero ------------------------------------------

  lemma {:induction false} SumXClosed(n: nat)
    ensures 2 * SumX(n) == n * (n - 1)
  {
    if n > 0 {
      SumXClosed(n - 1);
    }
  }

  lemma {:induction false} SumXXClosed(n: nat)
    ensures 6 * SumXX(n) == n * (n - 1) * (2 * n - 1)
  {
    if n > 0 {
      SumXXClosed(n - 1);
      var m := n - 1;
      assert m * (m - 1) * (2 * m - 1) + 6 * (m * m) == (m + 1) * m * (2 * m + 1);
    }
  }

  /** With two points or more the guard against a zero denominator never fires. */
  lemma DenominatorPositive(n: nat)
    requires n >= 2
    ensures 12 * Denominator(n) == n * n * (n - 1) * (n + 1)
    ensures Denominator(n) > 0
  {
    SumXClosed(n);
    SumXXClosed(n);
    var s, q := SumX(n), SumXX(n);
    hide SumX, SumXX;
    assert 12 * (n * q) == 2 * n * (6 * q);
    assert 12 * (s * s) == 3 * ((2 * s) * (2 * s));
    DenominatorAlgebra(n);
    Positive4(n);
  }

  lemma DenominatorAlgebra(n: int)
    ensures 2 * n * (n * (n - 1) * (2 * n - 1)) - 3 * ((n * (n - 1)) * (n * (n - 1))) == n * n * (n - 1) * (n + 1)
  {
    var p := n * (n - 1);
    assert n * (n - 1) * (2 * n - 1) == p * (2 * n - 1);
    assert 2 * n * (p * (2 * n - 1)) - 3 * (p * p) == p * (2 * n * (2 * n - 1) - 3 * p);
    assert 2 * n * (2 * n - 1) - 3 * p == n * (n + 1);
    assert p * (n * (n + 1)) == n * n * (n - 1) * (n + 1);
  }

  lemma Positive4(n: int)
    requires n >= 2
    ensures n * n * (n - 1) * (n + 1) > 0
  {
    var p := n * n;
    assert p > 0;
    assert p * (n - 1) > 0;
    assert p * (n - 1) * (n + 1) > 0;
  }

  // ---- residuals ----------------------------------------------------------

  function Residual(y: int, x: int, t: Trend): real { y as real - t.intercept - Mul(t.slope, x as real) }

  function SumResiduals(v: seq<int>, t: Trend): real {
    if v == [] then 0.0 else SumResiduals(v[..|v| - 1], t) + Residual(v[|v| - 1], |v| - 1, t)
  }

  function SumWeighted(v: seq<int>, t: Trend): real {
    if v == [] then 0.0 else SumWeighted(v[..|v| - 1], t) + Mul((|v| - 1) as real, Residual(v[|v| - 1], |v| - 1, t))
  }

  function SquaredError(v: seq<int>, t: Trend): real {
    if v == [] then 0.0
    else var r := Residual(v[|v| - 1], |v| - 1, t); SquaredError(v[..|v| - 1], t) + Mul(r, r)
  }

  lemma {:induction false} ResidualSum(v: seq<int>, t: Trend)
    ensures SumResiduals(v, t) == SumY(v) as real - Mul(|v| as real, t.intercept) - Mul(t.slope, SumX(|v|) as real)
  {
    if v != [] {
      var m := |v| - 1;
      ResidualSum(v[..m], t);
      hide Residual, Mul;
      ResidualStep(v[m], m, t, SumY(v[..m]), SumX(m));
    }
  }

  lemma ResidualStep(y: int, m: nat, t: Trend, sy: int, sx: int)
    ensures (sy as real - Mul(m as real, t.intercept) - Mul(t.slope, sx as real)) + Residual(y, m, t)
         == (sy + y) as real - Mul((m + 1) as real, t.intercept) - Mul(t.slope, (sx + m) as real)
  {
    Spread(t.slope, sx, m);
    assert (m + 1) as real * t.intercept == m as real * t.intercept + t.intercept;
  }

  lemma {:induction false} WeightedSum(v: seq<int>, t: Trend)
    ensures SumWeighted(v, t)
            == SumXY(v) as real - Mul(t.intercept, SumX(|v|) as real) - Mul(t.slope, SumXX(|v|) as real)
  {
    if v != [] {
      var m := |v| - 1;
      WeightedSum(v[..m], t);
      hide Residual, Mul, IntMul;
      WeightedStep(v[m], m, t, SumXY(v[..m]), SumX(m), SumXX(m));
    } else {
      assert Mul(t.intercept, 0.0) == 0.0 && Mul(t.slope, 0.0) == 0.0;
    }
  }

  lemma WeightedStep(y: int, m: nat, t: Trend, sxy: int, sx: int, sxx: int)
    ensures (sxy as real - Mul(t.intercept, sx as real) - Mul(t.slope, sxx as real)) + Mul(m as real, Residual(y, m, t))
         == (sxy + IntMul(m, y)) as real - Mul(t.intercept, (sx + m) as real)
           - Mul(t.slope, (sxx + IntMul(m, m)) as real)
  {
    WeightedResidual(y, m, t);
    hide Residual, Mul;
    Spread(t.intercept, sx, m);
    Spread(t.slope, sxx, m * m);
  }

  lemma WeightedResidual(y: int, x: int, t: Trend)
    ensures Mul(x as real, Residual(y, x, t))
            == (x * y) as real - Mul(t.intercept, x as real) - Mul(t.slope, (x * x) as real)
  {
    var a, b := x as real, y as real;
    assert (x * y) as real == a * b && (x * x) as real == a * a;
    assert a * (b - t.intercept - t.slope * a) == a * b - t.intercept * a - t.slope * (a * a);
  }

  lemma Spread(s: real, x: int, y: int)
    ensures Mul(s, (x + y) as real) == Mul(s, x as real) + Mul(s, y as real)
  {
  }

  /** The normal equations: the fitted line leaves residuals that cancel, plain and weighted by position. */
  lemma NormalEquations(v: seq<int>)
    requires |v| >= 2
    ensures SumResiduals(v, Fit(v)) == 0.0 && SumWeighted(v, Fit(v)) == 0.0
  {
    hide SumX, SumXX, SumY, SumXY, SumResiduals, SumWeighted;
    var n, t := |v|, Fit(v);
    FitSolves(v);
    hide Fit;
    ResidualSum(v, t);
    WeightedSum(v, t);
    hide Mul;
  }

  lemma FitSolves(v: seq<int>)
    requires |v| >= 2
    ensures var n, t := |v|, Fit(v);
            && SumY(v) as real - Mul(n as real, t.intercept) - Mul(t.slope, SumX(n) as real) == 0.0
            && SumXY(v) as real - Mul(t.intercept, SumX(n) as real) - Mul(t.slope, SumXX(n) as real) == 0.0
  {
    hide SumX, SumXX, SumY, SumXY;
    var n := |v|;
    assert Denominator(n) > 0 by {
      DenominatorPositive(n);
    }
    SolveNormal(n, SumX(n), SumXX(n), SumY(v), SumXY(v));
  }

  lemma SolveNormal(n: int, x: int, xx: int, y: int, xy: int)
    requires n > 0 && n * xx - x * x > 0
    ensures var slope := (n * xy - x * y) as real / (n * xx - x * x) as real;
            var intercept := (y as real - slope * x as real) / n as real;
            && y as real - n as real * intercept - slope * x as real == 0.0
            && xy as real - intercept * x as real - slope * xx as real == 0.0
  {
    var rn, rx, rxx, ry, rxy := n as real, x as real, xx as real, y as real, xy as real;
    var denom := (n * xx - x * x) as real;
    var slope := (n * xy - x * y) as real / denom;
    var intercept := (ry - slope * rx) / rn;
    assert rn * intercept == ry - slope * rx;
    assert (n * xx) as real == rn * rxx && (x * x) as real == rx * rx && (n * xy) as real == rn * rxy
           && (x * y) as real == rx * ry;
    assert slope * denom == rn * rxy - rx * ry;
    assert denom == rn * rxx - rx * rx;
    WeightedZero(rn, rx, rxx, ry, rxy, slope, intercept);
  }

  lemma WeightedZero(rn: real, rx: real, rxx: real, ry: real, rxy: real, slope: real, intercept: real)
    requires rn > 0.0 && rn * intercept == ry - slope * rx && slope * (rn * rxx - rx * rx) == rn * rxy - rx * ry
    ensures rxy - intercept * rx - slope * rxx == 0.0
  {
    var w := rxy - intercept * rx - slope * rxx;
    assert rn * w == rn * rxy - (rn * intercept) * rx - slope * (rn * rxx) by {
      assert rn * (intercept * rx) == (rn * intercept) * rx;
      assert rn * (slope * rxx) == slope * (rn * rxx);
    }
    assert (ry - slope * rx) * rx == rx * ry - slope * (rx * rx);
    assert slope * (rn * rxx - rx * rx) == slope * (rn * rxx) - slope * (rx * rx);
    assert rn * w == 0.0;
  }

  // ---- least squares --------------------------------------------------------

  /** How far two lines are apart over the first n positions, squared. */
  function LineGap(n: nat, d: Trend): real {
    if n == 0 then 0.0
    else var g := GapAt(n - 1, d); LineGap(n - 1, d) + Mul(g, g)
  }

  function GapAt(x: int, d: Trend): real { d.intercept + Mul(d.slope, x as real) }

  lemma {:induction false} LineGapSign(n: nat, d: Trend)
    ensures LineGap(n, d) >= 0.0
    ensures LineGap(n, d) == 0.0 && n >= 2 ==> GapAt(0, d) == 0.0 && GapAt(1, d) == 0.0
  {
    hide Mul, GapAt;
    if n > 0 {
      LineGapSign(n - 1, d);
      SquareSign(GapAt(n - 1, d));
      if n == 2 {
        SquareSign(GapAt(0, d));
        assert LineGap(1, d) == LineGap(0, d) + Mul(GapAt(0, d), GapAt(0, d));
      }
    }
  }

  /** Two lines that meet at two positions are one. */
  lemma NoGapNoDifference(d: Trend)
    requires GapAt(0, d) == 0.0 && GapAt(1, d) == 0.0
    ensures d == Trend(0.0, 0.0)
  {
  }

  lemma SquareSign(g: real)
    ensures Mul(g, g) >= 0.0 && (Mul(g, g) == 0.0 <==> g == 0.0)
  {
    if g > 0.0 {
      PositiveProduct(g, g);
    } else if g < 0.0 {
      PositiveProduct(-g, -g);
      assert Mul(g, g) == Mul(-g, -g);
    }
  }

  lemma PositiveProduct(x: real, y: real)
    requires x > 0.0 && y > 0.0
    ensures Mul(x, y) > 0.0
  {
  }

  lemma {:induction false} ErrorOfOtherLine(v: seq<int>, t: Trend, d: Trend)
    ensures SquaredError(v, Trend(t.slope + d.slope, t.intercept + d.intercept))
         == SquaredError(v, t) - 2.0 * (Mul(d.intercept, SumResiduals(v, t)) + Mul(d.slope, SumWeighted(v, t)))
           + LineGap(|v|, d)
  {
    if v != [] {
      var m, y := |v| - 1, v[|v| - 1];
      ErrorOfOtherLine(v[..m], t, d);
      OtherResidual(y, m, t, d);
      hide Residual, Mul, GapAt;
      OneTerm(Residual(y, m, t), d, m, SumResiduals(v[..m], t), SumWeighted(v[..m], t));
    } else {
      assert Mul(d.intercept, 0.0) == 0.0 && Mul(d.slope, 0.0) == 0.0;
    }
  }

  lemma OtherResidual(y: int, m: nat, t: Trend, d: Trend)
    ensures Residual(y, m, Trend(t.slope + d.slope, t.intercept + d.intercept)) == Residual(y, m, t) - GapAt(m, d)
  {
    assert (t.slope + d.slope) * m as real == t.slope * m as real + d.slope * m as real;
  }

  lemma OneTerm(r: real, d: Trend, m: nat, s: real, w: real)
    ensures Mul(r - GapAt(m, d), r - GapAt(m, d))
            + 2.0 * (Mul(d.intercept, s + r) + Mul(d.slope, w + Mul(m as real, r)))
         == Mul(r, r) + 2.0 * (Mul(d.intercept, s) + Mul(d.slope, w)) + Mul(GapAt(m, d), GapAt(m, d))
  {
    var a, b, x, g := d.intercept, d.slope, m as real, GapAt(m, d);
    assert (r - g) * (r - g) == r * r - 2.0 * (g * r) + g * g;
    assert g * r == a * r + (b * x) * r;
    assert (b * x) * r == b * (x * r);
    assert a * (s + r) == a * s + a * r;
    assert b * (w + x * r) == b * w + b * (x * r);
  }

  /** No straight line has a smaller squared error than the fitted one, and no other has the same. */
  lemma FitIsLeastSquares(v: seq<int>, other: Trend)
    requires |v| >= 2
    ensures SquaredError(v, Fit(v)) <= SquaredError(v, other)
    ensures SquaredError(v, Fit(v)) == SquaredError(v, other) ==> other == Fit(v)
  {
    hide Mul, Fit, SquaredError, LineGap, SumResiduals, SumWeighted, GapAt;
    var t := Fit(v);
    var d := Trend(other.slope - t.slope, other.intercept - t.intercept);
    assert Trend(t.slope + d.slope, t.intercept + d.intercept) == other;
    NormalEquations(v);
    ErrorOfOtherLine(v, t, d);
    MulZero(d.intercept);
    MulZero(d.slope);
    LineGapSign(|v|, d);
    if LineGap(|v|, d) == 0.0 {
      NoGapNoDifference(d);
    }
  }

  lemma MulZero(x: real)
    ensures Mul(x, 0.0) == 0.0
  {
  }

  // ---- the forecast -------------------------------------------------------

  /** Amounts that lie on a line. */
  predicate OnLine(v: seq<int>, first: int, step: int) {
    forall i :: 0 <= i < |v| ==> v[i] == first + step * i
  }

  lemma ResidualOnLine(y: int, x: int, first: int, step: int)
    requires y == first + step * x
    ensures Residual(y, x, Trend(step as real, first as real)) == 0.0
  {
    assert (step * x) as real == step as real * x as real;
  }

  lemma {:induction false} NoErrorOnLine(v: seq<int>, first: int, step: int)
    requires OnLine(v, first, step)
    ensures SquaredError(v, Trend(step as real, first as real)) == 0.0
  {
    if v != [] {
      var m := |v| - 1;
      NoErrorOnLine(v[..m], first, step);
      ResidualOnLine(v[m], m, first, step);
      hide Residual;
    }
  }

  lemma {:induction false} ErrorSign(v: seq<int>, t: Trend)
    ensures SquaredError(v, t) >= 0.0
  {
    hide Residual, Mul;
    if v != [] {
      ErrorSign(v[..|v| - 1], t);
      SquareSign(Residual(v[|v| - 1], |v| - 1, t));
    }
  }

  lemma FitOfLine(v: seq<int>, first: int, step: int)
    requires |v| >= 2 && OnLine(v, first, step)
    ensures Fit(v) == Trend(step as real, first as real)
  {
    hide Fit, SquaredError, OnLine;
    ErrorSign(v, Fit(v));
    NoErrorOnLine(v, first, step);
    FitIsLeastSquares(v, Trend(step as real, first as real));
  }

  lemma WholeProduct(x: int, n: int)
    ensures Mul(x as real, n as real) == (x * n) as real
  {
  }

  /** Amounts on a line are continued exactly: its step, its start, and the next amount on it. */
  lemma ForecastContinuesLine(v: seq<int>, first: int, step: int)
    requires |v| >= 2 && OnLine(v, first, step)
    ensures LinearTrendForecast(v) == Forecast(step, first, first + step * |v|)
  {
    hide Fit, OnLine, RoundCents, Mul;
    FitOfLine(v, first, step);
    RoundExact(step);
    RoundExact(first);
    var p := step * |v|;
    WholeProduct(step, |v|);
    RoundExact(first + p);
    var t := Fit(v);
    assert Mul(t.slope, |v| as real) + t.intercept == (first + p) as real;
  }

  /** In any case the forecast is within half a cent of the fitted line. */
  lemma ForecastIsOnTheFit(v: seq<int>)
    requires |v| >= 2
    ensures var t, f := Fit(v), LinearTrendForecast(v);
            -0.5 < f.nextValue as real - (Mul(t.slope, |v| as real) + t.intercept) <= 0.5
  {
    hide Fit;
    RoundError(Mul(Fit(v).slope, |v| as real) + Fit(v).intercept);
  }
}
