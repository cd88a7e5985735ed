/**
 ADC calibration: a line fitted through pairs of raw reading and measured voltage, accumulated in
 one pass and stored as the spread and zero that the read-out formula uses. Arithmetic is over
 the reals.
 */
module Calibration {
  import opened Wrappers

  datatype Point = Point(raw: int, ina: real)

  type Points = seq<Point>

  datatype Sums = Sums(n: nat, ina: real, adc: real, adcSquared: real, adcxIna: real)

  function X(p: Point): real { p.raw as real }

  /** The points a calibration uses: the current sensor cannot measure negative voltages. */
  function Kept(s: Points): (r: Points)
    ensures |r| <= |s|
  {
    if s == [] then [] else Kept(Front(s)) + if Last(s).ina > 0.1 then [Last(s)] else []
  }

  /** A product, kept whole. */
  function Times(a: real, b: real): real { a * b }

  /** They are the points above 0.1 V, as often as they were measured. */
  lemma {:induction false} KeptAre(s: Points, p: Point)
    ensures multiset(Kept(s))[p] == if p.ina > 0.1 then multiset(s)[p] else 0
  {
    if s != [] {
      KeptAre(Front(s), p);
      assert s == Front(s) + [Last(s)];
    }
  }

  /** What one pass accumulates. */
  function Total(s: Points): (r: Sums)
    ensures r.n == |s|
  {
    if s == [] then Sums(0, 0.0, 0.0, 0.0, 0.0)
    else
      var r, p := Total(Front(s)), Last(s);
      Sums(r.n + 1, r.ina + p.ina, r.adc + X(p), r.adcSquared + Times(X(p), X(p)), r.adcxIna + Times(X(p), p.ina))
  }

  function Denominator(t: Sums): real {
    Times(t.n as real, t.adcSquared) - Times(t.adc, t.adc)
  }

  // ---- sums ----

  function Sum(s: Points, f: Point -> real): real {
    if s == [] then 0.0 else Sum(Front(s), f) + f(Last(s))
  }

  lemma {:induction false} SumIsLinear(s: Points, f: Point -> real, g: Point -> real,
                                       c: real, h: Point -> real, d: real, k: Point -> real)
    requires forall p :: f(p) == g(p) + Times(c, h(p)) + Times(d, k(p))
    ensures Sum(s, f) == Sum(s, g) + Times(c, Sum(s, h)) + Times(d, Sum(s, k))
  {
    if s != [] {
      SumIsLinear(Front(s), f, g, c, h, d, k);
      Distribute(c, Sum(Front(s), h), h(Last(s)), Sum(s, h));
      Distribute(d, Sum(Front(s), k), k(Last(s)), Sum(s, k));
    }
  }

  lemma Distribute(c: real, a: real, b: real, sum: real)
    requires sum == a + b
    ensures Times(c, sum) == Times(c, a) + Times(c, b) && Times(sum, c) == Times(a, c) + Times(b, c)
  {
  }

  lemma {:induction false} SumIsNonnegative(s: Points, f: Point -> real)
    requires forall p :: f(p) >= 0.0
    ensures Sum(s, f) >= 0.0
    ensures Sum(s, f) == 0.0 <==> forall i :: 0 <= i < |s| ==> f(s[i]) == 0.0
  {
    if s != [] {
      SumIsNonnegative(Front(s), f);
      if Sum(s, f) == 0.0 {
        forall i | 0 <= i < |s| ensures f(s[i]) == 0.0 { if i < |s| - 1 { assert f(Front(s)[i]) == 0.0; } }
      }
      assert forall i :: 0 <= i < |s| - 1 ==> Front(s)[i] == s[i];
    }
  }

  // What is summed.
  function One(): Point -> real { (p: Point) => 1.0 }
  function Raw(): Point -> real { (p: Point) => X(p) }
  function Ina(): Point -> real { (p: Point) => p.ina }
  function RawSquared(): Point -> real { (p: Point) => Times(X(p), X(p)) }
  function RawIna(): Point -> real { (p: Point) => Times(X(p), p.ina) }

  lemma {:induction false} TotalIsSums(s: Points)
    ensures Total(s) == Sums(|s|, Sum(s, Ina()), Sum(s, Raw()), Sum(s, RawSquared()), Sum(s, RawIna()))
    ensures Sum(s, One()) == |s| as real
  {
    if s != [] { TotalIsSums(Front(s)); }
  }

  // ---- products of reals ----

  function Positive(a: real, b: real): (r: real)
    requires a > 0.0 && b > 0.0
    ensures r > 0.0 && r == a * b
  {
    a * b
  }

  function Square(x: real): (r: real)
    ensures r >= 0.0 && (r == 0.0 <==> x == 0.0)
  {
    if x == 0.0 then 0.0 else if x > 0.0 then Positive(x, x) else Positive(-x, -x)
  }

  lemma SquareExpands(a: real, b: real)
    ensures Square(a - b) == a * a - 2.0 * (a * b) + b * b
  {
    if a == b {
    } else if a - b > 0.0 {
      assert (a - b) * (a - b) == (a - b) * a - (a - b) * b;
    } else {
      assert (b - a) * (b - a) == (b - a) * b - (b - a) * a;
    }
  }

  lemma NonzeroProduct(n: real, m: real)
    requires n != 0.0 && m != 0.0
    ensures n * m != 0.0
  {
    var p := Positive(if n > 0.0 then n else -n, if m > 0.0 then m else -m);
  }

  lemma ZeroFactor(n: real, m: real)
    requires n != 0.0 && n * m == 0.0
    ensures m == 0.0
  {
    if m != 0.0 { NonzeroProduct(n, m); }
  }

  // ---- when the line is defined ----

  predicate TwoReadings(s: Points) { exists i, j :: 0 <= i < j < |s| && s[i].raw != s[j].raw }

  function FromReading(x: real): Point -> real { (p: Point) => Square(X(p) - x) }

  lemma FromReadingAt(p: Point, x: real)
    ensures FromReading(x)(p) == RawSquared()(p) + Times(-2.0 * x, Raw()(p)) + Times(Times(x, x), One()(p))
  {
    SquareExpands(X(p), x);
    assert (-2.0 * x) * X(p) == -2.0 * (X(p) * x);
  }

  lemma FromReadingSum(s: Points, x: real)
    ensures Sum(s, FromReading(x)) == Sum(s, RawSquared()) + Times(-2.0 * x, Sum(s, Raw())) + Times(Times(x, x), Sum(s, One()))
  {
    forall p ensures FromReading(x)(p) == RawSquared()(p) + Times(-2.0 * x, Raw()(p)) + Times(Times(x, x), One()(p)) {
      FromReadingAt(p, x);
    }
    SumIsLinear(s, FromReading(x), RawSquared(), -2.0 * x, Raw(), Times(x, x), One());
  }

  lemma DenominatorGrows(t: Sums, after: Sums, x: real, from: real)
    requires after.n == t.n + 1 && after.adc == t.adc + x && after.adcSquared == t.adcSquared + Times(x, x)
    requires from == t.adcSquared + Times(-2.0 * x, t.adc) + Times(Times(x, x), t.n as real)
    ensures Denominator(after) == Denominator(t) + from
  {
    var n, q, a := t.n as real, t.adcSquared, t.adc;
    assert (n + 1.0) * (q + x * x) == n * q + n * (x * x) + q + x * x;
    assert (a + x) * (a + x) == a * a + 2.0 * (x * a) + x * x;
  }

  lemma FromReadingTotal(s: Points, x: real)
    ensures Sum(s, FromReading(x)) == Total(s).adcSquared + Times(-2.0 * x, Total(s).adc) + Times(Times(x, x), Total(s).n as real)
  {
    TotalIsSums(s);
    FromReadingSum(s, x);
  }

  /** One more point adds its squared distances from the others. */
  lemma DenominatorStep(s: Points)
    requires s != []
    ensures Denominator(Total(s)) == Denominator(Total(Front(s))) + Sum(Front(s), FromReading(X(Last(s))))
  {
    var x, from := X(Last(s)), Sum(Front(s), FromReading(X(Last(s))));
    FromReadingTotal(Front(s), x);
    TotalGrows(s, x);
    DenominatorGrows(Total(Front(s)), Total(s), x, from);
  }

  lemma TotalGrows(s: Points, x: real)
    requires s != [] && x == X(Last(s))
    ensures var t, after := Total(Front(s)), Total(s);
            after.n == t.n + 1 && after.adc == t.adc + x && after.adcSquared == t.adcSquared + Times(x, x)
  {
  }

  lemma {:induction false} SomeFrom(s: Points, x: real)
    ensures Sum(s, FromReading(x)) > 0.0 <==> exists i :: 0 <= i < |s| && X(s[i]) != x
    ensures Sum(s, FromReading(x)) >= 0.0
  {
    SumIsNonnegative(s, FromReading(x));
    if exists i :: 0 <= i < |s| && X(s[i]) != x {
      var i :| 0 <= i < |s| && X(s[i]) != x;
      assert FromReading(x)(s[i]) != 0.0;
    }
  }

  lemma TwoReadingsGrow(s: Points)
    requires s != []
    ensures TwoReadings(s) <==>
              TwoReadings(Front(s)) || exists i :: 0 <= i < |Front(s)| && X(Front(s)[i]) != X(Last(s))
  {
    var init := Front(s);
    if TwoReadings(s) {
      var i, j :| 0 <= i < j < |s| && s[i].raw != s[j].raw;
      if j < |init| { assert init[i].raw != init[j].raw; } else { assert X(init[i]) != X(Last(s)); }
    }
    if TwoReadings(init) {
      var i, j :| 0 <= i < j < |init| && init[i].raw != init[j].raw;
      assert s[i].raw != s[j].raw;
    }
    if exists i :: 0 <= i < |init| && X(init[i]) != X(Last(s)) {
      var i :| 0 <= i < |init| && X(init[i]) != X(Last(s));
      assert s[i].raw != s[|s| - 1].raw;
    }
  }

  /** The denominator is positive exactly when two of the raw readings differ, and zero otherwise. */
  lemma {:induction false} DefinedIff(s: Points)
    ensures Denominator(Total(s)) >= 0.0
    ensures Denominator(Total(s)) > 0.0 <==> TwoReadings(s)
  {
    if s != [] {
      DefinedIff(Front(s));
      DenominatorStep(s);
      SomeFrom(Front(s), X(Last(s)));
      TwoReadingsGrow(s);
    }
  }

  // ---- why it is the best line ----

  function Residual(p: Point, a: real, b: real): real { p.ina - Times(a, X(p)) - b }

  function Residuals(a: real, b: real): Point -> real { (p: Point) => Residual(p, a, b) }
  function SquaredResiduals(a: real, b: real): Point -> real { (p: Point) => Square(Residual(p, a, b)) }
  function RawResiduals(a: real, b: real): Point -> real { (p: Point) => Times(X(p), Residual(p, a, b)) }
  function Shifts(u: real, v: real): Point -> real { (p: Point) => Square(Times(u, X(p)) + v) }

  /** How far the points are off a line. */
  function SquaredError(s: Points, a: real, b: real): real { Sum(s, SquaredResiduals(a, b)) }

  lemma OtherLineAt(p: Point, a: real, b: real, u: real, v: real)
    ensures SquaredResiduals(a + u, b + v)(p) ==
              SquaredResiduals(a, b)(p) + Shifts(u, v)(p)
              + Times(-2.0 * u, RawResiduals(a, b)(p)) + Times(-2.0 * v, Residuals(a, b)(p))
  {
    var r, d := Residual(p, a, b), Times(u, X(p)) + v;
    Distribute(X(p), a, u, a + u);
    SquareOfDifference(r, d);
    Product(r, u, X(p), v);
  }

  lemma SquareOfDifference(r: real, d: real)
    ensures Square(r - d) == Square(r) + Square(d) - 2.0 * Times(r, d)
  {
    SquareExpands(r, d);
    SquareExpands(r, 0.0);
    SquareExpands(d, 0.0);
  }

  lemma Product(r: real, u: real, x: real, v: real)
    ensures 2.0 * Times(r, Times(u, x) + v) == -Times(-2.0 * u, Times(x, r)) - Times(-2.0 * v, r)
  {
    assert r * (u * x + v) == r * (u * x) + r * v;
    assert r * (u * x) == u * (x * r);
  }

  function Both(f: Point -> real, g: Point -> real): Point -> real { (p: Point) => f(p) + g(p) }

  lemma {:induction false} SumOfBoth(s: Points, f: Point -> real, g: Point -> real)
    ensures Sum(s, Both(f, g)) == Sum(s, f) + Sum(s, g)
  {
    if s != [] { SumOfBoth(Front(s), f, g); }
  }

  /** The error of any other line, from that of a line and how the two differ. */
  lemma OtherLine(s: Points, a: real, b: real, u: real, v: real)
    ensures SquaredError(s, a + u, b + v) ==
              SquaredError(s, a, b) + Sum(s, Shifts(u, v))
              + Times(-2.0 * u, Sum(s, RawResiduals(a, b))) + Times(-2.0 * v, Sum(s, Residuals(a, b)))
  {
    var f, g := SquaredResiduals(a + u, b + v), Both(SquaredResiduals(a, b), Shifts(u, v));
    forall p ensures f(p) == g(p) + Times(-2.0 * u, RawResiduals(a, b)(p)) + Times(-2.0 * v, Residuals(a, b)(p)) {
      OtherLineAt(p, a, b, u, v);
    }
    SumIsLinear(s, f, g, -2.0 * u, RawResiduals(a, b), -2.0 * v, Residuals(a, b));
    SumOfBoth(s, SquaredResiduals(a, b), Shifts(u, v));
  }

  lemma ResidualsAt(p: Point, a: real, b: real)
    ensures Residuals(a, b)(p) == Ina()(p) + Times(-a, Raw()(p)) + Times(-b, One()(p))
    ensures RawResiduals(a, b)(p) == RawIna()(p) + Times(-a, RawSquared()(p)) + Times(-b, Raw()(p))
  {
    var x := X(p);
    assert x * (p.ina - a * x - b) == x * p.ina - x * (a * x) - x * b;
    assert x * (a * x) == a * (x * x);
  }

  lemma ResidualsFromTotal(s: Points, a: real, b: real)
    ensures Sum(s, Residuals(a, b)) == Total(s).ina + Times(-a, Total(s).adc) + Times(-b, |s| as real)
    ensures Sum(s, RawResiduals(a, b)) == Total(s).adcxIna + Times(-a, Total(s).adcSquared) + Times(-b, Total(s).adc)
  {
    forall p
      ensures Residuals(a, b)(p) == Ina()(p) + Times(-a, Raw()(p)) + Times(-b, One()(p))
      ensures RawResiduals(a, b)(p) == RawIna()(p) + Times(-a, RawSquared()(p)) + Times(-b, Raw()(p))
    {
      ResidualsAt(p, a, b);
    }
    SumIsLinear(s, Residuals(a, b), Ina(), -a, Raw(), -b, One());
    SumIsLinear(s, RawResiduals(a, b), RawIna(), -a, RawSquared(), -b, Raw());
    TotalIsSums(s);
  }

  // ---- the fitted line ----

  function Slope(t: Sums): real
    requires Denominator(t) != 0.0
  {
    (Times(t.n as real, t.adcxIna) - Times(t.adc, t.ina)) / Denominator(t)
  }

  function Intercept(t: Sums): real
    requires Denominator(t) != 0.0 && t.n > 0
  {
    (t.ina - Times(Slope(t), t.adc)) / t.n as real
  }

  /** Cramer's rule: slope and intercept solve the normal equations. */
  lemma Cramer(t: Sums, a: real, b: real)
    requires t.n > 0 && Denominator(t) != 0.0 && a == Slope(t) && b == Intercept(t)
    ensures t.ina + Times(-a, t.adc) + Times(-b, t.n as real) == 0.0
    ensures t.adcxIna + Times(-a, t.adcSquared) + Times(-b, t.adc) == 0.0
  {
    var n, sx, sy, xx, xy := t.n as real, t.adc, t.ina, t.adcSquared, t.adcxIna;
    Quotient(sy - Times(a, sx), n, b);
    Quotient(Times(n, xy) - Times(sx, sy), Denominator(t), a);
    NormalEquations(n, sx, sy, xx, xy, a, b);
  }

  lemma Quotient(c: real, d: real, q: real)
    requires d != 0.0 && q == c / d
    ensures Times(q, d) == c
  {
  }

  lemma NormalEquations(n: real, sx: real, sy: real, xx: real, xy: real, a: real, b: real)
    requires n != 0.0 && Times(b, n) == sy - Times(a, sx)
    requires Times(a, Times(n, xx) - Times(sx, sx)) == Times(n, xy) - Times(sx, sy)
    ensures sy + Times(-a, sx) + Times(-b, n) == 0.0
    ensures xy + Times(-a, xx) + Times(-b, sx) == 0.0
  {
    var miss := xy - a * xx - b * sx;
    calc {
      n * miss;
      n * xy - n * (a * xx) - n * (b * sx);
      { assert n * (a * xx) == a * (n * xx); assert n * (b * sx) == (b * n) * sx; }
      n * xy - a * (n * xx) - (sy - a * sx) * sx;
      { assert (sy - a * sx) * sx == sx * sy - a * (sx * sx); }
      n * xy - sx * sy - (a * (n * xx) - a * (sx * sx));
      { assert a * (n * xx) - a * (sx * sx) == a * (n * xx - sx * sx); }
      0.0;
    }
    ZeroFactor(n, miss);
  }

  /** Two lines that agree on two different readings are the same. */
  lemma Apart(u: real, x: real, y: real)
    ensures (x - y) * u == Times(u, x) - Times(u, y)
  {
  }

  lemma ShiftIsSeen(s: Points, u: real, v: real)
    requires TwoReadings(s)
    ensures Sum(s, Shifts(u, v)) >= 0.0
    ensures Sum(s, Shifts(u, v)) == 0.0 <==> u == 0.0 && v == 0.0
  {
    SumIsNonnegative(s, Shifts(u, v));
    var i, j :| 0 <= i < j < |s| && s[i].raw != s[j].raw;
    if Sum(s, Shifts(u, v)) == 0.0 {
      assert Shifts(u, v)(s[i]) == 0.0 && Shifts(u, v)(s[j]) == 0.0;
      var d := X(s[i]) - X(s[j]);
      Apart(u, X(s[i]), X(s[j]));
      ZeroFactor(d, u);
      assert Times(u, X(s[i])) == 0.0;
    }
    if u == 0.0 && v == 0.0 {
      assert forall p :: Shifts(u, v)(p) == 0.0;
    }
  }

  /** The line from the one-pass sums is defined, has the smallest squared error, and no other line
      has as small a one. */
  lemma BestLine(s: Points, a: real, b: real)
    requires TwoReadings(s)
    ensures Denominator(Total(s)) > 0.0
    ensures SquaredError(s, a, b) >= SquaredError(s, Slope(Total(s)), Intercept(Total(s)))
    ensures SquaredError(s, a, b) == SquaredError(s, Slope(Total(s)), Intercept(Total(s))) <==>
              a == Slope(Total(s)) && b == Intercept(Total(s))
  {
    DefinedIff(s);
    var a0, b0 := Slope(Total(s)), Intercept(Total(s));
    Cramer(Total(s), a0, b0);
    ResidualsFromTotal(s, a0, b0);
    OtherLine(s, a0, b0, a - a0, b - b0);
    ShiftIsSeen(s, a - a0, b - b0);
  }

  // ---- what is stored ----

  const FULL: real := 4095.0

  /** A stored coefficient; dividing by a zero denominator leaves no number. */
  datatype Stored = Number(value: real) | NoNumber

  function Magnitude(x: real): real { if x < 0.0 then -x else x }

  datatype Coefficients = Coefficients(spread: Stored, zero: Stored)

  /** The voltage that channel d's read-out formula makes of a raw reading. */
  function ReadOut(raw: int, spread: real, zero: real): real {
    Times(raw as real, spread) / FULL - zero
  }

  function Line(raw: int, t: Sums): real
    requires Denominator(t) != 0.0 && t.n > 0
  {
    Times(Slope(t), raw as real) + Intercept(t)
  }

  predicate InRange(d: nat, spread: real, zero: real) {
    if d == 4 then 3.0 <= spread <= 8.0 else 10.0 <= spread <= 30.0 && Magnitude(zero) <= 50.0
  }

  /** A spread out of range sends both coefficients to their defaults, a zero out of range only itself. */
  function Clamped(d: nat, spread: real, zero: real): Coefficients {
    if d == 4 then
      if spread < 3.0 || spread > 8.0 then Coefficients(Number(5.0), Number(0.0))
      else Coefficients(Number(spread), Number(zero))
    else if spread < 10.0 || spread > 30.0 then Coefficients(Number(18.28), Number(8.0))
    else if Magnitude(zero) > 50.0 then Coefficients(Number(spread), Number(8.0))
    else Coefficients(Number(spread), Number(zero))
  }

  function Fitted(d: nat, t: Sums): Coefficients
    requires Denominator(t) != 0.0 && t.n > 0
  {
    var spread, zero := Slope(t) * FULL, if d == 4 then 0.0 else -Intercept(t);
    if Magnitude(Slope(t)) > 0.0001 then Clamped(d, spread, zero) else Coefficients(Number(spread), Number(zero))
  }

  /** The whole effect of calibrating channel d on its coefficients. */
  function Calibrated(d: nat, points: Points, before: Coefficients): Coefficients {
    var t := Total(Kept(points));
    if t.n < 2 then before
    else if Denominator(t) == 0.0 then Coefficients(NoNumber, if d == 4 then Number(0.0) else NoNumber)
    else Fitted(d, t)
  }

  /** The measuring loop: five running sums over the points with a positive voltage. */
  method Accumulate(points: Points) returns (t: Sums)
    ensures t == Total(Kept(points))
  {
    var sumINA, sumADC, sumADCSquared, sumADCxINA, validPoints: nat := 0.0, 0.0, 0.0, 0.0, 0;
    for p := 0 to |points|
      invariant Sums(validPoints, sumINA, sumADC, sumADCSquared, sumADCxINA) == Total(Kept(points[..p]))
    {
      OneMorePoint(points, p);
      if points[p].ina > 0.1 {
        var raw := points[p].raw as real;
        sumINA := sumINA + points[p].ina;
        sumADC := sumADC + raw;
        sumADCSquared := sumADCSquared + Times(raw, raw);
        sumADCxINA := sumADCxINA + Times(raw, points[p].ina);
        validPoints := validPoints + 1;
      }
    }
    assert points[..|points|] == points;
    t := Sums(validPoints, sumINA, sumADC, sumADCSquared, sumADCxINA);
  }

  class Adc {
    const spread: array<Stored>
    const zero: array<Stored>

    /** The coefficients as the configuration file has them. */
    constructor (stored: seq<Coefficients>)
      requires |stored| == 8
      ensures Valid() && fresh(spread) && fresh(zero)
      ensures forall d :: 0 <= d < 8 ==> At(d) == stored[d]
    {
      spread := new Stored[8](d requires 0 <= d < |stored| => stored[d].spread);
      zero := new Stored[8](d requires 0 <= d < |stored| => stored[d].zero);
    }

    predicate Valid()
      reads this
    {
      spread != zero && spread.Length == zero.Length == 8
    }

    function At(d: nat): Coefficients
      reads this, spread, zero
      requires Valid() && d < 8
    {
      Coefficients(spread[d], zero[d])
    }

    /** One channel's regression and what it stores. */
    method Calibrate(d: nat, points: Points)
      requires Valid() && d < 8
      modifies spread, zero
      ensures At(d) == Calibrated(d, points, old(At(d)))
      ensures forall c :: 0 <= c < 8 && c != d ==> At(c) == old(At(c))
      // too few points change nothing, and points that are all at one reading store no number
      ensures |Kept(points)| < 2 ==> At(d) == old(At(d))
      ensures |Kept(points)| >= 2 && !TwoReadings(Kept(points)) ==>
                At(d) == Coefficients(NoNumber, if d == 4 then Number(0.0) else NoNumber)
    {
      var t := Accumulate(points);
      DefinedIff(Kept(points));
      if t.n >= 2 {
        var n := t.n as real;
        var denominator := Times(n, t.adcSquared) - Times(t.adc, t.adc);
        if denominator == 0.0 {
          spread[d] := NoNumber;
          zero[d] := if d == 4 then Number(0.0) else NoNumber;
        } else {
          var slope := (Times(n, t.adcxIna) - Times(t.adc, t.ina)) / denominator;
          var intercept := (t.ina - Times(slope, t.adc)) / n;
          Store(d, slope * FULL, if d == 4 then 0.0 else -intercept, slope);
        }
      }
    }

    method Store(d: nat, newSpread: real, newZero: real, slope: real)
      requires Valid() && d < 8
      modifies spread, zero
      ensures At(d) == if Magnitude(slope) > 0.0001 then Clamped(d, newSpread, newZero)
                       else Coefficients(Number(newSpread), Number(newZero))
      ensures forall c :: 0 <= c < 8 && c != d ==> At(c) == old(At(c))
    {
      spread[d], zero[d] := Number(newSpread), Number(newZero);
      if Magnitude(slope) > 0.0001 {
        if d == 4 {
          if newSpread < 3.0 || newSpread > 8.0 {
            spread[d], zero[d] := Number(5.0), Number(0.0);
          }
        } else {
          if newSpread < 10.0 || newSpread > 30.0 {
            spread[d], zero[d] := Number(18.28), Number(8.0);
          } else if Magnitude(newZero) > 50.0 {
            zero[d] := Number(8.0);
          }
        }
      }
    }
  }

  lemma OneMorePoint(points: Points, p: nat)
    requires p < |points|
    ensures var kept := Kept(points[..p]);
            Kept(points[..p + 1]) == (if points[p].ina > 0.1 then kept + [points[p]] else kept)
    ensures points[p].ina > 0.1 ==>
              var t := Total(Kept(points[..p]));
              Total(Kept(points[..p + 1])) ==
                Sums(t.n + 1, t.ina + points[p].ina, t.adc + X(points[p]), t.adcSquared + Times(X(points[p]), X(points[p])),
                     t.adcxIna + Times(X(points[p]), points[p].ina))
  {
    var more := points[..p + 1];
    assert Front(more) == points[..p] && Last(more) == points[p];
    var kept := Kept(points[..p]);
    assert Front(kept + [points[p]]) == kept;
  }

  lemma ReadOutIsSlope(raw: int, slope: real, zero: real)
    ensures ReadOut(raw, slope * FULL, zero) == Times(slope, raw as real) - zero
  {
    var r := raw as real;
    assert r * (slope * FULL) == (slope * r) * FULL;
    assert ((slope * r) * FULL) / FULL == slope * r;
  }

  /** On every channel but 4 the coefficients before clamping are the fitted line; on channel 4 they
      are exactly when the line goes through zero. */
  lemma StoredIsLine(d: nat, t: Sums, raw: int)
    requires Denominator(t) != 0.0 && t.n > 0
    ensures var zero := if d == 4 then 0.0 else -Intercept(t);
            ReadOut(raw, Slope(t) * FULL, zero) == Line(raw, t) <==> d != 4 || Intercept(t) == 0.0
  {
    ReadOutIsSlope(raw, Slope(t), if d == 4 then 0.0 else -Intercept(t));
  }

  /** A fit that is stored as it is: below the gate on the slope, or within the channel's range. */
  predicate StoredAsFitted(d: nat, t: Sums)
    requires Denominator(t) != 0.0 && t.n > 0
  {
    || Magnitude(Slope(t)) <= 0.0001
    || (if d == 4 then 3.0 <= Slope(t) * 4095.0 <= 8.0
        else 10.0 <= Slope(t) * 4095.0 <= 30.0 && -50.0 <= Intercept(t) <= 50.0)
  }

  /** What every channel reads out after a fit: the fitted line, on channel 4 through zero, if it is
      stored as it is; otherwise the defaults, or the fitted slope with the default zero. */
  lemma FittedReadsOut(d: nat, t: Sums, raw: int)
    requires Denominator(t) != 0.0 && t.n > 0
    ensures var c := Fitted(d, t);
            c.spread.Number? && c.zero.Number? &&
            if StoredAsFitted(d, t) then
              ReadOut(raw, c.spread.value, c.zero.value) == Times(Slope(t), raw as real) + if d == 4 then 0.0 else Intercept(t)
            else if d == 4 then c == Coefficients(Number(5.0), Number(0.0))
            else if 10.0 <= Slope(t) * 4095.0 <= 30.0 then
              ReadOut(raw, c.spread.value, c.zero.value) == Times(Slope(t), raw as real) - 8.0
            else c == Coefficients(Number(18.28), Number(8.0))
  {
    ReadOutIsSlope(raw, Slope(t), if d == 4 then 0.0 else -Intercept(t));
    ReadOutIsSlope(raw, Slope(t), 8.0);
  }

  /** The stored coefficients are in range exactly when the slope passes the gate: below it they
      stay as fitted, although the defaults are meant to be kept. */
  lemma InRangeIff(d: nat, t: Sums)
    requires Denominator(t) != 0.0 && t.n > 0
    ensures var c := Fitted(d, t);
            c.spread.Number? && c.zero.Number? &&
            (InRange(d, c.spread.value, c.zero.value) <==> Magnitude(Slope(t)) > 0.0001)
  {
  }

  /** A calibration in range reads out the line no other line beats. */
  lemma CalibratedReadsBestLine(d: nat, points: Points, before: Coefficients, raw: int, a: real, b: real)
    requires d != 4 && TwoReadings(Kept(points))
    requires var t := Total(Kept(points));
             Denominator(t) != 0.0 && InRange(d, Slope(t) * FULL, -Intercept(t))
    ensures var t, c := Total(Kept(points)), Calibrated(d, points, before);
            && c.spread.Number? && c.zero.Number?
            && ReadOut(raw, c.spread.value, c.zero.value) == Line(raw, t)
            && SquaredError(Kept(points), Slope(t), Intercept(t)) <= SquaredError(Kept(points), a, b)
  {
    var t := Total(Kept(points));
    BestLine(Kept(points), a, b);
    StoredIsLine(d, t, raw);
  }
}
