/**
 * The lower bound of the Wilson score interval, over the reals. The main
 * results are that it is the smaller root of the interval's own equation, lies
 * between zero and the plain ratio, and strictly rises both with more correct
 * calls and with more calls at the same ratio.
 */
module Wilson {

  /** What Math.sqrt promises, rounding aside. */
  ghost predicate SquareRoot(sqrt: real -> real) {
    forall x: real | x >= 0.0 :: sqrt(x) >= 0.0 && sqrt(x) * sqrt(x) == x
  }

  function Ratio(correct: nat, decided: nat): real
    requires decided > 0
  {
    correct as real / decided as real
  }

  /** What the square root is taken of. */
  function Radicand(correct: nat, decided: nat, z: real): real
    requires decided > 0
  {
    var n, p := decided as real, Ratio(correct, decided);
    (p * (1.0 - p) + z * z / (4.0 * n)) / n
  }

  function Margin(correct: nat, decided: nat, z: real, sqrt: real -> real): real
    requires decided > 0
  {
    z * sqrt(Radicand(correct, decided, z))
  }

  function WilsonLowerBound(correct: nat, decided: nat, z: real, sqrt: real -> real): real {
    if decided == 0 then 0.0
    else
      var n, z2 := decided as real, z * z;
      var centre := Ratio(correct, decided) + z2 / (2.0 * n);
      SpreadNonNegative(z, n);
      var bound := (centre - Margin(correct, decided, z, sqrt)) / (1.0 + z2 / n);
      if bound < 0.0 then 0.0 else bound
  }

  lemma SpreadNonNegative(z: real, n: real)
    requires n > 0.0
    ensures z * z / n >= 0.0
  {
  }

  // ── the equation, with k for z²/n and m for the margin ──────────────────

  ghost predicate Bound(p: real, k: real, m: real, w: real) {
    && 0.0 <= p <= 1.0 && k > 0.0 && m >= 0.0
    && m * m == k * (p * (1.0 - p) + k / 4.0)
    && (1.0 + k) * w == p + k / 2.0 - m
  }

  /** Where `v` stands against the equation, as a distance from the middle of its two roots. */
  lemma Completed(p: real, k: real, v: real)
    ensures var t := (1.0 + k) * v - (p + k / 2.0);
            (1.0 + k) * ((p - v) * (p - v) - k * (v * (1.0 - v))) == t * t - k * (p * (1.0 - p) + k / 4.0)
  {
    var d, h := 1.0 + k, p + k / 2.0;
    var t := d * v - h;
    assert (p - v) * (p - v) - k * (v * (1.0 - v)) == d * (v * v) - 2.0 * h * v + p * p by {
      assert (p - v) * (p - v) == p * p - 2.0 * p * v + v * v;
      assert k * (v * (1.0 - v)) == k * v - k * (v * v);
    }
    assert t * t == (d * v) * (d * v) - 2.0 * h * (d * v) + h * h;
    assert d * (d * (v * v) - 2.0 * h * v + p * p) == (d * v) * (d * v) - 2.0 * h * (d * v) + d * (p * p);
    assert h * h - k * (p * (1.0 - p) + k / 4.0) == d * (p * p);
  }

  lemma NonNegative(a: real, b: real)
    requires a >= 0.0 && b >= 0.0
    ensures a * b >= 0.0
  {
  }

  lemma Positive(a: real, b: real)
    requires a > 0.0 && b > 0.0
    ensures a * b > 0.0
  {
  }

  lemma Negative(a: real, b: real)
    requires a < 0.0 && b > 0.0
    ensures a * b < 0.0
  {
    Positive(-a, b);
    assert (-a) * b == -(a * b);
  }

  lemma Commutes(a: real, b: real)
    ensures a * b == b * a
  {
  }

  lemma SquareDifference(a: real, b: real)
    ensures b * b - a * a == (b - a) * (b + a)
  {
  }

  lemma SquaresOrder(a: real, b: real)
    requires b >= 0.0
    ensures a * a <= b * b ==> a <= b
    ensures a * a > b * b && a <= b ==> a < -b
    ensures a * a == b * b ==> a == b || a == -b
  {
    SquareDifference(a, b);
    if a > b {
      Negative(b - a, b + a);
    } else if a < -b {
      Negative(b + a, b - a);
      Commutes(b + a, b - a);
    } else {
      NonNegative(b - a, b + a);
      if -b < a < b { Positive(b - a, b + a); }
    }
  }

  lemma Scaled(d: real, a: real, b: real)
    requires d > 0.0
    ensures d * a < d * b <==> a < b
    ensures d * a == d * b <==> a == b
    ensures d * a > 0.0 <==> a > 0.0
  {
    assert d * b - d * a == d * (b - a);
  }

  /** It solves (p - w)² = k w (1 - w). */
  lemma SolvesEquation(p: real, k: real, m: real, w: real)
    requires Bound(p, k, m, w)
    ensures (p - w) * (p - w) == k * (w * (1.0 - w))
  {
    Completed(p, k, w);
    var t := (1.0 + k) * w - (p + k / 2.0);
    assert t == -m && t * t == m * m;
    Scaled(1.0 + k, (p - w) * (p - w) - k * (w * (1.0 - w)), 0.0);
  }

  /** No other solution is smaller. */
  lemma SmallestSolution(p: real, k: real, m: real, w: real, v: real)
    requires Bound(p, k, m, w) && (p - v) * (p - v) == k * (v * (1.0 - v))
    ensures w <= v
  {
    Completed(p, k, v);
    var t := (1.0 + k) * v - (p + k / 2.0);
    SquaresOrder(t, m);
    Scaled(1.0 + k, v, w);
  }

  /** The ratio itself lies between the two solutions. */
  lemma RatioBetween(p: real, k: real, m: real, w: real)
    requires Bound(p, k, m, w)
    ensures (1.0 + k) * p - (p + k / 2.0) <= m && -((1.0 + k) * p - (p + k / 2.0)) <= m
  {
    Completed(p, k, p);
    var t := (1.0 + k) * p - (p + k / 2.0);
    NonNegative(p, 1.0 - p);
    NonNegative(k, p * (1.0 - p));
    NonNegative(1.0 + k, k * (p * (1.0 - p)));
    assert t * t <= m * m;
    SquaresOrder(t, m);
    SquaresOrder(-t, m);
  }

  lemma InRange(p: real, k: real, m: real, w: real)
    requires Bound(p, k, m, w)
    ensures 0.0 <= w <= p
  {
    RatioBetween(p, k, m, w);
    Scaled(1.0 + k, p, w);
    Completed(p, k, 0.0);
    var h := p + k / 2.0;
    assert (1.0 + k) * (p * p) == h * h - m * m;
    SquaresOrder(m, h);
    Scaled(1.0 + k, w, 0.0);
  }

  function Square(a: real): real { a * a }

  function Scale(d: real, a: real): real { d * a }

  /** How far `v` is from solving the equation, on the side away from the roots when positive. */
  function Gap(p: real, k: real, v: real): real { (p - v) * (p - v) - k * (v * (1.0 - v)) }

  lemma GapSquared(p: real, k: real, m: real, w: real, v: real)
    requires Bound(p, k, m, w)
    ensures Scale(1.0 + k, Gap(p, k, v)) == Square(Scale(1.0 + k, v) - (p + k / 2.0)) - Square(m)
    ensures k > 0.0 && m >= 0.0 && Scale(1.0 + k, w) - (p + k / 2.0) == -m
  {
    Completed(p, k, v);
  }

  lemma ScaleOrders(d: real, a: real, b: real)
    requires d > 0.0
    ensures Scale(d, a) < Scale(d, b) <==> a < b
    ensures Scale(d, a) > 0.0 <==> a > 0.0
  {
    Scaled(d, a, b);
  }

  lemma LeftOfBoth(t: real, m: real)
    requires m >= 0.0 && Square(t) > Square(m) && t <= m
    ensures t < -m
  {
    SquaresOrder(t, m);
  }

  /** Whatever lies at or below the ratio and too far from it for the equation lies strictly below the bound. */
  lemma TooFarIsBelow(p: real, k: real, m: real, w: real, v: real)
    requires Bound(p, k, m, w) && v <= p && (p - v) * (p - v) > k * (v * (1.0 - v))
    ensures v < w
  {
    assert Gap(p, k, v) > 0.0;
    RatioBetween(p, k, m, w);
    assert Scale(1.0 + k, p) - (p + k / 2.0) <= m;
    hide Bound, Square, Scale, Gap;
    GapSquared(p, k, m, w, v);
    ScaleOrders(1.0 + k, Gap(p, k, v), 0.0);
    ScaleOrders(1.0 + k, p, v);
    LeftOfBoth(Scale(1.0 + k, v) - (p + k / 2.0), m);
    ScaleOrders(1.0 + k, v, w);
  }

  lemma SquareGrows(a: real, b: real)
    requires 0.0 <= a < b
    ensures a * a < b * b
  {
    SquareDifference(a, b);
    Positive(b - a, b + a);
  }

  lemma NeverOne(p: real, k: real, m: real, w: real)
    requires Bound(p, k, m, w)
    ensures w != 1.0
  {
    assert w == 1.0 ==> (1.0 + k) * w == 1.0 + k;
  }

  function ScaledSquare(d: real, a: real): real { d * (a * a) }

  lemma ScaledSquarePositive(d: real, a: real)
    requires d > 0.0 && a > 0.0
    ensures ScaledSquare(d, a) > 0.0
  {
    Positive(d, a);
    Positive(d * a, a);
  }

  lemma SquaresRise(a: real, b: real)
    requires a >= 0.0 && b >= 0.0 && Square(a) < Square(b)
    ensures a < b
  {
    if b < a { SquareGrows(b, a); }
  }

  lemma Discriminant(p: real, k: real, m: real, w: real)
    requires Bound(p, k, m, w)
    ensures k > 0.0 && m >= 0.0 && (1.0 + k) * w == p + k / 2.0 - m
    ensures ScaledSquare(1.0 + k, p) == Square(p + k / 2.0) - Square(m)
  {
  }

  lemma AboveZero(p: real, k: real, m: real, w: real)
    requires Bound(p, k, m, w) && p > 0.0
    ensures w > 0.0
  {
    hide Bound, Square, ScaledSquare;
    Discriminant(p, k, m, w);
    ScaledSquarePositive(1.0 + k, p);
    SquaresRise(m, p + k / 2.0);
    Scaled(1.0 + k, w, 0.0);
  }

  /** With a positive ratio the bound is strictly between zero and one. */
  lemma StrictlyInside(p: real, k: real, m: real, w: real)
    requires Bound(p, k, m, w) && p > 0.0
    ensures 0.0 < w < 1.0
  {
    assert p <= 1.0;
    hide Bound;
    InRange(p, k, m, w);
    NeverOne(p, k, m, w);
    AboveZero(p, k, m, w);
  }

  lemma MoreCorrectIsHigher(p: real, m: real, w: real, p': real, m': real, w': real, k: real)
    requires Bound(p, k, m, w) && Bound(p', k, m', w') && p < p'
    ensures w < w'
  {
    InRange(p, k, m, w);
    SolvesEquation(p, k, m, w);
    hide Bound;
    SquareGrows(p - w, p' - w);
    TooFarIsBelow(p', k, m', w', w);
  }

  lemma SmallerScale(a: real, b: real, x: real, y: real)
    requires a < b && x > 0.0 && y == b * x
    ensures y > a * x
  {
    Positive(b - a, x);
    assert b * x - a * x == (b - a) * x;
  }

  /** A smaller k leaves less room below the ratio. */
  lemma TooFarForSmaller(p: real, k: real, m: real, w: real, k': real)
    requires Bound(p, k, m, w) && k' < k && p > 0.0
    ensures w <= p && (p - w) * (p - w) > k' * (w * (1.0 - w))
  {
    hide Bound;
    InRange(p, k, m, w);
    StrictlyInside(p, k, m, w);
    SolvesEquation(p, k, m, w);
    Positive(w, 1.0 - w);
    SmallerScale(k', k, w * (1.0 - w), (p - w) * (p - w));
  }

  lemma MoreDecidedIsHigher(p: real, k: real, m: real, w: real, k': real, m': real, w': real)
    requires Bound(p, k, m, w) && Bound(p, k', m', w') && k' < k && p > 0.0
    ensures w < w'
  {
    hide Bound;
    TooFarForSmaller(p, k, m, w, k');
    TooFarIsBelow(p, k', m', w', w);
  }

  // ── the function ────────────────────────────────────────────────────────

  lemma Quotient(a: real, n: real, x: real)
    requires n > 0.0
    ensures x == a / n <==> n * x == a
  {
    if n * x == a { assert a / n * n == a; Scaled(n, x, a / n); }
  }

  lemma RatioTimes(correct: nat, decided: nat)
    requires decided > 0
    ensures decided as real * Ratio(correct, decided) == correct as real
  {
    Quotient(correct as real, decided as real, Ratio(correct, decided));
  }

  lemma RatioInRange(correct: nat, decided: nat)
    requires correct <= decided && decided > 0
    ensures 0.0 <= Ratio(correct, decided) <= 1.0 && (correct > 0 ==> Ratio(correct, decided) > 0.0)
  {
    var n, p := decided as real, Ratio(correct, decided);
    Quotient(correct as real, n, p);
    Scaled(n, p, 0.0);
    Scaled(n, 1.0, p);
  }

  /** z squared times the radicand, with k for z²/n. */
  lemma MarginSquared(correct: nat, decided: nat, z: real, k: real)
    requires correct <= decided && decided > 0 && decided as real * k == z * z
    ensures var p := Ratio(correct, decided); z * z * Radicand(correct, decided, z) == k * (p * (1.0 - p) + k / 4.0)
  {
    var n, p, r := decided as real, Ratio(correct, decided), Radicand(correct, decided, z);
    var inner := p * (1.0 - p) + z * z / (4.0 * n);
    Quotient(z * z, 4.0 * n, k / 4.0);
    Quotient(inner, n, r);
    assert z * z * r == n * k * r == k * (n * r);
  }

  function Spread(decided: nat, z: real): real
    requires decided > 0
  {
    z * z / decided as real
  }

  lemma RadicandIs(correct: nat, decided: nat, z: real, p: real, quarter: real)
    requires decided > 0 && p == Ratio(correct, decided) && quarter == z * z / (4.0 * decided as real)
    ensures Radicand(correct, decided, z) == (p * (1.0 - p) + quarter) / decided as real
  {
    hide Ratio;
  }

  lemma RadicandNonNegative(correct: nat, decided: nat, z: real)
    requires correct <= decided && decided > 0 && z > 0.0
    ensures Radicand(correct, decided, z) >= 0.0
  {
    var n, p := decided as real, Ratio(correct, decided);
    RatioInRange(correct, decided);
    NonNegative(p, 1.0 - p);
    NonNegative(z, z);
    var quarter := z * z / (4.0 * n);
    Quotient(z * z, 4.0 * n, quarter);
    Scaled(4.0 * n, 0.0, quarter);
    var inner := p * (1.0 - p) + quarter;
    RadicandIs(correct, decided, z, p, quarter);
    hide Radicand;
    Quotient(inner, n, inner / n);
    Scaled(n, inner / n, 0.0);
  }

  lemma Regroup(z: real, s: real, r: real)
    requires s * s == r
    ensures (z * s) * (z * s) == z * z * r
  {
    assert (z * s) * (z * s) == z * z * (s * s);
  }

  lemma MarginIs(correct: nat, decided: nat, z: real, sqrt: real -> real)
    requires correct <= decided && decided > 0 && z > 0.0 && SquareRoot(sqrt)
    ensures var p, k, m := Ratio(correct, decided), Spread(decided, z), Margin(correct, decided, z, sqrt);
            m >= 0.0 && m * m == k * (p * (1.0 - p) + k / 4.0)
  {
    var r := Radicand(correct, decided, z);
    RadicandNonNegative(correct, decided, z);
    var root := sqrt(r);
    assert root >= 0.0 && root * root == r;
    NonNegative(z, root);
    Regroup(z, root, r);
    Quotient(z * z, decided as real, Spread(decided, z));
    hide Radicand, Ratio, Spread;
    MarginSquared(correct, decided, z, Spread(decided, z));
  }

  lemma SpreadPositive(decided: nat, z: real)
    requires decided > 0 && z > 0.0
    ensures Spread(decided, z) > 0.0 && decided as real * Spread(decided, z) == z * z
  {
    var n := decided as real;
    var q := z / n;
    Quotient(z, n, q);
    Scaled(n, q, 0.0);
    Positive(z, q);
    assert n * (z * q) == z * z;
    Quotient(z * z, n, z * q);
    Quotient(z * z, n, Spread(decided, z));
  }

  function Unfloored(p: real, k: real, m: real): real
    requires k > 0.0
  {
    (p + k / 2.0 - m) / (1.0 + k)
  }

  lemma UnflooredBound(p: real, k: real, m: real)
    requires 0.0 <= p <= 1.0 && k > 0.0 && m >= 0.0 && m * m == k * (p * (1.0 - p) + k / 4.0)
    ensures Bound(p, k, m, Unfloored(p, k, m))
  {
    Quotient(p + k / 2.0 - m, 1.0 + k, Unfloored(p, k, m));
  }

  lemma Halved(a: real, n: real)
    requires n > 0.0
    ensures a / (2.0 * n) == a / n / 2.0
  {
    var q := a / n;
    Quotient(a, n, q);
    Quotient(a, 2.0 * n, q / 2.0);
  }

  lemma WilsonFormula(correct: nat, decided: nat, z: real, sqrt: real -> real)
    requires decided > 0 && Spread(decided, z) > 0.0
    ensures var bound := Unfloored(Ratio(correct, decided), Spread(decided, z), Margin(correct, decided, z, sqrt));
            WilsonLowerBound(correct, decided, z, sqrt) == if bound < 0.0 then 0.0 else bound
  {
    hide Ratio, Margin;
    Halved(z * z, decided as real);
  }

  /**
   * The function, floor included, is the smaller solution for its ratio, spread and
   * margin: the floor at zero never applies.
   */
  lemma WilsonSolves(correct: nat, decided: nat, z: real, sqrt: real -> real)
    requires correct <= decided && decided > 0 && z > 0.0 && SquareRoot(sqrt)
    ensures Bound(Ratio(correct, decided), Spread(decided, z), Margin(correct, decided, z, sqrt),
        WilsonLowerBound(correct, decided, z, sqrt))
  {
    hide Bound, Ratio, Spread, Margin, Unfloored, WilsonLowerBound;
    var p, k, m := Ratio(correct, decided), Spread(decided, z), Margin(correct, decided, z, sqrt);
    SpreadPositive(decided, z);
    MarginIs(correct, decided, z, sqrt);
    RatioInRange(correct, decided);
    UnflooredBound(p, k, m);
    InRange(p, k, m, Unfloored(p, k, m));
    WilsonFormula(correct, decided, z, sqrt);
  }

  /** It lies between zero and the plain ratio p, and solves n (p - w)² = z² w (1 - w). */
  lemma WilsonSolvesTheEquation(correct: nat, decided: nat, z: real, sqrt: real -> real)
    requires correct <= decided && decided > 0 && z > 0.0 && SquareRoot(sqrt)
    ensures var n, p, w := decided as real, Ratio(correct, decided), WilsonLowerBound(correct, decided, z, sqrt);
            0.0 <= w <= p && n * ((p - w) * (p - w)) == z * z * (w * (1.0 - w))
  {
    hide Bound, Spread, Margin, WilsonLowerBound, Ratio;
    var p, k, m, w := Ratio(correct, decided), Spread(decided, z), Margin(correct, decided, z, sqrt),
        WilsonLowerBound(correct, decided, z, sqrt);
    WilsonSolves(correct, decided, z, sqrt);
    SpreadPositive(decided, z);
    InRange(p, k, m, w);
    SolvesEquation(p, k, m, w);
    Rescaled(decided as real, k, z * z, (p - w) * (p - w), w * (1.0 - w));
  }

  /** No smaller number solves it. */
  lemma WilsonIsTheSmallerRoot(correct: nat, decided: nat, z: real, sqrt: real -> real, v: real)
    requires correct <= decided && decided > 0 && z > 0.0 && SquareRoot(sqrt)
    requires var n, p := decided as real, Ratio(correct, decided); n * ((p - v) * (p - v)) == z * z * (v * (1.0 - v))
    ensures WilsonLowerBound(correct, decided, z, sqrt) <= v
  {
    hide Bound, Spread, Margin, WilsonLowerBound, Ratio;
    var p, k, m, w := Ratio(correct, decided), Spread(decided, z), Margin(correct, decided, z, sqrt),
        WilsonLowerBound(correct, decided, z, sqrt);
    SpreadPositive(decided, z);
    Rescaled(decided as real, k, z * z, (p - v) * (p - v), v * (1.0 - v));
    WilsonSolves(correct, decided, z, sqrt);
    SmallestSolution(p, k, m, w, v);
  }

  lemma Rescaled(n: real, k: real, z2: real, a: real, b: real)
    requires n > 0.0 && n * k == z2
    ensures n * a == z2 * b <==> a == k * b
  {
    assert n * (k * b) == n * k * b;
    Scaled(n, a, k * b);
  }

  /** One more correct call out of the same number strictly raises it. */
  lemma WilsonRisesWithCorrect(correct: nat, more: nat, decided: nat, z: real, sqrt: real -> real)
    requires correct < more <= decided && z > 0.0 && SquareRoot(sqrt)
    ensures WilsonLowerBound(correct, decided, z, sqrt) < WilsonLowerBound(more, decided, z, sqrt)
  {
    WilsonSolves(correct, decided, z, sqrt);
    WilsonSolves(more, decided, z, sqrt);
    RatioRises(correct, more, decided);
    hide Bound, Ratio, Spread, Margin, WilsonLowerBound;
    MoreCorrectIsHigher(
      Ratio(correct, decided), Margin(correct, decided, z, sqrt), WilsonLowerBound(correct, decided, z, sqrt),
      Ratio(more, decided), Margin(more, decided, z, sqrt), WilsonLowerBound(more, decided, z, sqrt),
          Spread(decided, z));
  }

  lemma RatioRises(correct: nat, more: nat, decided: nat)
    requires correct < more <= decided
    ensures Ratio(correct, decided) < Ratio(more, decided)
  {
    hide Ratio;
    var n := decided as real;
    RatioTimes(correct, decided);
    RatioTimes(more, decided);
    Scaled(n, Ratio(correct, decided), Ratio(more, decided));
  }

  /** The same positive ratio over more calls strictly raises it. */
  lemma WilsonRisesWithDecided(correct: nat, decided: nat, correct': nat, decided': nat, z: real, sqrt: real -> real)
    requires 0 < correct <= decided < decided' && correct * decided' == correct' * decided && z > 0.0
        && SquareRoot(sqrt)
    ensures correct' <= decided'
        && WilsonLowerBound(correct, decided, z, sqrt) < WilsonLowerBound(correct', decided', z, sqrt)
  {
    SameRatio(correct, decided, correct', decided');
    WilsonSolves(correct, decided, z, sqrt);
    WilsonSolves(correct', decided', z, sqrt);
    SpreadFalls(decided, decided', z);
    RatioInRange(correct, decided);
    hide Bound, Ratio, Spread, Margin, WilsonLowerBound;
    MoreDecidedIsHigher(
      Ratio(correct, decided), Spread(decided, z), Margin(correct, decided, z, sqrt),
          WilsonLowerBound(correct, decided, z, sqrt),
      Spread(decided', z), Margin(correct', decided', z, sqrt), WilsonLowerBound(correct', decided', z, sqrt));
  }

  lemma {:induction false} RealProduct(a: nat, b: nat)
    ensures (a * b) as real == a as real * b as real
  {
    if b > 0 {
      RealProduct(a, b - 1);
      assert a * b == a * (b - 1) + a;
      assert b as real == (b - 1) as real + 1.0;
    }
  }

  lemma ProductGrows(a: nat, b: nat, c: nat)
    requires a < b && c > 0
    ensures a * c < b * c
  {
  }

  lemma CrossRatio(n: real, n': real, c: real, c': real, p: real, p': real)
    requires n > 0.0 && n' > 0.0 && n * p == c && n' * p' == c' && c * n' == c' * n
    ensures p == p'
  {
    var q, q' := n' * p, n' * p';
    assert n * q == n * p * n' && n * q' == n' * p' * n;
    Scaled(n, q, q');
    Scaled(n', p, p');
  }

  lemma SameRatio(correct: nat, decided: nat, correct': nat, decided': nat)
    requires 0 < correct <= decided < decided' && correct * decided' == correct' * decided
    ensures correct' <= decided' && Ratio(correct, decided) == Ratio(correct', decided')
  {
    hide Ratio;
    if correct' > decided' { ProductGrows(decided', correct', decided); }
    if correct < decided { ProductGrows(correct, decided, decided'); }
    RealProduct(correct, decided');
    RealProduct(correct', decided);
    RatioTimes(correct, decided);
    RatioTimes(correct', decided');
    CrossRatio(decided as real, decided' as real, correct as real, correct' as real, Ratio(correct, decided),
        Ratio(correct', decided'));
  }

  lemma SpreadFalls(decided: nat, decided': nat, z: real)
    requires 0 < decided < decided' && z > 0.0
    ensures Spread(decided', z) < Spread(decided, z)
  {
    SpreadPositive(decided, z);
    SpreadPositive(decided', z);
    hide Spread;
    var n, n', k, k' := decided as real, decided' as real, Spread(decided, z), Spread(decided', z);
    Positive(n' - n, k');
    assert n * k' + (n' - n) * k' == n' * k';
    Scaled(n, k', k);
  }
}
