/**
 * Arithmetic modulo p: products, powers, and the square-and-multiply loop.
 * Primality enters only as Fermat's little theorem, a hypothesis where it is used.
 */
module ModArith {

  // ── remainders ──────────────────────────────────────────────────────────

  lemma AtLeastOnce(k: int, p: int)
    requires k >= 1 && p > 0
    ensures k * p >= p
  {
  }

  /** Quotient and remainder are unique. */
  lemma UniqueRemainder(a: int, q: int, r: int, p: int)
    requires p > 0 && a == q * p + r && 0 <= r < p
    ensures a % p == r && a / p == q
  {
    var q', r' := a / p, a % p;
    assert a == q' * p + r';
    assert (q - q') * p == r' - r && (q' - q) * p == r - r';
    if q > q' { AtLeastOnce(q - q', p); }
    if q < q' { AtLeastOnce(q' - q, p); }
  }

  /** Whole multiples of p do not count. */
  lemma Same(a: int, b: int, k: int, p: int)
    requires p > 0 && a == b + k * p
    ensures a % p == b % p
  {
    var q, r := b / p, b % p;
    assert a == (q + k) * p + r;
    UniqueRemainder(a, q + k, r, p);
  }

  lemma Reduced(a: int, p: int)
    requires p > 0 && 0 <= a < p
    ensures a % p == a
  {
    UniqueRemainder(a, 0, a, p);
  }

  function Mul(a: int, b: int, p: nat): (r: nat)
    requires p > 0
    ensures r < p
  {
    (a * b) % p
  }

  lemma MulComm(a: int, b: int, p: nat)
    requires p > 0
    ensures Mul(a, b, p) == Mul(b, a, p)
  {
    assert a * b == b * a;
  }

  /** A factor may be reduced first. */
  lemma MulReduced(a: int, b: int, p: nat)
    requires p > 0
    ensures Mul(a % p, b, p) == Mul(a, b, p)
  {
    var q, r := a / p, a % p;
    assert a == q * p + r;
    assert a * b == r * b + (q * b) * p;
    Same(a * b, r * b, q * b, p);
  }

  lemma MulAssoc(a: int, b: int, c: int, p: nat)
    requires p > 0
    ensures Mul(Mul(a, b, p), c, p) == Mul(a, Mul(b, c, p), p)
  {
    MulReduced(a * b, c, p);
    MulReduced(b * c, a, p);
    MulComm(Mul(b, c, p), a, p);
    assert (a * b) * c == (b * c) * a;
  }

  lemma MulOne(a: int, p: nat)
    requires p > 0 && 0 <= a < p
    ensures Mul(a, 1, p) == a && Mul(1, a, p) == a
  {
    Reduced(a, p);
  }

  lemma MulZero(a: int, p: nat)
    requires p > 0
    ensures Mul(a, 0, p) == 0 && Mul(0, a, p) == 0
  {
    Reduced(0, p);
  }

  /** Pairs of factors may be regrouped. */
  lemma Regroup(a: int, b: int, c: int, d: int, p: nat)
    requires p > 0
    ensures Mul(Mul(a, b, p), Mul(c, d, p), p) == Mul(Mul(a, c, p), Mul(b, d, p), p)
  {
    hide Mul;
    MulAssoc(a, b, Mul(c, d, p), p);
    MulAssoc(b, c, d, p);
    MulComm(b, c, p);
    MulAssoc(c, b, d, p);
    MulAssoc(a, c, Mul(b, d, p), p);
  }

  // ── powers ──────────────────────────────────────────────────────────────

  function Power(b: int, e: nat, p: nat): (r: nat)
    requires p > 1
    ensures r < p
  {
    if e == 0 then 1 else Mul(b, Power(b, e - 1, p), p)
  }

  lemma {:induction false} PowerAdd(b: int, m: nat, n: nat, p: nat)
    requires p > 1
    ensures Power(b, m + n, p) == Mul(Power(b, m, p), Power(b, n, p), p)
  {
    hide Mul;
    if m == 0 {
      MulOne(Power(b, n, p), p);
    } else {
      PowerAdd(b, m - 1, n, p);
      MulAssoc(b, Power(b, m - 1, p), Power(b, n, p), p);
    }
  }

  lemma {:induction false} PowerOfProduct(a: int, b: int, n: nat, p: nat)
    requires p > 1
    ensures Power(Mul(a, b, p), n, p) == Mul(Power(a, n, p), Power(b, n, p), p)
  {
    hide Mul;
    if n == 0 {
      MulOne(1, p);
    } else {
      PowerOfProduct(a, b, n - 1, p);
      Regroup(a, b, Power(a, n - 1, p), Power(b, n - 1, p), p);
    }
  }

  lemma {:induction false} PowerOfPower(b: int, m: nat, n: nat, p: nat)
    requires p > 1
    ensures Power(Power(b, m, p), n, p) == Power(b, m * n, p)
  {
    hide Mul;
    if n == 0 {
      assert m * n == 0;
    } else {
      PowerOfPower(b, m, n - 1, p);
      PowerAdd(b, m, m * (n - 1), p);
      assert m * n == m + m * (n - 1);
    }
  }

  lemma PowerOne(b: int, p: nat)
    requires p > 1 && 0 <= b < p
    ensures Power(b, 1, p) == b && Power(b, 2, p) == Mul(b, b, p)
  {
    hide Mul;
    MulOne(b, p);
    assert Power(b, 0, p) == 1;
    assert Power(b, 1, p) == b;
  }

  function Exp(b: int, e: nat): int { if e == 0 then 1 else b * Exp(b, e - 1) }

  /** It is the integer power, reduced; and only the base's remainder matters. */
  lemma {:induction false} PowerIsExp(b: int, e: nat, p: nat)
    requires p > 1
    ensures Power(b % p, e, p) == Exp(b, e) % p
  {
    if e == 0 {
      Reduced(1, p);
    } else {
      PowerIsExp(b, e - 1, p);
      MulReduced(b, Exp(b, e - 1) % p, p);
      MulReduced(Exp(b, e - 1), b, p);
      MulComm(Exp(b, e - 1) % p, b, p);
      MulComm(Exp(b, e - 1), b, p);
    }
  }

  /** What one turn of the loop does to the power still to be computed. */
  lemma Halve(b: int, e: nat, p: nat)
    requires p > 1 && 0 <= b < p
    ensures Power(b, e, p) == Mul(if e % 2 == 1 then b else 1, Power(Mul(b, b, p), e / 2, p), p)
  {
    hide Mul;
    PowerOne(b, p);
    PowerOfPower(b, 2, e / 2, p);
    if e % 2 == 1 {
      assert e == 1 + 2 * (e / 2);
      PowerAdd(b, 1, 2 * (e / 2), p);
    } else {
      MulOne(Power(b, 2 * (e / 2), p), p);
    }
  }

  /** Square and multiply: the modular power, in as many turns as the exponent has bits. */
  method Pow(base: int, exp: nat, p: nat) returns (result: nat)
    requires p > 1
    ensures result == Power(base % p, exp, p) && result == Exp(base, exp) % p
  {
    hide Mul;
    result := 1;
    var b: nat, e := base % p, exp;
    MulOne(Power(b, e, p), p);
    while e > 0
      invariant result < p && b < p
      invariant Mul(result, Power(b, e, p), p) == Power(base % p, exp, p)
    {
      Halve(b, e, p);
      ghost var rest := Power(Mul(b, b, p), e / 2, p);
      if e % 2 == 1 {
        MulAssoc(result, b, rest, p);
        result := Mul(result, b, p);
      } else {
        MulOne(rest, p);
      }
      b := Mul(b, b, p);
      e := e / 2;
    }
    MulOne(result, p);
    PowerIsExp(base, exp, p);
  }

  // ── a prime modulus ─────────────────────────────────────────────────────

  ghost predicate ComesBackToOne(a: nat, p: nat)
    requires p > 1
  {
    Power(a, p - 1, p) == 1
  }

  /** Fermat's little theorem for p: what primality is used for. */
  ghost predicate Fermat(p: nat) {
    p > 1 && forall a: nat | 0 < a < p :: ComesBackToOne(a, p)
  }

  /** A product is zero only when a factor is. */
  lemma NoZeroDivisors(a: nat, b: nat, p: nat)
    requires Fermat(p) && a < p && b < p && Mul(a, b, p) == 0
    ensures a == 0 || b == 0
  {
    hide Mul;
    if a > 0 {
      assert ComesBackToOne(a, p);
      PowerAdd(a, p - 2, 1, p);
      PowerOne(a, p);
      MulAssoc(Power(a, p - 2, p), a, b, p);
      MulZero(Power(a, p - 2, p), p);
      MulOne(b, p);
    }
  }

  /** Equal squares differ at most in sign. */
  lemma EqualSquares(a: nat, b: nat, p: nat)
    requires Fermat(p) && a < p && b < p && Mul(a, a, p) == Mul(b, b, p)
    ensures a == b || a + b == p
  {
    var lo, hi := if a < b then a else b, if a < b then b else a;
    SquaresMeet(lo, hi, p);
    NoZeroDivisors(hi - lo, (hi + lo) % p, p);
    if hi + lo < p { Reduced(hi + lo, p); } else { UniqueRemainder(hi + lo, 1, hi + lo - p, p); }
  }

  lemma SquaresMeet(lo: nat, hi: nat, p: nat)
    requires p > 0 && lo <= hi < p && Mul(lo, lo, p) == Mul(hi, hi, p)
    ensures Mul(hi - lo, (hi + lo) % p, p) == 0
  {
    var a, b := hi * hi, lo * lo;
    assert a == (a / p) * p + a % p && b == (b / p) * p + b % p;
    assert (hi + lo) * (hi - lo) == a - b;
    assert a - b == 0 + (a / p - b / p) * p;
    Same(a - b, 0, a / p - b / p, p);
    Reduced(0, p);
    MulReduced(hi + lo, hi - lo, p);
    MulComm((hi + lo) % p, hi - lo, p);
  }

  /** The other square root. */
  function Neg(a: nat, p: nat): (r: nat)
    requires 0 < p && a < p
    ensures r < p && (a == 0 ==> r == 0) && (a > 0 ==> r == p - a)
  {
    if a == 0 then 0 else p - a
  }

  lemma NegSquare(a: nat, p: nat)
    requires p > 0 && a < p
    ensures Mul(Neg(a, p), Neg(a, p), p) == Mul(a, a, p)
  {
    if a > 0 {
      assert (p - a) * (p - a) == a * a + (p - 2 * a) * p;
      Same((p - a) * (p - a), a * a, p - 2 * a, p);
    }
  }

  /** The negative of a number, as `mod(-a)` computes it. */
  lemma NegIs(a: int, p: nat)
    requires p > 0 && 0 <= a < p
    ensures (-a) % p == Neg(a, p)
  {
    if a > 0 { UniqueRemainder(-a, -1, p - a, p); } else { Reduced(0, p); }
  }

  lemma NegProduct(a: nat, b: nat, p: nat)
    requires p > 0 && a < p && b < p
    ensures Mul(Neg(a, p), b, p) == Neg(Mul(a, b, p), p)
  {
    if a > 0 {
      var ab: int := a * b;
      assert (p - a) * b == -ab + b * p;
      Same((p - a) * b, -ab, b, p);
      var q, r := ab / p, ab % p;
      assert ab == q * p + r;
      assert -ab == -r + (-q) * p;
      Same(-ab, -r, -q, p);
      NegIs(r, p);
    } else {
      MulZero(b, p);
    }
  }

  lemma NegTwice(a: nat, p: nat)
    requires p > 0 && a < p
    ensures Neg(Neg(a, p), p) == a
  {
  }
}
