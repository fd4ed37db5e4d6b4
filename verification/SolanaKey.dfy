/**
 * Decoding a 32-byte key to a point of the curve -x² + y² = 1 + d x² y², as
 * sections 5.1.2 and 5.1.3 of RFC 8032 have it, for any modulus p = 5 (mod 8)
 * below 2^255. The main results are that every accepted string decodes to a
 * point of the curve whose encoding is that string, and that every point of
 * the curve is what its encoding decodes to.
 */
module SolanaKey {
  import opened Vocabulary
  import opened ModArith

  type byte = b: int | 0 <= b < 256

  // ── 32 bytes, least significant first ───────────────────────────────────

  function Pow256(n: nat): (r: nat)
    ensures r > 0
  {
    if n == 0 then 1 else 256 * Pow256(n - 1)
  }

  /** 2^255: the weight of the sign bit. */
  function Top(): (r: nat)
    ensures r > 0
  {
    128 * Pow256(31)
  }

  function Number(bytes: seq<byte>): (n: nat)
    ensures n < Pow256(|bytes|)
  {
    if bytes == [] then 0 else bytes[0] + 256 * Number(bytes[1..])
  }

  function Bytes(n: nat, len: nat): (bytes: seq<byte>)
    ensures |bytes| == len
  {
    if len == 0 then [] else [n % 256] + Bytes(n / 256, len - 1)
  }

  lemma {:induction false} NumberOfBytes(n: nat, len: nat)
    requires n < Pow256(len)
    ensures Number(Bytes(n, len)) == n
  {
    if len > 0 { NumberOfBytes(n / 256, len - 1); }
  }

  lemma {:induction false} BytesOfNumber(bytes: seq<byte>)
    ensures Bytes(Number(bytes), |bytes|) == bytes
  {
    if bytes != [] {
      BytesOfNumber(bytes[1..]);
      assert Number(bytes) % 256 == bytes[0] && Number(bytes) / 256 == Number(bytes[1..]);
      assert bytes == [bytes[0]] + bytes[1..];
    }
  }

  // ── the curve ───────────────────────────────────────────────────────────

  /** The modulus, the curve's constant, and a square root of -1. */
  datatype Curve = Curve(p: nat, d: nat, i: nat)

  ghost predicate Shape(c: Curve) {
    c.p % 8 == 5 && c.p < Top() && c.d < c.p && c.i < c.p
  }

  /** i² = -1. */
  ghost predicate RootOfMinusOne(c: Curve)
    requires c.p > 0
  {
    Mul(c.i, c.i, c.p) == c.p - 1
  }

  /** The modulus of ed25519 has the shape asked for. */
  lemma Ed25519Modulus()
    ensures Top() > 19 && (Top() - 19) % 8 == 5
  {
    hide Pow256;
    TopModEight(Pow256(31));
  }

  lemma TopModEight(k: nat)
    requires k > 0
    ensures (128 * k - 19) % 8 == 5
  {
    assert 128 * k - 19 == 8 * (16 * k - 3) + 5;
  }

  ghost predicate OnCurve(c: Curve, x: nat, y: nat)
    requires c.p > 0
  {
    var x2, y2 := Mul(x, x, c.p), Mul(y, y, c.p);
    (y2 - x2) % c.p == (1 + c.d * (x2 * y2)) % c.p
  }

  function U(c: Curve, y: nat): (u: nat)
    requires c.p > 0
    ensures u < c.p
  {
    (Mul(y, y, c.p) - 1) % c.p
  }

  function V(c: Curve, y: nat): (v: nat)
    requires c.p > 0
    ensures v < c.p
  {
    (c.d * Mul(y, y, c.p) + 1) % c.p
  }

  lemma EqualRemainders(a: int, b: int, p: nat)
    requires p > 0 && a % p == b % p
    ensures a == b + (a / p - b / p) * p
  {
    assert a == (a / p) * p + a % p && b == (b / p) * p + b % p;
  }

  /** The curve, solved for x: v x² = u. */
  lemma CurveSolved(c: Curve, x: nat, y: nat)
    requires c.p > 0
    ensures OnCurve(c, x, y) <==> Mul(V(c, y), Mul(x, x, c.p), c.p) == U(c, y)
  {
    var x2, y2, p := Mul(x, x, c.p), Mul(y, y, c.p), c.p;
    MulReduced(c.d * y2 + 1, x2, p);
    var lhs, rhs := (c.d * y2 + 1) * x2, y2 - 1;
    assert lhs == c.d * (x2 * y2) + x2;
    if lhs % p == rhs % p {
      EqualRemainders(lhs, rhs, p);
      Same(1 + c.d * (x2 * y2), y2 - x2, lhs / p - rhs / p, p);
    }
    if (y2 - x2) % p == (1 + c.d * (x2 * y2)) % p {
      EqualRemainders(y2 - x2, 1 + c.d * (x2 * y2), p);
      var k := (y2 - x2) / p - (1 + c.d * (x2 * y2)) / p;
      assert rhs == lhs + k * p;
      Same(rhs, lhs, k, p);
    }
  }

  // ── decoding ────────────────────────────────────────────────────────────

  /** u v³ (u v⁷)^((p - 5) / 8). */
  function Candidate(p: nat, u: nat, v: nat): (x: nat)
    requires p > 4
    ensures x < p
  {
    var v3 := Mul(Mul(v, v, p), v, p);
    var v7 := Mul(Mul(v3, v3, p), v, p);
    Mul(Mul(u, v3, p), Power(Mul(u, v7, p), (p - 5) / 8, p), p)
  }

  /** A solution of v x² = u, when the candidate or its product with i is one. */
  function Root(c: Curve, u: nat, v: nat): (x: Option<nat>)
    requires c.p > 4 && u < c.p
    ensures x.Some? ==> x.value < c.p
  {
    var x := Candidate(c.p, u, v);
    var vx2 := Mul(v, Mul(x, x, c.p), c.p);
    if vx2 == u then Some(x)
    else if vx2 == Neg(u, c.p) then Some(Mul(x, c.i, c.p))
    else None
  }

  /** The root with the asked-for parity; zero has only the even one. */
  function Signed(p: nat, x: nat, sign: nat): Option<nat>
    requires p > 0 && x < p
  {
    if x == 0 && sign == 1 then None else if x % 2 != sign then Some(Neg(x, p)) else Some(x)
  }

  function Decode(c: Curve, bytes: seq<byte>): Option<(nat, nat)>
    requires c.p > 4
  {
    if |bytes| != 32 then None
    else
      var n := Number(bytes);
      var sign, y := (n / Top()) % 2, n % Top();
      if y >= c.p then None
      else
        var root := Root(c, U(c, y), V(c, y));
        if root.None? then None
        else
          var x := Signed(c.p, root.value, sign);
          if x.None? then None else Some((x.value, y))
  }

  function Encode(x: nat, y: nat): (bytes: seq<byte>)
    ensures |bytes| == 32
  {
    Bytes(y + Top() * (x % 2), 32)
  }

  method DecodePoint(c: Curve, bytes: seq<byte>) returns (r: Option<(nat, nat)>)
    requires c.p > 4
    ensures r == Decode(c, bytes)
  {
    hide Mul, Power;
    var P := c.p;
    if |bytes| != 32 { return None; }
    var n: nat, k := 0, 32;
    while k > 0
      invariant 0 <= k <= 32 && n == Number(bytes[k..])
    {
      k := k - 1;
      assert bytes[k..][1..] == bytes[k + 1..];
      n := n * 256 + bytes[k];
    }
    assert bytes[0..] == bytes;
    var sign, y := (n / Top()) % 2, n % Top();
    if y >= P { return None; }
    var u, v := U(c, y), V(c, y);
    var v3 := Mul(Mul(v, v, P), v, P);
    var v7 := Mul(Mul(v3, v3, P), v, P);
    var power := Pow(Mul(u, v7, P), (P - 5) / 8, P);
    Reduced(Mul(u, v7, P), P);
    var x := Mul(Mul(u, v3, P), power, P);
    var vx2 := Mul(v, Mul(x, x, P), P);
    NegIs(u, P);
    if vx2 == u {
    } else if vx2 == (-(u as int)) % P {
      x := Mul(x, c.i, P);
    } else {
      return None;
    }
    if x == 0 && sign == 1 { return None; }
    NegIs(x, P);
    if x % 2 != sign { x := (-(x as int)) % P; }
    r := Some((x, y));
  }

  // ── what is decoded ─────────────────────────────────────────────────────

  /** Either branch's root solves the equation. */
  lemma RootSolves(c: Curve, u: nat, v: nat)
    requires c.p > 4 && c.i < c.p && u < c.p && v < c.p && RootOfMinusOne(c)
    ensures var x := Root(c, u, v); x.Some? ==> Mul(v, Mul(x.value, x.value, c.p), c.p) == u
  {
    var p, x := c.p, Candidate(c.p, u, v);
    var vx2, xi := Mul(v, Mul(x, x, p), p), Mul(x, c.i, p);
    if vx2 != u && vx2 == Neg(u, p) {
      Regroup(x, c.i, x, c.i, p);
      MulAssoc(v, Mul(x, x, p), p - 1, p);
      assert Mul(xi, xi, p) == Mul(Mul(x, x, p), p - 1, p);
      TimesMinusOne(vx2, p);
      NegTwice(u, p);
    }
  }

  lemma TimesMinusOne(a: nat, p: nat)
    requires p > 1 && a < p
    ensures Mul(a, p - 1, p) == Neg(a, p)
  {
    MulComm(a, p - 1, p);
    NegProduct(1, a, p);
    MulOne(a, p);
  }

  lemma ParityFlips(p: nat, x: nat)
    requires p % 2 == 1 && 0 < x < p
    ensures Neg(x, p) % 2 != x % 2
  {
  }

  lemma TwoTops()
    ensures Pow256(32) == 2 * Top()
  {
  }

  /** A number below twice the top weight is its low part and one bit. */
  lemma SplitBits(n: nat, top: nat)
    requires n < 2 * top
    ensures n == n % top + top * ((n / top) % 2) && n % top < top
  {
    if n < top { UniqueRemainder(n, 0, n, top); } else { UniqueRemainder(n, 1, n - top, top); }
  }

  lemma JoinBits(y: nat, sign: nat, top: nat)
    requires y < top && sign < 2
    ensures y + top * sign < 2 * top && (y + top * sign) % top == y && ((y + top * sign) / top) % 2 == sign
  {
    UniqueRemainder(y + top * sign, sign, y, top);
  }

  lemma SignedSolves(p: nat, x: nat, sign: nat)
    requires p % 2 == 1 && x < p && sign < 2 && Signed(p, x, sign).Some?
    ensures var r := Signed(p, x, sign).value; r < p && r % 2 == sign && Mul(r, r, p) == Mul(x, x, p)
  {
    NegSquare(x, p);
    if x > 0 { ParityFlips(p, x); }
  }

  /**
   * Every accepted string decodes to a point of the curve with reduced coordinates, and
   * is that point's only encoding.
   */
  lemma DecodeIsSound(c: Curve, bytes: seq<byte>)
    requires Shape(c) && RootOfMinusOne(c)
    ensures Decode(c, bytes).Some? ==>
              var (x, y) := Decode(c, bytes).value;
              x < c.p && y < c.p && OnCurve(c, x, y) && Encode(x, y) == bytes
  {
    if Decode(c, bytes).Some? { DecodedPoint(c, bytes); }
  }

  lemma DecodedPoint(c: Curve, bytes: seq<byte>)
    requires Shape(c) && RootOfMinusOne(c) && Decode(c, bytes).Some?
    ensures var (x, y) := Decode(c, bytes).value;
            x < c.p && y < c.p && OnCurve(c, x, y) && Encode(x, y) == bytes
  {
    hide Mul, Root, OnCurve, Pow256, Top, Number, Bytes, U, V;
    var n := Number(bytes);
    TwoTops();
    SplitBits(n, Top());
    var sign, y := (n / Top()) % 2, n % Top();
    var root := Root(c, U(c, y), V(c, y)).value;
    RootSolves(c, U(c, y), V(c, y));
    SignedSolves(c.p, root, sign);
    CurveSolved(c, Decode(c, bytes).value.0, y);
    BytesOfNumber(bytes);
  }

  // ── nothing on the curve is refused ─────────────────────────────────────

  /** The candidate's pieces, as powers: v³ and v⁷. */
  lemma SmallPowers(p: nat, v: nat)
    requires p > 4 && v < p
    ensures var v3 := Mul(Mul(v, v, p), v, p); v3 == Power(v, 3, p) && Mul(Mul(v3, v3, p), v, p) == Power(v, 7, p)
  {
    hide Mul;
    PowerOne(v, p);
    PowerAdd(v, 2, 1, p);
    PowerAdd(v, 3, 3, p);
    PowerAdd(v, 6, 1, p);
  }

  /** u times a power of v, when u = v x². */
  lemma TimesU(p: nat, u: nat, v: nat, x: nat, n: nat)
    requires p > 4 && v < p && x < p && u == Mul(v, Mul(x, x, p), p)
    ensures Mul(u, Power(v, n, p), p) == Mul(Power(v, n + 1, p), Power(x, 2, p), p)
  {
    hide Mul, Power;
    var x2, vn := Mul(x, x, p), Power(v, n, p);
    PowerOne(x, p);
    PowerOne(v, p);
    MulAssoc(v, x2, vn, p);
    MulComm(x2, vn, p);
    MulAssoc(v, vn, x2, p);
    PowerAdd(v, 1, n, p);
  }

  /** The candidate is x0 to the power (p + 3) / 4. */
  lemma CandidateIsAPower(p: nat, u: nat, v: nat, x: nat)
    requires Fermat(p) && p % 8 == 5 && 0 < v < p && x < p && u == Mul(v, Mul(x, x, p), p)
    ensures Candidate(p, u, v) == Power(x, 2 * ((p - 5) / 8) + 2, p)
  {
    hide Mul, Power;
    var k := (p - 5) / 8;
    var x2 := Power(x, 2, p);
    SmallPowers(p, v);
    TimesU(p, u, v, x, 3);
    TimesU(p, u, v, x, 7);
    PowerOfProduct(Power(v, 8, p), x2, k, p);
    PowerOfPower(v, 8, k, p);
    PowerOfPower(x, 2, k, p);
    Regroup(Power(v, 4, p), x2, Power(v, 8 * k, p), Power(x, 2 * k, p), p);
    PowerAdd(v, 4, 8 * k, p);
    PowerAdd(x, 2, 2 * k, p);
    assert ComesBackToOne(v, p) && 4 + 8 * k == p - 1;
    MulOne(Power(x, 2 + 2 * k, p), p);
  }

  lemma HalfSquares(p: nat, x: nat, h: nat)
    requires Fermat(p) && 0 < x < p && h + h == p - 1
    ensures Mul(Power(x, h, p), Power(x, h, p), p) == 1
  {
    hide Mul, Power;
    assert ComesBackToOne(x, p);
    PowerAdd(x, h, h, p);
  }

  /** x0 to the power (p - 1) / 2 is 1 or -1. */
  lemma HalfPower(p: nat, x: nat)
    requires Fermat(p) && p % 8 == 5 && 0 < x < p
    ensures Power(x, 4 * ((p - 5) / 8) + 2, p) == 1 || Power(x, 4 * ((p - 5) / 8) + 2, p) == p - 1
  {
    hide Mul, Power;
    var h := 4 * ((p - 5) / 8) + 2;
    HalfSquares(p, x, h);
    MulOne(1, p);
    EqualSquares(Power(x, h, p), 1, p);
  }

  /** The candidate squared, times v, is u or -u. */
  lemma CandidateNearlySolves(p: nat, u: nat, v: nat, x: nat)
    requires Fermat(p) && p % 8 == 5 && 0 < v < p && x < p && u == Mul(v, Mul(x, x, p), p)
    ensures var r := Candidate(p, u, v); var vx2 := Mul(v, Mul(r, r, p), p); vx2 == u || vx2 == Neg(u, p)
  {
    hide Mul, Power, Candidate;
    var k := (p - 5) / 8;
    var r, half := Candidate(p, u, v), Power(x, 4 * k + 2, p);
    CandidateIsAPower(p, u, v, x);
    PowerAdd(x, 2 * k + 2, 2 * k + 2, p);
    assert 2 * k + 2 + (2 * k + 2) == 2 + (4 * k + 2);
    PowerAdd(x, 2, 4 * k + 2, p);
    PowerOne(x, p);
    MulAssoc(v, Power(x, 2, p), half, p);
    assert Mul(v, Mul(r, r, p), p) == Mul(u, half, p);
    if x == 0 {
      MulZero(0, p);
      MulZero(v, p);
      MulZero(half, p);
    } else {
      HalfPower(p, x);
      MulOne(u, p);
      TimesMinusOne(u, p);
    }
  }

  /** On the curve a zero denominator needs y² = 1, and then d = -1. */
  lemma DenominatorNonZero(c: Curve, x: nat, y: nat)
    requires c.p > 4 && c.d < c.p - 1 && OnCurve(c, x, y)
    ensures V(c, y) != 0
  {
    CurveSolved(c, x, y);
    if V(c, y) == 0 {
      MulComm(0, Mul(x, x, c.p), c.p);
      MulZero(Mul(x, x, c.p), c.p);
      assert U(c, y) == 0;
      hide OnCurve, Mul;
      AtRemainder(Mul(y, y, c.p), 1, c.p);
      assert Mul(y, y, c.p) == 1;
      Reduced(c.d + 1, c.p);
    }
  }

  lemma AtRemainder(a: nat, b: nat, p: nat)
    requires p > 0 && a < p && b < p && (a - b) % p == 0
    ensures a == b
  {
    EqualRemainders(a - b, 0, p);
  }

  lemma InverseOf(y: nat, p: nat)
    requires Fermat(p) && 0 < y < p
    ensures Mul(Power(y, p - 2, p), y, p) == 1
  {
    hide Mul, Power;
    assert ComesBackToOne(y, p);
    PowerAdd(y, p - 2, 1, p);
    PowerOne(y, p);
  }

  /** Two solutions of v x² = u with the same parity are the same. */
  lemma SameParitySameRoot(p: nat, v: nat, a: nat, b: nat)
    requires Fermat(p) && p % 2 == 1 && 0 < v < p && a < p && b < p && a % 2 == b % 2
    requires Mul(v, Mul(a, a, p), p) == Mul(v, Mul(b, b, p), p)
    ensures a == b
  {
    hide Mul, Power;
    var inverse, a2, b2 := Power(v, p - 2, p), Mul(a, a, p), Mul(b, b, p);
    InverseOf(v, p);
    MulAssoc(inverse, v, a2, p);
    MulAssoc(inverse, v, b2, p);
    MulOne(a2, p);
    MulOne(b2, p);
    EqualSquares(a, b, p);
  }

  lemma SignedTakesItsParity(p: nat, x: nat, x0: nat, v: nat)
    requires Fermat(p) && p % 2 == 1 && 0 < v < p && x < p && x0 < p
    requires Mul(v, Mul(x, x, p), p) == Mul(v, Mul(x0, x0, p), p)
    ensures Signed(p, x, x0 % 2) == Some(x0)
  {
    hide Mul;
    if x == 0 && x0 != 0 {
      ZeroIsTheOnlyRoot(p, v, x0);
    } else {
      assert Signed(p, x, x0 % 2).Some?;
      SignedSolves(p, x, x0 % 2);
      SameParitySameRoot(p, v, Signed(p, x, x0 % 2).value, x0);
    }
  }

  lemma ZeroIsTheOnlyRoot(p: nat, v: nat, x0: nat)
    requires Fermat(p) && 0 < v < p && x0 < p && Mul(v, Mul(0, 0, p), p) == Mul(v, Mul(x0, x0, p), p)
    ensures x0 == 0
  {
    hide Mul;
    MulZero(0, p);
    MulZero(v, p);
    NoZeroDivisors(v, Mul(x0, x0, p), p);
    NoZeroDivisors(x0, x0, p);
  }

  /** Every point of the curve is what its encoding decodes to: neither square-root branch refuses one. */
  lemma DecodeIsComplete(c: Curve, x: nat, y: nat)
    requires Shape(c) && Fermat(c.p) && RootOfMinusOne(c) && c.d != c.p - 1
    requires x < c.p && y < c.p && OnCurve(c, x, y)
    ensures Decode(c, Encode(x, y)) == Some((x, y))
  {
    hide Mul, Root, OnCurve, Pow256, Top, Number, Bytes, U, V, Signed, RootOfMinusOne, Fermat;
    var bytes := Encode(x, y);
    TwoTops();
    JoinBits(y, x % 2, Top());
    NumberOfBytes(y + Top() * (x % 2), 32);
    CurveSolved(c, x, y);
    DenominatorNonZero(c, x, y);
    RootFound(c, U(c, y), V(c, y), x);
    RootSolves(c, U(c, y), V(c, y));
    SignedTakesItsParity(c.p, Root(c, U(c, y), V(c, y)).value, x, V(c, y));
  }

  /** With d = -1 it is not so: (1, 1) is on the curve, and its encoding is refused. */
  lemma MinusOneRefusesAPoint(c: Curve)
    requires Shape(c) && c.d == c.p - 1
    ensures OnCurve(c, 1, 1) && Decode(c, Encode(1, 1)).None?
  {
    hide Power, Pow256, Top, Number, Bytes, Root, U, V, OnCurve;
    OneHasNoRoot(c);
    TwoTops();
    JoinBits(1, 1, Top());
    NumberOfBytes(1 + Top() * 1, 32);
  }

  lemma OneHasNoRoot(c: Curve)
    requires Shape(c) && c.d == c.p - 1
    ensures OnCurve(c, 1, 1) && U(c, 1) == 0 && V(c, 1) == 0 && Root(c, 0, 0) == Some(0)
  {
    hide Power, Candidate, Top;
    var p := c.p;
    MulOne(1, p);
    Same(1 + c.d, 0, 1, p);
    MulZero(0, p);
    ZeroCandidate(p);
  }

  lemma ZeroCandidate(p: nat)
    requires p > 4
    ensures Candidate(p, 0, 0) == 0
  {
    hide Power, Mul;
    var v3 := Mul(Mul(0, 0, p), 0, p);
    var power := Power(Mul(0, Mul(Mul(v3, v3, p), 0, p), p), (p - 5) / 8, p);
    MulComm(0, v3, p);
    MulZero(v3, p);
    MulComm(0, power, p);
    MulZero(power, p);
  }

  lemma RootFound(c: Curve, u: nat, v: nat, x: nat)
    requires Fermat(c.p) && c.p % 8 == 5 && c.i < c.p && 0 < v < c.p && x < c.p && u == Mul(v, Mul(x, x, c.p), c.p)
    ensures Root(c, u, v).Some?
  {
    hide Mul, Candidate, Power;
    CandidateNearlySolves(c.p, u, v, x);
  }
}
