/** Correct rounding, said of a result alone: of all numbers with at most so many digits it is the nearest. */
module BestDecimals {
  import opened Positional
  import opened Decimal
  import opened AddSubMul
  import opened Division
  import opened WholeNumbers
  import opened Comparison

  /** Counted in units of 10^g, z is no further from num / den * 10^e than w is, and of two equally far the larger. */
  predicate NoNearer(w: Dec, z: Dec, num: int, den: nat, e: int, g: int)
    requires g <= e && g <= z.exp && g <= w.exp
  {
    var v, a, b := num * Pow(10, e - g), Scaled(z, g), Scaled(w, g);
    && Dist(a * den, v) <= Dist(b * den, v)
    && (Dist(a * den, v) == Dist(b * den, v) ==> Abs(b) <= Abs(a))
  }

  /** z is num / den * 10^e as well as d digits can say it. */
  ghost predicate Closest(z: Dec, num: int, den: nat, e: int, d: nat)
  {
    && Canonical(z) && Len10(z.coeff) <= d
    && forall w: Dec, g: int :: Len10(w.coeff) <= d && g <= e && g <= z.exp && g <= w.exp ==> NoNearer(w, z, num, den, e, g)
  }

  // ---- Units ---------------------------------------------------------------------------------

  lemma DistScale(a: int, b: int, m: nat)
    ensures Dist(a * m, b * m) == Dist(a, b) * m
  {
    MulDistrib(a, b, m);
    MulDistrib(b, a, m);
    if a < b { MulLe(a, b, m); } else { MulLe(b, a, m); }
  }

  lemma AbsScale(a: int, m: nat)
    ensures Abs(a * m) == Abs(a) * m
  {
    MulLe(0, Abs(a), m);
    MulDistrib(0, a, m);
  }

  lemma LeScale(a: int, b: int, m: nat)
    requires m > 0
    ensures a * m <= b * m <==> a <= b
    ensures a * m == b * m <==> a == b
  {
    if a < b { MulLt(a, b, m); } else if b < a { MulLt(b, a, m); }
  }

  /** The unit counted in does not matter. */
  lemma NearerInUnits(w: Dec, z: Dec, num: int, den: nat, e: int, g: int, h: int)
    requires h <= g <= e && g <= z.exp && g <= w.exp
    ensures NoNearer(w, z, num, den, e, h) <==> NoNearer(w, z, num, den, e, g)
  {
    hide Pow, Scaled, Dist, Abs;
    var m := Pow(10, g - h);
    PowPositive(10, g - h);
    PowAdd(10, e - g, g - h);
    var v, a, b := num * Pow(10, e - g), Scaled(z, g), Scaled(w, g);
    ScaledDown(z, g, h);
    ScaledDown(w, g, h);
    assert num * Pow(10, e - h) == v * m by { MulAssoc(num, Pow(10, e - g), m); }
    ShuffleDen(a, m, den);
    ShuffleDen(b, m, den);
    DistScale(a * den, v, m);
    DistScale(b * den, v, m);
    LeScale(Dist(a * den, v), Dist(b * den, v), m);
    AbsScale(a, m);
    AbsScale(b, m);
    LeScale(Abs(b), Abs(a), m);
  }

  lemma ShuffleDen(a: int, m: nat, den: nat)
    ensures a * m * den == a * den * m
  {
    MulAssoc(a, m, den);
    MulAssoc(a, den, m);
    assert m * den == den * m;
  }

  /** Writing the value in a smaller unit. */
  lemma ClosestInUnits(z: Dec, num: int, den: nat, e: int, j: nat, d: nat)
    requires Closest(z, num * Pow(10, j), den, e - j, d)
    ensures Closest(z, num, den, e, d)
  {
    hide NoNearer, Pow, Len10;
    forall w: Dec, g: int | Len10(w.coeff) <= d && g <= e && g <= z.exp && g <= w.exp
      ensures NoNearer(w, z, num, den, e, g)
    {
      var h := if g <= e - j then g else e - j;
      assert NoNearer(w, z, num * Pow(10, j), den, e - j, h);
      SameValue(w, z, num, den, e, j, h);
      NearerInUnits(w, z, num, den, e, g, h);
    }
  }

  lemma SameValue(w: Dec, z: Dec, num: int, den: nat, e: int, j: nat, h: int)
    requires h <= e - j && h <= z.exp && h <= w.exp
    ensures NoNearer(w, z, num * Pow(10, j), den, e - j, h) <==> NoNearer(w, z, num, den, e, h)
  {
    hide Pow, Scaled, Dist;
    PowAdd(10, j, e - j - h);
    MulAssoc(num, Pow(10, j), Pow(10, e - j - h));
    assert j + (e - j - h) == e - h;
  }

  // ---- Rounding ------------------------------------------------------------------------------

  lemma NormScaled(neg: bool, c: nat, e: int, g: int)
    requires g <= e
    ensures g <= Norm(neg, c, e).exp || c == 0
    ensures c > 0 ==> Scaled(Norm(neg, c, e), g) == Sgn(neg, c * Pow(10, e - g))
  {
    hide Norm, Pow;
    NormLen(neg, c, e);
    if c > 0 {
      var n := Norm(neg, c, e);
      PowAdd(10, n.exp - e, e - g);
      MulAssoc(n.coeff, Pow(10, n.exp - e), Pow(10, e - g));
    }
  }

  /** The rounded quotient num / den, in the decade that leaves d digits, is the nearest, whatever the sign. */
  lemma BestIsClosest(neg: bool, num: nat, den: nat, u: int, d: nat, k: nat, q: nat)
    requires den > 0 && d >= 1 && q > 0 && Pow(10, d - 1) * Pow(10, k) * den <= num && Nearest(num, den * Pow(10, k), q)
    requires Len10(Norm(neg, q, u + k).coeff) <= d
    ensures Closest(Norm(neg, q, u + k), Sgn(neg, num), den, u, d)
  {
    hide NoNearer, Pow, Len10, Norm, Nearest;
    var z := Norm(neg, q, u + k);
    forall w: Dec, g: int | Len10(w.coeff) <= d && g <= u && g <= z.exp && g <= w.exp
      ensures NoNearer(w, z, Sgn(neg, num), den, u, g)
    {
      BestAgainst(neg, num, den, u, d, k, q, w, g);
    }
  }

  lemma BestAgainst(neg: bool, num: nat, den: nat, u: int, d: nat, k: nat, q: nat, w: Dec, g: int)
    requires den > 0 && d >= 1 && q > 0 && Pow(10, d - 1) * Pow(10, k) * den <= num && Nearest(num, den * Pow(10, k), q)
    requires Len10(w.coeff) <= d && g <= u && g <= Norm(neg, q, u + k).exp && g <= w.exp
    ensures NoNearer(w, Norm(neg, q, u + k), Sgn(neg, num), den, u, g)
  {
    hide Pow, Len10, Norm, Nearest, Dist, Scaled;
    var j := u - g;
    var m, n := Pow(10, j), num * Pow(10, j);
    PowPositive(10, j);
    PowAdd(10, k, j);
    PowAdd(10, d - 1, k);
    MulLe(0, num, m);
    assert Pow(10, d - 1) * Pow(10, k + j) * den <= n by {
      var p := Pow(10, d - 1) * Pow(10, k);
      MulAssoc(Pow(10, d - 1), Pow(10, k), m);
      ShuffleDen(p, m, den);
      MulLe(p * den, num, m);
    }
    assert Nearest(n, den * Pow(10, k + j), q) by {
      NearestScale(num, den * Pow(10, k), q, m);
      MulAssoc(den, Pow(10, k), m);
    }
    var a, x := q * Pow(10, k + j), w.coeff * Pow(10, w.exp - g);
    BestApproximation(n, den, d, k + j, q, w.coeff, w.exp - g);
    LenZero();
    BestApproximation(n, den, d, k + j, q, 0, 0);
    NormScaled(neg, q, u + k, g);
    assert u + k - g == k + j;
    PowPositive(10, w.exp - g);
    PowPositive(10, k + j);
    MulLe(0, w.coeff, Pow(10, w.exp - g));
    MulLe(0, q, Pow(10, k + j));
    SignedScaled(w, g);
    SignedNumber(neg, num, m);
    SidesAgree(neg, w.neg, a, x, den, n);
  }

  lemma LenZero()
    ensures Len10(0) == 1
  {
  }

  lemma SignedScaled(w: Dec, g: int)
    requires g <= w.exp
    ensures Scaled(w, g) == Sgn(w.neg, w.coeff * Pow(10, w.exp - g))
  {
  }

  lemma SignedNumber(neg: bool, num: int, m: int)
    ensures Sgn(neg, num) * m == Sgn(neg, num * m)
  {
    MulDistrib(0, num, m);
  }

  /** What holds of magnitudes holds of numbers, a number of the other sign being further away than 0. */
  lemma SidesAgree(s: bool, t: bool, a: nat, x: nat, den: nat, n: nat)
    requires Dist(a * den, n) <= Dist(x * den, n) && (Dist(a * den, n) == Dist(x * den, n) ==> x <= a)
    requires Dist(a * den, n) <= Dist(0 * 1 * den, n) && den > 0
    ensures var p, q, v := Sgn(s, a), Sgn(t, x), Sgn(s, n);
            && Dist(p * den, v) <= Dist(q * den, v)
            && (Dist(p * den, v) == Dist(q * den, v) ==> Abs(q) <= Abs(p))
  {
    MulDistrib(0, a, den);
    MulDistrib(0, x, den);
    MulLe(0, x, den);
    MulLe(0, a, den);
    if x > 0 { MulPositive(x, den); }
  }

  /** A number that needs no rounding. */
  lemma ExactIsClosest(neg: bool, c: nat, e: int, d: nat)
    requires Len10(c) <= d && d >= 1
    ensures Closest(Norm(neg, c, e), Sgn(neg, c), 1, e, d)
  {
    hide NoNearer, Pow, Len10, Norm;
    NormLen(neg, c, e);
    var z := Norm(neg, c, e);
    forall w: Dec, g: int | Len10(w.coeff) <= d && g <= e && g <= z.exp && g <= w.exp
      ensures NoNearer(w, z, Sgn(neg, c), 1, e, g)
    {
      NormScaled(neg, c, e, g);
      ExactAgainst(w, z, Sgn(neg, c), e, g) by {
        SignedNumber(neg, c, Pow(10, e - g));
        if c == 0 { ScaledZero(z, g); }
      }
    }
  }

  lemma ScaledZero(z: Dec, g: int)
    requires z.coeff == 0 && g <= z.exp
    ensures Scaled(z, g) == 0
  {
  }

  lemma ExactAgainst(w: Dec, z: Dec, v: int, e: int, g: int)
    requires g <= e && g <= z.exp && g <= w.exp && Scaled(z, g) == v * Pow(10, e - g)
    ensures NoNearer(w, z, v, 1, e, g)
  {
    hide Scaled, Pow;
  }

  lemma RoundedIsClosest(neg: bool, c: nat, e: int, d: nat)
    requires d >= 1
    ensures Closest(Rounded(neg, c, e, d), Sgn(neg, c), 1, e, d)
  {
    hide Len10, Norm, HalfUp, Nearest, Closest, Pow;
    if Len10(c) <= d {
      RoundedFits(neg, c, e, d);
      ExactIsClosest(neg, c, e, d);
    } else {
      var k := Excess(c, d);
      ExcessUnit(c, d);
      HalfUpIsNearest(c, k);
      RoundedLen(neg, c, e, d);
      NotZero(c, d);
      assert 1 * Pow(10, k) == Pow(10, k);
      BestIsClosest(neg, c, 1, e, d, k, HalfUp(c, k));
    }
  }

  lemma NotZero(c: nat, d: nat)
    requires d >= 1 && Len10(c) > d
    ensures HalfUp(c, Excess(c, d)) > 0
  {
    hide Len10;
    var k := Excess(c, d);
    ExcessUnit(c, d);
    PowPositive(10, d - 1);
    PowPositive(10, k);
    MulLe(1, Pow(10, d - 1), Pow(10, k));
    HalfUpIsNearest(c, k);
    hide HalfUp, Pow;
    if HalfUp(c, k) == 0 { assert false by { NoneNearest(c, Pow(10, k)); } }
  }

  lemma NoneNearest(c: nat, p: nat)
    requires Nearest(c, p, 0) && p > 0
    ensures c < p
  {
  }

  /** A rounded sum or difference. */
  lemma RoundedIntIsClosest(v: int, e: int, d: nat)
    requires d >= 1
    ensures Closest(RoundedInt(v, e, d), v, 1, e, d)
  {
    hide Closest, Rounded;
    RoundedIsClosest(v < 0, Abs(v), e, d);
  }

  lemma QuotientIsClosest(x: Dec, y: Dec, d: nat)
    requires y.coeff > 0 && d >= 1
    ensures Closest(Quotient(x, y, d), Sgn(x.neg != y.neg, x.coeff), y.coeff, x.exp - y.exp, d)
  {
    hide Len10, Norm, HalfUp, Nearest, Closest, Pow, Raw, Rounded, Quotient, Scale;
    var neg, s, u := x.neg != y.neg, Scale(y, d), x.exp - y.exp - Scale(y, d);
    var t, num := Raw(x, y, d), x.coeff * Pow(10, s);
    PowPositive(10, s);
    MulLe(0, x.coeff, Pow(10, s));
    QuotientIs(x, y, d);
    if x.coeff == 0 {
      ZeroOver(x, y, d);
      ZeroIsClosest(y.coeff, u, d);
      SignedNumber(neg, 0, Pow(10, s));
    } else {
      RawIsLong(x, y, d);
      var k := Excess(t, d);
      RawFloor(x, y, d);
      RoundTruncatedQuotient(num, y.coeff, t, d);
      NotZero(t, d);
      RoundedLen(neg, t, u, d);
      RoundedAs(neg, t, u, d);
      BestIsClosest(neg, num, y.coeff, u, d, k, HalfUp(t, k));
      SignedNumber(neg, x.coeff, Pow(10, s));
    }
    ClosestInUnits(Quotient(x, y, d), Sgn(neg, x.coeff), y.coeff, x.exp - y.exp, s, d);
  }

  lemma QuotientIs(x: Dec, y: Dec, d: nat)
    requires y.coeff > 0
    ensures Quotient(x, y, d) == Rounded(x.neg != y.neg, Raw(x, y, d), x.exp - y.exp - Scale(y, d), d)
  {
  }

  lemma RoundedAs(neg: bool, c: nat, e: int, d: nat)
    ensures Rounded(neg, c, e, d) == Norm(neg, HalfUp(c, Excess(c, d)), e + Excess(c, d))
  {
  }

  lemma RawFloor(x: Dec, y: Dec, d: nat)
    requires y.coeff > 0
    ensures Raw(x, y, d) * y.coeff <= x.coeff * Pow(10, Scale(y, d)) < (Raw(x, y, d) + 1) * y.coeff
  {
    hide Pow;
    PowPositive(10, Scale(y, d));
    MulLe(0, x.coeff, Pow(10, Scale(y, d)));
    FloorOf(x.coeff * Pow(10, Scale(y, d)), y.coeff);
  }

  lemma ZeroOver(x: Dec, y: Dec, d: nat)
    requires x.coeff == 0 && y.coeff > 0 && d >= 1
    ensures Quotient(x, y, d) == ZERO
  {
    RoundedZero(x.neg != y.neg, x.exp - y.exp - Scale(y, d), d);
  }

  lemma ZeroIsClosest(den: nat, e: int, d: nat)
    requires den > 0 && d >= 1
    ensures Closest(ZERO, 0, den, e, d)
  {
    hide Pow, Scaled;
    forall w: Dec, g: int | Len10(w.coeff) <= d && g <= e && g <= ZERO.exp && g <= w.exp
      ensures NoNearer(w, ZERO, 0, den, e, g)
    {
      ScaledZero(ZERO, g);
      var b := Scaled(w, g);
      if b != 0 { MulPositive(Abs(b), den); AbsScale(b, den); }
    }
  }

  /** There is only one nearest number. */
  lemma ClosestIsUnique(y: Dec, z: Dec, num: int, den: nat, e: int, d: nat)
    requires den > 0 && d >= 1 && Closest(y, num, den, e, d) && Closest(z, num, den, e, d)
    ensures y == z
  {
    hide Pow, Scaled, Len10, Norm, Canonical;
    var g := Min(Min(y.exp, z.exp), Min(e, 0));
    assert NoNearer(y, z, num, den, e, g) && NoNearer(z, y, num, den, e, g);
    LenZero();
    ScaledZero(ZERO, g);
    assert NoNearer(ZERO, z, num, den, e, g);
    assert NoNearer(ZERO, y, num, den, e, g);
    SameSide(Scaled(y, g), Scaled(z, g), num * Pow(10, e - g), den);
    CanonicalUnique(y, z, g);
  }

  lemma SameSide(a: int, b: int, v: int, den: nat)
    requires den > 0 && Abs(a) == Abs(b) && Dist(a * den, v) == Dist(b * den, v) && Dist(a * den, v) <= Dist(0 * den, v)
    ensures a == b
  {
    if a != b {
      assert b == -a;
      MulDistrib(0, a, den);
      MulPositive(Abs(a), den);
      AbsScale(a, den);
    }
  }
}
