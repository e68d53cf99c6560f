/** Decimal numbers as mathematics: the values the arithmetic engine computes with,
and what it means to round one to a number of significant digits. */
module Decimal {
  import opened Positional

  /** The number (-1)^neg * coeff * 10^exp. */
  datatype Dec = Dec(neg: bool, coeff: nat, exp: int)

  const ZERO := Dec(false, 0, 0)

  /** One representation per number: no trailing zero in the coefficient, one zero. */
  predicate Canonical(d: Dec)
  {
    if d.coeff == 0 then d == ZERO else d.coeff % 10 != 0
  }

  function Norm(neg: bool, c: nat, e: int): (d: Dec)
    ensures Canonical(d)
  {
    if c == 0 then ZERO
    else if c % 10 == 0 then Norm(neg, c / 10, e + 1)
    else Dec(neg, c, e)
  }

  function FromScaled(v: int, e: int): (d: Dec)
  {
    if v < 0 then Norm(true, -v, e) else Norm(false, v, e)
  }

  /** The value of d counted in units of 10^e. */
  function Scaled(d: Dec, e: int): int
    requires e <= d.exp
  {
    var m := d.coeff * Pow(10, d.exp - e);
    if d.neg then -m else m
  }

  function Min(x: int, y: int): int { if x < y then x else y }

  /** How many decimal digits c is written with. */
  function Len10(c: nat): (n: nat)
    ensures n >= 1
  {
    if c < 10 then 1 else 1 + Len10(c / 10)
  }

  lemma {:induction false} LenBounds(c: nat)
    ensures c < Pow(10, Len10(c))
    ensures c > 0 ==> Pow(10, Len10(c) - 1) <= c
  {
    if c >= 10 {
      LenBounds(c / 10);
      assert c == c / 10 * 10 + c % 10;
      assert Pow(10, Len10(c)) == 10 * Pow(10, Len10(c / 10));
    } else {
      assert Pow(10, 1) == 10 * Pow(10, 0);
    }
  }

  lemma LenUnique(c: nat, n: nat)
    requires n >= 1 && Pow(10, n - 1) <= c < Pow(10, n)
    ensures Len10(c) == n
  {
    LenBounds(c);
    PowPositive(10, n - 1);
    if Len10(c) < n { PowMonotone(10, Len10(c), n - 1); }
    if Len10(c) > n { PowMonotone(10, n, Len10(c) - 1); }
  }

  lemma LenAtMost(c: nat, n: nat)
    requires n >= 1 && c < Pow(10, n)
    ensures Len10(c) <= n
  {
    LenBounds(c);
    PowPositive(10, n);
    if Len10(c) > n { PowMonotone(10, n, Len10(c) - 1); }
  }

  lemma LenScale(c: nat, j: nat)
    requires c > 0
    ensures Len10(c * Pow(10, j)) == Len10(c) + j
  {
    LenBounds(c);
    PowPositive(10, j);
    MulLe(Pow(10, Len10(c) - 1), c, Pow(10, j));
    MulLt(c, Pow(10, Len10(c)), Pow(10, j));
    PowAdd(10, Len10(c) - 1, j);
    PowAdd(10, Len10(c), j);
    LenUnique(c * Pow(10, j), Len10(c) + j);
  }

  /** A digit string without leading zero is as long as its value's notation. */
  lemma LenOfDigits(s: seq<int>)
    requires |s| > 0 && Digits(10, s) && (|s| == 1 || s[0] != 0)
    ensures Val(10, s) >= 0 && Len10(Val(10, s)) == |s|
  {
    ValBound(10, s);
    if s[0] != 0 {
      ValLead(10, s);
      LenUnique(Val(10, s), |s|);
    } else {
      assert s == [0];
      ValSingle(10, 0);
    }
  }

  lemma {:induction false} NormScale(neg: bool, c: nat, e: int, k: nat)
    ensures Norm(neg, c * Pow(10, k), e) == Norm(neg, c, e + k)
    decreases k
  {
    if k > 0 && c > 0 {
      var c' := c * Pow(10, k - 1);
      assert c * Pow(10, k) == c' * 10 by { MulAssoc(c, Pow(10, k - 1), 10); }
      PowPositive(10, k - 1);
      MulLe(1, c, Pow(10, k - 1));
      NormScale(neg, c, e + 1, k - 1);
    }
  }

  lemma {:induction false} NormLen(neg: bool, c: nat, e: int)
    ensures Len10(Norm(neg, c, e).coeff) <= Len10(c)
    ensures Norm(neg, c, e).coeff == 0 <==> c == 0
    ensures c > 0 ==> Norm(neg, c, e).neg == neg && Norm(neg, c, e).exp >= e
    ensures c > 0 ==> Norm(neg, c, e).coeff * Pow(10, Norm(neg, c, e).exp - e) == c
  {
    if c > 0 && c % 10 == 0 {
      NormLen(neg, c / 10, e + 1);
      var d := Norm(neg, c / 10, e + 1);
      assert Pow(10, d.exp - e) == 10 * Pow(10, d.exp - e - 1);
      MulAssoc(d.coeff, Pow(10, d.exp - e - 1), 10);
    }
  }

  lemma NormOfCanonical(d: Dec)
    requires Canonical(d)
    ensures Norm(d.neg, d.coeff, d.exp) == d
  {
  }

  /** Canonical numbers of equal value are the same number. */
  lemma CanonicalUnique(a: Dec, b: Dec, e: int)
    requires Canonical(a) && Canonical(b) && e <= a.exp && e <= b.exp
    requires Scaled(a, e) == Scaled(b, e)
    ensures a == b
  {
    hide Norm;
    PowPositive(10, a.exp - e);
    PowPositive(10, b.exp - e);
    if a.coeff > 0 { MulLe(1, a.coeff, Pow(10, a.exp - e)); }
    if b.coeff > 0 { MulLe(1, b.coeff, Pow(10, b.exp - e)); }
    NormScale(a.neg, a.coeff, e, a.exp - e);
    NormScale(b.neg, b.coeff, e, b.exp - e);
    NormOfCanonical(a);
    NormOfCanonical(b);
  }

  /** c without its n lowest digits. */
  function DropDigits(c: nat, n: nat): nat
  {
    PowPositive(10, n);
    c / Pow(10, n)
  }

  // ---- Rounding --------------------------------------------------------

  /** q is num/den rounded half-up to an integer. */
  ghost predicate Nearest(num: nat, den: nat, q: nat)
  {
    2 * (q * den) <= 2 * num + den < 2 * (q * den) + 2 * den
  }

  function HalfUp(c: nat, k: nat): nat
  {
    if k == 0 then c else (PowPositive(10, k); (c + 5 * Pow(10, k - 1)) / Pow(10, k))
  }

  /** How many low digits rounding c to d significant digits drops. */
  function Excess(c: nat, d: nat): nat
  {
    if Len10(c) > d then Len10(c) - d else 0
  }

  /** (-1)^neg * c * 10^e rounded half-up to d significant digits. */
  function Rounded(neg: bool, c: nat, e: int, d: nat): (r: Dec)
    ensures Canonical(r)
  {
    Norm(neg, HalfUp(c, Excess(c, d)), e + Excess(c, d))
  }

  lemma NearestUnique(num: nat, den: nat, p: nat, q: nat)
    requires den > 0 && Nearest(num, den, p) && Nearest(num, den, q)
    ensures p == q
  {
    MulDistrib(p, 1, den);
    MulDistrib(q, 1, den);
    if p < q { MulLe(p + 1, q, den); }
    if q < p { MulLe(q + 1, p, den); }
  }

  lemma HalfUpIsNearest(c: nat, k: nat)
    ensures Nearest(c, Pow(10, k), HalfUp(c, k))
  {
    hide Nearest;
    if k > 0 {
      PowPositive(10, k);
      assert Pow(10, k) == 2 * (5 * Pow(10, k - 1));
      HalfDivision(c, 5 * Pow(10, k - 1), Pow(10, k));
    } else {
      WholeIsNearest(c);
    }
  }

  lemma WholeIsNearest(c: nat)
    ensures Nearest(c, 1, c)
  {
  }

  lemma HalfDivision(c: nat, h: nat, p: nat)
    requires p > 0 && p == 2 * h
    ensures Nearest(c, p, (c + h) / p)
  {
    var n := c + h;
    var m := n / p * p;
    assert n == m + n % p && 0 <= n % p < p;
    assert m <= n < m + p;
  }

  /** What a digit string needs: the kept digits plus one if the first dropped digit is 5 or more. */
  lemma HalfUpByDigit(c: nat, k: nat)
    requires k > 0
    ensures Pow(10, k) > 0 && Pow(10, k - 1) > 0
    ensures HalfUp(c, k) == c / Pow(10, k) + (if c / Pow(10, k - 1) % 10 >= 5 then 1 else 0)
  {
    PowPositive(10, k);
    PowPositive(10, k - 1);
    var p, p1 := Pow(10, k), Pow(10, k - 1);
    var t, r := c / p1, c % p1;
    assert c == t * p1 + r;
    var q, u := t / 10, t % 10;
    assert t * p1 == q * p + u * p1 by {
      MulDistrib(q * 10, u, p1);
      MulAssoc(q, 10, p1);
    }
    MulLe(u, 9, p1);
    MulLe(0, u, p1);
    DivModUnique(c, p, q, u * p1 + r);
    if u >= 5 {
      MulLe(5, u, p1);
      MulDistrib(q, 1, p);
      DivModUnique(c + 5 * p1, p, q + 1, u * p1 + r - 5 * p1);
    } else {
      MulLe(u, 4, p1);
      DivModUnique(c + 5 * p1, p, q, u * p1 + r + 5 * p1);
    }
  }

  /** Writing the coefficient with trailing zeros does not change what it rounds to. */
  lemma RoundedScale(neg: bool, c: nat, e: int, j: nat, d: nat)
    requires d >= 1
    ensures Rounded(neg, c * Pow(10, j), e, d) == Rounded(neg, c, e + j, d)
  {
    hide HalfUp, Norm, Len10;
    if c == 0 {
      RoundedZero(neg, e, d);
      RoundedZero(neg, e + j, d);
    } else if j == 0 {
      assert Pow(10, 0) == 1;
    } else {
      LenScale(c, j);
      if Len10(c) > d {
        RoundedScaleLong(neg, c, c * Pow(10, j), e, j, d);
      } else {
        RoundedScaleShort(neg, c, e, j, d);
        RoundedFits(neg, c, e + j, d);
      }
    }
  }

  lemma RoundedZero(neg: bool, e: int, d: nat)
    requires d >= 1
    ensures Rounded(neg, 0, e, d) == ZERO
  {
  }

  lemma RoundedScaleLong(neg: bool, c: nat, c': nat, e: int, j: nat, d: nat)
    requires c' == c * Pow(10, j) && Len10(c) > d && Len10(c') == Len10(c) + j
    ensures Rounded(neg, c', e, d) == Rounded(neg, c, e + j, d)
  {
    hide HalfUp, Norm, Len10;
    HalfUpScale(c, Excess(c, d), j);
  }

  lemma RoundedScaleShort(neg: bool, c: nat, e: int, j: nat, d: nat)
    requires c > 0 && Len10(c) <= d && Len10(c * Pow(10, j)) == Len10(c) + j
    ensures Rounded(neg, c * Pow(10, j), e, d) == Norm(neg, c, e + j)
  {
    hide HalfUp, Norm, Len10;
    var y := Excess(c * Pow(10, j), d);
    var c' := c * Pow(10, j - y);
    assert c' * Pow(10, y) == c * Pow(10, j) by {
      PowAdd(10, j - y, y);
      MulAssoc(c, Pow(10, j - y), Pow(10, y));
    }
    HalfUpExact(c', y);
    NormScale(neg, c, e + y, j - y);
  }

  lemma HalfUpExact(q: nat, k: nat)
    ensures HalfUp(q * Pow(10, k), k) == q
  {
    hide HalfUp;
    PowPositive(10, k);
    HalfUpIsNearest(q * Pow(10, k), k);
    NearestUnique(q * Pow(10, k), Pow(10, k), q, HalfUp(q * Pow(10, k), k));
  }

  lemma HalfUpScale(c: nat, k: nat, j: nat)
    ensures HalfUp(c * Pow(10, j), k + j) == HalfUp(c, k)
  {
    hide HalfUp, Nearest;
    var q := HalfUp(c, k);
    var p, pj := Pow(10, k), Pow(10, j);
    PowAdd(10, k, j);
    PowPositive(10, j);
    PowPositive(10, k + j);
    HalfUpIsNearest(c, k);
    NearestScale(c, p, q, pj);
    HalfUpIsNearest(c * pj, k + j);
    NearestUnique(c * pj, p * pj, q, HalfUp(c * pj, k + j));
  }

  lemma NearestScale(num: nat, den: nat, q: nat, m: nat)
    requires m > 0 && Nearest(num, den, q)
    ensures Nearest(num * m, den * m, q)
  {
    MulAssoc(q, den, m);
    var lo, mid, hi := 2 * (q * den), 2 * num + den, 2 * (q * den) + 2 * den;
    MulLe(lo, mid, m);
    MulLt(mid, hi, m);
    assert lo * m == 2 * (q * (den * m)) by { MulAssoc(2, q * den, m); }
    assert mid * m == 2 * (num * m) + den * m by { MulDistrib(2 * num, den, m); MulAssoc(2, num, m); }
    assert hi * m == lo * m + 2 * (den * m) by { MulDistrib(lo, 2 * den, m); MulAssoc(2, den, m); }
  }

  lemma RoundedFits(neg: bool, c: nat, e: int, d: nat)
    requires Len10(c) <= d
    ensures Rounded(neg, c, e, d) == Norm(neg, c, e)
  {
  }

  lemma RoundedIsCanonicalFixpoint(x: Dec, d: nat)
    requires Canonical(x) && Len10(x.coeff) <= d
    ensures Rounded(x.neg, x.coeff, x.exp, d) == x
  {
    NormOfCanonical(x);
  }

  /** The unit rounding counts in leaves exactly d digits before it. */
  lemma ExcessUnit(c: nat, d: nat)
    requires d >= 1 && Len10(c) > d
    ensures Pow(10, d - 1) * Pow(10, Excess(c, d)) <= c < Pow(10, d) * Pow(10, Excess(c, d))
  {
    LenBounds(c);
    PowAdd(10, d - 1, Excess(c, d));
    PowAdd(10, d, Excess(c, d));
  }

  /** Rounding leaves at most d digits (a full carry leaves 10^d, a single digit). */
  lemma RoundedLen(neg: bool, c: nat, e: int, d: nat)
    requires d >= 1
    ensures Len10(Rounded(neg, c, e, d).coeff) <= d
  {
    var k := Excess(c, d);
    var q := HalfUp(c, k);
    if k > 0 {
      ExcessUnit(c, d);
      HalfUpIsNearest(c, k);
      PowPositive(10, k);
      assert q * Pow(10, k) < Pow(10, d) * Pow(10, k) + Pow(10, k);
      MulDistrib(Pow(10, d), 1, Pow(10, k));
      MulCancelLt(q, Pow(10, d) + 1, Pow(10, k));
      if q == Pow(10, d) {
        NormScale(neg, 1, e + k, d);
      } else {
        LenAtMost(q, d);
      }
    }
    if q != Pow(10, d) || k == 0 { NormLen(neg, q, e + k); }
  }

  /** Correct rounding, said without an algorithm.  num/den lies in the decade whose
  d-digit unit is 10^k, and q is num/den in that unit, half-up.  Then no number x * 10^f
  of at most d digits lies closer to num/den, and of two equally close ones q * 10^k is the larger. */
  lemma BestApproximation(num: nat, den: nat, d: nat, k: nat, q: nat, x: nat, f: nat)
    requires den > 0 && d >= 1
    requires Pow(10, d - 1) * Pow(10, k) * den <= num
    requires Nearest(num, den * Pow(10, k), q)
    requires Len10(x) <= d
    ensures Dist(q * Pow(10, k) * den, num) <= Dist(x * Pow(10, f) * den, num)
    ensures Dist(q * Pow(10, k) * den, num) == Dist(x * Pow(10, f) * den, num)
        ==> x * Pow(10, f) <= q * Pow(10, k)
  {
    PowPositive(10, k);
    var u := Pow(10, k) * den;
    MulLe(1, Pow(10, k), den);
    assert Nearest(num, u, q);
    if f >= k {
      PowAdd(10, f - k, k);
      MulAssoc(x, Pow(10, f - k), Pow(10, k));
      MultiplesApart(num, den, Pow(10, k), q, x * Pow(10, f - k));
    } else {
      LenBounds(x);
      PowMonotone(10, Len10(x), d);
      PowPositive(10, f);
      MulLt(x, Pow(10, d), Pow(10, f));
      PowAdd(10, d, f);
      PowAdd(10, d - 1, k);
      PowMonotone(10, d + f, d - 1 + k);
      var y, z := x * Pow(10, f), Pow(10, d - 1) * Pow(10, k);
      assert y < z;
      MulLt(y, z, den);
      MultiplesApart(num, den, Pow(10, k), q, Pow(10, d - 1));
      assert Dist(z * den, num) < Dist(y * den, num);
    }
  }

  function Dist(x: int, y: int): nat { if x < y then y - x else x - y }

  // Among the multiples of p, q * p is nearest to num/den, the larger one on a tie.
  lemma MultiplesApart(num: nat, den: nat, p: nat, q: nat, z: nat)
    requires den > 0 && p > 0 && Nearest(num, den * p, q)
    ensures Dist(q * p * den, num) <= Dist(z * p * den, num)
    ensures Dist(q * p * den, num) == Dist(z * p * den, num) ==> z * p <= q * p
  {
    var u := den * p;
    assert q * p * den == q * u && z * p * den == z * u by { MulAssoc(q, p, den); MulAssoc(z, p, den); }
    MulLe(1, p, den);
    if z <= q { MulLe(z, q, p); }
    MultiplesApartUnit(num, u, q, z);
  }

  lemma MultiplesApartUnit(num: nat, u: nat, q: nat, z: nat)
    requires u > 0 && Nearest(num, u, q)
    ensures Dist(q * u, num) <= Dist(z * u, num)
    ensures Dist(q * u, num) == Dist(z * u, num) ==> z <= q
  {
    var m, n := q * u, z * u;
    if z < q {
      MulLe(z + 1, q, u);
      assert n + u <= m by { MulDistrib(z, 1, u); }
    } else if z > q {
      MulLe(q + 1, z, u);
      assert m + u <= n by { MulDistrib(q, 1, u); }
    }
  }

  /** Rounding to d digits is correct rounding: every d-digit number is at least as far from c * 10^e. */
  lemma RoundedIsBest(c: nat, d: nat, x: nat, f: nat)
    requires d >= 1 && Len10(x) <= d
    ensures var k := Excess(c, d);
            Dist(HalfUp(c, k) * Pow(10, k), c) <= Dist(x * Pow(10, f), c)
            && (Dist(HalfUp(c, k) * Pow(10, k), c) == Dist(x * Pow(10, f), c)
                ==> x * Pow(10, f) <= HalfUp(c, k) * Pow(10, k))
  {
    hide Nearest, Len10;
    var k := Excess(c, d);
    if k > 0 {
      hide HalfUp, Dist;
      ExcessUnit(c, d);
      HalfUpIsNearest(c, k);
      BestApproximation(c, 1, d, k, HalfUp(c, k), x, f);
    } else {
      assert Pow(10, 0) == 1;
    }
  }

  /** Rounding a quotient's integer part is rounding the quotient, once a dropped digit remains. */
  lemma RoundTruncatedQuotient(num: nat, den: nat, t: nat, d: nat)
    requires den > 0 && d >= 1 && t * den <= num < (t + 1) * den && Len10(t) > d
    ensures var k := Excess(t, d);
            Nearest(num, den * Pow(10, k), HalfUp(t, k))
            && Pow(10, d - 1) * Pow(10, k) * den <= num < Pow(10, d) * Pow(10, k) * den
  {
    hide HalfUp, Nearest, Len10;
    var k := Excess(t, d);
    HalfUpIsNearest(t, k);
    assert Pow(10, k) == 2 * (5 * Pow(10, k - 1));
    NearestOfFloor(num, den, t, 5 * Pow(10, k - 1), Pow(10, k), HalfUp(t, k));
    ExcessUnit(t, d);
    FloorBounds(num, den, t, Pow(10, d - 1) * Pow(10, k), Pow(10, d) * Pow(10, k));
  }

  lemma FloorBounds(num: nat, den: nat, t: nat, lo: nat, hi: nat)
    requires den > 0 && t * den <= num < (t + 1) * den && lo <= t < hi
    ensures lo * den <= num < hi * den
  {
    MulLe(lo, t, den);
    MulLe(t + 1, hi, den);
  }

  // Both sides of the upper bound on t are even, so the fraction dropped from num/den cannot cross it.
  lemma NearestOfFloor(num: nat, den: nat, t: nat, h: nat, p: nat, q: nat)
    requires den > 0 && p == 2 * h && t * den <= num < (t + 1) * den && Nearest(t, p, q)
    ensures Nearest(num, den * p, q)
  {
    var m := q * p;
    assert m <= t + h && t + 1 + h <= m + p;
    assert q * (den * p) == m * den by { MulAssoc(q, p, den); }
    MulLe(m, t + h, den);
    MulLe(t + 1 + h, m + p, den);
    MulDistrib(t, h, den);
    MulDistrib(t + 1, h, den);
    MulDistrib(m, p, den);
    assert p * den == 2 * (h * den) by { MulAssoc(2, h, den); }
  }
}
