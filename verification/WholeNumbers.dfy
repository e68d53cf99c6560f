/** The engine on whole numbers: exact as long as the result fits NUMERIC DIGITS. */
module WholeNumbers {
  import opened Positional
  import opened Decimal
  import opened AddSubMul
  import opened Division
  import opened ArithOps
  import opened Comparison

  function Abs(v: int): nat { if v < 0 then -v else v }

  /** Division and remainder of C: the quotient truncated toward zero. */
  function TruncDiv(m: int, n: int): int
    requires n != 0
  {
    Sgn((m < 0) != (n < 0), Abs(m) / Abs(n))
  }

  function TruncMod(m: int, n: int): int
    requires n != 0
  {
    Sgn(m < 0, Abs(m) % Abs(n))
  }

  function Int(v: int): Dec { FromScaled(v, 0) }

  ghost predicate IsWhole(x: Dec) { Canonical(x) && x.exp >= 0 }

  function IntOf(x: Dec): int
    requires x.exp >= 0
  {
    Scaled(x, 0)
  }

  lemma WholeValue(neg: bool, c: nat, e: nat)
    ensures IsWhole(Norm(neg, c, e)) && IntOf(Norm(neg, c, e)) == Sgn(neg, c * Pow(10, e))
  {
    hide Norm, Pow;
    NormLen(neg, c, e);
    var n := Norm(neg, c, e);
    if c > 0 {
      PowAdd(10, n.exp - e, e);
      MulAssoc(n.coeff, Pow(10, n.exp - e), Pow(10, e));
    }
  }

  lemma IntOfInt(v: int)
    ensures IsWhole(Int(v)) && IntOf(Int(v)) == v
  {
    hide Norm;
    PowZero();
    WholeValue(v < 0, Abs(v), 0);
  }

  lemma IntIsUnique(x: Dec)
    requires IsWhole(x)
    ensures x == Int(IntOf(x))
  {
    hide Norm, Scaled;
    IntOfInt(IntOf(x));
    CanonicalUnique(x, Int(IntOf(x)), 0);
  }

  lemma IntSize(x: Dec)
    requires IsWhole(x)
    ensures Abs(IntOf(x)) == x.coeff * Pow(10, x.exp) >= 0
    ensures IntOf(x) < 0 ==> x.neg
    ensures IntOf(x) > 0 ==> !x.neg
    ensures x.coeff > 0 ==> (x.neg <==> IntOf(x) < 0) && IntOf(x) != 0
    ensures x.coeff == 0 <==> IntOf(x) == 0
  {
    PowPositive(10, x.exp);
    MulLe(0, x.coeff, Pow(10, x.exp));
    if x.coeff > 0 { MulPositive(x.coeff, Pow(10, x.exp)); }
  }

  /** A whole result below 10^d is not rounded. */
  lemma NoRounding(neg: bool, c: nat, e: nat, d: nat)
    requires d >= 1 && c * Pow(10, e) < Pow(10, d)
    ensures Rounded(neg, c, e, d) == Int(Sgn(neg, c * Pow(10, e)))
  {
    hide Norm, Len10, Rounded, Scaled, Pow, Int, IntOf;
    PowPositive(10, e);
    MulLe(1, Pow(10, e), c);
    LenAtMost(c, d);
    RoundedFits(neg, c, e, d);
    WholeValue(neg, c, e);
    IntIsUnique(Norm(neg, c, e));
  }

  lemma SumOfInts(x: Dec, y: Dec, subtract: bool, d: nat)
    requires IsWhole(x) && IsWhole(y) && d >= 1
    requires Abs(IntOf(x) + Sgn(subtract, IntOf(y))) < Pow(10, d)
    ensures Sum(x, y, subtract, d) == Int(IntOf(x) + Sgn(subtract, IntOf(y)))
  {
    hide Norm, Scaled, Rounded, Pow;
    var e := Min(x.exp, y.exp);
    var v := Scaled(x, e) + Sgn(subtract, Scaled(y, e));
    ScaledDown(x, e, 0);
    ScaledDown(y, e, 0);
    PowPositive(10, e);
    SumScales(Scaled(x, e), Scaled(y, e), subtract, Pow(10, e));
    NoRounding(v < 0, Abs(v), e, d);
  }

  lemma SumScales(m: int, n: int, subtract: bool, p: nat)
    requires p > 0
    ensures m * p + Sgn(subtract, n * p) == (m + Sgn(subtract, n)) * p
    ensures var v := m + Sgn(subtract, n); Sgn(v < 0, Abs(v) * p) == v * p && Abs(v * p) == Abs(v) * p
  {
    MulDistrib(m, n, p);
    var v := m + Sgn(subtract, n);
    MulLe(0, Abs(v), p);
    MulDistrib(0, Abs(v), p);
  }

  lemma ProductOfInts(x: Dec, y: Dec, d: nat)
    requires IsWhole(x) && IsWhole(y) && d >= 1 && Abs(IntOf(x) * IntOf(y)) < Pow(10, d)
    ensures Product(x, y, d) == Int(IntOf(x) * IntOf(y))
  {
    hide Norm, Rounded, Pow;
    var m, n := Pow(10, x.exp), Pow(10, y.exp);
    PowAdd(10, x.exp, y.exp);
    FourFactors(x.coeff, m, y.coeff, n);
    SignedProduct(x.neg, x.coeff * m, y.neg, y.coeff * n);
    PowPositive(10, x.exp);
    PowPositive(10, y.exp);
    MulLe(0, x.coeff, m);
    MulLe(0, y.coeff, n);
    MulLe(0, x.coeff * m, y.coeff * n);
    MulLe(0, x.coeff, y.coeff);
    NoRounding(x.neg != y.neg, x.coeff * y.coeff, x.exp + y.exp, d);
  }

  lemma FourFactors(a: int, m: int, b: int, n: int)
    ensures (a * m) * (b * n) == (a * b) * (m * n)
  {
    MulAssoc(a, m, b * n);
    MulAssoc(m, b, n);
    MulAssoc(b, m, n);
    MulAssoc(a, b, m * n);
    assert m * (b * n) == b * (m * n);
  }

  lemma SignedProduct(s: bool, a: int, t: bool, b: int)
    ensures Sgn(s, a) * Sgn(t, b) == Sgn(s != t, a * b)
  {
  }

  /** The whole part of a quotient of whole numbers is their integer quotient. */
  lemma WholeOfInts(x: Dec, y: Dec)
    requires IsWhole(x) && IsWhole(y) && y.coeff > 0
    ensures IntOf(y) != 0 && Whole(x, y) == Abs(IntOf(x)) / Abs(IntOf(y))
  {
    hide Pow;
    IntSize(x);
    IntSize(y);
    if x.exp >= y.exp {
      var p := Pow(10, y.exp);
      PowPositive(10, y.exp);
      PowPositive(10, x.exp - y.exp);
      PowAdd(10, x.exp - y.exp, y.exp);
      MulAssoc(x.coeff, Pow(10, x.exp - y.exp), p);
      CancelPow(x.coeff * Pow(10, x.exp - y.exp), y.coeff, p);
    } else {
      var p := Pow(10, x.exp);
      PowPositive(10, x.exp);
      PowPositive(10, y.exp - x.exp);
      MulPositive(y.coeff, Pow(10, y.exp - x.exp));
      PowAdd(10, y.exp - x.exp, x.exp);
      MulAssoc(y.coeff, Pow(10, y.exp - x.exp), p);
      CancelPow(x.coeff, y.coeff * Pow(10, y.exp - x.exp), p);
    }
  }

  lemma TruncFacts(m: int, n: int)
    requires n != 0
    ensures TruncDiv(m, n) * n + TruncMod(m, n) == m
    ensures Abs(TruncMod(m, n)) < Abs(n)
    ensures TruncMod(m, n) == 0 || (TruncMod(m, n) < 0 <==> m < 0)
    ensures Abs(TruncDiv(m, n)) <= Abs(m) && Abs(TruncDiv(m, n) * n) <= Abs(m)
  {
    hide TruncDiv, TruncMod, Sgn;
    TruncParts(m, n);
    EuclidParts(Abs(m), Abs(n));
    SignedDivision(m, n, Abs(m) / Abs(n), Abs(m) % Abs(n));
  }

  lemma SignedDivision(m: int, n: int, q: nat, r: nat)
    requires n != 0 && Abs(m) == q * Abs(n) + r && r < Abs(n)
    ensures var s := Sgn((m < 0) != (n < 0), q);
            s * n + Sgn(m < 0, r) == m
            && Abs(s) <= Abs(m) && Abs(s * n) <= Abs(m)
    ensures Sgn(m < 0, r) == 0 || (Sgn(m < 0, r) < 0 <==> m < 0)
    ensures Abs(Sgn(m < 0, r)) == r
  {
    SignedProduct((m < 0) != (n < 0), q, n < 0, Abs(n));
    MulLe(0, q, Abs(n));
    MulLe(1, Abs(n), q);
  }

  lemma TruncParts(m: int, n: int)
    requires n != 0
    ensures TruncDiv(m, n) == Sgn((m < 0) != (n < 0), Abs(m) / Abs(n))
    ensures TruncMod(m, n) == Sgn(m < 0, Abs(m) % Abs(n))
  {
  }

  lemma EuclidParts(a: nat, b: nat)
    requires b > 0
    ensures a / b * b + a % b == a && 0 <= a % b < b && 0 <= a / b
  {
  }

  /** For whole operands with |x| below 10^d, x % y truncates toward zero and x // y is what is left:
  none of the three roundings on the way changes anything. */
  lemma RemainderLaw(x: Dec, y: Dec, d: nat)
    requires IsWhole(x) && IsWhole(y) && y.coeff > 0 && d >= 1 && Abs(IntOf(x)) < Pow(10, d)
    ensures IntOf(y) != 0
    ensures IntQuotient(x, y, d) == Int(TruncDiv(IntOf(x), IntOf(y)))
    ensures Remainder(x, y, d) == Int(TruncMod(IntOf(x), IntOf(y)))
    ensures var q, r := IntQuotient(x, y, d), Remainder(x, y, d);
            q.exp >= 0 && r.exp >= 0
            && IntOf(q) * IntOf(y) + IntOf(r) == IntOf(x)
            && Abs(IntOf(r)) < Abs(IntOf(y))
            && (r == ZERO || r.neg == x.neg)
  {
    hide TruncDiv, TruncMod, Remainder, IntQuotient, Int, IntOf, Pow, Canonical;
    var m, n := IntOf(x), IntOf(y);
    IntSize(x);
    QuotientOfInts(x, y, d);
    RemainderOfInts(x, y, d);
    TruncFacts(m, n);
    IntOfInt(TruncDiv(m, n));
    IntOfInt(TruncMod(m, n));
    IntSize(Remainder(x, y, d));
    SignOfZero(Remainder(x, y, d));
  }

  lemma RemainderOfInts(x: Dec, y: Dec, d: nat)
    requires IsWhole(x) && IsWhole(y) && y.coeff > 0 && d >= 1 && Abs(IntOf(x)) < Pow(10, d)
    ensures IntOf(y) != 0 && Remainder(x, y, d) == Int(TruncMod(IntOf(x), IntOf(y)))
  {
    hide TruncDiv, TruncMod, Sum, Product, IntQuotient, Int, IntOf, Pow, Canonical;
    var m, n := IntOf(x), IntOf(y);
    QuotientOfInts(x, y, d);
    TruncFacts(m, n);
    var q, t := IntQuotient(x, y, d), TruncDiv(m, n);
    IntOfInt(t);
    ProductOfInts(q, y, d);
    IntOfInt(t * n);
    SumOfInts(x, Product(q, y, d), true, d);
  }

  lemma SignOfZero(r: Dec)
    requires Canonical(r)
    ensures r.coeff == 0 <==> r == ZERO
  {
  }

  lemma QuotientOfInts(x: Dec, y: Dec, d: nat)
    requires IsWhole(x) && IsWhole(y) && y.coeff > 0 && d >= 1 && Abs(IntOf(x)) < Pow(10, d)
    ensures IntOf(y) != 0 && IntQuotient(x, y, d) == Int(TruncDiv(IntOf(x), IntOf(y)))
  {
    hide Norm, Pow, Whole, Scaled, Rounded;
    var m, n := IntOf(x), IntOf(y);
    IntSize(x);
    IntSize(y);
    WholeOfInts(x, y);
    TruncFacts(m, n);
    PowZero();
    NoRounding(x.neg != y.neg, Whole(x, y), 0, d);
    if Whole(x, y) > 0 && x.coeff == 0 { assert Abs(m) == 0; }
  }

  /** Integer powers are exact while they fit. */
  lemma {:induction false} PowerOfInt(x: Dec, n: nat, d: nat)
    requires IsWhole(x) && d >= 1 && forall k :: 0 <= k <= n ==> Abs(IntPow(IntOf(x), k)) < Pow(10, d)
    ensures Power(x, n, d) == Int(IntPow(IntOf(x), n))
  {
    hide Norm, Scaled, Product;
    if n == 0 {
      assert ONE == Int(1) by { NormOne(); }
    } else {
      PowerOfInt(x, n - 1, d);
      IntOfInt(IntPow(IntOf(x), n - 1));
      assert Abs(IntPow(IntOf(x), n)) < Pow(10, d);
      ProductOfInts(Power(x, n - 1, d), x, d);
    }
  }

  /** Powers of one number multiply by adding exponents, as long as none of them is rounded. */
  lemma PowersMultiply(x: Dec, m: nat, n: nat, d: nat)
    requires IsWhole(x) && d >= 1 && forall k :: 0 <= k <= m + n ==> Abs(IntPow(IntOf(x), k)) < Pow(10, d)
    ensures Product(Power(x, m, d), Power(x, n, d), d) == Power(x, m + n, d)
  {
    hide Pow, IntPow, Product, Power, Int, IntOf, Canonical;
    PowerOfInt(x, m, d);
    PowerOfInt(x, n, d);
    PowerOfInt(x, m + n, d);
    IntPowAdd(IntOf(x), m, n);
    var v := IntOf(x);
    IntOfInt(IntPow(v, m));
    IntOfInt(IntPow(v, n));
    ProductOfInts(Power(x, m, d), Power(x, n, d), d);
  }

  lemma {:induction false} IntPowAdd(v: int, m: nat, n: nat)
    ensures IntPow(v, m + n) == IntPow(v, m) * IntPow(v, n)
    decreases n
  {
    if n == 0 {
      assert m + n == m;
    } else {
      IntPowAdd(v, m, n - 1);
      IntPowStep(v, m + n);
      IntPowStep(v, n);
      IntMulAssoc(IntPow(v, m), IntPow(v, n - 1), v);
    }
  }

  lemma IntPowStep(v: int, n: nat)
    requires n > 0
    ensures IntPow(v, n) == IntPow(v, n - 1) * v
  {
  }

  lemma IntMulAssoc(a: int, b: int, c: int)
    ensures a * b * c == a * (b * c)
  {
  }

  lemma NormOne()
    ensures Norm(false, 1, 0) == ONE
  {
  }

  function IntPow(v: int, n: nat): int
  {
    if n == 0 then 1 else IntPow(v, n - 1) * v
  }
}
