/** Numeric comparison, with and without NUMERIC FUZZ. */
module Comparison {
  import opened Positional
  import opened Decimal
  import opened Numbers
  import opened AddSubMul
  import opened Options
  import opened NumberText
  import opened ArithOps

  /** The difference, rounded to d digits, lies below the tolerance FUZZ sets. */
  predicate WithinFuzz(x: Dec, y: Dec, d: nat, fuzz: nat)
  {
    var diff := Sum(x, y, true, d);
    var top := if Adjusted(x) > Adjusted(y) then Adjusted(x) else Adjusted(y);
    diff.coeff == 0 || Adjusted(diff) < top - d + fuzz
  }

  /** -1, 0 or 1; numbers of different sign are never equal, whatever FUZZ says. */
  function Compare(x: Dec, y: Dec, d: nat, fuzz: nat): int
  {
    if x.neg == y.neg && fuzz > 0 && WithinFuzz(x, y, d, fuzz) then 0
    else Sign(ExactSum(x, y, true))
  }

  function CompareText(a: string, b: string, n: Settings): Option<int>
  {
    var x, y := ParseNum(a), ParseNum(b);
    if x.None? || y.None? then None else Some(Compare(x.value, y.value, n.digits, n.fuzz))
  }

  // ---- irx_arith_compare ------------------------------------------------

  lemma SignsDecide(x: Dec, y: Dec)
    requires Canonical(x) && Canonical(y) && x.neg != y.neg
    ensures Sign(ExactSum(x, y, true)) == if x.neg then -1 else 1
  {
    var e := Min(x.exp, y.exp);
    PowPositive(10, x.exp - e);
    PowPositive(10, y.exp - e);
    if x.neg { MulPositive(x.coeff, Pow(10, x.exp - e)); } else { MulPositive(y.coeff, Pow(10, y.exp - e)); }
    MulLe(0, x.coeff, Pow(10, x.exp - e));
    MulLe(0, y.coeff, Pow(10, y.exp - e));
  }

  lemma MagnitudeDecides(a: Number, b: Number)
    requires a.Canon() && b.Canon() && a.sign == b.sign
    ensures var e := Min(a.exp, b.exp);
            Sign(ExactSum(a.Value(), b.Value(), true)) == Sgn(a.sign, Sign(Magnitude(a, e) - Magnitude(b, e)))
  {
    hide Magnitude;
    var e := Min(a.exp, b.exp);
    SignedMagnitude(a, e);
    SignedMagnitude(b, e);
  }

  method CompareNumbers(a: Number, b: Number, d: nat, fuzz: nat) returns (c: int)
    requires a.Canon() && b.Canon() && d >= 1
    ensures c == Compare(a.Value(), b.Value(), d, fuzz)
  {
    hide Val, Pow, Norm, Sum, Magnitude, ExactSum;
    CanonForm(a);
    CanonForm(b);
    if a.sign != b.sign {
      SignsDecide(a.Value(), b.Value());
      var aZero, bZero := a.len == 1 && a.digits[0] == 0, b.len == 1 && b.digits[0] == 0;
      if aZero && bZero { return 0; }
      if aZero { return if b.sign then 1 else -1; }
      return if a.sign then -1 else 1;
    }
    MagnitudeDecides(a, b);
    var within := false;
    if fuzz > 0 { within := CheckFuzz(a, b, d, fuzz); }
    if within { return 0; }
    c := MagCompare(a, b);
    c := if a.sign then -c else c;
  }

  method CheckFuzz(a: Number, b: Number, d: nat, fuzz: nat) returns (within: bool)
    requires a.Canon() && b.Canon() && d >= 1
    ensures within == WithinFuzz(a.Value(), b.Value(), d, fuzz)
  {
    hide Val, Pow, Norm, Sum;
    CanonForm(a);
    CanonForm(b);
    var aAdj, bAdj := a.exp + a.len - 1, b.exp + b.len - 1;
    var top := if aAdj > bAdj then aAdj else bAdj;
    var diff := AddSub(a, b, true, d);
    CanonForm(diff);
    if diff.len == 1 && diff.digits[0] == 0 { return true; }
    within := diff.exp + diff.len - 1 < top - d + fuzz;
  }

  method IrxArithCompare(a: string, b: string, n: Settings) returns (r: Option<int>)
    ensures r == CompareText(a, b, n)
  {
    hide Val, Norm, ParseNum, Compare;
    var ok, na := FromStr(a);
    if !ok { return None; }
    var nb: Number;
    ok, nb := FromStr(b);
    if !ok { return None; }
    var c := CompareNumbers(na, nb, n.digits, n.fuzz);
    r := Some(c);
  }

  // ---- What comparison means --------------------------------------------

  lemma ScaledDown(x: Dec, e: int, e': int)
    requires e' <= e <= x.exp
    ensures Scaled(x, e') == Scaled(x, e) * Pow(10, e - e')
  {
    PowAdd(10, x.exp - e, e - e');
    MulAssoc(x.coeff, Pow(10, x.exp - e), Pow(10, e - e'));
  }

  lemma SignScale(v: int, p: int)
    requires p > 0
    ensures Sign(v * p) == Sign(v)
  {
    if v > 0 { MulPositive(v, p); } else if v < 0 { MulPositive(-v, p); }
  }

  /** Without FUZZ the answer is the sign of the exact difference, counted in any common unit. */
  lemma CompareIsExact(x: Dec, y: Dec, d: nat, e: int)
    requires e <= x.exp && e <= y.exp
    ensures Compare(x, y, d, 0) == Sign(Scaled(x, e) - Scaled(y, e))
  {
    hide Pow, Scaled;
    var m := Min(x.exp, y.exp);
    ScaledDown(x, m, e);
    ScaledDown(y, m, e);
    PowPositive(10, m - e);
    MulDistrib(Scaled(x, m), Scaled(y, m), Pow(10, m - e));
    SignScale(Scaled(x, m) - Scaled(y, m), Pow(10, m - e));
  }

  /** A total order on numbers, in which 0 means the same number. */
  lemma CompareIsTotalOrder(x: Dec, y: Dec, z: Dec, d: nat)
    requires Canonical(x) && Canonical(y) && Canonical(z)
    ensures Compare(x, y, d, 0) in {-1, 0, 1}
    ensures Compare(y, x, d, 0) == -Compare(x, y, d, 0)
    ensures Compare(x, y, d, 0) == 0 <==> x == y
    ensures Compare(x, y, d, 0) <= 0 && Compare(y, z, d, 0) <= 0 ==> Compare(x, z, d, 0) <= 0
    ensures Compare(x, y, d, 0) < 0 && Compare(y, z, d, 0) <= 0 ==> Compare(x, z, d, 0) < 0
  {
    hide Scaled, Compare;
    var e := Min(Min(x.exp, y.exp), z.exp);
    CompareIsExact(x, y, d, e);
    CompareIsExact(y, x, d, e);
    CompareIsExact(y, z, d, e);
    CompareIsExact(x, z, d, e);
    if Scaled(x, e) == Scaled(y, e) { CanonicalUnique(x, y, e); }
  }

  /** With FUZZ, swapping the operands still only changes the sign of the answer. */
  lemma FuzzyCompareAntisymmetric(x: Dec, y: Dec, d: nat, fuzz: nat)
    ensures Compare(y, x, d, fuzz) == -Compare(x, y, d, fuzz)
  {
    hide Scaled, Rounded;
    MinCommutes(x.exp, y.exp);
    var v, e := ExactSum(x, y, true), Min(x.exp, y.exp);
    assert ExactSum(y, x, true) == -v;
    RoundedMirror(if v < 0 then -v else v, e, d);
  }

  lemma RoundedMirror(c: nat, e: int, d: nat)
    ensures Rounded(true, c, e, d).coeff == Rounded(false, c, e, d).coeff
    ensures Rounded(true, c, e, d).exp == Rounded(false, c, e, d).exp
  {
    NormMirror(HalfUp(c, Excess(c, d)), e + Excess(c, d));
  }

  lemma {:induction false} NormMirror(c: nat, e: int)
    ensures Norm(true, c, e).coeff == Norm(false, c, e).coeff && Norm(true, c, e).exp == Norm(false, c, e).exp
  {
    if c > 0 && c % 10 == 0 { NormMirror(c / 10, e + 1); }
  }
}
