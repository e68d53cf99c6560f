/** Addition, subtraction, multiplication and magnitude comparison on digit arrays. */
module AddSubMul {
  import opened Positional
  import opened Decimal
  import opened Numbers

  // ---- Work arrays -----------------------------------------------------

  function Sgn(away: bool, x: int): int { if away then -x else x }

  /** The digits d with before zeros ahead of them and after zeros behind. */
  function Placed(before: nat, d: seq<int>, after: nat): (s: seq<int>)
    ensures |s| == before + |d| + after
  {
    seq(before, _ => 0) + d + seq(after, _ => 0)
  }

  lemma PlacedValue(before: nat, d: seq<int>, after: nat)
    ensures Val(10, Placed(before, d, after)) == Val(10, d) * Pow(10, after)
  {
    var z := seq(before, _ => 0);
    ValPadZeros(10, z + d, seq(after, _ => 0));
    ValSkipZeros(10, z + d, before);
    assert (z + d)[before..] == d;
  }

  /** Adding cell by cell, without carrying, adds the values. */
  lemma {:induction false} ValCellwise(s: seq<int>, t: seq<int>, u: seq<int>, away: bool)
    requires |s| == |t| == |u| && forall k :: 0 <= k < |s| ==> u[k] == s[k] + Sgn(away, t[k])
    ensures Val(10, u) == Val(10, s) + Sgn(away, Val(10, t))
  {
    if |s| > 0 {
      var n := |s| - 1;
      ValCellwise(s[..n], t[..n], u[..n], away);
    }
  }

  /** work[k] stands for 10^(hi - k); add n's digits (or take them away) at their places. */
  method Deposit(work: array<int>, hi: int, n: Number, away: bool)
    requires n.Valid() && work != n.digits
    requires n.exp + n.len - 1 <= hi && hi - n.exp < work.Length
    modifies work
    ensures var t := Placed(hi - (n.exp + n.len - 1), n.digits[..n.len], work.Length - 1 - (hi - n.exp));
            forall k :: 0 <= k < work.Length ==> work[k] == old(work[k]) + Sgn(away, t[k])
    ensures Val(10, work[..]) == old(Val(10, work[..])) + Sgn(away, Magnitude(n, hi - work.Length + 1))
  {
    hide Val, Pow;
    var off := hi - (n.exp + n.len - 1);
    ghost var d, s0 := n.digits[..n.len], work[..];
    ghost var t := Placed(off, d, work.Length - 1 - (hi - n.exp));
    var i := 0;
    while i < n.len
      invariant 0 <= i <= n.len && n.digits[..n.len] == d
      invariant forall k :: 0 <= k < off + i ==> work[k] == s0[k] + Sgn(away, t[k])
      invariant forall k :: off + i <= k < work.Length ==> work[k] == s0[k]
    {
      var k := off + i;
      assert t[k] == d[i] == n.digits[i];
      work[k] := if away then work[k] - n.digits[i] else work[k] + n.digits[i];
      i := i + 1;
    }
    PlacedValue(off, d, work.Length - 1 - (hi - n.exp));
    ValCellwise(s0, t, work[..], away);
  }

  // Moving q tens out of cell k into its left neighbour keeps the value.
  lemma MoveTens(s: seq<int>, k: nat, q: int)
    requires 0 < k < |s|
    ensures Val(10, s[k - 1 := s[k - 1] + q][k := s[k] - 10 * q]) == Val(10, s)
  {
    var t := s[k - 1 := s[k - 1] + q];
    ValUpdate(10, s, k - 1, s[k - 1] + q);
    ValUpdate(10, t, k, s[k] - 10 * q);
    var p := Pow(10, |s| - 1 - k);
    assert Pow(10, |s| - k) == 10 * p;
    assert q * (10 * p) == 10 * (q * p) && (-10 * q) * p == -10 * (q * p) by {
      MulAssoc(q, 10, p);
      MulAssoc(10, q, p);
    }
  }

  method CarrySweep(work: array<int>)
    requires work.Length > 0 && forall k :: 0 <= k < work.Length ==> work[k] >= 0
    modifies work
    ensures Val(10, work[..]) == old(Val(10, work[..]))
    ensures Digits(10, work[..][1..])
  {
    var k := work.Length - 1;
    while k > 0
      invariant 0 <= k < work.Length
      invariant Val(10, work[..]) == old(Val(10, work[..]))
      invariant forall j :: 0 <= j <= k ==> work[j] >= 0
      invariant forall j :: k < j < work.Length ==> 0 <= work[j] < 10
    {
      if work[k] >= 10 {
        ghost var s := work[..];
        MoveTens(s, k, s[k] / 10);
        work[k - 1] := work[k - 1] + work[k] / 10;
        work[k] := work[k] % 10;
        assert work[..] == s[k - 1 := s[k - 1] + s[k] / 10][k := s[k] - 10 * (s[k] / 10)];
      }
      k := k - 1;
    }
  }

  method BorrowSweep(work: array<int>)
    requires work.Length > 0 && forall k :: 0 <= k < work.Length ==> -9 <= work[k] <= 9
    modifies work
    ensures Val(10, work[..]) == old(Val(10, work[..]))
    ensures Digits(10, work[..][1..])
  {
    var k := work.Length - 1;
    while k > 0
      invariant 0 <= k < work.Length
      invariant Val(10, work[..]) == old(Val(10, work[..]))
      invariant forall j :: 0 <= j < k ==> -9 <= work[j] <= 9
      invariant -10 <= work[k] <= 9
      invariant forall j :: k < j < work.Length ==> 0 <= work[j] < 10
    {
      if work[k] < 0 {
        ghost var s := work[..];
        MoveTens(s, k, -1);
        work[k] := work[k] + 10;
        work[k - 1] := work[k - 1] - 1;
        assert work[..] == s[k - 1 := s[k - 1] - 1][k := s[k] + 10];
      }
      k := k - 1;
    }
  }

  /** Copy a digit array into a fresh number, leading zeros dropped. */
  method TakeDigits(work: array<int>, exp: int) returns (r: Number)
    requires work.Length > 0 && Digits(10, work[..])
    ensures fresh(r) && fresh(r.digits) && r.Valid() && r.Trimmed()
    ensures !r.sign && r.exp == exp && r.Coeff() == Val(10, work[..])
  {
    hide Val, Pow;
    var msd := 0;
    while msd < work.Length - 1 && work[msd] == 0
      invariant 0 <= msd <= work.Length - 1
      invariant forall j :: 0 <= j < msd ==> work[j] == 0
    {
      msd := msd + 1;
    }
    ValSkipZeros(10, work[..], msd);
    r := new Number(work.Length - msd);
    var i := 0;
    while i < work.Length - msd
      invariant 0 <= i <= work.Length - msd && r.digits.Length == work.Length - msd
      invariant fresh(r.digits) && !r.sign
      invariant work[..] == old(work[..])
      invariant forall j :: 0 <= j < i ==> r.digits[j] == work[msd + j]
    {
      r.digits[i] := work[msd + i];
      i := i + 1;
    }
    r.len := work.Length - msd;
    r.exp := exp;
    assert r.digits[..r.len] == work[..][msd..];
  }

  // ---- Magnitudes ------------------------------------------------------

  ghost function Magnitude(n: Number, e: int): nat
    reads n, n.digits
    requires n.Valid() && e <= n.exp
  {
    PowPositive(10, n.exp - e);
    n.Coeff() * Pow(10, n.exp - e)
  }

  lemma MagnitudeBound(n: Number, e: int, hi: int)
    requires n.Valid() && e <= n.exp && n.exp + n.len - 1 <= hi
    ensures Magnitude(n, e) < Pow(10, hi - e + 1)
  {
    ValBound(10, n.digits[..n.len]);
    var p := Pow(10, n.exp - e);
    PowPositive(10, n.exp - e);
    MulLt(n.Coeff(), Pow(10, n.len), p);
    PowAdd(10, n.len, n.exp - e);
    PowMonotone(10, n.len + (n.exp - e), hi - e + 1);
  }

  lemma SumFits(a: Number, b: Number, lo: int, hi: int)
    requires a.Valid() && b.Valid() && lo <= a.exp && lo <= b.exp
    requires a.exp + a.len - 1 <= hi && b.exp + b.len - 1 <= hi
    ensures Magnitude(a, lo) + Magnitude(b, lo) < Pow(10, hi - lo + 2)
  {
    MagnitudeBound(a, lo, hi);
    MagnitudeBound(b, lo, hi);
    assert Pow(10, hi - lo + 2) == 10 * Pow(10, hi - lo + 1);
  }

  /** The digits of |a| + |b| from 10^(hi + 1) down to 10^lo; the first cell is for the carry. */
  method SumDigits(a: Number, b: Number, lo: int, hi: int) returns (work: array<int>)
    requires a.Valid() && b.Valid() && lo <= a.exp && lo <= b.exp
    requires a.exp + a.len - 1 <= hi && b.exp + b.len - 1 <= hi
    ensures fresh(work) && work.Length == hi - lo + 2
    ensures Digits(10, work[..]) && Val(10, work[..]) == Magnitude(a, lo) + Magnitude(b, lo)
  {
    hide Magnitude, Val;
    work := new int[hi - lo + 2](_ => 0);
    ValZeros(10, work[..]);
    Deposit(work, hi + 1, a, false);
    Deposit(work, hi + 1, b, false);
    CarrySweep(work);
    SumFits(a, b, lo, hi);
    TopCellIsDigit(10, work[..]);
  }

  /** r = |a| + |b|, exactly. */
  method AddMagnitudes(a: Number, b: Number) returns (r: Number)
    requires a.Valid() && b.Valid()
    ensures fresh(r) && fresh(r.digits) && r.Valid() && r.Trimmed() && !r.sign
    ensures r.exp == Min(a.exp, b.exp)
    ensures r.Coeff() == Magnitude(a, r.exp) + Magnitude(b, r.exp)
  {
    var lo := if a.exp < b.exp then a.exp else b.exp;
    var aHi, bHi := a.exp + a.len - 1, b.exp + b.len - 1;
    var hi := if aHi > bHi then aHi else bHi;
    var work := SumDigits(a, b, lo, hi);
    r := TakeDigits(work, lo);
  }

  /** The digits of |a| - |b| from 10^hi down to 10^lo. */
  method DifferenceDigits(a: Number, b: Number, lo: int, hi: int) returns (work: array<int>)
    requires a.Valid() && b.Valid() && lo <= a.exp && lo <= b.exp
    requires a.exp + a.len - 1 <= hi && b.exp + b.len - 1 <= hi
    requires Magnitude(a, lo) >= Magnitude(b, lo)
    ensures fresh(work) && work.Length == hi - lo + 1
    ensures Digits(10, work[..]) && Val(10, work[..]) == Magnitude(a, lo) - Magnitude(b, lo)
  {
    hide Magnitude, Val;
    work := new int[hi - lo + 1](_ => 0);
    ValZeros(10, work[..]);
    ghost var ma, mb := Magnitude(a, lo), Magnitude(b, lo);
    Deposit(work, hi, a, false);
    Deposit(work, hi, b, true);
    assert Val(10, work[..]) == ma - mb;
    BorrowSweep(work);
    MagnitudeBound(a, lo, hi);
    TopCellIsDigit(10, work[..]);
  }

  /** r = |a| - |b|, exactly; the caller has ordered them. */
  method SubMagnitudes(a: Number, b: Number) returns (r: Number)
    requires a.Valid() && b.Valid()
    requires Magnitude(a, Min(a.exp, b.exp)) >= Magnitude(b, Min(a.exp, b.exp))
    ensures fresh(r) && fresh(r.digits) && r.Canon() && !r.sign
    ensures var lo := Min(a.exp, b.exp);
            r.Value() == Norm(false, Magnitude(a, lo) - Magnitude(b, lo), lo)
  {
    hide Norm, Magnitude, Val;
    var lo := if a.exp < b.exp then a.exp else b.exp;
    var aHi, bHi := a.exp + a.len - 1, b.exp + b.len - 1;
    var hi := if aHi > bHi then aHi else bHi;
    ghost var m := Magnitude(a, lo) - Magnitude(b, lo);
    var work := DifferenceDigits(a, b, lo, hi);
    r := TakeDigits(work, lo);
    assert r.Value() == Norm(false, m, lo);
    StripTrailing(r);
  }

  // ---- Comparison of magnitudes ---------------------------------------

  function Sign(v: int): int { if v < 0 then -1 else if v > 0 then 1 else 0 }

  /** Digit strings of one width compare like their values: the first difference decides. */
  lemma {:induction false} FirstDifference(s: seq<int>, t: seq<int>, i: nat)
    requires |s| == |t| && Digits(10, s) && Digits(10, t)
    requires i < |s| && s[..i] == t[..i] && s[i] < t[i]
    ensures Val(10, s) < Val(10, t)
  {
    var n := |s| - 1;
    if i < n {
      assert s[..n][..i] == s[..i] && t[..n][..i] == t[..i];
      FirstDifference(s[..n], t[..n], i);
    }
  }

  /** A number's digits, padded with zeros down to 10^e. */
  ghost function Padded(n: Number, e: int): (s: seq<int>)
    reads n, n.digits
    requires n.Valid() && e <= n.exp
    ensures |s| == n.len + (n.exp - e) && Digits(10, s)
  {
    Placed(0, n.digits[..n.len], n.exp - e)
  }

  lemma PaddedValue(n: Number, e: int)
    requires n.Valid() && e <= n.exp
    ensures Val(10, Padded(n, e)) == Magnitude(n, e)
    ensures forall i :: 0 <= i < |Padded(n, e)| ==> Padded(n, e)[i] == if i < n.len then n.digits[i] else 0
  {
    PlacedValue(0, n.digits[..n.len], n.exp - e);
  }

  lemma HigherIsGreater(a: Number, b: Number, e: int)
    requires a.Canon() && b.Valid() && a.digits[0] != 0 && e <= a.exp && e <= b.exp
    requires a.exp + a.len > b.exp + b.len
    ensures Magnitude(a, e) > Magnitude(b, e)
  {
    var s := a.digits[..a.len];
    MagnitudeBound(b, e, b.exp + b.len - 1);
    ValLead(10, s);
    PowPositive(10, a.exp - e);
    MulLe(Pow(10, a.len - 1), a.Coeff(), Pow(10, a.exp - e));
    PowAdd(10, a.len - 1, a.exp - e);
    PowMonotone(10, b.exp + b.len - e, a.len - 1 + (a.exp - e));
  }

  lemma NonZeroMagnitude(a: Number, e: int)
    requires a.Canon() && e <= a.exp
    ensures Magnitude(a, e) == 0 <==> a.len == 1 && a.digits[0] == 0
  {
    CanonForm(a);
    PowPositive(10, a.exp - e);
    if a.Coeff() > 0 { MulLe(1, a.Coeff(), Pow(10, a.exp - e)); }
  }

  /** -1, 0 or 1 as |a| is less than, equal to or greater than |b|. */
  method MagCompare(a: Number, b: Number) returns (c: int)
    requires a.Canon() && b.Canon()
    ensures var e := Min(a.exp, b.exp);
            c == Sign(Magnitude(a, e) - Magnitude(b, e))
  {
    hide Val, Pow, Magnitude;
    ghost var e := Min(a.exp, b.exp);
    NonZeroMagnitude(a, e);
    NonZeroMagnitude(b, e);
    var aAdj, bAdj := a.exp + a.len - 1, b.exp + b.len - 1;
    var aZero := a.len == 1 && a.digits[0] == 0;
    var bZero := b.len == 1 && b.digits[0] == 0;
    if aZero && bZero { return 0; }
    if aZero { return -1; }
    if bZero { return 1; }
    if aAdj != bAdj {
      if aAdj > bAdj { HigherIsGreater(a, b, e); } else { HigherIsGreater(b, a, e); }
      return if aAdj > bAdj then 1 else -1;
    }
    c := CompareDigits(a, b);
  }

  /** Digit-by-digit comparison of two numbers whose first digits have the same weight. */
  method CompareDigits(a: Number, b: Number) returns (c: int)
    requires a.Valid() && b.Valid() && a.exp + a.len == b.exp + b.len
    ensures var e := Min(a.exp, b.exp);
            c == Sign(Magnitude(a, e) - Magnitude(b, e))
  {
    hide Val, Pow, Magnitude, Padded;
    ghost var e := Min(a.exp, b.exp);
    ghost var s, t := Padded(a, e), Padded(b, e);
    PaddedValue(a, e);
    PaddedValue(b, e);
    var i := 0;
    while i < a.len && i < b.len
      invariant 0 <= i <= a.len && i <= b.len && s[..i] == t[..i]
    {
      if a.digits[i] != b.digits[i] {
        if s[i] < t[i] { FirstDifference(s, t, i); } else { FirstDifference(t, s, i); }
        return if a.digits[i] > b.digits[i] then 1 else -1;
      }
      i := i + 1;
    }
    while i < a.len
      invariant 0 <= i <= a.len && (i < a.len ==> i >= b.len) && s[..i] == t[..i]
    {
      if a.digits[i] != 0 { FirstDifference(t, s, i); return 1; }
      i := i + 1;
    }
    while i < b.len
      invariant a.len <= i && 0 <= i <= |s| && (i <= b.len || b.len <= a.len) && s[..i] == t[..i]
    {
      if b.digits[i] != 0 { FirstDifference(s, t, i); return -1; }
      i := i + 1;
    }
    assert s == t;
    c := 0;
  }

  // ---- Signed addition and subtraction --------------------------------

  function RoundedInt(v: int, e: int, d: nat): Dec
  {
    Rounded(v < 0, if v < 0 then -v else v, e, d)
  }

  /** x + y or x - y exactly, in units of 10^min(exponents). */
  function ExactSum(x: Dec, y: Dec, subtract: bool): int
  {
    var e := Min(x.exp, y.exp);
    Scaled(x, e) + Sgn(subtract, Scaled(y, e))
  }

  function Sum(x: Dec, y: Dec, subtract: bool, d: nat): Dec
  {
    RoundedInt(ExactSum(x, y, subtract), Min(x.exp, y.exp), d)
  }

  method AddSub(a: Number, b: Number, subtract: bool, d: nat) returns (r: Number)
    requires a.Canon() && b.Canon() && d >= 1
    ensures fresh(r) && fresh(r.digits) && r.Canon()
    ensures r.Value() == Sum(a.Value(), b.Value(), subtract, d)
  {
    hide Val, Pow, Norm, HalfUp, Magnitude, Len10, Sum, RoundedInt, Rounded;
    SumOfMagnitudes(a, b, subtract, d);
    var bSign := if subtract then !b.sign else b.sign;
    if a.sign == bSign {
      r := AddMagnitudes(a, b);
      RoundAdded(r, a.sign, d);
    } else {
      r := Subtract(a, b, bSign, d);
    }
  }

  /** |a| - |b| with a's sign, or |b| - |a| with b's; b counts as having sign bSign. */
  method Subtract(a: Number, b: Number, bSign: bool, d: nat) returns (r: Number)
    requires a.Canon() && b.Canon() && d >= 1 && a.sign != bSign
    ensures fresh(r) && fresh(r.digits) && r.Canon()
    ensures var e := Min(a.exp, b.exp);
            r.Value() == RoundedInt(Sgn(a.sign, Magnitude(a, e)) + Sgn(bSign, Magnitude(b, e)), e, d)
  {
    hide Val, Pow, Norm, HalfUp, Magnitude, Len10, RoundedInt, Rounded;
    ghost var e := Min(a.exp, b.exp);
    ghost var ma, mb := Magnitude(a, e), Magnitude(b, e);
    var mc := MagCompare(a, b);
    if mc == 0 {
      r := Zero(d);
      RoundedZero(false, e, d);
      RoundedSigned(false, 0, e, d);
    } else if mc > 0 {
      r := SubMagnitudes(a, b);
      RoundSubtracted(r, a.sign, ma - mb, e, d);
    } else {
      MinCommutes(a.exp, b.exp);
      r := SubMagnitudes(b, a);
      RoundSubtracted(r, bSign, mb - ma, e, d);
    }
  }

  lemma SumOfMagnitudes(a: Number, b: Number, subtract: bool, d: nat)
    requires a.Canon() && b.Canon()
    ensures var e := Min(a.exp, b.exp);
            Sum(a.Value(), b.Value(), subtract, d)
            == RoundedInt(Sgn(a.sign, Magnitude(a, e)) + Sgn(subtract != b.sign, Magnitude(b, e)), e, d)
  {
    hide Magnitude, RoundedInt, Scaled;
    var e := Min(a.exp, b.exp);
    SignedMagnitude(a, e);
    SignedMagnitude(b, e);
  }

  /** The number 0, as rounding leaves it. */
  method Zero(d: nat) returns (r: Number)
    requires d >= 1
    ensures fresh(r) && fresh(r.digits) && r.Canon() && r.Value() == ZERO
  {
    hide Val, Norm, HalfUp, Len10, Rounded;
    r := new Number(1);
    r.digits[0] := 0;
    r.len := 1;
    SingleDigit(r);
    RoundedZero(false, 0, d);
    Round(r, d);
  }

  lemma MinCommutes(x: int, y: int)
    ensures Min(x, y) == Min(y, x)
  {
  }

  method RoundAdded(r: Number, neg: bool, d: nat)
    requires r.Valid() && r.Trimmed() && d >= 1
    modifies r, r.digits
    ensures r.digits == old(r.digits) && r.Canon()
    ensures r.Value() == old(RoundedInt(Sgn(neg, r.Coeff()), r.exp, d))
  {
    hide Val, Pow, HalfUp, Len10, Norm, Rounded, RoundedInt;
    RoundedSigned(neg, r.Coeff(), r.exp, d);
    r.sign := neg;
    Round(r, d);
  }

  // A difference comes back stripped; give it its sign and round it.
  method RoundSubtracted(r: Number, neg: bool, ghost m: nat, ghost e: int, d: nat)
    requires r.Canon() && !r.sign && r.Value() == Norm(false, m, e) && m > 0 && d >= 1
    modifies r, r.digits
    ensures r.digits == old(r.digits) && r.Canon()
    ensures r.Value() == RoundedInt(Sgn(neg, m), e, d)
  {
    hide Val, Pow, HalfUp, Len10;
    CanonForm(r);
    NormLen(false, m, e);
    ghost var k := r.exp - e;
    RoundedScale(neg, r.Coeff(), e, k, d);
    r.sign := neg;
    Round(r, d);
  }

  lemma RoundedSigned(neg: bool, m: nat, e: int, d: nat)
    requires d >= 1
    ensures Rounded(neg, m, e, d) == RoundedInt(Sgn(neg, m), e, d)
  {
    if m == 0 { RoundedZero(neg, e, d); RoundedZero(false, e, d); }
  }

  lemma SingleDigit(r: Number)
    requires r.Valid() && r.len == 1
    ensures r.Coeff() == r.digits[0] && r.Trimmed()
  {
    assert r.digits[..1] == [r.digits[0]];
    ValSingle(10, r.digits[0]);
  }

  lemma SignedMagnitude(n: Number, e: int)
    requires n.Canon() && e <= n.exp
    ensures n.Value().exp == n.exp && Scaled(n.Value(), e) == Sgn(n.sign, Magnitude(n, e))
  {
    CanonForm(n);
  }

  // ---- Multiplication --------------------------------------------------

  function Product(x: Dec, y: Dec, d: nat): Dec
  {
    Rounded(x.neg != y.neg, x.coeff * y.coeff, x.exp + y.exp, d)
  }

  /** Cells x * t[k] added to s[k] add x times the value. */
  lemma {:induction false} ValCellwiseTimes(s: seq<int>, x: int, t: seq<int>, u: seq<int>)
    requires |s| == |t| == |u| && forall k :: 0 <= k < |s| ==> u[k] == s[k] + x * t[k]
    ensures Val(10, u) == Val(10, s) + x * Val(10, t)
  {
    if |s| > 0 {
      var n := |s| - 1;
      ValCellwiseTimes(s[..n], x, t[..n], u[..n]);
      MulAssoc(x, Val(10, t[..n]), 10);
      MulDistrib(Val(10, t[..n]) * 10, t[n], x);
    }
  }

  /** work += x * b, b's first digit landing on cell off. */
  method AddRow(work: array<int>, x: int, b: Number, off: nat)
    requires b.Valid() && work != b.digits && off + b.len <= work.Length && 0 <= x < 10
    modifies work
    ensures forall k :: 0 <= k < work.Length ==> work[k] >= old(work[k])
    ensures Val(10, work[..]) == old(Val(10, work[..])) + x * (b.Coeff() * Pow(10, work.Length - off - b.len))
  {
    hide Val, Pow;
    ghost var s0, d := work[..], b.digits[..b.len];
    ghost var t := Placed(off, d, work.Length - off - b.len);
    var j := 0;
    while j < b.len
      invariant 0 <= j <= b.len && b.digits[..b.len] == d
      invariant forall k :: 0 <= k < off + j ==> work[k] == s0[k] + x * t[k]
      invariant forall k :: off + j <= k < work.Length ==> work[k] == s0[k]
    {
      assert t[off + j] == d[j] == b.digits[j];
      work[off + j] := work[off + j] + x * b.digits[j];
      j := j + 1;
    }
    forall k | 0 <= k < work.Length ensures work[k] == s0[k] + x * t[k] && x * t[k] >= 0 {
      assert 0 <= t[k];
    }
    ValCellwiseTimes(s0, x, t, work[..]);
    PlacedValue(off, d, work.Length - off - b.len);
  }

  // The rows done so far, with one more digit of a.
  lemma RowStep(x: int, y: int, v: int, p: int)
    ensures (x * 10 + y) * (v * p) == x * (v * (10 * p)) + y * (v * p)
  {
    MulDistrib(x * 10, y, v * p);
    MulAssoc(x, 10, v * p);
    assert v * (10 * p) == 10 * (v * p) by { MulAssoc(v, 10, p); MulAssoc(10, v, p); }
  }

  method ProductDigits(a: Number, b: Number) returns (work: array<int>)
    requires a.Valid() && b.Valid()
    ensures fresh(work) && work.Length == a.len + b.len
    ensures Digits(10, work[..]) && Val(10, work[..]) == a.Coeff() * b.Coeff()
  {
    hide Val, Pow;
    work := new int[a.len + b.len](_ => 0);
    ValZeros(10, work[..]);
    ghost var d, v := a.digits[..a.len], b.Coeff();
    ValEmpty();
    var i := 0;
    while i < a.len
      invariant 0 <= i <= a.len
      invariant forall k :: 0 <= k < work.Length ==> work[k] >= 0
      invariant Val(10, work[..]) == Val(10, d[..i]) * (v * Pow(10, a.len - i))
    {
      ValSnoc(d, i);
      assert 0 <= d[i] < 10;
      PowStep(a.len - i);
      RowStep(Val(10, d[..i]), d[i], v, Pow(10, a.len - i - 1));
      AddRow(work, a.digits[i], b, i + 1);
      i := i + 1;
    }
    assert d[..a.len] == d;
    PowZero();
    CarrySweep(work);
    ProductFits(a, b);
    TopCellIsDigit(10, work[..]);
  }

  lemma ValEmpty()
    ensures forall d: seq<int> :: |d| == 0 ==> Val(10, d) == 0
    ensures forall d: seq<int> :: |d| >= 0 ==> Val(10, d[..0]) == 0
  {
  }

  lemma ValSnoc(d: seq<int>, i: nat)
    requires i < |d|
    ensures Val(10, d[..i + 1]) == Val(10, d[..i]) * 10 + d[i]
  {
    assert d[..i + 1][..i] == d[..i];
  }

  lemma PowStep(n: nat)
    requires n > 0
    ensures Pow(10, n) == 10 * Pow(10, n - 1)
  {
  }

  lemma PowZero()
    ensures Pow(10, 0) == 1
  {
  }

  lemma ProductFits(a: Number, b: Number)
    requires a.Valid() && b.Valid()
    ensures 0 <= a.Coeff() * b.Coeff() < Pow(10, a.len + b.len)
  {
    ValBound(10, a.digits[..a.len]);
    ValBound(10, b.digits[..b.len]);
    PowAdd(10, a.len, b.len);
    PowPositive(10, a.len);
    MulLe(a.Coeff(), Pow(10, a.len), b.Coeff());
    MulLt(b.Coeff(), Pow(10, b.len), Pow(10, a.len));
    MulLe(0, a.Coeff(), b.Coeff());
  }

  method Mul(a: Number, b: Number, d: nat) returns (r: Number)
    requires a.Canon() && b.Canon() && d >= 1
    ensures fresh(r) && fresh(r.digits) && r.Canon()
    ensures r.Value() == Product(a.Value(), b.Value(), d)
  {
    hide Val, Pow, Norm, HalfUp, Len10;
    CanonForm(a);
    CanonForm(b);
    var work := ProductDigits(a, b);
    r := TakeDigits(work, a.exp + b.exp);
    r.sign := a.sign != b.sign;
    Round(r, d);
  }
}
