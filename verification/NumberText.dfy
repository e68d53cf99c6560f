/** Reading a number from text and writing it back. */
module NumberText {
  import opened Options
  import opened Positional
  import opened Decimal
  import opened Numbers
  import opened AddSubMul

  datatype Form = Scientific | Engineering

  const FIXED_POINT_MIN_EXP := -5
  const ENG_EXP_MULTIPLE := 3

  // ---- What a number string means --------------------------------------

  predicate IsBlank(c: char) { c == ' ' || c == '\t' }

  predicate IsDigit(c: char) { '0' <= c <= '9' }

  function DigitOf(c: char): (d: nat)
    requires IsDigit(c)
    ensures d < 10
  {
    c as int - '0' as int
  }

  function CharOf(d: int): (c: char)
    requires 0 <= d < 10
    ensures IsDigit(c) && DigitOf(c) == d
  {
    ('0' as int + d) as char
  }

  function SkipBlanks(s: string, i: nat): (j: nat)
    requires i <= |s|
    ensures i <= j <= |s| && (j < |s| ==> !IsBlank(s[j]))
    decreases |s| - i
  {
    if i < |s| && IsBlank(s[i]) then SkipBlanks(s, i + 1) else i
  }

  /** Coefficient digits and the place of the point, as far as the scan has come. */
  datatype Mantissa = Mantissa(next: nat, digits: seq<int>, point: Option<nat>, ok: bool)

  function ScanMantissa(s: string, i: nat, digits: seq<int>, point: Option<nat>): (m: Mantissa)
    requires i <= |s| && Digits(10, digits)
    ensures i <= m.next <= |s| && Digits(10, m.digits)
    ensures point.Some? ==> m.point == point
    decreases |s| - i
  {
    if i < |s| && IsDigit(s[i]) then ScanMantissa(s, i + 1, digits + [DigitOf(s[i])], point)
    else if i < |s| && s[i] == '.' then
      if point.Some? then Mantissa(i, digits, point, false)
      else ScanMantissa(s, i + 1, digits, Some(|digits|))
    else Mantissa(i, digits, point, true)
  }

  function ScanInt(s: string, i: nat, acc: nat): (r: (nat, nat))
    requires i <= |s|
    ensures i <= r.0 <= |s|
    decreases |s| - i
  {
    if i < |s| && IsDigit(s[i]) then ScanInt(s, i + 1, acc * 10 + DigitOf(s[i])) else (i, acc)
  }

  predicate IsE(c: char) { c == 'E' || c == 'e' }

  /** An exponent part at i, if there is one: where it ends and its value. */
  function ScanExponent(s: string, i: nat): (r: (nat, int))
    requires i <= |s|
    ensures i <= r.0 <= |s|
  {
    if i < |s| && IsE(s[i]) then
      var neg := i + 1 < |s| && s[i + 1] == '-';
      var j := if i + 1 < |s| && (s[i + 1] == '+' || s[i + 1] == '-') then i + 2 else i + 1;
      var (k, v) := ScanInt(s, j, 0);
      (k, Sgn(neg, v))
    else (i, 0)
  }

  /** The number s denotes: blanks, sign, digits with at most one point, exponent, blanks. */
  function ParseNum(s: string): (r: Option<Dec>)
    ensures r.Some? ==> Canonical(r.value)
  {
    var i := SkipBlanks(s, 0);
    if i >= |s| then None
    else
      var neg := s[i] == '-';
      var j := if s[i] == '-' || s[i] == '+' then i + 1 else i;
      var m := ScanMantissa(s, j, [], None);
      if !m.ok then None
      else
        var (k, e) := ScanExponent(s, m.next);
        if SkipBlanks(s, k) < |s| || |m.digits| == 0 then None
        else Some(ValueOf(neg, m, e))
  }

  function ValueOf(neg: bool, m: Mantissa, e: int): Dec
    requires Digits(10, m.digits)
  {
    ValBound(10, m.digits);
    Norm(neg, Val(10, m.digits), if m.point.Some? then e - (|m.digits| - m.point.value) else e)
  }

  // ---- num_from_str ----------------------------------------------------

  method SkipBlanksFrom(s: string, i: nat) returns (j: nat)
    requires i <= |s|
    ensures j == SkipBlanks(s, i)
  {
    j := i;
    while j < |s| && IsBlank(s[j])
      invariant i <= j <= |s| && SkipBlanks(s, j) == SkipBlanks(s, i)
    {
      j := j + 1;
    }
  }

  /** The exponent loop: digits from j on, added to a running value. */
  method ReadInt(s: string, j: nat) returns (k: nat, v: nat)
    requires j <= |s|
    ensures (k, v) == ScanInt(s, j, 0)
  {
    k, v := j, 0;
    while k < |s| && IsDigit(s[k])
      invariant j <= k <= |s| && ScanInt(s, k, v) == ScanInt(s, j, 0)
    {
      v := v * 10 + DigitOf(s[k]);
      k := k + 1;
    }
  }

  method ReadExponent(s: string, i: nat) returns (k: nat, e: int)
    requires i <= |s|
    ensures (k, e) == ScanExponent(s, i)
  {
    if i >= |s| || !IsE(s[i]) { return i, 0; }
    var j := i + 1;
    var neg := false;
    if j < |s| && s[j] == '+' {
      j := j + 1;
    } else if j < |s| && s[j] == '-' {
      neg := true;
      j := j + 1;
    }
    var v: nat;
    k, v := ReadInt(s, j);
    e := Sgn(neg, v);
  }

  /** Coefficient digits into n.digits; point is -1 until a '.' is met. */
  method ReadMantissa(s: string, j: nat, a: array<int>) returns (ok: bool, i: nat, nraw: nat, point: int)
    requires j <= |s| && a.Length >= |s|
    modifies a
    ensures ok == ScanMantissa(s, j, [], None).ok
    ensures nraw <= a.Length && i <= |s|
    ensures ok ==> ScanMantissa(s, j, [], None) == Mantissa(i, a[..nraw], if point < 0 then None else Some(point), true)
  {
    i, nraw, point, ok := j, 0, -1, true;
    while i < |s| && (IsDigit(s[i]) || s[i] == '.')
      invariant j <= i <= |s| && 0 <= nraw <= i - j && Digits(10, a[..nraw]) && -1 <= point
      invariant ScanMantissa(s, i, a[..nraw], if point < 0 then None else Some(point)) == ScanMantissa(s, j, [], None)
    {
      if IsDigit(s[i]) {
        ghost var t := a[..nraw];
        a[nraw] := DigitOf(s[i]);
        nraw := nraw + 1;
        assert a[..nraw] == t + [DigitOf(s[i])];
      } else {
        if point >= 0 { return false, i, nraw, point; }
        point := nraw;
      }
      i := i + 1;
    }
  }

  method FromStr(s: string) returns (ok: bool, n: Number)
    ensures fresh(n) && fresh(n.digits)
    ensures ok == ParseNum(s).Some?
    ensures ok ==> n.Canon() && n.Value() == ParseNum(s).value
  {
    hide Val, Norm, ScanInt, SkipBlanks, ScanMantissa, ScanExponent, ValueOf;
    n := new Number(|s| + 8);
    var i := SkipBlanksFrom(s, 0);
    if i >= |s| { return false, n; }
    var neg := s[i] == '-';
    if s[i] == '-' || s[i] == '+' { i := i + 1; }
    var good, j, nraw, point := ReadMantissa(s, i, n.digits);
    if !good { return false, n; }
    var k, e := ReadExponent(s, j);
    var end := SkipBlanksFrom(s, k);
    if end < |s| || nraw == 0 { return false, n; }
    Finish(n, neg, j, nraw, point, e);
    ok := true;
  }

  /** Sign, exponent and length, then canonical form. */
  method Finish(n: Number, neg: bool, ghost next: nat, nraw: nat, point: int, e: int)
    requires 1 <= nraw <= n.digits.Length && Digits(10, n.digits[..nraw])
    modifies n, n.digits
    ensures n.digits == old(n.digits) && n.Canon()
    ensures n.Value() == ValueOf(neg, old(Mantissa(next, n.digits[..nraw], if point < 0 then None else Some(point), true)), e)
  {
    hide Val, Norm;
    n.sign := neg;
    n.exp := if point >= 0 then e - (nraw - point) else e;
    n.len := nraw;
    StripLeading(n);
    StripTrailing(n);
  }

  // ---- Writing ---------------------------------------------------------

  /** c in decimal notation, without leading zeros. */
  function Decimals(c: nat): (s: string)
    ensures |s| == Len10(c) && forall i :: 0 <= i < |s| ==> IsDigit(s[i])
  {
    if c < 10 then [CharOf(c)] else Decimals(c / 10) + [CharOf(c % 10)]
  }

  function Zeros(n: nat): (s: string)
    ensures |s| == n
  {
    seq(n, _ => '0')
  }

  /** The first n digits, filled up with zeros. */
  function Leading(ds: string, n: nat): (s: string)
    ensures |s| == n
  {
    if n <= |ds| then ds[..n] else ds + Zeros(n - |ds|)
  }

  /** The first n digits, a point, and the rest, if there is a rest. */
  function Pointed(ds: string, n: nat): string
  {
    Leading(ds, n) + if n < |ds| then "." + ds[n..] else ""
  }

  function Adjusted(v: Dec): int { v.exp + Len10(v.coeff) - 1 }

  /** How many digits stand before the point in exponential notation. */
  function Before(adj: int, form: Form): nat
  {
    if form.Engineering? then adj % ENG_EXP_MULTIPLE + 1 else 1
  }

  const EXPONENT_DIGITS := 10

  /** The exponent buffer holds ten digits; a C int needs no more. */
  function LowTen(s: string): string
  {
    if |s| <= EXPONENT_DIGITS then s else s[|s| - EXPONENT_DIGITS..]
  }

  function ExponentPart(x: int): string
  {
    if x >= 0 then "E+" + LowTen(Decimals(x)) else "E-" + LowTen(Decimals(-x))
  }

  /** Digits ds with the first of them worth 10^adj: in full while adj is small, else with an exponent. */
  function FormatBody(ds: string, adj: int, d: nat, form: Form): string
  {
    if FIXED_POINT_MIN_EXP <= adj <= d then
      if adj >= 0 then Pointed(ds, adj + 1) else "0." + Zeros(-(adj + 1)) + ds
    else
      Pointed(ds, Before(adj, form)) + ExponentPart(adj - (Before(adj, form) - 1))
  }

  /** The text of v under NUMERIC DIGITS d and NUMERIC FORM form. */
  function FormatNum(v: Dec, d: nat, form: Form): string
  {
    if v.coeff == 0 then "0"
    else (if v.neg then "-" else "") + FormatBody(Decimals(v.coeff), Adjusted(v), d, form)
  }

  /** Exponents are C ints. */
  predicate IntExponent(v: Dec)
  {
    -0x8000_0000 <= Adjusted(v) <= 0x7fff_ffff
  }

  lemma ExponentDigits(x: nat)
    requires x < 10000000000
    ensures Len10(x) <= 10
  {
    assert Pow(10, 10) == 10000000000 by {
      assert Pow(10, 5) == 100000;
      PowAdd(10, 5, 5);
    }
    LenAtMost(x, 10);
  }

  /** A number of at most DIGITS digits needs fewer than DIGITS + 16 characters, so the buffer of
  DIGITS + 32 never cuts it off. */
  lemma FormatLength(v: Dec, d: nat, form: Form)
    requires Len10(v.coeff) <= d
    ensures |FormatNum(v, d, form)| < d + 16
  {
  }

  // ---- Reading back what was written -----------------------------------

  predicate AllDigits(t: string)
  {
    forall i :: 0 <= i < |t| ==> IsDigit(t[i])
  }

  function Nums(t: string): (d: seq<int>)
    requires AllDigits(t)
    ensures |d| == |t| && Digits(10, d)
    ensures forall i :: 0 <= i < |d| ==> d[i] == DigitOf(t[i])
  {
    seq(|t|, i requires 0 <= i < |t| => DigitOf(t[i]))
  }

  lemma {:induction false} NumsOfDecimals(c: nat)
    ensures Val(10, Nums(Decimals(c))) == c
  {
    if c < 10 {
      assert Nums([CharOf(c)]) == [c];
      ValSingle(10, c);
    } else {
      NumsOfDecimals(c / 10);
      var t := Decimals(c);
      assert Nums(t) == Nums(Decimals(c / 10)) + [c % 10];
      assert (Nums(Decimals(c / 10)) + [c % 10])[..|t| - 1] == Nums(Decimals(c / 10));
    }
  }

  lemma {:induction false} ScanDigits(s: string, i: nat, t: string, digits: seq<int>, point: Option<nat>)
    requires i + |t| <= |s| && s[i..i + |t|] == t && AllDigits(t) && Digits(10, digits)
    ensures ScanMantissa(s, i, digits, point) == ScanMantissa(s, i + |t|, digits + Nums(t), point)
    decreases |t|
  {
    if |t| == 0 {
      assert digits + Nums(t) == digits;
    } else {
      assert s[i] == s[i..i + |t|][0] == t[0];
      assert s[i + 1..i + |t|] == s[i..i + |t|][1..] == t[1..];
      ScanDigits(s, i + 1, t[1..], digits + [DigitOf(t[0])], point);
      assert digits + [DigitOf(t[0])] + Nums(t[1..]) == digits + Nums(t);
    }
  }

  lemma {:induction false} ScanIntDigits(s: string, i: nat, t: string, acc: nat)
    requires i + |t| == |s| && s[i..] == t && AllDigits(t)
    ensures ScanInt(s, i, acc) == (|s|, acc * Pow(10, |t|) + (ValBound(10, Nums(t)); Val(10, Nums(t)) as nat))
    decreases |t|
  {
    if |t| > 0 {
      var x, n := DigitOf(t[0]), |t| - 1;
      assert s[i] == t[0] && s[i + 1..] == t[1..];
      ScanIntDigits(s, i + 1, t[1..], acc * 10 + x);
      ValTop(10, Nums(t));
      assert Nums(t)[1..] == Nums(t[1..]);
      MulDistrib(acc * 10, x, Pow(10, n));
      MulAssoc(acc, 10, Pow(10, n));
    }
  }

  function Fraction(dot: bool, fp: string): string { if dot then "." + fp else "" }

  function Exponent(given: bool, x: int): string { if given then ExponentPart(x) else "" }

  lemma ReadsExponent(s: string, i: nat, given: bool, x: int)
    requires i <= |s| && s[i..] == Exponent(given, x) && -10000000000 < x < 10000000000
    ensures ScanExponent(s, i) == (|s|, if given then x else 0)
  {
    if given {
      var t := Decimals(if x >= 0 then x else -x);
      ExponentDigits(if x >= 0 then x else -x);
      assert s[i..] == (if x >= 0 then "E+" else "E-") + t;
      assert s[i] == s[i..][0] && s[i + 1] == s[i..][1] && s[i + 2..] == s[i..][2..] == t;
      ScanIntDigits(s, i + 2, t, 0);
      NumsOfDecimals(if x >= 0 then x else -x);
    }
  }

  lemma ReadsWhole(s: string, i: nat, ip: string)
    requires AllDigits(ip) && i + |ip| <= |s| && s[i..i + |ip|] == ip
    requires i + |ip| < |s| ==> s[i + |ip|] == 'E'
    ensures ScanMantissa(s, i, [], None) == Mantissa(i + |ip|, Nums(ip), None, true)
  {
    hide ScanMantissa;
    ScanDigits(s, i, ip, [], None);
    assert [] + Nums(ip) == Nums(ip);
    ScanStop(s, i + |ip|, Nums(ip), None);
  }

  lemma ReadsFraction(s: string, i: nat, ip: string, fp: string)
    requires AllDigits(ip) && AllDigits(fp) && i + |ip| + 1 + |fp| <= |s|
    requires s[i..i + |ip|] == ip && s[i + |ip|] == '.' && s[i + |ip| + 1..i + |ip| + 1 + |fp|] == fp
    requires i + |ip| + 1 + |fp| < |s| ==> s[i + |ip| + 1 + |fp|] == 'E'
    ensures ScanMantissa(s, i, [], None) == Mantissa(i + |ip| + 1 + |fp|, Nums(ip + fp), Some(|ip|), true)
  {
    hide ScanMantissa;
    var d := Nums(ip);
    ScanDigits(s, i, ip, [], None);
    assert [] + d == d;
    ScanPoint(s, i + |ip|, d);
    ScanDigits(s, i + |ip| + 1, fp, d, Some(|ip|));
    assert d + Nums(fp) == Nums(ip + fp);
    ScanStop(s, i + |ip| + 1 + |fp|, Nums(ip + fp), Some(|ip|));
  }

  lemma ReadsMantissa(s: string, i: nat, ip: string, dot: bool, fp: string, k: nat)
    requires AllDigits(ip) && AllDigits(fp) && (!dot ==> fp == "")
    requires k == i + |ip| + |Fraction(dot, fp)| <= |s| && (k < |s| ==> s[k] == 'E')
    requires s[i..i + |ip|] == ip && s[i + |ip|..k] == Fraction(dot, fp)
    ensures ScanMantissa(s, i, [], None) == Mantissa(k, Nums(ip + fp), if dot then Some(|ip|) else None, true)
  {
    hide ScanMantissa, Nums;
    if dot {
      var u := s[i + |ip|..k];
      assert u[0] == '.' && u[1..] == fp;
      assert s[i + |ip|] == u[0] && s[i + |ip| + 1..k] == u[1..];
      ReadsFraction(s, i, ip, fp);
    } else {
      assert ip + fp == ip;
      ReadsWhole(s, i, ip);
    }
  }

  lemma ScanPoint(s: string, j: nat, digits: seq<int>)
    requires j < |s| && s[j] == '.' && Digits(10, digits)
    ensures ScanMantissa(s, j, digits, None) == ScanMantissa(s, j + 1, digits, Some(|digits|))
  {
  }

  lemma ScanStop(s: string, k: nat, digits: seq<int>, point: Option<nat>)
    requires k <= |s| && (k < |s| ==> s[k] == 'E') && Digits(10, digits)
    ensures ScanMantissa(s, k, digits, point) == Mantissa(k, digits, point, true)
  {
  }

  // The pieces of a literal sit one behind the other.
  lemma LiteralPieces(s: string, sign: string, ip: string, fr: string, ex: string)
    requires s == sign + ip + fr + ex
    ensures var i := |sign|;
            |s| == i + |ip| + |fr| + |ex| && s[..i] == sign && s[i..i + |ip|] == ip
            && s[i + |ip|..i + |ip| + |fr|] == fr && s[i + |ip| + |fr|..] == ex
  {
  }

  lemma NoBlanksAt(s: string, i: nat)
    requires i <= |s| && (i < |s| ==> !IsBlank(s[i]))
    ensures SkipBlanks(s, i) == i
  {
  }

  /** Any text of this shape is read as its digits say. */
  lemma ReadsLiteral(s: string, neg: bool, ip: string, dot: bool, fp: string, given: bool, x: int)
    requires AllDigits(ip) && AllDigits(fp) && |ip| > 0 && (!dot ==> fp == "")
    requires s == (if neg then "-" else "") + ip + Fraction(dot, fp) + Exponent(given, x)
    requires -10000000000 < x < 10000000000
    ensures Val(10, Nums(ip + fp)) >= 0
    ensures ParseNum(s) == Some(Norm(neg, Val(10, Nums(ip + fp)), (if given then x else 0) - |fp|))
  {
    hide Norm, Val, ScanInt, ScanExponent, ScanMantissa, SkipBlanks;
    var sign := if neg then "-" else "";
    var fr, ex := Fraction(dot, fp), Exponent(given, x);
    LiteralPieces(s, sign, ip, fr, ex);
    var i := |sign|;
    var k := i + |ip| + |fr|;
    assert s[i] == s[i..i + |ip|][0] == ip[0];
    assert neg ==> s[0] == s[..i][0] == '-';
    assert k < |s| ==> s[k] == s[k..][0] == 'E';
    NoBlanksAt(s, 0);
    NoBlanksAt(s, |s|);
    ReadsMantissa(s, i, ip, dot, fp, k);
    ReadsExponent(s, k, given, x);
    ValBound(10, Nums(ip + fp));
  }

  lemma DecimalsValue(c: nat, n: nat)
    ensures AllDigits(Decimals(c) + Zeros(n)) && AllDigits(Zeros(n) + Decimals(c))
    ensures Val(10, Nums(Decimals(c) + Zeros(n))) == c * Pow(10, n)
    ensures Val(10, Nums("0" + (Zeros(n) + Decimals(c)))) == c
  {
    hide Val;
    var d, z := Nums(Decimals(c)), seq(n, _ => 0);
    NumsOfDecimals(c);
    assert Nums(Decimals(c) + Zeros(n)) == d + z;
    ValPadZeros(10, d, z);
    var t := Nums("0" + (Zeros(n) + Decimals(c)));
    ValSkipZeros(10, t, n + 1);
    assert t[n + 1..] == d;
  }

  /** A pointed digit string with an exponent that puts the point back is read as the number. */
  lemma ReadsPointed(s: string, v: Dec, n: nat, given: bool, x: int)
    requires Canonical(v) && v.coeff > 0 && n >= 1 && -10000000000 < x < 10000000000
    requires s == (if v.neg then "-" else "") + Pointed(Decimals(v.coeff), n) + Exponent(given, x)
    requires (if given then x else 0) == v.exp + Len10(v.coeff) - n
    ensures ParseNum(s) == Some(v)
  {
    if n < |Decimals(v.coeff)| { ReadsSplit(s, v, n, given, x); } else { ReadsPadded(s, v, n, given, x); }
  }

  lemma ReadsSplit(s: string, v: Dec, n: nat, given: bool, x: int)
    requires Canonical(v) && 1 <= n < |Decimals(v.coeff)| && -10000000000 < x < 10000000000
    requires s == (if v.neg then "-" else "") + Pointed(Decimals(v.coeff), n) + Exponent(given, x)
    requires (if given then x else 0) == v.exp + Len10(v.coeff) - n
    ensures ParseNum(s) == Some(v)
  {
    hide Val, Norm, ParseNum, Pow, Decimals, Exponent, Pointed, Fraction, AllDigits, Nums, Len10, Canonical;
    var sign, ds := if v.neg then "-" else "", Decimals(v.coeff);
    NormOfCanonical(v);
    NumsOfDecimals(v.coeff);
    SplitDigits(ds, n);
    assert sign + Pointed(ds, n) + Exponent(given, x) == sign + ds[..n] + Fraction(true, ds[n..]) + Exponent(given, x);
    ReadsLiteral(s, v.neg, ds[..n], true, ds[n..], given, x);
  }

  // The point written into a string of digits parts it in two.
  lemma SplitDigits(ds: string, n: nat)
    requires AllDigits(ds) && 1 <= n < |ds|
    ensures AllDigits(ds[..n]) && AllDigits(ds[n..]) && ds[..n] + ds[n..] == ds
    ensures Pointed(ds, n) == ds[..n] + Fraction(true, ds[n..])
  {
  }

  lemma ReadsPadded(s: string, v: Dec, n: nat, given: bool, x: int)
    requires Canonical(v) && n >= |Decimals(v.coeff)| && -10000000000 < x < 10000000000
    requires s == (if v.neg then "-" else "") + Pointed(Decimals(v.coeff), n) + Exponent(given, x)
    requires (if given then x else 0) == v.exp + Len10(v.coeff) - n
    ensures ParseNum(s) == Some(v)
  {
    hide Val, Norm, ParseNum, Pow, Decimals, ExponentPart;
    var sign, ds, z := if v.neg then "-" else "", Decimals(v.coeff), n - Len10(v.coeff);
    NormOfCanonical(v);
    assert s == sign + (ds + Zeros(z)) + Fraction(false, "") + Exponent(given, x);
    DecimalsValue(v.coeff, z);
    ReadsLiteral(s, v.neg, ds + Zeros(z), false, "", given, x);
    assert ds + Zeros(z) + "" == ds + Zeros(z);
    NormScale(v.neg, v.coeff, v.exp - z, z);
  }

  /** Reading what was written gives the number back, whatever DIGITS and FORM it was written under. */
  lemma PrintParse(v: Dec, d: nat, form: Form)
    requires Canonical(v) && IntExponent(v)
    ensures ParseNum(FormatNum(v, d, form)) == Some(v)
  {
    hide Norm, ParseNum, Decimals, Zeros, Pointed, ExponentPart;
    var adj := Adjusted(v);
    if v.coeff == 0 { ReadsZero(); }
    else if FIXED_POINT_MIN_EXP <= adj < 0 { ReadsBelowOne(v, d, form); }
    else { ReadsWithPoint(v, d, form); }
  }

  /** Nothing in front of the point but a zero. */
  lemma ReadsBelowOne(v: Dec, d: nat, form: Form)
    requires Canonical(v) && v.coeff > 0 && FIXED_POINT_MIN_EXP <= Adjusted(v) < 0
    ensures ParseNum(FormatNum(v, d, form)) == Some(v)
  {
    hide Val, Norm, ParseNum, Pointed, ExponentPart, Decimals, Zeros;
    var s := FormatNum(v, d, form);
    var fp := Zeros(-(Adjusted(v) + 1)) + Decimals(v.coeff);
    assert s == (if v.neg then "-" else "") + "0" + Fraction(true, fp) + Exponent(false, 0);
    DecimalsValue(v.coeff, -(Adjusted(v) + 1));
    ReadsLiteral(s, v.neg, "0", true, fp, false, 0);
    NormOfCanonical(v);
  }

  /** The digits with a point between or behind them, with an exponent or without. */
  lemma ReadsWithPoint(v: Dec, d: nat, form: Form)
    requires Canonical(v) && IntExponent(v) && v.coeff > 0 && !(FIXED_POINT_MIN_EXP <= Adjusted(v) < 0)
    ensures ParseNum(FormatNum(v, d, form)) == Some(v)
  {
    hide Val, Norm, ParseNum, Pointed, ExponentPart, Decimals, Zeros, Len10;
    var s := FormatNum(v, d, form);
    var sign, adj := if v.neg then "-" else "", Adjusted(v);
    var plain := adj <= d && adj >= 0;
    var n := if plain then adj + 1 else Before(adj, form);
    assert s == sign + Pointed(Decimals(v.coeff), n) + Exponent(!plain, adj - (n - 1));
    ReadsPointed(s, v, n, !plain, adj - (n - 1));
  }

  lemma ReadsZero()
    ensures ParseNum("0") == Some(ZERO)
  {
    hide Val, ParseNum;
    var s := "0";
    assert s == "" + s + Fraction(false, "") + Exponent(false, 0);
    ReadsLiteral(s, false, s, false, "", false, 0);
    assert Nums(s + "") == [0];
    ValSingle(10, 0);
  }
}
