/** What the text of a number looks like, by the number's size. */
module NumberShape {
  import opened Options
  import opened Positional
  import opened Decimal
  import opened Numbers
  import opened AddSubMul
  import opened NumberText

  /** 10^lo <= |v| < 10^hi, both counted in units of 10^e. */
  predicate Between(v: Dec, lo: int, hi: int, e: int)
    requires e <= v.exp && e <= lo && e <= hi
  {
    Pow(10, lo - e) <= v.coeff * Pow(10, v.exp - e) < Pow(10, hi - e)
  }

  lemma PowOrder(m: nat, n: nat)
    ensures Pow(10, m) < Pow(10, n) <==> m < n
  {
    if m < n {
      PowMonotone(10, m + 1, n);
      PowPositive(10, m);
      PowUp(m);
    } else {
      PowMonotone(10, n, m);
    }
  }

  lemma PowUp(m: nat)
    ensures Pow(10, m + 1) == 10 * Pow(10, m)
  {
  }

  /** The first digit's place tells the size, whatever the unit. */
  lemma BetweenIs(v: Dec, lo: int, hi: int, e: int)
    requires v.coeff > 0 && e <= v.exp && e <= lo && e <= hi
    ensures Between(v, lo, hi, e) <==> lo <= Adjusted(v) < hi
  {
    hide Pow, Len10;
    var p, q := v.exp - e, Len10(v.coeff);
    LenBounds(v.coeff);
    PowAdd(10, q - 1, p);
    PowAdd(10, q, p);
    PowPositive(10, p);
    MulLe(Pow(10, q - 1), v.coeff, Pow(10, p));
    MulLt(v.coeff, Pow(10, q), Pow(10, p));
    var m := v.coeff * Pow(10, p);
    assert Pow(10, q - 1 + p) <= m < Pow(10, q + p);
    PowOrder(q - 1 + p, lo - e);
    PowOrder(lo - e, q + p);
    PowOrder(q - 1 + p, hi - e);
    PowOrder(hi - e, q + p);
  }

  // ---- Shapes ------------------------------------------------------------------------------

  function SignText(neg: bool): string { if neg then "-" else "" }

  /** Digits, and a point only in front of a fraction. */
  function Numeral(ip: string, fp: string): string { ip + if fp == "" then "" else "." + fp }

  /** No zero in front of another digit of the whole part, none at the end of the fraction. */
  predicate Tidy(ip: string, fp: string)
  {
    && AllDigits(ip) && AllDigits(fp) && ip != ""
    && (|ip| > 1 ==> ip[0] != '0') && (fp != "" ==> fp[|fp| - 1] != '0')
  }

  /** Without an exponent. */
  predicate PlainText(t: string, neg: bool, ip: string, fp: string)
  {
    t == SignText(neg) + Numeral(ip, fp) && Tidy(ip, fp)
  }

  /** With exponent x, whose sign is always written. */
  predicate ExponentialText(t: string, neg: bool, ip: string, fp: string, x: int)
  {
    && t == SignText(neg) + Numeral(ip, fp) + (if x < 0 then "E-" else "E+") + Decimals(if x < 0 then -x else x)
    && Tidy(ip, fp) && ip[0] != '0'
  }

  lemma {:induction false} DecimalsEnds(c: nat)
    ensures AllDigits(Decimals(c)) && Decimals(c) != ""
    ensures c > 0 ==> Decimals(c)[0] != '0'
    ensures c % 10 != 0 ==> Decimals(c)[|Decimals(c)| - 1] != '0'
  {
    if c >= 10 { DecimalsEnds(c / 10); }
  }

  /** The first n digits and the rest. */
  lemma PointedIs(ds: string, n: nat) returns (ip: string, fp: string)
    requires AllDigits(ds) && ds != "" && ds[0] != '0' && ds[|ds| - 1] != '0' && n >= 1
    ensures Pointed(ds, n) == Numeral(ip, fp) && Tidy(ip, fp) && |ip| == n && ip[0] != '0'
  {
    ip := Leading(ds, n);
    fp := if n < |ds| then ds[n..] else "";
    if n < |ds| { assert fp[|fp| - 1] == ds[|ds| - 1]; }
  }

  lemma NoE(t: string)
    requires forall i :: 0 <= i < |t| ==> IsDigit(t[i]) || t[i] == '.' || t[i] == '-'
    ensures 'E' !in t
  {
  }

  lemma PlainHasNoE(neg: bool, ip: string, fp: string)
    requires Tidy(ip, fp)
    ensures 'E' !in SignText(neg) + Numeral(ip, fp)
  {
    NoE(SignText(neg) + Numeral(ip, fp));
  }

  /**
   * The text of a canonical number other than 0 has an exponent exactly if the number is smaller than 10^-5 or has more
   * than d + 1 digits in front of the point.
   */
  lemma HasExponent(v: Dec, d: nat, form: Form, e: int)
    requires Canonical(v) && v.coeff > 0 && e <= v.exp && e <= -5
    ensures 'E' !in FormatNum(v, d, form) <==> Between(v, -5, d + 1, e)
  {
    hide Pow, Len10, Between, Decimals, Canonical, ExponentPart, Pointed;
    BetweenIs(v, -5, d + 1, e);
    if -5 <= Adjusted(v) <= d {
      var ip, fp := PlainShape(v, d, form);
      PlainHasNoE(v.neg, ip, fp);
    } else {
      ExponentShows(v, d, form);
    }
  }

  lemma ExponentShows(v: Dec, d: nat, form: Form)
    requires v.coeff > 0 && !(-5 <= Adjusted(v) <= d)
    ensures 'E' in FormatNum(v, d, form)
  {
    hide Pow, Len10, Decimals, Pointed, LowTen;
    var adj := Adjusted(v);
    var b := Before(adj, form);
    var x := adj - (b - 1);
    var t := FormatNum(v, d, form);
    var head := SignText(v.neg) + Pointed(Decimals(v.coeff), b);
    assert t == head + ExponentPart(x);
    assert ExponentPart(x)[0] == 'E';
    assert t[|head|] == 'E';
  }

  /** Then it is the digits with a point, and nothing that could be left out. */
  lemma PlainShape(v: Dec, d: nat, form: Form) returns (ip: string, fp: string)
    requires Canonical(v) && v.coeff > 0 && -5 <= Adjusted(v) <= d
    ensures PlainText(FormatNum(v, d, form), v.neg, ip, fp)
  {
    hide Pow, Len10, Decimals, Pointed;
    var ds, adj := Decimals(v.coeff), Adjusted(v);
    DecimalsEnds(v.coeff);
    if adj >= 0 {
      ip, fp := PointedIs(ds, adj + 1);
    } else {
      ip, fp := "0", Zeros(-(adj + 1)) + ds;
      assert fp[|fp| - 1] == ds[|ds| - 1];
      assert "0." == "0" + ".";
    }
  }

  /** Otherwise there is one digit in front of the point, or under ENGINEERING one to three and an exponent divisible by 3. */
  lemma ExponentialShape(v: Dec, d: nat, form: Form) returns (ip: string, fp: string, x: int)
    requires Canonical(v) && v.coeff > 0 && IntExponent(v) && !(-5 <= Adjusted(v) <= d)
    ensures ExponentialText(FormatNum(v, d, form), v.neg, ip, fp, x)
    ensures form.Scientific? ==> |ip| == 1
    ensures form.Engineering? ==> 1 <= |ip| <= 3 && x % 3 == 0
  {
    hide *;
    var ds, adj := Decimals(v.coeff), Adjusted(v);
    DecimalsEnds(v.coeff);
    LastDigitStays(v);
    var b := Before(adj, form);
    BeforeIs(adj, form);
    x := adj - (b - 1);
    ip, fp := PointedIs(ds, b);
    ExponentialBody(v, d, form);
    ExponentIs(v, form);
    ExponentialIs(FormatNum(v, d, form), v.neg, ip, fp, x);
  }

  lemma LastDigitStays(v: Dec)
    requires Canonical(v) && v.coeff > 0
    ensures v.coeff % 10 != 0
  {
  }

  lemma BeforeIs(adj: int, form: Form)
    ensures form.Scientific? ==> Before(adj, form) == 1
    ensures form.Engineering? ==> 1 <= Before(adj, form) <= 3 && (adj - (Before(adj, form) - 1)) % 3 == 0
    ensures adj - 2 <= adj - (Before(adj, form) - 1) <= adj
  {
  }

  lemma ExponentialBody(v: Dec, d: nat, form: Form)
    requires v.coeff > 0 && !(-5 <= Adjusted(v) <= d)
    ensures var b := Before(Adjusted(v), form);
            FormatNum(v, d, form) == SignText(v.neg) + (Pointed(Decimals(v.coeff), b) + ExponentPart(Adjusted(v) - (b - 1)))
  {
    hide Decimals, Pointed, ExponentPart, Before, Adjusted;
  }

  lemma ExponentIs(v: Dec, form: Form)
    requires IntExponent(v)
    ensures var x := Adjusted(v) - (Before(Adjusted(v), form) - 1);
            ExponentPart(x) == (if x < 0 then "E-" else "E+") + Decimals(if x < 0 then -x else x)
  {
    hide Decimals, Len10, Before, LowTen;
    BeforeIs(Adjusted(v), form);
    var x := Adjusted(v) - (Before(Adjusted(v), form) - 1);
    ExponentDigits(if x < 0 then -x else x);
    NoCut(if x < 0 then -x else x);
  }

  lemma ExponentialIs(t: string, neg: bool, ip: string, fp: string, x: int)
    requires Tidy(ip, fp) && ip[0] != '0'
    requires t == SignText(neg) + (Numeral(ip, fp) + ((if x < 0 then "E-" else "E+") + Decimals(if x < 0 then -x else x)))
    ensures ExponentialText(t, neg, ip, fp, x)
  {
    hide Tidy, Numeral, Decimals, SignText;
  }

  lemma NoCut(x: nat)
    requires Len10(x) <= 10
    ensures LowTen(Decimals(x)) == Decimals(x)
  {
  }

  /** The whole of it. */
  lemma TextOfNumber(v: Dec, d: nat, form: Form, e: int) returns (ip: string, fp: string, x: int)
    requires Canonical(v) && v.coeff > 0 && IntExponent(v) && e <= v.exp && e <= -5
    ensures Between(v, -5, d + 1, e) ==> PlainText(FormatNum(v, d, form), v.neg, ip, fp)
    ensures !Between(v, -5, d + 1, e) ==>
              ExponentialText(FormatNum(v, d, form), v.neg, ip, fp, x)
              && (form.Scientific? ==> |ip| == 1) && (form.Engineering? ==> 1 <= |ip| <= 3 && x % 3 == 0)
  {
    hide Between, FormatNum, Canonical, PlainText, ExponentialText, Adjusted;
    BetweenIs(v, -5, d + 1, e);
    if Between(v, -5, d + 1, e) {
      ip, fp := PlainShape(v, d, form);
      x := 0;
    } else {
      ip, fp, x := ExponentialShape(v, d, form);
    }
  }

  lemma ZeroText(d: nat, form: Form)
    ensures FormatNum(ZERO, d, form) == "0"
  {
  }

  /** Five hundredths, and the smallest power of ten without an exponent. */
  lemma PlainInstances()
    ensures FormatNum(Dec(false, 5, -2), 9, Scientific) == "0.05"
    ensures FormatNum(Dec(false, 1, -5), 9, Scientific) == "0.00001"
    ensures FormatNum(Dec(true, 12, 8), 9, Scientific) == "-1200000000"
  {
    FewDigits();
    hide Decimals, Len10, Zeros;
  }

  /** The next power of ten, and a large number in both forms. */
  lemma ExponentInstances()
    ensures FormatNum(Dec(false, 1, -6), 9, Scientific) == "1E-6"
    ensures FormatNum(Dec(false, 12, 10), 9, Scientific) == "1.2E+11"
    ensures FormatNum(Dec(false, 12, 10), 9, Engineering) == "120E+9"
  {
    FewDigits();
    hide Decimals, Len10, Zeros;
  }

  lemma FewDigits()
    ensures Decimals(5) == "5" && Decimals(1) == "1" && Decimals(6) == "6" && Decimals(9) == "9"
    ensures Decimals(12) == "12" && Decimals(11) == "11"
    ensures Len10(5) == Len10(1) == 1 && Len10(12) == 2 && Len10(6) == Len10(9) == 1 && Len10(11) == 2
    ensures Zeros(1) == "0" && Zeros(4) == "0000" && Zeros(7) == "0000000" && Zeros(8) == "00000000"
  {
    assert Decimals(12) == Decimals(1) + ['2'] && Decimals(11) == Decimals(1) + ['1'];
  }
}
