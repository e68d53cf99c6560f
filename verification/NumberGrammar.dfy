/** Which texts are numbers and what they denote, said without a scan. */
module NumberGrammar {
  import opened Options
  import opened Positional
  import opened Decimal
  import opened Numbers
  import opened AddSubMul
  import opened NumberText

  datatype Power = NoPower | TenTo(mark: char, sign: string, digits: string)

  /** Blanks, a sign, digits with a point somewhere, a power of ten, blanks. */
  datatype Written = Written(lead: string, sign: string, ip: string, dot: bool, fp: string, power: Power, trail: string)

  predicate Blanks(t: string) { forall i :: 0 <= i < |t| ==> t[i] == ' ' || t[i] == '\t' }

  predicate IsSign(t: string) { t == "" || t == "+" || t == "-" }

  /** At least one digit before the power; the power's own digits may be missing. */
  predicate WellWritten(w: Written)
  {
    && Blanks(w.lead) && Blanks(w.trail) && IsSign(w.sign) && AllDigits(w.ip) && AllDigits(w.fp) && (!w.dot ==> w.fp == "")
    && |w.ip| + |w.fp| > 0
    && (w.power.TenTo? ==> (w.power.mark == 'E' || w.power.mark == 'e') && IsSign(w.power.sign) && AllDigits(w.power.digits))
  }

  function PowerText(p: Power): string
  {
    match p case NoPower => "" case TenTo(m, s, d) => [m] + s + d
  }

  function TextOf(w: Written): string
  {
    w.lead + w.sign + w.ip + Fraction(w.dot, w.fp) + PowerText(w.power) + w.trail
  }

  ghost function Count(t: string): (v: nat)
    requires AllDigits(t)
  {
    ValBound(10, Nums(t));
    Val(10, Nums(t))
  }

  ghost function Ten(p: Power): int
    requires p.TenTo? ==> AllDigits(p.digits)
  {
    match p case NoPower => 0 case TenTo(_, s, d) => if s == "-" then -(Count(d) as int) else Count(d)
  }

  /** All its digits, the point and the power moving them. */
  ghost function Meaning(w: Written): Dec
    requires WellWritten(w)
  {
    Norm(w.sign == "-", Count(w.ip + w.fp), Ten(w.power) - |w.fp|)
  }

  // ---- Runs of one kind ----------------------------------------------------------------------

  lemma {:induction false} BlanksSkipped(s: string, i: nat, j: nat)
    requires i <= j <= |s| && (forall k :: i <= k < j ==> IsBlank(s[k])) && (j < |s| ==> !IsBlank(s[j]))
    ensures SkipBlanks(s, i) == j
    decreases j - i
  {
    if i < j { BlanksSkipped(s, i + 1, j); }
  }

  lemma {:induction false} SkippedBlanks(s: string, i: nat)
    requires i <= |s|
    ensures forall k :: i <= k < SkipBlanks(s, i) ==> IsBlank(s[k])
    decreases |s| - i
  {
    if i < |s| && IsBlank(s[i]) { SkippedBlanks(s, i + 1); }
  }

  /** Where the digits from i on end. */
  function Run(s: string, i: nat): (j: nat)
    requires i <= |s|
    ensures i <= j <= |s| && AllDigits(s[i..j]) && (j < |s| ==> !IsDigit(s[j]))
    decreases |s| - i
  {
    if i < |s| && IsDigit(s[i]) then
      var j := Run(s, i + 1);
      assert s[i..j] == [s[i]] + s[i + 1..j];
      j
    else i
  }

  lemma {:induction false} RunIs(s: string, i: nat, j: nat)
    requires i <= j <= |s| && AllDigits(s[i..j]) && (j < |s| ==> !IsDigit(s[j]))
    ensures Run(s, i) == j
    decreases j - i
  {
    if i < j {
      assert s[i] == s[i..j][0] && s[i + 1..j] == s[i..j][1..];
      RunIs(s, i + 1, j);
    }
  }

  lemma NothingCounted(s: string, i: nat)
    requires i <= |s|
    ensures s[i..i] == "" && Count("") == 0 && Pow(10, 0) == 1
  {
  }

  lemma CountTop(s: string, i: nat, j: nat)
    requires i < j <= |s| && AllDigits(s[i..j])
    ensures IsDigit(s[i]) && AllDigits(s[i + 1..j]) && Count(s[i..j]) == DigitOf(s[i]) * Pow(10, j - i - 1) + Count(s[i + 1..j])
  {
    hide Val, Pow;
    var t := s[i..j];
    assert t[1..] == s[i + 1..j] && t[0] == s[i];
    ValTop(10, Nums(t));
    assert Nums(t)[1..] == Nums(t[1..]);
  }

  lemma {:induction false} IntRun(s: string, i: nat, acc: nat)
    requires i <= |s|
    ensures var j := Run(s, i); ScanInt(s, i, acc) == (j, acc * Pow(10, j - i) + Count(s[i..j]))
    decreases |s| - i
  {
    hide Count;
    var j := Run(s, i);
    if i < j {
      var x := DigitOf(s[i]);
      IntRun(s, i + 1, acc * 10 + x);
      CountTop(s, i, j);
      var n := j - i - 1;
      MulDistrib(acc * 10, x, Pow(10, n));
      MulAssoc(acc, 10, Pow(10, n));
    } else {
      NothingCounted(s, i);
    }
  }

  /** What the scan for digits and a point amounts to. */
  lemma MantissaRun(s: string, i: nat)
    requires i <= |s|
    ensures var j := Run(s, i);
            ScanMantissa(s, i, [], None) ==
              if j < |s| && s[j] == '.' then
                var l := Run(s, j + 1);
                Mantissa(l, Nums(s[i..j] + s[j + 1..l]), Some(j - i), !(l < |s| && s[l] == '.'))
              else Mantissa(j, Nums(s[i..j]), None, true)
  {
    hide ScanMantissa, Run;
    var j := Run(s, i);
    var ip := s[i..j];
    ScanDigits(s, i, ip, [], None);
    assert [] + Nums(ip) == Nums(ip);
    if j < |s| && s[j] == '.' {
      var l := Run(s, j + 1);
      var fp := s[j + 1..l];
      ScanPoint(s, j, Nums(ip));
      ScanDigits(s, j + 1, fp, Nums(ip), Some(j - i));
      assert Nums(ip) + Nums(fp) == Nums(ip + fp);
      ScanHalts(s, l, Nums(ip + fp), Some(j - i));
    } else {
      ScanHalts(s, j, Nums(ip), None);
    }
  }

  lemma ScanHalts(s: string, k: nat, digits: seq<int>, point: Option<nat>)
    requires k <= |s| && Digits(10, digits) && (k < |s| ==> !IsDigit(s[k])) && (k < |s| && s[k] == '.' ==> point.Some?)
    ensures ScanMantissa(s, k, digits, point) == Mantissa(k, digits, point, !(k < |s| && s[k] == '.'))
  {
  }

  /** Where the digits of a power of ten at i start, if there is one. */
  function PowerStart(s: string, i: nat): nat
    requires i < |s|
  {
    if i + 1 < |s| && (s[i + 1] == '+' || s[i + 1] == '-') then i + 2 else i + 1
  }

  lemma PowerRun(s: string, i: nat)
    requires i <= |s|
    ensures i < |s| && (s[i] == 'E' || s[i] == 'e') ==>
              var j := PowerStart(s, i);
              var k := Run(s, j);
              ScanExponent(s, i) == (k, if i + 1 < |s| && s[i + 1] == '-' then -(Count(s[j..k]) as int) else Count(s[j..k]))
    ensures !(i < |s| && (s[i] == 'E' || s[i] == 'e')) ==> ScanExponent(s, i) == (i, 0)
  {
    if i < |s| && (s[i] == 'E' || s[i] == 'e') {
      IntRun(s, PowerStart(s, i), 0);
    }
  }

  // ---- Every such text is read ------------------------------------------------------------------

  lemma Pieces(w: Written, s: string)
    requires s == TextOf(w)
    ensures var a := |w.lead|;
            var b := a + |w.sign|;
            var j := b + |w.ip|;
            var c := j + |Fraction(w.dot, w.fp)|;
            var d := c + |PowerText(w.power)|;
            && |s| == d + |w.trail| && s[..a] == w.lead && s[a..b] == w.sign && s[b..j] == w.ip && s[j..c] == Fraction(w.dot, w.fp)
            && s[c..d] == PowerText(w.power) && s[d..] == w.trail
  {
  }

  lemma TextIsRead(w: Written)
    requires WellWritten(w)
    ensures ParseNum(TextOf(w)) == Some(Meaning(w))
  {
    hide Norm, ScanMantissa, ScanExponent, SkipBlanks, Val, TextOf, Count, PowerText, Fraction;
    var s := TextOf(w);
    var a := |w.lead|;
    var b := a + |w.sign|;
    var c := b + |w.ip| + |Fraction(w.dot, w.fp)|;
    var d := c + |PowerText(w.power)|;
    Pieces(w, s);
    LeadIsRead(w, s);
    MantissaIsRead(w, s);
    PowerIsRead(w, s);
    TrailIsRead(w, s);
    Together(s, a, b, ScanMantissa(s, b, [], None), Ten(w.power), d);
    MeaningIs(w, c);
  }

  lemma MeaningIs(w: Written, c: nat)
    requires WellWritten(w)
    ensures ValueOf(w.sign == "-", Mantissa(c, Nums(w.ip + w.fp), if w.dot then Some(|w.ip|) else None, true), Ten(w.power)) == Meaning(w)
  {
    hide Norm, Val;
  }

  lemma Together(s: string, a: nat, b: nat, m: Mantissa, e: int, d: nat)
    requires SkipBlanks(s, 0) == a < |s| && b == (if s[a] == '-' || s[a] == '+' then a + 1 else a) && b <= |s|
    requires m == ScanMantissa(s, b, [], None) && m.ok && |m.digits| > 0 && m.next <= |s|
    requires ScanExponent(s, m.next).0 == d && ScanExponent(s, m.next).1 == e
    requires d <= |s| && SkipBlanks(s, d) == |s| && Digits(10, m.digits)
    ensures ParseNum(s) == Some(ValueOf(s[a] == '-', m, e))
  {
    hide ScanMantissa, ScanExponent, SkipBlanks, ValueOf;
    assert s[a] == '-' || s[a] == '+' ==> b == a + 1;
    assert ScanMantissa(s, b, [], None) == m;
  }

  lemma LeadIsRead(w: Written, s: string)
    requires WellWritten(w) && s == TextOf(w)
    ensures var a := |w.lead|;
            a < |s| && SkipBlanks(s, 0) == a && (s[a] == '-' <==> w.sign == "-") && ((s[a] == '-' || s[a] == '+') <==> w.sign != "")
  {
    hide PowerText, SkipBlanks, TextOf;
    var a := |w.lead|;
    Pieces(w, s);
    FirstOfNumber(w, s);
    forall k | 0 <= k < a ensures IsBlank(s[k]) { assert s[k] == s[..a][k]; }
    BlanksSkipped(s, 0, a);
  }

  /** The first character behind the blanks is the sign, a digit or the point. */
  lemma FirstOfNumber(w: Written, s: string)
    requires WellWritten(w) && s == TextOf(w)
    ensures var a := |w.lead|;
            && a < |s|
            && (if w.sign != "" then s[a] == w.sign[0] else IsDigit(s[a]) || s[a] == '.')
  {
    hide PowerText, TextOf;
    Pieces(w, s);
    var a := |w.lead|;
    var b := a + |w.sign|;
    var j := b + |w.ip|;
    if w.sign != "" { assert s[a] == s[a..b][0]; }
    else if w.ip != "" { assert s[b] == s[b..j][0]; }
    else { assert s[j] == s[j..j + |Fraction(w.dot, w.fp)|][0]; }
  }

  lemma MantissaIsRead(w: Written, s: string)
    requires WellWritten(w) && s == TextOf(w)
    ensures var b := |w.lead| + |w.sign|;
            b <= |s| &&
            ScanMantissa(s, b, [], None) ==
              Mantissa(b + |w.ip| + |Fraction(w.dot, w.fp)|, Nums(w.ip + w.fp), if w.dot then Some(|w.ip|) else None, true)
  {
    hide ScanMantissa, TextOf, PowerText, Nums, Fraction, Run;
    Pieces(w, s);
    BehindMantissa(w, s);
    var b := |w.lead| + |w.sign|;
    var j := b + |w.ip|;
    var c := j + |Fraction(w.dot, w.fp)|;
    MantissaAt(s, b, j, c, w.ip, w.dot, w.fp);
  }

  lemma MantissaAt(s: string, b: nat, j: nat, c: nat, ip: string, dot: bool, fp: string)
    requires b <= j <= c <= |s| && s[b..j] == ip && s[j..c] == Fraction(dot, fp) && AllDigits(ip) && AllDigits(fp) && (!dot ==> fp == "")
    requires c < |s| ==> !IsDigit(s[c]) && s[c] != '.'
    ensures ScanMantissa(s, b, [], None) == Mantissa(c, Nums(ip + fp), if dot then Some(|ip|) else None, true)
  {
    hide ScanMantissa, Nums, Run;
    MantissaRun(s, b);
    if dot {
      var u := s[j..c];
      assert s[j] == u[0] == '.' && s[j + 1..c] == u[1..] == fp;
      RunIs(s, b, j);
      RunIs(s, j + 1, c);
    } else {
      assert ip + fp == ip;
      assert c == j;
      RunIs(s, b, j);
    }
  }

  /** Behind the digits stands the mark of a power, a blank or nothing. */
  lemma BehindMantissa(w: Written, s: string)
    requires WellWritten(w) && s == TextOf(w)
    ensures var c := |w.lead| + |w.sign| + |w.ip| + |Fraction(w.dot, w.fp)|;
            && c <= |s|
            && (w.power.TenTo? ==> c < |s| && s[c] == w.power.mark)
            && (w.power.NoPower? && c < |s| ==> s[c] == ' ' || s[c] == '\t')
  {
    hide TextOf, Fraction;
    Pieces(w, s);
    var c := |w.lead| + |w.sign| + |w.ip| + |Fraction(w.dot, w.fp)|;
    var d := c + |PowerText(w.power)|;
    if w.power.TenTo? { assert s[c] == s[c..d][0]; } else if c < |s| { assert s[c] == s[d..][0]; }
  }

  lemma PowerIsRead(w: Written, s: string)
    requires WellWritten(w) && s == TextOf(w)
    ensures var c := |w.lead| + |w.sign| + |w.ip| + |Fraction(w.dot, w.fp)|;
            c <= |s| && ScanExponent(s, c) == (c + |PowerText(w.power)|, Ten(w.power))
  {
    hide TextOf, Fraction, ScanExponent, Count;
    Pieces(w, s);
    BehindMantissa(w, s);
    var c := |w.lead| + |w.sign| + |w.ip| + |Fraction(w.dot, w.fp)|;
    var d := c + |PowerText(w.power)|;
    if d < |s| { assert s[d] == s[d..][0]; }
    if w.power.TenTo? { PowerAt(s, c, d, w.power); } else { PowerRun(s, c); }
  }

  lemma PowerAt(s: string, c: nat, d: nat, p: Power)
    requires c <= d <= |s| && s[c..d] == PowerText(p) && (d < |s| ==> s[d] == ' ' || s[d] == '\t')
    requires p.TenTo? && (p.mark == 'E' || p.mark == 'e') && IsSign(p.sign) && AllDigits(p.digits)
    ensures ScanExponent(s, c) == (d, Ten(p))
  {
    hide ScanExponent, Count, Run;
    var u, j := s[c..d], c + 1 + |p.sign|;
    assert u == [p.mark] + p.sign + p.digits;
    assert s[j..d] == u[1 + |p.sign|..] == p.digits;
    if c + 1 < d { assert s[c + 1] == u[1]; }
    if p.sign == "" && c + 1 < d { assert IsDigit(p.digits[0]) && u[1] == p.digits[0]; }
    RunIs(s, j, d);
    assert s[c] == u[0];
    assert PowerStart(s, c) == j;
    PowerRun(s, c);
  }

  lemma TrailIsRead(w: Written, s: string)
    requires WellWritten(w) && s == TextOf(w)
    ensures var d := |w.lead| + |w.sign| + |w.ip| + |Fraction(w.dot, w.fp)| + |PowerText(w.power)|;
            d <= |s| && SkipBlanks(s, d) == |s|
  {
    hide TextOf, Fraction, PowerText, SkipBlanks;
    Pieces(w, s);
    var d := |w.lead| + |w.sign| + |w.ip| + |Fraction(w.dot, w.fp)| + |PowerText(w.power)|;
    forall k | d <= k < |s| ensures IsBlank(s[k]) { assert s[k] == s[d..][k - d]; }
    BlanksSkipped(s, d, |s|);
  }

  // ---- Nothing else is ----------------------------------------------------------------------------

  lemma ReadIsText(s: string) returns (w: Written)
    requires ParseNum(s).Some?
    ensures WellWritten(w) && s == TextOf(w) && ParseNum(s) == Some(Meaning(w))
  {
    hide *;
    w := Taken(s);
    TextIsRead(w);
  }

  /** Cut where the scans stop, the text is such a text. */
  lemma Taken(s: string) returns (w: Written)
    requires ParseNum(s).Some?
    ensures WellWritten(w) && s == TextOf(w)
  {
    hide Norm, ScanMantissa, ScanExponent, SkipBlanks, Val, Count, Run, AllDigits, PowerText, TextOf;
    var a := SkipBlanks(s, 0);
    var b := if s[a] == '-' || s[a] == '+' then a + 1 else a;
    var ip, dot, fp, c := MantissaFound(s, b);
    var p, d := PowerFound(s, c);
    SkippedBlanks(s, 0);
    SkippedBlanks(s, d);
    w := Written(s[..a], s[a..b], ip, dot, fp, p, s[d..]);
    assert s[a..b] == (if b > a then [s[a]] else "");
    InPieces(s, a, b, c, d, w);
  }

  lemma InPieces(s: string, a: nat, b: nat, c: nat, d: nat, w: Written)
    requires a <= b <= c <= d <= |s| && s[..a] == w.lead && s[a..b] == w.sign && s[b..c] == w.ip + Fraction(w.dot, w.fp)
    requires s[c..d] == PowerText(w.power) && s[d..] == w.trail
    ensures s == TextOf(w)
  {
    hide PowerText, Fraction;
    assert s == s[..a] + s[a..b] + s[b..c] + s[c..d] + s[d..];
  }

  lemma NothingIsDigits()
    ensures AllDigits("")
  {
  }

  lemma MantissaFound(s: string, b: nat) returns (ip: string, dot: bool, fp: string, c: nat)
    requires b <= |s| && ScanMantissa(s, b, [], None).ok && |ScanMantissa(s, b, [], None).digits| > 0
    ensures c == ScanMantissa(s, b, [], None).next && b <= c <= |s| && AllDigits(ip) && AllDigits(fp) && (!dot ==> fp == "")
    ensures s[b..c] == ip + Fraction(dot, fp) && |ip| + |fp| > 0
  {
    hide ScanMantissa, Run, AllDigits, Fraction;
    var j := Run(s, b);
    MantissaRun(s, b);
    NothingIsDigits();
    ip, dot := s[b..j], j < |s| && s[j] == '.';
    c := if dot then Run(s, j + 1) else j;
    fp := if dot then s[j + 1..c] else "";
    FractionAt(s, b, j, c, dot, fp);
  }

  lemma FractionAt(s: string, b: nat, j: nat, c: nat, dot: bool, fp: string)
    requires b <= j <= c <= |s| && if dot then j < c && s[j] == '.' && fp == s[j + 1..c] else c == j && fp == ""
    ensures s[b..c] == s[b..j] + Fraction(dot, fp)
  {
    assert s[j..c] == Fraction(dot, fp);
    assert s[b..c] == s[b..j] + s[j..c];
  }

  lemma PowerFound(s: string, c: nat) returns (p: Power, d: nat)
    requires c <= |s|
    ensures p.TenTo? <==> c < |s| && (s[c] == 'E' || s[c] == 'e')
    ensures p.TenTo? ==> (p.mark == 'E' || p.mark == 'e') && IsSign(p.sign) && AllDigits(p.digits)
    ensures c <= d == ScanExponent(s, c).0 <= |s| && s[c..d] == PowerText(p)
  {
    hide ScanExponent, Count;
    PowerRun(s, c);
    p, d := NoPower, c;
    if c < |s| && (s[c] == 'E' || s[c] == 'e') {
      var j := PowerStart(s, c);
      var k := Run(s, j);
      p, d := TenTo(s[c], s[c + 1..j], s[j..k]), k;
      assert s[c..k] == [s[c]] + s[c + 1..j] + s[j..k];
    }
  }

  /** For instance 1E is one: a power need not have digits. */
  lemma PowerWithoutDigits()
    ensures ParseNum("1E") == ParseNum("1") == Some(Dec(false, 1, 0))
  {
    hide ParseNum, Val;
    ghost var w := Written("", "", "1", false, "", TenTo('E', "", ""), "");
    ghost var v := w.(power := NoPower);
    TextIsRead(w);
    TextIsRead(v);
    assert TextOf(w) == "1E" && TextOf(v) == "1";
    OneIsOne();
  }

  lemma OneIsOne()
    ensures Count("1") == 1 && Count("") == 0 && "1" + "" == "1" && Norm(false, 1, 0) == Dec(false, 1, 0)
  {
    assert Nums("1") == [1] && Nums("") == [];
    ValSingle(10, 1);
  }
}
