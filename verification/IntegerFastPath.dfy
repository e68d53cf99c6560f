/** The VM's int32 shortcut around the decimal engine: which texts it takes for integers,
and why its answers are the engine's. */
module IntegerFastPath {
  import opened Positional
  import opened Decimal
  import opened AddSubMul
  import opened Division
  import opened Options
  import opened NumberText
  import opened NumberWriter
  import opened ArithOps
  import opened Comparison
  import opened WholeNumbers

  newtype int32 = x: int | -0x8000_0000 <= x < 0x8000_0000

  const FAST_MAX: int := 999999999

  /** A VM stack cell: the text, and its integer value if one is cached. */
  datatype Cell = Cell(text: string, cache: Option<int>)

  /** Decimal digits of s from i on, appended to v, as long as the value stays within nine digits. */
  function FastDigits(s: string, i: nat, v: nat): Option<nat>
    requires i <= |s|
    decreases |s| - i
  {
    if i == |s| then Some(v)
    else if !IsDigit(s[i]) || v > FAST_MAX / 10 then None
    else FastDigits(s, i + 1, v * 10 + DigitOf(s[i]))
  }

  function SignLength(s: string): (i: nat)
    ensures i <= |s|
  {
    if s != "" && (s[0] == '-' || s[0] == '+') then 1 else 0
  }

  predicate Negative(s: string) { s != "" && s[0] == '-' }

  function ParseInt32Fast(s: string): Option<int>
  {
    if SignLength(s) >= |s| then None
    else match FastDigits(s, SignLength(s), 0)
      case None => None
      case Some(v) => Some(Sgn(Negative(s), v))
  }

  /** parse_int32_fast: no step of the loop leaves the int32 range. */
  method ParseFast(s: string) returns (r: Option<int32>)
    ensures r == match ParseInt32Fast(s) case None => None case Some(v) =>
        (FastBound(s, SignLength(s), 0); Some(v as int32))
  {
    if |s| == 0 { return None; }
    var v: int32, i := 0, 0;
    var neg := s[0] == '-';
    if s[0] == '-' || s[0] == '+' { i := 1; }
    if i >= |s| { return None; }
    while i < |s|
      invariant SignLength(s) <= i <= |s| && 0 <= v as int <= FAST_MAX
      invariant FastDigits(s, i, v as int) == FastDigits(s, SignLength(s), 0)
    {
      if !IsDigit(s[i]) { return None; }
      if v as int > FAST_MAX / 10 { return None; }
      v := v * 10 + DigitOf(s[i]) as int32;
      i := i + 1;
    }
    r := Some(if neg then -v else v);
  }

  lemma {:induction false} FastBound(s: string, i: nat, v: nat)
    requires i <= |s| && v <= FAST_MAX
    ensures FastDigits(s, i, v).Some? ==> v <= FastDigits(s, i, v).value <= FAST_MAX
    decreases |s| - i
  {
    if i < |s| && IsDigit(s[i]) && v <= FAST_MAX / 10 { FastBound(s, i + 1, v * 10 + DigitOf(s[i])); }
  }

  // What the digits of s from i on stand for, behind v.
  lemma {:induction false} FastDigitsValue(s: string, i: nat, v: nat)
    requires i <= |s| && v <= FAST_MAX
    ensures FastDigits(s, i, v).Some? <==>
      AllDigits(s[i..]) && v * Pow(10, |s| - i) + Val(10, Nums(s[i..])) <= FAST_MAX
    ensures FastDigits(s, i, v).Some? ==>
      FastDigits(s, i, v).value == v * Pow(10, |s| - i) + Val(10, Nums(s[i..]))
    decreases |s| - i
  {
    hide Val, Pow, Nums;
    var t := s[i..];
    PowPositive(10, |t|);
    if i == |s| {
      PowZero();
      assert Nums(t) == [];
      ValEmpty();
    } else {
      assert t[0] == s[i] && t[1..] == s[i + 1..];
      assert AllDigits(t) <==> IsDigit(t[0]) && AllDigits(t[1..]);
      if IsDigit(s[i]) {
        var x := DigitOf(s[i]);
        if AllDigits(t) { TopDigit(t, v); }
        if v <= FAST_MAX / 10 {
          FastDigitsValue(s, i + 1, v * 10 + x);
        } else if AllDigits(t) {
          ValBound(10, Nums(t));
          PowPositive(10, |t| - 1);
          TenTimes(v, |t|);
        }
      }
    }
  }

  lemma TopDigit(t: string, v: nat)
    requires |t| > 0 && AllDigits(t)
    ensures v * Pow(10, |t|) + Val(10, Nums(t)) == (v * 10 + DigitOf(t[0])) * Pow(10, |t| - 1) + Val(10, Nums(t[1..]))
  {
    hide Val, Pow, Nums, DigitOf;
    var p, x := Pow(10, |t| - 1), DigitOf(t[0]);
    ValTop(10, Nums(t));
    assert Nums(t)[1..] == Nums(t[1..]) && Nums(t)[0] == x;
    PowStep(|t|);
    ShiftDigit(v, x, p);
  }

  lemma ShiftDigit(v: int, x: int, p: int)
    ensures (v * 10 + x) * p == v * (10 * p) + x * p
  {
  }

  lemma TenTimes(v: nat, n: nat)
    requires n > 0 && v > FAST_MAX / 10
    ensures v * Pow(10, n) > FAST_MAX
  {
    PowPositive(10, n - 1);
    MulLe(1, Pow(10, n - 1), 10);
    MulLe(10, Pow(10, n), v);
  }

  /** The texts the shortcut takes: an optional sign and digits (leading zeros too) worth at most nine digits. */
  lemma FastIffNineDigits(s: string)
    ensures var t := s[SignLength(s)..];
      ParseInt32Fast(s) ==
        if |t| > 0 && AllDigits(t) && Val(10, Nums(t)) <= FAST_MAX then Some(Sgn(Negative(s), Val(10, Nums(t)))) else None
  {
    hide Val, Pow, Nums, FastDigits;
    FastDigitsValue(s, SignLength(s), 0);
    MulLe(0, 0, Pow(10, |s| - SignLength(s)));
  }

  /** Whatever the shortcut takes for v, the engine reads as v. */
  lemma FastIsNumber(s: string)
    requires ParseInt32Fast(s).Some?
    ensures ParseNum(s) == Some(Int(ParseInt32Fast(s).value))
    ensures -999999999 <= ParseInt32Fast(s).value <= 999999999
  {
    hide Val, Norm, ScanInt, ScanExponent, ScanMantissa, SkipBlanks, ParseInt32Fast, Nums, Pow;
    FastIffNineDigits(s);
    var i := SignLength(s);
    var t := s[i..];
    ValBound(10, Nums(t));
    NoBlanksAt(s, 0);
    NoBlanksAt(s, |s|);
    assert s[i..|s|] == t && s[|s|..|s|] == Fraction(false, "");
    assert s[i] == t[0];
    ReadsMantissa(s, i, t, false, "", |s|);
    assert t + "" == t;
    assert s[|s|..] == Exponent(false, 0);
    ReadsExponent(s, |s|, false, 0);
    SignedInt(Negative(s), Val(10, Nums(t)));
  }

  lemma SignedInt(neg: bool, c: nat)
    ensures Norm(neg, c, 0) == Int(Sgn(neg, c))
  {
  }

  // ---- Writing an int32 --------------------------------------------------

  function I32Text(v: int): string
  {
    (if v < 0 then "-" else "") + Decimals(Abs(v))
  }

  /** The digits of u, lowest first, into tmp. */
  method LowDigitsFirst(u: nat, tmp: array<char>) returns (i: nat)
    requires 0 < u <= 0x8000_0000 && tmp.Length >= 11
    modifies tmp
    ensures i <= 10 && Reverse(tmp[..i]) == Decimals(u)
  {
    hide Decimals, Pow, Len10;
    LenOfInt32(u);
    var uv: nat := u;
    i := 0;
    while uv > 0
      invariant 0 <= i <= 10 && (uv > 0 ==> Decimals(uv) + Reverse(tmp[..i]) == Decimals(u) && i + Len10(uv) == Len10(u))
      invariant uv == 0 ==> Reverse(tmp[..i]) == Decimals(u)
    {
      LastDecimal(uv);
      ghost var t := tmp[..i];
      tmp[i] := CharOf(uv % 10);
      assert tmp[..i + 1] == t + [tmp[i]];
      ReverseSnoc(t, tmp[i]);
      i, uv := i + 1, uv / 10;
    }
  }

  /** i32toa: digits and sign backwards into a scratch array, copied out forwards. */
  method I32toa(v: int32, buf: array<char>) returns (len: nat)
    requires buf.Length >= 11
    modifies buf
    ensures len <= 11 && buf[..len] == I32Text(v as int)
  {
    hide Decimals, Pow;
    var tmp := new char[21];
    var uv: nat := if v < 0 then -((v + 1) as int) + 1 else v as int;
    var i := 0;
    if uv == 0 {
      tmp[0], i := '0', 1;
      ZeroText();
      assert tmp[..i] == "0";
    } else {
      i := LowDigitsFirst(uv, tmp);
      if v < 0 {
        ghost var t := tmp[..i];
        tmp[i] := '-';
        i := i + 1;
        assert tmp[..i] == t + ['-'];
        ReverseSnoc(t, '-');
      }
    }
    ghost var t := tmp[..i];
    assert Reverse(t) == I32Text(v as int);
    len := i;
    ReversedInto(tmp, i, buf);
  }

  method ReversedInto(tmp: array<char>, n: nat, buf: array<char>)
    requires n <= tmp.Length && n <= buf.Length && tmp != buf
    modifies buf
    ensures buf[..n] == Reverse(tmp[..n])
  {
    var i, j := n, 0;
    while i > 0
      invariant 0 <= i <= n && j == n - i
      invariant forall k :: 0 <= k < j ==> buf[k] == tmp[n - 1 - k]
    {
      i := i - 1;
      buf[j] := tmp[i];
      j := j + 1;
    }
    assert buf[..n] == Reverse(tmp[..n]);
  }

  lemma ReverseSnoc(t: string, c: char)
    ensures Reverse(t + [c]) == [c] + Reverse(t)
  {
  }

  lemma LastDecimal(c: nat)
    ensures if c < 10 then Decimals(c) == [CharOf(c % 10)] && Len10(c) == 1
      else Decimals(c) == Decimals(c / 10) + [CharOf(c % 10)] && Len10(c) == Len10(c / 10) + 1
  {
  }

  lemma ZeroText()
    ensures Decimals(0) == "0" == Reverse("0")
  {
  }

  lemma LenOfInt32(u: nat)
    requires u <= 0x8000_0000
    ensures Len10(u) <= 10
  {
    ExponentDigits(u);
  }

  lemma {:induction false} DecimalsScale(c: nat, j: nat)
    requires c > 0
    ensures Decimals(c * Pow(10, j)) == Decimals(c) + Zeros(j)
    decreases j
  {
    hide *;
    if j == 0 {
      ScaleByOne(c);
    } else {
      ScaleStep(c, j);
      DecimalsScale(c, j - 1);
      AppendZero(Decimals(c), j);
    }
  }

  lemma ScaleByOne(c: nat)
    ensures c * Pow(10, 0) == c && Decimals(c) + Zeros(0) == Decimals(c)
  {
    hide Decimals;
  }

  // One more power of ten writes one more zero.
  lemma ScaleStep(c: nat, j: nat)
    requires c > 0 && j > 0
    ensures Decimals(c * Pow(10, j)) == Decimals(c * Pow(10, j - 1)) + ['0']
  {
    var q := Pow(10, j - 1);
    var m := c * q;
    TimesTen(j);
    PowPositive(10, j - 1);
    MulPositive(c, q);
    hide Pow, Decimals;
    MulAssoc(c, q, 10);
    assert c * Pow(10, j) == m * 10;
    LastDecimal(m * 10);
  }

  lemma TimesTen(j: nat)
    requires j > 0
    ensures Pow(10, j) == Pow(10, j - 1) * 10
  {
  }

  lemma AppendZero(ds: string, j: nat)
    requires j > 0
    ensures ds + Zeros(j - 1) + ['0'] == ds + Zeros(j)
  {
  }

  /** A number that fits DIGITS is written as a plain integer: what i32toa writes. */
  lemma IntIsWrittenPlain(v: int, n: Settings)
    requires Abs(v) < Pow(10, n.digits)
    ensures ResultText(Int(v), n) == I32Text(v)
  {
    hide Pow, Norm, Len10, Decimals, Cut, Zeros;
    var x, c := Int(v), Abs(v);
    NormLen(v < 0, c, 0);
    LenAtMost(c, n.digits);
    if v == 0 {
      ZeroText();
      CutKeeps("0", n.digits + 32);
    } else {
      LenScale(x.coeff, x.exp);
      DecimalsScale(x.coeff, x.exp);
      PlainForm(x, n);
      FormatLength(x, n.digits, n.form);
      CutKeeps(FormatNum(x, n.digits, n.form), n.digits + 32);
    }
  }

  lemma PlainForm(x: Dec, n: Settings)
    requires x.coeff > 0 && x.exp >= 0 && Len10(x.coeff) + x.exp <= n.digits
    ensures FormatNum(x, n.digits, n.form) == (if x.neg then "-" else "") + (Decimals(x.coeff) + Zeros(x.exp))
  {
    hide Decimals, Len10, Zeros;
    var ds := Decimals(x.coeff);
    assert Pointed(ds, |ds| + x.exp) == ds + Zeros(x.exp) by {
      if x.exp == 0 { assert Zeros(0) == ""; }
    }
  }

  lemma CutKeeps(s: string, max: nat)
    requires |s| < max
    ensures Cut(s, max) == s
  {
  }

  lemma IntTextParses(v: int)
    requires -FAST_MAX <= v <= FAST_MAX
    ensures ParseInt32Fast(I32Text(v)) == Some(v)
  {
    hide Decimals, Val, Nums;
    var s, ds := I32Text(v), Decimals(Abs(v));
    NumsOfDecimals(Abs(v));
    assert v >= 0 ==> s == ds;
    assert v < 0 ==> s[1..] == ds;
    FirstIsDigit(Abs(v));
    assert s[SignLength(s)..] == ds;
    FastIffNineDigits(s);
  }

  lemma FirstIsDigit(c: nat)
    ensures Decimals(c) != "" && IsDigit(Decimals(c)[0])
  {
  }

  // ---- try_arith_fast ----------------------------------------------------

  /** A cached integer is the integer its text stands for. */
  predicate CacheOk(c: Cell)
  {
    c.cache.Some? ==> ParseInt32Fast(c.text) == c.cache
  }

  function Operand(c: Cell, parse: bool): Option<int>
  {
    if c.cache.Some? then c.cache else if parse then ParseInt32Fast(c.text) else None
  }

  function FastResult(op: ArithOpcode, va: int, vb: int): Option<int>
  {
    match op
    case OpAdd => if Abs(va + vb) > FAST_MAX then None else Some(va + vb)
    case OpSub => if Abs(va - vb) > FAST_MAX then None else Some(va - vb)
    case OpMul => if vb != 0 && Abs(va) > FAST_MAX / Abs(vb) then None else Some(va * vb)
    case OpIntDiv => if vb == 0 then None else Some(TruncDiv(va, vb))
    case OpMod => if vb == 0 then None else Some(TruncMod(va, vb))
    case _ => None
  }

  function TryFast(op: ArithOpcode, a: Cell, b: Cell): Option<Cell>
  {
    var parse := op.OpAdd? || op.OpSub? || op.OpMul?;
    match (Operand(a, parse), Operand(b, parse))
    case (Some(va), Some(vb)) =>
      (match FastResult(op, va, vb)
       case None => None
       case Some(v) => Some(Cell(I32Text(v), Some(v))))
    case _ => None
  }

  function CDiv(a: int32, b: int32): (q: int32)
    requires b != 0 && -FAST_MAX <= a as int <= FAST_MAX && -FAST_MAX <= b as int <= FAST_MAX
    ensures q as int == TruncDiv(a as int, b as int)
  {
    TruncFacts(a as int, b as int);
    TruncDiv(a as int, b as int) as int32
  }

  function CMod(a: int32, b: int32): (q: int32)
    requires b != 0 && -FAST_MAX <= a as int <= FAST_MAX && -FAST_MAX <= b as int <= FAST_MAX
    ensures q as int == TruncMod(a as int, b as int)
  {
    TruncFacts(a as int, b as int);
    TruncMod(a as int, b as int) as int32
  }

  method SlotInt32Fast(c: Cell, parse: bool) returns (r: Option<int32>)
    requires CacheOk(c)
    ensures match Operand(c, parse) case None => r == None
            case Some(v) => -FAST_MAX <= v <= FAST_MAX && r == Some(v as int32)
  {
    hide ParseInt32Fast;
    if ParseInt32Fast(c.text).Some? { FastIsNumber(c.text); }
    if c.cache.Some? { return Some(c.cache.value as int32); }
    if !parse { return None; }
    r := ParseFast(c.text);
  }

  /** No int32 operation of the shortcut overflows. */
  method TryArithFast(op: ArithOpcode, a: Cell, b: Cell) returns (r: Option<Cell>)
    requires CacheOk(a) && CacheOk(b)
    ensures r == TryFast(op, a, b)
  {
    hide ParseInt32Fast, TruncDiv, TruncMod, I32Text;
    var parse := op.OpAdd? || op.OpSub? || op.OpMul?;
    var va := SlotInt32Fast(a, parse);
    var vb := SlotInt32Fast(b, parse);
    if va.None? || vb.None? { return None; }
    var x, y := va.value, vb.value;
    var v: int32;
    match op {
      case OpAdd =>
        v := x + y;
        if v as int > FAST_MAX || (v as int) < -FAST_MAX { return None; }
      case OpSub =>
        v := x - y;
        if v as int > FAST_MAX || (v as int) < -FAST_MAX { return None; }
      case OpMul =>
        var aa := if x < 0 then -x else x;
        var bb := if y < 0 then -y else y;
        if bb != 0 && aa as int > FAST_MAX / bb as int { return None; }
        ProductInWindow(x as int, y as int);
        v := x * y;
      case OpIntDiv =>
        if y == 0 { return None; }
        v := CDiv(x, y);
      case OpMod =>
        if y == 0 { return None; }
        v := CMod(x, y);
      case _ => return None;
    }
    var buf := new char[24];
    var len := I32toa(v, buf);
    r := Some(Cell(buf[..len], Some(v as int)));
  }

  lemma ProductInWindow(a: int, b: int)
    requires b == 0 || Abs(a) <= FAST_MAX / Abs(b)
    ensures Abs(a * b) <= FAST_MAX
  {
    if b != 0 {
      assert Abs(a) * Abs(b) <= FAST_MAX / Abs(b) * Abs(b) <= FAST_MAX by { MulLe(Abs(a), FAST_MAX / Abs(b), Abs(b)); }
      SignedProduct(a < 0, Abs(a), b < 0, Abs(b));
    }
  }

  lemma NineDigits()
    ensures Pow(10, 9) == FAST_MAX + 1
  {
    assert Pow(10, 5) == 100000;
    assert Pow(10, 4) == 10000;
    PowAdd(10, 4, 5);
  }

  lemma FastInWindow(op: ArithOpcode, va: int, vb: int)
    requires Abs(va) <= FAST_MAX && Abs(vb) <= FAST_MAX && FastResult(op, va, vb).Some?
    ensures Abs(FastResult(op, va, vb).value) <= FAST_MAX
  {
    hide TruncDiv, TruncMod;
    if vb != 0 { TruncFacts(va, vb); }
    if op.OpMul? { ProductInWindow(va, vb); }
  }

  /** On integers of at most nine digits the shortcut computes the engine's value. */
  lemma FastResultIsExact(op: ArithOpcode, va: int, vb: int)
    requires Abs(va) <= FAST_MAX && Abs(vb) <= FAST_MAX && FastResult(op, va, vb).Some?
    ensures ArithValue(op, Int(va), Int(vb), 9) == Good(Int(FastResult(op, va, vb).value))
  {
    hide TruncDiv, TruncMod, Pow, Norm, Int, IntOf, Sum, Product, IntQuotient, Remainder;
    NineDigits();
    IntOfInt(va);
    IntOfInt(vb);
    IntSize(Int(vb));
    FastInWindow(op, va, vb);
    match op {
      case OpAdd => SumOfInts(Int(va), Int(vb), false, 9);
      case OpSub => SumOfInts(Int(va), Int(vb), true, 9);
      case OpMul => ProductOfInts(Int(va), Int(vb), 9);
      case OpIntDiv => QuotientOfInts(Int(va), Int(vb), 9);
      case OpMod => RemainderOfInts(Int(va), Int(vb), 9);
    }
  }

  /** Under DIGITS 9 a shortcut answer is, character for character, the engine's answer, and its cache is right. */
  lemma FastPathRefinesEngine(op: ArithOpcode, a: Cell, b: Cell, n: Settings)
    requires CacheOk(a) && CacheOk(b) && n.digits == 9 && TryFast(op, a, b).Some?
    ensures ArithOp(op, a.text, b.text, n) == Good(TryFast(op, a, b).value.text)
    ensures CacheOk(TryFast(op, a, b).value)
  {
    hide ParseInt32Fast, TruncDiv, TruncMod, I32Text, Pow, Norm, ParseNum, Int, ArithValue, ResultText, FastResult;
    var parse := op.OpAdd? || op.OpSub? || op.OpMul?;
    var va, vb := Operand(a, parse).value, Operand(b, parse).value;
    FastIsNumber(a.text);
    FastIsNumber(b.text);
    var v := FastResult(op, va, vb).value;
    FastOpIsBinary(op, va, vb);
    FastResultIsExact(op, va, vb);
    FastInWindow(op, va, vb);
    NineDigits();
    IntIsWrittenPlain(v, n);
    IntTextParses(v);
  }

  lemma FastOpIsBinary(op: ArithOpcode, va: int, vb: int)
    requires FastResult(op, va, vb).Some?
    ensures !Unary(op)
  {
  }

  /** With both operands cached and FUZZ 0, comparing the cached integers is comparing the numbers. */
  lemma FastCompare(a: Cell, b: Cell, n: Settings)
    requires CacheOk(a) && CacheOk(b) && a.cache.Some? && b.cache.Some? && n.fuzz == 0
    ensures CompareText(a.text, b.text, n) == Some(Sign(a.cache.value - b.cache.value))
  {
    hide ParseInt32Fast, Pow, Norm, ParseNum, Int, Compare, Scaled;
    FastIsNumber(a.text);
    FastIsNumber(b.text);
    IntOfInt(a.cache.value);
    IntOfInt(b.cache.value);
    CompareIsExact(Int(a.cache.value), Int(b.cache.value), n.digits, 0);
  }
}
