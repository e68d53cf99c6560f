/** The arithmetic entry points: number strings in, result string or error out. */
module ArithOps {
  import opened Positional
  import opened Decimal
  import opened Numbers
  import opened AddSubMul
  import opened Division
  import opened Options
  import opened NumberText
  import opened NumberWriter

  datatype ArithOpcode = OpAdd | OpSub | OpMul | OpDiv | OpIntDiv | OpMod | OpPower | OpNeg | OpAbs

  /** NUMERIC DIGITS, FUZZ and FORM. */
  datatype Numeric = Numeric(digits: nat, fuzz: nat, form: Form)

  type Settings = n: Numeric | n.digits >= 1 witness Numeric(9, 0, Scientific)

  datatype Outcome<+T> = Good(value: T) | Syntax | DivZero

  const ONE := Dec(false, 1, 0)
  const POWER_LIMIT := 9999999

  // ---- Values ----------------------------------------------------------

  /** x // y as the engine forms it: three roundings, one per step. */
  function Remainder(x: Dec, y: Dec, d: nat): Dec
    requires y.coeff > 0
  {
    Sum(x, Product(IntQuotient(x, y, d), y, d), true, d)
  }

  /** x multiplied in n times, rounded every time. */
  function Power(x: Dec, n: nat, d: nat): Dec
  {
    if n == 0 then ONE else Product(Power(x, n - 1, d), x, d)
  }

  function PowerOf(x: Dec, y: Dec, d: nat): Outcome<Dec>
    requires d >= 1
  {
    if y.neg || y.exp < 0 then Syntax
    else if y.coeff * Pow(10, y.exp) > POWER_LIMIT / d then Syntax
    else (PowPositive(10, y.exp); Good(Power(x, y.coeff * Pow(10, y.exp), d)))
  }

  function ArithValue(op: ArithOpcode, x: Dec, y: Dec, d: nat): Outcome<Dec>
    requires d >= 1
  {
    match op
    case OpAdd => Good(Sum(x, y, false, d))
    case OpSub => Good(Sum(x, y, true, d))
    case OpMul => Good(Product(x, y, d))
    case OpDiv => if y.coeff == 0 then DivZero else Good(Quotient(x, y, d))
    case OpIntDiv => if y.coeff == 0 then DivZero else Good(IntQuotient(x, y, d))
    case OpMod => if y.coeff == 0 then DivZero else Good(Remainder(x, y, d))
    case OpPower => PowerOf(x, y, d)
    case OpNeg => Good(if x.coeff == 0 then x else x.(neg := !x.neg))
    case OpAbs => Good(x.(neg := false))
  }

  predicate Unary(op: ArithOpcode) { op.OpNeg? || op.OpAbs? }

  function ResultText(v: Dec, n: Settings): string
  {
    Cut(FormatNum(v, n.digits, n.form), n.digits + 32)
  }

  function ArithOp(op: ArithOpcode, a: string, b: string, n: Settings): Outcome<string>
  {
    var x := ParseNum(a);
    var y := if Unary(op) then Some(ZERO) else ParseNum(b);
    if x.None? || y.None? then Syntax
    else match ArithValue(op, x.value, y.value, n.digits)
      case Good(v) => Good(ResultText(v, n))
      case Syntax => Syntax
      case DivZero => DivZero
  }

  /** A result of a two-operand operation has at most DIGITS digits, so its text always fits the buffer. */
  lemma ResultFits(op: ArithOpcode, x: Dec, y: Dec, n: Settings)
    requires !Unary(op) && ArithValue(op, x, y, n.digits).Good?
    ensures Len10(ArithValue(op, x, y, n.digits).value.coeff) <= n.digits
    ensures ResultText(ArithValue(op, x, y, n.digits).value, n) == FormatNum(ArithValue(op, x, y, n.digits).value, n.digits, n.form)
  {
    hide Rounded, FormatNum, Quotient, IntQuotient, Power;
    var v := ArithValue(op, x, y, n.digits).value;
    match op {
      case OpAdd => SumFitsDigits(x, y, false, n.digits);
      case OpSub => SumFitsDigits(x, y, true, n.digits);
      case OpMul => ProductFitsDigits(x, y, n.digits);
      case OpMod => SumFitsDigits(x, Product(IntQuotient(x, y, n.digits), y, n.digits), true, n.digits);
      case OpPower => PowerFitsDigits(x, y.coeff * Pow(10, y.exp), n.digits);
      case _ => QuotientFitsDigits(x, y, n.digits);
    }
    FormatLength(v, n.digits, n.form);
  }

  lemma SumFitsDigits(x: Dec, y: Dec, subtract: bool, d: nat)
    requires d >= 1
    ensures Len10(Sum(x, y, subtract, d).coeff) <= d
  {
    hide Rounded;
    var v := ExactSum(x, y, subtract);
    RoundedLen(v < 0, if v < 0 then -v else v, Min(x.exp, y.exp), d);
  }

  lemma ProductFitsDigits(x: Dec, y: Dec, d: nat)
    requires d >= 1
    ensures Len10(Product(x, y, d).coeff) <= d
  {
    hide Rounded;
    RoundedLen(x.neg != y.neg, x.coeff * y.coeff, x.exp + y.exp, d);
  }

  lemma QuotientFitsDigits(x: Dec, y: Dec, d: nat)
    requires d >= 1 && y.coeff > 0
    ensures Len10(Quotient(x, y, d).coeff) <= d && Len10(IntQuotient(x, y, d).coeff) <= d
  {
    hide Rounded, Raw, Whole, Scale;
    RoundedLen(x.neg != y.neg, Raw(x, y, d), x.exp - y.exp - Scale(y, d), d);
    RoundedLen(x.neg != y.neg, Whole(x, y), 0, d);
  }

  lemma PowerFitsDigits(x: Dec, n: nat, d: nat)
    requires d >= 1
    ensures Len10(Power(x, n, d).coeff) <= d
  {
    if n > 0 { ProductFitsDigits(Power(x, n - 1, d), x, d); }
  }

  // ---- irx_arith_op ----------------------------------------------------

  method Modulo(a: Number, b: Number, d: nat) returns (r: Number)
    requires a.Canon() && b.Canon() && b.Coeff() != 0 && d >= 1
    ensures fresh(r) && fresh(r.digits) && r.Canon()
    ensures b.Value().coeff > 0 && r.Value() == Remainder(a.Value(), b.Value(), d)
  {
    hide Val, Norm, Sum, Product, IntQuotient;
    var q := DivideWhole(a, b, d);
    var p := MulRaw(q, b, d);
    r := AddSub(a, p, true, d);
  }

  /** Multiplication where the left record may be a zero that is not in canonical form. */
  method MulRaw(a: Number, b: Number, d: nat) returns (r: Number)
    requires a.Valid() && a.Trimmed() && b.Canon() && d >= 1
    ensures fresh(r) && fresh(r.digits) && r.Canon()
    ensures r.Value() == Product(a.Value(), b.Value(), d)
  {
    hide Val, Pow, Norm, HalfUp, Len10, Rounded;
    CanonForm(b);
    ghost var neg, e := a.sign != b.sign, a.exp + b.exp;
    ProductNorm(a.sign, a.Coeff(), a.exp, b.Value(), d);
    var work := ProductDigits(a, b);
    r := TakeDigits(work, a.exp + b.exp);
    r.sign := a.sign != b.sign;
    Round(r, d);
  }

  lemma ProductNorm(neg: bool, c: nat, e: int, y: Dec, d: nat)
    requires d >= 1
    ensures Product(Norm(neg, c, e), y, d) == Rounded(neg != y.neg, c * y.coeff, e + y.exp, d)
  {
    hide Norm, Len10, HalfUp, Rounded;
    NormLen(neg, c, e);
    var x := Norm(neg, c, e);
    if c == 0 {
      RoundedZero(x.neg != y.neg, x.exp + y.exp, d);
      RoundedZero(neg != y.neg, e + y.exp, d);
    } else {
      var p := Pow(10, x.exp - e);
      assert c * y.coeff == x.coeff * y.coeff * p by {
        MulAssoc(x.coeff, p, y.coeff);
        MulAssoc(x.coeff, y.coeff, p);
        assert p * y.coeff == y.coeff * p;
      }
      RoundedScale(neg != y.neg, x.coeff * y.coeff, e + y.exp, x.exp - e, d);
    }
  }

  method PowerNumber(a: Number, n: nat, d: nat) returns (r: Number)
    requires a.Canon() && d >= 1
    ensures fresh(r) && fresh(r.digits) && r.Canon()
    ensures r.Value() == Power(a.Value(), n, d)
  {
    hide Val, Norm, Product;
    r := One();
    var left := n;
    while left > 0
      invariant 0 <= left <= n && fresh(r) && fresh(r.digits) && r.Canon()
      invariant r.Value() == Power(a.Value(), n - left, d)
    {
      r := Mul(r, a, d);
      left := left - 1;
    }
  }

  method One() returns (r: Number)
    ensures fresh(r) && fresh(r.digits) && r.Canon() && r.Value() == ONE
  {
    r := new Number(1);
    r.digits[0] := 1;
    r.len := 1;
    SingleDigit(r);
  }

  const LONG_MAX := 0x7fff_ffff

  /** The exponent as a long, or overflow; a fraction has been refused before. */
  method ExponentValue(b: Number) returns (overflow: bool, v: nat)
    requires b.Canon() && b.exp >= 0
    ensures overflow ==> b.Coeff() * Pow(10, b.exp) > POWER_LIMIT
    ensures !overflow ==> v == b.Coeff() * Pow(10, b.exp)
  {
    hide Val, Pow;
    overflow, v := false, 0;
    ghost var s := b.digits[..b.len];
    ghost var total := b.Coeff() * Pow(10, b.exp);
    ValEmpty();
    PowPositive(10, b.exp);
    var i := 0;
    while !overflow && i < b.len
      invariant 0 <= i <= b.len && (!overflow ==> v == Val(10, s[..i]))
      invariant overflow ==> i < b.len && v == Val(10, s[..i]) && v > LONG_MAX / 10
      decreases b.len - i, !overflow
    {
      if v > LONG_MAX / 10 {
        overflow := true;
      } else {
        ValSnoc(s, i);
        v := v * 10 + b.digits[i];
        i := i + 1;
      }
    }
    assert s[..b.len] == s;
    if overflow {
      PrefixBound(s, i);
      MulLe(1, Pow(10, b.exp), b.Coeff());
      return;
    }
    PowZero();
    var e := 0;
    while !overflow && e < b.exp
      invariant 0 <= e <= b.exp && v == b.Coeff() * Pow(10, e)
      invariant overflow ==> v > LONG_MAX / 10
      decreases b.exp - e, !overflow
    {
      if v > LONG_MAX / 10 {
        overflow := true;
      } else {
        PowStep(e + 1);
        MulAssoc(b.Coeff(), 10, Pow(10, e));
        MulAssoc(10, b.Coeff(), Pow(10, e));
        v := v * 10;
        e := e + 1;
      }
    }
    if overflow {
      PowMonotone(10, e, b.exp);
      MulLe(Pow(10, e), Pow(10, b.exp), b.Coeff());
    }
  }

  lemma PrefixBound(s: seq<int>, i: nat)
    requires i <= |s| && Digits(10, s)
    ensures 0 <= Val(10, s[..i]) <= Val(10, s)
  {
    hide Val, Pow;
    ValSplit(10, s, i);
    ValBound(10, s[..i]);
    ValBound(10, s[i..]);
    PowPositive(10, |s| - i);
    MulLe(1, Pow(10, |s| - i), Val(10, s[..i]));
  }

  method ComputePower(a: Number, b: Number, d: nat) returns (ok: bool, r: Number)
    requires a.Canon() && b.Canon() && d >= 1
    ensures fresh(r) && fresh(r.digits) && r.Canon()
    ensures PowerOf(a.Value(), b.Value(), d) == if ok then Good(r.Value()) else Syntax
  {
    hide Val, Pow, Norm, Power;
    CanonForm(b);
    r := One();
    if b.sign || b.exp < 0 { return false, r; }
    var overflow, v := ExponentValue(b);
    if overflow || v > POWER_LIMIT / d { LimitShrinks(d); return false, r; }
    r := PowerNumber(a, v, d);
    ok := true;
  }

  lemma LimitShrinks(d: nat)
    requires d >= 1
    ensures POWER_LIMIT / d <= POWER_LIMIT
  {
  }

  method CopyWithSign(a: Number, sign: bool) returns (r: Number)
    requires a.Canon() && (sign ==> a.Coeff() != 0)
    ensures fresh(r) && fresh(r.digits) && r.Canon()
    ensures r.Value() == a.Value().(neg := sign)
  {
    hide Val, Norm;
    CanonForm(a);
    r := new Number(a.len);
    CopyDigits(a, r.digits);
    r.len := a.len;
    r.exp := a.exp;
    r.sign := sign;
    assert r.digits[..r.len] == a.digits[..a.len];
    assert r.digits[0] == r.digits[..r.len][0] && r.digits[r.len - 1] == r.digits[..r.len][r.len - 1];
    CanonForm(r);
  }

  /** The switch over the operation, on parsed operands. */
  method Compute(op: ArithOpcode, a: Number, b: Number, d: nat) returns (o: Outcome<Number>)
    requires a.Canon() && b.Canon() && d >= 1
    ensures o.Good? ==> fresh(o.value) && fresh(o.value.digits) && o.value.Printable()
    ensures match o
            case Good(r) => ArithValue(op, a.Value(), b.Value(), d) == Good(r.Value())
            case Syntax => ArithValue(op, a.Value(), b.Value(), d) == Syntax
            case DivZero => ArithValue(op, a.Value(), b.Value(), d) == DivZero
  {
    hide Val, Pow, Norm, Sum, Product, Quotient, IntQuotient, Remainder, PowerOf;
    CanonForm(a);
    CanonForm(b);
    var zero := b.len == 1 && b.digits[0] == 0;
    var r: Number;
    match op {
      case OpAdd => r := AddSub(a, b, false, d);
      case OpSub => r := AddSub(a, b, true, d);
      case OpMul => r := Mul(a, b, d);
      case OpDiv =>
        if zero { return DivZero; }
        r := Divide(a, b, d);
      case OpIntDiv =>
        if zero { return DivZero; }
        r := DivideWhole(a, b, d);
      case OpMod =>
        if zero { return DivZero; }
        r := Modulo(a, b, d);
      case OpPower =>
        var ok: bool;
        ok, r := ComputePower(a, b, d);
        if !ok { return Syntax; }
      case OpNeg =>
        var aZero := a.len == 1 && a.digits[0] == 0;
        r := CopyWithSign(a, if aZero then false else !a.sign);
      case OpAbs => r := CopyWithSign(a, false);
    }
    o := Good(r);
  }

  method IrxArithOp(op: ArithOpcode, a: string, b: string, n: Settings) returns (o: Outcome<string>)
    ensures o == ArithOp(op, a, b, n)
  {
    hide Val, Pow, Norm, ParseNum, FormatNum, ArithValue;
    var ok, na := FromStr(a);
    if !ok { return Syntax; }
    var nb: Number;
    if Unary(op) {
      nb := Zero(n.digits);
    } else {
      ok, nb := FromStr(b);
      if !ok { return Syntax; }
    }
    var r := Compute(op, na, nb, n.digits);
    match r {
      case Good(v) =>
        var s := ToText(v, n.digits, n.form);
        o := Good(s);
      case Syntax => o := Syntax;
      case DivZero => o := DivZero;
    }
  }
}
