/** Prefix operators against the operations the language describes them by, 0 + a and 0 - a. */
module Prefixes {
  import opened Options
  import opened Positional
  import opened Decimal
  import opened AddSubMul
  import opened NumberText
  import opened NumberWriter
  import opened ArithOps
  import opened Bytecode
  import opened VmValues
  import opened VarPool
  import opened ExprSyntax
  import opened ExprCode
  import opened Operators
  import NumberShape

  function Opposite(x: Dec): Dec { if x.coeff == 0 then x else x.(neg := !x.neg) }

  function Of(x: Dec, n: Settings): Dec { Rounded(x.neg, x.coeff, x.exp, n.digits) }

  lemma ZeroIsNumber()
    ensures ParseNum("0") == Some(ZERO)
  {
    NumberShape.ZeroText(9, Scientific);
    PrintParse(ZERO, 9, Scientific);
  }

  /** 0 + x and 0 - x are x and its opposite, rounded. */
  lemma WithZero(x: Dec, subtract: bool, n: Settings)
    requires Canonical(x)
    ensures Sum(ZERO, x, subtract, n.digits) == Of(if subtract then Opposite(x) else x, n)
  {
    hide Rounded, Pow;
    var j := if x.exp > 0 then x.exp else 0;
    var v := x.coeff * Pow(10, j);
    PowPositive(10, j);
    MulLe(0, x.coeff, Pow(10, j));
    PowZero();
    if x.coeff > 0 { MulLe(1, x.coeff, Pow(10, j)); }
    RoundedScale(x.neg, x.coeff, x.exp - j, j, n.digits);
    RoundedScale(!x.neg, x.coeff, x.exp - j, j, n.digits);
  }

  /** A number already as the engine writes it. */
  predicate InForm(v: string, n: Settings)
  {
    ParseNum(v).Some? && Len10(ParseNum(v).value.coeff) <= n.digits && v == TextOf(ParseNum(v).value, n)
  }

  predicate Bounded(x: Dec, n: Settings) { IntExponent(x) && IntExponent(Of(x, n)) }

  lemma OfIs(x: Dec, n: Settings)
    requires Canonical(x)
    ensures Canonical(Of(x, n)) && Len10(Of(x, n).coeff) <= n.digits && (Len10(x.coeff) <= n.digits <==> Of(x, n) == x)
  {
    RoundedLen(x.neg, x.coeff, x.exp, n.digits);
    if Len10(x.coeff) <= n.digits { RoundedIsCanonicalFixpoint(x, n.digits); }
  }

  /** Prefix plus does nothing at all: it is 0 + a if and only if a is a number in the engine's own form. */
  lemma PlusIsNothing(e: Expr, p: Pools, n: Settings, v: string)
    requires Eval(e, p, n) == Ok(v) && (ParseNum(v).Some? ==> Bounded(ParseNum(v).value, n))
    ensures Eval(Plus(e), p, n) == Ok(v)
    ensures Apply(Add, "0", v, n) == Ok(v) <==> InForm(v, n)
  {
    hide ParseNum, FormatNum, Rounded, Len10, Canonical;
    ZeroIsNumber();
    if ParseNum(v).Some? {
      var x := ParseNum(v).value;
      assert Canonical(x);
      WithZero(x, false, n);
      ResultFits(OpAdd, ZERO, x, n);
      OfIs(x, n);
      PrintParse(Of(x, n), n.digits, n.form);
    }
  }

  /** Prefix minus does not round: it is 0 - a if and only if a has at most DIGITS digits. */
  lemma MinusIsZeroMinus(a: string, x: Dec, n: Settings)
    requires ParseNum(a) == Some(x) && Bounded(Opposite(x), n)
    ensures Negate(a, n) == Apply(Sub, "0", a, n) <==> Len10(x.coeff) <= n.digits
  {
    hide ParseNum, FormatNum, Rounded, Len10, Canonical, Cut;
    ZeroIsNumber();
    assert Canonical(x);
    var y := Opposite(x);
    OppositeIs(x);
    var z := Of(y, n);
    WithZero(x, true, n);
    ResultFits(OpSub, ZERO, x, n);
    OfIs(y, n);
    PrintParse(z, n.digits, n.form);
    PrintParse(y, n.digits, n.form);
    FormatLength(z, n.digits, n.form);
    Whether(FormatNum(y, n.digits, n.form), FormatNum(z, n.digits, n.form), n.digits + 32);
  }

  lemma OppositeIs(x: Dec)
    requires Canonical(x)
    ensures Canonical(Opposite(x))
  {
  }

  /** Cut or not, a text is a shorter one only if it is that one. */
  lemma Whether(s: string, t: string, most: nat)
    requires |t| + 1 < most
    ensures Cut(s, most) == t <==> s == t
  {
  }

  /** +'abc' is abc. */
  lemma PlusOfWord(p: Pools, n: Settings)
    ensures Eval(Plus(Str("abc")), p, n) == Ok("abc") && Apply(Add, "0", "abc", n) == Fail(41)
  {
    assert SkipBlanks("abc", 0) == 0 && ScanMantissa("abc", 0, [], None) == Mantissa(0, [], None, true);
    assert ParseNum("abc") == None;
  }
}
