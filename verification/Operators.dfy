/** What each operator of the language answers, said without the tables the VM uses: arithmetic by the nearest number,
comparison by values or by texts, logic by cases. */
module Operators {
  import opened Options
  import opened Positional
  import opened Decimal
  import opened AddSubMul
  import opened Division
  import opened NumberText
  import opened ArithOps
  import opened Comparison
  import opened IntegerFastPath
  import opened WholeNumbers
  import opened BestDecimals
  import opened Bytecode
  import opened VmValues
  import NumberGrammar

  /** The text a number is answered in. */
  function TextOf(z: Dec, n: Settings): string { FormatNum(z, n.digits, n.form) }

  /** What an operator answers is the text of z. */
  ghost predicate Says(a: Answer, z: Dec, n: Settings) { a == Ok(TextOf(z, n)) }

  /** Both operands are numbers. */
  predicate Are(a: string, x: Dec, b: string, y: Dec) { ParseNum(a) == Some(x) && ParseNum(b) == Some(y) }

  // ---- Arithmetic ----------------------------------------------------------------------------

  lemma Adds(a: string, b: string, x: Dec, y: Dec, n: Settings) returns (z: Dec)
    requires Are(a, x, b, y)
    ensures var e := Min(x.exp, y.exp);
            Says(Apply(Add, a, b, n), z, n) && Closest(z, Scaled(x, e) + Scaled(y, e), 1, e, n.digits)
  {
    hide Closest, ParseNum, FormatNum, RoundedInt, Scaled;
    var e := Min(x.exp, y.exp);
    z := Sum(x, y, false, n.digits);
    ResultFits(OpAdd, x, y, n);
    RoundedIntIsClosest(Scaled(x, e) + Scaled(y, e), e, n.digits);
  }

  lemma Subtracts(a: string, b: string, x: Dec, y: Dec, n: Settings) returns (z: Dec)
    requires Are(a, x, b, y)
    ensures var e := Min(x.exp, y.exp);
            Says(Apply(Sub, a, b, n), z, n) && Closest(z, Scaled(x, e) - Scaled(y, e), 1, e, n.digits)
  {
    hide Closest, ParseNum, FormatNum, RoundedInt, Scaled;
    var e := Min(x.exp, y.exp);
    z := Sum(x, y, true, n.digits);
    ResultFits(OpSub, x, y, n);
    RoundedIntIsClosest(Scaled(x, e) - Scaled(y, e), e, n.digits);
  }

  /** The signed coefficient. */
  function Signed(x: Dec): int { if x.neg then -(x.coeff as int) else x.coeff }

  lemma SignedTimes(x: Dec, y: Dec)
    ensures Signed(x) * Signed(y) == Sgn(x.neg != y.neg, x.coeff * y.coeff) && x.coeff * y.coeff >= 0
  {
    MulLe(0, x.coeff, y.coeff);
    var u: int, v: int := x.coeff, y.coeff;
    MulDistrib(0, u, v);
    assert u * -v == -(u * v);
    assert -u * -v == u * v;
  }

  ghost predicate ClosestProduct(z: Dec, x: Dec, y: Dec, d: nat)
  {
    Closest(z, Signed(x) * Signed(y), 1, x.exp + y.exp, d)
  }

  lemma ProductIsClosest(x: Dec, y: Dec, d: nat)
    requires d >= 1
    ensures ClosestProduct(Product(x, y, d), x, y, d)
  {
    hide Closest, Rounded;
    SignedTimes(x, y);
    RoundedIsClosest(x.neg != y.neg, x.coeff * y.coeff, x.exp + y.exp, d);
  }

  lemma Multiplies(a: string, b: string, x: Dec, y: Dec, n: Settings) returns (z: Dec)
    requires Are(a, x, b, y)
    ensures Says(Apply(Mul, a, b, n), z, n) && ClosestProduct(z, x, y, n.digits)
  {
    hide ClosestProduct, ParseNum, FormatNum, Product;
    z := Product(x, y, n.digits);
    ResultFits(OpMul, x, y, n);
    ProductIsClosest(x, y, n.digits);
  }

  lemma Divides(a: string, b: string, x: Dec, y: Dec, n: Settings) returns (z: Dec)
    requires Are(a, x, b, y) && y.coeff > 0
    ensures Says(Apply(Div, a, b, n), z, n)
    ensures Closest(z, if y.neg then -Signed(x) else Signed(x), y.coeff, x.exp - y.exp, n.digits)
  {
    hide Closest, ParseNum, FormatNum, Quotient, Apply;
    z := Quotient(x, y, n.digits);
    DividesTexts(a, b, x, y, n);
    QuotientIsClosest(x, y, n.digits);
  }

  /** q is x / y without its fraction. */
  predicate WholePart(q: int, x: Dec, y: Dec)
  {
    var e := Min(x.exp, y.exp);
    var u, v := Scaled(x, e), Scaled(y, e);
    && Abs(q) * Abs(v) <= Abs(u) < (Abs(q) + 1) * Abs(v)
    && (q > 0 ==> (u < 0) == (v < 0)) && (q < 0 ==> (u < 0) != (v < 0))
  }

  lemma IntDivides(a: string, b: string, x: Dec, y: Dec, n: Settings) returns (z: Dec, q: int)
    requires Are(a, x, b, y) && y.coeff > 0
    ensures Says(Apply(IDiv, a, b, n), z, n) && WholePart(q, x, y) && Closest(z, q, 1, 0, n.digits)
  {
    hide Closest, ParseNum, FormatNum, IntQuotient, WholePart;
    z := IntQuotient(x, y, n.digits);
    ResultFits(OpIntDiv, x, y, n);
    q := WholeIsPart(x, y);
    IntQuotientIsClosest(x, y, n.digits);
  }

  lemma IntQuotientIsClosest(x: Dec, y: Dec, d: nat)
    requires y.coeff > 0 && d >= 1
    ensures Closest(IntQuotient(x, y, d), Sgn(x.neg != y.neg, Whole(x, y)), 1, 0, d)
  {
    hide Closest, Rounded, Whole;
    RoundedIsClosest(x.neg != y.neg, Whole(x, y), 0, d);
  }

  lemma WholeIsPart(x: Dec, y: Dec) returns (q: int)
    requires y.coeff > 0
    ensures WholePart(q, x, y) && q == Sgn(x.neg != y.neg, Whole(x, y))
  {
    hide Pow, Scaled;
    var e := Min(x.exp, y.exp);
    var m, k := x.coeff * Pow(10, x.exp - e), y.coeff * Pow(10, y.exp - e);
    q := Sgn(x.neg != y.neg, Whole(x, y));
    PowPositive(10, x.exp - e);
    PowPositive(10, y.exp - e);
    PowZero();
    MulPositive(y.coeff, Pow(10, y.exp - e));
    MulLe(0, x.coeff, Pow(10, x.exp - e));
    SignedScaled(x, e);
    SignedScaled(y, e);
    FloorOf(m, k);
    assert Whole(x, y) == m / k;
    if m == 0 { assert m / k == 0 by { DivModUnique(m, k, 0, 0); } }
    if x.coeff > 0 { MulPositive(x.coeff, Pow(10, x.exp - e)); }
    assert Abs(q) == m / k;
  }

  /** The remainder is x less the whole part times y, each of the three numbers rounded. */
  lemma Leaves(a: string, b: string, x: Dec, y: Dec, n: Settings) returns (z: Dec, q: int, w: Dec, p: Dec)
    requires Are(a, x, b, y) && y.coeff > 0
    ensures Says(Apply(Mod, a, b, n), z, n)
    ensures WholePart(q, x, y) && Closest(w, q, 1, 0, n.digits) && ClosestProduct(p, w, y, n.digits)
    ensures var e := Min(x.exp, p.exp); Closest(z, Scaled(x, e) - Scaled(p, e), 1, e, n.digits)
  {
    hide Closest, ParseNum, FormatNum, IntQuotient, WholePart, Product, ClosestProduct, RoundedInt, Scaled;
    w := IntQuotient(x, y, n.digits);
    p := Product(w, y, n.digits);
    z := Sum(x, p, true, n.digits);
    ResultFits(OpMod, x, y, n);
    q := WholeIsPart(x, y);
    IntQuotientIsClosest(x, y, n.digits);
    ProductIsClosest(w, y, n.digits);
    var e := Min(x.exp, p.exp);
    RoundedIntIsClosest(Scaled(x, e) - Scaled(p, e), e, n.digits);
  }

  /** z is 1 multiplied by x m times, every product rounded. */
  ghost predicate Stepwise(z: Dec, x: Dec, m: nat, d: nat)
    decreases m
  {
    if m == 0 then z == Dec(false, 1, 0) else exists y :: Stepwise(y, x, m - 1, d) && ClosestProduct(z, y, x, d)
  }

  lemma {:induction false} PowerIsStepwise(x: Dec, m: nat, d: nat)
    requires d >= 1
    ensures Stepwise(ArithOps.Power(x, m, d), x, m, d)
    decreases m
  {
    hide Product, ClosestProduct;
    if m > 0 {
      PowerIsStepwise(x, m - 1, d);
      ProductIsClosest(ArithOps.Power(x, m - 1, d), x, d);
    }
  }

  /** The exponent of a power has to be a whole number m, not negative, with m DIGITS at most 9999999. */
  predicate Powerable(y: Dec, d: nat)
  {
    !y.neg && y.exp >= 0 && y.coeff * Pow(10, y.exp) * d <= 9999999
  }

  lemma LimitIs(m: nat, d: nat)
    requires d >= 1
    ensures m > 9999999 / d <==> m * d > 9999999
  {
    var q := 9999999 / d;
    assert q * d <= 9999999 < (q + 1) * d by { FloorOf(9999999, d); }
    if m > q { MulLe(q + 1, m, d); } else { MulLe(m, q, d); }
  }

  lemma RaisesTo(a: string, b: string, x: Dec, y: Dec, n: Settings) returns (z: Dec)
    requires Are(a, x, b, y)
    ensures Powerable(y, n.digits) ==>
              Says(Apply(BinOp.Power, a, b, n), z, n) && 0 <= y.coeff * Pow(10, y.exp)
              && Stepwise(z, x, y.coeff * Pow(10, y.exp), n.digits)
    ensures !Powerable(y, n.digits) ==> Apply(BinOp.Power, a, b, n) == Fail(41)
  {
    hide ParseNum, FormatNum, Pow, Stepwise, ArithOps.Power;
    z := ONE;
    if !y.neg && y.exp >= 0 {
      PowPositive(10, y.exp);
      var m := y.coeff * Pow(10, y.exp);
      MulLe(0, y.coeff, Pow(10, y.exp));
      LimitIs(m, n.digits);
      z := ArithOps.Power(x, m, n.digits);
      PowerIsStepwise(x, m, n.digits);
      if Powerable(y, n.digits) { ResultFits(OpPower, x, y, n); }
    }
  }

  /** No numbers, or a division by zero. */
  lemma ArithmeticErrors(op: BinOp, a: string, b: string, n: Settings)
    requires op == Add || op == Sub || op == Mul || op == Div || op == IDiv || op == Mod || op == BinOp.Power
    ensures ParseNum(a) == None || ParseNum(b) == None ==> Apply(op, a, b, n) == Fail(41)
    ensures ParseNum(a).Some? && ParseNum(b).Some? && ParseNum(b).value.coeff == 0 && (op == Div || op == IDiv || op == Mod) ==>
              Apply(op, a, b, n) == Fail(42)
  {
    hide ParseNum, FormatNum, Sum, Product, PowerOf, Quotient, IntQuotient, Remainder;
  }

  /** Prefix minus: the other sign, not rounded, 0 staying 0. */
  lemma Negates(a: string, x: Dec, n: Settings) returns (z: Dec)
    requires ParseNum(a) == Some(x)
    ensures Canonical(z) && z.exp == x.exp && Scaled(z, x.exp) == -Scaled(x, x.exp)
    ensures Len10(x.coeff) <= n.digits ==> Says(Negate(a, n), z, n)
    ensures Negate(a, n).Ok? && Negate(a, n).text <= TextOf(z, n)
  {
    hide ParseNum, FormatNum, Len10, Pow;
    z := if x.coeff == 0 then x else x.(neg := !x.neg);
    PowZero();
    if Len10(x.coeff) <= n.digits { FormatLength(z, n.digits, n.form); }
  }

  lemma NegateErrors(a: string, n: Settings)
    requires ParseNum(a) == None
    ensures Negate(a, n) == Fail(41)
  {
    hide ParseNum;
  }

  // ---- Comparison -----------------------------------------------------------------------------

  function Bit(b: bool): Answer { if b then Ok("1") else Ok("0") }

  /** Two numbers are compared by their values. */
  lemma ComparesValues(a: string, b: string, x: Dec, y: Dec, n: Settings, e: int)
    requires Are(a, x, b, y) && n.fuzz == 0 && e <= x.exp && e <= y.exp
    ensures Apply(Eq, a, b, n) == Bit(Scaled(x, e) == Scaled(y, e))
    ensures Apply(Ne, a, b, n) == Bit(Scaled(x, e) != Scaled(y, e))
    ensures Apply(Lt, a, b, n) == Bit(Scaled(x, e) < Scaled(y, e))
    ensures Apply(Le, a, b, n) == Bit(Scaled(x, e) <= Scaled(y, e))
    ensures Apply(Gt, a, b, n) == Bit(Scaled(x, e) > Scaled(y, e))
    ensures Apply(Ge, a, b, n) == Bit(Scaled(x, e) >= Scaled(y, e))
  {
    hide ParseNum, Compare, Scaled;
    CompareIsExact(x, y, n.digits, e);
  }

  /** With FUZZ numbers of one sign are equal too if what is left of their difference lies below the last DIGITS - FUZZ digits
  of the larger. */
  ghost predicate WithinTolerance(x: Dec, y: Dec, z: Dec, n: Settings)
  {
    && Closest(z, Scaled(x, Min(x.exp, y.exp)) - Scaled(y, Min(x.exp, y.exp)), 1, Min(x.exp, y.exp), n.digits)
    && x.neg == y.neg
    && (z.coeff == 0 || FirstPlace(z) < Max2(FirstPlace(x), FirstPlace(y)) - (n.digits - n.fuzz))
  }

  /** The place of the first digit: 0 for units. */
  function FirstPlace(x: Dec): int { x.exp + Len10(x.coeff) - 1 }

  function Max2(i: int, j: int): int { if i < j then j else i }

  lemma ComparesWithFuzz(a: string, b: string, x: Dec, y: Dec, n: Settings) returns (z: Dec)
    requires Are(a, x, b, y) && n.fuzz > 0
    ensures var e := Min(x.exp, y.exp);
            && Closest(z, Scaled(x, e) - Scaled(y, e), 1, e, n.digits)
            && Apply(Eq, a, b, n) == Bit(WithinTolerance(x, y, z, n) || Scaled(x, e) == Scaled(y, e))
            && Apply(Lt, a, b, n) == Bit(!WithinTolerance(x, y, z, n) && Scaled(x, e) < Scaled(y, e))
            && Apply(Gt, a, b, n) == Bit(!WithinTolerance(x, y, z, n) && Scaled(x, e) > Scaled(y, e))
  {
    hide ParseNum, Scaled, Closest, RoundedInt, Len10;
    var e := Min(x.exp, y.exp);
    z := Sum(x, y, true, n.digits);
    RoundedIntIsClosest(Scaled(x, e) - Scaled(y, e), e, n.digits);
  }

  /** a comes before b: at the first character in which they differ, or because it ends there. */
  predicate Precedes(a: string, b: string)
  {
    exists i :: 0 <= i <= |a| && StartsAlike(a, b, i) && i < |b| && (i == |a| || a[i] < b[i])
  }

  predicate StartsAlike(a: string, b: string, i: nat)
  {
    i <= |a| && i <= |b| && a[..i] == b[..i]
  }

  lemma {:induction false} TextOrder(a: string, b: string)
    ensures TextCompare(a, b) == 0 <==> a == b
    ensures TextCompare(a, b) < 0 <==> Precedes(a, b)
    ensures TextCompare(a, b) > 0 <==> Precedes(b, a)
    decreases |a|
  {
    if a == "" || b == "" {
      assert StartsAlike(a, b, 0) && StartsAlike(b, a, 0);
    } else if a[0] == b[0] {
      TextOrder(a[1..], b[1..]);
      TailOrder(a, b);
      TailOrder(b, a);
      assert a == [a[0]] + a[1..] && b == [b[0]] + b[1..];
    } else {
      assert StartsAlike(a, b, 0) && StartsAlike(b, a, 0);
      FirstDecides(a, b);
      FirstDecides(b, a);
    }
  }

  lemma FirstDecides(a: string, b: string)
    requires a != "" && b != "" && a[0] != b[0]
    ensures Precedes(a, b) <==> a[0] < b[0]
  {
    if a[0] < b[0] { assert StartsAlike(a, b, 0); }
    if Precedes(a, b) {
      var i :| 0 <= i <= |a| && StartsAlike(a, b, i) && i < |b| && (i == |a| || a[i] < b[i]);
      if i > 0 { AlikeFirst(a, b, i); }
    }
  }

  lemma AlikeFirst(a: string, b: string, i: nat)
    requires i > 0 && StartsAlike(a, b, i)
    ensures a[0] == b[0]
  {
    assert a[..i][0] == b[..i][0];
  }

  lemma TailOrder(a: string, b: string)
    requires a != "" && b != "" && a[0] == b[0]
    ensures Precedes(a, b) <==> Precedes(a[1..], b[1..])
  {
    if Precedes(a, b) {
      var i :| 0 <= i <= |a| && StartsAlike(a, b, i) && i < |b| && (i == |a| || a[i] < b[i]);
      assert i > 0;
      assert a[1..][..i - 1] == a[..i][1..] && b[1..][..i - 1] == b[..i][1..];
      assert StartsAlike(a[1..], b[1..], i - 1);
    }
    if Precedes(a[1..], b[1..]) {
      var i :| 0 <= i <= |a[1..]| && StartsAlike(a[1..], b[1..], i) && i < |b[1..]| && (i == |a[1..]| || a[1..][i] < b[1..][i]);
      assert a[..i + 1] == [a[0]] + a[1..][..i] && b[..i + 1] == [b[0]] + b[1..][..i];
      assert StartsAlike(a, b, i + 1);
    }
  }

  /** The strict comparisons: character by character. */
  lemma ComparesStrictly(a: string, b: string, n: Settings)
    ensures Apply(Deq, a, b, n) == Bit(a == b) && Apply(Dne, a, b, n) == Bit(a != b)
    ensures Apply(Dlt, a, b, n) == Bit(Precedes(a, b)) && Apply(Dgt, a, b, n) == Bit(Precedes(b, a))
    ensures Apply(Dle, a, b, n) == Bit(!Precedes(b, a)) && Apply(Dge, a, b, n) == Bit(!Precedes(a, b))
  {
    hide TextCompare, Precedes;
    TextOrder(a, b);
  }

  /** The others are the same when an operand is no number. */
  lemma ComparesTexts(a: string, b: string, n: Settings)
    requires ParseNum(a) == None || ParseNum(b) == None
    ensures Apply(Eq, a, b, n) == Bit(a == b) && Apply(Ne, a, b, n) == Bit(a != b)
    ensures Apply(Lt, a, b, n) == Bit(Precedes(a, b)) && Apply(Gt, a, b, n) == Bit(Precedes(b, a))
    ensures Apply(Le, a, b, n) == Bit(!Precedes(b, a)) && Apply(Ge, a, b, n) == Bit(!Precedes(a, b))
  {
    hide ParseNum, TextCompare, Precedes;
    TextOrder(a, b);
  }

  // ---- Logic and texts ---------------------------------------------------------------------------

  lemma Connects(a: string, b: string, n: Settings)
    requires (a == "0" || a == "1") && (b == "0" || b == "1")
    ensures Apply(And, a, b, n) == Bit(a == "1" && b == "1")
    ensures Apply(Or, a, b, n) == Bit(a == "1" || b == "1")
    ensures Apply(Xor, a, b, n) == Bit(a != b)
    ensures Complement(a) == Bit(a == "0")
  {
  }

  lemma LogicErrors(a: string, b: string, n: Settings)
    requires a != "0" && a != "1"
    ensures Apply(And, a, b, n) == Apply(And, b, a, n) == Apply(Or, a, b, n) == Apply(Or, b, a, n) == Fail(34)
    ensures Apply(Xor, a, b, n) == Apply(Xor, b, a, n) == Complement(a) == Fail(34)
  {
  }

  lemma Joins(a: string, b: string, n: Settings)
    ensures Apply(Concat, a, b, n) == Ok(a + b) && Apply(BConcat, a, b, n) == Ok(a + " " + b)
  {
  }

  /** Seven halves. */
  lemma SevenHalves()
    ensures Apply(Div, "7", "2", Numeric(9, 0, Scientific)) == Ok("3.5")
  {
    hide *;
    var x, y, n: Settings := Dec(false, 7, 0), Dec(false, 2, 0), Numeric(9, 0, Scientific);
    SmallTexts();
    PrintParse(x, 9, Scientific);
    PrintParse(y, 9, Scientific);
    HalfOfSeven();
    DividesTexts("7", "2", x, y, n);
  }

  lemma DividesTexts(a: string, b: string, x: Dec, y: Dec, n: Settings)
    requires ParseNum(a) == Some(x) && ParseNum(b) == Some(y) && y.coeff > 0
    ensures Apply(Div, a, b, n) == Ok(FormatNum(Quotient(x, y, n.digits), n.digits, n.form))
  {
    hide ParseNum, FormatNum, Quotient;
    ResultFits(OpDiv, x, y, n);
  }

  lemma SmallTexts()
    ensures FormatNum(Dec(false, 7, 0), 9, Scientific) == "7" && FormatNum(Dec(false, 2, 0), 9, Scientific) == "2"
    ensures FormatNum(Dec(false, 35, -1), 9, Scientific) == "3.5"
    ensures Canonical(Dec(false, 7, 0)) && IntExponent(Dec(false, 7, 0)) && Canonical(Dec(false, 2, 0)) && IntExponent(Dec(false, 2, 0))
  {
    assert Decimals(7) == "7" && Decimals(2) == "2" && Decimals(3) == "3" && Decimals(35) == Decimals(3) + ['5'];
  }

  lemma HalfOfSeven()
    ensures Quotient(Dec(false, 7, 0), Dec(false, 2, 0), 9) == Dec(false, 35, -1)
  {
    hide Rounded, Norm, Pow;
    var x, y := Dec(false, 7, 0), Dec(false, 2, 0);
    assert Scale(y, 9) == 12;
    PowAdd(10, 1, 11);
    assert Pow(10, 1) == 10 by { PowZero(); PowStep(1); }
    PowPositive(10, 11);
    assert Raw(x, y, 9) == 35 * Pow(10, 11) by { DivModUnique(7 * Pow(10, 12), 2, 35 * Pow(10, 11), 0); }
    RoundedScale(false, 35, -12, 11, 9);
    LenOf35();
    RoundedFits(false, 35, -1, 9);
    NormOfCanonical(Dec(false, 35, -1));
  }

  lemma LenOf35()
    ensures Len10(35) == 2
  {
  }

  // ---- Counts and exit codes -------------------------------------------------------------------

  const WORD := 0x1_0000_0000

  /** What is left of v in a signed word. */
  predicate InWord(r: int, v: int)
  {
    -0x8000_0000 <= r < 0x8000_0000 && (r - v) % WORD == 0
  }

  ghost function WithSign(sign: string, digits: string): int
    requires AllDigits(digits)
  {
    if sign == "-" then -(NumberGrammar.Count(digits) as int) else NumberGrammar.Count(digits)
  }

  /** Any multiple of the word makes no difference. */
  lemma WordIs(r: int, v: int, w: int, k: int)
    requires InWord(r, w) && v == w + k * WORD
    ensures InWord(r, v)
  {
    assert r - v == (r - w) - k * WORD;
  }

  lemma Wrapped(v: int)
    ensures InWord(Wrap32(v), v)
  {
  }

  lemma WordStep(v: int, u: int, x: int)
    requires InWord(v, u)
    ensures InWord(Wrap32(v * 10 + x), u * 10 + x) && InWord(Wrap32(-v), -u)
  {
    var k := (v - u) / WORD;
    Wrapped(v * 10 + x);
    WordIs(Wrap32(v * 10 + x), u * 10 + x, v * 10 + x, -10 * k);
    Wrapped(-v);
    WordIs(Wrap32(-v), -u, -v, k);
  }

  lemma {:induction false} ExitScan(s: string, i: nat, v: int, u: nat)
    requires i <= |s| && InWord(v, u)
    ensures InWord(ExitDigits(s, i, v), ScanInt(s, i, u).1)
    decreases |s| - i
  {
    hide InWord, Wrap32;
    if i < |s| && IsDigit(s[i]) {
      WordStep(v, u, DigitOf(s[i]));
      ExitScan(s, i + 1, Wrap32(v * 10 + DigitOf(s[i])), u * 10 + DigitOf(s[i]));
    }
  }

  lemma {:induction false} CountScan(s: string, i: nat, v: int, u: nat, neg: bool)
    requires i <= |s| && InWord(v, u) && AllDigits(s[i..])
    ensures InWord(CountDigits(s, i, v, neg), Sgn(neg, ScanInt(s, i, u).1))
    decreases |s| - i
  {
    hide InWord, Wrap32;
    if i == |s| {
      WordStep(v, u, 0);
    } else {
      WordStep(v, u, DigitOf(s[i]));
      assert s[i..][0] == s[i] && s[i..][1..] == s[i + 1..];
      CountScan(s, i + 1, Wrap32(v * 10 + DigitOf(s[i])), u * 10 + DigitOf(s[i]), neg);
    }
  }

  /** All the digits behind the sign, as a number. */
  lemma DigitsBehindSign(sign: string, digits: string, rest: string)
    requires NumberGrammar.IsSign(sign) && AllDigits(digits) && (rest != "" ==> !IsDigit(rest[0]))
    ensures ScanInt(sign + digits + rest, |sign|, 0).1 == NumberGrammar.Count(digits)
  {
    hide ScanInt, NumberGrammar.Count, NumberGrammar.Run, AllDigits, Pow;
    var s, j := sign + digits + rest, |sign| + |digits|;
    assert s[|sign|..j] == digits;
    if j < |s| { assert s[j] == rest[0]; }
    NumberGrammar.RunIs(s, |sign|, j);
    NumberGrammar.IntRun(s, |sign|, 0);
  }

  lemma SignOf(sign: string, rest: string)
    requires NumberGrammar.IsSign(sign) && (sign == "" && rest != "" ==> rest[0] != '+' && rest[0] != '-')
    ensures SignLength(sign + rest) == |sign| && Negative(sign + rest) == (sign == "-")
  {
    if sign != "" { assert (sign + rest)[0] == sign[0]; } else { assert sign + rest == rest; }
  }

  /** The code EXIT leaves: the sign and the digits in front, in a word, whatever comes behind them. */
  lemma ExitIs(sign: string, digits: string, rest: string)
    requires NumberGrammar.IsSign(sign) && AllDigits(digits) && (rest != "" ==> !IsDigit(rest[0]))
    requires sign == "" && digits == "" && rest != "" ==> rest[0] != '+' && rest[0] != '-'
    ensures InWord(ExitCode(sign + digits + rest), WithSign(sign, digits))
  {
    hide ExitDigits, ScanInt, NumberGrammar.Count, InWord;
    Wrapped(0);
    var s := sign + digits + rest;
    assert s == sign + (digits + rest);
    SignOf(sign, digits + rest);
    ExitScan(s, |sign|, 0, 0);
    DigitsBehindSign(sign, digits, rest);
    WordStep(ExitDigits(s, |sign|, 0), NumberGrammar.Count(digits), 0);
  }

  /** A DO count: a sign and digits, in a word; any other text counts nothing. */
  lemma CountIs(sign: string, digits: string)
    requires NumberGrammar.IsSign(sign) && AllDigits(digits)
    ensures InWord(CountOf(sign + digits), WithSign(sign, digits))
  {
    hide CountDigits, ScanInt, NumberGrammar.Count, InWord;
    Wrapped(0);
    var s := sign + digits;
    assert s == sign + digits + "" && s[|sign|..] == digits;
    SignOf(sign, digits);
    CountScan(s, |sign|, 0, 0, sign == "-");
    DigitsBehindSign(sign, digits, "");
    if s == "" {
      NothingCounts();
      assert digits == "" && sign == "";
      assert CountOf(s) == 0 && WithSign(sign, digits) == 0;
    } else {
      assert CountOf(s) == CountDigits(s, |sign|, 0, sign == "-");
      assert Sgn(sign == "-", ScanInt(s, |sign|, 0).1) == WithSign(sign, digits);
    }
  }

  lemma NothingCounts()
    ensures AllDigits("") && NumberGrammar.Count("") == 0
  {
  }

  lemma {:induction false} OtherwiseZero(s: string, i: nat, v: int, neg: bool)
    requires i <= |s| && !AllDigits(s[i..])
    ensures CountDigits(s, i, v, neg) == 0
    decreases |s| - i
  {
    if i < |s| && IsDigit(s[i]) {
      assert s[i..] == [s[i]] + s[i + 1..];
      OtherwiseZero(s, i + 1, Wrap32(v * 10 + DigitOf(s[i])), neg);
    }
  }

  lemma NoCount(sign: string, rest: string)
    requires NumberGrammar.IsSign(sign) && !AllDigits(rest) && (sign == "" ==> rest[0] != '+' && rest[0] != '-')
    ensures CountOf(sign + rest) == 0
  {
    SignOf(sign, rest);
    assert (sign + rest)[|sign|..] == rest;
    OtherwiseZero(sign + rest, |sign|, 0, sign == "-");
  }
}
