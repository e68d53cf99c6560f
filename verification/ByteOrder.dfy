/** Where each byte and hexadecimal digit of a conversion stands, and which texts are whole numbers to them. */
module ByteOrder {
  import opened Positional
  import opened Decimal
  import opened AddSubMul
  import opened WholeNumbers
  import opened Options
  import opened NumberText
  import opened ByteDigits
  import opened Bytecode
  import opened Conversions

  /** A text is converted exactly if it denotes an integer of at most 2000 digits, written with a fraction or a power or not. */
  lemma WholeExactly(text: string, v: int)
    ensures WholeOf(text) == Conversions.Whole(v) <==> ParseNum(text) == Some(Norm(v < 0, Abs(v), 0)) && Abs(v) < Pow(10, 2000)
  {
    hide ParseNum, Norm, Pow, Len10, Scaled;
    if WholeOf(text) == Conversions.Whole(v) {
      var x := ParseNum(text).value;
      IntIsUnique(x);
      IntFits(x, 2000);
    }
    if ParseNum(text) == Some(Norm(v < 0, Abs(v), 0)) {
      IntOfInt(v);
      IntFits(Int(v), 2000);
    }
  }

  lemma IntFits(x: Dec, d: nat)
    requires IsWhole(x) && d >= 1
    ensures Abs(IntOf(x)) < Pow(10, d) <==> Len10(x.coeff) + x.exp <= d
  {
    hide Pow, Len10, Scaled;
    IntSize(x);
    PowZero();
    PowPositive(10, d);
    LenOfInt(x.coeff, x.exp, d);
    if x.coeff == 0 { ZeroFits(d); }
  }

  lemma ZeroFits(d: nat)
    requires d >= 1
    ensures Len10(0) <= d
  {
  }

  lemma LenOfInt(c: nat, e: nat, d: nat)
    requires d >= 1
    ensures c > 0 ==> (c * Pow(10, e) < Pow(10, d) <==> Len10(c) + e <= d)
  {
    hide Pow, Len10;
    PowPositive(10, e);
    if c > 0 {
      var v := c * Pow(10, e);
      assert v > 0 by { MulLe(1, c, Pow(10, e)); }
      LenScale(c, e);
      LenBounds(v);
      if v < Pow(10, d) { LenAtMost(v, d); }
      else if Len10(v) <= d { PowMonotone(10, Len10(v), d); }
    }
  }

  /** The k-th byte from the right is the k-th digit to base 256, of negative numbers too. */
  lemma {:induction false} BytesInOrder(v: int, n: nat, k: nat)
    requires k < n
    ensures Pow(256, k) > 0 && BytesOf(v, n)[n - 1 - k] == v / Pow(256, k) % 256
    decreases k
  {
    hide Pow;
    PowPositive(256, k);
    if k == 0 { PowNone256(); }
    else {
      BytesInOrder(v / 256, n - 1, k - 1);
      NextPow(256, k - 1);
      DivTwice(v, 256, Pow(256, k - 1));
    }
  }

  lemma PowNone256()
    ensures Pow(256, 0) == 1 && Pow(16, 0) == 1
  {
  }

  lemma DivTwice(v: int, b: nat, p: nat)
    requires b > 0 && p > 0
    ensures b * p > 0 && v / b / p == v / (b * p)
  {
    var q := v / b / p;
    var r := v / b % p;
    MulLe(1, b, p);
    MulDistrib(q * p, r, b);
    MulAssoc(q, p, b);
    MulLe(r, p - 1, b);
    assert p * b == b * p;
    DivModUnique(v, b * p, q, r * b + v % b);
  }

  /** So is the k-th hexadecimal digit, in capitals. */
  lemma {:induction false} HexInOrder(v: int, n: nat, k: nat)
    requires k < n
    ensures Pow(16, k) > 0 && HexOf(v, n)[n - 1 - k] == "0123456789ABCDEF"[v / Pow(16, k) % 16]
    decreases k
  {
    hide Pow, HexChar;
    PowPositive(16, k);
    if k == 0 {
      PowNone256();
      Capital(v % 16);
    } else {
      HexInOrder(v / 16, n - 1, k - 1);
      NextPow(16, k - 1);
      DivTwice(v, 16, Pow(16, k - 1));
    }
  }

  lemma Capital(d: nat)
    requires d < 16
    ensures HexChar(d) == "0123456789ABCDEF"[d]
  {
  }

  /** Read the other way: the first byte counts most, and with a length the upper half of the range is negative. */
  lemma TwoBytes(a: Byte, b: Byte)
    ensures C2DValue([a, b], None) == C2DValue([0, a, b], Some(3)) == 256 * a as int + b as int
    ensures C2DValue([a, b], Some(2)) == 256 * a as int + b as int - (if a >= 128 then 65536 else 0)
    ensures C2DValue([a, b], Some(1)) == b as int - (if b >= 128 then 256 else 0)
  {
    hide Val, Pow;
    SmallPowers();
    var s: seq<Byte> := [a, b];
    var t: seq<Byte> := [0, a, b];
    assert s[..1] == [a] && s[1..] == [b] && t[..2] == [0, a] && t[..2][..1] == [0];
    TwoDigits(a as int, b as int);
    assert RightMost(s, 2) == [a as int, b as int] && RightMost(s, 1) == [b as int] && RightMost(t, 3) == [0, a as int, b as int];
  }

  lemma SmallPowers()
    ensures Pow(256, 1) == 256 && Pow(256, 2) == 65536 && Pow(256, 3) == 16777216
  {
    assert Pow(256, 0) == 1;
  }

  lemma TwoDigits(a: int, b: int)
    ensures Val(256, [b]) == b && Val(256, [a, b]) == Val(256, [0, a, b]) == 256 * a + b
  {
    ValSingle(256, b);
    ValSingle(256, a);
    ValSingle(256, 0);
    assert [a, b][..1] == [a] && [0, a, b][..2] == [0, a] && [0, a][..1] == [0];
  }
}
