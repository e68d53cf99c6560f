/** The engine's number record (`struct irx_number`) and the helpers that normalize
and round it in place. */
module Numbers {
  import opened Positional
  import opened Decimal

  /** value = (-1)^sign * digits[0..len) * 10^exp, digits[0] most significant. */
  class Number {
    var sign: bool
    var exp: int
    var len: nat
    var digits: array<int>

    ghost predicate Valid()
      reads this, digits
    {
      1 <= len <= digits.Length && Digits(10, digits[..len])
    }

    ghost function Coeff(): nat
      reads this, digits
      requires Valid()
    {
      ValBound(10, digits[..len]);
      Val(10, digits[..len])
    }

    ghost function Value(): Dec
      reads this, digits
      requires Valid()
    {
      Norm(sign, Coeff(), exp)
    }

    /** No leading zero. */
    ghost predicate Trimmed()
      reads this, digits
      requires Valid()
    {
      len == 1 || digits[0] != 0
    }

    /** The record itself is the canonical form of its value. */
    ghost predicate Canon()
      reads this, digits
    {
      Valid() && Trimmed() && (len == 1 || digits[len - 1] != 0)
      && (len == 1 && digits[0] == 0 ==> !sign && exp == 0)
    }

    /** Canonical, or a zero whose sign and exponent were left as they came out. */
    ghost predicate Printable()
      reads this, digits
    {
      Canon() || (Valid() && len == 1 && digits[0] == 0)
    }

    /** Storage for cap digits; the caller fills them in. */
    constructor (cap: nat)
      ensures fresh(digits) && digits.Length == (if cap < 1 then 1 else cap) && len == 0
      ensures forall i :: 0 <= i < digits.Length ==> digits[i] == 0
      ensures !sign && exp == 0
    {
      var c := if cap < 1 then 1 else cap;
      digits := new int[c](_ => 0);
      len := 0;
      sign := false;
      exp := 0;
    }
  }

  lemma CanonForm(n: Number)
    requires n.Canon()
    ensures n.Value() == Dec(n.sign, n.Coeff(), n.exp)
    ensures Len10(n.Coeff()) == n.len
    ensures n.Coeff() == 0 <==> n.len == 1 && n.digits[0] == 0
  {
    var s := n.digits[..n.len];
    LenOfDigits(s);
    LastDigit(s);
    if n.Coeff() == 0 {
      ValZeroInv(10, s);
      assert s[0] == 0;
    } else if n.len == 1 {
      assert s == [n.digits[0]];
      ValSingle(10, n.digits[0]);
    }
  }

  lemma LastDigit(s: seq<int>)
    requires |s| > 0 && Digits(10, s)
    ensures Val(10, s) >= 0 && Val(10, s) % 10 == s[|s| - 1]
    ensures Val(10, s) / 10 == Val(10, s[..|s| - 1])
  {
    ValBound(10, s);
    DivModUnique(Val(10, s), 10, Val(10, s[..|s| - 1]), s[|s| - 1]);
  }

  lemma ZeroValue(n: Number)
    requires n.Valid() && n.len == 1 && n.digits[0] == 0
    ensures n.Coeff() == 0 && n.Value() == ZERO
  {
    assert n.digits[..1] == [0];
    ValSingle(10, 0);
  }

  method StripTrailing(n: Number)
    requires n.Valid()
    modifies n
    ensures n.Valid() && n.digits == old(n.digits) && n.len <= old(n.len)
    ensures n.Value() == old(n.Value()) && (n.sign ==> old(n.sign))
    ensures old(n.Trimmed()) ==> n.Canon()
  {
    while n.len > 1 && n.digits[n.len - 1] == 0
      invariant n.Valid() && n.digits == old(n.digits) && n.len <= old(n.len)
      invariant n.Value() == old(n.Value()) && n.sign == old(n.sign)
      invariant old(n.Trimmed()) ==> n.Trimmed()
      decreases n.len
    {
      LastDigit(n.digits[..n.len]);
      assert n.digits[..n.len][..n.len - 1] == n.digits[..n.len - 1];
      n.exp := n.exp + 1;
      n.len := n.len - 1;
    }
    if n.len == 1 && n.digits[0] == 0 {
      assert n.digits[..n.len] == [0];
      ValSingle(10, 0);
      n.sign := false;
      n.exp := 0;
    }
  }

  method StripLeading(n: Number)
    requires n.Valid()
    modifies n, n.digits
    ensures n.digits == old(n.digits) && n.len <= old(n.len)
    ensures n.sign == old(n.sign) && n.exp == old(n.exp)
    ensures n.Valid() && n.Trimmed() && n.Coeff() == old(n.Coeff())
  {
    var lz := 0;
    while lz < n.len - 1 && n.digits[lz] == 0
      invariant 0 <= lz <= n.len - 1
      invariant forall i :: 0 <= i < lz ==> n.digits[i] == 0
    {
      lz := lz + 1;
    }
    if lz > 0 {
      ghost var s := n.digits[..n.len];
      ValSkipZeros(10, s, lz);
      forall i | 0 <= i < n.len - lz { n.digits[i] := n.digits[i + lz]; }
      n.len := n.len - lz;
      assert n.digits[..n.len] == s[lz..];
    }
  }

  /** Round to at most d significant digits, half-up. */
  method Round(n: Number, d: nat)
    requires n.Valid() && n.Trimmed() && d >= 1
    modifies n, n.digits
    ensures n.digits == old(n.digits)
    ensures n.Canon() && n.Value() == old(Rounded(n.sign, n.Coeff(), n.exp, d))
  {
    hide HalfUp, Norm, Val, Len10;
    ghost var s := n.digits[..n.len];
    ghost var c := n.Coeff();
    LenOfDigits(s);
    if n.len > d {
      ghost var k := n.len - d;
      var up := n.digits[d] >= 5;
      RoundParts(s, d);
      assert n.digits[..d] == s[..d];
      n.exp := n.exp + (n.len - d);
      n.len := d;
      ghost var q := HalfUp(c, k);
      if up {
        Increment(n);
      }
      assert n.Trimmed() && Norm(n.sign, n.Coeff(), n.exp) == old(Rounded(n.sign, n.Coeff(), n.exp, d));
    } else {
      RoundedFits(n.sign, c, n.exp, d);
    }
    StripTrailing(n);
  }

  // What the digit string says about dividing by 10^k.
  lemma RoundParts(s: seq<int>, d: nat)
    requires 1 <= d < |s| && Digits(10, s)
    ensures Val(10, s) >= 0 && Val(10, s[..d]) >= 0
    ensures HalfUp(Val(10, s), |s| - d) == Val(10, s[..d]) + (if s[d] >= 5 then 1 else 0)
  {
    var k := |s| - d;
    ValBound(10, s);
    ValBound(10, s[..d]);
    ValBound(10, s[d..]);
    ValBound(10, s[..d + 1]);
    ValBound(10, s[d + 1..]);
    HalfUpByDigit(Val(10, s), k);
    ValSplit(10, s, d);
    ValSplit(10, s, d + 1);
    DivModUnique(Val(10, s), Pow(10, k), Val(10, s[..d]), Val(10, s[d..]));
    DivModUnique(Val(10, s), Pow(10, k - 1), Val(10, s[..d + 1]), Val(10, s[d + 1..]));
    LastDigit(s[..d + 1]);
  }

  // A 9 that rolls over to 0 hands its carry to the cell on its left.
  lemma RollOver(s: seq<int>, i: nat)
    requires i < |s| && s[i] == 9
    ensures Val(10, s[i := 0]) + Pow(10, |s| - i) == Val(10, s) + Pow(10, |s| - 1 - i)
  {
    ValUpdate(10, s, i, 0);
    assert Pow(10, |s| - i) == 10 * Pow(10, |s| - 1 - i);
  }

  lemma AddOneAt(s: seq<int>, i: nat)
    requires i < |s|
    ensures Val(10, s[i := s[i] + 1]) == Val(10, s) + Pow(10, |s| - 1 - i)
  {
    ValUpdate(10, s, i, s[i] + 1);
  }

  /** Add one to the first n digits; a carry out leaves them all zero. */
  method AddOne(a: array<int>, n: nat) returns (carry: bool)
    requires 1 <= n <= a.Length && Digits(10, a[..n])
    modifies a
    ensures Digits(10, a[..n])
    ensures Val(10, a[..n]) + (if carry then Pow(10, n) else 0) == old(Val(10, a[..n])) + 1
    ensures carry ==> forall j :: 0 <= j < n ==> a[j] == 0
    ensures !carry && old(a[0]) != 0 ==> a[0] != 0
  {
    assert Pow(10, 0) == 1;
    hide Val, Pow;
    carry := true;
    var i := n - 1;
    while i >= 0 && carry
      invariant -1 <= i < n && Digits(10, a[..n])
      invariant carry ==> forall j :: i < j < n ==> a[j] == 0
      invariant Val(10, a[..n]) + (if carry then Pow(10, n - 1 - i) else 0) == old(Val(10, a[..n])) + 1
      invariant i >= 0 && carry ==> a[0] == old(a[0])
      invariant !carry && old(a[0]) != 0 ==> a[0] != 0
    {
      ghost var s := a[..n];
      if a[i] + 1 < 10 {
        AddOneAt(s, i);
        a[i] := a[i] + 1;
        assert a[..n] == s[i := s[i] + 1];
        carry := false;
      } else {
        RollOver(s, i);
        a[i] := 0;
        assert a[..n] == s[i := 0];
      }
      i := i - 1;
    }
  }

  /** Add one to the coefficient; 99..9 becomes 1 and the exponent takes the length. */
  method Increment(n: Number)
    requires n.Valid() && n.Trimmed()
    modifies n, n.digits
    ensures n.digits == old(n.digits) && n.sign == old(n.sign)
    ensures n.Valid() && n.Trimmed()
    ensures n.Value() == old(Norm(n.sign, n.Coeff() + 1, n.exp))
  {
    var carry := AddOne(n.digits, n.len);
    if carry {
      ValZeros(10, n.digits[..n.len]);
      NormScale(n.sign, 1, n.exp, n.len);
      n.digits[0] := 1;
      n.exp := n.exp + n.len;
      n.len := 1;
      assert n.digits[..1] == [1];
      ValSingle(10, 1);
    } else if n.len > 1 {
      assert n.digits[0] != 0;
    }
  }
}
