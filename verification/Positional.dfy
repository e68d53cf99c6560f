/** Positional notation: the value of a digit sequence, most significant cell first.

The arithmetic engine, the conversions and the VM all keep numbers as arrays of
cells. `Val` gives such an array its value without asking the cells to be
digits, so that a carry or borrow loop can be followed cell by cell. */
module Positional {

  function Pow(b: nat, n: nat): nat
  {
    if n == 0 then 1 else b * Pow(b, n - 1)
  }

  function Val(b: nat, s: seq<int>): int
  {
    if |s| == 0 then 0 else Val(b, s[..|s| - 1]) * b + s[|s| - 1]
  }

  /** Every cell is a digit of base b. */
  ghost predicate Digits(b: nat, s: seq<int>)
  {
    forall i :: 0 <= i < |s| ==> 0 <= s[i] < b
  }

  lemma {:induction false} PowPositive(b: nat, n: nat)
    requires b > 0
    ensures Pow(b, n) > 0
  {
    if n > 0 { PowPositive(b, n - 1); }
  }

  lemma {:induction false} PowAdd(b: nat, m: nat, n: nat)
    ensures Pow(b, m + n) == Pow(b, m) * Pow(b, n)
  {
    if m > 0 {
      PowAdd(b, m - 1, n);
      MulAssoc(b, Pow(b, m - 1), Pow(b, n));
    }
  }

  lemma {:induction false} PowMonotone(b: nat, m: nat, n: nat)
    requires b > 0 && m <= n
    ensures Pow(b, m) <= Pow(b, n)
  {
    PowAdd(b, n - m, m);
    PowPositive(b, n - m);
    MulLe(1, Pow(b, n - m), Pow(b, m));
  }

  // Small facts about products, kept apart so that no proof has to find them.

  lemma MulAssoc(x: int, y: int, z: int)
    ensures x * (y * z) == (x * y) * z
  {
  }

  lemma MulLe(x: int, y: int, z: int)
    requires x <= y && 0 <= z
    ensures x * z <= y * z
  {
  }

  lemma MulLt(x: int, y: int, z: int)
    requires x < y && 0 < z
    ensures x * z < y * z
  {
  }

  lemma MulCancelLt(x: int, y: int, z: int)
    requires x * z < y * z && 0 < z
    ensures x < y
  {
    if y <= x { MulLe(y, x, z); }
  }

  lemma MulPositive(x: int, y: int)
    requires x > 0 && y > 0
    ensures x * y > 0
  {
  }

  lemma MulDistrib(x: int, y: int, z: int)
    ensures (x + y) * z == x * z + y * z
    ensures (x - y) * z == x * z - y * z
  {
  }

  // Quotient and remainder are determined by what they satisfy.
  lemma DivModUnique(n: int, d: int, q: int, r: int)
    requires d > 0 && n == q * d + r && 0 <= r < d
    ensures n / d == q && n % d == r
  {
    var q', r' := n / d, n % d;
    assert n == q' * d + r' && 0 <= r' < d;
    assert (q - q') * d == r' - r by { MulDistrib(q, q', d); }
    if q < q' { MulLe(q - q', -1, d); }
    if q > q' { MulLe(1, q - q', d); }
  }

  lemma {:induction false} ValAppend(b: nat, s: seq<int>, t: seq<int>)
    ensures Val(b, s + t) == Val(b, s) * Pow(b, |t|) + Val(b, t)
  {
    if |t| == 0 {
      assert s + t == s;
    } else {
      var n := |t| - 1;
      assert (s + t)[..|s + t| - 1] == s + t[..n];
      ValAppend(b, s, t[..n]);
      MulDistrib(Val(b, s) * Pow(b, n), Val(b, t[..n]), b);
      MulAssoc(Val(b, s), Pow(b, n), b);
    }
  }

  lemma {:induction false} ValSplit(b: nat, s: seq<int>, i: nat)
    requires i <= |s|
    ensures Val(b, s) == Val(b, s[..i]) * Pow(b, |s| - i) + Val(b, s[i..])
  {
    assert s == s[..i] + s[i..];
    ValAppend(b, s[..i], s[i..]);
  }

  lemma ValSingle(b: nat, x: int)
    ensures Val(b, [x]) == x
  {
    assert [x][..0] == [];
  }

  /** Changing one cell changes the value by that cell's weight. */
  lemma {:induction false} ValUpdate(b: nat, s: seq<int>, i: nat, x: int)
    requires i < |s|
    ensures Val(b, s[i := x]) == Val(b, s) + (x - s[i]) * Pow(b, |s| - 1 - i)
  {
    var n := |s| - 1;
    var s' := s[i := x];
    if i == n {
      assert s'[..n] == s[..n];
    } else {
      assert s'[..n] == s[..n][i := x];
      ValUpdate(b, s[..n], i, x);
      MulDistrib(Val(b, s[..n]), (x - s[i]) * Pow(b, n - 1 - i), b);
      MulAssoc(x - s[i], Pow(b, n - 1 - i), b);
    }
  }

  lemma {:induction false} ValBound(b: nat, s: seq<int>)
    requires b > 0 && Digits(b, s)
    ensures 0 <= Val(b, s) < Pow(b, |s|)
  {
    if |s| > 0 {
      var n := |s| - 1;
      ValBound(b, s[..n]);
      MulLe(Val(b, s[..n]), Pow(b, n) - 1, b);
      MulLe(0, Val(b, s[..n]), b);
      MulDistrib(Pow(b, n), 1, b);
    }
  }

  lemma {:induction false} ValZeros(b: nat, s: seq<int>)
    requires forall i :: 0 <= i < |s| ==> s[i] == 0
    ensures Val(b, s) == 0
  {
    if |s| > 0 { ValZeros(b, s[..|s| - 1]); }
  }

  lemma {:induction false} ValTop(b: nat, s: seq<int>)
    requires |s| > 0
    ensures Val(b, s) == s[0] * Pow(b, |s| - 1) + Val(b, s[1..])
  {
    ValSplit(b, s, 1);
    assert s[..1] == [s[0]];
    ValSingle(b, s[0]);
  }

  /** A non-zero leading digit makes the value at least that digit's weight. */
  lemma {:induction false} ValLead(b: nat, s: seq<int>)
    requires b > 0 && |s| > 0 && Digits(b, s) && s[0] > 0
    ensures Val(b, s) >= Pow(b, |s| - 1)
  {
    ValTop(b, s);
    ValBound(b, s[1..]);
    PowPositive(b, |s| - 1);
    MulLe(1, s[0], Pow(b, |s| - 1));
  }

  /** Only zero cells have value zero. */
  lemma {:induction false} ValZeroInv(b: nat, s: seq<int>)
    requires b > 0 && Digits(b, s) && Val(b, s) == 0
    ensures forall i :: 0 <= i < |s| ==> s[i] == 0
  {
    if |s| > 0 {
      var n := |s| - 1;
      ValBound(b, s[..n]);
      if Val(b, s[..n]) > 0 { MulLe(1, Val(b, s[..n]), b); }
      ValZeroInv(b, s[..n]);
      assert forall i :: 0 <= i < n ==> s[i] == s[..n][i];
    }
  }

  /** Positional notation of a given width is unique. */
  lemma {:induction false} ValInjective(b: nat, s: seq<int>, t: seq<int>)
    requires b > 0 && |s| == |t| && Digits(b, s) && Digits(b, t) && Val(b, s) == Val(b, t)
    ensures s == t
  {
    if |s| > 0 {
      var n := |s| - 1;
      DivModUnique(Val(b, s), b, Val(b, s[..n]), s[n]);
      DivModUnique(Val(b, t), b, Val(b, t[..n]), t[n]);
      ValInjective(b, s[..n], t[..n]);
      assert s == s[..n] + [s[n]] && t == t[..n] + [t[n]];
    }
  }

  /** After a carry or borrow sweep only the top cell is left to doubt; the value decides it. */
  lemma {:induction false} TopCellIsDigit(b: nat, s: seq<int>)
    requires b > 0 && |s| > 0 && Digits(b, s[1..]) && 0 <= Val(b, s) < Pow(b, |s|)
    ensures Digits(b, s)
  {
    var p := Pow(b, |s| - 1);
    ValTop(b, s);
    ValBound(b, s[1..]);
    PowPositive(b, |s| - 1);
    if s[0] < 0 { MulLe(s[0], -1, p); }
    if s[0] >= b { MulLe(b, s[0], p); }
    assert forall i :: 0 < i < |s| ==> s[i] == s[1..][i - 1];
  }

  lemma {:induction false} ValSkipZeros(b: nat, s: seq<int>, k: nat)
    requires k <= |s| && forall i :: 0 <= i < k ==> s[i] == 0
    ensures Val(b, s[k..]) == Val(b, s)
  {
    ValSplit(b, s, k);
    ValZeros(b, s[..k]);
  }

  lemma {:induction false} ValPadZeros(b: nat, s: seq<int>, t: seq<int>)
    requires forall i :: 0 <= i < |t| ==> t[i] == 0
    ensures Val(b, s + t) == Val(b, s) * Pow(b, |t|)
  {
    ValAppend(b, s, t);
    ValZeros(b, t);
  }
}
