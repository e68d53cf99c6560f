/** Long division on digit arrays, and what normal and integer division return. */
module Division {
  import opened Positional
  import opened Decimal
  import opened Numbers
  import opened AddSubMul

  // ---- Digit-array steps -----------------------------------------------

  /** The cells of y, with skip zero cells ahead. */
  function Shifted(skip: nat, y: seq<int>): (s: seq<int>)
    ensures |s| == skip + |y|
    ensures forall j :: 0 <= j < |s| ==> s[j] == if j < skip then 0 else y[j - skip]
  {
    seq(skip, _ => 0) + y
  }

  lemma ShiftedValue(skip: nat, y: seq<int>)
    ensures Val(10, Shifted(skip, y)) == Val(10, y)
  {
    ValSkipZeros(10, Shifted(skip, y), skip);
    assert Shifted(skip, y)[skip..] == y;
  }

  lemma SuffixStep(s: seq<int>, j: nat)
    requires j < |s|
    ensures Val(10, s[j..]) == s[j] * Pow(10, |s| - 1 - j) + Val(10, s[j + 1..])
  {
    ValTop(10, s[j..]);
    assert s[j..][1..] == s[j + 1..];
  }

  // v = 10 * (v / 10) + v % 10, weighted.
  lemma CarryWeights(v: int, q: int, x: int, carry: int, p: int)
    requires v == q * x + carry
    ensures v % 10 * p + v / 10 * (10 * p) == q * (x * p) + carry * p
  {
    MulAssoc(v / 10, 10, p);
    MulDistrib(v % 10, v / 10 * 10, p);
    MulDistrib(q * x, carry, p);
    MulAssoc(q, x, p);
  }

  lemma TimesStep(prod: seq<int>, prod': seq<int>, db: seq<int>, q: int, carry: int, j: nat)
    requires |prod| == |prod'| == |db| + 1 && 0 < j <= |db|
    requires Val(10, prod[j + 1..]) + carry * Pow(10, |db| - j) == q * Val(10, db[j..])
    requires prod'[j + 1..] == prod[j + 1..] && prod'[j] == (q * db[j - 1] + carry) % 10
    ensures Val(10, prod'[j..]) + (q * db[j - 1] + carry) / 10 * Pow(10, |db| - j + 1) == q * Val(10, db[j - 1..])
  {
    hide Val;
    var p := Pow(10, |db| - j);
    SuffixStep(prod', j);
    SuffixStep(db, j - 1);
    CarryWeights(q * db[j - 1] + carry, q, db[j - 1], carry, p);
    MulDistrib(db[j - 1] * p, Val(10, db[j..]), q);
  }

  /** prod = q * db, one cell wider than db. */
  method TimesDigit(prod: array<int>, db: array<int>, q: int)
    requires prod.Length == db.Length + 1 && prod != db && Digits(10, db[..]) && 0 <= q <= 9
    modifies prod
    ensures Digits(10, prod[..]) && Val(10, prod[..]) == q * Val(10, db[..])
  {
    hide Val, Pow;
    ghost var d := db[..];
    var carry := 0;
    var j := db.Length;
    SuffixEmpty(prod[..], d);
    while j > 0
      invariant 0 <= j <= db.Length && db[..] == d && 0 <= carry <= 9
      invariant forall k :: j < k < prod.Length ==> 0 <= prod[k] < 10
      invariant Val(10, prod[..][j + 1..]) + carry * Pow(10, db.Length - j) == q * Val(10, d[j..])
    {
      assert 0 <= d[j - 1] <= 9;
      MulLe(d[j - 1], 9, q);
      MulLe(0, d[j - 1], q);
      var v := q * db[j - 1] + carry;
      ghost var s := prod[..];
      prod[j] := v % 10;
      TimesStep(s, prod[..], d, q, carry, j);
      carry := v / 10;
      j := j - 1;
    }
    assert d[0..] == d;
    prod[0] := carry;
    SuffixStep(prod[..], 0);
    assert prod[..][0..] == prod[..];
  }

  lemma SuffixEmpty(prod: seq<int>, d: seq<int>)
    requires |prod| == |d| + 1
    ensures Val(10, prod[|d| + 1..]) == 0 && Val(10, d[|d|..]) == 0
  {
  }

  /** -1, 0 or 1 as the digits x are a smaller, equal or greater number than y. */
  method CompareCells(x: array<int>, y: array<int>) returns (c: int)
    requires x.Length == y.Length && Digits(10, x[..]) && Digits(10, y[..])
    ensures c == Sign(Val(10, x[..]) - Val(10, y[..]))
  {
    hide Val;
    ghost var s, t := x[..], y[..];
    var j := 0;
    while j < x.Length
      invariant 0 <= j <= x.Length && s[..j] == t[..j]
    {
      if x[j] > y[j] { FirstDifference(t, s, j); return 1; }
      if x[j] < y[j] { FirstDifference(s, t, j); return -1; }
      j := j + 1;
    }
    assert s == t;
    c := 0;
  }

  lemma BorrowStep(s: seq<int>, s0: seq<int>, t: seq<int>, borrow: int, x: int, j: nat, out: int)
    requires |s| == |s0| == |t| && 0 < j <= |s| && s[..j] == s0[..j]
    requires Val(10, s[j..]) - borrow * Pow(10, |s| - j) == Val(10, s0[j..]) - Val(10, t[j..])
    requires x - 10 * out == s0[j - 1] - t[j - 1] - borrow
    ensures Val(10, s[j - 1 := x][j - 1..]) - out * Pow(10, |s| - j + 1) == Val(10, s0[j - 1..]) - Val(10, t[j - 1..])
  {
    hide Val;
    var p := Pow(10, |s| - j);
    var s' := s[j - 1 := x];
    assert s'[j..] == s[j..];
    SuffixStep(s', j - 1);
    SuffixStep(s0, j - 1);
    SuffixStep(t, j - 1);
    MulAssoc(out, 10, p);
    assert (x - 10 * out) * p == x * p - out * 10 * p by { MulDistrib(x, 10 * out, p); }
    assert (s0[j - 1] - t[j - 1] - borrow) * p == s0[j - 1] * p - t[j - 1] * p - borrow * p by {
      MulDistrib(s0[j - 1] - t[j - 1], borrow, p);
      MulDistrib(s0[j - 1], t[j - 1], p);
    }
  }

  /** x -= y, y's last cell under x's last; x is not the smaller one, so no borrow is left over. */
  method SubtractCells(x: array<int>, y: array<int>)
    requires x != y && y.Length <= x.Length && Digits(10, x[..]) && Digits(10, y[..])
    requires Val(10, y[..]) <= Val(10, x[..])
    modifies x
    ensures Digits(10, x[..]) && Val(10, x[..]) == old(Val(10, x[..])) - Val(10, y[..])
  {
    hide Val, Pow;
    var skip := x.Length - y.Length;
    ghost var s0, t := x[..], Shifted(skip, y[..]);
    ShiftedValue(skip, y[..]);
    var borrow := 0;
    var j := x.Length;
    EmptySuffixes(s0, t);
    while j > 0
      invariant 0 <= j <= x.Length && 0 <= borrow <= 1
      invariant t == Shifted(skip, y[..])
      invariant Digits(10, x[..]) && x[..][..j] == s0[..j]
      invariant Val(10, x[..][j..]) - borrow * Pow(10, x.Length - j) == Val(10, s0[j..]) - Val(10, t[j..])
    {
      ghost var s := x[..];
      assert s[..j][j - 1] == s[j - 1] && s0[..j][j - 1] == s0[j - 1];
      var d := if j - 1 >= skip then y[j - 1 - skip] else 0;
      var v := x[j - 1] - d - borrow;
      assert d == t[j - 1] && 0 <= d < 10 && 0 <= s[j - 1] < 10;
      if v < 0 {
        BorrowStep(s, s0, t, borrow, v + 10, j, 1);
        v := v + 10;
        borrow := 1;
      } else {
        BorrowStep(s, s0, t, borrow, v, j, 0);
        borrow := 0;
      }
      x[j - 1] := v;
      assert x[..] == s[j - 1 := v];
      assert x[..][..j - 1] == s[..j][..j - 1] == s0[..j - 1];
      j := j - 1;
    }
    assert x[..][0..] == x[..] && s0[0..] == s0 && t[0..] == t;
    ValBound(10, x[..]);
  }

  lemma EmptySuffixes(s: seq<int>, t: seq<int>)
    requires |s| == |t|
    ensures Val(10, s[|s|..]) == 0 && Val(10, t[|s|..]) == 0
  {
  }

  // ---- One quotient digit ----------------------------------------------

  /** The estimate from the top two cells over the first divisor digit is never too small. */
  lemma EstimateNotTooSmall(partial: seq<int>, db: seq<int>, q: nat)
    requires |partial| == |db| + 1 && |db| >= 1 && Digits(10, partial) && Digits(10, db) && db[0] > 0
    requires q * Val(10, db) <= Val(10, partial)
    ensures q <= (partial[0] * 10 + partial[1]) / db[0]
  {
    hide Val, Pow;
    var p := Pow(10, |db| - 1);
    PowPositive(10, |db| - 1);
    ValTop(10, db);
    ValBound(10, db[1..]);
    TopTwo(partial);
    ValBound(10, partial[2..]);
    EstimateCore(q, db[0], Val(10, db), p, partial[0] * 10 + partial[1], Val(10, partial[2..]));
  }

  lemma EstimateCore(q: nat, lead: int, b: int, p: int, top: int, rest: int)
    requires lead > 0 && lead * p <= b && 0 <= rest < p && q * b <= top * p + rest
    ensures q <= top / lead
  {
    MulLe(lead * p, b, q);
    MulAssoc(q, lead, p);
    MulDistrib(top, 1, p);
    MulCancelLt(q * lead, top + 1, p);
    QuotientAtLeast(top, lead, q);
  }

  lemma TopTwo(partial: seq<int>)
    requires |partial| >= 2
    ensures Val(10, partial) == (partial[0] * 10 + partial[1]) * Pow(10, |partial| - 2) + Val(10, partial[2..])
  {
    ValSplit(10, partial, 2);
    assert partial[..2] == [partial[0], partial[1]];
    assert partial[..2][..1] == [partial[0]];
    ValSingle(10, partial[0]);
  }

  lemma QuotientAtLeast(n: int, d: int, q: int)
    requires d > 0 && q * d <= n
    ensures q <= n / d
  {
    assert n == n / d * d + n % d;
    MulDistrib(n / d, 1, d);
    MulCancelLt(q, n / d + 1, d);
  }

  /** Divide a partial dividend below ten divisors: quotient digit out, remainder left in partial. */
  method QuotientDigit(partial: array<int>, prod: array<int>, db: array<int>) returns (qd: int)
    requires db.Length >= 1 && partial.Length == prod.Length == db.Length + 1
    requires partial != prod && partial != db && prod != db
    requires Digits(10, partial[..]) && Digits(10, db[..]) && db[0] > 0
    requires Val(10, partial[..]) < 10 * Val(10, db[..])
    modifies partial, prod
    ensures 0 <= qd <= 9 && Digits(10, partial[..])
    ensures old(Val(10, partial[..])) == qd * Val(10, db[..]) + Val(10, partial[..])
    ensures Val(10, partial[..]) < Val(10, db[..])
  {
    hide Val, Pow;
    ghost var p, b := Val(10, partial[..]), Val(10, db[..]);
    TrueDigit(partial[..], db[..]);
    ghost var q := p / b;
    qd := if db[0] > 0 then (partial[0] * 10 + partial[1]) / db[0] else 9;
    if qd > 9 { qd := 9; }
    TimesDigit(prod, db, qd);
    var cmp := CompareCells(prod, partial);
    while cmp > 0
      invariant q <= qd <= 9 && Digits(10, prod[..]) && Val(10, prod[..]) == qd * b
      invariant partial[..] == old(partial[..]) && db[..] == old(db[..])
      invariant cmp == Sign(qd * b - p)
      decreases qd
    {
      if qd == q { assert false; }
      MulLe(1, qd, b);
      MulDistrib(qd, 1, b);
      qd := qd - 1;
      SubtractCells(prod, db);
      cmp := CompareCells(prod, partial);
    }
    DigitFound(p, b, q, qd);
    SubtractCells(partial, prod);
  }

  lemma TrueDigit(partial: seq<int>, db: seq<int>)
    requires |partial| == |db| + 1 && |db| >= 1 && Digits(10, partial) && Digits(10, db) && db[0] > 0
    requires Val(10, partial) < 10 * Val(10, db)
    ensures Val(10, db) > 0 && Val(10, partial) >= 0
    ensures var q := Val(10, partial) / Val(10, db);
            0 <= q <= 9 && q * Val(10, db) <= Val(10, partial) < (q + 1) * Val(10, db)
            && q <= (partial[0] * 10 + partial[1]) / db[0]
  {
    hide Val, Pow;
    var p, b := Val(10, partial), Val(10, db);
    PowPositive(10, |db| - 1);
    ValLead(10, db);
    ValBound(10, partial);
    var q := p / b;
    assert p == q * b + p % b;
    MulDistrib(q, 1, b);
    MulCancelLt(q, 10, b);
    EstimateNotTooSmall(partial, db, q);
  }

  lemma DigitFound(p: nat, b: nat, q: nat, qd: nat)
    requires b > 0 && q * b <= p < (q + 1) * b && q <= qd && qd * b <= p
    ensures qd == q && p - qd * b < b
  {
    MulCancelLt(qd, q + 1, b);
    MulDistrib(q, 1, b);
  }

  /** Shift the remainder one place left and take in the next dividend digit. */
  method BringDown(partial: array<int>, digit: int)
    requires partial.Length >= 2 && Digits(10, partial[..]) && 0 <= digit < 10
    requires Val(10, partial[..]) < Pow(10, partial.Length - 1)
    modifies partial
    ensures Digits(10, partial[..]) && Val(10, partial[..]) == 10 * old(Val(10, partial[..])) + digit
  {
    hide Val, Pow;
    ghost var s := partial[..];
    TopIsZero(s);
    var j := 0;
    while j < partial.Length - 1
      invariant 0 <= j <= partial.Length - 1
      invariant forall k :: 0 <= k < j ==> partial[k] == s[k + 1]
      invariant forall k :: j <= k < partial.Length ==> partial[k] == s[k]
    {
      partial[j] := partial[j + 1];
      j := j + 1;
    }
    partial[partial.Length - 1] := digit;
    assert partial[..] == s[1..] + [digit];
    ShiftIn(s, digit);
  }

  lemma TopIsZero(s: seq<int>)
    requires |s| >= 1 && Digits(10, s) && Val(10, s) < Pow(10, |s| - 1)
    ensures s[0] == 0
  {
    if s[0] > 0 { ValLead(10, s); }
  }

  lemma ShiftIn(s: seq<int>, digit: int)
    requires |s| >= 1 && s[0] == 0
    ensures Val(10, s[1..] + [digit]) == 10 * Val(10, s) + digit
  {
    ValSkipZeros(10, s, 1);
    assert (s[1..] + [digit])[..|s| - 1] == s[1..];
  }

  // ---- The digit loop ---------------------------------------------------

  // One round: quotient so far Q, remainder r, dividend prefix X.
  lemma RoundStep(x: int, quot: int, b: int, partial: int, qd: int, r: int)
    requires x == quot * b * 10 + partial && partial == qd * b + r
    ensures x == (quot * 10 + qd) * b + r
  {
    MulDistrib(quot * 10, qd, b);
    MulAssoc(quot, 10, b);
    MulAssoc(quot, b, 10);
  }

  lemma NextRound(x: int, quot: int, b: int, r: int, digit: int)
    requires x == quot * b + r
    ensures x * 10 + digit == quot * b * 10 + (10 * r + digit)
  {
  }

  /** dq = da / db digit by digit; the whole part, exactly. */
  method DivideDigits(da: array<int>, db: array<int>) returns (dq: array<int>)
    requires 1 <= db.Length <= da.Length && da != db
    requires Digits(10, da[..]) && Digits(10, db[..]) && db[0] > 0
    ensures fresh(dq) && dq.Length == da.Length - db.Length + 1 && Digits(10, dq[..])
    ensures var q, b := Val(10, dq[..]), Val(10, db[..]);
            q * b <= Val(10, da[..]) < (q + 1) * b
  {
    hide Val, Pow;
    var n := db.Length;
    ghost var d, b, v := da[..], db[..], Val(10, db[..]);
    dq := new int[da.Length - n + 1](_ => 0);
    var partial := new int[n + 1](_ => 0);
    var prod := new int[n + 1](_ => 0);
    var jj := 0;
    while jj < n
      invariant 0 <= jj <= n && partial[0] == 0 && Digits(10, dq[..])
      invariant forall k :: 0 <= k < jj ==> partial[k + 1] == d[k]
    {
      partial[jj + 1] := da[jj];
      jj := jj + 1;
    }
    LoadPartial(partial[..], d, b);
    NoRound(dq[..0], d, n, v);
    var i := 0;
    while i < dq.Length
      invariant 0 <= i <= dq.Length && da[..] == d && db[..] == b
      invariant Digits(10, dq[..]) && Digits(10, partial[..])
      invariant i < dq.Length ==> Val(10, d[..n + i]) == Val(10, dq[..i]) * v * 10 + Val(10, partial[..])
      invariant i < dq.Length ==> Val(10, partial[..]) < 10 * v
      invariant i == dq.Length ==> Val(10, dq[..i]) * v <= Val(10, d) < (Val(10, dq[..i]) + 1) * v
    {
      ghost var p, q := Val(10, partial[..]), dq[..];
      var qd := QuotientDigit(partial, prod, db);
      RoundDone(d, b, q[..i], n + i, qd, p, partial[..]);
      dq[i] := qd;
      assert dq[..i + 1] == q[..i] + [qd];
      assert dq[..] == q[i := qd];
      BringDown(partial, if i + n < da.Length then da[i + n] else 0);
      i := i + 1;
    }
    assert dq[..dq.Length] == dq[..];
  }

  lemma NoRound(q: seq<int>, d: seq<int>, n: nat, v: int)
    requires n <= |d| && |q| == 0
    ensures Val(10, q) * v * 10 == 0 && d[..n + 0] == d[..n]
  {
  }

  // What one round leaves: the prefix divided so far, and the bounds the next round needs.
  lemma RoundDone(d: seq<int>, b: seq<int>, q: seq<int>, k: nat, qd: int, p: int, rem: seq<int>)
    requires k <= |d| && Digits(10, d) && Digits(10, b) && Digits(10, rem) && |rem| == |b| + 1
    requires Val(10, d[..k]) == Val(10, q) * Val(10, b) * 10 + p
    requires p == qd * Val(10, b) + Val(10, rem) && Val(10, rem) < Val(10, b)
    ensures Val(10, rem) < Pow(10, |b|)
    ensures k < |d| ==> Val(10, d[..k + 1]) == Val(10, q + [qd]) * Val(10, b) * 10 + (10 * Val(10, rem) + d[k])
    ensures 10 * Val(10, rem) + 9 < 10 * Val(10, b)
    ensures k == |d| ==> Val(10, q + [qd]) * Val(10, b) <= Val(10, d) < (Val(10, q + [qd]) + 1) * Val(10, b)
  {
    hide *;
    ValBound(10, rem);
    ValBound(10, b);
    RoundLeaves(d, b, q, k, qd, p, rem);
    if k < |d| {
      ValSnoc(d, k);
      NextRound(Val(10, d[..k]), Val(10, q + [qd]), Val(10, b), Val(10, rem), d[k]);
    } else {
      assert d[..k] == d;
      Between(Val(10, d), Val(10, q + [qd]), Val(10, b), Val(10, rem));
    }
  }

  lemma RoundLeaves(d: seq<int>, b: seq<int>, q: seq<int>, k: nat, qd: int, p: int, rem: seq<int>)
    requires k <= |d| && Val(10, d[..k]) == Val(10, q) * Val(10, b) * 10 + p && p == qd * Val(10, b) + Val(10, rem)
    ensures Val(10, d[..k]) == Val(10, q + [qd]) * Val(10, b) + Val(10, rem)
  {
    hide *;
    ValPush(q, qd);
    RoundStep(Val(10, d[..k]), Val(10, q), Val(10, b), p, qd, Val(10, rem));
  }

  lemma Between(x: int, quot: int, b: int, r: int)
    requires x == quot * b + r && 0 <= r < b
    ensures quot * b <= x < (quot + 1) * b
  {
    MulDistrib(quot, 1, b);
  }

  lemma ValPush(s: seq<int>, x: int)
    ensures Val(10, s + [x]) == Val(10, s) * 10 + x
  {
    assert (s + [x])[..|s|] == s;
  }

  lemma LoadPartial(partial: seq<int>, d: seq<int>, b: seq<int>)
    requires 1 <= |b| <= |d| && |partial| == |b| + 1 && partial[0] == 0
    requires forall k :: 0 <= k < |b| ==> partial[k + 1] == d[k]
    requires Digits(10, d) && Digits(10, b) && b[0] > 0
    ensures Digits(10, partial) && Val(10, partial) == Val(10, d[..|b|]) < 10 * Val(10, b)
  {
    hide Val, Pow;
    ValSkipZeros(10, partial, 1);
    assert partial[1..] == d[..|b|];
    assert forall k :: 0 < k < |partial| ==> partial[k] == d[k - 1];
    ValBound(10, d[..|b|]);
    ValLead(10, b);
    PowStep(|b|);
  }

  // ---- num_div_impl -----------------------------------------------------

  /** How far the dividend is scaled up before dividing. */
  function Scale(y: Dec, d: nat): nat
  {
    d + 2 + Len10(y.coeff)
  }

  /** The whole part of |x| * 10^scale / |y|, coefficients only. */
  function Raw(x: Dec, y: Dec, d: nat): nat
    requires y.coeff > 0
  {
    PowPositive(10, Scale(y, d));
    (x.coeff * Pow(10, Scale(y, d))) / y.coeff
  }

  /** x / y to d significant digits. */
  function Quotient(x: Dec, y: Dec, d: nat): Dec
    requires y.coeff > 0
  {
    Rounded(x.neg != y.neg, Raw(x, y, d), x.exp - y.exp - Scale(y, d), d)
  }

  /** The first cells of dst become n's digits. */
  method CopyDigits(n: Number, dst: array<int>)
    requires n.Valid() && n.len <= dst.Length && dst != n.digits
    modifies dst
    ensures dst[..] == n.digits[..n.len] + old(dst[n.len..])
  {
    var i := 0;
    while i < n.len
      invariant 0 <= i <= n.len && forall k :: 0 <= k < i ==> dst[k] == n.digits[k]
      invariant forall k :: i <= k < dst.Length ==> dst[k] == old(dst[k])
    {
      dst[i] := n.digits[i];
      i := i + 1;
    }
  }

  method RawQuotient(a: Number, b: Number, d: nat) returns (r: Number)
    requires a.Canon() && b.Canon() && b.Coeff() != 0
    ensures fresh(r) && fresh(r.digits) && r.Valid() && r.Trimmed()
    ensures b.Value().coeff > 0 && r.Coeff() == Raw(a.Value(), b.Value(), d)
    ensures r.sign == (a.sign != b.sign) && r.exp == a.exp - b.exp - Scale(b.Value(), d)
  {
    hide Val, Pow, Norm, Len10;
    CanonForm(a);
    CanonForm(b);
    var dq := QuotientDigits(a, b, d);
    r := TakeDigits(dq, a.exp - b.exp - (d + 2 + b.len));
    r.sign := a.sign != b.sign;
    StripLeading(r);
  }

  method QuotientDigits(a: Number, b: Number, d: nat) returns (dq: array<int>)
    requires a.Canon() && b.Canon() && b.Coeff() != 0
    ensures fresh(dq) && dq.Length > 0 && Digits(10, dq[..])
    ensures b.Value().coeff > 0 && Val(10, dq[..]) == Raw(a.Value(), b.Value(), d)
  {
    hide Val, Pow, Norm, Len10;
    CanonForm(a);
    CanonForm(b);
    var scale := d + 2 + b.len;
    var da := new int[a.len + scale](_ => 0);
    var db := new int[b.len](_ => 0);
    CopyDigits(a, da);
    CopyDigits(b, db);
    ScaledUp(a.digits[..a.len], da[..], scale);
    assert db[..] == b.digits[..b.len];
    dq := DivideDigits(da, db);
    RawIs(a.Coeff(), b.Coeff(), scale, Val(10, dq[..]));
  }

  lemma ScaledUp(s: seq<int>, t: seq<int>, scale: nat)
    requires |t| == |s| + scale && t[..|s|] == s && forall k :: |s| <= k < |t| ==> t[k] == 0
    requires Digits(10, s)
    ensures Val(10, t) == Val(10, s) * Pow(10, scale) && Digits(10, t)
  {
    ValPadZeros(10, s, t[|s|..]);
    assert t == s + t[|s|..];
  }

  lemma RawIs(x: nat, y: nat, scale: nat, q: int)
    requires y > 0 && q * y <= x * Pow(10, scale) < (q + 1) * y
    ensures q == (x * Pow(10, scale)) / y
  {
    var n := x * Pow(10, scale);
    MulDistrib(q, 1, y);
    DivModUnique(n, y, q, n - q * y);
  }

  method Divide(a: Number, b: Number, d: nat) returns (r: Number)
    requires a.Canon() && b.Canon() && b.Coeff() != 0 && d >= 1
    ensures fresh(r) && fresh(r.digits) && r.Canon()
    ensures b.Value().coeff > 0 && r.Value() == Quotient(a.Value(), b.Value(), d)
  {
    hide Val, Pow, Norm, Len10, Rounded, Raw;
    CanonForm(a);
    CanonForm(b);
    r := RawQuotient(a, b, d);
    Round(r, d);
  }

  /** The quotient keeps more than d digits before it is rounded. */
  lemma RawIsLong(x: Dec, y: Dec, d: nat)
    requires x.coeff > 0 && y.coeff > 0
    ensures Len10(Raw(x, y, d)) > d + 2
    ensures Raw(x, y, d) * y.coeff <= x.coeff * Pow(10, Scale(y, d)) < (Raw(x, y, d) + 1) * y.coeff
  {
    hide Pow, Len10;
    var s := Scale(y, d);
    PowPositive(10, s);
    var n := x.coeff * Pow(10, s);
    FloorOf(n, y.coeff);
    MulLe(1, x.coeff, Pow(10, s));
    LenBounds(y.coeff);
    PowAdd(10, d + 2, Len10(y.coeff));
    PowPositive(10, d + 2);
    MulLe(y.coeff, Pow(10, Len10(y.coeff)), Pow(10, d + 2));
    QuotientAtLeast(n, y.coeff, Pow(10, d + 2));
    LongIfAtLeast(Raw(x, y, d), d + 2);
  }

  lemma FloorOf(n: nat, y: nat)
    requires y > 0
    ensures n / y * y <= n < (n / y + 1) * y
  {
    MulDistrib(n / y, 1, y);
  }

  lemma LongIfAtLeast(c: nat, n: nat)
    requires Pow(10, n) <= c
    ensures Len10(c) > n
  {
    LenBounds(c);
    if Len10(c) <= n { PowMonotone(10, Len10(c), n); }
  }

  /** Division is correct rounding.  With X = |x| * 10^scale in units of the result's exponent, the
  returned coefficient q (in units of 10^k) is X / |y| rounded half-up, in the decade that leaves d
  digits; and no number of at most d digits lies closer to X / |y|. */
  lemma QuotientIsBest(x: Dec, y: Dec, d: nat, z: nat, f: nat)
    requires x.coeff > 0 && y.coeff > 0 && d >= 1 && Len10(z) <= d
    ensures var k, num := Excess(Raw(x, y, d), d), x.coeff * Pow(10, Scale(y, d));
            var q := HalfUp(Raw(x, y, d), k);
            Quotient(x, y, d) == Norm(x.neg != y.neg, q, x.exp - y.exp - Scale(y, d) + k)
            && Nearest(num, y.coeff * Pow(10, k), q)
            && Dist(q * Pow(10, k) * y.coeff, num) <= Dist(z * Pow(10, f) * y.coeff, num)
            && (Dist(q * Pow(10, k) * y.coeff, num) == Dist(z * Pow(10, f) * y.coeff, num)
                ==> z * Pow(10, f) <= q * Pow(10, k))
  {
    hide Len10, HalfUp, Nearest, Dist, Norm;
    RawIsLong(x, y, d);
    var t, num := Raw(x, y, d), x.coeff * Pow(10, Scale(y, d));
    var k := Excess(t, d);
    PowPositive(10, Scale(y, d));
    RoundTruncatedQuotient(num, y.coeff, t, d);
    BestApproximation(num, y.coeff, d, k, HalfUp(t, k), z, f);
  }

  // ---- Integer division -------------------------------------------------

  /** The whole part of |x| / |y|, exactly. */
  function Whole(x: Dec, y: Dec): nat
    requires y.coeff > 0
  {
    if x.exp >= y.exp then
      PowPositive(10, x.exp - y.exp);
      (x.coeff * Pow(10, x.exp - y.exp)) / y.coeff
    else
      PowPositive(10, y.exp - x.exp);
      MulPositive(y.coeff, Pow(10, y.exp - x.exp));
      x.coeff / (y.coeff * Pow(10, y.exp - x.exp))
  }

  /** x % y: the whole part of the quotient, truncated toward zero, then rounded if it is too long. */
  function IntQuotient(x: Dec, y: Dec, d: nat): Dec
    requires y.coeff > 0
  {
    Rounded(x.neg != y.neg, Whole(x, y), 0, d)
  }

  lemma RoundedNorm(neg: bool, c: nat, e: int, d: nat)
    requires d >= 1
    ensures var n := Norm(neg, c, e); Rounded(n.neg, n.coeff, n.exp, d) == Rounded(neg, c, e, d)
  {
    hide Norm, Len10, HalfUp, Rounded;
    NormLen(neg, c, e);
    var n := Norm(neg, c, e);
    if c == 0 {
      RoundedZero(n.neg, n.exp, d);
      RoundedZero(neg, e, d);
    } else {
      RoundedScale(neg, n.coeff, e, n.exp - e, d);
    }
  }

  // floor(n * p / (y * p)) == floor(n / y), and dropping digits divides again.
  lemma DropQuotientDigits(n: nat, y: nat, q: nat, p: nat)
    requires y > 0 && p > 0 && q * y <= n < (q + 1) * y
    ensures y * p > 0 && n / (y * p) == q / p
  {
    MulLe(1, p, y);
    var t, r := q / p, q % p;
    assert q == t * p + r;
    assert q * y == t * (y * p) + r * y by { MulDistrib(t * p, r, y); MulAssoc(t, p, y); }
    MulLe(r, p - 1, y);
    MulDistrib(p, 1, y);
    MulDistrib(q, 1, y);
    MulLe(0, r, y);
    DivModUnique(n, y * p, t, n - t * (y * p));
  }

  lemma CancelPow(n: nat, y: nat, p: nat)
    requires y > 0 && p > 0
    ensures y * p > 0 && (n * p) / (y * p) == n / y
  {
    MulLe(1, p, y);
    FloorOf(n, y);
    var q := n / y;
    MulLe(q * y, n, p);
    MulLt(n, (q + 1) * y, p);
    MulAssoc(q, y, p);
    MulAssoc(q + 1, y, p);
    MulDistrib(q, 1, y * p);
    DivModUnique(n * p, y * p, q, n * p - q * (y * p));
  }

  /** Dropping the fraction digits of the scaled quotient leaves its whole part. */
  lemma TruncationIsWhole(x: Dec, y: Dec, d: nat)
    requires y.coeff > 0 && x.exp - y.exp - Scale(y, d) < 0
    ensures DropDigits(Raw(x, y, d), Scale(y, d) - (x.exp - y.exp)) == Whole(x, y)
  {
    hide Pow, Len10;
    var s, g := Scale(y, d), x.exp - y.exp;
    PowPositive(10, s);
    PowPositive(10, s - g);
    FloorOf(x.coeff * Pow(10, s), y.coeff);
    DropQuotientDigits(x.coeff * Pow(10, s), y.coeff, Raw(x, y, d), Pow(10, s - g));
    if g >= 0 {
      PowAdd(10, g, s - g);
      MulAssoc(x.coeff, Pow(10, g), Pow(10, s - g));
      CancelPow(x.coeff * Pow(10, g), y.coeff, Pow(10, s - g));
    } else {
      PowAdd(10, -g, s);
      PowPositive(10, -g);
      MulAssoc(y.coeff, Pow(10, -g), Pow(10, s));
      MulLe(1, Pow(10, -g), y.coeff);
      CancelPow(x.coeff, y.coeff * Pow(10, -g), Pow(10, s));
    }
  }

  /** When the scaled quotient has no fraction digit, rounding it is rounding the whole part. */
  lemma RoundingIsWhole(x: Dec, y: Dec, d: nat)
    requires y.coeff > 0 && x.coeff > 0 && d >= 1 && x.exp - y.exp - Scale(y, d) >= 0
    ensures Quotient(x, y, d) == IntQuotient(x, y, d)
  {
    hide Pow, Len10, HalfUp, Norm, Nearest;
    var s, g := Scale(y, d), x.exp - y.exp;
    var t, e := Raw(x, y, d), g - s;
    PowPositive(10, s);
    PowPositive(10, e);
    RawIsLong(x, y, d);
    PowAdd(10, s, e);
    MulAssoc(x.coeff, Pow(10, s), Pow(10, e));
    WholeFromRaw(x.coeff * Pow(10, s), y.coeff, Pow(10, e), t);
    var w := Whole(x, y);
    assert w == (x.coeff * Pow(10, s) * Pow(10, e)) / y.coeff;
    RoundExtension(x.neg != y.neg, w, t, e, d);
  }

  lemma WholeFromRaw(n: nat, y: nat, p: nat, t: nat)
    requires y > 0 && p > 0 && t * y <= n < (t + 1) * y
    ensures t * p <= n * p / y < (t + 1) * p
  {
    var w := n * p / y;
    FloorOf(n * p, y);
    MulLe(t * y, n, p);
    MulLe(n + 1, (t + 1) * y, p);
    MulDistrib(n, 1, p);
    assert t * y * p == t * p * y && (t + 1) * y * p == (t + 1) * p * y by {
      MulAssoc(t, y, p); MulAssoc(t, p, y); MulAssoc(t + 1, y, p); MulAssoc(t + 1, p, y);
    }
    QuotientAtLeast(n * p, y, t * p);
    MulCancelLt(w, (t + 1) * p, y);
  }

  /** More digits behind a coefficient that is already too long do not change what it rounds to. */
  lemma RoundExtension(neg: bool, w: nat, t: nat, e: nat, d: nat)
    requires d >= 1 && Len10(t) > d && t * Pow(10, e) <= w < (t + 1) * Pow(10, e)
    ensures Rounded(neg, w, 0, d) == Rounded(neg, t, e, d)
  {
    hide Pow, Len10, HalfUp, Norm, Nearest;
    var k := Excess(t, d);
    PowPositive(10, e);
    PowPositive(10, k + e);
    RoundTruncatedQuotient(w, Pow(10, e), t, d);
    LongIsPositive(t);
    ExtensionLen(w, t, e);
    PowAdd(10, e, k);
    assert Pow(10, k + e) == Pow(10, e) * Pow(10, k);
    HalfUpIsNearest(w, k + e);
    NearestUnique(w, Pow(10, k + e), HalfUp(w, k + e), HalfUp(t, k));
  }

  lemma LongIsPositive(t: nat)
    ensures Len10(t) > 1 ==> t > 0
  {
  }

  lemma ExtensionLen(w: nat, t: nat, e: nat)
    requires t > 0 && t * Pow(10, e) <= w < (t + 1) * Pow(10, e)
    ensures Len10(w) == Len10(t) + e
  {
    hide Pow, Len10;
    LenBounds(t);
    PowPositive(10, e);
    MulLe(Pow(10, Len10(t) - 1), t, Pow(10, e));
    MulLe(t + 1, Pow(10, Len10(t)), Pow(10, e));
    PowAdd(10, Len10(t) - 1, e);
    PowAdd(10, Len10(t), e);
    LenUnique(w, Len10(t) + e);
  }

  /** a % b (and the quotient behind a // b). */
  method DivideWhole(a: Number, b: Number, d: nat) returns (r: Number)
    requires a.Canon() && b.Canon() && b.Coeff() != 0 && d >= 1
    ensures fresh(r) && fresh(r.digits) && r.Valid() && r.Trimmed()
    ensures b.Value().coeff > 0 && r.Value() == IntQuotient(a.Value(), b.Value(), d)
    ensures r.Printable()
    ensures r.Canon() <==> !(a.Coeff() == 0 && a.exp - b.exp - Scale(b.Value(), d) >= 0
                             && (a.sign != b.sign || a.exp - b.exp - Scale(b.Value(), d) > 0))
  {
    hide Val, Pow, Norm, Len10, Rounded, Raw, Whole, HalfUp;
    CanonForm(a);
    CanonForm(b);
    ghost var x, y := a.Value(), b.Value();
    r := RawQuotient(a, b, d);
    if r.exp < 0 {
      Truncate(r);
      TruncationIsWhole(x, y, d);
      CanonForm(r);
      RoundedNorm(x.neg != y.neg, Whole(x, y), 0, d);
      RoundedIfShort(r.Value(), d);
    } else {
      LenOfDigits(r.digits[..r.len]);
      if x.coeff > 0 {
        RawIsLong(x, y, d);
        RoundingIsWhole(x, y, d);
      } else {
        ZeroQuotient(x, y, d);
        ZeroRecord(r);
        RoundedZero(x.neg != y.neg, 0, d);
      }
    }
    if r.len > d { Round(r, d); }
  }

  lemma RoundedIfShort(v: Dec, d: nat)
    requires Canonical(v)
    ensures Len10(v.coeff) <= d ==> Rounded(v.neg, v.coeff, v.exp, d) == v
  {
    if Len10(v.coeff) <= d { RoundedIsCanonicalFixpoint(v, d); }
  }

  /** Truncate the fraction digits of a number with a negative exponent. */
  method Truncate(r: Number)
    requires r.Valid() && r.Trimmed() && r.exp < 0
    modifies r, r.digits
    ensures r.digits == old(r.digits) && r.Canon()
    ensures r.Value() == old(Norm(r.sign, DropDigits(r.Coeff(), -r.exp), 0))
  {
    hide Val, Pow, Norm, DropDigits;
    ghost var s := r.digits[..r.len];
    var strip := -r.exp;
    PowPositive(10, strip);
    if strip >= r.len {
      AllFraction(s, strip);
      NormOfZero(r.sign);
      r.digits[0] := 0;
      r.len := 1;
      r.exp := 0;
      r.sign := false;
      SingleDigit(r);
      NormOfZero(false);
    } else {
      DropLow(s, r.len - strip);
      r.len := r.len + r.exp;
      r.exp := 0;
      assert r.digits[..r.len] == s[..r.len];
      StripTrailing(r);
    }
  }

  lemma NormOfZero(neg: bool)
    ensures Norm(neg, 0, 0) == ZERO
  {
  }

  lemma AllFraction(s: seq<int>, strip: nat)
    requires Digits(10, s) && strip >= |s|
    ensures Val(10, s) >= 0 && DropDigits(Val(10, s), strip) == 0
  {
    ValBound(10, s);
    PowMonotone(10, |s|, strip);
    DivModUnique(Val(10, s), Pow(10, strip), 0, Val(10, s));
  }

  lemma DropLow(s: seq<int>, n: nat)
    requires Digits(10, s) && n <= |s|
    ensures Val(10, s) >= 0 && DropDigits(Val(10, s), |s| - n) == Val(10, s[..n])
  {
    ValBound(10, s);
    PowPositive(10, |s| - n);
    ValSplit(10, s, n);
    ValBound(10, s[n..]);
    DivModUnique(Val(10, s), Pow(10, |s| - n), Val(10, s[..n]), Val(10, s[n..]));
  }

  lemma ZeroQuotient(x: Dec, y: Dec, d: nat)
    requires x.coeff == 0 && y.coeff > 0
    ensures Raw(x, y, d) == 0 && Whole(x, y) == 0
  {
    hide Pow;
    PowPositive(10, Scale(y, d));
    if x.exp < y.exp {
      PowPositive(10, y.exp - x.exp);
      MulPositive(y.coeff, Pow(10, y.exp - x.exp));
    }
  }

  lemma ZeroRecord(r: Number)
    requires r.Valid() && r.Trimmed() && r.Coeff() == 0
    ensures r.Value() == ZERO && r.len == 1 && r.digits[0] == 0
    ensures r.Canon() <==> !r.sign && r.exp == 0
  {
    ValZeroInv(10, r.digits[..r.len]);
    assert r.digits[..r.len][0] == 0;
  }
}
