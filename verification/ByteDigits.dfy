/** Decimal digit arrays times and over 256, and two's complement: the loops below C2D, X2D, D2C and D2X. */
module ByteDigits {
  import opened Positional
  import opened Decimal

  // ---- bcd_mul256_add --------------------------------------------------------

  /** digits[..len] * 256 + byteVal, in place; -1 if that needs more than cap digits. */
  method MulAdd(digits: array<int>, len: nat, cap: nat, byteVal: int) returns (r: int)
    requires len <= cap <= digits.Length && Digits(10, digits[..len]) && 0 <= byteVal < 256
    modifies digits
    ensures var v := Val(10, old(digits[..len])) * 256 + byteVal;
            if r >= 0 then len <= r <= cap && Digits(10, digits[..r]) && Val(10, digits[..r]) == v else v >= Pow(10, cap)
    ensures (len > 0 ==> old(digits[..len])[0] != 0) && (len == 0 ==> byteVal != 0) && r >= 0 ==> r > 0 && digits[0] != 0
  {
    hide Val, Pow;
    var carry := SweepCarry(digits, len, byteVal);
    r := PushCarry(digits, len, cap, carry);
  }

  /** Every digit times 256, the carry handed up. */
  method SweepCarry(digits: array<int>, len: nat, byteVal: int) returns (carry: int)
    requires len <= digits.Length && Digits(10, digits[..len]) && 0 <= byteVal < 256
    modifies digits
    ensures 0 <= carry < 256 && Digits(10, digits[..len])
    ensures Val(10, old(digits[..len])) * 256 + byteVal == carry * Pow(10, len) + Val(10, digits[..len])
    ensures (len > 0 ==> old(digits[..len])[0] != 0) && (len == 0 ==> byteVal != 0) ==> carry > 0
  {
    hide Val, Pow, Swept;
    ghost var s := digits[..len];
    ghost var v := Val(10, s) * 256 + byteVal;
    var i := len;
    carry := byteVal;
    assert s[..len] == s && digits[len..len] == [];
    Start256(s, byteVal);
    while i > 0
      invariant 0 <= i <= len && 0 <= carry < 256 && Digits(10, digits[i..len])
      invariant digits[..i] == s[..i] && Swept(s[..i], carry, digits[i..len], v)
      invariant (i == 0 < len && s[0] != 0 ==> carry > 0) && (len == 0 ==> carry == byteVal)
    {
      i := i - 1;
      var x := digits[i] * 256 + carry;
      ghost var rest := digits[i + 1..len];
      assert digits[..i + 1][i] == s[..i + 1][i];
      assert s[..i + 1][..i] == s[..i] && s[..i + 1][i] == s[i] == digits[i];
      Sweep(s[..i + 1], carry, rest, v);
      digits[i] := x % 10;
      carry := x / 10;
      assert digits[i..len] == [x % 10] + rest;
    }
    assert s[..0] == [] && digits[0..len] == digits[..len];
    SweptAll(carry, digits[..len], v);
  }

  /** The carry's digits in front. */
  method PushCarry(digits: array<int>, len: nat, cap: nat, carry0: int) returns (r: int)
    requires len <= cap <= digits.Length && Digits(10, digits[..len]) && 0 <= carry0 < 256
    modifies digits
    ensures var v := carry0 * Pow(10, len) + Val(10, old(digits[..len]));
            if r >= 0 then len <= r <= cap && Digits(10, digits[..r]) && Val(10, digits[..r]) == v else v >= Pow(10, cap)
    ensures carry0 > 0 && r >= 0 ==> r > 0 && digits[0] != 0
  {
    hide Val, Pow;
    ghost var v := carry0 * Pow(10, len) + Val(10, digits[..len]);
    var carry, n := carry0, len;
    while carry > 0
      invariant len <= n <= cap && 0 <= carry <= carry0 && Digits(10, digits[..n])
      invariant v == carry * Pow(10, n) + Val(10, digits[..n])
      invariant carry == 0 && carry0 > 0 ==> n > 0 && digits[0] != 0
      decreases carry
    {
      if n >= cap {
        TooMany(carry, digits[..n], v);
        return -1;
      }
      ghost var t := digits[..n];
      forall k | 0 <= k < n { digits[k + 1] := digits[k]; }
      digits[0] := carry % 10;
      assert digits[..n + 1] == [carry % 10] + t;
      Prepend(carry, t, v);
      carry := carry / 10;
      n := n + 1;
    }
    Nothing(n);
    r := n;
  }

  /** v is what the digits a still to sweep, the carry and the swept digits b stand for. */
  ghost predicate Swept(a: seq<int>, carry: int, b: seq<int>, v: int)
  {
    v == (Val(10, a) * 256 + carry) * Pow(10, |b|) + Val(10, b)
  }

  lemma Start256(s: seq<int>, byteVal: int)
    ensures Swept(s, byteVal, [], Val(10, s) * 256 + byteVal)
  {
  }

  lemma Sweep(a: seq<int>, carry: int, b: seq<int>, v: int)
    requires a != [] && Swept(a, carry, b, v)
    ensures var x := a[|a| - 1] * 256 + carry;
            Swept(a[..|a| - 1], x / 10, [x % 10] + b, v)
  {
    hide Val, Pow;
    var x, p, w := a[|a| - 1] * 256 + carry, Pow(10, |b|), Val(10, a[..|a| - 1]);
    LastCell(a);
    ValTop(10, [x % 10] + b);
    assert ([x % 10] + b)[1..] == b;
    TenPow(|b|);
    assert Val(10, a) * 256 + carry == (w * 256 + x / 10) * 10 + x % 10;
    MulDistrib((w * 256 + x / 10) * 10, x % 10, p);
    MulAssoc(w * 256 + x / 10, 10, p);
  }

  lemma LastCell(a: seq<int>)
    requires a != []
    ensures Val(10, a) == Val(10, a[..|a| - 1]) * 10 + a[|a| - 1]
  {
  }

  lemma TenPow(n: nat)
    ensures Pow(10, n + 1) == 10 * Pow(10, n)
  {
  }

  lemma SweptAll(carry: int, b: seq<int>, v: int)
    requires Swept([], carry, b, v)
    ensures v == carry * Pow(10, |b|) + Val(10, b)
  {
  }

  lemma Prepend(carry: int, t: seq<int>, v: int)
    requires v == carry * Pow(10, |t|) + Val(10, t)
    ensures v == carry / 10 * Pow(10, |t| + 1) + Val(10, [carry % 10] + t)
  {
    hide Val, Pow;
    var p := Pow(10, |t|);
    ValTop(10, [carry % 10] + t);
    assert ([carry % 10] + t)[1..] == t;
    TenPow(|t|);
    assert carry == carry / 10 * 10 + carry % 10;
    MulDistrib(carry / 10 * 10, carry % 10, p);
    MulAssoc(carry / 10, 10, p);
  }

  lemma TooMany(carry: int, t: seq<int>, v: int)
    requires carry > 0 && Digits(10, t) && v == carry * Pow(10, |t|) + Val(10, t)
    ensures v >= Pow(10, |t|)
  {
    hide Val, Pow;
    ValBound(10, t);
    PowPositive(10, |t|);
    MulLe(1, carry, Pow(10, |t|));
  }

  lemma Nothing(n: nat)
    ensures 0 * Pow(10, n) == 0
  {
  }

  // ---- bcd_to_bytes_lsb ----------------------------------------------------------

  /** The value of bytes, lowest first. */
  function LowFirst(s: seq<int>): int
  {
    if s == [] then 0 else LowFirst(s[..|s| - 1]) + s[|s| - 1] * Pow(256, |s| - 1)
  }

  /** The low bytes of a digit array's value, lowest first; the digits are consumed. */
  method ToBytes(digits: array<int>, length: nat, out: array<int>, max: nat) returns (count: nat)
    requires length <= digits.Length && Digits(10, digits[..length]) && max <= out.Length && digits != out
    modifies digits, out
    ensures count <= max && Digits(256, out[..count]) && out[count..] == old(out[count..])
    ensures var v := Val(10, old(digits[..length]));
            v >= 0 && LowFirst(out[..count]) == v % Pow256(max)
  {
    hide Val, Pow, LowFirst;
    ghost var v := Val(10, digits[..length]);
    ValBound(10, digits[..length]);
    count := 0;
    var len := length;
    assert out[..0] == [];
    LowNone();
    while count < max && len > 0
      invariant 0 <= count <= max && 0 <= len <= digits.Length && Digits(10, digits[..len]) && Digits(256, out[..count])
      invariant out[count..] == old(out[count..])
      invariant v == LowFirst(out[..count]) + Val(10, digits[..len]) * Pow(256, count)
      decreases max - count
    {
      var allZero := AllZero(digits, len);
      if allZero {
        ValZeros(10, digits[..len]);
        break;
      }
      ghost var was, q := out[..count], Val(10, digits[..len]) / 256;
      len := TakeByte(digits, len, out, count);
      LowMore(was, out[count], q, v);
      count := count + 1;
    }
    if len == 0 {
      assert digits[..0] == [];
      EmptyVal();
    }
    ValBound(10, digits[..len]);
    LowIsRest(out[..count], Val(10, digits[..len]), v, max);
  }

  /** One byte off the value; what is left of its digits is moved to the front. */
  method TakeByte(digits: array<int>, length: nat, out: array<int>, count: nat) returns (len: nat)
    requires length <= digits.Length && Digits(10, digits[..length]) && count < out.Length && digits != out
    modifies digits, out
    ensures len <= length && Digits(10, digits[..len]) && 0 <= out[count] < 256
    ensures var v := Val(10, old(digits[..length]));
            v == Val(10, digits[..len]) * 256 + out[count] && Val(10, digits[..len]) == v / 256
    ensures out[..count + 1] == old(out[..count]) + [out[count]] && out[count + 1..] == old(out[count + 1..])
  {
    hide Val;
    ghost var v := Val(10, digits[..length]);
    var rem, first := Divide(digits, length);
    ghost var q := digits[..length];
    DivModUnique(v, 256, Val(10, q), rem);
    out[count] := rem;
    assert digits[..length] == q;
    if first < 0 {
      ValZeros(10, q);
      EmptyVal();
      assert digits[..0] == [];
      return 0;
    }
    ValSkipZeros(10, q, first);
    if first > 0 { Shift(digits, first, length); }
    len := length - first;
    assert digits[..len] == q[first..];
  }

  /** digits[first..len] moved to the front. */
  method Shift(digits: array<int>, first: nat, len: nat)
    requires first <= len <= digits.Length
    modifies digits
    ensures digits[..len - first] == old(digits[first..len])
  {
    ghost var s := digits[first..len];
    forall k | 0 <= k < len - first { digits[k] := digits[k + first]; }
    assert digits[..len - first] == s;
  }

  lemma EmptyVal()
    ensures Val(10, []) == 0
  {
  }

  lemma LowNone()
    ensures LowFirst([]) == 0 && Pow(256, 0) == 1
  {
  }

  lemma LowMore(was: seq<int>, rem: int, q: int, v: int)
    requires v == LowFirst(was) + (q * 256 + rem) * Pow(256, |was|)
    ensures v == LowFirst(was + [rem]) + q * Pow(256, |was| + 1)
  {
    assert (was + [rem])[..|was|] == was;
    var p := Pow(256, |was|);
    assert Pow(256, |was| + 1) == 256 * p;
    MulDistrib(q * 256, rem, p);
    MulAssoc(q, 256, p);
  }

  /** 256^n. */
  function Pow256(n: nat): (p: nat)
    ensures p > 0
  {
    PowPositive(256, n);
    Pow(256, n)
  }

  lemma {:induction false} LowBound(s: seq<int>)
    requires Digits(256, s)
    ensures 0 <= LowFirst(s) < Pow(256, |s|)
    decreases |s|
  {
    if s != [] {
      var n := |s| - 1;
      var p := Pow(256, n);
      LowBound(s[..n]);
      assert Pow(256, n + 1) == 256 * p;
      MulLe(s[n], 255, p);
      MulLe(0, s[n], p);
      MulDistrib(255, 1, p);
    }
  }

  lemma LowIsRest(s: seq<int>, rest: int, v: int, max: nat)
    requires Digits(256, s) && |s| <= max && v == LowFirst(s) + rest * Pow(256, |s|) && (|s| == max || rest == 0) && rest >= 0
    ensures LowFirst(s) == v % Pow256(max)
  {
    hide LowFirst, Pow;
    LowBound(s);
    if |s| == max {
      DivModUnique(v, Pow(256, max), rest, LowFirst(s));
    } else {
      PowMonotone(256, |s|, max);
      DivModUnique(v, Pow(256, max), 0, v);
    }
  }

  method AllZero(digits: array<int>, len: nat) returns (z: bool)
    requires len <= digits.Length
    ensures z <==> forall i :: 0 <= i < len ==> digits[i] == 0
  {
    var i := 0;
    while i < len
      invariant 0 <= i <= len && forall j :: 0 <= j < i ==> digits[j] == 0
    {
      if digits[i] != 0 { return false; }
      i := i + 1;
    }
    z := true;
  }

  /** Long division by 256: every quotient cell is a digit. */
  method Divide(digits: array<int>, len: nat) returns (rem: int, first: int)
    requires len <= digits.Length && Digits(10, digits[..len])
    modifies digits
    ensures Digits(10, digits[..len]) && 0 <= rem < 256
    ensures Val(10, old(digits[..len])) == Val(10, digits[..len]) * 256 + rem
    ensures first < 0 ==> forall i :: 0 <= i < len ==> digits[i] == 0
    ensures first >= 0 ==> first < len && digits[first] != 0 && forall i :: 0 <= i < first ==> digits[i] == 0
  {
    hide Val;
    ghost var s := digits[..len];
    rem, first := 0, -1;
    var i := 0;
    assert digits[..0] == [] && s[..0] == [];
    EmptyVal();
    while i < len
      invariant 0 <= i <= len && 0 <= rem < 256 && Digits(10, digits[..i]) && digits[i..len] == s[i..]
      invariant Val(10, s[..i]) == Val(10, digits[..i]) * 256 + rem
      invariant first < 0 ==> forall k :: 0 <= k < i ==> digits[k] == 0
      invariant first >= 0 ==> first < i && digits[first] != 0 && forall k :: 0 <= k < first ==> digits[k] == 0
    {
      assert digits[i] == digits[i..len][0] == s[i];
      var cur := rem * 10 + digits[i];
      ghost var q := digits[..i];
      assert s[..i + 1][..i] == s[..i];
      LastCell(s[..i + 1]);
      assert digits[i + 1..len] == digits[i..len][1..] == s[i + 1..];
      digits[i] := cur / 256;
      assert digits[..i + 1] == q + [cur / 256] && (q + [cur / 256])[..i] == q;
      LastCell(q + [cur / 256]);
      rem := cur % 256;
      if first < 0 && digits[i] != 0 { first := i; }
      i := i + 1;
    }
    assert s[..len] == s;
  }

  /** Bytes lowest first, zeros behind them, turned round. */
  lemma {:induction false} TurnedRound(low: seq<int>, high: seq<int>)
    requires |low| == |high| && forall k :: 0 <= k < |low| ==> high[|low| - 1 - k] == low[k]
    ensures Val(256, high) == LowFirst(low)
    decreases |low|
  {
    if low != [] {
      var n := |low| - 1;
      ValTop(256, high);
      forall k | 0 <= k < n ensures high[1..][n - 1 - k] == low[..n][k] { }
      TurnedRound(low[..n], high[1..]);
      assert high[0] == low[n];
    }
  }

  lemma {:induction false} LowZeros(s: seq<int>, z: seq<int>)
    requires forall i :: 0 <= i < |z| ==> z[i] == 0
    ensures LowFirst(s + z) == LowFirst(s)
    decreases |z|
  {
    if z == [] {
      assert s + z == s;
    } else {
      assert (s + z)[..|s + z| - 1] == s + z[..|z| - 1];
      LowZeros(s, z[..|z| - 1]);
    }
  }

  // ---- Two's complement -------------------------------------------------------------

  /** How many values n bytes have, or one nibble less. */
  function Width(n: nat, pad: bool): (w: nat)
    requires n > 0
    ensures w > 0
  {
    PowPositive(256, n - 1);
    if pad then 16 * Pow(256, n - 1) else 256 * Pow(256, n - 1)
  }

  lemma WidthIs(n: nat)
    requires n > 0
    ensures Width(n, false) == Pow(256, n)
  {
  }

  /** The low four bits. */
  function LowNibble(b: int): int { b % 16 }

  /** Keep the low nibble of the first byte. */
  lemma Masked(s: seq<int>)
    requires s != [] && Digits(256, s)
    ensures Digits(256, s[0 := LowNibble(s[0])]) && Val(256, s[0 := LowNibble(s[0])]) == Val(256, s) % Width(|s|, true)
  {
    hide Val, Pow;
    var t := s[0 := LowNibble(s[0])];
    var p := Pow(256, |s| - 1);
    ValTop(256, s);
    ValTop(256, t);
    assert s[1..] == t[1..];
    ValBound(256, s[1..]);
    PowPositive(256, |s| - 1);
    var q, r := s[0] / 16, s[0] % 16;
    MulDistrib(q * 16, r, p);
    MulAssoc(q, 16, p);
    MulLe(r, 15, p);
    MulLe(0, r, p);
    DivModUnique(Val(256, s), 16 * p, q, Val(256, t));
  }

  /** All bits of every byte flipped. */
  lemma {:induction false} Flipped(s: seq<int>, t: seq<int>)
    requires |s| == |t| && forall i :: 0 <= i < |s| ==> t[i] == 255 - s[i]
    ensures Val(256, t) == Pow(256, |s|) - 1 - Val(256, s)
    decreases |s|
  {
    if s != [] {
      var n := |s| - 1;
      Flipped(s[..n], t[..n]);
    }
  }

  /** twos_complement_bytes: minus the value, within the width; pad leaves out the top nibble. */
  method TwosComplement(bytes: array<int>, pad: bool)
    requires bytes.Length > 0 && Digits(256, bytes[..])
    modifies bytes
    ensures Digits(256, bytes[..])
    ensures Val(256, bytes[..]) == -Val(256, old(bytes[..])) % Width(bytes.Length, pad)
  {
    hide Val, Pow, Width;
    var n := bytes.Length;
    ghost var v := Val(256, bytes[..]);
    ValBound(256, bytes[..]);
    if pad {
      Masked(bytes[..]);
      ghost var m := bytes[..][0 := LowNibble(bytes[0])];
      bytes[0] := LowNibble(bytes[0]);
      assert bytes[..] == m;
    }
    ghost var u := Val(256, bytes[..]);
    Flip(bytes);
    AddOneByte(bytes);
    if pad {
      Masked(bytes[..]);
      ghost var m := bytes[..][0 := LowNibble(bytes[0])];
      bytes[0] := LowNibble(bytes[0]);
      assert bytes[..] == m;
    }
    Complements(n, pad, v, u, Val(256, bytes[..]));
  }

  lemma Complements(n: nat, pad: bool, v: int, u: int, r: int)
    requires n > 0 && 0 <= v < Pow(256, n) && u == (if pad then v % Width(n, true) else v)
    requires var f := (Pow(256, n) - 1 - u + 1) % Pow256(n); r == if pad then f % Width(n, true) else f
    ensures r == -v % Width(n, pad)
  {
    hide Pow;
    WidthIs(n);
    if pad {
      NibbleLess(n);
      NegatedShort(Width(n, true), v, u);
    } else {
      NegatedWhole(Pow256(n), v);
    }
  }

  lemma NibbleLess(n: nat)
    requires n > 0
    ensures Pow(256, n) == 16 * Width(n, true)
  {
  }

  lemma NegatedWhole(w: int, v: int)
    requires 0 <= v < w
    ensures (w - 1 - v + 1) % w == -v % w
  {
    if v == 0 {
      DivModUnique(w, w, 1, 0);
    } else {
      DivModUnique(w - v, w, 0, w - v);
      DivModUnique(-v, w, -1, w - v);
    }
  }

  lemma NegatedShort(w: int, v: int, u: int)
    requires w > 0 && 0 <= v && u == v % w
    ensures (16 * w - 1 - u + 1) % (16 * w) % w == -v % w
  {
    var q := v / w;
    assert v == q * w + u;
    if u == 0 {
      DivModUnique(16 * w, 16 * w, 1, 0);
      DivModUnique(0, w, 0, 0);
      DivModUnique(-v, w, -q, 0);
    } else {
      DivModUnique(16 * w - u, 16 * w, 0, 16 * w - u);
      DivModUnique(16 * w - u, w, 15, w - u);
      MulDistrib(-q, 1, w);
      DivModUnique(-v, w, -q - 1, w - u);
    }
  }

  method Flip(bytes: array<int>)
    requires Digits(256, bytes[..])
    modifies bytes
    ensures Digits(256, bytes[..]) && Val(256, bytes[..]) == Pow(256, bytes.Length) - 1 - Val(256, old(bytes[..]))
  {
    hide Val, Pow;
    var i := 0;
    while i < bytes.Length
      invariant 0 <= i <= bytes.Length
      invariant forall k :: 0 <= k < i ==> bytes[k] == 255 - old(bytes[k])
      invariant forall k :: i <= k < bytes.Length ==> bytes[k] == old(bytes[k])
    {
      bytes[i] := 255 - bytes[i];
      i := i + 1;
    }
    forall k | 0 <= k < bytes.Length ensures 0 <= bytes[k] < 256 {
      assert old(bytes[..])[k] == old(bytes[k]);
    }
    Flipped(old(bytes[..]), bytes[..]);
  }

  /** Add one, the carry out of the first byte being lost. */
  method AddOneByte(bytes: array<int>)
    requires bytes.Length > 0 && Digits(256, bytes[..])
    modifies bytes
    ensures Digits(256, bytes[..])
    ensures Val(256, bytes[..]) == (Val(256, old(bytes[..])) + 1) % Pow256(bytes.Length)
  {
    hide Val, Pow;
    ghost var v := Val(256, bytes[..]);
    var carry, j := 1, bytes.Length;
    PowNone();
    while j > 0 && carry != 0
      invariant 0 <= j <= bytes.Length && 0 <= carry <= 1 && Digits(256, bytes[..])
      invariant Val(256, bytes[..]) + carry * Pow(256, bytes.Length - j) == v + 1
    {
      j := j - 1;
      var s := bytes[j] + carry;
      ghost var t := bytes[..];
      ValUpdate(256, t, j, s % 256);
      NextWeight(bytes.Length - 1 - j, s, bytes[j], carry);
      bytes[j] := s % 256;
      assert bytes[..] == t[j := s % 256];
      carry := s / 256;
    }
    ValBound(256, bytes[..]);
    PowPositive(256, bytes.Length);
    DivModUnique(v + 1, Pow(256, bytes.Length), carry, Val(256, bytes[..])) by { LostCarry(carry, bytes.Length, bytes.Length - j); }
  }

  lemma LostCarry(carry: int, n: nat, m: nat)
    requires carry == 0 || n == m
    ensures carry * Pow(256, m) == carry * Pow(256, n)
  {
  }

  lemma PowNone()
    ensures Pow(256, 0) == 1
  {
  }

  lemma NextWeight(k: nat, s: int, b: int, carry: int)
    requires s == b + carry
    ensures (s % 256 - b) * Pow(256, k) + s / 256 * Pow(256, k + 1) == carry * Pow(256, k)
  {
    var p := Pow(256, k);
    assert Pow(256, k + 1) == 256 * p;
    MulAssoc(s / 256, 256, p);
    MulDistrib(s % 256 - b, s / 256 * 256, p);
    assert s % 256 - b + s / 256 * 256 == carry;
  }
}
