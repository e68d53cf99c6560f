/** C2D, D2C, X2D and D2X: texts of numbers to bytes and nibbles in two's complement, and back. */
module Conversions {
  import opened Positional
  import opened Decimal
  import opened Numbers
  import opened AddSubMul
  import opened WholeNumbers
  import opened Options
  import opened NumberText
  import opened NumberWriter
  import opened ArithOps
  import opened IntegerFastPath
  import opened ByteDigits
  import opened Bytecode

  /** The number w values wide that v stands for in two's complement. */
  function SignedOf(v: int, w: int): int { if 2 * v >= w then v - w else v }

  lemma SignedWraps(x: int, w: int)
    requires w > 0 && w % 2 == 0 && -w <= 2 * x < w
    ensures SignedOf(x % w, w) == x
  {
    if x >= 0 { DivModUnique(x, w, 0, x); } else { DivModUnique(x, w, -1, x + w); }
  }

  // ---- Texts of whole numbers ----------------------------------------------------

  /** A whole number as the conversions write it: up to 24 bits plainly, else rounded to DIGITS. */
  function ValueText(v: int, n: Settings): string
  {
    if Abs(v) < 0x100_0000 then I32Text(v) else ResultText(Rounded(v < 0, Abs(v), 0, n.digits), n)
  }

  lemma PlainText(v: int, n: Settings)
    requires Abs(v) < Pow(10, n.digits)
    ensures ValueText(v, n) == I32Text(v)
  {
    hide Pow, Norm, Len10, I32Text, Rounded;
    if Abs(v) >= 0x100_0000 {
      LenAtMost(Abs(v), n.digits);
      RoundedFits(v < 0, Abs(v), 0, n.digits);
      SignedInt(v < 0, Abs(v));
      IntIsWrittenPlain(v, n);
    }
  }

  ghost function MagOf(s: seq<int>): (v: nat)
    requires Digits(10, s)
    ensures v == Val(10, s)
  {
    ValBound(10, s);
    Val(10, s)
  }

  /** irx_arith_from_digits with exponent 0. */
  method FromDigits(digits: array<int>, len: nat, sign: bool, n: Settings) returns (text: string)
    requires len <= digits.Length && Digits(10, digits[..len])
    ensures text == ResultText(Rounded(sign, MagOf(digits[..len]), 0, n.digits), n)
  {
    hide Val, FormatNum, Rounded;
    var x := new Number(len);
    ValBound(10, digits[..len]);
    if len == 0 {
      x.len := 1;
      assert x.digits[..1] == [0];
      ValSingle(10, 0);
      EmptyVal();
      assert digits[..0] == [];
      ZeroRounds(sign, n.digits);
    } else {
      var i := 0;
      while i < len
        invariant 0 <= i <= len && x.digits.Length == len && fresh(x.digits)
        invariant forall k :: 0 <= k < i ==> x.digits[k] == digits[k]
        modifies x.digits
      {
        x.digits[i] := digits[i];
        i := i + 1;
      }
      x.len, x.sign := len, sign;
      assert x.digits[..len] == digits[..len];
      StripLeading(x);
    }
    ghost var c := x.Coeff();
    Round(x, n.digits);
    text := ToText(x, n.digits, n.form);
  }

  lemma ZeroRounds(sign: bool, d: nat)
    requires d >= 1
    ensures Rounded(sign, 0, 0, d) == Rounded(false, 0, 0, d)
  {
    RoundedZero(sign, 0, d);
    RoundedZero(false, 0, d);
  }

  /** compute_c2d: the text of a magnitude, most significant byte first, with a sign. */
  method MagnitudeText(mag: seq<Byte>, sign: bool, n: Settings) returns (text: string)
    ensures text == ValueText(if sign then -Val(256, mag) else Val(256, mag), n)
  {
    hide Val, Pow, I32Text, ResultText, Rounded;
    var k := 0;
    while k < |mag| && mag[k] == 0
      invariant 0 <= k <= |mag| && forall i :: 0 <= i < k ==> mag[i] == 0
    {
      k := k + 1;
    }
    var m := mag[k..];
    ValSkipZeros(256, mag, k);
    BytesAreDigits(m);
    ValBound(256, m);
    Pow3();
    if |m| == 0 {
      EmptyVal256();
      return I32Text(0);
    }
    ValLead(256, m);
    if |m| <= 3 {
      PowMonotone(256, |m|, 3);
      var u := Word24(m);
      var v: int := u;
      return I32Text(if sign then -v else v);
    }
    PowMonotone(256, 3, |m| - 1);
    var cap := |m| * 3 + 4;
    var digits := new int[cap];
    var len := 0;
    var i := 0;
    assert m[..0] == [] && digits[..0] == [];
    EmptyVal256();
    EmptyVal();
    while i < |m|
      invariant 0 <= i <= |m| && 0 <= len <= 3 * i && Digits(10, digits[..len])
      invariant Val(10, digits[..len]) == Val(256, m[..i])
      invariant i > 0 ==> len > 0 && digits[0] != 0
      invariant fresh(digits) && digits.Length == cap
    {
      ghost var s := digits[..len];
      assert m[..i + 1][..i] == m[..i];
      LastByte(m[..i + 1]);
      len := AddByte(digits, len, m[i], m[..i + 1]);
      i := i + 1;
    }
    assert m[..|m|] == m;
    text := FromDigits(digits, len, sign, n);
  }

  /** One more byte of m: the buffer of three digits a byte and four to spare never fills. */
  method AddByte(digits: array<int>, len: nat, b: Byte, ghost m: seq<Byte>) returns (r: nat)
    requires m != [] && m[|m| - 1] == b && m[0] != 0
    requires len <= 3 * (|m| - 1) && digits.Length >= 3 * |m| + 4 && Digits(10, digits[..len])
    requires Val(10, digits[..len]) == Val(256, m[..|m| - 1]) && (|m| > 1 ==> len > 0 && digits[0] != 0) && (|m| == 1 ==> len == 0)
    modifies digits
    ensures 0 < r <= 3 * |m| && Digits(10, digits[..r]) && Val(10, digits[..r]) == Val(256, m) && digits[0] != 0
  {
    hide Val, Pow;
    LastByte(m);
    BytesAreDigits(m);
    ValBound(256, m);
    Thousand(|m|);
    var k := MulAdd(digits, len, digits.Length, b);
    PowMonotone(10, 3 * |m|, digits.Length);
    if k > 3 * |m| {
      ValLead(10, digits[..k]);
      PowMonotone(10, 3 * |m|, k - 1);
    }
    r := k;
  }

  /** 256^k < 10^3k. */
  lemma {:induction false} Thousand(k: nat)
    ensures Pow(256, k) <= Pow(10, 3 * k)
  {
    if k > 0 {
      Thousand(k - 1);
      var a, b := Pow(256, k - 1), Pow(10, 3 * (k - 1));
      assert Pow(10, 3) == 1000;
      PowAdd(10, 3, 3 * (k - 1));
      PowPositive(10, 3 * (k - 1));
    }
  }

  lemma Pow3()
    ensures Pow(256, 3) == 0x100_0000 && Pow(256, 1) == 256
  {
  }

  lemma EmptyVal256()
    ensures Val(256, []) == 0
  {
  }

  lemma LastByte(m: seq<Byte>)
    requires m != []
    ensures Val(256, m) == Val(256, m[..|m| - 1]) * 256 + m[|m| - 1]
  {
  }

  lemma BytesAreDigits(m: seq<Byte>)
    ensures Digits(256, m)
  {
  }

  /** Shifting in at most three bytes. */
  method Word24(m: seq<Byte>) returns (u: nat)
    requires |m| <= 3
    ensures u == Val(256, m)
  {
    hide Val;
    u := 0;
    var i := 0;
    assert m[..0] == [];
    EmptyVal256();
    while i < |m|
      invariant 0 <= i <= |m| && u == Val(256, m[..i])
    {
      assert m[..i + 1][..i] == m[..i];
      LastByte(m[..i + 1]);
      u := u * 256 + m[i];
      i := i + 1;
    }
    assert m[..|m|] == m;
  }

  // ---- C2D -----------------------------------------------------------------------

  /** The n cells on the right, with zeros in front if there are fewer. */
  function RightMost(s: seq<int>, n: nat): (r: seq<int>)
    ensures |r| == n
  {
    if |s| >= n then s[|s| - n..] else seq(n - |s|, _ => 0) + s
  }

  lemma RightMostVal(b: nat, s: seq<int>, n: nat)
    requires |s| <= n
    ensures Val(b, RightMost(s, n)) == Val(b, s)
  {
    hide Val;
    var r := RightMost(s, n);
    ValSkipZeros(b, r, n - |s|);
    assert r[n - |s|..] == s;
  }

  function C2DValue(s: seq<Byte>, n: Option<nat>): int
  {
    match n
    case None => Val(256, s)
    case Some(k) => if k == 0 then 0 else SignedOf(Val(256, RightMost(s, k)), Pow(256, k))
  }

  /** The sign bit is the upper half of the range. */
  lemma TopBit(b: nat, h: nat, s: seq<int>)
    requires b == 2 * h && h > 0 && s != [] && Digits(b, s)
    ensures s[0] >= h <==> 2 * Val(b, s) >= Pow(b, |s|)
  {
    hide Val, Pow;
    var p := Pow(b, |s| - 1);
    NextPow(b, |s| - 1);
    ValTop(b, s);
    ValBound(b, s[1..]);
    PowPositive(b, |s| - 1);
    MulAssoc(2, h, p);
    if s[0] >= h { MulLe(h, s[0], p); } else { MulLe(s[0], h - 1, p); MulDistrib(h, 1, p); }
  }

  lemma NextPow(b: nat, n: nat)
    ensures Pow(b, n + 1) == b * Pow(b, n)
  {
  }

  /** C2D(string [, length]). */
  method C2D(s: seq<Byte>, length: Option<nat>, n: Settings) returns (text: string)
    ensures text == ValueText(C2DValue(s, length), n)
  {
    hide Val, Pow, ValueText;
    if length.None? {
      text := MagnitudeText(s, false, n);
      return;
    }
    var k := length.value;
    if k == 0 {
      ZeroText0(n);
      return I32Text(0);
    }
    var work := new int[k];
    var i := 0;
    ghost var r := RightMost(s, k);
    while i < k
      invariant 0 <= i <= k && forall j :: 0 <= j < i ==> work[j] == r[j] && 0 <= work[j] < 256
    {
      work[i] := if i + |s| < k then 0 else s[i + |s| - k];
      i := i + 1;
    }
    assert work[..] == r;
    WidthIs(k);
    text := SignedText(work, false, n);
  }

  lemma ZeroText0(n: Settings)
    ensures ValueText(0, n) == I32Text(0)
  {
  }

  /** Bytes whose first bit is the sign; in the first byte only the low nibble counts if pad is set. */
  method SignedText(bytes: array<int>, pad: bool, n: Settings) returns (text: string)
    requires bytes.Length > 0 && Digits(256, bytes[..]) && (pad ==> bytes[0] < 16)
    modifies bytes
    ensures text == ValueText(SignedOf(Val(256, old(bytes[..])), Width(bytes.Length, pad)), n)
  {
    hide Val, Pow, ValueText, Width;
    ghost var v := Val(256, bytes[..]);
    ghost var w := Width(bytes.Length, pad);
    SignBit(bytes[..], pad);
    var sign := if pad then bytes[0] >= 8 else bytes[0] >= 128;
    if sign {
      TwosComplement(bytes, pad);
      DivModUnique(-v, w, -1, w - v);
    }
    var mag := AsBytes(bytes);
    text := MagnitudeText(mag, sign, n);
  }

  lemma SignBit(s: seq<int>, pad: bool)
    requires s != [] && Digits(256, s) && (pad ==> s[0] < 16)
    ensures (if pad then s[0] >= 8 else s[0] >= 128) <==> 2 * Val(256, s) >= Width(|s|, pad)
    ensures 0 <= Val(256, s) < Width(|s|, pad)
  {
    hide Val, Pow;
    ValBound(256, s);
    WidthIs(|s|);
    TopBit(256, 128, s);
    if pad {
      var p := Pow(256, |s| - 1);
      ValTop(256, s);
      ValBound(256, s[1..]);
      PowPositive(256, |s| - 1);
      MulLe(s[0], 15, p);
      if s[0] >= 8 { MulLe(8, s[0], p); } else { MulLe(s[0], 7, p); }
    }
  }

  method AsBytes(a: array<int>) returns (s: seq<Byte>)
    requires Digits(256, a[..])
    ensures s == a[..]
  {
    s := [];
    var i := 0;
    while i < a.Length
      invariant 0 <= i <= a.Length && s == a[..i]
    {
      var b: Byte := a[..][i];
      s := s + [b];
      i := i + 1;
    }
    assert a[..a.Length] == a[..];
  }

  // ---- X2D -----------------------------------------------------------------------

  function HexVal(c: char): int
  {
    if '0' <= c <= '9' then c as int - '0' as int
    else if 'A' <= c <= 'F' then c as int - 'A' as int + 10
    else if 'a' <= c <= 'f' then c as int - 'a' as int + 10
    else -1
  }

  /** The nibbles of a hexadecimal text; blanks may stand anywhere. */
  function Hex(s: string): (r: Option<seq<int>>)
    ensures r.Some? ==> |r.value| <= |s| && forall i :: 0 <= i < |r.value| ==> 0 <= r.value[i] < 16
  {
    if s == "" then Some([])
    else match Hex(s[1..])
      case None => None
      case Some(rest) =>
        if s[0] == ' ' then Some(rest) else if HexVal(s[0]) < 0 then None else Some([HexVal(s[0])] + rest)
  }

  /** The sixteen digits, in capitals or small. */
  lemma HexDigits(c: char)
    ensures HexVal(c) >= 0 <==> c in "0123456789ABCDEF" || c in "0123456789abcdef"
    ensures 0 <= HexVal(c) ==> HexVal(c) < 16 && (c == "0123456789ABCDEF"[HexVal(c)] || c == "0123456789abcdef"[HexVal(c)])
  {
    if HexVal(c) >= 0 {
      assert c == "0123456789ABCDEF"[HexVal(c)] || c == "0123456789abcdef"[HexVal(c)];
    }
  }

  function X2DValue(h: seq<int>, n: Option<nat>): int
  {
    match n
    case None => Val(16, h)
    case Some(k) => if k == 0 then 0 else SignedOf(Val(16, RightMost(h, k)), Pow(16, k))
  }

  /** The nibble in slot k of bytes. */
  function NibbleAt(bytes: seq<int>, k: nat): int
    requires k / 2 < |bytes|
  {
    if k % 2 == 0 then bytes[k / 2] / 16 else bytes[k / 2] % 16
  }

  lemma {:induction false} NibblesVal(bytes: seq<int>, h: seq<int>)
    requires Digits(256, bytes) && |h| == 2 * |bytes| && forall k :: 0 <= k < |h| ==> h[k] == NibbleAt(bytes, k)
    ensures Val(256, bytes) == Val(16, h)
    decreases |bytes|
  {
    if bytes != [] {
      var n := |bytes| - 1;
      var b, g := bytes[..n], h[..2 * n];
      forall k | 0 <= k < 2 * n ensures g[k] == NibbleAt(b, k) { assert h[k] == NibbleAt(bytes, k); }
      NibblesVal(b, g);
      assert h[2 * n] == bytes[n] / 16 && h[2 * n + 1] == bytes[n] % 16;
      assert h[..2 * n + 1][..2 * n] == g && h[..|h| - 1] == h[..2 * n + 1];
      assert Val(16, h[..2 * n + 1]) == Val(16, g) * 16 + h[2 * n];
    }
  }

  /** Every hexadecimal digit counted, -1 at a character that is none. */
  method CountHex(s: string) returns (count: int)
    ensures if Hex(s).Some? then count == |Hex(s).value| else count == -1
  {
    count := 0;
    var i := 0;
    while i < |s|
      invariant 0 <= i <= |s| && count >= 0
      invariant Hex(s).Some? <==> Hex(s[i..]).Some?
      invariant Hex(s).Some? ==> |Hex(s).value| == count + |Hex(s[i..]).value|
    {
      assert s[i..][1..] == s[i + 1..] && s[i..][0] == s[i];
      if s[i] != ' ' {
        if HexVal(s[i]) < 0 { return -1; }
        count := count + 1;
      }
      i := i + 1;
    }
    assert s[|s|..] == "";
  }

  lemma {:induction false} HexFrom(s: string, j: nat)
    requires j <= |s| && Hex(s).Some?
    ensures Hex(s[j..]).Some? && |Hex(s[j..]).value| <= |Hex(s).value|
    ensures Hex(s[j..]).value == Hex(s).value[|Hex(s).value| - |Hex(s[j..]).value|..]
    decreases j
  {
    hide Hex, HexVal;
    if j > 0 {
      HexFrom(s, j - 1);
      HexStep(s, j - 1);
      var a, b := Hex(s[j - 1..]).value, Hex(s[j..]).value;
      if s[j - 1] != ' ' { assert b == a[1..]; }
    } else {
      assert s[0..] == s;
    }
  }

  /** Pack the last `need` nibbles into bytes, from the right. */
  method Pack(s: string, bytes: array<int>, need: nat)
    requires Hex(s).Some? && need <= |Hex(s).value| && need <= 2 * bytes.Length
    requires forall i :: 0 <= i < bytes.Length ==> bytes[i] == 0
    modifies bytes
    ensures Digits(256, bytes[..])
    ensures var h := Hex(s).value;
            var r := RightMost(h[|h| - need..], 2 * bytes.Length);
            forall k :: 0 <= k < |r| ==> NibbleAt(bytes[..], k) == r[k]
  {
    hide Hex, HexVal, NibbleAt, RightMost, Filled;
    NoNibblesYet(bytes[..]);
    ghost var h := Hex(s).value;
    var slot, taken, j := bytes.Length * 2, 0, |s|;
    assert s[|s|..] == "";
    HexEnd();
    while j > 0 && taken < need
      invariant 0 <= j <= |s| && 0 <= taken <= need && slot + taken == 2 * bytes.Length && Digits(256, bytes[..])
      invariant Hex(s[j..]).Some? && |Hex(s[j..]).value| == taken && Filled(bytes[..], slot, Hex(s[j..]).value)
    {
      j := j - 1;
      HexFrom(s, j);
      HexStep(s, j);
      if s[j] == ' ' { continue; }
      var v := HexVal(s[j]);
      slot := slot - 1;
      ghost var was := bytes[..];
      FilledBelow(was, slot, Hex(s[j + 1..]).value);
      PutNibble(bytes, slot, v);
      taken := taken + 1;
      FilledOn(was, bytes[..], slot, v, Hex(s[j + 1..]).value);
    }
    HexFrom(s, j);
    InPlace(bytes[..], h[|h| - need..], slot);
  }

  /** The slots from one on hold the nibbles t, those in front of it nothing. */
  predicate Filled(bytes: seq<int>, slot: nat, t: seq<int>)
  {
    && slot + |t| == 2 * |bytes|
    && (forall k :: 0 <= k < slot ==> NibbleAt(bytes, k) == 0)
    && (forall k :: slot <= k < 2 * |bytes| ==> NibbleAt(bytes, k) == t[k - slot])
  }

  lemma FilledBelow(bytes: seq<int>, slot: nat, t: seq<int>)
    requires Filled(bytes, slot + 1, t)
    ensures slot / 2 < |bytes| && NibbleAt(bytes, slot) == 0
  {
    hide NibbleAt;
  }

  lemma FilledOn(was: seq<int>, now: seq<int>, slot: nat, v: int, t: seq<int>)
    requires Filled(was, slot + 1, t) && |now| == |was|
    requires forall k :: 0 <= k < 2 * |was| ==> NibbleAt(now, k) == if k == slot then v else NibbleAt(was, k)
    ensures Filled(now, slot, [v] + t)
  {
    hide NibbleAt;
    forall k | slot <= k < 2 * |was| ensures NibbleAt(now, k) == ([v] + t)[k - slot] {
      if k > slot { assert NibbleAt(was, k) == t[k - (slot + 1)]; }
    }
  }

  lemma InPlace(bytes: seq<int>, t: seq<int>, slot: nat)
    requires Filled(bytes, slot, t)
    ensures forall k :: 0 <= k < 2 * |bytes| ==> NibbleAt(bytes, k) == RightMost(t, 2 * |bytes|)[k]
  {
    hide NibbleAt, RightMost;
    forall k | 0 <= k < 2 * |bytes| ensures NibbleAt(bytes, k) == RightMost(t, 2 * |bytes|)[k] {
      RightMostAt(t, 2 * |bytes|, k);
    }
  }

  lemma RightMostAt(t: seq<int>, n: nat, k: nat)
    requires |t| <= n && k < n
    ensures RightMost(t, n)[k] == if k < n - |t| then 0 else t[k - (n - |t|)]
  {
  }

  lemma NoNibblesYet(s: seq<int>)
    requires forall i :: 0 <= i < |s| ==> s[i] == 0
    ensures Filled(s, 2 * |s|, [])
  {
  }

  /** A nibble into a slot still empty. */
  method PutNibble(bytes: array<int>, slot: nat, v: int)
    requires slot / 2 < bytes.Length && Digits(256, bytes[..]) && NibbleAt(bytes[..], slot) == 0 && 0 <= v < 16
    modifies bytes
    ensures Digits(256, bytes[..])
    ensures forall k :: 0 <= k < 2 * bytes.Length ==> NibbleAt(bytes[..], k) == if k == slot then v else NibbleAt(old(bytes[..]), k)
  {
    ghost var was := bytes[..];
    var i := slot / 2;
    bytes[i] := if slot % 2 == 0 then bytes[i] + 16 * v else bytes[i] + v;
    assert bytes[..] == was[i := if slot % 2 == 0 then was[i] + 16 * v else was[i] + v];
    OneNibble(was, slot, v);
  }

  lemma HexEnd()
    ensures Hex("") == Some([])
  {
  }

  lemma HexStep(s: string, j: nat)
    requires j < |s| && Hex(s[j..]).Some?
    ensures Hex(s[j + 1..]).Some?
    ensures if s[j] == ' ' then Hex(s[j..]) == Hex(s[j + 1..])
            else 0 <= HexVal(s[j]) < 16 && Hex(s[j..]).value == [HexVal(s[j])] + Hex(s[j + 1..]).value
  {
    assert s[j..][1..] == s[j + 1..] && s[j..][0] == s[j];
  }

  lemma OneNibble(s: seq<int>, slot: nat, v: int)
    requires Digits(256, s) && slot / 2 < |s| && NibbleAt(s, slot) == 0 && 0 <= v < 16
    ensures var i := slot / 2;
            var t := s[i := if slot % 2 == 0 then s[i] + 16 * v else s[i] + v];
            Digits(256, t) && forall k :: 0 <= k < 2 * |s| ==> NibbleAt(t, k) == if k == slot then v else NibbleAt(s, k)
  {
    var i := slot / 2;
    var x := if slot % 2 == 0 then s[i] + 16 * v else s[i] + v;
    var t := s[i := x];
    assert 0 <= s[i] < 256;
    if slot % 2 == 0 {
      assert s[i] < 16;
      DivModUnique(x, 16, v, s[i]);
    } else {
      DivModUnique(x, 16, s[i] / 16, v);
    }
    forall k | 0 <= k < 2 * |s| ensures NibbleAt(t, k) == if k == slot then v else NibbleAt(s, k) {
      if k / 2 == i && k != slot { assert k % 2 != slot % 2; }
    }
  }

  /** X2D(hex [, length]); None for a character that is no hexadecimal digit. */
  method X2D(s: string, length: Option<nat>, n: Settings) returns (text: Option<string>)
    ensures text == if Hex(s).Some? then Some(ValueText(X2DValue(Hex(s).value, length), n)) else None
  {
    hide Val, Pow, ValueText, Hex, RightMost, NibbleAt, SignedOf, Width, HexVal, X2DValue;
    var count := CountHex(s);
    if count < 0 { return None; }
    ghost var h := Hex(s).value;
    var eff: nat := if length.Some? then length.value else count;
    if eff == 0 {
      NoNibbles(h, length);
      ZeroText0(n);
      return Some(I32Text(0));
    }
    var bytes := new int[(eff + 1) / 2](_ => 0);
    var pad := eff % 2 == 1;
    var need := if eff < count then eff else count;
    Pack(s, bytes, need);
    Packed(h, eff, need, bytes[..]);
    if pad {
      ghost var b := bytes[..];
      assert LowNibble(bytes[0]) == bytes[0];
      bytes[0] := LowNibble(bytes[0]);
      assert bytes[..] == b;
    }
    var t: string;
    if length.Some? {
      HexWidth(eff);
      Signed16(h, eff);
      t := SignedText(bytes, pad, n);
    } else {
      WholeHex(h);
      Unsigned16(h);
      var mag := AsBytes(bytes);
      t := MagnitudeText(mag, false, n);
    }
    text := Some(t);
  }

  lemma NoNibbles(h: seq<int>, length: Option<nat>)
    requires (if length.Some? then length.value else |h|) == 0
    ensures X2DValue(h, length) == 0
  {
  }

  lemma Signed16(h: seq<int>, k: nat)
    requires k > 0
    ensures X2DValue(h, Some(k)) == SignedOf(Val(16, RightMost(h, k)), Pow(16, k))
  {
  }

  lemma Unsigned16(h: seq<int>)
    ensures X2DValue(h, None) == Val(16, h)
  {
  }

  lemma WholeHex(h: seq<int>)
    ensures RightMost(h, |h|) == h
  {
  }

  /** What packing leaves: the value of the eff nibbles on the right, the pad nibble zero. */
  lemma Packed(h: seq<int>, eff: nat, need: nat, bytes: seq<int>)
    requires eff > 0 && |bytes| == (eff + 1) / 2 && need == (if eff < |h| then eff else |h|) && Digits(256, bytes)
    requires forall k :: 0 <= k < 2 * |bytes| ==> NibbleAt(bytes, k) == RightMost(h[|h| - need..], 2 * |bytes|)[k]
    ensures Val(256, bytes) == Val(16, RightMost(h, eff))
    ensures eff % 2 == 1 ==> 0 <= bytes[0] < 16
  {
    hide Val, NibbleAt, RightMost;
    var t := h[|h| - need..];
    var r := RightMost(t, 2 * |bytes|);
    NibblesVal(bytes, r);
    RightMostVal(16, t, 2 * |bytes|);
    if eff < |h| {
      RightMostCut(h, eff);
    } else {
      assert t == h;
      RightMostVal(16, h, eff);
    }
    if eff % 2 == 1 {
      assert NibbleAt(bytes, 0) == r[0];
      RightMostAt(t, 2 * |bytes|, 0);
      TopNibble(bytes);
    }
  }

  lemma RightMostCut(h: seq<int>, n: nat)
    requires n <= |h|
    ensures RightMost(h, n) == h[|h| - n..]
  {
  }

  lemma TopNibble(bytes: seq<int>)
    requires bytes != [] && NibbleAt(bytes, 0) == 0
    ensures 0 <= bytes[0] < 16
  {
  }

  /** Sixteen to the number of nibbles. */
  lemma HexWidth(n: nat)
    requires n > 0
    ensures Width((n + 1) / 2, n % 2 == 1) == Pow(16, n)
  {
    TwoNibbles((n + 1) / 2);
    if n % 2 == 1 {
      TwoNibbles((n - 1) / 2);
      assert (n + 1) / 2 - 1 == (n - 1) / 2 && n == 2 * ((n - 1) / 2) + 1;
    } else {
      WidthIs(n / 2);
    }
  }

  lemma {:induction false} TwoNibbles(n: nat)
    ensures Pow(256, n) == Pow(16, 2 * n)
  {
    if n > 0 {
      TwoNibbles(n - 1);
      assert Pow(16, 2 * n) == 16 * Pow(16, 2 * n - 1) == 16 * (16 * Pow(16, 2 * n - 2));
    }
  }

  // ---- Whole numbers read --------------------------------------------------------

  const DIGITS_CAP: nat := 2000
  const UNSIGNED_BYTES: nat := 504

  /** d2_parse_whole: the number, or why there is none. */
  datatype Whole = Whole(value: int) | NotANumber | TooManyDigits | NotWhole | TooLarge

  function WholeOf(text: string): Whole
  {
    match ParseNum(text)
    case None => NotANumber
    case Some(x) =>
      if Len10(x.coeff) > DIGITS_CAP then TooManyDigits
      else if x.exp < 0 then NotWhole
      else if Len10(x.coeff) + x.exp > DIGITS_CAP then TooLarge
      else Whole(IntOf(x))
  }

  method ReadWhole(text: string) returns (r: Whole, digits: array<int>, len: nat, sign: bool)
    ensures fresh(digits) && (r.Whole? <==> WholeOf(text).Whole?) && (!r.Whole? ==> r == WholeOf(text))
    ensures r.Whole? ==> len <= digits.Length && Digits(10, digits[..len]) && Val(10, digits[..len]) == Abs(WholeOf(text).value)
                         && (sign <==> WholeOf(text).value < 0)
  {
    hide Val, Pow, Norm, ParseNum, Len10;
    digits := new int[DIGITS_CAP];
    len, sign := 0, false;
    var ok, x := FromStr(text);
    if !ok { return NotANumber, digits, 0, false; }
    CanonForm(x);
    if x.len > DIGITS_CAP { return TooManyDigits, digits, 0, false; }
    CopyDigits(x, digits);
    len, sign := x.len, x.sign;
    var e := x.exp;
    if e < 0 { return NotWhole, digits, 0, false; }
    if e > 0 {
      if len + e > DIGITS_CAP { return TooLarge, digits, 0, false; }
      ghost var s := digits[..len];
      AddZeros(digits, len, e);
      ValPadZeros(10, s, digits[len..len + e]);
      assert digits[..len + e] == s + digits[len..len + e];
      len := len + e;
    }
    WholeRead(ParseNum(text).value);
    r := Whole(0);
  }

  lemma WholeRead(x: Dec)
    requires Canonical(x) && x.exp >= 0
    ensures Abs(IntOf(x)) == x.coeff * Pow(10, x.exp) && (x.neg <==> IntOf(x) < 0)
    ensures x.exp == 0 ==> Abs(IntOf(x)) == x.coeff
  {
    hide Pow;
    IntSize(x);
    PowZero();
  }

  method CopyDigits(x: Number, digits: array<int>)
    requires x.Valid() && x.len <= digits.Length && digits != x.digits
    modifies digits
    ensures digits[..x.len] == x.digits[..x.len] && Digits(10, digits[..x.len]) && Val(10, digits[..x.len]) == x.Coeff()
  {
    hide Val;
    var i := 0;
    while i < x.len
      invariant 0 <= i <= x.len && digits[..i] == x.digits[..i]
    {
      digits[i] := x.digits[i];
      i := i + 1;
    }
  }

  method AddZeros(digits: array<int>, len: nat, e: nat)
    requires len + e <= digits.Length
    modifies digits
    ensures digits[..len] == old(digits[..len]) && forall k :: len <= k < len + e ==> digits[k] == 0
  {
    var i := 0;
    while i < e
      invariant 0 <= i <= e && digits[..len] == old(digits[..len]) && forall k :: len <= k < len + i ==> digits[k] == 0
    {
      digits[len + i] := 0;
      i := i + 1;
    }
  }

  // ---- Bytes of a number ------------------------------------------------------------

  /** The low n bytes of v in two's complement, most significant first. */
  function BytesOf(v: int, n: nat): (s: seq<Byte>)
    ensures |s| == n
    decreases n
  {
    if n == 0 then [] else BytesOf(v / 256, n - 1) + [v % 256]
  }

  lemma {:induction false} BytesVal(v: int, n: nat)
    ensures Val(256, BytesOf(v, n)) == v % Pow256(n)
    decreases n
  {
    hide Pow;
    PowPositive(256, n);
    if n == 0 {
      EmptyVal256();
      PowNone();
    } else {
      var s := BytesOf(v, n);
      assert s[..n - 1] == BytesOf(v / 256, n - 1);
      LastByte(s);
      BytesVal(v / 256, n - 1);
      NextPow(256, n - 1);
      var p := Pow256(n - 1);
      Nested(v, p);
    }
  }

  lemma Nested(v: int, p: int)
    requires p > 0
    ensures v % (256 * p) == v / 256 % p * 256 + v % 256
  {
    var q := v / 256 / p;
    var r := v / 256 % p;
    assert v / 256 == q * p + r;
    MulDistrib(q * p, r, 256);
    MulAssoc(q, p, 256);
    DivModUnique(v, 256 * p, q, r * 256 + v % 256);
  }

  /** Bytes are decided by their number and value. */
  lemma TheseBytes(s: seq<Byte>, v: int)
    requires Val(256, s) == v % Pow256(|s|)
    ensures s == BytesOf(v, |s|)
  {
    hide Val, Pow, BytesOf;
    BytesVal(v, |s|);
    BytesAreDigits(s);
    BytesAreDigits(BytesOf(v, |s|));
    ValInjective(256, s, BytesOf(v, |s|));
  }

  /** d2_core_write_bytes from the parsed number on: out gets the low bytes, negated for a negative number. */
  method WriteBytes(digits: array<int>, len: nat, sign: bool, lengthGiven: bool, out: array<int>, mask: bool) returns (allZero: bool)
    requires len <= digits.Length && Digits(10, digits[..len]) && digits != out && out.Length > 0 && (mask ==> lengthGiven)
    modifies digits, out
    ensures Digits(256, out[..])
    ensures var m := Val(10, old(digits[..len]));
            Val(256, out[..]) == (if sign && lengthGiven then -m else m) % Width(out.Length, mask)
            && (allZero <==> m % Pow256(out.Length) == 0)
  {
    hide Val, Pow, Width, LowFirst;
    ghost var m := Val(10, digits[..len]);
    var n := out.Length;
    var low := new int[n + 1](_ => 0);
    var count := ToBytes(digits, len, low, n + 1);
    assert forall i :: count <= i < n + 1 ==> low[i] == 0 by {
      forall i | count <= i < n + 1 ensures low[i] == 0 { assert low[count..][i - count] == 0; }
    }
    LowBytes(low[..], count, m, n);
    CopyReversed(low, out);
    TurnedRound(low[..n], out[..]);
    WidthIs(n);
    allZero := AllZero(out, n);
    assert out[..n] == out[..];
    if allZero { ValZeros(256, out[..]); } else { if Val(256, out[..]) == 0 { ValZeroInv(256, out[..]); } }
    if mask {
      Masked(out[..]);
      NibbleRest(m, n);
      ghost var t := out[..][0 := LowNibble(out[0])];
      out[0] := LowNibble(out[0]);
      assert out[..] == t;
    }
    if sign && lengthGiven {
      ghost var u := Val(256, out[..]);
      TwosComplement(out, mask);
      NegatedRest(m, Width(n, mask), u);
    }
  }

  lemma NegatedRest(m: int, w: int, u: int)
    requires w > 0 && u == m % w
    ensures -u % w == -m % w
  {
    var q := m / w;
    if u == 0 {
      DivModUnique(-m, w, -q, 0);
    } else {
      MulDistrib(-q, 1, w);
      DivModUnique(-m, w, -q - 1, w - u);
      DivModUnique(-u, w, -1, w - u);
    }
  }

  lemma NibbleRest(m: int, n: nat)
    requires n > 0
    ensures m % Pow256(n) % Width(n, true) == m % Width(n, true)
  {
    var w := Width(n, true);
    NibbleLess(n);
    RestOfRest(m, w, 16);
  }

  lemma RestOfRest(m: int, w: int, k: int)
    requires w > 0 && k > 0
    ensures k * w > 0 && m % (k * w) % w == m % w
  {
    MulPositive(k, w);
    var b := k * w;
    var q, r := m / b, m % b;
    var q', r' := r / w, r % w;
    MulAssoc(q, k, w);
    MulDistrib(q * k, q', w);
    DivModUnique(m, w, q * k + q', r');
  }

  /** The n low bytes among n + 1, zeros beyond count. */
  lemma LowBytes(low: seq<int>, count: nat, m: int, n: nat)
    requires |low| == n + 1 && count <= n + 1 && Digits(256, low[..count]) && forall i :: count <= i < n + 1 ==> low[i] == 0
    requires LowFirst(low[..count]) == m % Pow256(n + 1)
    ensures Digits(256, low[..n]) && LowFirst(low[..n]) == m % Pow256(n)
  {
    hide Pow, LowFirst;
    forall i | 0 <= i < n + 1 ensures 0 <= low[i] < 256 { if i < count { assert low[..count][i] == low[i]; } }
    LowZeros(low[..count], low[count..]);
    assert low == low[..count] + low[count..];
    LowTop(low);
    LowBound(low[..n]);
    var p := Pow256(n);
    NextPow(256, n);
    var all := LowFirst(low);
    DivModUnique(all, p, low[n], LowFirst(low[..n]));
    RestOfRest(m, p, 256);
  }

  lemma LowTop(s: seq<int>)
    requires s != []
    ensures LowFirst(s) == LowFirst(s[..|s| - 1]) + s[|s| - 1] * Pow(256, |s| - 1)
  {
  }

  method CopyReversed(low: array<int>, out: array<int>)
    requires low != out && low.Length == out.Length + 1 && Digits(256, low[..out.Length])
    modifies out
    ensures Digits(256, out[..]) && forall k :: 0 <= k < out.Length ==> out[out.Length - 1 - k] == low[k]
  {
    var n := out.Length;
    var k := 0;
    while k < n
      invariant 0 <= k <= n && forall j :: 0 <= j < k ==> out[n - 1 - j] == low[j]
    {
      out[n - 1 - k] := low[k];
      k := k + 1;
    }
    forall i | 0 <= i < n ensures 0 <= out[i] < 256 {
      assert out[n - 1 - (n - 1 - i)] == low[n - 1 - i] == low[..n][n - 1 - i];
    }
  }

  // ---- D2C --------------------------------------------------------------------------

  datatype D2<T> = Given(v: T) | Refused(why: Whole) | NegativeWithoutLength

  /** v without leading zero cells. */
  function Stripped<T(==)>(s: seq<T>, zero: T): (r: seq<T>)
  {
    if s != [] && s[0] == zero then Stripped(s[1..], zero) else s
  }

  function D2CBytes(text: string, length: Option<nat>): D2<seq<Byte>>
  {
    if length == Some(0) then Given([])
    else
      var w := WholeOf(text);
      if !w.Whole? then Refused(w)
      else match length
        case Some(k) => Given(BytesOf(w.value, k))
        case None => if w.value < 0 then NegativeWithoutLength else Given(Stripped(BytesOf(w.value, UNSIGNED_BYTES), 0))
  }

  /** D2C(number [, length]). */
  method D2C(text: string, length: Option<nat>) returns (r: D2<seq<Byte>>)
    ensures r == D2CBytes(text, length)
  {
    hide Val, Pow, Width, BytesOf, WholeOf;
    if length == Some(0) { return Given([]); }
    var given := length.Some?;
    var n := if given then length.value else UNSIGNED_BYTES;
    var w, digits, len, sign := ReadWhole(text);
    if !w.Whole? { return Refused(w); }
    if sign && !given { return NegativeWithoutLength; }
    var buf := new int[n];
    ghost var v := WholeOf(text).value;
    var allZero := WriteBytes(digits, len, sign, given, buf, false);
    WidthIs(n);
    var bytes := AsBytes(buf);
    TheseBytes(bytes, v);
    if given { return Given(bytes); }
    ValOfBytes(bytes, v, n);
    var start := 0;
    if allZero {
      start := n;
    } else {
      while start < n && bytes[start] == 0
        invariant 0 <= start <= n && forall i :: 0 <= i < start ==> bytes[i] == 0
      {
        start := start + 1;
      }
    }
    StripZeros(bytes, 0, start);
    r := Given(bytes[start..]);
  }

  lemma ValOfBytes(bytes: seq<Byte>, v: int, n: nat)
    requires |bytes| == n && Val(256, bytes) == v % Pow256(n)
    ensures v % Pow256(n) == 0 ==> forall i :: 0 <= i < n ==> bytes[i] == 0
  {
    hide Val, Pow;
    BytesAreDigits(bytes);
    if v % Pow256(n) == 0 { ValZeroInv(256, bytes); }
  }

  lemma {:induction false} StripZeros<T>(s: seq<T>, zero: T, k: nat)
    requires k <= |s| && (forall i :: 0 <= i < k ==> s[i] == zero) && (k == |s| || s[k] != zero)
    ensures Stripped(s, zero) == s[k..]
    decreases k
  {
    if k > 0 {
      StripZeros(s[1..], zero, k - 1);
      assert s[1..][k - 1..] == s[k..];
    } else {
      assert s[0..] == s;
    }
  }

  // ---- D2X --------------------------------------------------------------------------

  function HexChar(v: int): char
    requires 0 <= v < 16
  {
    if v < 10 then '0' + v as char else 'A' + (v - 10) as char
  }

  /** The low n nibbles of v in two's complement, as hexadecimal digits. */
  function HexOf(v: int, n: nat): (s: string)
    ensures |s| == n
    decreases n
  {
    if n == 0 then "" else HexOf(v / 16, n - 1) + [HexChar(v % 16)]
  }

  function D2XText(text: string, length: Option<nat>): D2<string>
  {
    if length == Some(0) then Given("")
    else
      var w := WholeOf(text);
      if !w.Whole? then Refused(w)
      else match length
        case Some(k) => Given(HexOf(w.value, k))
        case None =>
          if w.value < 0 then NegativeWithoutLength
          else
            var s := Stripped(HexOf(w.value, 2 * UNSIGNED_BYTES), '0');
            Given(if s == "" then "0" else s)
  }

  /** Both digits of every byte. */
  function HexBytes(s: seq<int>): (t: string)
    requires Digits256(s)
    ensures |t| == 2 * |s|
  {
    if s == [] then "" else HexBytes(s[..|s| - 1]) + [HexChar(s[|s| - 1] / 16), HexChar(s[|s| - 1] % 16)]
  }

  predicate Digits256(s: seq<int>) { forall i :: 0 <= i < |s| ==> 0 <= s[i] < 256 }

  lemma {:induction false} HexOfBytes(s: seq<int>, v: int)
    requires Digits256(s) && Val(256, s) == v % Pow256(|s|)
    ensures HexBytes(s) == HexOf(v, 2 * |s|)
    decreases |s|
  {
    hide Val, Pow, HexChar;
    if s != [] {
      var n := |s| - 1;
      var t := s[..n];
      LastCell256(s);
      NextPow(256, n);
      var p := Pow256(n);
      Nested(v, p);
      ValBound(256, s);
      DivModUnique(Val(256, s), 256, Val(256, t), s[n]);
      DivModUnique(Val(256, s), 256, v / 256 % p, v % 256);
      HexOfBytes(t, v / 256);
      TwoDigits(v, n);
    }
  }

  lemma LastCell256(s: seq<int>)
    requires s != []
    ensures Val(256, s) == Val(256, s[..|s| - 1]) * 256 + s[|s| - 1]
  {
  }

  lemma TwoDigits(v: int, n: nat)
    ensures HexOf(v, 2 * n + 2) == HexOf(v / 256, 2 * n) + [HexChar(v % 256 / 16), HexChar(v % 256 % 16)]
  {
    hide HexChar;
    DivModUnique(v, 256, v / 16 / 16, v / 16 % 16 * 16 + v % 16);
    DivModUnique(v % 256, 16, v / 16 % 16, v % 16);
    assert HexOf(v, 2 * n + 2) == HexOf(v / 16, 2 * n + 1) + [HexChar(v % 16)];
    assert HexOf(v / 16, 2 * n + 1) == HexOf(v / 16 / 16, 2 * n) + [HexChar(v / 16 % 16)];
  }

  /** D2X(number [, length]). */
  method D2X(text: string, length: Option<nat>) returns (r: D2<string>)
    ensures r == D2XText(text, length)
  {
    hide Val, Pow, Width, HexOf, WholeOf, HexBytes;
    if length == Some(0) { return Given(""); }
    var given := length.Some?;
    var n := if given then (length.value + 1) / 2 else UNSIGNED_BYTES;
    var pad := given && length.value % 2 == 1;
    var w, digits, len, sign := ReadWhole(text);
    if !w.Whole? { return Refused(w); }
    if sign && !given { return NegativeWithoutLength; }
    var buf := new int[n];
    ghost var v := WholeOf(text).value;
    var allZero := WriteBytes(digits, len, sign, given, buf, pad);
    var hex := WriteHex(buf);
    if given {
      var start := if pad then 1 else 0;
      HexGiven(buf[..], v, length.value);
      return Given(hex[start..]);
    }
    WidthIs(n);
    HexOfBytes(buf[..], v);
    var start := 0;
    if allZero {
      NoHex(buf[..], v);
      start := 2 * n - 1;
    } else {
      SomeHex(buf[..]);
      while start < 2 * n - 1 && hex[start] == '0'
        invariant 0 <= start <= 2 * n - 1 && forall i :: 0 <= i < start ==> hex[i] == '0'
      {
        start := start + 1;
      }
      if start == 2 * n - 1 && hex[start] == '0' { assert forall i :: 0 <= i < 2 * n ==> hex[i] == '0'; }
      StripZeros(hex, '0', start);
    }
    r := Given(hex[start..]);
  }

  /** The text of all nibbles. */
  method WriteHex(buf: array<int>) returns (hex: string)
    requires Digits256(buf[..])
    ensures hex == HexBytes(buf[..])
  {
    hide HexChar;
    hex := "";
    var k := 0;
    assert buf[..0] == [];
    while k < buf.Length
      invariant 0 <= k <= buf.Length && Digits256(buf[..k]) && hex == HexBytes(buf[..k])
    {
      assert buf[..k + 1][..k] == buf[..k] && buf[..][k] == buf[k];
      hex := hex + [HexChar(buf[k] / 16), HexChar(buf[k] % 16)];
      k := k + 1;
    }
    assert buf[..buf.Length] == buf[..];
  }

  /** Exactly k digits: all of them, or without the pad in front. */
  lemma HexGiven(s: seq<int>, v: int, k: nat)
    requires Digits256(s) && k > 0 && |s| == (k + 1) / 2 && Val(256, s) == v % Width(|s|, k % 2 == 1)
    ensures HexBytes(s)[if k % 2 == 1 then 1 else 0..] == HexOf(v, k)
  {
    hide Val, Pow, Width, HexOf, HexBytes, Digits256;
    var x := Val(256, s);
    OwnRest(s);
    HexOfBytes(s, x);
    HexWidth(k);
    PowPositive(16, k);
    HexRest(v, x, k);
    if k % 2 == 1 {
      assert 2 * |s| == k + 1;
      HexFirst(x, k);
    } else {
      assert 2 * |s| == k && HexBytes(s)[0..] == HexBytes(s);
    }
  }

  lemma OwnRest(s: seq<int>)
    requires Digits256(s)
    ensures Val(256, s) == Val(256, s) % Pow256(|s|)
  {
    hide Val, Pow;
    ValBound(256, s);
    DivModUnique(Val(256, s), Pow256(|s|), 0, Val(256, s));
  }

  lemma {:induction false} HexFirst(v: int, n: nat)
    ensures HexOf(v, n + 1)[1..] == HexOf(v, n)
    decreases n
  {
    hide HexChar;
    if n > 0 {
      HexFirst(v / 16, n - 1);
      assert HexOf(v, n + 1) == HexOf(v / 16, n) + [HexChar(v % 16)];
      assert HexOf(v, n + 1)[1..] == HexOf(v / 16, n)[1..] + [HexChar(v % 16)];
    }
  }

  /** Only the value within the width matters. */
  lemma {:induction false} HexRest(v: int, x: int, n: nat)
    requires Pow(16, n) > 0 && x == v % Pow(16, n)
    ensures HexOf(x, n) == HexOf(v, n)
    decreases n
  {
    hide HexChar, Pow;
    if n > 0 {
      NextPow(16, n - 1);
      PowPositive(16, n - 1);
      var p := Pow(16, n - 1);
      Nested16(v, p);
      DivModUnique(x, 16, v / 16 % p, v % 16);
      HexRest(v / 16, x / 16, n - 1);
    }
  }

  lemma Nested16(v: int, p: int)
    requires p > 0
    ensures v % (16 * p) == v / 16 % p * 16 + v % 16
  {
    var q := v / 16 / p;
    var r := v / 16 % p;
    assert v / 16 == q * p + r;
    MulDistrib(q * p, r, 16);
    MulAssoc(q, p, 16);
    DivModUnique(v, 16 * p, q, r * 16 + v % 16);
  }

  lemma {:induction false} ZeroHex(s: seq<int>)
    requires Digits256(s) && s != [] && (forall i :: 0 <= i < |s| ==> s[i] == 0)
    ensures forall i :: 0 <= i < 2 * |s| ==> HexBytes(s)[i] == '0'
    decreases |s|
  {
    if |s| > 1 { ZeroHex(s[..|s| - 1]); } else { assert s[..0] == []; }
  }

  lemma NoHex(s: seq<int>, v: int)
    requires Digits256(s) && s != [] && Val(256, s) == v % Pow256(|s|) == 0
    ensures Stripped(HexBytes(s), '0') == "" && HexBytes(s)[2 * |s| - 1..] == "0"
  {
    hide Val, Pow, HexBytes;
    ValZeroInv(256, s);
    ZeroHex(s);
    StripZeros(HexBytes(s), '0', 2 * |s|);
  }

  lemma {:induction false} SomeHex(s: seq<int>)
    requires Digits256(s) && Val(256, s) != 0
    ensures exists i :: 0 <= i < 2 * |s| && HexBytes(s)[i] != '0'
    decreases |s|
  {
    hide Val;
    var n := |s| - 1;
    if s == [] {
      EmptyVal256();
      assert false;
    } else {
      LastCell256(s);
      if s[n] != 0 {
        assert HexBytes(s)[2 * n] != '0' || HexBytes(s)[2 * n + 1] != '0';
      } else {
        SomeHex(s[..n]);
        var i :| 0 <= i < 2 * n && HexBytes(s[..n])[i] != '0';
        assert HexBytes(s)[i] != '0';
      }
    }
  }

  // ---- Round trips --------------------------------------------------------------------

  /** A whole number of at most DIGITS digits is read back from its plain text. */
  lemma PlainTextReads(v: int, n: Settings)
    requires Abs(v) < Pow(10, n.digits) && n.digits <= DIGITS_CAP
    ensures WholeOf(I32Text(v)) == Whole(v)
  {
    hide Pow, Norm, Len10, I32Text, FormatNum, ParseNum;
    IntIsWrittenPlain(v, n);
    IntOfInt(v);
    LenAtMost(Abs(v), n.digits);
    NormLen(v < 0, Abs(v), 0);
    WholeSize(v, n);
    FormatLength(Int(v), n.digits, n.form);
    CutKeeps(FormatNum(Int(v), n.digits, n.form), n.digits + 32);
    PrintParse(Int(v), n.digits, n.form);
  }

  lemma WholeSize(v: int, n: Settings)
    requires Abs(v) < Pow(10, n.digits) && n.digits <= DIGITS_CAP
    ensures Canonical(Int(v)) && IntExponent(Int(v)) && Int(v).exp >= 0 && Len10(Int(v).coeff) + Int(v).exp <= DIGITS_CAP
    ensures Len10(Int(v).coeff) <= n.digits
  {
    hide Pow, Norm;
    LenAtMost(Abs(v), n.digits);
    NormLen(v < 0, Abs(v), 0);
    IntOfInt(v);
    IntSize(Int(v));
    if v != 0 { LenScale(Int(v).coeff, Int(v).exp); }
  }

  /** C2D(D2C(n, L), L) is n, for every n in the range of L bytes and of DIGITS digits. */
  lemma C2DOfD2C(text: string, v: int, k: nat, n: Settings)
    requires WholeOf(text) == Whole(v) && k > 0 && -(2 * v) <= Pow(256, k) && 2 * v < Pow(256, k) && Abs(v) < Pow(10, n.digits)
    ensures D2CBytes(text, Some(k)).Given?
    ensures ValueText(C2DValue(D2CBytes(text, Some(k)).v, Some(k)), n) == I32Text(v)
  {
    hide Val, Pow, WholeOf, BytesOf, ValueText, I32Text;
    BytesVal(v, k);
    EvenPower(256, k);
    SignedWraps(v, Pow256(k));
    AllOf(BytesOf(v, k));
    PlainText(v, n);
  }

  lemma AllOf(s: seq<int>)
    ensures RightMost(s, |s|) == s
  {
  }

  lemma EvenPower(b: nat, k: nat)
    requires k > 0 && b % 2 == 0
    ensures Pow(b, k) % 2 == 0
  {
    var p, h := Pow(b, k - 1), b / 2;
    MulAssoc(2, h, p);
    DivModUnique(b * p, 2, h * p, 0);
  }

  /** The other way round: D2C(C2D(s, L), L) is s, for L bytes whose number has at most DIGITS digits. */
  lemma D2COfC2D(s: seq<Byte>, n: Settings)
    requires s != [] && Abs(C2DValue(s, Some(|s|))) < Pow(10, n.digits) && n.digits <= DIGITS_CAP
    ensures D2CBytes(ValueText(C2DValue(s, Some(|s|)), n), Some(|s|)) == Given(s)
  {
    hide Val, Pow, WholeOf, BytesOf, ValueText, I32Text;
    var v, w := C2DValue(s, Some(|s|)), Pow256(|s|);
    PlainText(v, n);
    PlainTextReads(v, n);
    BytesAreDigits(s);
    ValBound(256, s);
    AllOf(s);
    var x := Val(256, s);
    if 2 * x >= w { DivModUnique(x - w, w, -1, x); } else { DivModUnique(x, w, 0, x); }
    TheseBytes(s, v);
  }

  /** Without a length D2C keeps the low 504 bytes: C2D gives the number back if and only if it is below 256^504. */
  lemma UnsignedC2DOfD2C(text: string, v: nat)
    requires WholeOf(text) == Whole(v)
    ensures D2CBytes(text, None).Given?
    ensures C2DValue(D2CBytes(text, None).v, None) == v <==> v < Pow(256, 504)
  {
    hide Val, Pow, WholeOf, BytesOf;
    BytesVal(v, UNSIGNED_BYTES);
    StrippedVal(BytesOf(v, UNSIGNED_BYTES));
    var w := Pow256(UNSIGNED_BYTES);
    if v < w { DivModUnique(v, w, 0, v); }
  }

  /** The text 1E1400 is such a number: D2C takes it, and C2D gives another one back. */
  lemma BytesAreLost()
    ensures WholeOf("1E1400") == Whole(Pow(10, 1400))
    ensures D2CBytes("1E1400", None).Given? && C2DValue(D2CBytes("1E1400", None).v, None) != Pow(10, 1400)
  {
    OneAndZeros();
    hide Val, Pow, WholeOf, BytesOf, Stripped;
    Cubes(168);
    SmallerBase(1400);
    PowMonotone(8, 1344, 1400);
    UnsignedC2DOfD2C("1E1400", Pow(10, 1400));
  }

  lemma OneAndZeros()
    ensures WholeOf("1E1400") == Whole(Pow(10, 1400))
  {
    var s := "1E1400";
    hide Pow, Val, Norm, Len10;
    assert SkipBlanks(s, 0) == 0 && s[0] == '1';
    var m := ScanMantissa(s, 0, [], None);
    assert m == ScanMantissa(s, 1, [1], None);
    assert m.ok && m.next == 1 && m.digits == [1] && m.point == None;
    assert ScanInt(s, 2, 0) == ScanInt(s, 3, 1) == ScanInt(s, 4, 14) == ScanInt(s, 5, 140) == ScanInt(s, 6, 1400) == (6, 1400);
    assert ScanExponent(s, 1) == (6, 1400);
    ValSingle(10, 1);
    PowerOfTen(1400);
  }

  lemma PowerOfTen(e: nat)
    ensures Norm(false, 1, e) == Dec(false, 1, e) && Len10(1) == 1
    ensures IntOf(Dec(false, 1, e)) == Pow(10, e)
  {
    hide Pow;
  }

  /** 256 cubed is 8 to the eighth. */
  lemma {:induction false} Cubes(k: nat)
    ensures Pow(256, 3 * k) == Pow(8, 8 * k)
    decreases k
  {
    hide Pow;
    if k == 0 {
      PowNothing(256);
      PowNothing(8);
    } else {
      Cubes(k - 1);
      PowAdd(256, 3 * k - 3, 3);
      PowAdd(8, 8 * k - 8, 8);
      SmallPowers();
    }
  }

  lemma PowNothing(b: nat)
    ensures Pow(b, 0) == 1
  {
  }

  lemma SmallPowers()
    ensures Pow(256, 3) == Pow(8, 8) == 16777216
  {
    assert Pow(256, 0) == 1 && Pow(256, 1) == 256 && Pow(256, 2) == 65536;
    assert Pow(8, 0) == 1 && Pow(8, 1) == 8 && Pow(8, 2) == 64 && Pow(8, 3) == 512 && Pow(8, 4) == 4096;
    assert Pow(8, 5) == 32768 && Pow(8, 6) == 262144 && Pow(8, 7) == 2097152;
  }

  lemma {:induction false} SmallerBase(n: nat)
    ensures Pow(8, n) <= Pow(10, n)
  {
    if n > 0 {
      SmallerBase(n - 1);
      assert Pow(8, n) == 8 * Pow(8, n - 1) && Pow(10, n) == 10 * Pow(10, n - 1);
    }
  }

  lemma {:induction false} StrippedVal(s: seq<Byte>)
    ensures Val(256, Stripped(s, 0)) == Val(256, s)
    decreases |s|
  {
    hide Val;
    if s != [] && s[0] == 0 {
      StrippedVal(s[1..]);
      ValSkipZeros(256, s, 1);
    }
  }

  // ---- Round trips in hexadecimal ----------------------------------------------------------

  lemma HexCharVal(v: int)
    requires 0 <= v < 16
    ensures HexVal(HexChar(v)) == v && HexChar(v) != ' '
  {
  }

  lemma HexCons(s: string)
    requires s != ""
    ensures Hex(s) == match Hex(s[1..])
                      case None => None
                      case Some(rest) =>
                        if s[0] == ' ' then Some(rest) else if HexVal(s[0]) < 0 then None else Some([HexVal(s[0])] + rest)
  {
  }

  lemma {:induction false} HexJoin(a: string, b: string)
    requires Hex(a).Some? && Hex(b).Some?
    ensures Hex(a + b) == Some(Hex(a).value + Hex(b).value)
    decreases |a|
  {
    hide HexVal, Hex;
    var s := a + b;
    if a == "" {
      HexEnd();
      assert s == b && [] + Hex(b).value == Hex(b).value;
    } else {
      HexCons(a);
      HexCons(s);
      assert s[1..] == a[1..] + b && s[0] == a[0];
      HexJoin(a[1..], b);
      if a[0] != ' ' { Associates(HexVal(a[0]), Hex(a[1..]).value, Hex(b).value); }
    }
  }

  lemma Associates(x: int, p: seq<int>, q: seq<int>)
    ensures [x] + (p + q) == [x] + p + q
  {
  }

  lemma OneHex(v: int)
    requires 0 <= v < 16
    ensures Hex([HexChar(v)]) == Some([v])
  {
    HexCharVal(v);
    assert [HexChar(v)][1..] == "" && [v] + [] == [v];
    HexEnd();
  }

  lemma {:induction false} HexOfReads(v: int, n: nat)
    requires Pow(16, n) > 0
    ensures Hex(HexOf(v, n)).Some? && |Hex(HexOf(v, n)).value| == n && Val(16, Hex(HexOf(v, n)).value) == v % Pow(16, n)
    decreases n
  {
    hide Hex, HexVal, HexChar, Pow;
    if n == 0 {
      HexEnd();
      assert Val(16, []) == 0;
      assert Pow(16, 0) == 1 by { PowNone16(); }
    } else {
      PowPositive(16, n - 1);
      NextPow(16, n - 1);
      HexOfReads(v / 16, n - 1);
      var h := Hex(HexOf(v / 16, n - 1)).value;
      OneHex(v % 16);
      HexJoin(HexOf(v / 16, n - 1), [HexChar(v % 16)]);
      assert (h + [v % 16])[..n - 1] == h;
      Nested16(v, Pow(16, n - 1));
    }
  }

  lemma PowNone16()
    ensures Pow(16, 0) == 1
  {
  }

  /** X2D(D2X(n, L), L) is n, for every n in the range of L nibbles, L odd or even, and of DIGITS digits. */
  lemma X2DOfD2X(text: string, v: int, k: nat, n: Settings)
    requires WholeOf(text) == Whole(v) && k > 0 && -(2 * v) <= Pow(16, k) && 2 * v < Pow(16, k) && Abs(v) < Pow(10, n.digits)
    ensures D2XText(text, Some(k)).Given? && Hex(D2XText(text, Some(k)).v).Some?
    ensures ValueText(X2DValue(Hex(D2XText(text, Some(k)).v).value, Some(k)), n) == I32Text(v)
  {
    hide Val, Pow, WholeOf, HexOf, ValueText, I32Text, Hex;
    PowPositive(16, k);
    HexOfReads(v, k);
    EvenPower(16, k);
    SignedWraps(v, Pow(16, k));
    AllOf(Hex(HexOf(v, k)).value);
    PlainText(v, n);
  }

  /** Without a length D2X keeps the low 1008 nibbles: X2D gives the number back if and only if it is below 16^1008. */
  lemma UnsignedX2DOfD2X(text: string, v: nat)
    requires WholeOf(text) == Whole(v)
    ensures D2XText(text, None).Given? && Hex(D2XText(text, None).v).Some?
    ensures X2DValue(Hex(D2XText(text, None).v).value, None) == v <==> v < Pow(16, 1008)
  {
    hide Val, Pow, WholeOf, HexOf, Hex, Stripped, HexChar;
    var k := 2 * UNSIGNED_BYTES;
    PowPositive(16, k);
    HexOfReads(v, k);
    StrippedHex(HexOf(v, k));
    ZeroReads();
    if v < Pow(16, k) { DivModUnique(v, Pow(16, k), 0, v); }
  }

  /** Leading zeros do not count. */
  lemma {:induction false} StrippedHex(t: string)
    requires Hex(t).Some?
    ensures Hex(Stripped(t, '0')).Some? && Val(16, Hex(Stripped(t, '0')).value) == Val(16, Hex(t).value)
    decreases |t|
  {
    hide Val, Hex, HexVal;
    if t != "" && t[0] == '0' {
      HexCons(t);
      assert HexVal('0') == 0 by { HexCharVal(0); }
      StrippedHex(t[1..]);
      ValSkipZeros(16, Hex(t).value, 1);
      assert Hex(t).value[1..] == Hex(t[1..]).value;
    }
  }

  lemma ZeroReads()
    ensures Hex("0") == Some([0]) && Val(16, [0]) == 0 && Hex("") == Some([]) && Val(16, []) == 0
  {
    OneHex(0);
    ValSingle(16, 0);
    assert [HexChar(0)] == "0";
  }
}
