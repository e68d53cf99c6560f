/** The formatter: a guarded character buffer that stops taking characters when it is full. */
module NumberWriter {
  import opened Positional
  import opened Decimal
  import opened Numbers
  import opened Options
  import opened NumberText

  /** What a buffer of max characters, one of them for the terminator, keeps of s. */
  function Cut(s: string, max: nat): string
    requires max >= 1
  {
    if |s| <= max - 1 then s else s[..max - 1]
  }

  class Buffer {
    const max: nat
    const buf: array<char>
    var pos: nat
    ghost var put: string  // everything offered so far

    ghost predicate Valid()
      reads this, buf
    {
      max >= 1 && buf.Length == max && pos < max && buf[..pos] == Cut(put, max)
    }

    constructor (max: nat)
      requires max >= 1
      ensures Valid() && fresh(buf) && put == "" && this.max == max
    {
      this.max := max;
      buf := new char[max](_ => ' ');
      pos := 0;
      put := "";
    }

    method Put(c: char)
      requires Valid()
      modifies this, buf
      ensures Valid() && put == old(put) + [c]
    {
      if pos < max - 1 {
        buf[pos] := c;
        pos := pos + 1;
      }
      put := put + [c];
    }
  }

  function Chars(s: seq<int>): (t: string)
    requires Digits(10, s)
    ensures |t| == |s| && AllDigits(t)
  {
    seq(|s|, i requires 0 <= i < |s| => CharOf(s[i]))
  }

  /** A canonical record holds exactly the decimal notation of its coefficient. */
  lemma DigitsAreDecimals(n: Number)
    requires n.Valid() && n.Trimmed()
    ensures Decimals(n.Coeff()) == Chars(n.digits[..n.len])
  {
    var s, t := n.digits[..n.len], Decimals(n.Coeff());
    LenOfDigits(s);
    NumsOfDecimals(n.Coeff());
    ValInjective(10, Nums(t), s);
    forall i | 0 <= i < |t| ensures t[i] == Chars(s)[i] {
      assert DigitOf(t[i]) == Nums(t)[i] == s[i];
    }
  }

  lemma LeadingChars(n: Number, to: nat)
    requires n.Valid() && n.Trimmed()
    ensures forall i :: 0 <= i < to ==>
              Leading(Decimals(n.Coeff()), to)[i] == if i < n.len then Chars(n.digits[..n.len])[i] else '0'
  {
    hide Decimals;
    DigitsAreDecimals(n);
  }

  /** Digits from..to of n, zeros where n has none. */
  method PutDigits(b: Buffer, n: Number, from: nat, to: nat)
    requires b.Valid() && n.Valid() && n.Trimmed() && from <= to
    requires {b, b.buf} !! {n, n.digits}
    modifies b, b.buf
    ensures b.Valid()
    ensures b.put == old(b.put) + Leading(Decimals(n.Coeff()), to)[from..]
  {
    hide Decimals, Val, Len10, Leading;
    ghost var t := Leading(Decimals(n.Coeff()), to);
    LeadingChars(n, to);
    var i := from;
    while i < to
      invariant from <= i <= to && b.Valid() && b.put == old(b.put) + t[from..i]
      invariant forall i :: 0 <= i < to ==> t[i] == if i < n.len then Chars(n.digits[..n.len])[i] else '0'
    {
      assert i < n.len ==> n.digits[..n.len][i] == n.digits[i];
      assert t[from..i] + [t[i]] == t[from..i + 1];
      b.Put(if i < n.len then CharOf(n.digits[i]) else '0');
      i := i + 1;
    }
    assert t[from..to] == t[from..];
  }

  /** n's digits with a point after the first before of them, if any remain. */
  method PutPointed(b: Buffer, n: Number, before: nat)
    requires b.Valid() && n.Valid() && n.Trimmed()
    requires {b, b.buf} !! {n, n.digits}
    modifies b, b.buf
    ensures b.Valid() && b.put == old(b.put) + Pointed(Decimals(n.Coeff()), before)
  {
    hide Decimals;
    ghost var ds := Decimals(n.Coeff());
    LenOfDigits(n.digits[..n.len]);
    PutDigits(b, n, 0, before);
    assert Leading(ds, before)[0..] == Leading(ds, before);
    if before < n.len {
      b.Put('.');
      PutDigits(b, n, before, n.len);
      assert Leading(ds, n.len) == ds;
    }
  }

  function Reverse(s: string): (r: string)
    ensures |r| == |s| && forall i :: 0 <= i < |s| ==> r[i] == s[|s| - 1 - i]
  {
    seq(|s|, i requires 0 <= i < |s| => s[|s| - 1 - i])
  }

  /** The exponent digits: lowest first into a small buffer, then turned round in place. */
  method ExponentChars(x: nat) returns (e: array<char>, elen: nat)
    ensures fresh(e) && elen <= e.Length && e[..elen] == LowTen(Decimals(x))
  {
    e := new char[12](_ => ' ');
    elen := 0;
    var rest := x;
    if rest == 0 {
      e[0] := '0';
      elen := 1;
      assert e[..1] == ['0'] == Decimals(0);
    } else {
      assert e[..0] == "" && Reverse("") == "";
      while rest > 0 && elen < 10
        invariant elen <= 10
        invariant Decimals(x) == (if rest > 0 then Decimals(rest) else "") + Reverse(e[..elen])
        decreases rest
      {
        ghost var t := e[..elen];
        e[elen] := CharOf(rest % 10);
        elen := elen + 1;
        assert e[..elen] == t + [CharOf(rest % 10)];
        assert Reverse(e[..elen]) == [CharOf(rest % 10)] + Reverse(t);
        rest := rest / 10;
      }
      assert LowTen(Decimals(x)) == Reverse(e[..elen]);
      ReverseInPlace(e, elen);
    }
  }

  method ReverseInPlace(e: array<char>, n: nat)
    requires n <= e.Length
    modifies e
    ensures e[..n] == Reverse(old(e[..n]))
  {
    var i := 0;
    while i < n / 2
      invariant 0 <= i <= n / 2
      invariant forall k :: 0 <= k < i ==> e[k] == old(e[n - 1 - k]) && e[n - 1 - k] == old(e[k])
      invariant forall k :: i <= k < n - i ==> e[k] == old(e[k])
    {
      e[i], e[n - 1 - i] := e[n - 1 - i], e[i];
      i := i + 1;
    }
  }

  method PutExponent(b: Buffer, x: int)
    requires b.Valid()
    modifies b, b.buf
    ensures b.Valid() && b.put == old(b.put) + ExponentPart(x)
  {
    hide Decimals, LowTen;
    ghost var p := b.put;
    b.Put('E');
    b.Put(if x >= 0 then '+' else '-');
    assert b.put == p + ['E', if x >= 0 then '+' else '-'];
    var e, elen := ExponentChars(if x >= 0 then x else -x);
    PutChars(b, e, elen);
    assert p + ['E', if x >= 0 then '+' else '-'] + LowTen(Decimals(if x >= 0 then x else -x)) == p + ExponentPart(x);
  }

  method PutChars(b: Buffer, e: array<char>, n: nat)
    requires b.Valid() && n <= e.Length && e != b.buf
    modifies b, b.buf
    ensures b.Valid() && b.put == old(b.put) + old(e[..n])
  {
    var i := 0;
    while i < n
      invariant 0 <= i <= n && e[..n] == old(e[..n]) && b.Valid() && b.put == old(b.put) + e[..i]
    {
      assert e[..i] + [e[i]] == e[..i + 1];
      b.Put(e[i]);
      i := i + 1;
    }
  }

  method PutZeros(b: Buffer, n: nat)
    requires b.Valid()
    modifies b, b.buf
    ensures b.Valid() && b.put == old(b.put) + Zeros(n)
  {
    var i := 0;
    while i < n
      invariant 0 <= i <= n && b.Valid() && b.put == old(b.put) + Zeros(i)
    {
      b.Put('0');
      assert Zeros(i) + ['0'] == Zeros(i + 1);
      i := i + 1;
    }
  }

  /** num_format: n as text, as much of it as max - 1 characters hold. */
  method Format(n: Number, d: nat, form: Form, max: nat) returns (s: string)
    requires n.Printable() && max >= 1
    ensures s == Cut(FormatNum(n.Value(), d, form), max)
  {
    hide Val, Norm, Decimals, FormatBody, Cut;
    if n.len == 1 && n.digits[0] == 0 { ZeroValue(n); } else { CanonForm(n); }
    ghost var v, sign := n.Value(), if n.sign then "-" else "";
    var b := new Buffer(max);
    if n.len == 1 && n.digits[0] == 0 {
      b.Put('0');
    } else {
      if n.sign { b.Put('-'); }
      assert b.put == sign;
      PutBody(b, n, d, form);
    }
    assert b.put == FormatNum(v, d, form);
    s := b.buf[..b.pos];
  }

  method PutBody(b: Buffer, n: Number, d: nat, form: Form)
    requires b.Valid() && n.Valid() && n.Trimmed()
    requires {b, b.buf} !! {n, n.digits}
    modifies b, b.buf
    ensures b.Valid() && b.put == old(b.put) + FormatBody(Decimals(n.Coeff()), n.exp + n.len - 1, d, form)
  {
    hide Val, Decimals, Pointed, ExponentPart, Zeros;
    var adj := n.exp + n.len - 1;
    if FIXED_POINT_MIN_EXP <= adj <= d {
      if adj >= 0 { PutPointed(b, n, adj + 1); } else { PutFraction(b, n, -(adj + 1)); }
    } else {
      var before := 1;
      if form.Engineering? {
        before := adj % ENG_EXP_MULTIPLE + 1;
      }
      PutPointed(b, n, before);
      PutExponent(b, adj - (before - 1));
    }
  }

  method PutFraction(b: Buffer, n: Number, zeros: nat)
    requires b.Valid() && n.Valid() && n.Trimmed()
    requires {b, b.buf} !! {n, n.digits}
    modifies b, b.buf
    ensures b.Valid() && b.put == old(b.put) + ("0." + Zeros(zeros) + Decimals(n.Coeff()))
  {
    hide Decimals, Zeros;
    LenOfDigits(n.digits[..n.len]);
    b.Put('0');
    b.Put('.');
    PutZeros(b, zeros);
    PutDigits(b, n, 0, n.len);
    ghost var ds := Decimals(n.Coeff());
    assert Leading(ds, n.len)[0..] == ds;
  }

  lemma ShortZero()
    ensures Len10(0) == 1
  {
  }

  /** num_to_lstr: the buffer has DIGITS + 32 places. */
  method ToText(n: Number, d: nat, form: Form) returns (s: string)
    requires n.Printable()
    ensures s == Cut(FormatNum(n.Value(), d, form), d + 32)
    ensures n.len <= d ==> s == FormatNum(n.Value(), d, form)
  {
    hide Val, Norm, FormatNum;
    if n.len == 1 && n.digits[0] == 0 { ZeroValue(n); ShortZero(); } else { CanonForm(n); }
    s := Format(n, d, form, d + 32);
    if n.len <= d { FormatLength(n.Value(), d, form); }
  }
}
