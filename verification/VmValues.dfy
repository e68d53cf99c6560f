/** What the VM's operators do to the texts on its stack. */
module VmValues {
  import opened Positional
  import opened Decimal
  import opened AddSubMul
  import opened Options
  import opened NumberText
  import opened ArithOps
  import opened Comparison
  import opened IntegerFastPath
  import opened Bytecode

  /** An operator's answer, or the number of the SYNTAX error it raises. */
  datatype Answer = Ok(text: string) | Fail(num: nat)

  function Truth(b: bool): string { if b then "1" else "0" }

  function BoolOf(s: string): Option<bool>
  {
    if s == "0" then Some(false) else if s == "1" then Some(true) else None
  }

  /** memcmp over the common length: the sign of the first difference. */
  function Differ(a: string, b: string): int
  {
    if a == "" || b == "" then 0
    else if a[0] == b[0] then Differ(a[1..], b[1..])
    else if a[0] < b[0] then -1 else 1
  }

  function TextCompare(a: string, b: string): int
  {
    if Differ(a, b) != 0 then Differ(a, b) else |a| - |b|
  }

  function LooseCompare(a: string, b: string, n: Settings): int
  {
    match CompareText(a, b, n)
    case Some(c) => c
    case None => TextCompare(a, b)
  }

  predicate Arithmetic(op: BinOp)
  {
    op.Add? || op.Sub? || op.Mul? || op.Div? || op.IDiv? || op.Mod? || op.Power?
  }

  predicate Comparing(op: BinOp)
  {
    op.Eq? || op.Ne? || op.Lt? || op.Le? || op.Gt? || op.Ge?
  }

  predicate Strict(op: BinOp)
  {
    op.Deq? || op.Dne? || op.Dlt? || op.Dle? || op.Dgt? || op.Dge?
  }

  predicate Logical(op: BinOp) { op.And? || op.Or? || op.Xor? }

  function ArithCode(op: BinOp): ArithOpcode
    requires Arithmetic(op)
  {
    match op
    case Add => OpAdd case Sub => OpSub case Mul => OpMul case Div => OpDiv
    case IDiv => OpIntDiv case Mod => OpMod case Power => OpPower
  }

  function Holds(op: BinOp, c: int): bool
    requires Comparing(op) || Strict(op)
  {
    match op
    case Eq => c == 0 case Ne => c != 0 case Lt => c < 0 case Le => c <= 0 case Gt => c > 0 case Ge => c >= 0
    case Deq => c == 0 case Dne => c != 0 case Dlt => c < 0 case Dle => c <= 0 case Dgt => c > 0 case Dge => c >= 0
  }

  function Connect(op: BinOp, a: bool, b: bool): bool
    requires Logical(op)
  {
    match op case And => a && b case Or => a || b case Xor => a != b
  }

  function Numbered(r: Outcome<string>): Answer
  {
    match r
    case Good(v) => Ok(v)
    case Syntax => Fail(SYNTAX_BAD_ARITH)
    case DivZero => Fail(SYNTAX_OVERFLOW)
  }

  /** The value of a binary operator. */
  function Apply(op: BinOp, a: string, b: string, n: Settings): Answer
  {
    if Arithmetic(op) then Numbered(ArithOp(ArithCode(op), a, b, n))
    else if Comparing(op) then Ok(Truth(Holds(op, LooseCompare(a, b, n))))
    else if Strict(op) then Ok(Truth(Holds(op, TextCompare(a, b))))
    else if Logical(op) then
      if BoolOf(a).None? || BoolOf(b).None? then Fail(SYNTAX_BAD_BOOL)
      else Ok(Truth(Connect(op, BoolOf(a).value, BoolOf(b).value)))
    else if op.Concat? then Ok(a + b)
    else Ok(a + " " + b)
  }

  function Negate(a: string, n: Settings): Answer
  {
    Numbered(ArithOp(OpNeg, a, "", n))
  }

  function Complement(a: string): Answer
  {
    if BoolOf(a).None? then Fail(SYNTAX_BAD_BOOL) else Ok(Truth(!BoolOf(a).value))
  }

  // ---- slot_to_int32 -----------------------------------------------------

  function Wrap32(v: int): (r: int)
    ensures -0x8000_0000 <= r < 0x8000_0000
    ensures -0x8000_0000 <= v < 0x8000_0000 ==> r == v
  {
    (v + 0x8000_0000) % 0x1_0000_0000 - 0x8000_0000
  }

  /** Digits of s from i on behind v, in 32-bit arithmetic; 0 if there is anything else. */
  function CountDigits(s: string, i: nat, v: int, neg: bool): int
    requires i <= |s|
    decreases |s| - i
  {
    if i == |s| then (if neg then Wrap32(-v) else v)
    else if !IsDigit(s[i]) then 0
    else CountDigits(s, i + 1, Wrap32(v * 10 + DigitOf(s[i])), neg)
  }

  /** A DO count: the integer a text stands for, 0 for anything else. */
  function CountOf(s: string): int
  {
    if s == "" then 0 else CountDigits(s, SignLength(s), 0, Negative(s))
  }

  lemma {:induction false} CountIsFast(s: string, i: nat, v: nat, neg: bool)
    requires i <= |s| && v <= FAST_MAX && FastDigits(s, i, v).Some?
    ensures CountDigits(s, i, v, neg) == Sgn(neg, FastDigits(s, i, v).value)
    decreases |s| - i
  {
    if i < |s| { CountIsFast(s, i + 1, v * 10 + DigitOf(s[i]), neg); }
  }

  /** On the integers the VM caches, the count is the cached value. */
  lemma CachedCount(s: string)
    requires ParseInt32Fast(s).Some?
    ensures CountOf(s) == ParseInt32Fast(s).value
  {
    CountIsFast(s, SignLength(s), 0, Negative(s));
  }

  /** An exit code: leading digits only, in 32-bit arithmetic. */
  function ExitDigits(s: string, i: nat, v: int): int
    requires i <= |s|
    decreases |s| - i
  {
    if i < |s| && IsDigit(s[i]) then ExitDigits(s, i + 1, Wrap32(v * 10 + DigitOf(s[i]))) else v
  }

  function ExitCode(s: string): int
  {
    var v := ExitDigits(s, SignLength(s), 0);
    if Negative(s) then Wrap32(-v) else v
  }
}

/** Variable pools: PROCEDURE stacks a new one that shares only what it exposes. */
module VarPool {
  import opened Options
  import opened NumberText
  import opened IntegerFastPath

  datatype Scope = Scope(vars: map<string, Cell>, exposed: set<string>)

  type Pools = p: seq<Scope> | |p| >= 1 witness [Scope(map[], {})]

  /** The scope a name belongs to: an exposed name belongs to the caller. */
  function Owner(p: Pools, name: string): (i: nat)
    ensures i < |p|
    decreases |p|
  {
    if |p| > 1 && name in p[|p| - 1].exposed then Owner(p[..|p| - 1], name) else |p| - 1
  }

  function Get(p: Pools, name: string): Option<Cell>
  {
    var vars := p[Owner(p, name)].vars;
    if name in vars then Some(vars[name]) else None
  }

  function Set(p: Pools, name: string, v: Cell): (q: Pools)
    ensures |q| == |p|
  {
    var i := Owner(p, name);
    p[i := p[i].(vars := p[i].vars[name := v])]
  }

  function Drop(p: Pools, name: string): (q: Pools)
    ensures |q| == |p|
  {
    var i := Owner(p, name);
    p[i := p[i].(vars := p[i].vars - {name})]
  }

  ghost predicate SameExposed(p: Pools, q: Pools)
  {
    |p| == |q| && forall i :: 0 <= i < |p| ==> p[i].exposed == q[i].exposed
  }

  lemma {:induction false} OwnerSame(p: Pools, q: Pools, name: string)
    requires SameExposed(p, q)
    ensures Owner(p, name) == Owner(q, name)
    decreases |p|
  {
    if |p| > 1 && name in p[|p| - 1].exposed { OwnerSame(p[..|p| - 1], q[..|q| - 1], name); }
  }

  /** A variable is read as it was last set; setting it changes no other. */
  lemma GetSet(p: Pools, n: string, v: Cell, m: string)
    ensures Get(Set(p, n, v), m) == if m == n then Some(v) else Get(p, m)
  {
    hide Owner;
    OwnerSame(p, Set(p, n, v), m);
  }

}
