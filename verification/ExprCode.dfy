/** The code of an expression, what the expression means, and that running the one yields the other. */
module ExprCode {
  import opened Options
  import opened NumberText
  import opened ArithOps
  import opened IntegerFastPath
  import opened Bytecode
  import opened VmValues
  import opened VarPool
  import opened CoreVm
  import opened Tokens
  import opened ExprSyntax

  const MAX_CODE := 16384
  const MAX_ENTRIES := 512

  // ---- Interned tables -----------------------------------------------------

  /** Where s is in the table, or would be appended. */
  function Find(t: seq<string>, s: string): (i: nat)
    ensures i <= |t|
    ensures i < |t| ==> t[i] == s
  {
    if t == [] then 0 else if t[0] == s then 0 else 1 + Find(t[1..], s)
  }

  function Intern(t: seq<string>, s: string): (r: seq<string>)
    ensures t <= r && Find(t, s) < |r| && r[Find(t, s)] == s
  {
    if Find(t, s) < |t| then t else t + [s]
  }

  function AddConst(t: Tabs, s: string): Tabs { t.(consts := Intern(t.consts, s)) }

  function AddSym(t: Tabs, s: string): Tabs { t.(syms := Intern(t.syms, s)) }

  predicate Extends(t: Tabs, u: Tabs) { t.consts <= u.consts && t.syms <= u.syms }

  predicate ShortEntries(t: seq<string>) { forall i :: 0 <= i < |t| ==> |t[i]| <= STR_MAX }

  predicate TabsFit(t: Tabs)
  {
    |t.consts| <= MAX_ENTRIES && |t.syms| <= MAX_ENTRIES && ShortEntries(t.consts) && ShortEntries(t.syms)
  }

  // ---- Code ----------------------------------------------------------------

  function PushCode(t: Tabs, s: string): (r: seq<Byte>)
    ensures |r| == 3
  {
    [OP_PUSH_LIT] + Word(Find(t.consts, s))
  }

  function LoadCode(t: Tabs, s: string): (r: seq<Byte>)
    ensures |r| == 3
  {
    [OP_LOAD] + Word(Find(t.syms, s))
  }

  function StoreCode(t: Tabs, s: string): (r: seq<Byte>)
    ensures |r| == 3
  {
    [OP_STORE] + Word(Find(t.syms, s))
  }

  function Chunk(s: string): (c: string)
    ensures |c| <= STR_MAX && c <= s && (s != "" ==> c != "")
  {
    if |s| > STR_MAX then s[..STR_MAX] else s
  }

  /** A literal as entries of at most 63 characters, rejoined by CONCAT. */
  function StrCode(s: string, t: Tabs, first: bool): seq<Byte>
    decreases |s|
  {
    var c := Chunk(s);
    PushCode(t, c) + (if first then [] else [OP_CONCAT])
      + if |c| < |s| then StrCode(s[|c|..], AddConst(t, c), false) else []
  }

  function StrTabs(s: string, t: Tabs): Tabs
    decreases |s|
  {
    var c := Chunk(s);
    if |c| < |s| then StrTabs(s[|c|..], AddConst(t, c)) else AddConst(t, c)
  }

  function TabE(e: Expr, t: Tabs): Tabs
  {
    match e
    case Str(s) => StrTabs(s, t)
    case Lit(s) => AddConst(t, s)
    case Var(n) => AddSym(t, n)
    case Plus(a) => TabE(a, t)
    case Neg(a) => TabE(a, t)
    case Not(a) => TabE(a, t)
    case Bin(_, l, r) => TabE(r, TabE(l, t))
    case Call(n, a) => TabA(a, AddSym(t, n))
    case TooDeep => t
    case CallTooDeep(n) => AddSym(t, n)
  }

  function TabA(a: Args, t: Tabs): Tabs
  {
    match a
    case NoArgs => t
    case Arg(b, e) => TabE(e, TabA(b, t))
    case Omitted(b) => TabA(b, t)
  }

  /** Operands first, then the operator. */
  function CodeE(e: Expr, t: Tabs): seq<Byte>
  {
    match e
    case Str(s) => StrCode(s, t, true)
    case Lit(s) => PushCode(t, s)
    case Var(n) => LoadCode(t, n)
    case Plus(a) => CodeE(a, t)
    case Neg(a) => CodeE(a, t) + [OP_NEG]
    case Not(a) => CodeE(a, t) + [OP_NOT]
    case Bin(op, l, r) => CodeE(l, t) + CodeE(r, TabE(l, t)) + [CodeOf(op)]
    case Call(n, a) => CodeA(a, AddSym(t, n)) + CallCode(OP_CALL_BIF, t, n, CountA(a))
    case TooDeep => [OP_RAISE, SYNTAX_EVAL_STACK]
    case CallTooDeep(_) => [OP_RAISE, SYNTAX_EVAL_STACK]
  }

  /** The arguments in order. */
  function CodeA(a: Args, t: Tabs): seq<Byte>
  {
    match a
    case NoArgs => []
    case Arg(b, e) => CodeA(b, t) + CodeE(e, TabA(b, t))
    case Omitted(b) => CodeA(b, t) + [OP_PUSH_OMITTED]
  }

  function CallCode(op: Byte, t: Tabs, name: string, nargs: nat): (r: seq<Byte>)
    ensures |r| == 4
  {
    [op] + Word(Find(t.syms, name)) + [Lo(nargs)]
  }

  lemma {:induction false} StrTabsGrow(s: string, t: Tabs)
    ensures Extends(t, StrTabs(s, t))
    decreases |s|
  {
    var c := Chunk(s);
    if |c| < |s| { StrTabsGrow(s[|c|..], AddConst(t, c)); }
  }

  lemma {:induction false} TabEGrows(e: Expr, t: Tabs)
    ensures Extends(t, TabE(e, t))
  {
    match e {
      case Str(s) => StrTabsGrow(s, t);
      case Plus(a) => TabEGrows(a, t);
      case Neg(a) => TabEGrows(a, t);
      case Not(a) => TabEGrows(a, t);
      case Bin(_, l, r) => TabEGrows(l, t); TabEGrows(r, TabE(l, t));
      case Call(n, a) => TabAGrows(a, AddSym(t, n));
      case _ =>
    }
  }

  lemma {:induction false} TabAGrows(a: Args, t: Tabs)
    ensures Extends(t, TabA(a, t))
  {
    match a {
      case NoArgs =>
      case Arg(b, e) => TabAGrows(b, t); TabEGrows(e, TabA(b, t));
      case Omitted(b) => TabAGrows(b, t);
    }
  }

  // ---- Meaning ---------------------------------------------------------------

  /** The value of e; a name without a value stands for itself.  What a call answers is not part of this meaning:
  everything said about values is said of expressions without calls. */
  function Eval(e: Expr, p: Pools, n: Settings): Answer
  {
    match e
    case Str(s) => Ok(s)
    case Lit(s) => Ok(s)
    case Var(v) => Ok(if Get(p, v).Some? then Get(p, v).value.text else v)
    case Plus(a) => Eval(a, p, n)
    case Neg(a) => (match Eval(a, p, n) case Ok(x) => Negate(x, n) case f => f)
    case Not(a) => (match Eval(a, p, n) case Ok(x) => Complement(x) case f => f)
    case Bin(op, l, r) =>
      (match Eval(l, p, n)
       case Ok(x) => (match Eval(r, p, n) case Ok(y) => Apply(op, x, y, n) case f => f)
       case f => f)
    case Call(_, _) => Fail(SYNTAX_EVAL_STACK as nat)
    case TooDeep => Fail(SYNTAX_EVAL_STACK as nat)
    case CallTooDeep(_) => Fail(SYNTAX_EVAL_STACK as nat)
  }

  // ---- Running ---------------------------------------------------------------

  predicate PlainPools(p: Pools)
  {
    forall i, n :: 0 <= i < |p| && n in p[i].vars ==> p[i].vars[n].cache.None?
  }

  predicate PlainEnv(e: Env) { !e.fast && !e.novalue }

  predicate ImageOk(im: Image) { |im.code| <= MAX_CODE && TabsFit(im.tabs) }

  /** From c, the VM reaches x in n instructions. */
  ghost predicate Reaches(im: Image, e: Env, c: Core, n: nat, x: Next)
  {
    Steps(im, e, n, Run(c)) == x
  }

  lemma OneStep(im: Image, e: Env, c: Core, i: Instr)
    requires Encodable(i) && c.pc >= 0 && Has(im.code, c.pc, Encode(i))
    ensures |Encode(i)| >= 1
    ensures Reaches(im, e, c, 1, Perform(im.tabs, e, i, c.(pc := c.pc + |Encode(i)|)))
  {
    hide Perform, Decode, Encode, Encodable;
    EncodedIsDecoded(im.code, c.pc, i);
    EncodeNonEmpty(i);
    assert Steps(im, e, 1, Run(c)) == Steps(im, e, 0, CoreStep(im, e, c));
  }

  lemma Then(im: Image, e: Env, c: Core, m: nat, d: Core, n: nat, x: Next)
    requires Reaches(im, e, c, m, Run(d)) && Reaches(im, e, d, n, x)
    ensures Reaches(im, e, c, m + n, x)
  {
    StepsAdd(im, e, m, n, Run(c));
  }

  /** An ended run stays ended. */
  lemma Ended(im: Image, e: Env, c: Core, m: nat, x: Next, n: nat)
    requires Reaches(im, e, c, m, x) && !x.Run?
    ensures Reaches(im, e, c, m + n, x)
  {
    StepsAdd(im, e, m, n, Run(c));
  }

  /** The end of evaluating: the value on the stack behind the code, or the error. */
  ghost predicate Evaluated(c: Core, len: nat, a: Answer, x: Next)
  {
    match a
    case Ok(v) => x == Run(c.(pc := c.pc + len, stack := c.stack + [Plain(v)]))
    case Fail(k) => x.Trap? && x.num == k && x.c.pools == c.pools && x.c.out == c.out
  }

  lemma PushRuns(s: string, t: Tabs, im: Image, e: Env, c: Core)
    requires ImageOk(im) && PlainEnv(e) && c.pc >= 0 && |c.stack| < STACK_DEPTH
    requires Has(im.code, c.pc, PushCode(t, s)) && Extends(AddConst(t, s), im.tabs)
    ensures Reaches(im, e, c, 1, Run(c.(pc := c.pc + 3, stack := c.stack + [Plain(s)])))
  {
    OneStep(im, e, c, IPush(Find(t.consts, s)));
  }

  lemma LoadRuns(s: string, t: Tabs, im: Image, e: Env, c: Core)
    requires ImageOk(im) && PlainEnv(e) && PlainPools(c.pools) && c.pc >= 0 && |c.stack| < STACK_DEPTH
    requires Has(im.code, c.pc, LoadCode(t, s)) && Extends(AddSym(t, s), im.tabs)
    ensures var v := if Get(c.pools, s).Some? then Get(c.pools, s).value.text else s;
            Reaches(im, e, c, 1, Run(c.(pc := c.pc + 3, stack := c.stack + [Plain(v)])))
  {
    hide Owner;
    OneStep(im, e, c, ILoad(Find(t.syms, s)));
  }

  lemma StoreRuns(s: string, t: Tabs, v: string, im: Image, e: Env, c: Core, st: seq<Cell>)
    requires ImageOk(im) && c.pc >= 0 && c.stack == st + [Plain(v)]
    requires Has(im.code, c.pc, StoreCode(t, s)) && Extends(AddSym(t, s), im.tabs)
    ensures Reaches(im, e, c, 1, Run(c.(pc := c.pc + 3, stack := st, pools := Set(c.pools, s, Plain(v)))))
  {
    hide Set;
    OneStep(im, e, c, IStore(Find(t.syms, s)));
    assert (st + [Plain(v)])[..|st|] == st;
  }

  lemma BinaryRuns(op: BinOp, a: string, b: string, im: Image, e: Env, c: Core, st: seq<Cell>)
    requires PlainEnv(e) && c.pc >= 0 && c.stack == st + [Plain(a)] + [Plain(b)] && Has(im.code, c.pc, [CodeOf(op)])
    ensures exists x :: Reaches(im, e, c, 1, x) && Evaluated(c.(stack := st), 1, Apply(op, a, b, e.num), x)
  {
    hide Apply, CodeOf;
    OneStep(im, e, c, IBin(op));
    assert (st + [Plain(a)] + [Plain(b)])[..|st|] == st;
    var c' := c.(pc := c.pc + 1);
    assert Top(c', 1) == Plain(a) && Top(c', 0) == Plain(b);
    var x := Perform(im.tabs, e, IBin(op), c');
    assert x == Give(Pop(c', 2), Apply(op, a, b, e.num));
    assert Reaches(im, e, c, 1, x);
    assert Pop(c', 2) == c.(stack := st, pc := c.pc + 1);
  }

  lemma UnaryRuns(neg: bool, a: string, im: Image, e: Env, c: Core, st: seq<Cell>)
    requires c.pc >= 0 && c.stack == st + [Plain(a)] && Has(im.code, c.pc, [if neg then OP_NEG else OP_NOT])
    ensures exists x :: Reaches(im, e, c, 1, x)
              && Evaluated(c.(stack := st), 1, if neg then Negate(a, e.num) else Complement(a), x)
  {
    hide Negate, Complement;
    var i := if neg then INeg else INot;
    OneStep(im, e, c, i);
    assert (st + [Plain(a)])[..|st|] == st;
    var c' := c.(pc := c.pc + 1);
    assert Top(c', 0) == Plain(a);
    var x := Perform(im.tabs, e, i, c');
    assert Reaches(im, e, c, 1, x);
    assert Pop(c', 1) == c.(stack := st, pc := c.pc + 1);
  }

  lemma {:induction false} StrRuns(s: string, t: Tabs, prefix: string, first: bool, im: Image, e: Env, c: Core, st: seq<Cell>)
    returns (n: nat)
    requires ImageOk(im) && PlainEnv(e) && c.pc >= 0
    requires if first then prefix == "" && c.stack == st else c.stack == st + [Plain(prefix)]
    requires |st| + (if first && |s| <= STR_MAX then 1 else 2) <= STACK_DEPTH
    requires Has(im.code, c.pc, StrCode(s, t, first)) && Extends(StrTabs(s, t), im.tabs)
    ensures n >= 1
    ensures Reaches(im, e, c, n, Run(c.(pc := c.pc + |StrCode(s, t, first)|, stack := st + [Plain(prefix + s)])))
    decreases |s|
  {
    hide Has, Reaches, StrTabs, StrCode, PushCode, AddConst, Extends, ImageOk, PlainEnv, Chunk;
    var k := Chunk(s);
    var t1 := AddConst(t, k);
    var tail := if |k| < |s| then StrCode(s[|k|..], t1, false) else [];
    StrCodeIs(s, t, first);
    HasSplit(im.code, c.pc, PushCode(t, k) + (if first then [] else [OP_CONCAT]), tail);
    ChunkTabs(s, t, im.tabs);
    n := ChunkRuns(k, t, prefix, first, im, e, c, st);
    var c1 := c.(pc := c.pc + 3 + if first then 0 else 1, stack := st + [Plain(prefix + k)]);
    if |k| < |s| {
      var m := StrRuns(s[|k|..], t1, prefix + k, false, im, e, c1, st);
      assert prefix + k + s[|k|..] == prefix + s;
      Then(im, e, c, n, c1, m, Run(c1.(pc := c1.pc + |tail|, stack := st + [Plain(prefix + s)])));
      n := n + m;
    }
  }

  lemma StrCodeIs(s: string, t: Tabs, first: bool)
    ensures var k := Chunk(s);
            && 0 <= |k| <= |s| && |k| <= STR_MAX && (|k| < |s| ==> |k| == STR_MAX) && (|k| == |s| ==> k == s)
            && |PushCode(t, k)| == 3
            && StrCode(s, t, first) == PushCode(t, k) + (if first then [] else [OP_CONCAT])
                 + if |k| < |s| then StrCode(s[|k|..], AddConst(t, k), false) else []
  {
    hide StrCode, AddConst, Find, Word;
    StrCodeUnfolds(s, t, first);
  }

  lemma StrCodeUnfolds(s: string, t: Tabs, first: bool)
    ensures StrCode(s, t, first) == PushCode(t, Chunk(s)) + (if first then [] else [OP_CONCAT])
              + if |Chunk(s)| < |s| then StrCode(s[|Chunk(s)|..], AddConst(t, Chunk(s)), false) else []
  {
    hide PushCode, AddConst;
  }

  /** One piece of a long literal: it is pushed and, behind an earlier piece, joined to it. */
  lemma ChunkRuns(k: string, t: Tabs, prefix: string, first: bool, im: Image, e: Env, c: Core, st: seq<Cell>) returns (n: nat)
    requires ImageOk(im) && PlainEnv(e) && c.pc >= 0 && |PushCode(t, k)| == 3
    requires if first then prefix == "" && c.stack == st else c.stack == st + [Plain(prefix)]
    requires |c.stack| < STACK_DEPTH && Extends(AddConst(t, k), im.tabs)
    requires Has(im.code, c.pc, PushCode(t, k) + (if first then [] else [OP_CONCAT]))
    ensures n >= 1
    ensures Reaches(im, e, c, n, Run(c.(pc := c.pc + 3 + (if first then 0 else 1), stack := st + [Plain(prefix + k)])))
  {
    hide Has, Reaches, PushCode, AddConst, Extends, ImageOk, PlainEnv;
    HasSplit(im.code, c.pc, PushCode(t, k), if first then [] else [OP_CONCAT]);
    PushRuns(k, t, im, e, c);
    n := 1;
    if first {
      assert prefix + k == k;
    } else {
      var c1 := c.(pc := c.pc + 3, stack := st + [Plain(prefix)] + [Plain(k)]);
      ConcatRuns(prefix, k, im, e, c1, st);
      Then(im, e, c, 1, c1, 1, Run(c1.(pc := c1.pc + 1, stack := st + [Plain(prefix + k)])));
      n := 2;
    }
  }

  lemma ChunkTabs(s: string, t: Tabs, u: Tabs)
    requires Extends(StrTabs(s, t), u)
    ensures Extends(AddConst(t, Chunk(s)), u)
    ensures |Chunk(s)| < |s| ==> Extends(StrTabs(s[|Chunk(s)|..], AddConst(t, Chunk(s))), u)
  {
    var k := Chunk(s);
    if |k| < |s| { StrTabsGrow(s[|k|..], AddConst(t, k)); }
  }

  lemma ConcatRuns(a: string, b: string, im: Image, e: Env, c: Core, st: seq<Cell>)
    requires PlainEnv(e) && c.pc >= 0 && c.stack == st + [Plain(a)] + [Plain(b)] && Has(im.code, c.pc, [OP_CONCAT])
    ensures Reaches(im, e, c, 1, Run(c.(pc := c.pc + 1, stack := st + [Plain(a + b)])))
  {
    BinaryRuns(Concat, a, b, im, e, c, st);
  }

  /** Running an expression's code from any stack with room for it leaves the stack with the
  expression's value on top, or raises the expression's error; nothing else changes. */
  lemma {:induction false} ExprRuns(x: Expr, t: Tabs, im: Image, e: Env, c: Core) returns (n: nat, y: Next)
    requires ImageOk(im) && PlainEnv(e) && PlainPools(c.pools) && c.pc >= 0
    requires |c.stack| + Need(x) <= STACK_DEPTH
    requires Has(im.code, c.pc, CodeE(x, t)) && Extends(TabE(x, t), im.tabs)
    ensures n >= 1 && Reaches(im, e, c, n, y)
    ensures Evaluated(c, |CodeE(x, t)|, Eval(x, c.pools, e.num), y)
    decreases x, 1
  {
    hide Has, Reaches, Word, Find, Extends, Apply, Negate, Complement, StrTabs, StrCode, PlainPools, Get;
    match x {
      case Str(s) =>
        n := StrRuns(s, t, "", true, im, e, c, c.stack);
        assert "" + s == s;
        y := Run(c.(pc := c.pc + |CodeE(x, t)|, stack := c.stack + [Plain(s)]));
      case Lit(s) =>
        PushRuns(s, t, im, e, c);
        n, y := 1, Run(c.(pc := c.pc + 3, stack := c.stack + [Plain(s)]));
      case Var(s) =>
        LoadRuns(s, t, im, e, c);
        n, y := 1, Run(c.(pc := c.pc + 3, stack := c.stack + [Plain(if Get(c.pools, s).Some? then Get(c.pools, s).value.text else s)]));
      case Plus(a) => n, y := ExprRuns(a, t, im, e, c);
      case Neg(a) =>
        HasSplit(im.code, c.pc, CodeE(a, t), [OP_NEG]);
        n, y := ExprRuns(a, t, im, e, c);
        if y.Run? { n, y := UnaryAfter(true, Eval(a, c.pools, e.num).text, |CodeE(a, t)|, im, e, c, n, y); }
      case Not(a) =>
        HasSplit(im.code, c.pc, CodeE(a, t), [OP_NOT]);
        n, y := ExprRuns(a, t, im, e, c);
        if y.Run? { n, y := UnaryAfter(false, Eval(a, c.pools, e.num).text, |CodeE(a, t)|, im, e, c, n, y); }
      case Bin(op, l, r) => n, y := BinRuns(op, l, r, t, im, e, c);
      case TooDeep =>
        RaiseRuns(SYNTAX_EVAL_STACK, im, e, c);
        n, y := 1, Trap(SYNTAX_EVAL_STACK as nat, c.(pc := c.pc + 2));
    }
  }

  lemma RaiseRuns(k: Byte, im: Image, e: Env, c: Core)
    requires c.pc >= 0 && Has(im.code, c.pc, [OP_RAISE, k])
    ensures Reaches(im, e, c, 1, Trap(k as nat, c.(pc := c.pc + 2)))
  {
    OneStep(im, e, c, IRaise(k));
  }

  lemma UnaryAfter(neg: bool, a: string, len: nat, im: Image, e: Env, c: Core, m: nat, y0: Next) returns (n: nat, y: Next)
    requires c.pc >= 0 && Has(im.code, c.pc + len, [if neg then OP_NEG else OP_NOT])
    requires m >= 1 && Reaches(im, e, c, m, y0) && Evaluated(c, len, Ok(a), y0)
    ensures n >= 1 && Reaches(im, e, c, n, y)
    ensures Evaluated(c, len + 1, if neg then Negate(a, e.num) else Complement(a), y)
  {
    hide Has, Reaches, Negate, Complement;
    UnaryRuns(neg, a, im, e, y0.c, c.stack);
    y :| Reaches(im, e, y0.c, 1, y)
         && Evaluated(y0.c.(stack := c.stack), 1, if neg then Negate(a, e.num) else Complement(a), y);
    Then(im, e, c, m, y0.c, 1, y);
    n := m + 1;
  }

  lemma EvalBin(op: BinOp, l: Expr, r: Expr, pools: Pools, num: Settings)
    ensures var a, b := Eval(l, pools, num), Eval(r, pools, num);
            Eval(Bin(op, l, r), pools, num) ==
              if a.Fail? then a else if b.Fail? then b else Apply(op, a.text, b.text, num)
  {
    hide Apply;
  }

  lemma BinAfter(op: BinOp, a: string, b: string, im: Image, e: Env, c: Core, m: nat, d: Core, len: nat) returns (n: nat, y: Next)
    requires PlainEnv(e) && c.pc >= 0 && Has(im.code, c.pc + len, [CodeOf(op)])
    requires Reaches(im, e, c, m, Run(d)) && d == c.(pc := c.pc + len, stack := c.stack + [Plain(a)] + [Plain(b)])
    ensures n >= 1 && Reaches(im, e, c, n, y)
    ensures Evaluated(c, len + 1, Apply(op, a, b, e.num), y)
  {
    hide Has, Reaches, Apply, CodeOf, PlainEnv;
    BinaryRuns(op, a, b, im, e, d, c.stack);
    y :| Reaches(im, e, d, 1, y) && Evaluated(d.(stack := c.stack), 1, Apply(op, a, b, e.num), y);
    Then(im, e, c, m, d, 1, y);
    n := m + 1;
  }

  lemma BinRuns(op: BinOp, l: Expr, r: Expr, t: Tabs, im: Image, e: Env, c: Core) returns (n: nat, y: Next)
    requires ImageOk(im) && PlainEnv(e) && PlainPools(c.pools) && c.pc >= 0
    requires |c.stack| + Max(Need(l), 1 + Need(r)) <= STACK_DEPTH
    requires Has(im.code, c.pc, CodeE(l, t) + CodeE(r, TabE(l, t)) + [CodeOf(op)])
    requires Extends(TabE(r, TabE(l, t)), im.tabs)
    ensures n >= 1 && Reaches(im, e, c, n, y)
    ensures Evaluated(c, |CodeE(l, t)| + |CodeE(r, TabE(l, t))| + 1, Eval(Bin(op, l, r), c.pools, e.num), y)
    decreases Bin(op, l, r), 0
  {
    hide Has, Reaches, Apply, CodeOf, CodeE, TabE, PlainPools, PlainEnv, ImageOk, Need, Eval;
    var t1 := TabE(l, t);
    EvalBin(op, l, r, c.pools, e.num);
    var a, b := CodeE(l, t), CodeE(r, t1);
    HasSplit(im.code, c.pc, a + b, [CodeOf(op)]);
    HasSplit(im.code, c.pc, a, b);
    TabEGrows(r, t1);
    n, y := ExprRuns(l, t, im, e, c);
    if y.Run? {
      var c1 := y.c;
      var m, y1 := ExprRuns(r, t1, im, e, c1);
      Then(im, e, c, n, c1, m, y1);
      n, y := n + m, y1;
      if y.Run? {
        var x1, x2 := Eval(l, c.pools, e.num).text, Eval(r, c.pools, e.num).text;
        assert y.c.stack == c.stack + [Plain(x1)] + [Plain(x2)];
        n, y := BinAfter(op, x1, x2, im, e, c, n, y.c, |a| + |b|);
      }
    }
  }
}
