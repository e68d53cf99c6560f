/** DO v = s TO t BY b FOR n over integers: how often it goes round and what v is in the end. */
module ControlledLoops {
  import opened Positional
  import opened Options
  import opened NumberText
  import opened ArithOps
  import opened Comparison
  import opened IntegerFastPath
  import opened Bytecode
  import opened VmValues
  import opened VarPool
  import opened CoreVm
  import opened ExprSyntax
  import opened ExprCode
  import opened StmtSyntax
  import opened StmtCode
  import opened StmtSemantics

  /** How often the body runs for v from s to t by b. */
  function ToCount(s: int, t: int, b: int): (c: nat)
    requires b != 0
  {
    if b > 0 then (if s > t then 0 else (t - s) / b + 1) else if s < t then 0 else (s - t) / -b + 1
  }

  /** The same with FOR n. */
  function Rounds(s: int, t: int, b: int, hasFor: bool, n: int): (c: nat)
    requires b != 0
  {
    var c := ToCount(s, t, b);
    if hasFor then (if n <= 0 then 0 else if n < c then n else c) else c
  }

  /** Going round is right as long as v is on this side of t. */
  predicate OnThisSide(s: int, t: int, b: int) { if b > 0 then s <= t else s >= t }

  lemma CountStep(s: int, t: int, b: int)
    requires b != 0
    ensures ToCount(s, t, b) == if OnThisSide(s, t, b) then ToCount(s + b, t, b) + 1 else 0
  {
    if b > 0 && s <= t {
      if s + b <= t { DivLess(t - s, b); } else { DivSmall(t - s, b); }
    } else if b < 0 && s >= t {
      if s + b >= t { DivLess(s - t, -b); } else { DivSmall(s - t, -b); }
    }
  }

  lemma DivLess(x: int, b: int)
    requires x >= b > 0
    ensures (x - b) / b == x / b - 1
  {
    var q, r := x / b, x % b;
    assert x - b == b * (q - 1) + r;
    DivModUnique(x - b, b, q - 1, r);
  }

  lemma DivSmall(x: int, b: int)
    requires 0 <= x < b
    ensures x / b == 0
  {
  }

  lemma ProductSign(b: int, q: int)
    requires b > 0 && q >= 0
    ensures b * q >= 0
  {
  }

  /** The count is floor((t - s) / b) + 1, but never negative. */
  lemma CountIsFloor(s: int, t: int, b: int, q: int, r: int)
    requires b != 0 && t - s == b * q + r && (if b > 0 then 0 <= r < b else b < r <= 0)
    ensures ToCount(s, t, b) == if q + 1 > 0 then q + 1 else 0
  {
    if b > 0 {
      if s <= t {
        DivModUnique(t - s, b, q, r);
      } else if q >= 0 {
        ProductSign(b, q);
      }
    } else {
      assert s - t == -b * q + -r;
      if s >= t {
        DivModUnique(s - t, -b, q, -r);
      } else if q >= 0 {
        ProductSign(-b, q);
      }
    }
  }

  // ---- Integers in variables -----------------------------------------------------

  /** name holds the integer i, of at most nine digits. */
  ghost predicate Has9(w: World, name: string, i: int)
  {
    Get(w.pools, name).Some? && Get(w.pools, name).value.cache.None?
    && ParseInt32Fast(Get(w.pools, name).value.text) == Some(i)
  }

  predicate Plain9(n: Settings) { n.digits == 9 && n.fuzz == 0 }

  lemma Compares(op: BinOp, a: string, b: string, x: int, y: int, n: Settings)
    requires Comparing(op) && Plain9(n) && ParseInt32Fast(a) == Some(x) && ParseInt32Fast(b) == Some(y)
    ensures Apply(op, a, b, n) == Ok(Truth(Holds(op, x - y)))
  {
    hide ParseInt32Fast, CompareText, TextCompare;
    FastCompare(Cell(a, Some(x)), Cell(b, Some(y)), n);
  }

  lemma SmallNumbers()
    ensures ParseInt32Fast("0") == Some(0) && ParseInt32Fast("1") == Some(1)
  {
    IntTextParses(0);
    IntTextParses(1);
    assert I32Text(0) == "0" && I32Text(1) == "1";
  }

  lemma Connects(op: BinOp, a: bool, b: bool, n: Settings)
    requires Logical(op)
    ensures Apply(op, Truth(a), Truth(b), n) == Ok(Truth(Connect(op, a, b)))
  {
  }

  /** The test the compiler makes up for TO. */
  lemma ToTestDecides(v: string, d: nat, w: World, n: Settings, s: int, t: int, b: int)
    requires Plain9(n) && Has9(w, v, s) && Has9(w, DoSym(d, "LIM"), t) && Has9(w, DoSym(d, "STP"), b)
    ensures Decide(ToTest(v, d), w, n) == if OnThisSide(s, t, b) then Yes else No
  {
    hide ParseInt32Fast, Apply, DoSym, Get;
    SmallNumbers();
    var x, l, p := Get(w.pools, v).value.text, Get(w.pools, DoSym(d, "LIM")).value.text, Get(w.pools, DoSym(d, "STP")).value.text;
    Compares(Gt, p, "0", b, 0, n);
    Compares(Le, x, l, s, t, n);
    Compares(Ge, x, l, s, t, n);
    Connects(And, b > 0, s <= t, n);
    Connects(And, !(b > 0), s >= t, n);
    Connects(Or, b > 0 && s <= t, !(b > 0) && s >= t, n);
    ToTestValue(v, d, w, n, x, l, p, s, t, b);
  }

  lemma ToTestValue(v: string, d: nat, w: World, n: Settings, x: string, l: string, p: string, s: int, t: int, b: int)
    requires Get(w.pools, v).Some? && Get(w.pools, DoSym(d, "LIM")).Some? && Get(w.pools, DoSym(d, "STP")).Some?
    requires x == Get(w.pools, v).value.text && l == Get(w.pools, DoSym(d, "LIM")).value.text
             && p == Get(w.pools, DoSym(d, "STP")).value.text
    requires Apply(Gt, p, "0", n) == Ok(Truth(b > 0)) && Apply(Le, x, l, n) == Ok(Truth(s <= t)) && Apply(Ge, x, l, n) == Ok(Truth(s >= t))
    requires Apply(And, Truth(b > 0), Truth(s <= t), n) == Ok(Truth(b > 0 && s <= t))
    requires Apply(And, Truth(!(b > 0)), Truth(s >= t), n) == Ok(Truth(!(b > 0) && s >= t))
    requires Apply(Or, Truth(b > 0 && s <= t), Truth(!(b > 0) && s >= t), n) == Ok(Truth((b > 0 && s <= t) || (!(b > 0) && s >= t)))
    ensures Decide(ToTest(v, d), w, n) == if (b > 0 && s <= t) || (!(b > 0) && s >= t) then Yes else No
  {
    hide Apply, DoSym, Get;
    var up, down := Bin(And, Bin(Gt, Stride(d), Expr.Lit("0")), Bin(Le, Var(v), Limit(d))),
                    Bin(And, Not(Bin(Gt, Stride(d), Expr.Lit("0"))), Bin(Ge, Var(v), Limit(d)));
    assert Eval(Var(v), w.pools, n) == Ok(x) && Eval(Limit(d), w.pools, n) == Ok(l) && Eval(Stride(d), w.pools, n) == Ok(p);
    assert Eval(Expr.Lit("0"), w.pools, n) == Ok("0");
    assert Eval(Bin(Gt, Stride(d), Expr.Lit("0")), w.pools, n) == Ok(Truth(b > 0));
    assert Eval(Bin(Le, Var(v), Limit(d)), w.pools, n) == Ok(Truth(s <= t));
    assert Eval(Bin(Ge, Var(v), Limit(d)), w.pools, n) == Ok(Truth(s >= t));
    assert Eval(Not(Bin(Gt, Stride(d), Expr.Lit("0"))), w.pools, n) == Ok(Truth(!(b > 0)));
    assert Eval(up, w.pools, n) == Ok(Truth(b > 0 && s <= t));
    assert Eval(down, w.pools, n) == Ok(Truth(!(b > 0) && s >= t));
  }

  lemma ForTestDecides(d: nat, w: World, n: Settings, left: int)
    requires Plain9(n) && Has9(w, DoSym(d, "FOR"), left)
    ensures Decide(ForTest(d), w, n) == if left > 0 then Yes else No
  {
    hide ParseInt32Fast, Apply, DoSym, Get;
    SmallNumbers();
    Compares(Gt, Get(w.pools, DoSym(d, "FOR")).value.text, "0", left, 0, n);
    assert Eval(Remaining(d), w.pools, n) == Ok(Get(w.pools, DoSym(d, "FOR")).value.text);
    assert Eval(Expr.Lit("0"), w.pools, n) == Ok("0");
  }

  lemma Calculates(op: ArithOpcode, a: string, b: string, x: int, y: int, n: Settings)
    requires (op.OpAdd? || op.OpSub?) && Plain9(n) && ParseInt32Fast(a) == Some(x) && ParseInt32Fast(b) == Some(y)
    requires var z := if op.OpAdd? then x + y else x - y; -FAST_MAX <= z <= FAST_MAX
    ensures var z := if op.OpAdd? then x + y else x - y;
            ArithOp(op, a, b, n) == Good(I32Text(z)) && ParseInt32Fast(I32Text(z)) == Some(z)
  {
    hide ParseInt32Fast, ArithOp, I32Text;
    FastPathRefinesEngine(op, Cell(a, Some(x)), Cell(b, Some(y)), n);
    IntTextParses(if op.OpAdd? then x + y else x - y);
  }

  // ---- What a body leaves alone -----------------------------------------------------

  /** s, in d blocks, assigns none of these names, neither itself nor by a loop's made-up variables. */
  predicate Spares(s: Stmt, d: nat, names: set<string>)
    decreases s
  {
    match s
    case Assign(v, _) => v !in names
    case If(_, a, hasElse, b) => Spares(a, d, names) && (hasElse ==> Spares(b, d, names))
    case Select(ws) => SparesW(ws, d + 1, names)
    case Do(k, b) => SparesB(b, d + 1, names) && (k.To? ==> k.v !in names && !Uses(d, names))
    case _ => true
  }

  predicate Uses(d: nat, names: set<string>)
  {
    DoSym(d, "LIM") in names || DoSym(d, "STP") in names || DoSym(d, "FOR") in names
  }

  predicate SparesB(b: Block, d: nat, names: set<string>)
    decreases b
  {
    match b case Done => true case Step(s, r) => Spares(s, d, names) && SparesB(r, d, names)
  }

  predicate SparesW(ws: Whens, d: nat, names: set<string>)
    decreases ws
  {
    match ws
    case When(_, s, r) => Spares(s, d, names) && SparesW(r, d, names)
    case Otherwise(b) => SparesB(b, d, names)
    case NoOtherwise => true
  }

  ghost predicate Same(w: World, u: World, names: set<string>)
  {
    forall x :: x in names ==> Get(w.pools, x) == Get(u.pools, x)
  }

  lemma SetKeeps(name: string, e: Expr, w: World, n: Settings, names: set<string>)
    requires name !in names
    ensures Same(w, AssignTo(name, e, w, n).w, names)
  {
    hide Eval, Get, Set;
    match Eval(e, w.pools, n) {
      case Ok(v) => forall x | x in names ensures Get(w.pools, x) == Get(Store(w, name, v).pools, x) { GetSet(w.pools, name, Plain(v), x); }
      case Fail(_) =>
    }
  }

  lemma SameThrough(a: World, b: World, c: World, names: set<string>)
    requires Same(a, b, names) && Same(b, c, names)
    ensures Same(a, c, names)
  {
    hide Get;
  }

  lemma HeadKeeps(k: DoKind, d: nat, w: World, n: Settings, names: set<string>)
    requires k.To? ==> k.v !in names && !Uses(d, names)
    ensures Same(w, Head(k, d, w, n).0.w, names)
  {
    hide AssignTo, Same, DoSym, Get, Eval;
    SameSelf(w, names);
    if k.To? {
      SetKeeps(k.v, k.start, w, n, names);
      var r1 := AssignTo(k.v, k.start, w, n);
      SetKeeps(DoSym(d, "LIM"), k.limit, r1.w, n, names);
      var r2 := AssignTo(DoSym(d, "LIM"), k.limit, r1.w, n);
      SameThrough(w, r1.w, r2.w, names);
      SetKeeps(DoSym(d, "STP"), k.step, r2.w, n, names);
      var r3 := AssignTo(DoSym(d, "STP"), k.step, r2.w, n);
      SameThrough(w, r2.w, r3.w, names);
      SetKeeps(DoSym(d, "FOR"), k.times, r3.w, n, names);
      SameThrough(w, r3.w, AssignTo(DoSym(d, "FOR"), k.times, r3.w, n).w, names);
    }
  }

  lemma SameSelf(w: World, names: set<string>)
    ensures Same(w, w, names)
  {
  }

  lemma TailKeeps(k: DoKind, d: nat, w: World, n: Settings, names: set<string>)
    requires k.To? ==> k.v !in names && !Uses(d, names)
    ensures Same(w, Tail(k, d, w, n).w, names)
  {
    hide AssignTo, Same, DoSym, Get, Eval;
    SameSelf(w, names);
    if k.To? {
      var e := Bin(Add, Var(k.v), Stride(d));
      SetKeeps(k.v, e, w, n, names);
      var r := AssignTo(k.v, e, w, n);
      var f := Bin(Sub, Remaining(d), Expr.Lit("1"));
      SetKeeps(DoSym(d, "FOR"), f, r.w, n, names);
      SameThrough(w, r.w, AssignTo(DoSym(d, "FOR"), f, r.w, n).w, names);
    }
  }

  lemma {:induction false} ExecKeeps(s: Stmt, d: nat, fuel: nat, w: World, n: Settings, names: set<string>)
    requires Spares(s, d, names)
    ensures Same(w, Exec(s, d, fuel, w, n).w, names)
    decreases fuel, s, 0, 0
  {
    hide AssignTo, Same, DoSym, Get, Eval, Decide, Head, Tail, Uses;
    SameSelf(w, names);
    match s {
      case Assign(v, e) => SetKeeps(v, e, w, n, names);
      case If(_, a, hasElse, b) =>
        ExecKeeps(a, d, fuel, w, n, names);
        if hasElse { ExecKeeps(b, d, fuel, w, n, names); }
      case Select(ws) => WhensKeep(ws, d + 1, fuel, w, n, names);
      case Do(k, b) =>
        var (h, count) := Head(k, d, w, n);
        HeadKeeps(k, d, w, n, names);
        RoundKeeps(b, d + 1, fuel, h.w, n, names);
        CountKeeps(b, d + 1, count, fuel, h.w, n, names);
        LoopKeeps(k, b, d, fuel, h.w, n, names);
        SameThrough(w, h.w, ExecRound(b, d + 1, fuel, h.w, n).w, names);
        SameThrough(w, h.w, ExecCount(b, d + 1, count, fuel, h.w, n).w, names);
        SameThrough(w, h.w, ExecLoop(k, b, d, fuel, h.w, n).w, names);
      case Say(e) => OutKeeps(e, w, n, names);
      case _ =>
    }
  }

  lemma OutKeeps(e: Expr, w: World, n: Settings, names: set<string>)
    ensures Same(w, Exec(Say(e), 0, 0, w, n).w, names)
  {
    hide Eval, Get;
  }

  lemma {:induction false} BlockKeeps(b: Block, d: nat, fuel: nat, w: World, n: Settings, names: set<string>)
    requires SparesB(b, d, names)
    ensures Same(w, ExecBlock(b, d, fuel, w, n).w, names)
    decreases fuel, b, 0, 0
  {
    hide Same, Exec;
    SameSelf(w, names);
    if b.Step? {
      ExecKeeps(b.s, d, fuel, w, n, names);
      var r := Exec(b.s, d, fuel, w, n);
      BlockKeeps(b.rest, d, fuel, r.w, n, names);
      SameThrough(w, r.w, ExecBlock(b.rest, d, fuel, r.w, n).w, names);
    }
  }

  lemma {:induction false} WhensKeep(ws: Whens, d: nat, fuel: nat, w: World, n: Settings, names: set<string>)
    requires SparesW(ws, d, names)
    ensures Same(w, ExecWhens(ws, d, fuel, w, n).w, names)
    decreases fuel, ws, 0, 0
  {
    hide Same, Exec, ExecBlock, Decide;
    SameSelf(w, names);
    match ws {
      case When(_, s, r) =>
        ExecKeeps(s, d, fuel, w, n, names);
        WhensKeep(r, d, fuel, w, n, names);
      case Otherwise(b) => BlockKeeps(b, d, fuel, w, n, names);
      case NoOtherwise =>
    }
  }

  lemma {:induction false} RoundKeeps(b: Block, d: nat, fuel: nat, w: World, n: Settings, names: set<string>)
    requires SparesB(b, d, names)
    ensures Same(w, ExecRound(b, d, fuel, w, n).w, names)
    decreases fuel, b, 0, 1
  {
    hide Same, ExecBlock;
    BlockKeeps(b, d, fuel, w, n, names);
  }

  lemma {:induction false} CountKeeps(b: Block, d: nat, count: int, fuel: nat, w: World, n: Settings, names: set<string>)
    requires SparesB(b, d, names)
    ensures Same(w, ExecCount(b, d, count, fuel, w, n).w, names)
    decreases fuel, b, 1, if count < 0 then 0 else count
  {
    hide Same, ExecRound;
    RoundKeeps(b, d, fuel, w, n, names);
    var r := ExecRound(b, d, fuel, w, n);
    if r.o.Normal? && count > 1 {
      CountKeeps(b, d, count - 1, fuel, r.w, n, names);
      SameThrough(w, r.w, ExecCount(b, d, count - 1, fuel, r.w, n).w, names);
    }
  }

  lemma {:induction false} LoopKeeps(k: DoKind, b: Block, d: nat, fuel: nat, w: World, n: Settings, names: set<string>)
    requires SparesB(b, d + 1, names) && (k.To? ==> k.v !in names && !Uses(d, names))
    ensures Same(w, ExecLoop(k, b, d, fuel, w, n).w, names)
    decreases fuel, b, 2, 0
  {
    hide Same, ExecRound, Test, Tail, DoSym, Uses;
    SameSelf(w, names);
    RoundKeeps(b, d + 1, fuel, w, n, names);
    var r := ExecRound(b, d + 1, fuel, w, n);
    var t := Tail(k, d, r.w, n);
    TailKeeps(k, d, r.w, n, names);
    SameThrough(w, r.w, t.w, names);
    if fuel > 0 {
      LoopKeeps(k, b, d, fuel - 1, t.w, n, names);
      SameThrough(w, t.w, ExecLoop(k, b, d, fuel - 1, t.w, n).w, names);
    }
  }

  // ---- The loop -----------------------------------------------------------------------

  /** The variables a controlled loop relies on. */
  function Control(v: string, d: nat): set<string> { {v, DoSym(d, "LIM"), DoSym(d, "STP"), DoSym(d, "FOR")} }

  /** c rounds, v counting from s by b and what FOR allows counting down. */
  function Repeat(k: DoKind, body: Block, d: nat, c: nat, s: int, b: int, left: int, fuel: nat, w: World, n: Settings): Result
    requires k.To? && fuel > c
    decreases c
  {
    if c == 0 then Result(Left(false), w)
    else
      var r := ExecRound(body, d + 1, fuel, w, n);
      if !r.o.Normal? then r
      else
        var w1 := Store(r.w, k.v, I32Text(s + b));
        var w2 := if k.hasFor then Store(w1, DoSym(d, "FOR"), I32Text(left - 1)) else w1;
        Repeat(k, body, d, c - 1, s + b, b, left - 1, fuel - 1, w2, n)
  }

  /** All values v takes have at most nine digits. */
  predicate Nine(s: int, b: int, c: nat)
  {
    -FAST_MAX <= s <= FAST_MAX && -FAST_MAX <= s + b * c <= FAST_MAX
  }

  /** The loop's variables hold what its header said. */
  ghost predicate Set9(k: DoKind, d: nat, w: World, s: int, t: int, b: int, left: int)
    requires k.To?
  {
    Has9(w, k.v, s) && Has9(w, DoSym(d, "LIM"), t) && Has9(w, DoSym(d, "STP"), b)
    && (k.hasFor ==> Has9(w, DoSym(d, "FOR"), left) && left >= -FAST_MAX)
  }

  lemma {:induction false} LoopRepeats(k: DoKind, body: Block, d: nat, fuel: nat, w: World, n: Settings, s: int, t: int, b: int, left: int)
    requires k.To? && Plain9(n) && b != 0 && Set9(k, d, w, s, t, b, left)
    requires SparesB(body, d + 1, Control(k.v, d)) && k.v != DoSym(d, "LIM") && k.v != DoSym(d, "STP") && k.v != DoSym(d, "FOR")
    requires var c := Rounds(s, t, b, k.hasFor, left); fuel > c && Nine(s, b, c)
    ensures ExecLoop(k, body, d, fuel, w, n) == Repeat(k, body, d, Rounds(s, t, b, k.hasFor, left), s, b, left, fuel, w, n)
    decreases fuel
  {
    hide ExecRound, Decide, Tail, ParseInt32Fast, DoSym, ToTest, ForTest, SparesB, Get, I32Text, ToCount;
    var c := Rounds(s, t, b, k.hasFor, left);
    ToTestDecides(k.v, d, w, n, s, t, b);
    CountStep(s, t, b);
    if k.hasFor { ForTestDecides(d, w, n, left); }
    if c > 0 {
      assert Test(k, d, w, n) == Yes;
      var r := ExecRound(body, d + 1, fuel, w, n);
      RoundKeeps(body, d + 1, fuel, w, n, Control(k.v, d));
      if r.o.Normal? {
        Kept9(k, d, w, r.w, s, t, b, left);
        NineNext(s, b, c);
        TailCounts(k, d, r.w, n, s, t, b, left);
        var w2 := Tail(k, d, r.w, n).w;
        LoopRepeats(k, body, d, fuel - 1, w2, n, s + b, t, b, left - 1);
      }
    } else {
      assert Test(k, d, w, n) == No;
    }
  }

  lemma Kept9(k: DoKind, d: nat, w: World, u: World, s: int, t: int, b: int, left: int)
    requires k.To? && Set9(k, d, w, s, t, b, left) && Same(w, u, Control(k.v, d))
    ensures Set9(k, d, u, s, t, b, left)
  {
    hide Get, ParseInt32Fast, DoSym;
  }

  lemma NineNext(s: int, b: int, c: nat)
    requires Nine(s, b, c) && c > 0
    ensures -FAST_MAX <= s + b <= FAST_MAX && Nine(s + b, b, c - 1)
  {
    assert s + b * c == s + b + b * (c - 1);
    if b >= 0 { assert b * (c - 1) >= 0; } else { assert b * (c - 1) <= 0; }
  }

  lemma TailCounts(k: DoKind, d: nat, w: World, n: Settings, s: int, t: int, b: int, left: int)
    requires k.To? && Plain9(n) && Set9(k, d, w, s, t, b, left)
    requires -FAST_MAX <= s + b <= FAST_MAX && (k.hasFor ==> left > 0)
    requires k.v != DoSym(d, "LIM") && k.v != DoSym(d, "STP") && k.v != DoSym(d, "FOR")
    ensures var w1 := Store(w, k.v, I32Text(s + b));
            var w2 := if k.hasFor then Store(w1, DoSym(d, "FOR"), I32Text(left - 1)) else w1;
            Tail(k, d, w, n) == Result(Normal, w2) && Set9(k, d, w2, s + b, t, b, left - 1)
  {
    hide ParseInt32Fast, DoSym, Get, Set, I32Text, ArithOp;
    var x, p := Get(w.pools, k.v).value.text, Get(w.pools, DoSym(d, "STP")).value.text;
    Calculates(OpAdd, x, p, s, b, n);
    var w1 := Store(w, k.v, I32Text(s + b));
    assert Eval(Bin(Add, Var(k.v), Stride(d)), w.pools, n) == Ok(I32Text(s + b));
    forall m ensures Get(w1.pools, m) == if m == k.v then Some(Plain(I32Text(s + b))) else Get(w.pools, m) {
      GetSet(w.pools, k.v, Plain(I32Text(s + b)), m);
    }
    Suffixes(d);
    if k.hasFor {
      SmallNumbers();
      var f := Get(w.pools, DoSym(d, "FOR")).value.text;
      FastIsNumber(f);
      Calculates(OpSub, f, "1", left, 1, n);
      assert Eval(Bin(Sub, Remaining(d), Expr.Lit("1")), w1.pools, n) == Ok(I32Text(left - 1));
      forall m ensures Get(Store(w1, DoSym(d, "FOR"), I32Text(left - 1)).pools, m)
                       == if m == DoSym(d, "FOR") then Some(Plain(I32Text(left - 1))) else Get(w1.pools, m) {
        GetSet(w1.pools, DoSym(d, "FOR"), Plain(I32Text(left - 1)), m);
      }
    }
  }

  lemma Suffixes(d: nat)
    ensures DoSym(d, "LIM") != DoSym(d, "STP") && DoSym(d, "LIM") != DoSym(d, "FOR") && DoSym(d, "STP") != DoSym(d, "FOR")
  {
    assert DoSym(d, "LIM")[6] == 'L' && DoSym(d, "STP")[6] == 'S' && DoSym(d, "FOR")[6] == 'F';
  }

  // ---- Without LEAVE ----------------------------------------------------------------------

  /** No LEAVE goes to the end of the DO around s. */
  predicate Stays(s: Stmt)
    decreases s
  {
    match s
    case Leave(toSelect) => toSelect
    case If(_, a, hasElse, b) => Stays(a) && (hasElse ==> Stays(b))
    case Select(ws) => StaysW(ws)
    case _ => true
  }

  predicate StaysB(b: Block)
    decreases b
  {
    match b case Done => true case Step(s, r) => Stays(s) && StaysB(r)
  }

  predicate StaysW(ws: Whens)
    decreases ws
  {
    match ws
    case When(_, s, r) => Stays(s) && StaysW(r)
    case Otherwise(b) => StaysB(b)
    case NoOtherwise => true
  }

  lemma {:induction false} StmtStays(s: Stmt, d: nat, fuel: nat, w: World, n: Settings)
    requires Stays(s)
    ensures Exec(s, d, fuel, w, n).o != Left(false)
    decreases fuel, s
  {
    hide Eval, Decide, Head, ExitCode, ExecRound, ExecCount, ExecLoop;
    match s {
      case If(_, a, hasElse, b) =>
        StmtStays(a, d, fuel, w, n);
        if hasElse { StmtStays(b, d, fuel, w, n); }
      case Select(ws) => WhensStay(ws, d + 1, fuel, w, n);
      case Do(k, b) => HeadStays(k, d, w, n);
      case Assign(v, e) => AssignStays(v, e, w, n);
      case _ =>
    }
  }

  lemma AssignStays(v: string, e: Expr, w: World, n: Settings)
    ensures AssignTo(v, e, w, n).o != Left(false)
  {
    hide Eval;
  }

  lemma HeadStays(k: DoKind, d: nat, w: World, n: Settings)
    ensures Head(k, d, w, n).0.o != Left(false)
  {
    hide Eval, DoSym, Set;
  }

  lemma {:induction false} BlockStays(b: Block, d: nat, fuel: nat, w: World, n: Settings)
    requires StaysB(b)
    ensures ExecBlock(b, d, fuel, w, n).o != Left(false)
    decreases fuel, b
  {
    hide Exec;
    if b.Step? {
      StmtStays(b.s, d, fuel, w, n);
      BlockStays(b.rest, d, fuel, Exec(b.s, d, fuel, w, n).w, n);
    }
  }

  lemma {:induction false} WhensStay(ws: Whens, d: nat, fuel: nat, w: World, n: Settings)
    requires StaysW(ws)
    ensures ExecWhens(ws, d, fuel, w, n).o != Left(false)
    decreases fuel, ws
  {
    hide Exec, ExecBlock, Decide;
    match ws {
      case When(_, s, r) => StmtStays(s, d, fuel, w, n); WhensStay(r, d, fuel, w, n);
      case Otherwise(b) => BlockStays(b, d, fuel, w, n);
      case NoOtherwise =>
    }
  }

  /** A loop whose rounds all end normally leaves v at s + c * b. */
  lemma {:induction false} RepeatEnds(k: DoKind, body: Block, d: nat, c: nat, s: int, t: int, b: int, left: int, fuel: nat, w: World, n: Settings)
    requires k.To? && fuel > c && Plain9(n) && Set9(k, d, w, s, t, b, left) && Nine(s, b, c) && (k.hasFor && c > 0 ==> left >= c)
    requires SparesB(body, d + 1, Control(k.v, d)) && k.v != DoSym(d, "LIM") && k.v != DoSym(d, "STP") && k.v != DoSym(d, "FOR")
    requires StaysB(body)
    ensures var r := Repeat(k, body, d, c, s, b, left, fuel, w, n);
            r.o == Left(false) ==> Has9(r.w, k.v, s + b * c)
    decreases c
  {
    hide ParseInt32Fast, DoSym, Get, I32Text, ExecBlock, SparesB, StaysB, Tail, Store;
    if c > 0 {
      var r := ExecRound(body, d + 1, fuel, w, n);
      RoundKeeps(body, d + 1, fuel, w, n, Control(k.v, d));
      BlockStays(body, d + 1, fuel, w, n);
      if r.o.Normal? {
        Kept9(k, d, w, r.w, s, t, b, left);
        NineNext(s, b, c);
        TailCounts(k, d, r.w, n, s, t, b, left);
        var w2 := Tail(k, d, r.w, n).w;
        RepeatEnds(k, body, d, c - 1, s + b, t, b, left - 1, fuel - 1, w2, n);
        assert s + b + b * (c - 1) == s + b * c;
      }
    } else {
      assert s + b * c == s;
    }
  }

  /** DO v = s TO t BY b FOR left, b not 0, over integers that stay within nine digits under DIGITS 9 and FUZZ 0, with
  a body that leaves the loop's variables alone: the emitted test and increment make the body run exactly Rounds
  times, with v at s, s + b, ..., unless a round ends otherwise; and if none does, v ends at s + Rounds * b. */
  lemma ControlledDo(k: DoKind, body: Block, d: nat, fuel: nat, w: World, n: Settings, s: int, t: int, b: int, left: int)
    requires k.To? && Plain9(n) && b != 0
    requires Head(k, d, w, n).0.o.Normal? && Set9(k, d, Head(k, d, w, n).0.w, s, t, b, left)
    requires SparesB(body, d + 1, Control(k.v, d)) && k.v != DoSym(d, "LIM") && k.v != DoSym(d, "STP") && k.v != DoSym(d, "FOR")
    requires var c := Rounds(s, t, b, k.hasFor, left); fuel > c && Nine(s, b, c)
    ensures var c, res := Rounds(s, t, b, k.hasFor, left), Exec(Do(k, body), d, fuel, w, n);
            res == EndOfLoop(Repeat(k, body, d, c, s, b, left, fuel, Head(k, d, w, n).0.w, n))
            && (StaysB(body) && res.o.Normal? ==> Has9(res.w, k.v, s + b * c))
  {
    hide Head, Rounds, ExecLoop, Has9, SparesB, StaysB, DoSym, Nine, Repeat;
    var u, c := Head(k, d, w, n).0.w, Rounds(s, t, b, k.hasFor, left);
    LoopRepeats(k, body, d, fuel, u, n, s, t, b, left);
    FewerThanFor(s, t, b, k.hasFor, left);
    if StaysB(body) {
      RepeatEnds(k, body, d, c, s, t, b, left, fuel, u, n);
      RepeatOutcome(k, body, d, c, s, b, left, fuel, u, n);
    }
  }

  lemma FewerThanFor(s: int, t: int, b: int, hasFor: bool, left: int)
    requires b != 0
    ensures hasFor && left >= 0 ==> Rounds(s, t, b, hasFor, left) <= left
    ensures hasFor && left < 0 ==> Rounds(s, t, b, hasFor, left) == 0
  {
    hide ToCount;
  }

  lemma {:induction false} RepeatOutcome(k: DoKind, body: Block, d: nat, c: nat, s: int, b: int, left: int, fuel: nat, w: World, n: Settings)
    requires k.To? && fuel > c
    ensures Repeat(k, body, d, c, s, b, left, fuel, w, n).o != Normal
    decreases c
  {
    hide ExecRound, DoSym, I32Text, Set;
    if c > 0 {
      var r := ExecRound(body, d + 1, fuel, w, n);
      var w1 := Store(r.w, k.v, I32Text(s + b));
      var w2 := if k.hasFor then Store(w1, DoSym(d, "FOR"), I32Text(left - 1)) else w1;
      RepeatOutcome(k, body, d, c - 1, s + b, b, left - 1, fuel - 1, w2, n);
    }
  }
}
