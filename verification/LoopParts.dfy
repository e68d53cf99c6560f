/** The parts of a DO around its body, run on the VM: header, test at the top, tail behind the body. */
module LoopParts {
  import opened Options
  import opened NumberText
  import opened ArithOps
  import opened IntegerFastPath
  import opened Bytecode
  import opened VmValues
  import opened VarPool
  import opened CoreVm
  import opened ExprSyntax
  import opened ExprCode
  import opened StmtSyntax
  import opened StmtCode
  import opened StmtSemantics
  import opened Placement

  lemma Through(t: Tabs, u: Tabs, v: Tabs)
    requires Extends(t, u) && Extends(u, v)
    ensures Extends(t, v)
  {
  }

  lemma Remains(t: Tabs, u: Tabs, name: string)
    requires Extends(t, u) && name in t.syms
    ensures name in u.syms
  {
    var i :| 0 <= i < |t.syms| && t.syms[i] == name;
    assert u.syms[i] == name;
  }

  /** The end of a straight piece of code: control behind it and the new variables, or the error. */
  ghost predicate Straight(c: Core, next: int, r: Result, y: Next)
  {
    WorldOf(y.c) == r.w
    && (r.o.Normal? ==> y == Run(c.(pc := next, pools := r.w.pools)) && PlainPools(r.w.pools))
    && (!r.o.Normal? ==> r.o.Raised? && y.Trap? && y.num == r.o.num)
  }

  /** One more assignment behind a straight piece. */
  lemma ThenSet(name: string, x: Expr, t: Tabs, im: Image, e: Env, c: Core, next: int, r: Result, m: nat, z: Next)
    returns (n: nat, y: Next)
    requires ImageOk(im) && PlainEnv(e) && next >= 0 && |c.stack| + Need(x) <= STACK_DEPTH
    requires r.o.Normal? && Straight(c, next, r, z) && Reaches(im, e, c, m, z)
    requires Has(im.code, next, SetCode(name, x, t)) && Extends(TabE(x, t), im.tabs) && name in t.syms
    ensures n >= m && Reaches(im, e, c, n, y)
    ensures Straight(c, next + |SetCode(name, x, t)|, AssignTo(name, x, r.w, e.num), y)
  {
    hide Has, Reaches, SetCode, TabE, Extends, PlainPools, AssignTo;
    var k, w := SetRuns(name, x, t, im, e, z.c);
    Then(im, e, c, m, z.c, k, w);
    n, y := m + k, w;
  }

  lemma ToNames(v: string, t: Tabs, d: nat)
    ensures var u := ToTabs(v, t, d);
            v in u.syms && DoSym(d, "LIM") in u.syms && DoSym(d, "STP") in u.syms && Extends(t, u)
  {
    hide DoSym;
    var a := AddSym(t, v);
    var b := AddSym(a, DoSym(d, "LIM"));
    Interned(t, v);
    Interned(a, DoSym(d, "LIM"));
    Interned(b, DoSym(d, "STP"));
    Remains(a, b, v);
    Remains(b, ToTabs(v, t, d), v);
    Remains(b, ToTabs(v, t, d), DoSym(d, "LIM"));
    Through(t, a, b);
    Through(t, b, ToTabs(v, t, d));
  }

  /** The tables while a controlled header is compiled, in order. */
  lemma ToTabsChain(k: DoKind, t: Tabs, d: nat)
    requires k.To?
    ensures var t0 := ToTabs(k.v, t, d);
            var t1 := TabE(k.start, t0);
            var t2 := TabE(k.limit, t1);
            var t3 := TabE(k.step, t2);
            Extends(t0, t1) && Extends(t1, t2) && Extends(t2, t3) && Extends(t3, TestTabs(k, t, d))
            && Extends(TestTabs(k, t, d), HeadTabs(k, t, d))
            && k.v in t0.syms && DoSym(d, "LIM") in t1.syms && DoSym(d, "STP") in t2.syms
            && (k.hasFor ==> DoSym(d, "FOR") in ForTabs(k, t, d).syms)
  {
    hide TabE, DoSym, ToTabs, Extends;
    var t0 := ToTabs(k.v, t, d);
    var t1 := TabE(k.start, t0);
    var t2 := TabE(k.limit, t1);
    var t3 := TabE(k.step, t2);
    ToNames(k.v, t, d);
    TabEGrows(k.start, t0);
    TabEGrows(k.limit, t1);
    TabEGrows(k.step, t2);
    Remains(t0, t1, DoSym(d, "LIM"));
    Remains(t0, t1, DoSym(d, "STP"));
    Remains(t1, t2, DoSym(d, "STP"));
    Same(t3);
    if k.hasFor {
      var t4 := ForTabs(k, t, d);
      Interned(t3, DoSym(d, "FOR"));
      TabEGrows(k.times, t4);
      Through(t3, t4, TestTabs(k, t, d));
      var t5 := TestTabs(k, t, d);
      TabEGrows(ToTest(k.v, d), t5);
      TabEGrows(ForTest(d), TabE(ToTest(k.v, d), t5));
      Through(t5, TabE(ToTest(k.v, d), t5), HeadTabs(k, t, d));
    } else {
      TabEGrows(ToTest(k.v, d), t3);
    }
  }

  lemma Same(t: Tabs)
    ensures Extends(t, t)
  {
  }

  lemma Nothing(im: Image, e: Env, c: Core)
    ensures Reaches(im, e, c, 0, Run(c))
  {
  }

  lemma ToHeadRuns(k: DoKind, t: Tabs, d: nat, im: Image, e: Env, c: Core) returns (n: nat, y: Next)
    requires k.To? && d < CTL_MAX && SmallKind(k)
    requires ImageOk(im) && PlainEnv(e) && PlainPools(c.pools) && c.pc >= 0 && |c.stack| + ROOM <= STACK_DEPTH
    requires Has(im.code, c.pc, HeadCode(k, t, d)) && Extends(HeadTabs(k, t, d), im.tabs)
    ensures Reaches(im, e, c, n, y)
    ensures Straight(c, c.pc + |HeadCode(k, t, d)|, Head(k, d, WorldOf(c), e.num).0, y)
  {
    hide Has, Reaches, SetCode, TabE, Extends, PlainPools, AssignTo, DoSym, ToTabs, HeadTabs, Need;
    var t0 := ToTabs(k.v, t, d);
    var t1 := TabE(k.start, t0);
    var t2 := TabE(k.limit, t1);
    ToTabsChain(k, t, d);
    TabsReach(k, t, d, im.tabs);
    var a, b, s := SetCode(k.v, k.start, t0), SetCode(DoSym(d, "LIM"), k.limit, t1), SetCode(DoSym(d, "STP"), k.step, t2);
    var f := if k.hasFor then SetCode(DoSym(d, "FOR"), k.times, ForTabs(k, t, d)) else [];
    HeadParts(k, t, d, im.code, c.pc, a, b, s, f);
    var r0 := Result(Normal, WorldOf(c));
    Nothing(im, e, c);
    n, y := ThenSet(k.v, k.start, t0, im, e, c, c.pc, r0, 0, Run(c));
    var r := AssignTo(k.v, k.start, r0.w, e.num);
    if r.o.Normal? {
      n, y := ThenSet(DoSym(d, "LIM"), k.limit, t1, im, e, c, c.pc + |a|, r, n, y);
      r := AssignTo(DoSym(d, "LIM"), k.limit, r.w, e.num);
      if r.o.Normal? {
        n, y := ThenSet(DoSym(d, "STP"), k.step, t2, im, e, c, c.pc + |a| + |b|, r, n, y);
        r := AssignTo(DoSym(d, "STP"), k.step, r.w, e.num);
        if r.o.Normal? && k.hasFor {
          n, y := ThenSet(DoSym(d, "FOR"), k.times, ForTabs(k, t, d), im, e, c, c.pc + |a| + |b| + |s|, r, n, y);
        }
      }
    }
  }

  lemma HeadParts(k: DoKind, t: Tabs, d: nat, code: seq<Byte>, pc: nat, a: seq<Byte>, b: seq<Byte>, s: seq<Byte>, f: seq<Byte>)
    requires k.To? && d < CTL_MAX
    requires var t0 := ToTabs(k.v, t, d);
             var t1 := TabE(k.start, t0);
             a == SetCode(k.v, k.start, t0) && b == SetCode(DoSym(d, "LIM"), k.limit, t1)
             && s == SetCode(DoSym(d, "STP"), k.step, TabE(k.limit, t1))
    requires f == if k.hasFor then SetCode(DoSym(d, "FOR"), k.times, ForTabs(k, t, d)) else []
    requires Has(code, pc, HeadCode(k, t, d))
    ensures HeadCode(k, t, d) == a + b + s + f
    ensures Has(code, pc, a) && Has(code, pc + |a|, b) && Has(code, pc + |a| + |b|, s) && Has(code, pc + |a| + |b| + |s|, f)
  {
    hide Has, SetCode, TabE, ToTabs, DoSym;
    HasSplit(code, pc, a + b + s, f);
    HasSplit(code, pc, a + b, s);
    HasSplit(code, pc, a, b);
  }

  lemma TabsReach(k: DoKind, t: Tabs, d: nat, u: Tabs)
    requires k.To? && Extends(HeadTabs(k, t, d), u)
    ensures var t1 := TabE(k.start, ToTabs(k.v, t, d));
            var t2 := TabE(k.limit, t1);
            Extends(t1, u) && Extends(t2, u) && Extends(TabE(k.step, t2), u) && Extends(TestTabs(k, t, d), u)
  {
    hide TabE, DoSym, ToTabs, HeadTabs, TestTabs;
    ToTabsChain(k, t, d);
  }

  // ---- The test at the top -------------------------------------------------------

  lemma SmallTests(v: string, d: nat)
    ensures Small(ToTest(v, d)) && Small(ForTest(d)) && Small(Bin(Add, Var(v), Stride(d)))
    ensures Small(Bin(Sub, Remaining(d), Expr.Lit("1")))
  {
    hide DoSym;
    var zero := Expr.Lit("0");
    assert Need(Bin(Gt, Stride(d), zero)) == 2 && Need(Bin(Le, Var(v), Limit(d))) == 2 && Need(Bin(Ge, Var(v), Limit(d))) == 2;
    assert Need(Not(Bin(Gt, Stride(d), zero))) == 2;
    assert Need(Bin(And, Bin(Gt, Stride(d), zero), Bin(Le, Var(v), Limit(d)))) == 3;
    assert Need(Bin(And, Not(Bin(Gt, Stride(d), zero)), Bin(Ge, Var(v), Limit(d)))) == 3;
    assert Need(ToTest(v, d)) == 4 && Need(ForTest(d)) == 2;
    assert Need(Bin(Add, Var(v), Stride(d))) == 2 && Need(Bin(Sub, Remaining(d), Expr.Lit("1"))) == 2;
  }

  /** Where control is after the test. */
  ghost predicate Tested(c: Core, next: int, leave: int, v: Verdict, y: Next)
  {
    match v
    case Yes => y == Run(c.(pc := next))
    case No => y == Run(c.(pc := leave))
    case Error(k) => y.Trap? && y.num == k && WorldOf(y.c) == WorldOf(c)
  }

  lemma WhileRuns(x: Expr, t: Tabs, rest: nat, g: Targets, im: Image, e: Env, c: Core) returns (n: nat, y: Next)
    requires Small(x) && Ready(im, e, c, g)
    requires Placed(im.code, c.pc, Bytes(CodeE(x, t)) + Jump(OP_JF, rest), g) && Extends(TabE(x, t), im.tabs)
    requires c.pc + |CodeE(x, t)| + 3 + rest <= |im.code|
    ensures n >= 1 && Reaches(im, e, c, n, y)
    ensures Tested(c, c.pc + |CodeE(x, t)| + 3, c.pc + |CodeE(x, t)| + 3 + rest, Decide(x, WorldOf(c), e.num), y)
  {
    hide Has, Reaches, CodeE, TabE, Extends, PlainPools, Placed, Decide, Word, Bytes, Need;
    var q := c.pc + |CodeE(x, t)|;
    PlacedSplit(im.code, c.pc, Bytes(CodeE(x, t)), Jump(OP_JF, rest), g);
    PlacedBytes(im.code, c.pc, CodeE(x, t), g);
    PlacedBytes(im.code, q, [OP_JF] + Word(rest), g);
    assert q + 3 + rest - (q + 3) == rest;
    n, y := CondRuns(x, false, q + 3 + rest, t, im, e, c);
  }

  lemma ForCondRuns(x: Expr, on: bool, t: Tabs, g: Targets, im: Image, e: Env, c: Core) returns (n: nat, y: Next)
    requires Small(x) && Ready(im, e, c, g)
    requires Placed(im.code, c.pc, Bytes(CodeE(x, t)) + HoleJump(if on then OP_JT else OP_JF, LeaveHole), g)
    requires Extends(TabE(x, t), im.tabs)
    ensures n >= 1 && Reaches(im, e, c, n, y)
    ensures Branched(c, on, c.pc + |CodeE(x, t)| + 3, g.leave, Decide(x, WorldOf(c), e.num), y)
  {
    hide Has, Reaches, CodeE, TabE, Extends, PlainPools, Placed, Decide, Word, Bytes, Need;
    var op := if on then OP_JT else OP_JF;
    PlacedSplit(im.code, c.pc, Bytes(CodeE(x, t)), HoleJump(op, LeaveHole), g);
    PlacedBytes(im.code, c.pc, CodeE(x, t), g);
    PlacedHole(im.code, c.pc + |CodeE(x, t)|, op, LeaveHole, g);
    n, y := CondRuns(x, on, g.leave, t, im, e, c);
  }

  lemma TestRuns(k: DoKind, t: Tabs, d: nat, rest: nat, g: Targets, im: Image, e: Env, c: Core) returns (n: nat, y: Next)
    requires SmallKind(k) && Ready(im, e, c, g)
    requires Placed(im.code, c.pc, TestCells(k, t, d, rest), g) && Extends(HeadTabs(k, t, d), im.tabs)
    requires g.leave == c.pc + |TestCells(k, t, d, rest)| + rest
    ensures Reaches(im, e, c, n, y)
    ensures Tested(c, c.pc + |TestCells(k, t, d, rest)|, g.leave, Test(k, d, WorldOf(c), e.num), y)
  {
    hide Has, Reaches, CodeE, TabE, Extends, PlainPools, Placed, Decide, Need, ToTest, ForTest, TestTabs;
    match k {
      case While(x) => n, y := WhileRuns(x, t, rest, g, im, e, c);
      case To(v, _, _, _, hasFor, _) => n, y := ToTestRuns(k, t, d, rest, g, im, e, c);
      case _ =>
        Nothing(im, e, c);
        n, y := 0, Run(c);
    }
  }

  lemma ToTestRuns(k: DoKind, t: Tabs, d: nat, rest: nat, g: Targets, im: Image, e: Env, c: Core) returns (n: nat, y: Next)
    requires k.To? && Ready(im, e, c, g)
    requires Placed(im.code, c.pc, TestCells(k, t, d, rest), g) && Extends(HeadTabs(k, t, d), im.tabs)
    requires g.leave == c.pc + |TestCells(k, t, d, rest)| + rest
    ensures Reaches(im, e, c, n, y)
    ensures Tested(c, c.pc + |TestCells(k, t, d, rest)|, g.leave, Test(k, d, WorldOf(c), e.num), y)
  {
    hide Has, Reaches, CodeE, TabE, PlainPools, Placed, Decide, Need, ToTest, ForTest, TestTabs, Bytes, Word, HeadTabs;
    var t1 := TestTabs(k, t, d);
    var x := ToTest(k.v, d);
    var t2 := TabE(x, t1);
    var f := ForCells(k, t, d);
    var a := Bytes(CodeE(x, t1)) + Jump(OP_JF, |f| + rest);
    assert TestCells(k, t, d, rest) == a + f;
    hide TestCells, Jump;
    PlacedSplit(im.code, c.pc, a, f, g);
    SmallTests(k.v, d);
    TestTabsEnd(k, t, d);
    n, y := WhileRuns(x, t1, |f| + rest, g, im, e, c);
    if Decide(x, WorldOf(c), e.num).Yes? && k.hasFor {
      var m, z := ForCondRuns(ForTest(d), false, t2, g, im, e, y.c);
      Then(im, e, c, n, y.c, m, z);
      n, y := n + m, z;
    }
  }

  lemma TestTabsEnd(k: DoKind, t: Tabs, d: nat)
    requires k.To?
    ensures var t2 := TabE(ToTest(k.v, d), TestTabs(k, t, d));
            HeadTabs(k, t, d) == (if k.hasFor then TabE(ForTest(d), t2) else t2) && Extends(t2, HeadTabs(k, t, d))
  {
    hide TabE, ToTest, ForTest, ToTabs;
    var t2 := TabE(ToTest(k.v, d), TestTabs(k, t, d));
    TabEGrows(ForTest(d), t2);
  }

  // ---- Behind the body -------------------------------------------------------------

  ghost predicate Tailed(c: Core, next: int, leave: int, r: Result, y: Next)
  {
    match r.o
    case Normal => y == Run(c.(pc := next, pools := r.w.pools)) && r.w.out == c.out && PlainPools(r.w.pools)
    case Raised(k) => y.Trap? && y.num == k && WorldOf(y.c) == r.w
    case Left(_) => r.o == Left(false) && y == Run(c.(pc := leave)) && r.w == WorldOf(c)
    case _ => false
  }

  lemma TailRuns(k: DoKind, t: Tabs, d: nat, g: Targets, im: Image, e: Env, c: Core) returns (n: nat, y: Next)
    requires !k.Count? && d < CTL_MAX && SmallKind(k) && Ready(im, e, c, g)
    requires Placed(im.code, c.pc, TailCells(k, t, d), g) && Extends(TailTabs(k, t, d), im.tabs)
    requires k.To? ==> k.v in t.syms && (k.hasFor ==> DoSym(d, "FOR") in t.syms)
    ensures Reaches(im, e, c, n, y)
    ensures Tailed(c, c.pc + |TailCells(k, t, d)|, g.leave, Tail(k, d, WorldOf(c), e.num), y)
  {
    hide Has, Reaches, CodeE, TabE, Extends, PlainPools, Placed, Decide, Need, Bytes, SetCode, DoSym;
    if k.Until? {
      n, y := ForCondRuns(k.c, true, t, g, im, e, c);
    } else if k.To? {
      n, y := ToTailRuns(k, t, d, g, im, e, c);
    } else {
      Nothing(im, e, c);
      n, y := 0, Run(c);
    }
  }

  lemma ToTailRuns(k: DoKind, t: Tabs, d: nat, g: Targets, im: Image, e: Env, c: Core) returns (n: nat, y: Next)
    requires k.To? && d < CTL_MAX && Ready(im, e, c, g)
    requires Placed(im.code, c.pc, TailCells(k, t, d), g) && Extends(TailTabs(k, t, d), im.tabs)
    requires k.v in t.syms && (k.hasFor ==> DoSym(d, "FOR") in t.syms)
    ensures Reaches(im, e, c, n, y)
    ensures Tailed(c, c.pc + |TailCells(k, t, d)|, g.leave, Tail(k, d, WorldOf(c), e.num), y)
  {
    hide Has, Reaches, TabE, PlainPools, Placed, Need, SetCode, DoSym, AssignTo, Bytes;
    var x, z := Bin(Add, Var(k.v), Stride(d)), Bin(Sub, Remaining(d), Expr.Lit("1"));
    var t1 := TabE(x, t);
    var a := SetCode(k.v, x, t);
    var b := if k.hasFor then SetCode(DoSym(d, "FOR"), z, t1) else [];
    assert TailCells(k, t, d) == Bytes(a + b);
    PlacedBytes(im.code, c.pc, a + b, g);
    HasSplit(im.code, c.pc, a, b);
    TabEGrows(x, t);
    TabEGrows(z, t1);
    SmallTests(k.v, d);
    var r0 := Result(Normal, WorldOf(c));
    Nothing(im, e, c);
    n, y := ThenSet(k.v, x, t, im, e, c, c.pc, r0, 0, Run(c));
    var r := AssignTo(k.v, x, r0.w, e.num);
    AssignKeepsOut(k.v, x, r0.w, e.num);
    if r.o.Normal? && k.hasFor {
      Remains(t, t1, DoSym(d, "FOR"));
      n, y := ThenSet(DoSym(d, "FOR"), z, t1, im, e, c, c.pc + |a|, r, n, y);
      AssignKeepsOut(DoSym(d, "FOR"), z, r.w, e.num);
    }
  }

  lemma AssignKeepsOut(name: string, x: Expr, w: World, n: Settings)
    ensures AssignTo(name, x, w, n).w.out == w.out
    ensures AssignTo(name, x, w, n).o.Normal? || AssignTo(name, x, w, n).o.Raised?
  {
  }
}
