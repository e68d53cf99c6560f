/** The theorem the two stages of the program are for: running a statement's code is executing the statement. */
module Simulation {
  import opened Options
  import opened NumberText
  import opened ArithOps
  import opened IntegerFastPath
  import opened Bytecode
  import opened VmValues
  import opened VarPool
  import opened CoreVm
  import opened ExprSyntax
  import opened ExprCode
  import opened StmtSyntax
  import opened StmtCode
  import opened StmtSemantics
  import opened Placement
  import opened LoopParts

  lemma {:induction false} TailGrows(k: DoKind, t: Tabs, d: nat)
    ensures Extends(t, TailTabs(k, t, d))
  {
    hide TabE, DoSym;
    match k {
      case Until(c) => TabEGrows(c, t);
      case To(v, _, _, _, _, _) =>
        var t1 := TabE(Bin(Add, Var(v), Stride(d)), t);
        TabEGrows(Bin(Add, Var(v), Stride(d)), t);
        TabEGrows(Bin(Sub, Remaining(d), Expr.Lit("1")), t1);
      case _ =>
    }
  }

  lemma HeadGrows(k: DoKind, t: Tabs, d: nat)
    ensures Extends(t, HeadTabs(k, t, d))
  {
    hide TabE, DoSym, ToTabs, TestTabs;
    match k {
      case Count(x) => TabEGrows(x, t);
      case While(x) => TabEGrows(x, t);
      case To(v, _, _, _, _, _) => ToTabsChain(k, t, d); ToNames(v, t, d);
      case _ =>
    }
  }

  lemma {:induction false} TabSGrows(s: Stmt, t: Tabs, d: nat)
    ensures Extends(t, TabS(s, t, d))
    decreases s
  {
    hide TabE, AddSym, HeadTabs, TailTabs;
    match s {
      case Label(n) => Interned(t, n);
      case Assign(n, x) => Interned(t, n); TabEGrows(x, AddSym(t, n));
      case Say(x) => TabEGrows(x, t);
      case ExitWith(x) => TabEGrows(x, t);
      case CallTo(n, a) => Interned(t, n); TabAGrows(a, AddSym(t, n));
      case ReturnWith(x) => TabEGrows(x, t);
      case If(c, a, _, b) =>
        TabEGrows(c, t);
        TabSGrows(a, TabE(c, t), d);
        TabSGrows(b, TabS(a, TabE(c, t), d), d);
      case Select(ws) => TabWGrows(ws, t, d + 1);
      case Do(k, b) =>
        HeadGrows(k, t, d);
        TabBGrows(b, HeadTabs(k, t, d), d + 1);
        TailGrows(k, TabB(b, HeadTabs(k, t, d), d + 1), d);
      case _ =>
    }
  }

  lemma {:induction false} TabBGrows(b: Block, t: Tabs, d: nat)
    ensures Extends(t, TabB(b, t, d))
    decreases b
  {
    if b.Step? { TabSGrows(b.s, t, d); TabBGrows(b.rest, TabS(b.s, t, d), d); }
  }

  lemma {:induction false} TabWGrows(ws: Whens, t: Tabs, d: nat)
    ensures Extends(t, TabW(ws, t, d))
    decreases ws
  {
    hide TabE;
    match ws {
      case When(c, s, r) =>
        TabEGrows(c, t);
        TabSGrows(s, TabE(c, t), d);
        TabWGrows(r, TabS(s, TabE(c, t), d), d);
      case Otherwise(b) => TabBGrows(b, t, d);
      case NoOtherwise =>
    }
  }

  /** y is the end of a statement started in c. */
  ghost predicate Sim(c: Core, keep: int, end: int, g: Targets, fuel: nat, r: Result, n: nat, y: Next)
  {
    Simulated(c.stack, c.counters, keep, end, g, fuel, r, n, y)
  }

  /** A run of m instructions to c1, which kept stack and counters, in front of a simulated one. */
  lemma After(im: Image, e: Env, c: Core, m: nat, c1: Core, n: nat, y: Next, keep: int, keep1: int, end: int, g: Targets,
              fuel: nat, fuel1: nat, r: Result)
    requires Reaches(im, e, c, m, Run(c1)) && Reaches(im, e, c1, n, y) && Sim(c1, keep1, end, g, fuel1, r, n, y)
    requires c1.stack == c.stack && Kept(c.counters, c1.counters, keep) && keep <= keep1 && fuel <= fuel1 + m
    ensures Reaches(im, e, c, m + n, y) && Sim(c, keep, end, g, fuel, r, m + n, y)
  {
    hide Reaches;
    Then(im, e, c, m, c1, n, y);
    SimulatedFrom(c.stack, c.counters, keep, c1.counters, keep1, end, g, fuel, fuel1, r, n, m, y);
  }

  lemma KeptAll(cs: seq<int>, n: int)
    ensures Kept(cs, cs, n)
  {
  }

  // ---- Straight statements -----------------------------------------------------

  lemma StraightRuns(s: Stmt, t: Tabs, d: nat, fuel: nat, im: Image, e: Env, c: Core, g: Targets, keep: int) returns (n: nat, y: Next)
    requires s.Nop? || s.Refused? || s.Assign? || s.Say? || s.Exit? || s.ExitWith? || s.Leave? || s.Iterate?
    requires Ready(im, e, c, g) && SmallS(s) && Placed(im.code, c.pc, InnerS(s, t, d), g) && Extends(TabS(s, t, d), im.tabs)
    ensures Reaches(im, e, c, n, y)
    ensures Sim(c, keep, c.pc + |InnerS(s, t, d)|, g, fuel, Exec(s, d, fuel, WorldOf(c), e.num), n, y)
  {
    hide Has, Reaches, TabE, CodeE, PlainPools, Need, Eval, Set, Extends;
    KeptAll(c.counters, keep);
    match s {
      case Nop =>
        Nothing(im, e, c);
        n, y := 0, Run(c);
      case Refused =>
        PlacedBytes(im.code, c.pc, [OP_RAISE, SYNTAX_CTL_STACK], g);
        RaiseRuns(SYNTAX_CTL_STACK, im, e, c);
        n, y := 1, Trap(SYNTAX_CTL_STACK as nat, c.(pc := c.pc + 2));
      case Assign(v, x) => n, y := AssignRuns(v, x, t, d, fuel, im, e, c, g, keep);
      case Say(x) => n, y := SayRuns(x, t, fuel, im, e, c, g, keep, d);
      case Exit =>
        PlacedBytes(im.code, c.pc, [OP_EXIT], g);
        OneStep(im, e, c, IExit);
        n, y := 1, Next.Exit(0, c.(pc := c.pc + 1));
      case ExitWith(x) => n, y := ExitRuns(x, t, fuel, im, e, c, g, keep, d);
      case _ => n, y := GoingOutRuns(s, t, d, fuel, im, e, c, g, keep);
    }
  }

  lemma GoingOutRuns(s: Stmt, t: Tabs, d: nat, fuel: nat, im: Image, e: Env, c: Core, g: Targets, keep: int) returns (n: nat, y: Next)
    requires s.Leave? || s.Iterate?
    requires Ready(im, e, c, g) && Placed(im.code, c.pc, InnerS(s, t, d), g)
    ensures Reaches(im, e, c, n, y)
    ensures Sim(c, keep, c.pc + |InnerS(s, t, d)|, g, fuel, Exec(s, d, fuel, WorldOf(c), e.num), n, y)
  {
    hide Has, Reaches, PlainPools;
    KeptAll(c.counters, keep);
    n := 1;
    match s {
      case Leave(toSelect) =>
        var k := if toSelect then SelectHole else LeaveHole;
        PlacedHole(im.code, c.pc, OP_LEAVE, k, g);
        JumpRuns(OP_LEAVE, TargetOf(k, g), im, e, c);
        y := Run(c.(pc := TargetOf(k, g)));
      case Iterate =>
        PlacedHole(im.code, c.pc, OP_ITERATE, IterateHole, g);
        JumpRuns(OP_ITERATE, g.iter, im, e, c);
        y := Run(c.(pc := g.iter));
    }
  }

  lemma AssignRuns(v: string, x: Expr, t: Tabs, d: nat, fuel: nat, im: Image, e: Env, c: Core, g: Targets, keep: int)
    returns (n: nat, y: Next)
    requires Ready(im, e, c, g) && Small(x) && Placed(im.code, c.pc, Bytes(SetCode(v, x, AddSym(t, v))), g)
    requires Extends(TabE(x, AddSym(t, v)), im.tabs)
    ensures Reaches(im, e, c, n, y)
    ensures Sim(c, keep, c.pc + |SetCode(v, x, AddSym(t, v))|, g, fuel, Exec(Assign(v, x), d, fuel, WorldOf(c), e.num), n, y)
  {
    hide Has, Reaches, TabE, SetCode, PlainPools, Need, AssignTo, Extends;
    KeptAll(c.counters, keep);
    PlacedBytes(im.code, c.pc, SetCode(v, x, AddSym(t, v)), g);
    Interned(t, v);
    AssignKeepsOut(v, x, WorldOf(c), e.num);
    n, y := SetRuns(v, x, AddSym(t, v), im, e, c);
  }

  lemma SayRuns(x: Expr, t: Tabs, fuel: nat, im: Image, e: Env, c: Core, g: Targets, keep: int, d: nat) returns (n: nat, y: Next)
    requires Ready(im, e, c, g) && Small(x) && Placed(im.code, c.pc, Bytes(CodeE(x, t) + [OP_SAY]), g)
    requires Extends(TabE(x, t), im.tabs)
    ensures Reaches(im, e, c, n, y)
    ensures Sim(c, keep, c.pc + |CodeE(x, t)| + 1, g, fuel, Exec(Say(x), d, fuel, WorldOf(c), e.num), n, y)
  {
    hide Has, Reaches, TabE, CodeE, PlainPools, Need, Eval, Extends;
    KeptAll(c.counters, keep);
    PlacedBytes(im.code, c.pc, CodeE(x, t) + [OP_SAY], g);
    HasSplit(im.code, c.pc, CodeE(x, t), [OP_SAY]);
    n, y := ExprRuns(x, t, im, e, c);
    if y.Run? {
      var v := Eval(x, c.pools, e.num).text;
      WriteRuns(v, im, e, y.c, c.stack);
      var z := Run(y.c.(pc := y.c.pc + 1, stack := c.stack, out := y.c.out + [v]));
      Then(im, e, c, n, y.c, 1, z);
      n, y := n + 1, z;
    }
  }

  lemma WriteRuns(v: string, im: Image, e: Env, c: Core, st: seq<Cell>)
    requires c.pc >= 0 && c.stack == st + [Plain(v)] && Has(im.code, c.pc, [OP_SAY])
    ensures Reaches(im, e, c, 1, Run(c.(pc := c.pc + 1, stack := st, out := c.out + [v])))
  {
    hide Has, Reaches;
    OneStep(im, e, c, ISay);
    assert (st + [Plain(v)])[..|st|] == st;
  }

  lemma ExitRuns(x: Expr, t: Tabs, fuel: nat, im: Image, e: Env, c: Core, g: Targets, keep: int, d: nat) returns (n: nat, y: Next)
    requires Ready(im, e, c, g) && Small(x) && Placed(im.code, c.pc, Bytes(CodeE(x, t) + [OP_EXIT_RC]), g)
    requires Extends(TabE(x, t), im.tabs)
    ensures Reaches(im, e, c, n, y)
    ensures Sim(c, keep, c.pc + |CodeE(x, t)| + 1, g, fuel, Exec(ExitWith(x), d, fuel, WorldOf(c), e.num), n, y)
  {
    hide Has, Reaches, TabE, CodeE, PlainPools, Need, Eval, Extends, ExitCode;
    KeptAll(c.counters, keep);
    PlacedBytes(im.code, c.pc, CodeE(x, t) + [OP_EXIT_RC], g);
    HasSplit(im.code, c.pc, CodeE(x, t), [OP_EXIT_RC]);
    n, y := ExprRuns(x, t, im, e, c);
    if y.Run? {
      var v := Eval(x, c.pools, e.num).text;
      ExitRcRuns(v, im, e, y.c, c.stack);
      var z := Next.Exit(ExitCode(v), y.c.(pc := y.c.pc + 1, stack := c.stack));
      Then(im, e, c, n, y.c, 1, z);
      n, y := n + 1, z;
    }
  }

  lemma ExitRcRuns(v: string, im: Image, e: Env, c: Core, st: seq<Cell>)
    requires c.pc >= 0 && c.stack == st + [Plain(v)] && Has(im.code, c.pc, [OP_EXIT_RC])
    ensures Reaches(im, e, c, 1, Next.Exit(ExitCode(v), c.(pc := c.pc + 1, stack := st)))
  {
    hide Has, Reaches, ExitCode;
    OneStep(im, e, c, IExitRc);
    assert (st + [Plain(v)])[..|st|] == st;
  }

  // ---- Statements ----------------------------------------------------------------

  lemma {:induction false} StmtRuns(s: Stmt, t: Tabs, d: nat, fuel: nat, im: Image, e: Env, c: Core, g: Targets)
    returns (n: nat, y: Next)
    requires Ready(im, e, c, g) && SmallS(s) && DepthOk(s, d)
    requires Placed(im.code, c.pc, CellsS(s, t, d), g) && Extends(TabS(s, t, d), im.tabs)
    ensures Reaches(im, e, c, n, y)
    ensures Sim(c, e.base + d, c.pc + |CellsS(s, t, d)|, g, fuel, Exec(s, d, fuel, WorldOf(c), e.num), n, y)
    decreases fuel, s, 4, 0
  {
    hide Has, Reaches, TabE, PlainPools, Placed, InnerS, Extends, SmallS, Word, Find;
    KeptAll(c.counters, e.base + d);
    if s.Null? {
      Nothing(im, e, c);
      n, y := 0, Run(c);
    } else if s.Label? {
      LabelRuns(s.name, t, im, e, c, g);
      n, y := 1, Run(c.(pc := c.pc + 3));
    } else {
      PlacedSplit(im.code, c.pc, [B(OP_NEWCLAUSE)], InnerS(s, t, d), g);
      MarkPlaced(im.code, c.pc, g);
      MarkRuns(im, e, c);
      var c1 := c.(pc := c.pc + 1);
      n, y := InnerRuns(s, t, d, fuel, im, e, c1, g);
      After(im, e, c, 1, c1, n, y, e.base + d, e.base + d, c.pc + |CellsS(s, t, d)|, g, fuel, fuel, Exec(s, d, fuel, WorldOf(c), e.num));
      n := 1 + n;
    }
  }

  lemma MarkPlaced(code: seq<Byte>, pc: nat, g: Targets)
    requires Placed(code, pc, [B(OP_NEWCLAUSE)], g)
    ensures Has(code, pc, [OP_NEWCLAUSE])
  {
    assert [B(OP_NEWCLAUSE)] == Bytes([OP_NEWCLAUSE]);
    PlacedBytes(code, pc, [OP_NEWCLAUSE], g);
  }

  lemma LabelRuns(name: string, t: Tabs, im: Image, e: Env, c: Core, g: Targets)
    requires Ready(im, e, c, g) && Placed(im.code, c.pc, Bytes([OP_LABEL] + Word(Find(t.syms, name))), g)
    requires Extends(AddSym(t, name), im.tabs)
    ensures Reaches(im, e, c, 1, Run(c.(pc := c.pc + 3)))
  {
    PlacedBytes(im.code, c.pc, [OP_LABEL] + Word(Find(t.syms, name)), g);
    OneStep(im, e, c, ILabel(Find(t.syms, name)));
  }

  lemma NothingCalled(s: Stmt)
    requires SmallS(s)
    ensures !s.CallTo? && !s.Return? && !s.ReturnWith?
  {
  }

  lemma {:induction false} InnerRuns(s: Stmt, t: Tabs, d: nat, fuel: nat, im: Image, e: Env, c: Core, g: Targets)
    returns (n: nat, y: Next)
    requires !s.Null? && !s.Label?
    requires Ready(im, e, c, g) && SmallS(s) && DepthOk(s, d)
    requires Placed(im.code, c.pc, InnerS(s, t, d), g) && Extends(TabS(s, t, d), im.tabs)
    ensures Reaches(im, e, c, n, y)
    ensures Sim(c, e.base + d, c.pc + |InnerS(s, t, d)|, g, fuel, Exec(s, d, fuel, WorldOf(c), e.num), n, y)
    decreases fuel, s, 3, 0
  {
    NothingCalled(s);
    hide Reaches, Sim, Ready, Placed, Extends, SmallS, DepthOk, TabS, InnerS, Exec;
    if s.If? {
      n, y := IfRuns(s, t, d, fuel, im, e, c, g);
    } else if s.Select? {
      n, y := SelectRuns(s, t, d, fuel, im, e, c, g);
    } else if s.Do? {
      n, y := DoRuns(s, t, d, fuel, im, e, c, g);
    } else {
      n, y := StraightRuns(s, t, d, fuel, im, e, c, g, e.base + d);
    }
  }

  lemma {:induction false} BlockRuns(b: Block, t: Tabs, d: nat, fuel: nat, im: Image, e: Env, c: Core, g: Targets)
    returns (n: nat, y: Next)
    requires Ready(im, e, c, g) && SmallB(b) && DepthOkB(b, d)
    requires Placed(im.code, c.pc, CellsB(b, t, d), g) && Extends(TabB(b, t, d), im.tabs)
    ensures Reaches(im, e, c, n, y)
    ensures Sim(c, e.base + d, c.pc + |CellsB(b, t, d)|, g, fuel, ExecBlock(b, d, fuel, WorldOf(c), e.num), n, y)
    decreases fuel, b, 4, 0
  {
    hide Has, Reaches, TabS, PlainPools, Placed, CellsS, Extends, SmallS, Exec;
    KeptAll(c.counters, e.base + d);
    if b.Done? {
      Nothing(im, e, c);
      n, y := 0, Run(c);
    } else {
      var t1 := TabS(b.s, t, d);
      PlacedSplit(im.code, c.pc, CellsS(b.s, t, d), CellsB(b.rest, t1, d), g);
      TabBGrows(b.rest, t1, d);
      Through(t1, TabB(b.rest, t1, d), im.tabs);
      n, y := StmtRuns(b.s, t, d, fuel, im, e, c, g);
      if Exec(b.s, d, fuel, WorldOf(c), e.num).o.Normal? {
        var c1 := y.c;
        var m, z := BlockRuns(b.rest, t1, d, fuel, im, e, c1, g);
        After(im, e, c, n, c1, m, z, e.base + d, e.base + d, c.pc + |CellsB(b, t, d)|, g, fuel, fuel,
              ExecBlock(b, d, fuel, WorldOf(c), e.num));
        n, y := n + m, z;
      }
    }
  }

  // A condition whose false branch jumps `skip` bytes ahead.
  lemma GuardRuns(x: Expr, t: Tabs, skip: nat, tail: seq<Code>, g: Targets, im: Image, e: Env, c: Core) returns (n: nat, y: Next)
    requires Small(x) && Ready(im, e, c, g) && skip <= |tail|
    requires Placed(im.code, c.pc, Bytes(CodeE(x, t)) + Jump(OP_JF, skip) + tail, g) && Extends(TabE(x, t), im.tabs)
    ensures n >= 1 && Reaches(im, e, c, n, y)
    ensures var q := c.pc + |CodeE(x, t)| + 3;
            Placed(im.code, q, tail, g) && Tested(c, q, q + skip, Decide(x, WorldOf(c), e.num), y)
  {
    hide Reaches, CodeE, TabE, Extends, PlainPools, Decide, Word, Bytes, Need, CellByte;
    PlacedSplit(im.code, c.pc, Bytes(CodeE(x, t)) + Jump(OP_JF, skip), tail, g);
    n, y := WhileRuns(x, t, skip, g, im, e, c);
  }

  lemma {:induction false} IfRuns(s: Stmt, t: Tabs, d: nat, fuel: nat, im: Image, e: Env, c: Core, g: Targets)
    returns (n: nat, y: Next)
    requires s.If? && Ready(im, e, c, g) && SmallS(s) && DepthOk(s, d)
    requires Placed(im.code, c.pc, InnerS(s, t, d), g) && Extends(TabS(s, t, d), im.tabs)
    ensures Reaches(im, e, c, n, y)
    ensures Sim(c, e.base + d, c.pc + |InnerS(s, t, d)|, g, fuel, Exec(s, d, fuel, WorldOf(c), e.num), n, y)
    decreases fuel, s, 2, 0
  {
    hide Has, Reaches, TabE, PlainPools, Placed, CellsS, Extends, CodeE, Decide, Word, Need;
    var t1 := TabE(s.c, t);
    var t2 := TabS(s.t, t1, d);
    var a := CellsS(s.t, t1, d);
    var b := if s.hasElse then CellsS(s.f, t2, d) else [];
    var skip := if s.hasElse then |a| + 3 else |a|;
    var over := if s.hasElse then Jump(OP_JMP, |b|) else [];
    var tail := a + over + b;
    var end := c.pc + |InnerS(s, t, d)|;
    IfParts(s, t, d, tail);
    KeptAll(c.counters, e.base + d);
    TabSGrows(s.t, t1, d);
    if s.hasElse { TabSGrows(s.f, t2, d); Through(t2, TabS(s.f, t2, d), im.tabs); }
    Through(t1, t2, im.tabs);
    n, y := GuardRuns(s.c, t, skip, tail, g, im, e, c);
    var q := c.pc + |CodeE(s.c, t)| + 3;
    PlacedSplit(im.code, q, a + over, b, g);
    PlacedSplit(im.code, q, a, over, g);
    var v := Decide(s.c, WorldOf(c), e.num);
    if v.Yes? {
      var c1 := y.c;
      var m, z := StmtRuns(s.t, t1, d, fuel, im, e, c1, g);
      if s.hasElse && Exec(s.t, d, fuel, WorldOf(c), e.num).o.Normal? {
        PlacedFits(im.code, q + |a| + 3, b, g);
        OverRuns(im, e, c1, m, z.c, |b|, end, g);
        m, z := m + 1, Run(z.c.(pc := end));
      }
      After(im, e, c, n, c1, m, z, e.base + d, e.base + d, end, g, fuel, fuel, Exec(s.t, d, fuel, WorldOf(c), e.num));
      n, y := n + m, z;
    } else if v.No? && s.hasElse {
      var c1 := y.c;
      var m, z := StmtRuns(s.f, t2, d, fuel, im, e, c1, g);
      After(im, e, c, n, c1, m, z, e.base + d, e.base + d, end, g, fuel, fuel, Exec(s.f, d, fuel, WorldOf(c), e.num));
      n, y := n + m, z;
    }
  }

  /** The jump over the second branch. */
  lemma OverRuns(im: Image, e: Env, c: Core, m: nat, z: Core, b: nat, end: int, g: Targets)
    requires Reaches(im, e, c, m, Run(z)) && z.pc >= 0 && Placed(im.code, z.pc, Jump(OP_JMP, b), g) && end == z.pc + 3 + b
    requires ImageOk(im) && end <= |im.code|
    ensures Reaches(im, e, c, m + 1, Run(z.(pc := end)))
  {
    hide Has, Reaches, Placed, Word;
    PlacedBytes(im.code, z.pc, [OP_JMP] + Word(b), g);
    JumpRuns(OP_JMP, end, im, e, z);
    Then(im, e, c, m, z, 1, Run(z.(pc := end)));
  }

  lemma PlacedFits(code: seq<Byte>, pc: nat, cs: seq<Code>, g: Targets)
    requires Placed(code, pc, cs, g)
    ensures pc + |cs| <= |code|
  {
  }

  lemma IfParts(s: Stmt, t: Tabs, d: nat, tail: seq<Code>)
    requires s.If? && DepthOk(s, d)
    requires var t1 := TabE(s.c, t);
             var a := CellsS(s.t, t1, d);
             var b := if s.hasElse then CellsS(s.f, TabS(s.t, t1, d), d) else [];
             tail == a + (if s.hasElse then Jump(OP_JMP, |b|) else []) + b
    ensures var a := CellsS(s.t, TabE(s.c, t), d);
            InnerS(s, t, d) == Bytes(CodeE(s.c, t)) + Jump(OP_JF, if s.hasElse then |a| + 3 else |a|) + tail
  {
    hide CellsS, TabE, TabS, CodeE, Word;
  }

  // ---- SELECT ----------------------------------------------------------------------

  lemma {:induction false} SelectRuns(s: Stmt, t: Tabs, d: nat, fuel: nat, im: Image, e: Env, c: Core, g: Targets)
    returns (n: nat, y: Next)
    requires s.Select? && Ready(im, e, c, g) && SmallS(s) && DepthOk(s, d)
    requires Placed(im.code, c.pc, InnerS(s, t, d), g) && Extends(TabS(s, t, d), im.tabs)
    ensures Reaches(im, e, c, n, y)
    ensures Sim(c, e.base + d, c.pc + |InnerS(s, t, d)|, g, fuel, Exec(s, d, fuel, WorldOf(c), e.num), n, y)
    decreases fuel, s, 2, 0
  {
    hide Has, Reaches, PlainPools, CellByte, CellsW, TabW, Extends, ExecWhens, Fill, SmallW, DepthOkW;
    var ws := s.ws;
    var cs := CellsW(ws, t, d + 1);
    var end := c.pc + |cs|;
    PlacedFill(im.code, c.pc, cs, SelectHole, |cs|, g);
    var g1 := g.(sel := end);
    n, y := WhensRuns(ws, t, d + 1, fuel, im, e, c, g1);
  }

  lemma {:induction false} WhensRuns(ws: Whens, t: Tabs, d: nat, fuel: nat, im: Image, e: Env, c: Core, g: Targets)
    returns (n: nat, y: Next)
    requires Ready(im, e, c, g) && SmallW(ws) && DepthOkW(ws, d)
    requires Placed(im.code, c.pc, CellsW(ws, t, d), g) && Extends(TabW(ws, t, d), im.tabs)
    requires g.sel == c.pc + |CellsW(ws, t, d)|
    ensures Reaches(im, e, c, n, y)
    ensures Sim(c, e.base + d, g.sel, g, fuel, ExecWhens(ws, d, fuel, WorldOf(c), e.num), n, y)
    decreases fuel, ws, 4, 0
  {
    hide Has, Reaches, TabE, PlainPools, Placed, CellsS, CellsB, Extends, CodeE, Decide, Word, Need, ExecBlock, Exec;
    KeptAll(c.counters, e.base + d);
    match ws {
      case When(x, s, r) => n, y := WhenRuns(x, s, r, t, d, fuel, im, e, c, g);
      case Otherwise(b) => n, y := BlockRuns(b, t, d, fuel, im, e, c, g);
      case NoOtherwise =>
        Nothing(im, e, c);
        n, y := 0, Run(c);
    }
  }

  lemma {:induction false} WhenRuns(x: Expr, s: Stmt, r: Whens, t: Tabs, d: nat, fuel: nat, im: Image, e: Env, c: Core, g: Targets)
    returns (n: nat, y: Next)
    requires Ready(im, e, c, g) && SmallW(When(x, s, r)) && DepthOkW(When(x, s, r), d)
    requires Placed(im.code, c.pc, CellsW(When(x, s, r), t, d), g) && Extends(TabW(When(x, s, r), t, d), im.tabs)
    requires g.sel == c.pc + |CellsW(When(x, s, r), t, d)|
    ensures Reaches(im, e, c, n, y)
    ensures Sim(c, e.base + d, g.sel, g, fuel, ExecWhens(When(x, s, r), d, fuel, WorldOf(c), e.num), n, y)
    decreases fuel, When(x, s, r), 3, 0
  {
    hide Has, Reaches, TabE, PlainPools, Placed, CellsS, Extends, CodeE, Decide, Word, Need, Exec;
    var t1 := TabE(x, t);
    var t2 := TabS(s, t1, d);
    var a := CellsS(s, t1, d);
    var rest := CellsW(r, t2, d);
    var tail := a + HoleJump(OP_JMP, SelectHole) + rest;
    assert CellsW(When(x, s, r), t, d) == Bytes(CodeE(x, t)) + Jump(OP_JF, |a| + 3) + tail;
    hide CellsW;
    TabSGrows(s, t1, d);
    TabWGrows(r, t2, d);
    Through(t2, TabW(r, t2, d), im.tabs);
    Through(t1, t2, im.tabs);
    n, y := GuardRuns(x, t, |a| + 3, tail, g, im, e, c);
    var q := c.pc + |CodeE(x, t)| + 3;
    PlacedSplit(im.code, q, a + HoleJump(OP_JMP, SelectHole), rest, g);
    PlacedSplit(im.code, q, a, HoleJump(OP_JMP, SelectHole), g);
    var v := Decide(x, WorldOf(c), e.num);
    KeptAll(c.counters, e.base + d);
    if v.Yes? {
      var c1 := y.c;
      var m, z := StmtRuns(s, t1, d, fuel, im, e, c1, g);
      if Exec(s, d, fuel, WorldOf(c), e.num).o.Normal? {
        PlacedHole(im.code, q + |a|, OP_JMP, SelectHole, g);
        JumpRuns(OP_JMP, g.sel, im, e, z.c);
        Then(im, e, c1, m, z.c, 1, Run(z.c.(pc := g.sel)));
        m, z := m + 1, Run(z.c.(pc := g.sel));
      }
      After(im, e, c, n, c1, m, z, e.base + d, e.base + d, g.sel, g, fuel, fuel, Exec(s, d, fuel, WorldOf(c), e.num));
      n, y := n + m, z;
    } else if v.No? {
      var c1 := y.c;
      var m, z := WhensRuns(r, t2, d, fuel, im, e, c1, g);
      After(im, e, c, n, c1, m, z, e.base + d, e.base + d, g.sel, g, fuel, fuel, ExecWhens(r, d, fuel, WorldOf(c), e.num));
      n, y := n + m, z;
    }
  }

  // ---- DO ------------------------------------------------------------------------------

  /** The parts of a loop in the code. */
  ghost predicate LoopPlaced(code: seq<Byte>, top: nat, k: DoKind, body: seq<Code>, t: Tabs, t': Tabs, d: nat, g: Targets)
    requires d < CTL_MAX
  {
    var tail := TailCells(k, t', d);
    var rest := |body| + |tail| + BackLength(k);
    var p := top + 1 + |TestCells(k, t, d, rest)|;
    Has(code, top, [OP_NEWCLAUSE]) && Placed(code, top + 1, TestCells(k, t, d, rest), g) && Placed(code, p, body, g)
    && Placed(code, p + |body|, tail, g)
    && top + |LoopCells(k, body, t, t', d)| == p + rest <= |code|
    && (!k.Group? ==> var q := p + |body| + |tail|; Has(code, q, [OP_JMP] + Word(top - (q + 3))))
    && IteratePoint(k, |body|, t, d) == (if k.Forever? || k.While? then 0 else p + |body| - top)
  }

  lemma LoopPlacedParts(code: seq<Byte>, top: nat, k: DoKind, body: seq<Code>, t: Tabs, t': Tabs, d: nat, g: Targets)
    requires d < CTL_MAX && Placed(code, top, LoopCells(k, body, t, t', d), g)
    ensures LoopPlaced(code, top, k, body, t, t', d, g)
  {
    hide Placed, TailCells, Has, Word, TestCells;
    var tail := TailCells(k, t', d);
    var rest := |body| + |tail| + BackLength(k);
    var test := TestCells(k, t, d, rest);
    SameLength(k, t, d, rest);
    var mark := [B(OP_NEWCLAUSE)];
    var back := if k.Group? then [] else Jump(OP_JMP, -(1 + |test| + |body| + |tail| + 3));
    assert LoopCells(k, body, t, t', d) == mark + test + body + tail + back;
    hide LoopCells;
    PlacedFits(code, top, LoopCells(k, body, t, t', d), g);
    PlacedSplit(code, top, mark + test + body + tail, back, g);
    PlacedSplit(code, top, mark + test + body, tail, g);
    PlacedSplit(code, top, mark + test, body, g);
    PlacedSplit(code, top, mark, test, g);
    MarkPlaced(code, top, g);
    if !k.Group? {
      var q := top + 1 + |test| + |body| + |tail|;
      PlacedBytes(code, q, [OP_JMP] + Word(top - (q + 3)), g);
    }
  }

  lemma SameLength(k: DoKind, t: Tabs, d: nat, rest: nat)
    ensures |TestCells(k, t, d, rest)| == |TestCells(k, t, d, 0)|
  {
    hide CodeE, TabE, ToTest, ForTest;
  }

  /** Ending a loop: what the statement's surroundings see. */
  lemma LoopEnds(c: Core, keep: int, end: int, g: Targets, g1: Targets, fuel: nat, r: Result, n: nat, y: Next)
    requires Sim(c, keep, end, g1, fuel, r, n, y) && g1.leave == end && g1.sel == g.sel && r.o != Iterated
    ensures Sim(c, keep, end, g, fuel, EndOfLoop(r), n, y)
  {
  }

  lemma {:induction false} DoRuns(s: Stmt, t: Tabs, d: nat, fuel: nat, im: Image, e: Env, c: Core, g: Targets)
    returns (n: nat, y: Next)
    requires s.Do? && Ready(im, e, c, g) && SmallS(s) && DepthOk(s, d)
    requires Placed(im.code, c.pc, InnerS(s, t, d), g) && Extends(TabS(s, t, d), im.tabs)
    ensures Reaches(im, e, c, n, y)
    ensures Sim(c, e.base + d, c.pc + |InnerS(s, t, d)|, g, fuel, Exec(s, d, fuel, WorldOf(c), e.num), n, y)
    decreases fuel, s, 2, 0
  {
    hide Has, Reaches, PlainPools, Placed, Extends, CellsB, TabB, HeadTabs, HeadCode, LoopCells, TailTabs, Need, SmallKind,
         ExecRound, ExecCount, ExecLoop, Head, IteratePoint, Word;
    var k, b := s.kind, s.body;
    var t1 := HeadTabs(k, t, d);
    var t2 := TabB(b, t1, d + 1);
    var body := CellsB(b, t1, d + 1);
    var loop := LoopCells(k, body, t, t2, d);
    var it := IteratePoint(k, |body|, t, d);
    var head := HeadCode(k, t, d);
    var gate := if k.Count? then Jump(OP_JF, |loop|) else [];
    assert InnerS(s, t, d) == Bytes(head) + gate + CloseLoop(loop, it);
    PlacedSplit(im.code, c.pc, Bytes(head) + gate, CloseLoop(loop, it), g);
    PlacedSplit(im.code, c.pc, Bytes(head), gate, g);
    PlacedBytes(im.code, c.pc, head, g);
    var top := c.pc + |head| + |gate|;
    var end := top + |loop|;
    ClosedPlaced(im.code, top, loop, it, g);
    PointInside(k, body, t, t2, d);
    var g1 := Targets(end, g.sel, top + it);
    PlacedFits(im.code, top, loop, g1);
    TailGrows(k, t2, d);
    TabBGrows(b, t1, d + 1);
    Through(t2, TailTabs(k, t2, d), im.tabs);
    Through(t1, t2, im.tabs);
    var (h, count) := Head(k, d, WorldOf(c), e.num);
    if k.Count? {
      n, y := CountDoRuns(k, b, t, d, fuel, im, e, c, g, g1);
    } else {
      n, y := HeadRuns(k, t, d, im, e, c, g);
      KeptAll(c.counters, e.base + d);
      if h.o.Normal? {
        var c1 := y.c;
        var m, z;
        var r;
        if k.Group? {
          m, z := GroupRuns(k, b, t, d, fuel, im, e, c1, g1);
          r := ExecRound(b, d + 1, fuel, WorldOf(c1), e.num);
        } else {
          m, z := LoopRuns(k, b, t, d, fuel, im, e, c1, g1);
          r := ExecLoop(k, b, d, fuel, WorldOf(c1), e.num);
        }
        LoopEnds(c1, e.base + d, end, g, g1, fuel, r, m, z);
        After(im, e, c, n, c1, m, z, e.base + d, e.base + d, end, g, fuel, fuel, EndOfLoop(r));
        n, y := n + m, z;
      }
    }
  }

  lemma ClosedPlaced(code: seq<Byte>, top: nat, loop: seq<Code>, it: int, g: Targets)
    requires Placed(code, top, CloseLoop(loop, it), g)
    ensures Placed(code, top, loop, Targets(top + |loop|, g.sel, top + it))
  {
    hide Placed;
    var inner := Fill(loop, LeaveHole, 0, |loop|);
    PlacedFill(code, top, inner, IterateHole, it, g);
    PlacedFill(code, top, loop, LeaveHole, |loop|, Retarget(g, IterateHole, top + it));
  }

  lemma PointInside(k: DoKind, body: seq<Code>, t: Tabs, t': Tabs, d: nat)
    requires d < CTL_MAX
    ensures 0 <= IteratePoint(k, |body|, t, d) <= |LoopCells(k, body, t, t', d)|
  {
    hide TailCells, TestCells, Word;
    SameLength(k, t, d, |body| + |TailCells(k, t', d)| + BackLength(k));
  }

  lemma HeadRuns(k: DoKind, t: Tabs, d: nat, im: Image, e: Env, c: Core, g: Targets) returns (n: nat, y: Next)
    requires !k.Count? && d < CTL_MAX && SmallKind(k) && Ready(im, e, c, g)
    requires Has(im.code, c.pc, HeadCode(k, t, d)) && Extends(HeadTabs(k, t, d), im.tabs)
    ensures Reaches(im, e, c, n, y)
    ensures Straight(c, c.pc + |HeadCode(k, t, d)|, Head(k, d, WorldOf(c), e.num).0, y)
  {
    hide Has, Reaches, Extends, HeadTabs, PlainPools, SmallKind;
    if k.To? {
      n, y := ToHeadRuns(k, t, d, im, e, c);
    } else {
      Nothing(im, e, c);
      n, y := 0, Run(c);
    }
  }

  /** A simple DO. */
  lemma {:induction false} GroupRuns(k: DoKind, b: Block, t: Tabs, d: nat, fuel: nat, im: Image, e: Env, c: Core, g: Targets)
    returns (n: nat, y: Next)
    requires k.Group? && Ready(im, e, c, g) && SmallB(b) && d < CTL_MAX && DepthOkB(b, d + 1)
    requires var t1 := HeadTabs(k, t, d);
             var t2 := TabB(b, t1, d + 1);
             var loop := LoopCells(k, CellsB(b, t1, d + 1), t, t2, d);
             Placed(im.code, c.pc, loop, g) && Extends(t2, im.tabs) && g.leave == c.pc + |loop|
             && g.iter == c.pc + IteratePoint(k, |CellsB(b, t1, d + 1)|, t, d)
    ensures Reaches(im, e, c, n, y)
    ensures Sim(c, e.base + d, g.leave, g, fuel, ExecRound(b, d + 1, fuel, WorldOf(c), e.num), n, y)
    decreases fuel, b, 6, 0
  {
    hide Has, Reaches, PlainPools, Placed, Extends, CellsB, TabB, LoopCells, Need, ExecBlock, Word;
    var t2 := TabB(b, t, d + 1);
    var body := CellsB(b, t, d + 1);
    LoopPlacedParts(im.code, c.pc, k, body, t, t2, d, g);
    MarkRuns(im, e, c);
    var c1 := c.(pc := c.pc + 1);
    n, y := BlockRuns(b, t, d + 1, fuel, im, e, c1, g);
    After(im, e, c, 1, c1, n, y, e.base + d, e.base + d + 1, g.leave, g, fuel, fuel, ExecBlock(b, d + 1, fuel, WorldOf(c), e.num));
    n := 1 + n;
  }

  /** FOREVER, WHILE, UNTIL and controlled loops, from their top. */
  lemma {:induction false} LoopRuns(k: DoKind, b: Block, t: Tabs, d: nat, fuel: nat, im: Image, e: Env, c: Core, g: Targets)
    returns (n: nat, y: Next)
    requires !k.Group? && !k.Count? && SmallKind(k) && Ready(im, e, c, g) && SmallB(b) && d < CTL_MAX && DepthOkB(b, d + 1)
    requires var t1 := HeadTabs(k, t, d);
             var t2 := TabB(b, t1, d + 1);
             var loop := LoopCells(k, CellsB(b, t1, d + 1), t, t2, d);
             Placed(im.code, c.pc, loop, g) && Extends(TailTabs(k, t2, d), im.tabs) && g.leave == c.pc + |loop|
             && g.iter == c.pc + IteratePoint(k, |CellsB(b, t1, d + 1)|, t, d)
    ensures Reaches(im, e, c, n, y)
    ensures Sim(c, e.base + d, g.leave, g, fuel, ExecLoop(k, b, d, fuel, WorldOf(c), e.num), n, y)
    decreases fuel, b, 8, 0
  {
    hide Has, Reaches, PlainPools, Placed, Extends, CellsB, TabB, LoopCells, HeadTabs, TailTabs, TestCells, TailCells, Need,
         SmallKind, ExecBlock, Test, Tail, Word, DoSym, IteratePoint;
    KeptAll(c.counters, e.base + d);
    if fuel == 0 {
      Nothing(im, e, c);
      n, y := 0, Run(c);
    } else {
      var t1 := HeadTabs(k, t, d);
      var t2 := TabB(b, t1, d + 1);
      var body := CellsB(b, t1, d + 1);
      LoopTabs(k, b, t, d, im.tabs);
      LoopPlacedParts(im.code, c.pc, k, body, t, t2, d, g);
      var rest := |body| + |TailCells(k, t2, d)| + BackLength(k);
      var c1 := c.(pc := c.pc + 1);
      MarkRuns(im, e, c);
      var m, z := TestRuns(k, t, d, rest, g, im, e, c1);
      Then(im, e, c, 1, c1, m, z);
      n, y := 1 + m, z;
      if Test(k, d, WorldOf(c), e.num).Yes? {
        var c2 := y.c;
        m, z := RestOfRound(k, b, t, d, fuel, im, e, c.pc, c2, g);
        After(im, e, c, n, c2, m, z, e.base + d, e.base + d, g.leave, g, fuel, fuel - 1, ExecLoop(k, b, d, fuel, WorldOf(c), e.num));
        n, y := n + m, z;
      }
    }
  }

  lemma LoopTabs(k: DoKind, b: Block, t: Tabs, d: nat, u: Tabs)
    requires Extends(TailTabs(k, TabB(b, HeadTabs(k, t, d), d + 1), d), u)
    ensures var t1 := HeadTabs(k, t, d);
            var t2 := TabB(b, t1, d + 1);
            Extends(t1, u) && Extends(t2, u) && Extends(t1, t2)
            && (k.To? ==> k.v in t2.syms && (k.hasFor ==> DoSym(d, "FOR") in t2.syms))
  {
    hide Extends, TabB, HeadTabs, TailTabs, DoSym, TabE, ToTabs, TestTabs;
    var t1 := HeadTabs(k, t, d);
    var t2 := TabB(b, t1, d + 1);
    TailGrows(k, t2, d);
    TabBGrows(b, t1, d + 1);
    Through(t2, TailTabs(k, t2, d), u);
    Through(t1, t2, u);
    if k.To? { ToNamesStay(k, t, d, t2); }
  }

  lemma ToNamesStay(k: DoKind, t: Tabs, d: nat, u: Tabs)
    requires k.To? && Extends(HeadTabs(k, t, d), u)
    ensures k.v in u.syms && (k.hasFor ==> DoSym(d, "FOR") in u.syms)
  {
    hide DoSym, TabE, ToTabs, HeadTabs;
    ToTabsChain(k, t, d);
    var t0 := ToTabs(k.v, t, d);
    var t3 := TabE(k.step, TabE(k.limit, TabE(k.start, t0)));
    var t4 := TestTabs(k, t, d);
    Remains(t0, t3, k.v);
    Remains(t3, t4, k.v);
    Remains(t4, HeadTabs(k, t, d), k.v);
    Remains(HeadTabs(k, t, d), u, k.v);
    if k.hasFor {
      TabEGrows(k.times, ForTabs(k, t, d));
      Remains(ForTabs(k, t, d), t4, DoSym(d, "FOR"));
      Remains(t4, HeadTabs(k, t, d), DoSym(d, "FOR"));
      Remains(HeadTabs(k, t, d), u, DoSym(d, "FOR"));
    }
  }

  // A loop whose test said yes, from its body on.
  lemma {:induction false} RestOfRound(k: DoKind, b: Block, t: Tabs, d: nat, fuel: nat, im: Image, e: Env, top: nat, c: Core, g: Targets)
    returns (n: nat, y: Next)
    requires fuel > 0 && !k.Group? && !k.Count? && SmallKind(k) && Ready(im, e, c, g) && SmallB(b)
    requires d < CTL_MAX && DepthOkB(b, d + 1)
    requires var t1 := HeadTabs(k, t, d);
             var t2 := TabB(b, t1, d + 1);
             var body := CellsB(b, t1, d + 1);
             var loop := LoopCells(k, body, t, t2, d);
             LoopPlaced(im.code, top, k, body, t, t2, d, g) && Placed(im.code, top, loop, g)
             && c.pc == top + 1 + |TestCells(k, t, d, |body| + |TailCells(k, t2, d)| + BackLength(k))|
             && Extends(TailTabs(k, t2, d), im.tabs) && g.leave == top + |loop|
             && g.iter == top + IteratePoint(k, |body|, t, d)
    requires Test(k, d, WorldOf(c), e.num).Yes?
    ensures Reaches(im, e, c, n, y)
    ensures Sim(c, e.base + d, g.leave, g, fuel - 1, ExecLoop(k, b, d, fuel, WorldOf(c), e.num), n, y)
    decreases fuel, b, 7, 0
  {
    hide Has, Reaches, PlainPools, Placed, Extends, CellsB, TabB, LoopCells, HeadTabs, TailTabs, TestCells, TailCells, Need,
         SmallKind, ExecBlock, Test, Tail, Word, DoSym;
    var t1 := HeadTabs(k, t, d);
    var t2 := TabB(b, t1, d + 1);
    var body := CellsB(b, t1, d + 1);
    LoopTabs(k, b, t, d, im.tabs);
    n, y := BlockRuns(b, t1, d + 1, fuel, im, e, c, g);
    var r := ExecBlock(b, d + 1, fuel, WorldOf(c), e.num);
    SimulatedFrom(c.stack, c.counters, e.base + d, c.counters, e.base + d + 1, c.pc + |body|, g, fuel - 1, fuel, r, n, 0, y) by {
      KeptAll(c.counters, e.base + d);
    }
    if r.o.Normal? || r.o.Iterated? {
      var c1 := y.c;
      LoopStep(k, b, d, fuel, WorldOf(c), e.num);
      var m, z := BackRuns(k, b, t, d, fuel, im, e, top, c1, g, r.o.Iterated?);
      After(im, e, c, n, c1, m, z, e.base + d, e.base + d, g.leave, g, fuel - 1, fuel - 1, ExecLoop(k, b, d, fuel, WorldOf(c), e.num));
      n, y := n + m, z;
    }
  }

  lemma LoopStep(k: DoKind, b: Block, d: nat, fuel: nat, w: World, n: Settings)
    requires fuel > 0 && Test(k, d, w, n).Yes?
    requires var r := ExecBlock(b, d + 1, fuel, w, n); r.o.Normal? || r.o.Iterated?
    ensures var t := Tail(k, d, ExecBlock(b, d + 1, fuel, w, n).w, n);
            ExecLoop(k, b, d, fuel, w, n) == if t.o.Normal? then ExecLoop(k, b, d, fuel - 1, t.w, n) else t
  {
    hide Test, Tail, ExecBlock;
  }

  lemma TailOutcome(k: DoKind, d: nat, w: World, n: Settings)
    ensures var o := Tail(k, d, w, n).o; o.Normal? || o.Raised? || o == Left(false)
    ensures k.Forever? || k.While? ==> Tail(k, d, w, n) == Result(Normal, w)
  {
    hide DoSym, Eval;
  }

  // Behind the body: tail, jump back, next round.
  lemma {:induction false} BackRuns(k: DoKind, b: Block, t: Tabs, d: nat, fuel: nat, im: Image, e: Env, top: nat, c: Core, g: Targets, iterated: bool)
    returns (n: nat, y: Next)
    requires fuel > 0 && !k.Group? && !k.Count? && SmallKind(k) && Ready(im, e, c, g) && SmallB(b)
    requires d < CTL_MAX && DepthOkB(b, d + 1)
    requires var t1 := HeadTabs(k, t, d);
             var t2 := TabB(b, t1, d + 1);
             var body := CellsB(b, t1, d + 1);
             var loop := LoopCells(k, body, t, t2, d);
             LoopPlaced(im.code, top, k, body, t, t2, d, g) && Placed(im.code, top, loop, g)
             && Extends(TailTabs(k, t2, d), im.tabs) && g.leave == top + |loop|
             && g.iter == top + IteratePoint(k, |body|, t, d)
             && c.pc == (if iterated then g.iter
                         else top + 1 + |TestCells(k, t, d, |body| + |TailCells(k, t2, d)| + BackLength(k))| + |body|)
    ensures Reaches(im, e, c, n, y)
    ensures var r := Tail(k, d, WorldOf(c), e.num);
            var q := if r.o.Normal? then ExecLoop(k, b, d, fuel - 1, r.w, e.num) else r;
            Sim(c, e.base + d, g.leave, g, fuel - 1, q, n, y)
    decreases fuel - 1, b, 9, 0
  {
    hide Has, Reaches, PlainPools, Placed, Extends, CellsB, TabB, LoopCells, HeadTabs, TailTabs, TestCells, TailCells, Need,
         SmallKind, ExecLoop, Word, DoSym, Tail, IteratePoint, BackLength;
    var t2 := TabB(b, HeadTabs(k, t, d), d + 1);
    LoopTabs(k, b, t, d, im.tabs);
    KeptAll(c.counters, e.base + d);
    var r := Tail(k, d, WorldOf(c), e.num);
    TailOutcome(k, d, WorldOf(c), e.num);
    if (k.Forever? || k.While?) && iterated {
      n, y := LoopRuns(k, b, t, d, fuel - 1, im, e, c, g);
    } else {
      n, y := TailRuns(k, t2, d, g, im, e, c);
      if r.o.Normal? {
        var c1 := y.c;
        JumpRuns(OP_JMP, top, im, e, c1);
        var c2 := c1.(pc := top);
        Then(im, e, c, n, c1, 1, Run(c2));
        var m, z := LoopRuns(k, b, t, d, fuel - 1, im, e, c2, g);
        After(im, e, c, n + 1, c2, m, z, e.base + d, e.base + d, g.leave, g, fuel - 1, fuel - 1,
              ExecLoop(k, b, d, fuel - 1, r.w, e.num));
        n, y := n + 1 + m, z;
      }
    }
  }

  // ---- Counted DO ------------------------------------------------------------------------

  lemma GateRuns(v: string, d: nat, target: int, im: Image, e: Env, c: Core, st: seq<Cell>) returns (n: nat, y: Next)
    requires ImageOk(im) && PlainEnv(e) && c.pc >= 0 && 0 <= target <= |im.code| && d < CTL_MAX && |c.counters| >= 1
    requires c.stack == st + [Plain(v)]
    requires Has(im.code, c.pc, [OP_FORINIT, d]) && Has(im.code, c.pc + 2, [OP_JF] + Word(target - (c.pc + 5)))
    ensures n == 2 && Reaches(im, e, c, n, y) && y.Run?
    ensures var k := CountOf(v);
            y.c == c.(stack := st, counters := y.c.counters, pc := if k > 0 then c.pc + 5 else target)
            && e.base + d < |y.c.counters| && y.c.counters[e.base + d] == k && Kept(c.counters, y.c.counters, e.base + d)
  {
    hide CountOf, Grown, Reaches, Has, Word, BoolOf;
    var k := CountOf(v);
    var cs := Grown(c.counters, e.base + d)[e.base + d := k];
    var c1 := c.(pc := c.pc + 2, stack := st + [Plain(Truth(k > 0))], counters := cs);
    InitRuns(v, d, im, e, c, st);
    GrownKeeps(c.counters, e.base + d, k);
    var m, z := BranchRuns(false, target, Truth(k > 0), im, e, c1, st);
    TruthIsBool(k > 0);
    Then(im, e, c, 1, c1, m, z);
    n, y := 1 + m, z;
  }

  lemma TruthIsBool(b: bool)
    ensures BoolOf(Truth(b)) == Some(b)
  {
  }

  lemma InitRuns(v: string, d: nat, im: Image, e: Env, c: Core, st: seq<Cell>)
    requires c.pc >= 0 && d < CTL_MAX && |c.counters| >= 1 && c.stack == st + [Plain(v)] && Has(im.code, c.pc, [OP_FORINIT, d])
    ensures e.base + d < |Grown(c.counters, e.base + d)|
    ensures var k := CountOf(v);
            Reaches(im, e, c, 1, Run(c.(pc := c.pc + 2, stack := st + [Plain(Truth(k > 0))],
                                        counters := Grown(c.counters, e.base + d)[e.base + d := k])))
  {
    hide CountOf, Grown, Reaches, Has;
    OneStep(im, e, c, IForInit(d));
    assert (st + [Plain(v)])[..|st|] == st;
  }

  lemma GrownKeeps(cs: seq<int>, need: nat, v: int)
    requires |cs| >= 1
    ensures need < |Grown(cs, need)| && Kept(cs, Grown(cs, need)[need := v], need)
  {
    hide Grown;
    var r := Grown(cs, need);
    forall i | 0 <= i < |cs| ensures r[i] == cs[i] { assert r[..|cs|][i] == cs[i]; }
  }

  lemma {:induction false} CountDoRuns(k: DoKind, b: Block, t: Tabs, d: nat, fuel: nat, im: Image, e: Env, c: Core, g: Targets, g1: Targets)
    returns (n: nat, y: Next)
    requires k.Count? && SmallKind(k) && Ready(im, e, c, g) && SmallB(b) && d < CTL_MAX && DepthOkB(b, d + 1)
    requires var t1 := HeadTabs(k, t, d);
             var t2 := TabB(b, t1, d + 1);
             var body := CellsB(b, t1, d + 1);
             var loop := LoopCells(k, body, t, t2, d);
             var head := HeadCode(k, t, d);
             var top := c.pc + |head| + 3;
             Has(im.code, c.pc, head) && Placed(im.code, c.pc + |head|, Jump(OP_JF, |loop|), g)
             && Placed(im.code, top, loop, g1) && Extends(t2, im.tabs)
             && g1 == Targets(top + |loop|, g.sel, top + IteratePoint(k, |body|, t, d))
             && 0 <= g1.iter <= |im.code|
    ensures Reaches(im, e, c, n, y)
    ensures Sim(c, e.base + d, g1.leave, g, fuel, Exec(Do(k, b), d, fuel, WorldOf(c), e.num), n, y)
    decreases fuel, b, 8, 0
  {
    hide Has, Reaches, PlainPools, Placed, Extends, CellsB, TabB, LoopCells, CodeE, TabE, Eval, Need, ExecCount,
         Word, CountOf, IteratePoint;
    var t1 := HeadTabs(k, t, d);
    var t2 := TabB(b, t1, d + 1);
    var loop := LoopCells(k, CellsB(b, t1, d + 1), t, t2, d);
    var x := CodeE(k.n, t);
    HasSplit(im.code, c.pc, x, [OP_FORINIT, d]);
    PlacedBytes(im.code, c.pc + |x| + 2, [OP_JF] + Word(|loop|), g);
    PlacedFits(im.code, c.pc + |x| + 5, loop, g1);
    TabBGrows(b, t1, d + 1);
    Through(t1, t2, im.tabs);
    n, y := ExprRuns(k.n, t, im, e, c);
    if y.Run? {
      var v := Eval(k.n, c.pools, e.num).text;
      assert g1.leave - (y.c.pc + 5) == |loop|;
      var m, z := GateRuns(v, d, g1.leave, im, e, y.c, c.stack);
      Then(im, e, c, n, y.c, m, z);
      n, y := n + m, z;
      if CountOf(v) > 0 {
        var c1 := y.c;
        m, z := CountRuns(k, b, t, d, CountOf(v), fuel, im, e, c1, g1);
        var r := ExecCount(b, d + 1, CountOf(v), fuel, WorldOf(c1), e.num);
        LoopEnds(c1, e.base + d, g1.leave, g, g1, fuel, r, m, z);
        After(im, e, c, n, c1, m, z, e.base + d, e.base + d, g1.leave, g, fuel, fuel, EndOfLoop(r));
        n, y := n + m, z;
      }
    }
  }

  lemma DecForRuns(d: nat, im: Image, e: Env, c: Core)
    requires c.pc >= 0 && d < CTL_MAX && e.base + d < |c.counters| && Has(im.code, c.pc, [OP_DECFOR, d] + Word(3))
    ensures var k := c.counters[e.base + d] - 1;
            Reaches(im, e, c, 1, Run(c.(counters := c.counters[e.base + d := k], pc := if k <= 0 then c.pc + 7 else c.pc + 4)))
  {
    hide Reaches, Has, Word;
    OneStep(im, e, c, IDecFor(d, 3));
  }

  lemma {:induction false} CountRuns(k: DoKind, b: Block, t: Tabs, d: nat, count: int, fuel: nat, im: Image, e: Env, c: Core, g: Targets)
    returns (n: nat, y: Next)
    requires k.Count? && Ready(im, e, c, g) && SmallB(b) && d < CTL_MAX && DepthOkB(b, d + 1)
    requires count >= 1 && e.base + d < |c.counters| && c.counters[e.base + d] == count
    requires var t1 := HeadTabs(k, t, d);
             var t2 := TabB(b, t1, d + 1);
             var loop := LoopCells(k, CellsB(b, t1, d + 1), t, t2, d);
             Placed(im.code, c.pc, loop, g) && Extends(t2, im.tabs) && g.leave == c.pc + |loop|
             && g.iter == c.pc + IteratePoint(k, |CellsB(b, t1, d + 1)|, t, d)
    ensures Reaches(im, e, c, n, y)
    ensures Sim(c, e.base + d, g.leave, g, fuel, ExecCount(b, d + 1, count, fuel, WorldOf(c), e.num), n, y)
    decreases fuel, b, 7, 2 * count
  {
    hide Has, Reaches, PlainPools, Placed, Extends, CellsB, TabB, LoopCells, HeadTabs, Need, ExecBlock, Word, ExecCount,
         IteratePoint;
    var t1 := HeadTabs(k, t, d);
    var t2 := TabB(b, t1, d + 1);
    var body := CellsB(b, t1, d + 1);
    var top := c.pc;
    CountParts(im.code, top, k, body, t, t2, d, g);
    MarkRuns(im, e, c);
    var c1 := c.(pc := top + 1);
    KeptAll(c.counters, e.base + d + 1);
    n, y := BlockRuns(b, t1, d + 1, fuel, im, e, c1, g);
    var r := ExecBlock(b, d + 1, fuel, WorldOf(c), e.num);
    After(im, e, c, 1, c1, n, y, e.base + d, e.base + d + 1, top + 1 + |body|, g, fuel, fuel, r);
    Then(im, e, c, 1, c1, n, y);
    n := 1 + n;
    CountStep(b, d + 1, count, fuel, WorldOf(c), e.num);
    if r.o.Normal? || r.o.Iterated? {
      var c2 := y.c;
      assert c2.counters[e.base + d] == count;
      var m, z := CountBackRuns(k, b, t, d, count, fuel, im, e, c2, g, top);
      After(im, e, c, n, c2, m, z, e.base + d, e.base + d, g.leave, g, fuel, fuel,
            ExecCount(b, d + 1, count, fuel, WorldOf(c), e.num));
      n, y := n + m, z;
    }
  }

  lemma CountParts(code: seq<Byte>, top: nat, k: DoKind, body: seq<Code>, t: Tabs, t': Tabs, d: nat, g: Targets)
    requires k.Count? && d < CTL_MAX && Placed(code, top, LoopCells(k, body, t, t', d), g)
    ensures var p := top + 1 + |body|;
            Has(code, top, [OP_NEWCLAUSE]) && Placed(code, top + 1, body, g) && Has(code, p, [OP_DECFOR, d] + Word(3))
            && Has(code, p + 4, [OP_JMP] + Word(top - (p + 7))) && top + |LoopCells(k, body, t, t', d)| == p + 7 <= |code|
            && top + IteratePoint(k, |body|, t, d) == p
  {
    hide Has, Placed, Word;
    LoopPlacedParts(code, top, k, body, t, t', d, g);
    PlacedBytes(code, top + 1 + |body|, [OP_DECFOR, d] + Word(3), g);
  }

  lemma CountStep(b: Block, d: nat, count: int, fuel: nat, w: World, n: Settings)
    ensures var r := ExecBlock(b, d, fuel, w, n);
            ExecCount(b, d, count, fuel, w, n)
              == if !(r.o.Normal? || r.o.Iterated?) then r
                 else if count > 1 then ExecCount(b, d, count - 1, fuel, r.w, n) else Result(Normal, r.w)
  {
    hide ExecBlock;
  }

  // Behind the body: one round less to go, and back to the top if any is left.
  lemma {:induction false} CountBackRuns(k: DoKind, b: Block, t: Tabs, d: nat, count: int, fuel: nat, im: Image, e: Env, c: Core, g: Targets, top: nat)
    returns (n: nat, y: Next)
    requires k.Count? && Ready(im, e, c, g) && SmallB(b) && d < CTL_MAX && DepthOkB(b, d + 1)
    requires count >= 1 && e.base + d < |c.counters| && c.counters[e.base + d] == count
    requires var t1 := HeadTabs(k, t, d);
             var t2 := TabB(b, t1, d + 1);
             var loop := LoopCells(k, CellsB(b, t1, d + 1), t, t2, d);
             Placed(im.code, top, loop, g) && Extends(t2, im.tabs) && g.leave == top + |loop| == c.pc + 7
             && g.iter == top + IteratePoint(k, |CellsB(b, t1, d + 1)|, t, d)
             && Has(im.code, c.pc, [OP_DECFOR, d] + Word(3)) && Has(im.code, c.pc + 4, [OP_JMP] + Word(top - (c.pc + 7)))
    ensures Reaches(im, e, c, n, y)
    ensures var w := WorldOf(c);
            Sim(c, e.base + d, g.leave, g, fuel,
                if count > 1 then ExecCount(b, d + 1, count - 1, fuel, w, e.num) else Result(Normal, w), n, y)
    decreases fuel, b, 7, 2 * count - 1
  {
    hide Has, Reaches, PlainPools, Placed, Extends, CellsB, TabB, LoopCells, HeadTabs, Need, ExecCount, Word, IteratePoint;
    DecForRuns(d, im, e, c);
    var c1 := c.(counters := c.counters[e.base + d := count - 1], pc := if count - 1 <= 0 then c.pc + 7 else c.pc + 4);
    n, y := 1, Run(c1);
    if count > 1 {
      JumpRuns(OP_JMP, top, im, e, c1);
      var c2 := c1.(pc := top);
      Then(im, e, c, 1, c1, 1, Run(c2));
      var m, z := CountRuns(k, b, t, d, count - 1, fuel, im, e, c2, g);
      After(im, e, c, 2, c2, m, z, e.base + d, e.base + d, g.leave, g, fuel, fuel,
            ExecCount(b, d + 1, count - 1, fuel, WorldOf(c), e.num));
      n, y := 2 + m, z;
    }
  }
}
