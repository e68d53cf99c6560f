/** The code of statements.  A jump to the end or the iterate point of an enclosing DO, or to the end of
an enclosing SELECT, is a hole until that block is complete. */
module StmtCode {
  import opened Options
  import opened NumberText
  import opened Bytecode
  import opened Tokens
  import opened ExprSyntax
  import opened ExprCode
  import opened StmtSyntax

  datatype HoleKind = LeaveHole | SelectHole | IterateHole

  /** A code byte, or a byte of a displacement not known yet. */
  datatype Code = B(b: Byte) | Hole(k: HoleKind, high: bool)

  function Bytes(s: seq<Byte>): (r: seq<Code>)
    ensures |r| == |s| && forall i :: 0 <= i < |s| ==> r[i] == B(s[i])
  {
    seq(|s|, i requires 0 <= i < |s| => B(s[i]))
  }

  function HoleJump(op: Byte, k: HoleKind): seq<Code> { [B(op), Hole(k, false), Hole(k, true)] }

  function Jump(op: Byte, off: int): (r: seq<Code>)
    ensures |r| == 3
  {
    Bytes([op] + Word(off))
  }

  /** The byte at position i of a hole whose jump goes to target. */
  function HoleByte(high: bool, i: int, target: int): Byte
  {
    if high then Hi(target - (i + 1)) else Lo(target - (i + 2))
  }

  function FillCell(c: Code, k: HoleKind, i: int, target: int): Code
  {
    if c.Hole? && c.k == k then B(HoleByte(c.high, i, target)) else c
  }

  /** The cells cs, standing from position `at` on, with the holes of kind k filled to jump to target. */
  function Fill(cs: seq<Code>, k: HoleKind, at: int, target: int): (r: seq<Code>)
    ensures |r| == |cs|
  {
    seq(|cs|, i requires 0 <= i < |cs| => FillCell(cs[i], k, at + i, target))
  }

  // ---- DO ------------------------------------------------------------------

  /** The name of a variable the compiler makes up for a DO at depth d. */
  function DoSym(d: nat, suffix: string): string
  {
    "__DO" + [CharOf(d % 10)] + "_" + suffix
  }

  function Limit(d: nat): Expr { Var(DoSym(d, "LIM")) }

  function Stride(d: nat): Expr { Var(DoSym(d, "STP")) }

  function Remaining(d: nat): Expr { Var(DoSym(d, "FOR")) }

  /** step > 0 and v <= limit, or not step > 0 and v >= limit. */
  function ToTest(v: string, d: nat): Expr
  {
    Bin(Or, Bin(And, Bin(Gt, Stride(d), Expr.Lit("0")), Bin(Le, Var(v), Limit(d))),
            Bin(And, Not(Bin(Gt, Stride(d), Expr.Lit("0"))), Bin(Ge, Var(v), Limit(d))))
  }

  function ForTest(d: nat): Expr { Bin(Gt, Remaining(d), Expr.Lit("0")) }

  /** Evaluate e and store it in n. */
  function SetCode(n: string, e: Expr, t: Tabs): seq<Byte> { CodeE(e, t) + StoreCode(t, n) }

  function ToTabs(v: string, t: Tabs, d: nat): Tabs
  {
    AddSym(AddSym(AddSym(t, v), DoSym(d, "LIM")), DoSym(d, "STP"))
  }

  function ForTabs(k: DoKind, t: Tabs, d: nat): Tabs
    requires k.To?
  {
    AddSym(TabE(k.step, TabE(k.limit, TabE(k.start, ToTabs(k.v, t, d)))), DoSym(d, "FOR"))
  }

  /** What runs once, before the loop. */
  function HeadCode(k: DoKind, t: Tabs, d: nat): seq<Byte>
    requires d < CTL_MAX
  {
    match k
    case Count(n) => CodeE(n, t) + [OP_FORINIT, d]
    case To(v, start, limit, step, hasFor, times) =>
      var t0 := ToTabs(v, t, d);
      var t1 := TabE(start, t0);
      var t2 := TabE(limit, t1);
      SetCode(v, start, t0) + SetCode(DoSym(d, "LIM"), limit, t1) + SetCode(DoSym(d, "STP"), step, t2)
        + if hasFor then SetCode(DoSym(d, "FOR"), times, ForTabs(k, t, d)) else []
    case _ => []
  }

  /** Tables when the body starts. */
  function HeadTabs(k: DoKind, t: Tabs, d: nat): Tabs
  {
    match k
    case Count(n) => TabE(n, t)
    case While(c) => TabE(c, t)
    case To(v, start, limit, step, hasFor, times) =>
      var t3 := TabE(step, TabE(limit, TabE(start, ToTabs(v, t, d))));
      var t4 := TabE(ToTest(v, d), if hasFor then TabE(times, ForTabs(k, t, d)) else t3);
      if hasFor then TabE(ForTest(d), t4) else t4
    case _ => t
  }

  /** Tables when the test at the top of the loop is compiled. */
  function TestTabs(k: DoKind, t: Tabs, d: nat): Tabs
    requires k.To?
  {
    if k.hasFor then TabE(k.times, ForTabs(k, t, d))
    else TabE(k.step, TabE(k.limit, TabE(k.start, ToTabs(k.v, t, d))))
  }

  function ForCells(k: DoKind, t: Tabs, d: nat): seq<Code>
    requires k.To?
  {
    if k.hasFor then Bytes(CodeE(ForTest(d), TabE(ToTest(k.v, d), TestTabs(k, t, d)))) + HoleJump(OP_JF, LeaveHole) else []
  }

  /** The test at the top; rest is the number of bytes between it and the end of the loop. */
  function TestCells(k: DoKind, t: Tabs, d: nat, rest: nat): seq<Code>
  {
    match k
    case While(c) => Bytes(CodeE(c, t)) + Jump(OP_JF, rest)
    case To(v, _, _, _, _, _) =>
      Bytes(CodeE(ToTest(v, d), TestTabs(k, t, d))) + Jump(OP_JF, |ForCells(k, t, d)| + rest) + ForCells(k, t, d)
    case _ => []
  }

  /** What runs behind the body, t being the tables there. */
  function TailCells(k: DoKind, t: Tabs, d: nat): seq<Code>
    requires d < CTL_MAX
  {
    match k
    case Until(c) => Bytes(CodeE(c, t)) + HoleJump(OP_JT, LeaveHole)
    case Count(_) => Bytes([OP_DECFOR, d] + Word(3))
    case To(v, _, _, _, hasFor, _) =>
      Bytes(SetCode(v, Bin(Add, Var(v), Stride(d)), t)
        + if hasFor then SetCode(DoSym(d, "FOR"), Bin(Sub, Remaining(d), Expr.Lit("1")), TabE(Bin(Add, Var(v), Stride(d)), t))
          else [])
    case _ => []
  }

  function TailTabs(k: DoKind, t: Tabs, d: nat): Tabs
  {
    match k
    case Until(c) => TabE(c, t)
    case To(v, _, _, _, hasFor, _) =>
      var t1 := TabE(Bin(Add, Var(v), Stride(d)), t);
      if hasFor then TabE(Bin(Sub, Remaining(d), Expr.Lit("1")), t1) else t1
    case _ => t
  }

  function BackLength(k: DoKind): nat { if k.Group? then 0 else 3 }

  /** The loop from its top to its end: clause mark, test, body, tail, jump back. */
  function LoopCells(k: DoKind, body: seq<Code>, t: Tabs, t': Tabs, d: nat): seq<Code>
    requires d < CTL_MAX
  {
    var tail := TailCells(k, t', d);
    var front := [B(OP_NEWCLAUSE)] + TestCells(k, t, d, |body| + |tail| + BackLength(k)) + body + tail;
    front + if k.Group? then [] else Jump(OP_JMP, -(|front| + 3))
  }

  /** Where ITERATE goes, counted from the top. */
  function IteratePoint(k: DoKind, body: nat, t: Tabs, d: nat): nat
  {
    if k.Forever? || k.While? then 0 else 1 + |TestCells(k, t, d, 0)| + body
  }

  function CloseLoop(loop: seq<Code>, iterate: int): seq<Code>
  {
    Fill(Fill(loop, LeaveHole, 0, |loop|), IterateHole, 0, iterate)
  }

  function DoCells(k: DoKind, body: seq<Code>, t: Tabs, t': Tabs, d: nat): seq<Code>
    requires d < CTL_MAX
  {
    var loop := CloseLoop(LoopCells(k, body, t, t', d), IteratePoint(k, |body|, t, d));
    Bytes(HeadCode(k, t, d)) + (if k.Count? then Jump(OP_JF, |loop|) else []) + loop
  }

  // ---- Statements ------------------------------------------------------------

  function TabS(s: Stmt, t: Tabs, d: nat): Tabs
    decreases s
  {
    match s
    case Label(n) => AddSym(t, n)
    case Assign(n, e) => TabE(e, AddSym(t, n))
    case Say(e) => TabE(e, t)
    case ExitWith(e) => TabE(e, t)
    case CallTo(n, a) => TabA(a, AddSym(t, n))
    case ReturnWith(e) => TabE(e, t)
    case If(c, s1, hasElse, s2) =>
      var t1 := TabS(s1, TabE(c, t), d);
      if hasElse then TabS(s2, t1, d) else t1
    case Select(ws) => TabW(ws, t, d + 1)
    case Do(k, b) => TailTabs(k, TabB(b, HeadTabs(k, t, d), d + 1), d)
    case _ => t
  }

  function TabB(b: Block, t: Tabs, d: nat): Tabs
    decreases b
  {
    match b case Done => t case Step(s, r) => TabB(r, TabS(s, t, d), d)
  }

  function TabW(ws: Whens, t: Tabs, d: nat): Tabs
    decreases ws
  {
    match ws
    case When(c, s, r) => TabW(r, TabS(s, TabE(c, t), d), d)
    case Otherwise(b) => TabB(b, t, d)
    case NoOtherwise => t
  }

  /** DO and SELECT frames around every block stay within the control stack. */
  predicate DepthOk(s: Stmt, d: nat)
    decreases s
  {
    match s
    case If(_, s1, _, s2) => DepthOk(s1, d) && DepthOk(s2, d)
    case Select(ws) => d < CTL_MAX && DepthOkW(ws, d + 1)
    case Do(_, b) => d < CTL_MAX && DepthOkB(b, d + 1)
    case _ => true
  }

  predicate DepthOkB(b: Block, d: nat)
    decreases b
  {
    match b case Done => true case Step(s, r) => DepthOk(s, d) && DepthOkB(r, d)
  }

  predicate DepthOkW(ws: Whens, d: nat)
    decreases ws
  {
    match ws
    case When(_, s, r) => DepthOk(s, d) && DepthOkW(r, d)
    case Otherwise(b) => DepthOkB(b, d)
    case NoOtherwise => true
  }

  /** Behind the clause mark. */
  function InnerS(s: Stmt, t: Tabs, d: nat): seq<Code>
    requires DepthOk(s, d)
    decreases s, 0
  {
    match s
    case Refused => Bytes([OP_RAISE, SYNTAX_CTL_STACK])
    case Assign(n, e) => Bytes(SetCode(n, e, AddSym(t, n)))
    case Say(e) => Bytes(CodeE(e, t) + [OP_SAY])
    case Exit => Bytes([OP_EXIT])
    case ExitWith(e) => Bytes(CodeE(e, t) + [OP_EXIT_RC])
    case CallTo(n, a) => Bytes(CodeA(a, AddSym(t, n)) + CallCode(OP_CALL, t, n, CountA(a)))
    case Return => Bytes([OP_RETURN])
    case ReturnWith(e) => Bytes(CodeE(e, t) + [OP_RETURNV])
    case If(c, s1, hasElse, s2) =>
      var a := CellsS(s1, TabE(c, t), d);
      var b := if hasElse then CellsS(s2, TabS(s1, TabE(c, t), d), d) else [];
      if hasElse then Bytes(CodeE(c, t)) + Jump(OP_JF, |a| + 3) + a + Jump(OP_JMP, |b|) + b
      else Bytes(CodeE(c, t)) + Jump(OP_JF, |a|) + a
    case Select(ws) => Fill(CellsW(ws, t, d + 1), SelectHole, 0, |CellsW(ws, t, d + 1)|)
    case Do(k, b) =>
      var t1 := HeadTabs(k, t, d);
      DoCells(k, CellsB(b, t1, d + 1), t, TabB(b, t1, d + 1), d)
    case Leave(toSelect) => HoleJump(OP_LEAVE, if toSelect then SelectHole else LeaveHole)
    case Iterate => HoleJump(OP_ITERATE, IterateHole)
    case _ => []
  }

  function CellsS(s: Stmt, t: Tabs, d: nat): seq<Code>
    requires DepthOk(s, d)
    decreases s, 1
  {
    match s
    case Null => []
    case Label(n) => Bytes([OP_LABEL] + Word(Find(t.syms, n)))
    case _ => [B(OP_NEWCLAUSE)] + InnerS(s, t, d)
  }

  function CellsB(b: Block, t: Tabs, d: nat): seq<Code>
    requires DepthOkB(b, d)
    decreases b, 1
  {
    match b case Done => [] case Step(s, r) => CellsS(s, t, d) + CellsB(r, TabS(s, t, d), d)
  }

  function CellsW(ws: Whens, t: Tabs, d: nat): seq<Code>
    requires DepthOkW(ws, d)
    decreases ws, 1
  {
    match ws
    case When(c, s, r) =>
      var t1 := TabE(c, t);
      var a := CellsS(s, t1, d);
      Bytes(CodeE(c, t)) + Jump(OP_JF, |a| + 3) + a + HoleJump(OP_JMP, SelectHole) + CellsW(r, TabS(s, t1, d), d)
    case Otherwise(b) => CellsB(b, t, d)
    case NoOtherwise => []
  }
}
