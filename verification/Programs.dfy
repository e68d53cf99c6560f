/** Whole programs: what the parser accepts compiles to an image without open jumps, and running the
image, with or without the integer cache, is executing the program. */
module Programs {
  import opened Options
  import opened NumberText
  import opened ArithOps
  import opened IntegerFastPath
  import opened Bytecode
  import opened VmValues
  import opened VarPool
  import opened CoreVm
  import opened CacheRefinement
  import opened Tokens
  import opened ExprSyntax
  import opened ExprCode
  import opened StmtSyntax
  import opened StmtCode
  import opened StmtSemantics
  import opened Placement
  import opened LoopParts
  import opened Simulation

  /** Every LEAVE and ITERATE has a block to go to. */
  predicate ClosedS(s: Stmt, inLoop: bool, inSelect: bool)
    decreases s
  {
    match s
    case If(_, a, _, b) => ClosedS(a, inLoop, inSelect) && ClosedS(b, inLoop, inSelect)
    case Select(ws) => ClosedW(ws, inLoop, true)
    case Do(_, b) => ClosedB(b, true, inSelect)
    case Leave(toSelect) => if toSelect then inSelect else inLoop
    case Iterate => inLoop
    case _ => true
  }

  predicate ClosedB(b: Block, inLoop: bool, inSelect: bool)
    decreases b
  {
    match b case Done => true case Step(s, r) => ClosedS(s, inLoop, inSelect) && ClosedB(r, inLoop, inSelect)
  }

  predicate ClosedW(ws: Whens, inLoop: bool, inSelect: bool)
    decreases ws
  {
    match ws
    case When(_, s, r) => ClosedS(s, inLoop, inSelect) && ClosedW(r, inLoop, inSelect)
    case Otherwise(b) => ClosedB(b, inLoop, inSelect)
    case NoOtherwise => true
  }

  /** What holds of every parsed statement. */
  predicate GoodS(s: Stmt, x: Ctl)
  {
    (CallFreeS(s) ==> SmallS(s)) && DepthOk(s, x.loops) && ClosedS(s, x.inLoop, x.inSelect)
  }

  predicate GoodB(b: Block, x: Ctl)
  {
    (CallFreeB(b) ==> SmallB(b)) && DepthOkB(b, x.loops) && ClosedB(b, x.inLoop, x.inSelect)
  }

  predicate GoodW(ws: Whens, x: Ctl)
  {
    (CallFreeW(ws) ==> SmallW(ws)) && DepthOkW(ws, x.loops) && ClosedW(ws, x.inLoop, x.inSelect)
  }

  lemma FullIsSmall(ts: Source, i: nat)
    requires i < |ts| && FullExpr(ts, i).Got?
    ensures CallFree(FullExpr(ts, i).v) ==> Small(FullExpr(ts, i).v)
  {
    hide Need;
    if CallFree(FullExpr(ts, i).v) { ExprDepth(ts, i); }
  }

  lemma LevelIsSmall(ts: Source, i: nat)
    requires i < |ts| && Level0(ts, i).Got?
    ensures CallFree(Level0(ts, i).v) ==> Small(Level0(ts, i).v)
  {
    hide Need, ParseLevel;
    if CallFree(Level0(ts, i).v) { DepthBoundsStack(ts, i); }
  }

  lemma {:induction false} StmtIsGood(ts: Source, i: nat, x: Ctl)
    requires i < |ts| && ParseStmt(ts, i, x).Got?
    ensures GoodS(ParseStmt(ts, i, x).v, x)
    decreases |ts| - i, 1
  {
    hide FullExpr, EndsClause, Unmodelled, Named, IsAssign, SkipToEnd, Need, SkipEoc, ConsumeEnd, Full;
    FullBound(x);
    if EndsClause(ts, i) {
    } else if IsKeyword(ts, i, "IF") && !Full(x) {
      IfIsGood(ts, i + 1, x.(ifs := x.ifs + 1));
    } else if IsKeyword(ts, i, "SELECT") && !Full(x) {
      SelectIsGood(ts, i + 1, x);
    } else if IsKeyword(ts, i, "DO") && !Full(x) {
      DoIsGood(ts, i + 1, x);
    } else {
      StraightIsGood(ts, i, x);
    }
  }

  lemma StraightIsGood(ts: Source, i: nat, x: Ctl)
    requires i < |ts| && ParseStmt(ts, i, x).Got? && !EndsClause(ts, i)
    requires Full(x) || !(IsKeyword(ts, i, "IF") || IsKeyword(ts, i, "SELECT") || IsKeyword(ts, i, "DO"))
    ensures GoodS(ParseStmt(ts, i, x).v, x)
  {
    hide EndsClause, Unmodelled, IsAssign, Full, GoodS,
         ParseIf, ParseSelect, ParseDo, ParseExit, ParseSay, ParseAssign, ParseCallTo, ParseReturn, ParseIterate, ParseLeave, ParseRefused;
    PlainIsGood(ts, i, x);
    ExprLinesAreGood(ts, i + 1, x);
    if i + 2 < |ts| { AssignIsGood(ts, i + 2, ts[i].upper, x); }
  }

  lemma PlainIsGood(ts: Source, i: nat, x: Ctl)
    requires i < |ts|
    ensures !IsKeyword(ts, i, "END") && ParseRefused(ts, i).Got? ==> GoodS(ParseRefused(ts, i).v, x)
    ensures GoodS(Nop, x)
    ensures i + 1 < |ts| && ParseIterate(ts, i, x).Got? ==> GoodS(ParseIterate(ts, i, x).v, x)
    ensures i + 1 < |ts| && ParseLeave(ts, i, x).Got? ==> GoodS(ParseLeave(ts, i, x).v, x)
  {
    hide EndsClause, SkipToEnd, Named;
  }

  lemma ExprLinesAreGood(ts: Source, i: nat, x: Ctl)
    requires i < |ts|
    ensures ParseExit(ts, i).Got? ==> GoodS(ParseExit(ts, i).v, x)
    ensures ParseSay(ts, i).Got? ==> GoodS(ParseSay(ts, i).v, x)
    ensures ParseReturn(ts, i).Got? ==> GoodS(ParseReturn(ts, i).v, x)
    ensures ParseCallTo(ts, i).Got? ==> GoodS(ParseCallTo(ts, i).v, x)
  {
    hide FullExpr, EndsClause, Small, ParseCallArgs;
    SmallLits();
    if FullExpr(ts, i).Got? { FullIsSmall(ts, i); }
  }

  lemma AssignIsGood(ts: Source, i: nat, name: string, x: Ctl)
    requires i < |ts|
    ensures ParseAssign(ts, i, name).Got? ==> GoodS(ParseAssign(ts, i, name).v, x)
  {
    hide FullExpr, Small;
    if FullExpr(ts, i).Got? { FullIsSmall(ts, i); }
  }

  lemma {:induction false} SelectIsGood(ts: Source, i: nat, x: Ctl)
    requires i < |ts| && x.loops < CTL_MAX && ParseSelect(ts, i, x).Got?
    ensures GoodS(ParseSelect(ts, i, x).v, x)
    decreases |ts| - i, 5
  {
    hide ParseWhens;
    WhensAreGood(ts, SkipEoc(ts, i), x.(loops := x.loops + 1, inSelect := true));
  }

  lemma FullBound(x: Ctl)
    ensures !Full(x) ==> x.loops < CTL_MAX
  {
  }

  lemma {:induction false} IfIsGood(ts: Source, i: nat, x: Ctl)
    requires i < |ts| && ParseIf(ts, i, x).Got?
    ensures GoodS(ParseIf(ts, i, x).v, x) && ParseIf(ts, i, x).v.If?
    decreases |ts| - i, 2
  {
    hide FullExpr, ParseStmt, Need, GoodS;
    var (c, j) := FullExpr(ts, i).Extract();
    FullIsSmall(ts, i);
    var a := ConsumeNewline(ts, j + 1);
    var (t, k) := ParseStmt(ts, a, x).Extract();
    StmtIsGood(ts, a, x);
    var m := ConsumeEoc(ts, k);
    if IsKeyword(ts, m, "ELSE") { StmtIsGood(ts, ConsumeNewline(ts, m + 1), x); }
    GoodIf(ParseIf(ts, i, x).v, x);
  }

  lemma GoodIf(s: Stmt, x: Ctl)
    requires s.If? && (CallFree(s.c) ==> Small(s.c)) && GoodS(s.t, x) && (s.f.Null? || GoodS(s.f, x))
    ensures GoodS(s, x)
  {
  }

  lemma {:induction false} WhensAreGood(ts: Source, i0: nat, x: Ctl)
    requires i0 < |ts| && ParseWhens(ts, i0, x).Got?
    ensures GoodW(ParseWhens(ts, i0, x).v, x)
    decreases |ts| - i0, 4
  {
    hide FullExpr, ParseStmt, ParseBlock, Need;
    var i := SkipEoc(ts, i0);
    if IsKeyword(ts, i, "WHEN") {
      var (c, j) := FullExpr(ts, i + 1).Extract();
      FullIsSmall(ts, i + 1);
      var a := ConsumeNewline(ts, j + 1);
      var (s, k) := ParseStmt(ts, a, x).Extract();
      StmtIsGood(ts, a, x);
      WhensAreGood(ts, ConsumeEoc(ts, k), x);
    } else if IsKeyword(ts, i, "OTHERWISE") {
      BlockIsGood(ts, ConsumeEoc(ts, i + 1), x);
    }
  }

  lemma {:induction false} BlockIsGood(ts: Source, i0: nat, x: Ctl)
    requires i0 < |ts| && ParseBlock(ts, i0, x).Got?
    ensures GoodB(ParseBlock(ts, i0, x).v, x)
    decreases |ts| - i0, 4
  {
    hide ParseStmt, Need;
    var i := SkipEoc(ts, i0);
    if ts[i].kind != Eof && !IsKeyword(ts, i, "END") {
      var (s, j) := ParseStmt(ts, i, x).Extract();
      StmtIsGood(ts, i, x);
      BlockIsGood(ts, ConsumeEoc(ts, j), x);
    }
  }

  lemma HeaderIsGood(ts: Source, i: nat)
    requires i < |ts| && ParseHeader(ts, i).Got?
    ensures (CallFreeKind(ParseHeader(ts, i).v) ==> SmallKind(ParseHeader(ts, i).v)) || ParseHeader(ts, i).v.Until?
  {
    hide Level0, Need, SkipClause, ParseTo;
    if Level0(ts, i).Got? { LevelIsSmall(ts, i); }
    if i + 1 < |ts| && Level0(ts, i + 1).Got? { LevelIsSmall(ts, i + 1); }
    if i + 2 < |ts| && ParseTo(ts, i + 2, ts[i].upper).Got? { ToIsGood(ts, i + 2, ts[i].upper); }
  }

  lemma ToIsGood(ts: Source, i: nat, v: string)
    requires i < |ts| && ParseTo(ts, i, v).Got?
    ensures CallFreeKind(ParseTo(ts, i, v).v) ==> SmallKind(ParseTo(ts, i, v).v)
  {
    hide Level0, Small;
    SmallLits();
    LevelIsSmall(ts, i);
    var (a, j) := Level0(ts, i).Extract();
    LevelIsSmall(ts, j + 1);
    var (b, k) := Level0(ts, j + 1).Extract();
    var m := k;
    if IsKeyword(ts, k, "BY") {
      LevelIsSmall(ts, k + 1);
      m := Level0(ts, k + 1).next;
    }
    if IsKeyword(ts, m, "FOR") { LevelIsSmall(ts, m + 1); }
  }

  lemma SmallLits()
    ensures Small(Expr.Lit("1")) && Small(Expr.Lit(""))
  {
  }

  lemma {:induction false} DoIsGood(ts: Source, i: nat, x: Ctl)
    requires i < |ts| && x.loops < CTL_MAX && ParseDo(ts, i, x).Got?
    ensures GoodS(ParseDo(ts, i, x).v, x)
    decreases |ts| - i, 5
  {
    hide ParseHeader, ParseBlock, Level0, Need, SmallKind;
    var (kind, j) := ParseHeader(ts, i).Extract();
    HeaderIsGood(ts, i);
    var y := x.(loops := x.loops + 1, inLoop := true);
    BlockIsGood(ts, j, y);
    if kind.Until? {
      LevelIsSmall(ts, i + 1);
      UntilIsGood(Level0(ts, i + 1).v);
    }
  }

  lemma UntilIsGood(c: Expr)
    requires CallFree(c) ==> Small(c)
    ensures CallFreeKind(Until(c)) ==> SmallKind(Until(c))
  {
  }

  lemma {:induction false} ProgramIsGood(ts: Source, i: nat)
    requires i < |ts| && ParseProgram(ts, i).Got?
    ensures GoodB(ParseProgram(ts, i).v, TOP)
    decreases |ts| - i
  {
    hide ParseStmt, IsLabel, IsSemi, Need;
    IsLabelBound(ts, i);
    if ts[i].kind == Eof {
    } else if IsEoc(ts, i) {
      ProgramIsGood(ts, i + 1);
    } else if IsLabel(ts, i) {
      ProgramIsGood(ts, i + 2);
      GoodStep(Label(ts[i].upper), ParseProgram(ts, i + 2).v);
    } else {
      StmtIsGood(ts, i, TOP);
      ProgramIsGood(ts, ConsumeEoc(ts, ParseStmt(ts, i, TOP).next));
    }
  }

  lemma GoodStep(s: Stmt, b: Block)
    requires GoodS(s, TOP) && GoodB(b, TOP)
    ensures GoodB(Step(s, b), TOP)
  {
  }

  lemma IsLabelBound(ts: Source, i: nat)
    requires i < |ts|
    ensures IsLabel(ts, i) ==> i + 2 < |ts|
  {
  }

  // ---- No open jumps -----------------------------------------------------------

  /** Holes are only of the kinds an enclosing block will fill. */
  predicate Only(cs: seq<Code>, inLoop: bool, inSelect: bool)
  {
    forall i :: 0 <= i < |cs| && cs[i].Hole? ==> if cs[i].k.SelectHole? then inSelect else inLoop
  }

  lemma OnlyJoin(a: seq<Code>, b: seq<Code>, inLoop: bool, inSelect: bool)
    requires Only(a, inLoop, inSelect) && Only(b, inLoop, inSelect)
    ensures Only(a + b, inLoop, inSelect)
  {
  }

  lemma TestAndTailOnly(k: DoKind, t: Tabs, t': Tabs, d: nat, rest: nat)
    requires d < CTL_MAX
    ensures Only(TestCells(k, t, d, rest), true, false) && Only(TailCells(k, t', d), true, false)
  {
    hide CodeE, SetCode, TestTabs, ToTest, ForTest, Word;
  }

  lemma LoopOnly(k: DoKind, body: seq<Code>, t: Tabs, t': Tabs, d: nat, inLoop: bool, inSelect: bool)
    requires d < CTL_MAX && Only(body, true, inSelect)
    ensures Only(DoCells(k, body, t, t', d), inLoop, inSelect)
  {
    hide CodeE, SetCode, HeadCode, TestTabs, ToTest, ForTest, Word, TailCells, TestCells;
    var tail := TailCells(k, t', d);
    var test := TestCells(k, t, d, |body| + |tail| + BackLength(k));
    TestAndTailOnly(k, t, t', d, |body| + |tail| + BackLength(k));
    OnlyJoin([B(OP_NEWCLAUSE)], test, true, inSelect);
    OnlyJoin([B(OP_NEWCLAUSE)] + test, body, true, inSelect);
    OnlyJoin([B(OP_NEWCLAUSE)] + test + body, tail, true, inSelect);
    var loop := LoopCells(k, body, t, t', d);
    assert Only(loop, true, inSelect);
    hide LoopCells;
    var it := IteratePoint(k, |body|, t, d);
    assert Only(CloseLoop(loop, it), false, inSelect);
  }

  lemma {:induction false} CellsOnly(s: Stmt, t: Tabs, d: nat, inLoop: bool, inSelect: bool)
    requires DepthOk(s, d) && ClosedS(s, inLoop, inSelect)
    ensures Only(CellsS(s, t, d), inLoop, inSelect)
    decreases s
  {
    hide CodeE, TabE, DoCells, Word, HeadTabs, Fill, SetCode, TabS, TabB, CellsB, CellsW, Find;
    match s {
      case If(c, a, hasElse, b) => IfOnly(s, t, d, inLoop, inSelect);
      case Select(ws) =>
        var cs := CellsW(ws, t, d + 1);
        WhensOnly(ws, t, d + 1, inLoop, true);
        FillOnly(cs, |cs|, inLoop, inSelect);
        OnlyJoin([B(OP_NEWCLAUSE)], InnerS(s, t, d), inLoop, inSelect);
      case Do(k, b) =>
        var t1 := HeadTabs(k, t, d);
        BlockOnly(b, t1, d + 1, true, inSelect);
        LoopOnly(k, CellsB(b, t1, d + 1), t, TabB(b, t1, d + 1), d, inLoop, inSelect);
        OnlyJoin([B(OP_NEWCLAUSE)], InnerS(s, t, d), inLoop, inSelect);
      case _ =>
    }
  }

  lemma FillOnly(cs: seq<Code>, target: int, inLoop: bool, inSelect: bool)
    requires Only(cs, inLoop, true)
    ensures Only(Fill(cs, SelectHole, 0, target), inLoop, inSelect)
  {
  }

  lemma {:induction false} IfOnly(s: Stmt, t: Tabs, d: nat, inLoop: bool, inSelect: bool)
    requires s.If? && DepthOk(s, d) && ClosedS(s, inLoop, inSelect)
    ensures Only(CellsS(s, t, d), inLoop, inSelect)
    decreases s, 0
  {
    hide CodeE, TabE, TabS, Only, Word, CellsS;
    var t1 := TabE(s.c, t);
    var t2 := TabS(s.t, t1, d);
    var a := CellsS(s.t, t1, d);
    var b := if s.hasElse then CellsS(s.f, t2, d) else [];
    var over := if s.hasElse then Jump(OP_JMP, |b|) else [];
    CellsOnly(s.t, t1, d, inLoop, inSelect);
    if s.hasElse { CellsOnly(s.f, t2, d, inLoop, inSelect); }
    BytesOnly(CodeE(s.c, t), inLoop, inSelect);
    JumpOnly(OP_JF, if s.hasElse then |a| + 3 else |a|, inLoop, inSelect);
    JumpOnly(OP_JMP, |b|, inLoop, inSelect);
    NoneOnly(inLoop, inSelect);
    IfParts(s, t, d, a + over + b);
    OnlyJoin(a, over, inLoop, inSelect);
    OnlyJoin(a + over, b, inLoop, inSelect);
    var front := Bytes(CodeE(s.c, t)) + Jump(OP_JF, if s.hasElse then |a| + 3 else |a|);
    OnlyJoin(Bytes(CodeE(s.c, t)), Jump(OP_JF, if s.hasElse then |a| + 3 else |a|), inLoop, inSelect);
    OnlyJoin(front, a + over + b, inLoop, inSelect);
    MarkedOnly(s, t, d, inLoop, inSelect);
  }

  lemma MarkedOnly(s: Stmt, t: Tabs, d: nat, inLoop: bool, inSelect: bool)
    requires !s.Null? && !s.Label? && DepthOk(s, d) && Only(InnerS(s, t, d), inLoop, inSelect)
    ensures Only(CellsS(s, t, d), inLoop, inSelect)
  {
    hide InnerS;
    OnlyJoin([B(OP_NEWCLAUSE)], InnerS(s, t, d), inLoop, inSelect);
  }

  lemma NoneOnly(inLoop: bool, inSelect: bool)
    ensures Only([], inLoop, inSelect)
  {
  }

  lemma BytesOnly(s: seq<Byte>, inLoop: bool, inSelect: bool)
    ensures Only(Bytes(s), inLoop, inSelect)
  {
  }

  lemma JumpOnly(op: Byte, off: int, inLoop: bool, inSelect: bool)
    ensures Only(Jump(op, off), inLoop, inSelect)
  {
    BytesOnly([op] + Word(off), inLoop, inSelect);
  }

  lemma {:induction false} BlockOnly(b: Block, t: Tabs, d: nat, inLoop: bool, inSelect: bool)
    requires DepthOkB(b, d) && ClosedB(b, inLoop, inSelect)
    ensures Only(CellsB(b, t, d), inLoop, inSelect)
    decreases b
  {
    hide CellsS, TabS;
    if b.Step? {
      CellsOnly(b.s, t, d, inLoop, inSelect);
      BlockOnly(b.rest, TabS(b.s, t, d), d, inLoop, inSelect);
      OnlyJoin(CellsS(b.s, t, d), CellsB(b.rest, TabS(b.s, t, d), d), inLoop, inSelect);
    }
  }

  lemma {:induction false} WhensOnly(ws: Whens, t: Tabs, d: nat, inLoop: bool, inSelect: bool)
    requires inSelect && DepthOkW(ws, d) && ClosedW(ws, inLoop, inSelect)
    ensures Only(CellsW(ws, t, d), inLoop, inSelect)
    decreases ws
  {
    hide CellsS, CellsB, TabS, TabE, CodeE, Word, Only;
    match ws {
      case When(c, s, r) =>
        var t1 := TabE(c, t);
        var a := CellsS(s, t1, d);
        CellsOnly(s, t1, d, inLoop, inSelect);
        WhensOnly(r, TabS(s, t1, d), d, inLoop, inSelect);
        BytesOnly(CodeE(c, t), inLoop, inSelect);
        JumpOnly(OP_JF, |a| + 3, inLoop, inSelect);
        SelectJumpOnly(inLoop);
        var rest := CellsW(r, TabS(s, t1, d), d);
        OnlyJoin(Bytes(CodeE(c, t)), Jump(OP_JF, |a| + 3), inLoop, inSelect);
        OnlyJoin(Bytes(CodeE(c, t)) + Jump(OP_JF, |a| + 3), a, inLoop, inSelect);
        OnlyJoin(Bytes(CodeE(c, t)) + Jump(OP_JF, |a| + 3) + a, HoleJump(OP_JMP, SelectHole), inLoop, inSelect);
        OnlyJoin(Bytes(CodeE(c, t)) + Jump(OP_JF, |a| + 3) + a + HoleJump(OP_JMP, SelectHole), rest, inLoop, inSelect);
      case Otherwise(b) => BlockOnly(b, t, d, inLoop, inSelect);
      case NoOtherwise => NoneOnly(inLoop, inSelect);
    }
  }

  lemma SelectJumpOnly(inLoop: bool)
    ensures Only(HoleJump(OP_JMP, SelectHole), inLoop, true)
  {
  }

  // ---- Outcomes ------------------------------------------------------------------

  predicate Ends(o: StmtSemantics.Outcome, inLoop: bool, inSelect: bool)
  {
    match o case Left(toSelect) => if toSelect then inSelect else inLoop case Iterated => inLoop case _ => true
  }

  lemma {:induction false} StmtEnds(s: Stmt, d: nat, fuel: nat, w: World, n: Settings, inLoop: bool, inSelect: bool)
    requires ClosedS(s, inLoop, inSelect)
    ensures Ends(Exec(s, d, fuel, w, n).o, inLoop, inSelect)
    decreases fuel, s, 0, 0
  {
    hide Eval, Decide, Head, ExitCode, AssignTo;
    match s {
      case If(c, a, hasElse, b) =>
        StmtEnds(a, d, fuel, w, n, inLoop, inSelect);
        StmtEnds(b, d, fuel, w, n, inLoop, inSelect);
      case Select(ws) => WhensEnd(ws, d + 1, fuel, w, n, inLoop, true);
      case Do(k, b) =>
        var (h, count) := Head(k, d, w, n);
        HeadEnds(k, d, w, n);
        RoundEnds(b, d + 1, fuel, h.w, n, inSelect);
        CountEnds(b, d + 1, count, fuel, h.w, n, inSelect);
        LoopEnd(k, b, d, fuel, h.w, n, inSelect);
      case Assign(v, x) => AssignKeepsOut(v, x, w, n);
      case _ =>
    }
  }

  lemma HeadEnds(k: DoKind, d: nat, w: World, n: Settings)
    ensures var o := Head(k, d, w, n).0.o; o.Normal? || o.Raised?
  {
    hide Eval, DoSym;
  }

  lemma {:induction false} BlockEnds(b: Block, d: nat, fuel: nat, w: World, n: Settings, inLoop: bool, inSelect: bool)
    requires ClosedB(b, inLoop, inSelect)
    ensures Ends(ExecBlock(b, d, fuel, w, n).o, inLoop, inSelect)
    decreases fuel, b, 0, 0
  {
    hide Exec;
    if b.Step? {
      StmtEnds(b.s, d, fuel, w, n, inLoop, inSelect);
      BlockEnds(b.rest, d, fuel, Exec(b.s, d, fuel, w, n).w, n, inLoop, inSelect);
    }
  }

  lemma {:induction false} WhensEnd(ws: Whens, d: nat, fuel: nat, w: World, n: Settings, inLoop: bool, inSelect: bool)
    requires ClosedW(ws, inLoop, inSelect)
    ensures Ends(ExecWhens(ws, d, fuel, w, n).o, inLoop, inSelect)
    decreases fuel, ws, 0, 0
  {
    hide Exec, ExecBlock, Decide;
    match ws {
      case When(_, s, r) =>
        StmtEnds(s, d, fuel, w, n, inLoop, inSelect);
        WhensEnd(r, d, fuel, w, n, inLoop, inSelect);
      case Otherwise(b) => BlockEnds(b, d, fuel, w, n, inLoop, inSelect);
      case NoOtherwise =>
    }
  }

  lemma {:induction false} RoundEnds(b: Block, d: nat, fuel: nat, w: World, n: Settings, inSelect: bool)
    requires ClosedB(b, true, inSelect)
    ensures Ends(ExecRound(b, d, fuel, w, n).o, true, inSelect)
    decreases fuel, b, 0, 1
  {
    hide ExecBlock;
    BlockEnds(b, d, fuel, w, n, true, inSelect);
  }

  lemma {:induction false} CountEnds(b: Block, d: nat, count: int, fuel: nat, w: World, n: Settings, inSelect: bool)
    requires ClosedB(b, true, inSelect)
    ensures Ends(ExecCount(b, d, count, fuel, w, n).o, true, inSelect)
    decreases fuel, b, 1, if count < 0 then 0 else count
  {
    hide ExecRound;
    RoundEnds(b, d, fuel, w, n, inSelect);
    if count > 1 { CountEnds(b, d, count - 1, fuel, ExecRound(b, d, fuel, w, n).w, n, inSelect); }
  }

  lemma {:induction false} LoopEnd(k: DoKind, b: Block, d: nat, fuel: nat, w: World, n: Settings, inSelect: bool)
    requires ClosedB(b, true, inSelect)
    ensures Ends(ExecLoop(k, b, d, fuel, w, n).o, true, inSelect)
    decreases fuel, b, 2, 0
  {
    hide ExecRound, Test, Tail;
    RoundEnds(b, d + 1, fuel, w, n, inSelect);
    var r := ExecRound(b, d + 1, fuel, w, n);
    TailOutcome(k, d, r.w, n);
    if fuel > 0 { LoopEnd(k, b, d, fuel - 1, Tail(k, d, r.w, n).w, n, inSelect); }
  }

  // ---- Programs --------------------------------------------------------------------

  const NO_TABS := Tabs([], [])

  /** Holes are written as zero until they are filled. */
  function Written(cs: seq<Code>): (s: seq<Byte>)
    ensures |s| == |cs|
  {
    seq(|cs|, i requires 0 <= i < |cs| => if cs[i].B? then cs[i].b else 0)
  }

  function ImageOf(b: Block): Image
    requires DepthOkB(b, 0)
  {
    Image(Written(CellsB(b, NO_TABS, 0)) + [OP_EXIT], TabB(b, NO_TABS, 0))
  }

  function Zeroes(n: nat): (cs: seq<int>)
    ensures |cs| == n && forall i :: 0 <= i < n ==> cs[i] == 0
  {
    seq(n, _ => 0)
  }

  const START := Core(0, [], [Scope(map[], {})], Zeroes(DO_DEPTH), [])

  function Running(fast: bool, n: Settings): Env { Env(fast, n, 0, false) }

  /** What the program's end looks like from outside. */
  ghost predicate Observed(r: Result, fuel: nat, n: nat, y: Next)
  {
    match r.o
    case Normal => y.Exit? && y.rc == 0 && WorldOf(y.c) == r.w
    case Exited(rc) => y.Exit? && y.rc == rc && WorldOf(y.c) == r.w
    case Raised(k) => y.Trap? && y.num == k && WorldOf(y.c) == r.w
    case Timeout => y.Run? && n >= fuel
    case _ => false
  }

  lemma {:induction false} PlainProgramRuns(b: Block, fuel: nat, n: Settings) returns (m: nat, y: Next)
    requires GoodB(b, TOP) && CallFreeB(b) && ImageOk(ImageOf(b))
    ensures Reaches(ImageOf(b), Running(false, n), START, m, y)
    ensures Observed(ExecBlock(b, 0, fuel, World(START.pools, []), n), fuel, m, y)
  {
    hide CellsB, TabB, Reaches, Has, ExecBlock, Exec, Ends, ClosedB, DepthOkB, SmallB, Only;
    var im := ImageOf(b);
    var cs := CellsB(b, NO_TABS, 0);
    var e := Running(false, n);
    var g := Targets(0, 0, 0);
    BlockOnly(b, NO_TABS, 0, false, false);
    WrittenPlaced(cs, g);
    Same(TabB(b, NO_TABS, 0));
    m, y := BlockRuns(b, NO_TABS, 0, fuel, im, e, START, g);
    var r := ExecBlock(b, 0, fuel, World(START.pools, []), n);
    BlockEnds(b, 0, fuel, World(START.pools, []), n, false, false);
    TopEnds(r.o);
    if r.o.Normal? {
      ExitAtEnd(cs, im, e, y.c);
      Then(im, e, START, m, y.c, 1, Next.Exit(0, y.c.(pc := y.c.pc + 1)));
      m, y := m + 1, Next.Exit(0, y.c.(pc := y.c.pc + 1));
    }
  }

  lemma TopEnds(o: StmtSemantics.Outcome)
    requires Ends(o, false, false)
    ensures !o.Left? && !o.Iterated?
  {
  }

  lemma WrittenPlaced(cs: seq<Code>, g: Targets)
    requires Only(cs, false, false)
    ensures Placed(Written(cs) + [OP_EXIT], 0, cs, g)
  {
  }

  lemma ExitAtEnd(cs: seq<Code>, im: Image, e: Env, c: Core)
    requires im.code == Written(cs) + [OP_EXIT] && c.pc == |cs|
    ensures Reaches(im, e, c, 1, Next.Exit(0, c.(pc := c.pc + 1)))
  {
    hide Reaches;
    assert im.code[c.pc..c.pc + 1] == [OP_EXIT];
    OneStep(im, e, c, IExit);
  }

  /** The whole way: the tokens of any program without calls the compiler takes, compiled and run on the VM with its
  integer cache and shortcuts, write the lines, leave the variables and end the way the program means. */
  lemma ProgramRuns(ts: Source, fuel: nat, n: Settings) returns (m: nat, y: Next)
    requires ParseProgram(ts, 0).Got? && CallFreeB(ParseProgram(ts, 0).v)
    requires (ProgramIsGood(ts, 0); ImageOk(ImageOf(ParseProgram(ts, 0).v)))
    ensures (ProgramIsGood(ts, 0); Reaches(ImageOf(ParseProgram(ts, 0).v), Running(true, n), START, m, y))
    ensures Observed(ExecBlock(ParseProgram(ts, 0).v, 0, fuel, World(START.pools, []), n), fuel, m, EraseNext(y))
  {
    hide CellsB, TabB, ExecBlock, Exec, ClosedB, DepthOkB, SmallB, CoreOk, CoreStep;
    ProgramIsGood(ts, 0);
    var b := ParseProgram(ts, 0).v;
    var x;
    m, x := PlainProgramRuns(b, fuel, n);
    StartIsPlain();
    RunRefines(ImageOf(b), Running(true, n), m, START);
    y := Steps(ImageOf(b), Running(true, n), m, Run(START));
  }

  lemma StartIsPlain()
    ensures CoreOk(START) && Erase(START) == START
  {
    assert Erase(START).pools == START.pools;
    assert EraseScope(START.pools[0]).vars == map[];
  }
}
