/** How the parts of a DO add up: header, top, body, tail. */
module DoEmit {
  import opened Options
  import opened NumberText
  import opened Bytecode
  import opened Tokens
  import opened ExprSyntax
  import opened ExprCode
  import opened ExprEmit
  import opened StmtSyntax
  import opened StmtCode
  import opened LoopParts
  import opened Placement
  import opened Patching
  import opened CompilerState
  import opened DoState
  import opened StmtEmit
  import Simulation

  datatype LoopType = ForeverLoop | GroupLoop | CountLoop | WhileLoop | UntilLoop | ToLoop

  function TypeOf(k: DoKind): LoopType
  {
    match k
    case Forever => ForeverLoop
    case Group => GroupLoop
    case Count(_) => CountLoop
    case While(_) => WhileLoop
    case Until(_) => UntilLoop
    case To(_, _, _, _, _, _) => ToLoop
  }

  /** The iterate point of these is the top itself. */
  predicate EarlyPoint(ty: LoopType) { ty.ForeverLoop? || ty.WhileLoop? }

  // ---- Parts -----------------------------------------------------------------------------

  /** Code in front of the top that the header's expressions account for. */
  function HeaderCode(k: DoKind, t: Tabs, d: nat): seq<Byte>
    requires d < CTL_MAX
  {
    if k.Count? then CodeE(k.n, t) else HeadCode(k, t, d)
  }

  /** Tables at the top. */
  function TopTabs(k: DoKind, t: Tabs, d: nat): Tabs
  {
    match k case Count(n) => TabE(n, t) case To(_, _, _, _, _, _) => TestTabs(k, t, d) case _ => t
  }

  /** The counter's set-up and the jump past the loop. */
  function GateCode(k: DoKind, d: nat, over: int): seq<Byte>
    requires d < CTL_MAX
  {
    if k.Count? then [OP_FORINIT, d] + ([OP_JF] + Word(over)) else []
  }

  function TestFront(k: DoKind, t: Tabs, d: nat): seq<Byte>
    requires k.While? || k.To?
  {
    match k case While(c) => CodeE(c, t) case To(v, _, _, _, _, _) => CodeE(ToTest(v, d), TestTabs(k, t, d))
  }

  function TestBack(k: DoKind, t: Tabs, d: nat): seq<Code> { if k.To? then ForCells(k, t, d) else [] }

  /** Clause mark and test; over is the displacement of the jump past the loop. */
  function TopCells(k: DoKind, t: Tabs, d: nat, over: int): seq<Code>
  {
    if k.While? || k.To? then
      [B(OP_NEWCLAUSE)] + Bytes(TestFront(k, t, d)) + Jump(OP_JF, over) + TestBack(k, t, d)
    else [B(OP_NEWCLAUSE)]
  }

  function TopJumps(k: DoKind): nat { if k.To? && k.hasFor then 1 else 0 }

  function TailJumps(k: DoKind): nat { if k.Until? then 1 else 0 }

  /** Everything behind the body, standing at `at`, in a loop whose top is at top. */
  function BackCells(k: DoKind, t: Tabs, d: nat, at: int, top: int): seq<Code>
    requires d < CTL_MAX
  {
    var tail := TailCells(k, t, d);
    tail + if k.Group? then [] else Jump(OP_JMP, top - (at + |tail| + 3))
  }

  lemma TopIsTest(k: DoKind, t: Tabs, d: nat, rest: nat)
    ensures [B(OP_NEWCLAUSE)] + TestCells(k, t, d, rest) == TopCells(k, t, d, |TestBack(k, t, d)| + rest)
    ensures |TopCells(k, t, d, 0)| == 1 + |TestCells(k, t, d, 0)|
  {
    hide CodeE, TabE, ToTest, ForTest, Word, TestTabs;
    Simulation.SameLength(k, t, d, rest);
  }

  /** The loop, in these parts. */
  lemma LoopInParts(k: DoKind, body: seq<Code>, t: Tabs, t': Tabs, d: nat)
    requires d < CTL_MAX
    ensures var tail := BackCells(k, t', d, |TopCells(k, t, d, 0)| + |body|, 0);
            var over := |TestBack(k, t, d)| + |body| + |tail|;
            LoopCells(k, body, t, t', d) == TopCells(k, t, d, over) + body + tail
    ensures IteratePoint(k, |body|, t, d) == if EarlyPoint(TypeOf(k)) then 0 else |TopCells(k, t, d, 0)| + |body|
  {
    hide TopCells, TestCells, TailCells, Word, TestBack;
    var tail := TailCells(k, t', d);
    var rest := |body| + |tail| + BackLength(k);
    TopIsTest(k, t, d, rest);
    Simulation.SameLength(k, t, d, rest);
    var front := [B(OP_NEWCLAUSE)] + TestCells(k, t, d, rest) + body + tail;
    assert |front| == |TopCells(k, t, d, 0)| + |body| + |tail|;
    if !k.Group? {
      var j := Jump(OP_JMP, -(|front| + 3));
      assert [B(OP_NEWCLAUSE)] + TestCells(k, t, d, rest) + body + tail + j == [B(OP_NEWCLAUSE)] + TestCells(k, t, d, rest) + body + (tail + j);
    } else {
      assert front + [] == front && tail + [] == tail;
    }
  }

  lemma SameTop(k: DoKind, t: Tabs, d: nat, u: int, v: int)
    ensures |TopCells(k, t, d, u)| == |TopCells(k, t, d, v)|
  {
    hide TestFront, TestBack;
  }

  lemma TopIsGood(k: DoKind, t: Tabs, d: nat, over: int)
    ensures Paired(TopCells(k, t, d, over)) && Few(TopCells(k, t, d, over), TopJumps(k))
  {
    hide Paired, Few, TestFront, CodeE, ToTest, ForTest, TabE, TestTabs, Word;
    MarkIsPaired();
    FewMark();
    if k.While? || k.To? {
      var mark, x, j, f := [B(OP_NEWCLAUSE)], Bytes(TestFront(k, t, d)), Jump(OP_JF, over), TestBack(k, t, d);
      BytesArePaired(TestFront(k, t, d));
      FewBytes(TestFront(k, t, d));
      BytesArePaired([OP_JF] + Word(over));
      FewBytes([OP_JF] + Word(over));
      BackIsGood(k, t, d);
      PairedJoin(mark, x);
      FewJoin(mark, 0, x, 0);
      PairedJoin(mark + x, j);
      FewJoin(mark + x, 0, j, 0);
      PairedJoin(mark + x + j, f);
      FewJoin(mark + x + j, 0, f, TopJumps(k));
    }
  }

  lemma BackIsGood(k: DoKind, t: Tabs, d: nat)
    ensures Paired(TestBack(k, t, d)) && Few(TestBack(k, t, d), TopJumps(k))
  {
    hide Paired, Few, CodeE, ToTest, ForTest, TabE, TestTabs;
    NonePaired();
    FewMark();
    if k.To? && k.hasFor {
      var y := CodeE(ForTest(d), TabE(ToTest(k.v, d), TestTabs(k, t, d)));
      BytesArePaired(y);
      FewBytes(y);
      HolesArePaired(OP_JF, LeaveHole);
      FewJump(OP_JF, LeaveHole);
      PairedJoin(Bytes(y), HoleJump(OP_JF, LeaveHole));
      FewJoin(Bytes(y), 0, HoleJump(OP_JF, LeaveHole), 1);
    }
  }

  lemma TailIsGood(k: DoKind, t: Tabs, d: nat, at: int, top: int)
    requires d < CTL_MAX
    ensures Paired(BackCells(k, t, d, at, top)) && NoIterateHole(BackCells(k, t, d, at, top))
  {
    hide Paired, TailCells, Word;
    TailPaired(k, t, d);
    TailHasNone(k, t, d);
    NonePaired();
    if !k.Group? {
      BytesArePaired([OP_JMP] + Word(top - (at + |TailCells(k, t, d)| + 3)));
      PairedJoin(TailCells(k, t, d), Jump(OP_JMP, top - (at + |TailCells(k, t, d)| + 3)));
    } else {
      PairedJoin(TailCells(k, t, d), []);
    }
  }

  lemma TailHasNone(k: DoKind, t: Tabs, d: nat)
    requires d < CTL_MAX
    ensures NoIterateHole(TailCells(k, t, d))
  {
    hide CodeE, SetCode, TabE, Word;
  }

  /** Size, tables and open jumps of a DO. */
  lemma DoShape(k: DoKind, b: Block, t: Tabs, d: nat)
    requires d < CTL_MAX && DepthOkB(b, d + 1)
    ensures DepthOk(Do(k, b), d)
    ensures var t1 := HeadTabs(k, t, d);
            var t2 := TabB(b, t1, d + 1);
            var body := CellsB(b, t1, d + 1);
            |InnerS(Do(k, b), t, d)| == |HeaderCode(k, t, d)| + |GateCode(k, d, 0)| + |TopCells(k, t, d, 0)| + |body|
                                        + |BackCells(k, t2, d, 0, 0)|
            && TabS(Do(k, b), t, d) == TailTabs(k, t2, d)
            && Extends(TopTabs(k, t, d), t1) && Extends(t1, t2) && Extends(t2, TailTabs(k, t2, d))
            && Extends(t1, TailTabs(k, t2, d)) && Extends(TopTabs(k, t, d), TailTabs(k, t2, d))
            && JumpsS(Do(k, b)) == TopJumps(k) + JumpsB(b) + TailJumps(k)
            && Paired(body) && Few(body, JumpsB(b))
  {
    hide CellsB, TabB, HeadTabs, TailTabs, TopTabs, HeaderCode, TopCells, TailCells, LoopCells, Extends, Paired, Few,
         JumpsB, DepthOkB, HeadCode, Word, IteratePoint, CloseLoop;
    var t1 := HeadTabs(k, t, d);
    var t2 := TabB(b, t1, d + 1);
    var body := CellsB(b, t1, d + 1);
    TopExtends(k, t, d);
    Simulation.TabBGrows(b, t1, d + 1);
    Simulation.TailGrows(k, t2, d);
    Through(t1, t2, TailTabs(k, t2, d));
    Through(TopTabs(k, t, d), t1, TailTabs(k, t2, d));
    BlockPaired(b, t1, d + 1);
    FewB(b, t1, d + 1);
    LoopInParts(k, body, t, t2, d);
    SameTop(k, t, d, 0, |TestBack(k, t, d)| + |body| + |BackCells(k, t2, d, |TopCells(k, t, d, 0)| + |body|, 0)|);
    DoSize(k, body, t, t2, d);
  }

  lemma TopExtends(k: DoKind, t: Tabs, d: nat)
    ensures Extends(TopTabs(k, t, d), HeadTabs(k, t, d))
  {
    hide TabE, DoSym, ToTabs, TestTabs;
    match k {
      case While(c) => TabEGrows(c, t);
      case To(_, _, _, _, _, _) => ToTabsChain(k, t, d);
      case _ =>
    }
  }

  lemma DoSize(k: DoKind, body: seq<Code>, t: Tabs, t': Tabs, d: nat)
    requires d < CTL_MAX
    ensures |DoCells(k, body, t, t', d)| == |HeaderCode(k, t, d)| + |GateCode(k, d, 0)| + |LoopCells(k, body, t, t', d)|
  {
    hide LoopCells, CodeE, TabE, SetCode, IteratePoint;
  }

  // ---- Failing ---------------------------------------------------------------------------

  /** A DO of which n cells with j open jumps stood when a piece failed. */
  lemma DoStopped(rc: Rc, r: Got<Stmt>, n: nat, j: nat, p: seq<Code>, tp: Tabs, jp: nat, next: nat, d: nat, st: State, was: State,
                  pos: nat, cur: State)
    requires rc == CAPACITY || rc == STRTOOLONG || rc == PATCH
    requires Compiled(rc, true, false, next, p, tp, jp, was, pos, cur)
    requires r.Got? ==> DepthOk(r.v, d) && |was.code| == |st.code| + n && MostJumps(was.fs) <= MostJumps(st.fs) + j
                        && n + |p| <= |InnerS(r.v, st.t, d)| && Extends(tp, TabS(r.v, st.t, d)) && j + jp <= JumpsS(r.v)
    ensures InnerDone(rc, r, d, st, pos, cur)
  {
    hide InnerS, TabS, JumpsS, MostJumps, TabsFit, After;
    if r.Got? && TabsFit(TabS(r.v, st.t, d)) { FitsSmaller([], tp, [], TabS(r.v, st.t, d)); }
  }

  /** Cells x behind another state. */
  lemma JumpsAfter(st: State, x: seq<Code>, t: Tabs, j: nat)
    requires Few(x, j)
    ensures MostJumps(After(st, x, t).fs) <= MostJumps(st.fs) + j && |After(st, x, t).code| == |st.code| + |x|
  {
    hide MostJumps, Few, AddHoles;
    HolesAdd(st.fs, x, |st.code|, j);
  }

  lemma JumpsPushed(fs: seq<Frame>, f: Frame)
    requires f.leaves == [] && f.iterates == []
    ensures MostJumps(fs + [f]) == MostJumps(fs)
  {
    hide MostJumps;
    MostPush(fs, f);
  }

  lemma JumpsInLoop(was: State, ct: seq<Byte>, fs: seq<Frame>, target: int, x: seq<Code>, t: Tabs, j: nat)
    requires LoopState(was, ct, fs, target, x, t) && Few(x, j)
    ensures MostJumps(was.fs) <= MostJumps(fs) + j && |was.code| == |ct| + |x|
  {
    hide MostJumps, Few, AddHoles, Closed, Positions, NoIterateHole, Paired;
    FewClosed(x, j);
    HolesAdd(fs, Closed(x), |ct|, j);
    MostPush(AddHoles(fs, Closed(x), |ct|), Frame(false, true, target, Positions(x, LeaveHole, |ct|), []));
    FewAt(x, j, |ct|);
  }

  lemma FewAt(x: seq<Code>, j: nat, at: int)
    requires Few(x, j)
    ensures |Positions(x, LeaveHole, at)| <= j
  {
    hide Positions;
  }

  lemma FewClosed(x: seq<Code>, j: nat)
    requires Paired(x) && Few(x, j)
    ensures Few(Closed(x), j)
  {
    hide Positions, Paired, Few;
    FillPaired(x, LeaveHole, 0, 0, LeaveHole, 0);
    FewFilled(x, j, LeaveHole, 0);
    FewFilled(Fill(x, LeaveHole, 0, 0), j, IterateHole, 0);
  }

  // ---- Filling ---------------------------------------------------------------------------

  lemma FillJoin(a: seq<Code>, b: seq<Code>, k: HoleKind, target: int)
    ensures Fill(a + b, k, 0, target) == Fill(a, k, 0, target) + Fill(b, k, |a|, target)
  {
    hide HoleByte;
  }

  lemma FillBytes(s: seq<Byte>, k: HoleKind, at: int, target: int)
    ensures Fill(Bytes(s), k, at, target) == Bytes(s)
  {
    hide HoleByte;
  }

  /** Closing a loop whose ITERATEs were filled before the tail y was written. */
  lemma ClosedInOrder(x: seq<Code>, y: seq<Code>, it: int)
    requires NoIterateHole(y)
    ensures Fill(Fill(x, IterateHole, 0, it) + y, LeaveHole, 0, |x + y|) == CloseLoop(x + y, it)
  {
    hide HoleByte;
  }

  /** The condition's jump inside a loop whose ITERATEs have been filled. */
  lemma JumpInside(k: DoKind, t: Tabs, d: nat, over: int, body: seq<Code>, y: seq<Code>, it: int)
    requires k.While? || k.To?
    ensures var a := [B(OP_NEWCLAUSE)] + Bytes(TestFront(k, t, d));
            var b := Fill(TestBack(k, t, d) + body, IterateHole, |a| + 3, it) + y;
            Fill(TopCells(k, t, d, over) + body, IterateHole, 0, it) + y == a + Jump(OP_JF, over) + b
  {
    hide TestFront, TestBack, Word, Fill;
    var a, j, f := [B(OP_NEWCLAUSE)] + Bytes(TestFront(k, t, d)), Jump(OP_JF, over), TestBack(k, t, d);
    assert TopCells(k, t, d, over) + body == a + j + (f + body);
    FillJoin(a + j, f + body, IterateHole, it);
    MarkedBytes(TestFront(k, t, d), [OP_JF] + Word(over));
    FillBytes([OP_NEWCLAUSE] + TestFront(k, t, d) + ([OP_JF] + Word(over)), IterateHole, 0, it);
    assert a + j + Fill(f + body, IterateHole, |a| + 3, it) + y == a + j + (Fill(f + body, IterateHole, |a| + 3, it) + y);
  }

  lemma MarkedBytes(s: seq<Byte>, r: seq<Byte>)
    ensures [B(OP_NEWCLAUSE)] + Bytes(s) + Bytes(r) == Bytes([OP_NEWCLAUSE] + s + r)
  {
  }

  // ---- Success ---------------------------------------------------------------------------

  /** A jump in front of the top learns where the loop ends. */
  lemma GatePatched(ct: seq<Byte>, fs: seq<Frame>, target: int, x: seq<Code>, t: Tabs, p: nat, end: int, was: State, cur: State)
    requires LoopState(was, ct, fs, target, x, t) && p + 2 < |ct|
    requires cur == was.(code := PatchAt(was.code, p, end))
    ensures LoopState(cur, PatchAt(ct, p, end), fs, target, x, t)
  {
    hide Lo, Hi, Emitted, AddHoles, Positions, Paired, NoIterateHole, Closed;
    assert PatchAt(ct + Emitted(x, |ct|, UNKNOWN), p, end) == PatchAt(ct, p, end) + Emitted(x, |ct|, UNKNOWN);
  }

  lemma GateIs(c: seq<Byte>, k: DoKind, d: nat, end: int)
    requires d < CTL_MAX && k.Count?
    ensures PatchAt(c + GateCode(k, d, 0), |c| + 2, end) == c + GateCode(k, d, end - (|c| + 5))
  {
    hide Lo, Hi, PatchAt;
    ZeroWord();
    var a := c + [OP_FORINIT, d];
    PatchOver(a, OP_JF, [], end);
    assert c + GateCode(k, d, 0) == a + [OP_JF, 0, 0] + [];
    assert a + ([OP_JF] + Word(end - (|a| + 3))) + [] == c + GateCode(k, d, end - (|c| + 5));
  }

  /** A finished DO: the loop's cells behind header and gate. */
  lemma DoFinished(k: DoKind, b: Block, d: nat, next: nat, st: State, pos: nat, cur: State)
    requires d < CTL_MAX && DepthOkB(b, d + 1) && pos == next
    requires var t2 := TabB(b, HeadTabs(k, st.t, d), d + 1);
             var body := CellsB(b, HeadTabs(k, st.t, d), d + 1);
             var loop := LoopCells(k, body, st.t, t2, d);
             cur == After(State(st.code + (HeaderCode(k, st.t, d) + GateCode(k, d, |loop|)), TopTabs(k, st.t, d), st.fs),
                          CloseLoop(loop, IteratePoint(k, |body|, st.t, d)), TailTabs(k, t2, d))
    ensures InnerDone(OK, Got(Do(k, b), next), d, st, pos, cur)
  {
    hide CellsB, TabB, HeadTabs, TailTabs, TopTabs, LoopCells, JumpsB, DepthOkB, IteratePoint, CloseLoop, After,
         HeaderCode, GateCode, JumpsS, TabS, InnerS, Paired;
    var t2 := TabB(b, HeadTabs(k, st.t, d), d + 1);
    var body := CellsB(b, HeadTabs(k, st.t, d), d + 1);
    var loop := LoopCells(k, body, st.t, t2, d);
    var front := HeaderCode(k, st.t, d) + GateCode(k, d, |loop|);
    DoShape(k, b, st.t, d);
    DoUnfolds(k, b, st.t, d);
    FrontIs(k, body, st.t, t2, d);
    AfterBytes(st, front, TopTabs(k, st.t, d));
    BytesArePaired(front);
    AfterJoin(st, Bytes(front), TopTabs(k, st.t, d), CloseLoop(loop, IteratePoint(k, |body|, st.t, d)), TailTabs(k, t2, d));
  }

  lemma DoUnfolds(k: DoKind, b: Block, t: Tabs, d: nat)
    requires DepthOk(Do(k, b), d)
    ensures InnerS(Do(k, b), t, d) == DoCells(k, CellsB(b, HeadTabs(k, t, d), d + 1), t, TabB(b, HeadTabs(k, t, d), d + 1), d)
  {
    hide CellsB, TabB, HeadTabs, DoCells;
  }

  lemma FrontIs(k: DoKind, body: seq<Code>, t: Tabs, t': Tabs, d: nat)
    requires d < CTL_MAX
    ensures var loop := LoopCells(k, body, t, t', d);
            DoCells(k, body, t, t', d)
            == Bytes(HeaderCode(k, t, d) + GateCode(k, d, |loop|)) + CloseLoop(loop, IteratePoint(k, |body|, t, d))
  {
    hide LoopCells, CodeE, TabE, SetCode, IteratePoint, Word, HeadCode;
    var loop := LoopCells(k, body, t, t', d);
    if k.Count? {
      HeadOfCount(k, t, d);
      var c, f, j := CodeE(k.n, t), [OP_FORINIT, d], [OP_JF] + Word(|loop|);
      BytesJoin(c + f, j);
      assert c + f + j == c + (f + j);
      assert DoCells(k, body, t, t', d) == Bytes(c + f) + Bytes(j) + CloseLoop(loop, IteratePoint(k, |body|, t, d));
    } else {
      assert HeadCode(k, t, d) + [] == HeadCode(k, t, d);
      assert Bytes(HeadCode(k, t, d)) + [] == Bytes(HeadCode(k, t, d));
    }
  }

  lemma BytesJoin(a: seq<Byte>, b: seq<Byte>)
    ensures Bytes(a) + Bytes(b) == Bytes(a + b)
  {
  }

  lemma HeadOfCount(k: DoKind, t: Tabs, d: nat)
    requires d < CTL_MAX && k.Count?
    ensures HeadCode(k, t, d) == CodeE(k.n, t) + [OP_FORINIT, d]
  {
  }

  // ---- What the methods promise ------------------------------------------------------------

  /** The index of each of a controlled loop's variables, times being -1 without FOR. */
  datatype Slots = Slots(v: int, lim: int, stp: int, times: int)

  predicate SlotOk(si: int, syms: seq<string>, name: string) { 0 <= si == Find(syms, name) < |syms| }

  predicate SlotsOk(s: Slots, syms: seq<string>, k: DoKind, d: nat)
    requires k.To?
  {
    SlotOk(s.v, syms, k.v) && SlotOk(s.lim, syms, DoSym(d, "LIM")) && SlotOk(s.stp, syms, DoSym(d, "STP"))
    && if k.hasFor then SlotOk(s.times, syms, DoSym(d, "FOR")) else s.times < 0
  }

  lemma SlotsStay(s: Slots, t: seq<string>, u: seq<string>, k: DoKind, d: nat)
    requires k.To? && SlotsOk(s, t, k, d) && t <= u
    ensures SlotsOk(s, u, k, d)
  {
    hide Find, DoSym;
    SlotStays(s.v, t, u, k.v);
    SlotStays(s.lim, t, u, DoSym(d, "LIM"));
    SlotStays(s.stp, t, u, DoSym(d, "STP"));
    if k.hasFor { SlotStays(s.times, t, u, DoSym(d, "FOR")); }
  }

  lemma SlotStays(si: int, t: seq<string>, u: seq<string>, name: string)
    requires SlotOk(si, t, name) && t <= u
    ensures SlotOk(si, u, name)
  {
    hide Find;
    assert t[si] == name;
    FindStable(t, u, name);
  }

  /** Straight code for the tree e. */
  predicate Wrote(rc: Rc, e: Expr, c0: seq<Byte>, t0: Tabs, code: seq<Byte>, t: Tabs)
  {
    if rc == OK then code == c0 + CodeE(e, t0) && t == TabE(e, t0)
    else (rc == CAPACITY || rc == STRTOOLONG) && !Fits(c0 + CodeE(e, t0), TabE(e, t0))
  }

  lemma LeftStopped(rc: Rc, op: BinOp, l: Expr, r: Expr, c0: seq<Byte>, t0: Tabs, code: seq<Byte>, t: Tabs)
    requires rc != OK && Wrote(rc, l, c0, t0, code, t)
    ensures Wrote(rc, Bin(op, l, r), c0, t0, code, t)
  {
    hide Fits, CodeOf;
    var w := Bin(op, l, r);
    BinCode(op, l, r, t0, c0);
    TabEGrows(r, TabE(l, t0));
    if Fits(c0 + CodeE(w, t0), TabE(w, t0)) { FitsSmaller(c0 + CodeE(l, t0), TabE(l, t0), c0 + CodeE(w, t0), TabE(w, t0)); }
  }

  lemma RightStopped(rc: Rc, op: BinOp, l: Expr, r: Expr, c0: seq<Byte>, t0: Tabs, code: seq<Byte>, t: Tabs)
    requires rc != OK && Wrote(rc, r, c0 + CodeE(l, t0), TabE(l, t0), code, t)
    ensures Wrote(rc, Bin(op, l, r), c0, t0, code, t)
  {
    hide Fits, CodeOf;
    var w := Bin(op, l, r);
    var a := c0 + CodeE(l, t0) + CodeE(r, TabE(l, t0));
    BinCode(op, l, r, t0, c0);
    if Fits(c0 + CodeE(w, t0), TabE(w, t0)) { FitsSmaller(a, TabE(r, TabE(l, t0)), c0 + CodeE(w, t0), TabE(w, t0)); }
  }

  /** One assignment in a header: g's value stored in name. */
  predicate SetEnd(rc: Rc, g: Got<Expr>, name: string, c0: seq<Byte>, t0: Tabs, pos: nat, code: seq<Byte>, t: Tabs)
  {
    match rc
    case OK => g.Got? && pos == g.next && code == c0 + SetCode(name, g.v, t0) && t == TabE(g.v, t0)
    case UNSUP => g == Failed(false)
    case BEYOND => g == Failed(true)
    case PATCH => false
    case _ => g.Got? ==> |c0| + |SetCode(name, g.v, t0)| > MAX_CODE || !TabsFit(TabE(g.v, t0))
  }

  predicate HeaderDone(rc: Rc, h: Got<DoKind>, d: nat, c0: seq<Byte>, t0: Tabs, pos: nat, code: seq<Byte>, t: Tabs)
    requires d < CTL_MAX
  {
    match rc
    case OK => h.Got? && pos == h.next && code == c0 + HeaderCode(h.v, t0, d) && t == TopTabs(h.v, t0, d)
    case UNSUP => h == Failed(false)
    case BEYOND => h == Failed(true)
    case PATCH => false
    case _ => h.Got? ==> |c0| + |HeaderCode(h.v, t0, d)| > MAX_CODE || !TabsFit(TopTabs(h.v, t0, d))
  }

  /** Clause mark and test, from state st, t being the tables before the DO. */
  predicate TopDone(rc: Rc, h: Got<DoKind>, t: Tabs, d: nat, st: State, pos: nat, cur: State)
  {
    if h.Got? then
      Compiled(rc, true, false, h.next, TopCells(h.v, t, d, 0), HeadTabs(h.v, t, d), TopJumps(h.v), st, pos, cur)
    else Compiled(rc, false, h.beyond, 0, [], st.t, 0, st, pos, cur)
  }

  /** The test behind the clause mark. */
  function TestPart(k: DoKind, t: Tabs, d: nat): seq<Code>
    requires k.While? || k.To?
  {
    Bytes(TestFront(k, t, d)) + Jump(OP_JF, 0) + TestBack(k, t, d)
  }

  predicate TestDone(rc: Rc, h: Got<DoKind>, t: Tabs, d: nat, st: State, pos: nat, cur: State)
    requires h.Got? ==> h.v.While? || h.v.To?
  {
    if h.Got? then Compiled(rc, true, false, h.next, TestPart(h.v, t, d), HeadTabs(h.v, t, d), TopJumps(h.v), st, pos, cur)
    else Compiled(rc, false, h.beyond, 0, [], st.t, 0, st, pos, cur)
  }

  /** A test behind its clause mark. */
  lemma TestMarked(rc: Rc, h: Got<DoKind>, t: Tabs, d: nat, st: State, pos: nat, cur: State)
    requires h.Got? ==> h.v.While? || h.v.To?
    requires TestDone(rc, h, t, d, After(st, [B(OP_NEWCLAUSE)], st.t), pos, cur)
    ensures TopDone(rc, h, t, d, st, pos, cur)
  {
    hide After, TestFront, TestBack, HeadTabs, MostJumps, TabsFit, Paired, Few, Word;
    var m := [B(OP_NEWCLAUSE)];
    MarkIsPaired();
    FewMark();
    HolesAdd(st.fs, m, |st.code|, 0);
    TabsOfAfter(st, m, st.t);
    if h.Got? {
      var cs := TestPart(h.v, t, d);
      assert TopCells(h.v, t, d, 0) == m + cs;
      Chain(rc, true, false, h.next, m, st.t, 0, cs, HeadTabs(h.v, t, d), TopJumps(h.v), st, pos, cur);
    } else {
      FailedAnyway(rc, h.beyond, After(st, m, st.t), st, pos, cur);
    }
  }

  /** A loop without a test. */
  lemma TopMarked(rc: Rc, h: Got<DoKind>, t: Tabs, d: nat, st: State, pos: nat, cur: State)
    requires h.Got? && !h.v.While? && !h.v.To? && st.t == TopTabs(h.v, t, d)
    requires rc == OK ==> pos == h.next && cur == After(st, [B(OP_NEWCLAUSE)], st.t)
    requires rc != OK ==> rc == CAPACITY && |st.code| + 1 > MAX_CODE
    ensures TopDone(rc, h, t, d, st, pos, cur)
  {
    hide After, TabE;
  }

  lemma TopTooMuch(h: Got<DoKind>, t: Tabs, d: nat, st: State, pos: nat, cur: State)
    requires |st.code| + 1 > MAX_CODE
    ensures TopDone(CAPACITY, h, t, d, st, pos, cur)
  {
    hide After, HeadTabs, TabsFit, TestFront, TestBack;
  }

  lemma WhileTest(c: Expr, t: Tabs, d: nat)
    ensures TestPart(While(c), t, d) == IfFront(c, t, 0) && HeadTabs(While(c), t, d) == TabE(c, t)
  {
    hide CodeE, TabE, Word;
    assert IfFront(c, t, 0) + [] == IfFront(c, t, 0);
  }

  /** The parts of a controlled loop's test. */
  lemma ToTestParts(k: DoKind, t: Tabs, d: nat)
    requires k.To?
    ensures var c, t0 := ToTest(k.v, d), TopTabs(k, t, d);
            var t1 := TabE(c, t0);
            TestFront(k, t, d) == CodeE(c, t0) && Extends(t1, HeadTabs(k, t, d))
            && HeadTabs(k, t, d) == (if k.hasFor then TabE(ForTest(d), t1) else t1)
            && TestPart(k, t, d) == if k.hasFor then IfFront(c, t0, 0) + (Bytes(CodeE(ForTest(d), t1)) + HoleJump(OP_JF, LeaveHole))
                                    else IfFront(c, t0, 0)
  {
    hide CodeE, TabE, Word, ToTest, ForTest, ToTabs, DoSym;
    var c, t0 := ToTest(k.v, d), TopTabs(k, t, d);
    TabEGrows(ForTest(d), TabE(c, t0));
    assert IfFront(c, t0, 0) + [] == IfFront(c, t0, 0);
  }

  lemma TestTooMuch(rc: Rc, h: Got<DoKind>, n: nat, tp: Tabs, t: Tabs, d: nat, st: State, pos: nat, cur: State)
    requires h.Got? && (h.v.While? || h.v.To?) && (rc == CAPACITY || rc == STRTOOLONG)
    requires |st.code| + n > MAX_CODE || !TabsFit(tp)
    requires n <= |TestPart(h.v, t, d)| && Extends(tp, HeadTabs(h.v, t, d))
    ensures TestDone(rc, h, t, d, st, pos, cur)
  {
    hide HeadTabs, TestPart, TabsFit, After, Extends;
    if TabsFit(HeadTabs(h.v, t, d)) { FitsSmaller([], tp, [], HeadTabs(h.v, t, d)); }
  }

  /** Everything behind the body. */
  predicate TailDone(rc: Rc, k: Got<DoKind>, d: nat, top: int, st: State, pos: nat, cur: State)
    requires d < CTL_MAX
  {
    if k.Got? then
      Compiled(rc, true, false, k.next, BackCells(k.v, st.t, d, |st.code|, top), TailTabs(k.v, st.t, d), TailJumps(k.v), st, pos, cur)
    else Compiled(rc, false, k.beyond, 0, [], st.t, 0, st, pos, cur)
  }

  // ---- DO var = start TO limit BY step FOR count ----------------------------------------------

  /** Sizes and tables of a controlled header. */
  lemma ToTotals(k: DoKind, t: Tabs, d: nat)
    requires k.To? && d < CTL_MAX
    ensures var a := AddSym(t, k.v);
            var b := AddSym(a, DoSym(d, "LIM"));
            var t0 := ToTabs(k.v, t, d);
            var t1 := TabE(k.start, t0);
            var t2 := TabE(k.limit, t1);
            var t3 := TabE(k.step, t2);
            var all := TopTabs(k, t, d);
            Extends(a, all) && Extends(b, all) && Extends(t0, all) && Extends(t1, all) && Extends(t2, all) && Extends(t3, all)
            && (k.hasFor ==> Extends(ForTabs(k, t, d), all) && all == TabE(k.times, ForTabs(k, t, d)))
            && (!k.hasFor ==> all == t3)
            && HeaderCode(k, t, d) == SetCode(k.v, k.start, t0) + SetCode(DoSym(d, "LIM"), k.limit, t1)
                                      + SetCode(DoSym(d, "STP"), k.step, t2)
                                      + if k.hasFor then SetCode(DoSym(d, "FOR"), k.times, ForTabs(k, t, d)) else []
  {
    hide TabE, DoSym, Extends, AddSym, CodeE, StoreCode;
    var a := AddSym(t, k.v);
    var b := AddSym(a, DoSym(d, "LIM"));
    var t0 := ToTabs(k.v, t, d);
    var t1 := TabE(k.start, t0);
    var t2 := TabE(k.limit, t1);
    var t3 := TabE(k.step, t2);
    var all := TopTabs(k, t, d);
    ToTabsChain(k, t, d);
    Interned(a, DoSym(d, "LIM"));
    Interned(b, DoSym(d, "STP"));
    if k.hasFor { TabEGrows(k.times, ForTabs(k, t, d)); }
    Through(t2, t3, all);
    Through(t1, t2, all);
    Through(t0, t1, all);
    Through(b, t0, all);
    Through(a, b, all);
  }

  /** A controlled header that stopped where code up to n bytes and tables tp were needed. */
  lemma ToStopped(rc: Rc, h: Got<DoKind>, n: nat, tp: Tabs, d: nat, c0: seq<Byte>, t0: Tabs, pos: nat, code: seq<Byte>, t: Tabs)
    requires d < CTL_MAX && (rc == CAPACITY || rc == STRTOOLONG) && (|c0| + n > MAX_CODE || !TabsFit(tp))
    requires h.Got? ==> n <= |HeaderCode(h.v, t0, d)| && Extends(tp, TopTabs(h.v, t0, d))
    ensures HeaderDone(rc, h, d, c0, t0, pos, code, t)
  {
    hide TabsFit, HeaderCode, TopTabs, Extends;
    if h.Got? && TabsFit(TopTabs(h.v, t0, d)) { FitsSmaller([], tp, [], TopTabs(h.v, t0, d)); }
  }

  // ---- Behind the body -----------------------------------------------------------------------

  /** The tail without its jump back, as far as it was written. */
  predicate TailPart(rc: Rc, k: Got<DoKind>, d: nat, st: State, pos: nat, cur: State)
    requires d < CTL_MAX
  {
    if k.Got? then Compiled(rc, true, false, k.next, TailCells(k.v, st.t, d), TailTabs(k.v, st.t, d), TailJumps(k.v), st, pos, cur)
    else Compiled(rc, false, k.beyond, 0, [], st.t, 0, st, pos, cur)
  }

  lemma TailStopped(rc: Rc, k: Got<DoKind>, d: nat, top: int, st: State, pos: nat, cur: State)
    requires d < CTL_MAX && rc != OK && TailPart(rc, k, d, st, pos, cur)
    ensures TailDone(rc, k, d, top, st, pos, cur)
  {
    hide TailCells, TailTabs, TabsFit, MostJumps, After;
  }

  /** The jump back to the top, or that there is no room for it. */
  lemma TailJumped(rc: Rc, k: DoKind, d: nat, top: int, st: State, mid: State, pos: nat, cur: State)
    requires d < CTL_MAX && mid == After(st, TailCells(k, st.t, d), TailTabs(k, st.t, d))
    requires if k.Group? then rc == OK && cur == mid
             else if rc == OK then cur == After(mid, Jump(OP_JMP, top - (|mid.code| + 3)), mid.t)
             else rc == CAPACITY && |mid.code| + 3 > MAX_CODE
    ensures TailDone(rc, Got(k, pos), d, top, st, pos, cur)
  {
    hide TailCells, TailTabs, TabsFit, MostJumps, After, Word, Paired;
    var x := TailCells(k, st.t, d);
    AfterLength(st, x, TailTabs(k, st.t, d));
    TabsOfAfter(st, x, TailTabs(k, st.t, d));
    TailPaired(k, st.t, d);
    if !k.Group? {
      AfterJoin(st, x, TailTabs(k, st.t, d), Jump(OP_JMP, top - (|mid.code| + 3)), mid.t);
    } else {
      assert x + [] == x;
    }
  }

  /** The tail of a counted loop. */
  lemma CountTail(rc: Rc, k: DoKind, d: nat, top: int, st: State, pos: nat, cur: State)
    requires d < CTL_MAX && k.Count?
    requires if rc == OK then
               cur == State(st.code + ([OP_DECFOR, d] + Word(3) + ([OP_JMP] + Word(top - (|st.code| + 7)))), st.t, st.fs)
             else rc == CAPACITY && |st.code| + 7 > MAX_CODE
    ensures TailDone(rc, Got(k, pos), d, top, st, pos, cur)
  {
    hide TabsFit, MostJumps, After, Word;
    var x, y := [OP_DECFOR, d] + Word(3), [OP_JMP] + Word(top - (|st.code| + 7));
    AfterBytes(st, x + y, st.t);
    BytesJoin(x, y);
    assert |x| == 4;
    assert BackCells(k, st.t, d, |st.code|, top) == Bytes(x) + Bytes(y);
  }

  /** The increment of a controlled loop. */
  lemma ToTail(k: DoKind, t: Tabs, d: nat)
    requires k.To? && d < CTL_MAX
    ensures var e := Bin(Add, Var(k.v), Stride(d));
            var f, t1 := Bin(Sub, Remaining(d), Expr.Lit("1")), TabE(e, t);
            TailCells(k, t, d) == Bytes(SetCode(k.v, e, t) + if k.hasFor then SetCode(DoSym(d, "FOR"), f, t1) else [])
            && TailTabs(k, t, d) == (if k.hasFor then TabE(f, t1) else t1)
            && Extends(t1, TailTabs(k, t, d))
  {
    hide CodeE, TabE, DoSym, SetCode;
    TabEGrows(Bin(Sub, Remaining(d), Expr.Lit("1")), TabE(Bin(Add, Var(k.v), Stride(d)), t));
  }

  lemma TailTooMuch(rc: Rc, k: DoKind, n: nat, tp: Tabs, d: nat, next: nat, st: State, pos: nat, cur: State)
    requires d < CTL_MAX && (rc == CAPACITY || rc == STRTOOLONG)
    requires |st.code| + n > MAX_CODE || !TabsFit(tp)
    requires n <= |TailCells(k, st.t, d)| && Extends(tp, TailTabs(k, st.t, d))
    ensures TailPart(rc, Got(k, next), d, st, pos, cur)
  {
    hide TailCells, TailTabs, TabsFit, After, Extends;
    if TabsFit(TailTabs(k, st.t, d)) { FitsSmaller([], tp, [], TailTabs(k, st.t, d)); }
  }

  // ---- Where a DO may stop ---------------------------------------------------------------------

  /** The kind a header shows, and the one the loop has: they differ in UNTIL's condition only. */
  predicate SameShape(shown: DoKind, k: DoKind) { k == shown || (k.Until? && shown.Until?) }

  lemma DoTotals(k: DoKind, s: Stmt, t: Tabs, d: nat)
    requires s.Do? && DepthOk(s, d) && SameShape(k, s.kind)
    ensures d < CTL_MAX && DepthOkB(s.body, d + 1)
    ensures var t1 := HeadTabs(k, t, d);
            var t2 := TabB(s.body, t1, d + 1);
            var body := CellsB(s.body, t1, d + 1);
            t1 == HeadTabs(s.kind, t, d)
            && |InnerS(s, t, d)| == |HeaderCode(k, t, d)| + |GateCode(k, d, 0)| + |TopCells(k, t, d, 0)| + |body|
                                    + |BackCells(s.kind, t2, d, 0, 0)|
            && TabS(s, t, d) == TailTabs(s.kind, t2, d)
            && Extends(TopTabs(k, t, d), TabS(s, t, d)) && Extends(t1, TabS(s, t, d)) && Extends(t2, TabS(s, t, d))
            && JumpsS(s) == TopJumps(k) + JumpsB(s.body) + TailJumps(s.kind)
            && Paired(body) && Few(body, JumpsB(s.body))
  {
    hide CellsB, TabB, TailTabs, HeaderCode, TailCells, Extends, Paired, Few, JumpsB, DepthOkB, TabS, InnerS, JumpsS, BackCells,
         TestFront, TestBack, HeadTabs, TopTabs;
    DoDepth(s, d);
    SameParts(k, s.kind, t, d);
    DoShape(s.kind, s.body, t, d);
  }

  lemma DoDepth(s: Stmt, d: nat)
    requires s.Do? && DepthOk(s, d)
    ensures d < CTL_MAX && DepthOkB(s.body, d + 1) && s == Do(s.kind, s.body)
  {
    hide DepthOkB;
  }

  lemma SameParts(k: DoKind, k': DoKind, t: Tabs, d: nat)
    requires SameShape(k, k') && d < CTL_MAX
    ensures HeaderCode(k, t, d) == HeaderCode(k', t, d) && TopTabs(k, t, d) == TopTabs(k', t, d)
    ensures HeadTabs(k, t, d) == HeadTabs(k', t, d) && TopJumps(k) == TopJumps(k') && TypeOf(k) == TypeOf(k')
    ensures TestBack(k, t, d) == TestBack(k', t, d)
    ensures forall v :: GateCode(k, d, v) == GateCode(k', d, v) && TopCells(k, t, d, v) == TopCells(k', t, d, v)
  {
    hide CodeE, TabE, SetCode, ToTest, ForTest, ToTabs, DoSym;
  }

  /** What is known of a DO once its header has been read. */
  predicate HeaderOf(r: Got<Stmt>, h: Got<DoKind>, d: nat)
  {
    (!h.Got? ==> r == Failed(h.beyond))
    && (r.Got? ==> h.Got? && r.v.Do? && DepthOk(r.v, d) && SameShape(h.v, r.v.kind))
  }

  lemma HeaderStopped(rc: Rc, h: Got<DoKind>, r: Got<Stmt>, d: nat, st: State, pos: nat, code: seq<Byte>, t: Tabs, cur: State)
    requires rc != OK && d < CTL_MAX && HeaderOf(r, h, d) && HeaderDone(rc, h, d, st.code, st.t, pos, code, t)
    ensures InnerDone(rc, r, d, st, pos, cur)
  {
    hide HeaderCode, GateCode, TopCells, BackCells, TopTabs, InnerS, TabS, JumpsS, MostJumps, TabsFit, DepthOk, After, Extends;
    if r.Got? {
      DoTotals(h.v, r.v, st.t, d);
      var x := Bytes(HeaderCode(h.v, st.t, d));
      DoStopped(rc, r, 0, 0, x, TopTabs(h.v, st.t, d), 0, 0, d, st, st, pos, cur);
    }
  }

  lemma GateStopped(h: Got<DoKind>, r: Got<Stmt>, d: nat, st: State, pos: nat, cur: State)
    requires d < CTL_MAX && HeaderOf(r, h, d) && h.Got? && h.v.Count?
    requires |st.code| + |HeaderCode(h.v, st.t, d)| + 5 > MAX_CODE
    ensures InnerDone(CAPACITY, r, d, st, pos, cur)
  {
    hide HeaderCode, TopCells, BackCells, TopTabs, InnerS, TabS, JumpsS, MostJumps, TabsFit, DepthOk, After, Extends, Word;
    if r.Got? { DoTotals(h.v, r.v, st.t, d); }
  }

  /** The state at the top of the loop. */
  predicate AtTop(op: State, h: Got<DoKind>, d: nat, st: State)
    requires d < CTL_MAX
  {
    |op.fs| == |st.fs| + 1 && op.fs[..|st.fs|] == st.fs && op.fs[|st.fs|].leaves == [] && op.fs[|st.fs|].iterates == []
    && if h.Got? then op.code == st.code + (HeaderCode(h.v, st.t, d) + GateCode(h.v, d, 0)) && op.t == TopTabs(h.v, st.t, d)
       else op.t == st.t
  }

  lemma TopStopped(rc: Rc, h: Got<DoKind>, r: Got<Stmt>, d: nat, op: State, st: State, pos: nat, was: State, cur: State)
    requires rc != OK && d < CTL_MAX && HeaderOf(r, h, d) && AtTop(op, h, d, st) && TopDone(rc, h, st.t, d, op, pos, was)
    ensures InnerDone(rc, r, d, st, pos, cur)
  {
    hide HeaderCode, GateCode, TopCells, BackCells, TopTabs, InnerS, TabS, JumpsS, MostJumps, TabsFit, DepthOk,
         After, Extends, HeadTabs;
    assert op.fs == st.fs + [op.fs[|st.fs|]];
    JumpsPushed(st.fs, op.fs[|st.fs|]);
    if h.Got? {
      if r.Got? { DoTotals(h.v, r.v, st.t, d); }
      DoStopped(rc, r, |HeaderCode(h.v, st.t, d)| + |GateCode(h.v, d, 0)|, 0, TopCells(h.v, st.t, d, 0), HeadTabs(h.v, st.t, d),
                TopJumps(h.v), h.next, d, st, op, pos, cur);
    }
  }

  lemma BodyStopped(rc: Rc, h: Got<DoKind>, b: Got<Block>, r: Got<Stmt>, d: nat, op: State, st: State, pos: nat, was: State, cur: State)
    requires rc != OK && d < CTL_MAX && HeaderOf(r, h, d) && h.Got? && AtTop(op, h, d, st)
    requires if b.Got? then r.Got? ==> r.v.body == b.v else r == Failed(b.beyond)
    requires BlockDone(rc, b, d + 1, After(op, TopCells(h.v, st.t, d, 0), HeadTabs(h.v, st.t, d)), pos, was)
    ensures InnerDone(rc, r, d, st, pos, cur)
  {
    hide HeaderCode, GateCode, TopCells, BackCells, TopTabs, InnerS, TabS, JumpsS, MostJumps, TabsFit, DepthOk,
         After, Extends, HeadTabs, CellsB, TabB, JumpsB, DepthOkB, Few;
    assert op.fs == st.fs + [op.fs[|st.fs|]];
    JumpsPushed(st.fs, op.fs[|st.fs|]);
    var x, t1 := TopCells(h.v, st.t, d, 0), HeadTabs(h.v, st.t, d);
    TopIsGood(h.v, st.t, d, 0);
    JumpsAfter(op, x, t1, TopJumps(h.v));
    TabsOfAfter(op, x, t1);
    if b.Got? {
      if r.Got? { DoTotals(h.v, r.v, st.t, d); }
      DoStopped(rc, r, |HeaderCode(h.v, st.t, d)| + |GateCode(h.v, d, 0)| + |x|, TopJumps(h.v), CellsB(b.v, t1, d + 1),
                TabB(b.v, t1, d + 1), JumpsB(b.v), b.next, d, st, After(op, x, t1), pos, cur);
    }
  }

  lemma BackStopped(rc: Rc, h: DoKind, b: Block, k: Got<DoKind>, r: Got<Stmt>, d: nat, ct: seq<Byte>, target: int, it: int, st: State,
                    was: State, pos: nat, last: State, cur: State)
    requires rc != OK && d < CTL_MAX && DepthOkB(b, d + 1)
    requires if k.Got? then SameShape(h, k.v) && DepthOk(Do(k.v, b), d) && r.Got? && r.v == Do(k.v, b) else r == Failed(k.beyond)
    requires |ct| == |st.code| + |HeaderCode(h, st.t, d)| + |GateCode(h, d, 0)|
    requires var t1 := HeadTabs(h, st.t, d);
             LoopState(was, ct, st.fs, target, Fill(TopCells(h, st.t, d, 0) + CellsB(b, t1, d + 1), IterateHole, 0, it), TabB(b, t1, d + 1))
    requires TailDone(rc, k, d, |ct|, was, pos, last)
    ensures InnerDone(rc, r, d, st, pos, cur)
  {
    hide HeaderCode, GateCode, TopCells, BackCells, TopTabs, InnerS, TabS, JumpsS, MostJumps, TabsFit, DepthOk,
         After, Extends, HeadTabs, CellsB, TabB, JumpsB, DepthOkB, Few, Paired, LoopState, Fill, TailTabs;
    if k.Got? {
      var t1 := HeadTabs(h, st.t, d);
      var t2 := TabB(b, t1, d + 1);
      var top, body := TopCells(h, st.t, d, 0), CellsB(b, t1, d + 1);
      DoTotals(h, r.v, st.t, d);
      var x := top + body;
      TopIsGood(h, st.t, d, 0);
      FewJoin(top, TopJumps(h), body, JumpsB(b));
      PairedJoin(top, body);
      FewFilled(x, TopJumps(h) + JumpsB(b), IterateHole, it);
      JumpsInLoop(was, ct, st.fs, target, Fill(x, IterateHole, 0, it), t2, TopJumps(h) + JumpsB(b));
      TabsOfLoop(was, ct, st.fs, target, Fill(x, IterateHole, 0, it), t2);
      BackLengths(k.v, t2, d, |was.code|, |ct|);
      Same(TabS(r.v, st.t, d));
      DoStopped(rc, r, |HeaderCode(h, st.t, d)| + |GateCode(h, d, 0)| + |x|, TopJumps(h) + JumpsB(b),
                BackCells(k.v, t2, d, |was.code|, |ct|), TailTabs(k.v, t2, d), TailJumps(k.v), k.next, d, st, was, pos, cur);
    }
  }

  lemma TabsOfLoop(was: State, ct: seq<Byte>, fs: seq<Frame>, target: int, x: seq<Code>, t: Tabs)
    requires LoopState(was, ct, fs, target, x, t)
    ensures was.t == t
  {
  }

  lemma BackLengths(k: DoKind, t: Tabs, d: nat, at: int, top: int)
    requires d < CTL_MAX
    ensures |BackCells(k, t, d, at, top)| == |BackCells(k, t, d, 0, 0)|
  {
    hide TailCells;
  }

  // ---- Closing a DO ----------------------------------------------------------------------------

  function LoopFrame(ty: LoopType, top: int): Frame { Frame(false, EarlyPoint(ty), if EarlyPoint(ty) then top else 0, [], []) }

  /** Once the iterate point is known, whenever that is. */
  lemma PointKnown(ty: LoopType, op: State, fs: seq<Frame>, x: seq<Code>, t: Tabs, was: State, cur: State)
    requires Paired(x) && |op.code| >= 1 && op.fs == fs + [LoopFrame(ty, |op.code|)] && was == After(op, x, t) && |was.fs| == |fs| + 1
    requires cur == if EarlyPoint(ty) then was
                    else State(PatchAll(was.code, was.fs[|fs|].iterates, |op.code| + |x|), t,
                               was.fs[|fs| := was.fs[|fs|].(known := true, target := |op.code| + |x|, iterates := [])])
    ensures var it := if EarlyPoint(ty) then 0 else |x|;
            LoopState(cur, op.code, fs, |op.code| + it, Fill(x, IterateHole, 0, it), t)
  {
    hide LoopState, After, Paired, PatchAll, Fill;
    if EarlyPoint(ty) { BodyKnown(op.code, op.t, fs, x, t, cur); } else { BodyPatched(op.code, op.t, fs, x, t, |x|, was, cur); }
  }

  lemma IteratesInside(ty: LoopType, op: State, fs: seq<Frame>, x: seq<Code>, t: Tabs, was: State, i: nat)
    requires Paired(x) && |op.code| >= 1 && op.fs == fs + [LoopFrame(ty, |op.code|)] && was == After(op, x, t)
    requires !EarlyPoint(ty) && |was.fs| == |fs| + 1 && i < |was.fs[|fs|].iterates|
    ensures 0 <= was.fs[|fs|].iterates[i] && was.fs[|fs|].iterates[i] + 2 < |was.code|
  {
    hide Positions, Paired, InnerLoop, InnerSelect, Emitted, AddHoles, KnownOf, Closed;
    LoopFrameHoles(fs, LoopFrame(ty, |op.code|), x, |op.code|);
    assert [] + Positions(x, IterateHole, |op.code|) == Positions(x, IterateHole, |op.code|);
    PositionsInside(x, IterateHole, |op.code|, i);
  }

  lemma LeavesInside(was: State, ct: seq<Byte>, fs: seq<Frame>, target: int, x: seq<Code>, t: Tabs, i: nat)
    requires LoopState(was, ct, fs, target, x, t) && |ct| >= 1 && |was.fs| == |fs| + 1 && i < |was.fs[|fs|].leaves|
    ensures 0 <= was.fs[|fs|].leaves[i] && was.fs[|fs|].leaves[i] + 2 < |was.code|
  {
    hide Positions, Paired, Emitted, AddHoles, Closed, NoIterateHole;
    PositionsInside(x, LeaveHole, |ct|, i);
  }

  /** What a loop state shows of itself. */
  lemma InLoop(was: State, ct: seq<Byte>, fs: seq<Frame>, target: int, x: seq<Code>, t: Tabs)
    requires LoopState(was, ct, fs, target, x, t)
    ensures |was.fs| == |fs| + 1 && InnerLoop(was.fs) == |fs| && |was.code| == |ct| + |x| && was.t == t
    ensures was.fs[|fs|].leaves == Positions(x, LeaveHole, |ct|)
  {
    hide Positions, Paired, Emitted, Closed, NoIterateHole, InnerLoop, InnerSelect;
    InnerPush(AddHoles(fs, Closed(x), |ct|), Frame(false, true, target, Positions(x, LeaveHole, |ct|), []));
  }

  /** The jump past the loop, in front of it or in its test, learns where the loop ends. */
  lemma LoopPatched(h: DoKind, t: Tabs, d: nat, c: seq<Byte>, fs: seq<Frame>, target: int, body: seq<Code>, it: int, y: seq<Code>, tt: Tabs,
                    was: State, cur: State)
    requires d < CTL_MAX
    requires var x, ct := TopCells(h, t, d, 0) + body, c + GateCode(h, d, 0);
             var end := |ct| + |x| + |y|;
             LoopState(was, ct, fs, target, Fill(x, IterateHole, 0, it) + y, tt)
             && cur == if h.Count? then was.(code := PatchAt(was.code, |c| + 2, end))
                       else if h.While? || h.To? then was.(code := PatchAt(was.code, |ct| + 1 + |TestFront(h, t, d)|, end))
                       else was
    ensures var over := |TestBack(h, t, d)| + |body| + |y|;
            LoopState(cur, c + GateCode(h, d, |TopCells(h, t, d, 0)| + |body| + |y|), fs, target,
                      Fill(TopCells(h, t, d, over) + body, IterateHole, 0, it) + y, tt)
  {
    hide LoopState, PatchAt, Fill, TestFront, TestBack, TopCells, GateCode, Word;
    var x, ct := TopCells(h, t, d, 0) + body, c + GateCode(h, d, 0);
    var over := |TestBack(h, t, d)| + |body| + |y|;
    var end := |ct| + |x| + |y|;
    if h.Count? {
      OnlyMark(h, t, d, over);
      GateLength(h, d, 0);
      GatePatched(ct, fs, target, Fill(x, IterateHole, 0, it) + y, tt, |c| + 2, end, was, cur);
      GateIs(c, h, d, end);
    } else if h.While? || h.To? {
      NoGate(h, d, |x| + |y|);
      JumpInside(h, t, d, 0, body, y, it);
      JumpInside(h, t, d, over, body, y, it);
      var a := [B(OP_NEWCLAUSE)] + Bytes(TestFront(h, t, d));
      var b := Fill(TestBack(h, t, d) + body, IterateHole, |a| + 3, it) + y;
      FrontLength(h, t, d);
      ConditionPatched(ct, fs, target, a, OP_JF, b, tt, end, was, cur);
    } else {
      OnlyMark(h, t, d, over);
      NoGate(h, d, |x| + |y|);
    }
  }

  lemma OnlyMark(h: DoKind, t: Tabs, d: nat, over: int)
    requires !h.While? && !h.To?
    ensures TopCells(h, t, d, over) == TopCells(h, t, d, 0)
  {
  }

  lemma GateLength(h: DoKind, d: nat, over: int)
    requires d < CTL_MAX
    ensures |GateCode(h, d, over)| == if h.Count? then 5 else 0
  {
  }

  lemma NoGate(h: DoKind, d: nat, over: int)
    requires d < CTL_MAX && !h.Count?
    ensures GateCode(h, d, over) == [] && GateCode(h, d, 0) == []
  {
  }

  lemma FrontLength(h: DoKind, t: Tabs, d: nat)
    requires h.While? || h.To?
    ensures |TopCells(h, t, d, 0)| == 1 + |TestFront(h, t, d)| + 3 + |TestBack(h, t, d)|
  {
    hide TestFront, TestBack;
  }

  /** All jumps of the loop patched and its frame gone: the DO is complete. */
  lemma LoopClosed(h: DoKind, k: DoKind, b: Block, d: nat, target: int, next: nat, st: State, was: State, pos: nat, cur: State)
    requires d < CTL_MAX && DepthOkB(b, d + 1) && SameShape(h, k) && pos == next && |st.code| >= 1
    requires var t1 := HeadTabs(h, st.t, d);
             var t2 := TabB(b, t1, d + 1);
             var body := CellsB(b, t1, d + 1);
             var top := TopCells(h, st.t, d, 0);
             var y := BackCells(k, t2, d, |top| + |body|, 0);
             var over := |TestBack(h, st.t, d)| + |body| + |y|;
             var it := if EarlyPoint(TypeOf(h)) then 0 else |top| + |body|;
             var n := |top| + |body| + |y|;
             var ct := st.code + HeaderCode(h, st.t, d) + GateCode(h, d, n);
             LoopState(was, ct, st.fs, target, Fill(TopCells(h, st.t, d, over) + body, IterateHole, 0, it) + y, TailTabs(k, t2, d))
             && |was.fs| == |st.fs| + 1
             && cur == State(PatchAll(was.code, was.fs[|st.fs|].leaves, |was.code|), was.t, was.fs[..|st.fs|])
    ensures InnerDone(OK, Got(Do(k, b), next), d, st, pos, cur)
  {
    hide CellsB, TabB, HeadTabs, TailTabs, TopTabs, LoopCells, DepthOkB, IteratePoint, CloseLoop, After, HeaderCode, GateCode,
         TopCells, BackCells, Fill, LoopState, TestBack, InnerDone, PatchAll;
    var t1 := HeadTabs(h, st.t, d);
    var t2 := TabB(b, t1, d + 1);
    var body := CellsB(b, t1, d + 1);
    var top := TopCells(h, st.t, d, 0);
    var y := BackCells(k, t2, d, |top| + |body|, 0);
    var over := |TestBack(h, st.t, d)| + |body| + |y|;
    var it := if EarlyPoint(TypeOf(h)) then 0 else |top| + |body|;
    var x := TopCells(h, st.t, d, over) + body;
    var front := HeaderCode(h, st.t, d) + GateCode(h, d, |x + y|);
    SameParts(h, k, st.t, d);
    SameTop(h, st.t, d, 0, over);
    LoopInParts(k, body, st.t, t2, d);
    assert LoopCells(k, body, st.t, t2, d) == x + y;
    TailIsGood(k, t2, d, |top| + |body|, 0);
    ClosedInOrder(x, y, it);
    assert st.code + HeaderCode(h, st.t, d) + GateCode(h, d, |x + y|) == st.code + front;
    var whole := Fill(x, IterateHole, 0, it) + y;
    TabsOfLoop(was, st.code + front, st.fs, target, whole, TailTabs(k, t2, d));
    InLoop(was, st.code + front, st.fs, target, whole, TailTabs(k, t2, d));
    LoopDone(State(st.code + front, TopTabs(h, st.t, d), st.fs), target, whole, TailTabs(k, t2, d), was, cur);
    DoFinished(k, b, d, next, st, pos, cur);
  }

  lemma BackMoves(k: DoKind, t: Tabs, d: nat, at: int, top: int, n: int)
    requires d < CTL_MAX
    ensures BackCells(k, t, d, at + n, top + n) == BackCells(k, t, d, at, top)
  {
    hide TailCells, Word;
  }
}
