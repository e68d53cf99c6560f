/** The compiler's state as a value: code, tables and the open blocks with the jumps they still have to patch. */
module CompilerState {
  import opened Options
  import opened NumberText
  import opened Bytecode
  import opened ExprSyntax
  import opened ExprCode
  import opened ExprEmit
  import opened StmtSyntax
  import opened StmtCode
  import opened Patching

  const MAX_PATCHES := 48

  /** An open DO or SELECT.  A SELECT only uses leaves. */
  datatype Frame = Frame(isSelect: bool, known: bool, target: int, leaves: seq<int>, iterates: seq<int>)

  /** The innermost open DO, -1 if there is none. */
  function InnerLoop(fs: seq<Frame>): (i: int)
    ensures -1 <= i < |fs| && (i >= 0 ==> !fs[i].isSelect)
    decreases |fs|
  {
    if fs == [] then -1 else if !fs[|fs| - 1].isSelect then |fs| - 1 else InnerLoop(fs[..|fs| - 1])
  }

  function InnerSelect(fs: seq<Frame>): (i: int)
    ensures -1 <= i < |fs| && (i >= 0 ==> fs[i].isSelect)
    decreases |fs|
  {
    if fs == [] then -1 else if fs[|fs| - 1].isSelect then |fs| - 1 else InnerSelect(fs[..|fs| - 1])
  }

  function KnownOf(fs: seq<Frame>): Known
  {
    if InnerLoop(fs) >= 0 then Known(fs[InnerLoop(fs)].known, fs[InnerLoop(fs)].target) else Known(false, 0)
  }

  /** Frame i when the holes of cs, standing from `at` on, have been recorded. */
  function Noted(fs: seq<Frame>, i: int, cs: seq<Code>, at: int): Frame
    requires 0 <= i < |fs|
  {
    var f := fs[i];
    if i == InnerLoop(fs) then
      f.(leaves := f.leaves + Positions(cs, LeaveHole, at),
         iterates := if f.known then f.iterates else f.iterates + Positions(cs, IterateHole, at))
    else if i == InnerSelect(fs) then f.(leaves := f.leaves + Positions(cs, SelectHole, at))
    else f
  }

  function AddHoles(fs: seq<Frame>, cs: seq<Code>, at: int): (gs: seq<Frame>)
    ensures |gs| == |fs|
  {
    seq(|fs|, i requires 0 <= i < |fs| => Noted(fs, i, cs, at))
  }

  /** The most jumps any open block has recorded. */
  function MostJumps(fs: seq<Frame>): nat
  {
    if fs == [] then 0
    else Max(Max(|fs[0].leaves|, |fs[0].iterates|), MostJumps(fs[1..]))
  }

  datatype State = State(code: seq<Byte>, t: Tabs, fs: seq<Frame>)

  /** The state after writing cells. */
  function After(st: State, cs: seq<Code>, t: Tabs): State
  {
    State(st.code + Emitted(cs, |st.code|, KnownOf(st.fs)), t, AddHoles(st.fs, cs, |st.code|))
  }

  // ---- Frames ------------------------------------------------------------------

  ghost predicate SameKinds(fs: seq<Frame>, gs: seq<Frame>)
  {
    |fs| == |gs| && forall i :: 0 <= i < |fs| ==> fs[i].isSelect == gs[i].isSelect
  }

  lemma {:induction false} InnerSame(fs: seq<Frame>, gs: seq<Frame>)
    requires SameKinds(fs, gs)
    ensures InnerLoop(fs) == InnerLoop(gs) && InnerSelect(fs) == InnerSelect(gs)
    decreases |fs|
  {
    if fs != [] {
      assert fs[|fs| - 1].isSelect == gs[|gs| - 1].isSelect;
      InnerSame(fs[..|fs| - 1], gs[..|gs| - 1]);
    }
  }

  lemma HolesKeepKinds(fs: seq<Frame>, cs: seq<Code>, at: int)
    ensures SameKinds(fs, AddHoles(fs, cs, at)) && KnownOf(AddHoles(fs, cs, at)) == KnownOf(fs)
    ensures InnerLoop(AddHoles(fs, cs, at)) == InnerLoop(fs) && InnerSelect(AddHoles(fs, cs, at)) == InnerSelect(fs)
  {
    hide InnerLoop, InnerSelect, Positions;
    InnerSame(fs, AddHoles(fs, cs, at));
  }

  lemma HolesJoin(fs: seq<Frame>, a: seq<Code>, b: seq<Code>, at: int)
    requires Paired(a)
    ensures AddHoles(AddHoles(fs, a, at), b, at + |a|) == AddHoles(fs, a + b, at)
  {
    hide InnerLoop, InnerSelect, Positions, Paired;
    var gs := AddHoles(fs, a, at);
    HolesKeepKinds(fs, a, at);
    forall k ensures Positions(a + b, k, at) == Positions(a, k, at) + Positions(b, k, at + |a|) {
      PositionsJoin(a, b, k, at);
    }
    forall i | 0 <= i < |fs| ensures Noted(gs, i, b, at + |a|) == Noted(fs, i, a + b, at) {
      NotedJoin(fs, gs, i, a, b, at);
    }
  }

  lemma NotedJoin(fs: seq<Frame>, gs: seq<Frame>, i: nat, a: seq<Code>, b: seq<Code>, at: int)
    requires i < |fs| == |gs| && gs[i] == Noted(fs, i, a, at)
    requires InnerLoop(gs) == InnerLoop(fs) && InnerSelect(gs) == InnerSelect(fs)
    requires forall k :: Positions(a + b, k, at) == Positions(a, k, at) + Positions(b, k, at + |a|)
    ensures Noted(gs, i, b, at + |a|) == Noted(fs, i, a + b, at)
  {
    hide InnerLoop, InnerSelect, Positions;
    assert Positions(a + b, LeaveHole, at) == Positions(a, LeaveHole, at) + Positions(b, LeaveHole, at + |a|);
    Reassociate(fs[i].leaves, Positions(a, LeaveHole, at), Positions(b, LeaveHole, at + |a|));
    Reassociate(fs[i].leaves, Positions(a, SelectHole, at), Positions(b, SelectHole, at + |a|));
    Reassociate(fs[i].iterates, Positions(a, IterateHole, at), Positions(b, IterateHole, at + |a|));
  }

  lemma AfterJoin(st: State, a: seq<Code>, ta: Tabs, b: seq<Code>, tb: Tabs)
    requires Paired(a)
    ensures After(After(st, a, ta), b, tb) == After(st, a + b, tb)
  {
    hide AddHoles, Emitted, KnownOf, Paired;
    HolesKeepKinds(st.fs, a, |st.code|);
    HolesJoin(st.fs, a, b, |st.code|);
    EmittedJoin(a, b, |st.code|, KnownOf(st.fs));
  }

  /** Code without holes. */
  lemma AfterBytes(st: State, s: seq<Byte>, t: Tabs)
    ensures After(st, Bytes(s), t) == State(st.code + s, t, st.fs)
  {
    hide Emitted, InnerLoop, InnerSelect, Positions;
    EmittedBytes(s, |st.code|, KnownOf(st.fs));
    BytesPaired(s, LeaveHole, |st.code|);
    BytesPaired(s, IterateHole, |st.code|);
    BytesPaired(s, SelectHole, |st.code|);
    forall i | 0 <= i < |st.fs| ensures Noted(st.fs, i, Bytes(s), |st.code|) == st.fs[i] { }
  }

  lemma AfterNothing(st: State)
    ensures After(st, [], st.t) == st
  {
    assert Bytes([]) == [];
    AfterBytes(st, [], st.t);
    assert st.code + [] == st.code;
  }

  // ---- Jumps patched once their target is reached ---------------------------------

  lemma {:induction false} HolesAlike(a: seq<Code>, b: seq<Code>, k: HoleKind, at: int)
    requires |a| == |b| && forall i :: 0 <= i < |a| ==> a[i].B? == b[i].B? && (a[i].Hole? ==> a[i] == b[i])
    ensures Positions(a, k, at) == Positions(b, k, at)
    decreases |a|
  {
    if a == [] {
    } else if a[0].Hole? && |a| >= 2 {
      HolesAlike(a[2..], b[2..], k, at + 2);
    } else {
      HolesAlike(a[1..], b[1..], k, at + 1);
    }
  }

  lemma NotedAlike(fs: seq<Frame>, a: seq<Code>, b: seq<Code>, at: int)
    requires |a| == |b| && forall i :: 0 <= i < |a| ==> a[i].B? == b[i].B? && (a[i].Hole? ==> a[i] == b[i])
    ensures AddHoles(fs, a, at) == AddHoles(fs, b, at)
  {
    hide InnerLoop, InnerSelect, Positions;
    HolesAlike(a, b, LeaveHole, at);
    HolesAlike(a, b, IterateHole, at);
    HolesAlike(a, b, SelectHole, at);
    forall i | 0 <= i < |fs| ensures Noted(fs, i, a, at) == Noted(fs, i, b, at) { }
  }

  /** A jump written with displacement 0 and patched when y stands behind it. */
  lemma PatchedJump(st: State, x: seq<Code>, op: Byte, y: seq<Code>, t: Tabs, target: int)
    ensures var p := |st.code| + |x|;
            var now := After(st, x + Jump(op, target - (p + 3)) + y, t);
            now.code == PatchAt(After(st, x + Jump(op, 0) + y, t).code, p, target)
            && now.fs == After(st, x + Jump(op, 0) + y, t).fs
  {
    hide Emitted, AddHoles, Lo, Hi, PatchAt;
    var at, p, k := |st.code|, |st.code| + |x|, KnownOf(st.fs);
    var v := target - (p + 3);
    forall w ensures Emitted(x + Jump(op, w) + y, at, k) == Emitted(x, at, k) + ([op] + Word(w)) + Emitted(y, p + 3, k) {
      EmittedJoin(x + Jump(op, w), y, at, k);
      EmittedJoin(x, Jump(op, w), at, k);
      EmittedBytes([op] + Word(w), p, k);
    }
    var a, z := st.code + Emitted(x, at, k), Emitted(y, p + 3, k);
    PatchOver(a, op, z, target);
    ZeroWord();
    assert After(st, x + Jump(op, 0) + y, t).code == a + [op, 0, 0] + z;
    assert After(st, x + Jump(op, v) + y, t).code == a + ([op] + Word(v)) + z;
    JumpsAlike(x, op, v, y);
    NotedAlike(st.fs, x + Jump(op, v) + y, x + Jump(op, 0) + y, at);
  }

  lemma ZeroWord()
    ensures Word(0) == [0, 0]
  {
  }

  lemma JumpsAlike(x: seq<Code>, op: Byte, v: int, y: seq<Code>)
    ensures var a, b := x + Jump(op, v) + y, x + Jump(op, 0) + y;
            |a| == |b| && forall i :: 0 <= i < |a| ==> a[i].B? == b[i].B? && (a[i].Hole? ==> a[i] == b[i])
  {
    hide Lo, Hi;
  }

  // ---- What a compiling method leaves behind ------------------------------------------

  /** Compiling a piece whose cells are cs: all of it written, or the reason it was not.  got, beyond and
  next tell what the parser makes of the tokens; jumps, how many open jumps the piece has at most. */
  predicate Compiled(rc: Rc, got: bool, beyond: bool, next: nat, cs: seq<Code>, t: Tabs, jumps: nat, st: State, pos: nat, cur: State)
  {
    match rc
    case OK => got && pos == next && cur == After(st, cs, t)
    case UNSUP => !got && !beyond
    case BEYOND => !got && beyond
    case PATCH => got ==> MostJumps(st.fs) + jumps > MAX_PATCHES
    case _ => got ==> |st.code| + |cs| > MAX_CODE || !TabsFit(t)
  }

  /** A second piece behind a first. */
  lemma Chain(rc: Rc, got: bool, beyond: bool, next: nat, a: seq<Code>, ta: Tabs, ja: nat, b: seq<Code>, tb: Tabs, jb: nat,
              st: State, pos: nat, cur: State)
    requires Paired(a) && Compiled(rc, got, beyond, next, b, tb, jb, After(st, a, ta), pos, cur)
    requires MostJumps(AddHoles(st.fs, a, |st.code|)) <= MostJumps(st.fs) + ja
    ensures Compiled(rc, got, beyond, next, a + b, tb, ja + jb, st, pos, cur)
  {
    hide AddHoles, KnownOf, Paired, Emitted, TabsFit, MostJumps;
    AfterJoin(st, a, ta, b, tb);
  }

  /** A piece that was too much in front makes the whole too much. */
  lemma Early(rc: Rc, a: seq<Code>, ta: Tabs, ja: nat, got: bool, beyond: bool, next: nat, w: seq<Code>, t: Tabs, jumps: nat,
              st: State, pos: nat, cur: State)
    requires rc == CAPACITY || rc == STRTOOLONG || rc == PATCH
    requires Compiled(rc, true, false, 0, a, ta, ja, st, pos, cur)
    requires got ==> |a| <= |w| && Extends(ta, t) && ja <= jumps
    ensures Compiled(rc, got, beyond, next, w, t, jumps, st, pos, cur)
  {
    hide After, MostJumps;
    if got && TabsFit(t) { FitsSmaller([], ta, [], t); }
  }

  /** Compiling an expression, in terms of the whole state. */
  lemma ExprState(rc: Rc, p: Parsed, st: State, pos: nat, code: seq<Byte>, t: Tabs)
    requires ExprDone(rc, p, st.code, st.t, pos, code, t) && rc != PATCH
    ensures Compiled(rc, p.Tree?, p.Beyond?, if p.Tree? then p.next else 0, if p.Tree? then Bytes(CodeE(p.e, st.t)) else [],
                     if p.Tree? then TabE(p.e, st.t) else st.t, 0, st, pos, State(code, t, st.fs))
  {
    hide After, CodeE, TabE, TabsFit;
    if p.Tree? { AfterBytes(st, CodeE(p.e, st.t), TabE(p.e, st.t)); }
  }

  // ---- How many jumps ---------------------------------------------------------------------

  /** Jumps a statement leaves to the ends and iterate points of blocks, inner ones included. */
  function JumpsS(s: Stmt): nat
    decreases s
  {
    match s
    case If(_, a, _, b) => JumpsS(a) + JumpsS(b)
    case Select(ws) => JumpsW(ws)
    case Do(k, b) => JumpsB(b) + (if k.Until? || (k.To? && k.hasFor) then 1 else 0)
    case Leave(_) => 1
    case Iterate => 1
    case _ => 0
  }

  function JumpsB(b: Block): nat
    decreases b
  {
    match b case Done => 0 case Step(s, r) => JumpsS(s) + JumpsB(r)
  }

  function JumpsW(ws: Whens): nat
    decreases ws
  {
    match ws case When(_, s, r) => JumpsS(s) + 1 + JumpsW(r) case Otherwise(b) => JumpsB(b) case NoOtherwise => 0
  }

  /** At most j holes of each kind. */
  ghost predicate Few(cs: seq<Code>, j: nat)
  {
    forall k, at :: |Positions(cs, k, at)| <= j
  }

  lemma FewJoin(a: seq<Code>, i: nat, b: seq<Code>, j: nat)
    requires Paired(a) && Few(a, i) && Few(b, j)
    ensures Few(a + b, i + j)
  {
    hide Positions, Paired;
    forall k, at ensures |Positions(a + b, k, at)| <= i + j { PositionsJoin(a, b, k, at); }
  }

  lemma FewBytes(s: seq<Byte>)
    ensures Few(Bytes(s), 0)
  {
    hide Positions;
    forall k, at ensures |Positions(Bytes(s), k, at)| <= 0 { BytesPaired(s, k, at); }
  }

  lemma FewFilled(cs: seq<Code>, j: nat, k: HoleKind, target: int)
    requires Paired(cs) && Few(cs, j)
    ensures Few(Fill(cs, k, 0, target), j)
  {
    hide Positions, Paired;
    forall i, at ensures |Positions(Fill(cs, k, 0, target), i, at)| <= j { FillPaired(cs, k, 0, target, i, at); }
  }

  lemma {:induction false} MostBound(fs: seq<Frame>, gs: seq<Frame>, j: nat)
    requires |fs| == |gs|
    requires forall i :: 0 <= i < |fs| ==> |gs[i].leaves| <= |fs[i].leaves| + j && |gs[i].iterates| <= |fs[i].iterates| + j
    ensures MostJumps(gs) <= MostJumps(fs) + j
    decreases |fs|
  {
    if fs != [] {
      assert |gs[0].leaves| <= |fs[0].leaves| + j && |gs[0].iterates| <= |fs[0].iterates| + j;
      MostBound(fs[1..], gs[1..], j);
    }
  }

  lemma {:induction false} MostAtLeast(fs: seq<Frame>, i: nat)
    requires i < |fs|
    ensures |fs[i].leaves| <= MostJumps(fs) && |fs[i].iterates| <= MostJumps(fs)
    decreases |fs|
  {
    if i > 0 { MostAtLeast(fs[1..], i - 1); }
  }

  lemma {:induction false} MostPush(fs: seq<Frame>, f: Frame)
    ensures MostJumps(fs + [f]) == Max(MostJumps(fs), Max(|f.leaves|, |f.iterates|))
    decreases |fs|
  {
    if fs == [] {
      assert fs + [f] == [f];
    } else {
      assert (fs + [f])[1..] == fs[1..] + [f];
      MostPush(fs[1..], f);
    }
  }

  lemma HolesAdd(fs: seq<Frame>, cs: seq<Code>, at: int, j: nat)
    requires Few(cs, j)
    ensures MostJumps(AddHoles(fs, cs, at)) <= MostJumps(fs) + j
  {
    hide Positions, InnerLoop, InnerSelect, MostJumps;
    var gs := AddHoles(fs, cs, at);
    assert |Positions(cs, LeaveHole, at)| <= j && |Positions(cs, IterateHole, at)| <= j && |Positions(cs, SelectHole, at)| <= j;
    MostBound(fs, gs, j);
  }

  // ---- Well-formed cells ------------------------------------------------------------------

  lemma BytesArePaired(s: seq<Byte>)
    ensures Paired(Bytes(s))
  {
    BytesPaired(s, LeaveHole, 0);
  }

  lemma HolesArePaired(op: Byte, k: HoleKind)
    ensures Paired(HoleJump(op, k))
  {
    HoleJumpPaired(op, k, k, 0);
  }

  lemma MarkIsPaired()
    ensures Paired([B(OP_NEWCLAUSE)])
  {
    BytesArePaired([OP_NEWCLAUSE]);
    assert Bytes([OP_NEWCLAUSE]) == [B(OP_NEWCLAUSE)];
  }

  lemma NonePaired()
    ensures Paired([])
  {
  }

  lemma TestPaired(k: DoKind, t: Tabs, d: nat, rest: nat)
    ensures Paired(TestCells(k, t, d, rest))
  {
    hide Paired, CodeE, Word, TestTabs, ToTest, ForTest, TabE;
    NonePaired();
    match k {
      case While(c) =>
        BytesArePaired(CodeE(c, t));
        BytesArePaired([OP_JF] + Word(rest));
        PairedJoin(Bytes(CodeE(c, t)), Jump(OP_JF, rest));
      case To(v, _, _, _, hasFor, _) =>
        var x := Bytes(CodeE(ToTest(v, d), TestTabs(k, t, d)));
        var f := ForCells(k, t, d);
        BytesArePaired(CodeE(ToTest(v, d), TestTabs(k, t, d)));
        BytesArePaired([OP_JF] + Word(|f| + rest));
        PairedJoin(x, Jump(OP_JF, |f| + rest));
        if hasFor {
          var y := CodeE(ForTest(d), TabE(ToTest(v, d), TestTabs(k, t, d)));
          BytesArePaired(y);
          HolesArePaired(OP_JF, LeaveHole);
          PairedJoin(Bytes(y), HoleJump(OP_JF, LeaveHole));
        }
        PairedJoin(x + Jump(OP_JF, |f| + rest), f);
      case _ =>
    }
  }

  lemma TailPaired(k: DoKind, t: Tabs, d: nat)
    requires d < CTL_MAX
    ensures Paired(TailCells(k, t, d))
  {
    hide Paired, CodeE, SetCode, Word, TabE;
    NonePaired();
    match k {
      case Until(c) =>
        BytesArePaired(CodeE(c, t));
        HolesArePaired(OP_JT, LeaveHole);
        PairedJoin(Bytes(CodeE(c, t)), HoleJump(OP_JT, LeaveHole));
      case Count(_) => BytesArePaired([OP_DECFOR, d] + Word(3));
      case To(v, _, _, _, hasFor, _) =>
        BytesArePaired(SetCode(v, Bin(Add, Var(v), Stride(d)), t)
          + if hasFor then SetCode(DoSym(d, "FOR"), Bin(Sub, Remaining(d), Expr.Lit("1")), TabE(Bin(Add, Var(v), Stride(d)), t))
            else []);
      case _ =>
    }
  }

  lemma LoopPaired(k: DoKind, body: seq<Code>, t: Tabs, t': Tabs, d: nat)
    requires d < CTL_MAX && Paired(body)
    ensures Paired(LoopCells(k, body, t, t', d))
  {
    hide Paired, TestCells, TailCells, Word;
    var tail := TailCells(k, t', d);
    var test := TestCells(k, t, d, |body| + |tail| + BackLength(k));
    TestPaired(k, t, d, |body| + |tail| + BackLength(k));
    TailPaired(k, t', d);
    MarkIsPaired();
    NonePaired();
    var mark := [B(OP_NEWCLAUSE)];
    var back := if k.Group? then [] else Jump(OP_JMP, -(|mark + test + body + tail| + 3));
    BytesArePaired([OP_JMP] + Word(-(|mark + test + body + tail| + 3)));
    PairedJoin(mark, test);
    PairedJoin(mark + test, body);
    PairedJoin(mark + test + body, tail);
    PairedJoin(mark + test + body + tail, back);
  }

  lemma {:induction false} CellsPaired(s: Stmt, t: Tabs, d: nat)
    requires DepthOk(s, d)
    ensures Paired(CellsS(s, t, d)) && (!s.Null? && !s.Label? ==> Paired(InnerS(s, t, d)))
    decreases s, 1
  {
    hide Paired, CodeE, TabE, SetCode, DoCells, CloseLoop, Word, Fill, TabS, TabB, CellsB, CellsW, HeadTabs, Find;
    MarkIsPaired();
    NonePaired();
    match s {
      case Null =>
      case Label(n) => BytesArePaired([OP_LABEL] + Word(Find(t.syms, n)));
      case Refused => BytesArePaired([OP_RAISE, SYNTAX_CTL_STACK]);
      case Assign(n, e) => BytesArePaired(SetCode(n, e, AddSym(t, n)));
      case Say(e) => BytesArePaired(CodeE(e, t) + [OP_SAY]);
      case Exit => BytesArePaired([OP_EXIT]);
      case ExitWith(e) => BytesArePaired(CodeE(e, t) + [OP_EXIT_RC]);
      case CallTo(n, a) => BytesArePaired(CodeA(a, AddSym(t, n)) + CallCode(OP_CALL, t, n, CountA(a)));
      case Return => BytesArePaired([OP_RETURN]);
      case ReturnWith(e) => BytesArePaired(CodeE(e, t) + [OP_RETURNV]);
      case If(_, _, _, _) => IfPaired(s, t, d);
      case Select(ws) =>
        WhensPaired(ws, t, d + 1);
        FillPaired(CellsW(ws, t, d + 1), SelectHole, 0, |CellsW(ws, t, d + 1)|, SelectHole, 0);
      case Do(k, b) =>
        var t1 := HeadTabs(k, t, d);
        BlockPaired(b, t1, d + 1);
        DoPaired(k, CellsB(b, t1, d + 1), t, TabB(b, t1, d + 1), d);
      case Leave(toSelect) => HolesArePaired(OP_LEAVE, if toSelect then SelectHole else LeaveHole);
      case Iterate => HolesArePaired(OP_ITERATE, IterateHole);
      case Nop =>
    }
    if !s.Null? && !s.Label? { PairedJoin([B(OP_NEWCLAUSE)], InnerS(s, t, d)); }
  }

  lemma DoPaired(k: DoKind, body: seq<Code>, t: Tabs, t': Tabs, d: nat)
    requires d < CTL_MAX && Paired(body)
    ensures Paired(DoCells(k, body, t, t', d))
  {
    hide Paired, HeadCode, LoopCells, IteratePoint, Word;
    var loop := LoopCells(k, body, t, t', d);
    LoopPaired(k, body, t, t', d);
    var it := IteratePoint(k, |body|, t, d);
    FillPaired(loop, LeaveHole, 0, |loop|, LeaveHole, 0);
    FillPaired(Fill(loop, LeaveHole, 0, |loop|), IterateHole, 0, it, LeaveHole, 0);
    BytesArePaired(HeadCode(k, t, d));
    BytesArePaired([OP_JF] + Word(|loop|));
    NonePaired();
    var gate := if k.Count? then Jump(OP_JF, |loop|) else [];
    PairedJoin(Bytes(HeadCode(k, t, d)), gate);
    PairedJoin(Bytes(HeadCode(k, t, d)) + gate, CloseLoop(loop, it));
  }

  lemma {:induction false} IfPaired(s: Stmt, t: Tabs, d: nat)
    requires s.If? && DepthOk(s, d)
    ensures Paired(InnerS(s, t, d))
    decreases s, 0
  {
    hide Paired, CodeE, TabE, TabS, CellsS, Word;
    var t1 := TabE(s.c, t);
    var a := CellsS(s.t, t1, d);
    var b := if s.hasElse then CellsS(s.f, TabS(s.t, t1, d), d) else [];
    CellsPaired(s.t, t1, d);
    NonePaired();
    if s.hasElse { CellsPaired(s.f, TabS(s.t, t1, d), d); }
    BytesArePaired(CodeE(s.c, t));
    var n := if s.hasElse then |a| + 3 else |a|;
    BytesArePaired([OP_JF] + Word(n));
    BytesArePaired([OP_JMP] + Word(|b|));
    PairedJoin(Bytes(CodeE(s.c, t)), Jump(OP_JF, n));
    PairedJoin(Bytes(CodeE(s.c, t)) + Jump(OP_JF, n), a);
    PairedJoin(Bytes(CodeE(s.c, t)) + Jump(OP_JF, n) + a, Jump(OP_JMP, |b|));
    PairedJoin(Bytes(CodeE(s.c, t)) + Jump(OP_JF, n) + a + Jump(OP_JMP, |b|), b);
  }

  lemma {:induction false} BlockPaired(b: Block, t: Tabs, d: nat)
    requires DepthOkB(b, d)
    ensures Paired(CellsB(b, t, d))
    decreases b, 1
  {
    hide Paired, CellsS, TabS;
    NonePaired();
    if b.Step? {
      CellsPaired(b.s, t, d);
      BlockPaired(b.rest, TabS(b.s, t, d), d);
      PairedJoin(CellsS(b.s, t, d), CellsB(b.rest, TabS(b.s, t, d), d));
    }
  }

  lemma {:induction false} WhensPaired(ws: Whens, t: Tabs, d: nat)
    requires DepthOkW(ws, d)
    ensures Paired(CellsW(ws, t, d))
    decreases ws, 1
  {
    hide Paired, CodeE, TabE, TabS, CellsS, CellsB, Word;
    NonePaired();
    match ws {
      case When(c, s, r) =>
        var t1 := TabE(c, t);
        var a := CellsS(s, t1, d);
        var x := Bytes(CodeE(c, t));
        CellsPaired(s, t1, d);
        WhensPaired(r, TabS(s, t1, d), d);
        BytesArePaired(CodeE(c, t));
        BytesArePaired([OP_JF] + Word(|a| + 3));
        HolesArePaired(OP_JMP, SelectHole);
        PairedJoin(x, Jump(OP_JF, |a| + 3));
        PairedJoin(x + Jump(OP_JF, |a| + 3), a);
        PairedJoin(x + Jump(OP_JF, |a| + 3) + a, HoleJump(OP_JMP, SelectHole));
        PairedJoin(x + Jump(OP_JF, |a| + 3) + a + HoleJump(OP_JMP, SelectHole), CellsW(r, TabS(s, t1, d), d));
      case Otherwise(b) => BlockPaired(b, t, d);
      case NoOtherwise =>
    }
  }

  lemma FewJump(op: Byte, k: HoleKind)
    ensures Few(HoleJump(op, k), 1)
  {
    hide Positions;
    forall j, at ensures |Positions(HoleJump(op, k), j, at)| <= 1 { HoleJumpPaired(op, k, j, at); }
  }

  lemma FewMark()
    ensures Few([B(OP_NEWCLAUSE)], 0) && Few([], 0)
  {
    assert Bytes([OP_NEWCLAUSE]) == [B(OP_NEWCLAUSE)];
    FewBytes([OP_NEWCLAUSE]);
  }

  lemma FewTest(k: DoKind, t: Tabs, d: nat, rest: nat)
    ensures Few(TestCells(k, t, d, rest), if k.To? && k.hasFor then 1 else 0)
  {
    hide Paired, Few, CodeE, Word, TestTabs, ToTest, ForTest, TabE;
    FewMark();
    match k {
      case While(c) =>
        BytesArePaired(CodeE(c, t));
        FewBytes(CodeE(c, t));
        FewBytes([OP_JF] + Word(rest));
        FewJoin(Bytes(CodeE(c, t)), 0, Jump(OP_JF, rest), 0);
      case To(v, _, _, _, hasFor, _) =>
        var x := Bytes(CodeE(ToTest(v, d), TestTabs(k, t, d)));
        var f := ForCells(k, t, d);
        BytesArePaired(CodeE(ToTest(v, d), TestTabs(k, t, d)));
        BytesArePaired([OP_JF] + Word(|f| + rest));
        PairedJoin(x, Jump(OP_JF, |f| + rest));
        FewBytes(CodeE(ToTest(v, d), TestTabs(k, t, d)));
        FewBytes([OP_JF] + Word(|f| + rest));
        FewJoin(x, 0, Jump(OP_JF, |f| + rest), 0);
        if hasFor {
          var y := CodeE(ForTest(d), TabE(ToTest(v, d), TestTabs(k, t, d)));
          BytesArePaired(y);
          FewBytes(y);
          FewJump(OP_JF, LeaveHole);
          FewJoin(Bytes(y), 0, HoleJump(OP_JF, LeaveHole), 1);
        }
        FewJoin(x + Jump(OP_JF, |f| + rest), 0, f, if hasFor then 1 else 0);
      case _ =>
    }
  }

  lemma FewTail(k: DoKind, t: Tabs, d: nat)
    requires d < CTL_MAX
    ensures Few(TailCells(k, t, d), if k.Until? then 1 else 0)
  {
    hide Paired, Few, CodeE, SetCode, Word, TabE;
    FewMark();
    match k {
      case Until(c) =>
        BytesArePaired(CodeE(c, t));
        FewBytes(CodeE(c, t));
        FewJump(OP_JT, LeaveHole);
        FewJoin(Bytes(CodeE(c, t)), 0, HoleJump(OP_JT, LeaveHole), 1);
      case Count(_) => FewBytes([OP_DECFOR, d] + Word(3));
      case To(v, _, _, _, hasFor, _) =>
        FewBytes(SetCode(v, Bin(Add, Var(v), Stride(d)), t)
          + if hasFor then SetCode(DoSym(d, "FOR"), Bin(Sub, Remaining(d), Expr.Lit("1")), TabE(Bin(Add, Var(v), Stride(d)), t))
            else []);
      case _ =>
    }
  }

  function LoopJumps(k: DoKind): nat { if k.Until? || (k.To? && k.hasFor) then 1 else 0 }

  lemma FewLoop(k: DoKind, body: seq<Code>, j: nat, t: Tabs, t': Tabs, d: nat)
    requires d < CTL_MAX && Paired(body) && Few(body, j)
    ensures Few(LoopCells(k, body, t, t', d), j + LoopJumps(k))
  {
    hide Paired, Few, TestCells, TailCells, Word;
    var tail := TailCells(k, t', d);
    var rest := |body| + |tail| + BackLength(k);
    var test := TestCells(k, t, d, rest);
    var p, q := if k.To? && k.hasFor then 1 else 0, if k.Until? then 1 else 0;
    TestPaired(k, t, d, rest);
    TailPaired(k, t', d);
    MarkIsPaired();
    FewMark();
    FewTest(k, t, d, rest);
    FewTail(k, t', d);
    var mark := [B(OP_NEWCLAUSE)];
    var back := if k.Group? then [] else Jump(OP_JMP, -(|mark + test + body + tail| + 3));
    FewBytes([OP_JMP] + Word(-(|mark + test + body + tail| + 3)));
    PairedJoin(mark, test);
    PairedJoin(mark + test, body);
    PairedJoin(mark + test + body, tail);
    FewJoin(mark, 0, test, p);
    FewJoin(mark + test, p, body, j);
    FewJoin(mark + test + body, p + j, tail, q);
    FewJoin(mark + test + body + tail, p + j + q, back, 0);
  }

  lemma FewDo(k: DoKind, body: seq<Code>, j: nat, t: Tabs, t': Tabs, d: nat)
    requires d < CTL_MAX && Paired(body) && Few(body, j)
    ensures Few(DoCells(k, body, t, t', d), j + LoopJumps(k))
  {
    hide Paired, Few, HeadCode, LoopCells, IteratePoint, Word;
    var loop := LoopCells(k, body, t, t', d);
    LoopPaired(k, body, t, t', d);
    FewLoop(k, body, j, t, t', d);
    var it := IteratePoint(k, |body|, t, d);
    FillPaired(loop, LeaveHole, 0, |loop|, LeaveHole, 0);
    FewFilled(loop, j + LoopJumps(k), LeaveHole, |loop|);
    FewFilled(Fill(loop, LeaveHole, 0, |loop|), j + LoopJumps(k), IterateHole, it);
    BytesArePaired(HeadCode(k, t, d));
    BytesArePaired([OP_JF] + Word(|loop|));
    FewBytes(HeadCode(k, t, d));
    FewBytes([OP_JF] + Word(|loop|));
    FewMark();
    NonePaired();
    var gate := if k.Count? then Jump(OP_JF, |loop|) else [];
    PairedJoin(Bytes(HeadCode(k, t, d)), gate);
    FewJoin(Bytes(HeadCode(k, t, d)), 0, gate, 0);
    FewJoin(Bytes(HeadCode(k, t, d)) + gate, 0, CloseLoop(loop, it), j + LoopJumps(k));
  }

  lemma {:induction false} FewS(s: Stmt, t: Tabs, d: nat)
    requires DepthOk(s, d)
    ensures Few(CellsS(s, t, d), JumpsS(s)) && (!s.Null? && !s.Label? ==> Few(InnerS(s, t, d), JumpsS(s)))
    decreases s, 1
  {
    hide Paired, Few, CodeE, TabE, SetCode, DoCells, CloseLoop, Word, Fill, TabS, TabB, CellsB, CellsW, HeadTabs, Find;
    MarkIsPaired();
    FewMark();
    match s {
      case Null =>
      case Label(n) => FewBytes([OP_LABEL] + Word(Find(t.syms, n)));
      case Refused => FewBytes([OP_RAISE, SYNTAX_CTL_STACK]);
      case Assign(n, e) => FewBytes(SetCode(n, e, AddSym(t, n)));
      case Say(e) => FewBytes(CodeE(e, t) + [OP_SAY]);
      case Exit => FewBytes([OP_EXIT]);
      case ExitWith(e) => FewBytes(CodeE(e, t) + [OP_EXIT_RC]);
      case CallTo(n, a) => FewBytes(CodeA(a, AddSym(t, n)) + CallCode(OP_CALL, t, n, CountA(a)));
      case Return => FewBytes([OP_RETURN]);
      case ReturnWith(e) => FewBytes(CodeE(e, t) + [OP_RETURNV]);
      case If(_, _, _, _) => FewIf(s, t, d);
      case Select(ws) =>
        WhensPaired(ws, t, d + 1);
        FewW(ws, t, d + 1);
        FewFilled(CellsW(ws, t, d + 1), JumpsW(ws), SelectHole, |CellsW(ws, t, d + 1)|);
      case Do(k, b) =>
        var t1 := HeadTabs(k, t, d);
        BlockPaired(b, t1, d + 1);
        FewB(b, t1, d + 1);
        FewDo(k, CellsB(b, t1, d + 1), JumpsB(b), t, TabB(b, t1, d + 1), d);
      case Leave(toSelect) => FewJump(OP_LEAVE, if toSelect then SelectHole else LeaveHole);
      case Iterate => FewJump(OP_ITERATE, IterateHole);
      case Nop =>
    }
    if !s.Null? && !s.Label? { FewJoin([B(OP_NEWCLAUSE)], 0, InnerS(s, t, d), JumpsS(s)); }
  }

  lemma {:induction false} FewIf(s: Stmt, t: Tabs, d: nat)
    requires s.If? && DepthOk(s, d)
    ensures Few(InnerS(s, t, d), JumpsS(s))
    decreases s, 0
  {
    hide Paired, Few, CodeE, TabE, TabS, CellsS, Word;
    var t1 := TabE(s.c, t);
    var a := CellsS(s.t, t1, d);
    var b := if s.hasElse then CellsS(s.f, TabS(s.t, t1, d), d) else [];
    var x := Bytes(CodeE(s.c, t));
    var n := if s.hasElse then |a| + 3 else |a|;
    CellsPaired(s.t, t1, d);
    FewS(s.t, t1, d);
    FewMark();
    if s.hasElse { FewS(s.f, TabS(s.t, t1, d), d); }
    BytesArePaired(CodeE(s.c, t));
    BytesArePaired([OP_JF] + Word(n));
    BytesArePaired([OP_JMP] + Word(|b|));
    FewBytes(CodeE(s.c, t));
    FewBytes([OP_JF] + Word(n));
    FewBytes([OP_JMP] + Word(|b|));
    PairedJoin(x, Jump(OP_JF, n));
    PairedJoin(x + Jump(OP_JF, n), a);
    PairedJoin(x + Jump(OP_JF, n) + a, Jump(OP_JMP, |b|));
    FewJoin(x, 0, Jump(OP_JF, n), 0);
    FewJoin(x + Jump(OP_JF, n), 0, a, JumpsS(s.t));
    FewJoin(x + Jump(OP_JF, n) + a, JumpsS(s.t), Jump(OP_JMP, |b|), 0);
    FewJoin(x + Jump(OP_JF, n) + a + Jump(OP_JMP, |b|), JumpsS(s.t), b, if s.hasElse then JumpsS(s.f) else 0);
    FewMore(x + Jump(OP_JF, n) + a, JumpsS(s.t), JumpsS(s));
    FewMore(x + Jump(OP_JF, n) + a + Jump(OP_JMP, |b|) + b, JumpsS(s.t) + if s.hasElse then JumpsS(s.f) else 0, JumpsS(s));
  }

  lemma FewMore(cs: seq<Code>, i: nat, j: nat)
    requires Few(cs, i) && i <= j
    ensures Few(cs, j)
  {
    hide Positions;
  }

  lemma {:induction false} FewB(b: Block, t: Tabs, d: nat)
    requires DepthOkB(b, d)
    ensures Few(CellsB(b, t, d), JumpsB(b))
    decreases b, 1
  {
    hide Paired, Few, CellsS, TabS;
    FewMark();
    if b.Step? {
      CellsPaired(b.s, t, d);
      FewS(b.s, t, d);
      FewB(b.rest, TabS(b.s, t, d), d);
      FewJoin(CellsS(b.s, t, d), JumpsS(b.s), CellsB(b.rest, TabS(b.s, t, d), d), JumpsB(b.rest));
    }
  }

  lemma {:induction false} FewW(ws: Whens, t: Tabs, d: nat)
    requires DepthOkW(ws, d)
    ensures Few(CellsW(ws, t, d), JumpsW(ws))
    decreases ws, 1
  {
    hide Paired, Few, CodeE, TabE, TabS, CellsS, CellsB, Word;
    FewMark();
    match ws {
      case When(c, s, r) =>
        var t1 := TabE(c, t);
        var a := CellsS(s, t1, d);
        var x := Bytes(CodeE(c, t));
        CellsPaired(s, t1, d);
        FewS(s, t1, d);
        FewW(r, TabS(s, t1, d), d);
        BytesArePaired(CodeE(c, t));
        BytesArePaired([OP_JF] + Word(|a| + 3));
        HolesArePaired(OP_JMP, SelectHole);
        FewBytes(CodeE(c, t));
        FewBytes([OP_JF] + Word(|a| + 3));
        FewJump(OP_JMP, SelectHole);
        PairedJoin(x, Jump(OP_JF, |a| + 3));
        PairedJoin(x + Jump(OP_JF, |a| + 3), a);
        PairedJoin(x + Jump(OP_JF, |a| + 3) + a, HoleJump(OP_JMP, SelectHole));
        FewJoin(x, 0, Jump(OP_JF, |a| + 3), 0);
        FewJoin(x + Jump(OP_JF, |a| + 3), 0, a, JumpsS(s));
        FewJoin(x + Jump(OP_JF, |a| + 3) + a, JumpsS(s), HoleJump(OP_JMP, SelectHole), 1);
        FewJoin(x + Jump(OP_JF, |a| + 3) + a + HoleJump(OP_JMP, SelectHole), JumpsS(s) + 1,
                CellsW(r, TabS(s, t1, d), d), JumpsW(r));
      case Otherwise(b) => FewB(b, t, d);
      case NoOtherwise =>
    }
  }

  // ---- One open jump ------------------------------------------------------------------------

  /** The frame a hole of kind k is recorded in. */
  function HoleFrame(fs: seq<Frame>, k: HoleKind): int
  {
    if k.SelectHole? then InnerSelect(fs) else InnerLoop(fs)
  }

  function Recorded(f: Frame, k: HoleKind, p: int): Frame
  {
    if k.IterateHole? then f.(iterates := f.iterates + [p]) else f.(leaves := f.leaves + [p])
  }

  lemma AfterHole(st: State, op: Byte, k: HoleKind)
    requires HoleFrame(st.fs, k) >= 0
    ensures var p, j := |st.code|, HoleFrame(st.fs, k);
            After(st, HoleJump(op, k), st.t)
            == if k.IterateHole? && st.fs[j].known then
                 State(st.code + ([op] + Word(st.fs[j].target - (p + 3))), st.t, st.fs)
               else State(st.code + [op, 0, 0], st.t, st.fs[j := Recorded(st.fs[j], k, p)])
  {
    hide InnerLoop, InnerSelect, Positions, Lo, Hi, Emitted;
    var p, j := |st.code|, HoleFrame(st.fs, k);
    HoleJumpPaired(op, k, LeaveHole, p);
    HoleJumpPaired(op, k, SelectHole, p);
    HoleJumpPaired(op, k, IterateHole, p);
    HoleBytes(op, k, p, KnownOf(st.fs));
    var gs := AddHoles(st.fs, HoleJump(op, k), p);
    var hs := if k.IterateHole? && st.fs[j].known then st.fs else st.fs[j := Recorded(st.fs[j], k, p)];
    forall i | 0 <= i < |gs| ensures gs[i] == hs[i] { NotedHole(st.fs, i, op, k, p); }
    assert gs == hs;
  }

  lemma NotedHole(fs: seq<Frame>, i: nat, op: Byte, k: HoleKind, p: int)
    requires i < |fs| && forall j :: Positions(HoleJump(op, k), j, p) == if j == k then [p] else []
    ensures Noted(fs, i, HoleJump(op, k), p)
         == if i == HoleFrame(fs, k) && !(k.IterateHole? && fs[i].known) then Recorded(fs[i], k, p) else fs[i]
  {
    hide InnerLoop, InnerSelect, Positions;
    assert fs[i].leaves + [] == fs[i].leaves && fs[i].iterates + [] == fs[i].iterates;
    assert Positions(HoleJump(op, k), LeaveHole, p) == if k.LeaveHole? then [p] else [];
    assert Positions(HoleJump(op, k), SelectHole, p) == if k.SelectHole? then [p] else [];
    assert Positions(HoleJump(op, k), IterateHole, p) == if k.IterateHole? then [p] else [];
  }

  lemma HoleBytes(op: Byte, k: HoleKind, p: int, x: Known)
    ensures Emitted(HoleJump(op, k), p, x)
         == if k.IterateHole? && x.known then [op] + Word(x.target - (p + 3)) else [op, 0, 0]
  {
    hide Lo, Hi;
  }
}
