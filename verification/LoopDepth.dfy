/** Counted loops in the code: between the FORINIT of a loop and its DECFOR every byte of the body is charted deeper
than the loop's counter. */
module LoopDepth {
  import opened Options
  import opened NumberText
  import opened Bytecode
  import opened ExprSyntax
  import opened ExprCode
  import opened StmtSyntax
  import opened StmtCode
  import opened LoopParts
  import opened CodeShape
  import opened Depths
  import Programs

  /** The counted loop whose FORINIT is at p: a jump past the loop, the body, and the DECFOR of the same counter. */
  predicate LoopAt(cs: seq<Code>, deep: seq<nat>, p: int)
  {
    |deep| == |cs| && 0 <= p && p + 13 <= |cs|
    && cs[p + 1].B? && cs[p + 2] == B(OP_JF) && cs[p + 3].B? && cs[p + 4].B?
    && var e := p + 5 + Signed(cs[p + 3].b, cs[p + 4].b);
       p + 13 <= e <= |cs| && cs[e - 7] == B(OP_DECFOR) && cs[e - 6] == cs[p + 1]
       && forall x :: p + 6 <= x < e - 7 ==> deep[x] > cs[p + 1].b as nat
  }

  predicate Starts(cs: seq<Code>, p: int) { 0 <= p < |cs| && Bound(cs, p) && cs[p] == B(OP_FORINIT) }

  /** Every counted loop among cs is one. */
  ghost predicate LoopsDeep(cs: seq<Code>, deep: seq<nat>)
  {
    |deep| == |cs| && Cut(cs) && forall p :: Starts(cs, p) ==> LoopAt(cs, deep, p)
  }

  ghost predicate NoLoops(cs: seq<Code>)
  {
    Cut(cs) && forall p :: !Starts(cs, p)
  }

  lemma NoLoopsDeep(cs: seq<Code>, deep: seq<nat>)
    requires NoLoops(cs) && |deep| == |cs|
    ensures LoopsDeep(cs, deep)
  {
    hide Starts, LoopAt, Cut;
  }

  // ---- Joining -------------------------------------------------------------------------

  lemma {:induction false} BoundBehind(a: seq<Code>, b: seq<Code>, p: int)
    requires Cut(a) && Bound(a + b, p) && p >= |a|
    ensures Bound(b, p - |a|)
    decreases |a|
  {
    hide OpSize;
    if a == [] {
      assert a + b == b;
    } else {
      var n := OpSize(a[0].b);
      assert (a + b)[n..] == a[n..] + b;
      BoundBehind(a[n..], b, p - n);
    }
  }

  lemma StartsSplit(a: seq<Code>, b: seq<Code>, p: int)
    requires Cut(a) && Starts(a + b, p)
    ensures if p < |a| then Starts(a, p) else Starts(b, p - |a|)
  {
    hide Bound, Cut;
    if p < |a| { BoundSplit(a, b, p); } else { BoundBehind(a, b, p); }
  }

  lemma LoopInside(x: seq<Code>, a: seq<Code>, y: seq<Code>, dx: seq<nat>, da: seq<nat>, dy: seq<nat>, p: int)
    requires LoopAt(a, da, p) && |dx| == |x| && |dy| == |y|
    ensures LoopAt(x + a + y, dx + da + dy, |x| + p)
  {
    hide LoopAt;
    assert |da| == |a| by { LoopSizes(a, da, p); }
    var w, dw := x + a + y, dx + da + dy;
    assert w[|x|..|x| + |a|] == a && dw[|x|..|x| + |a|] == da;
    LoopShift(a, da, w, dw, |x|, p);
  }

  lemma LoopSizes(a: seq<Code>, da: seq<nat>, p: int)
    requires LoopAt(a, da, p)
    ensures |da| == |a|
  {
    hide Signed;
  }

  lemma LoopShift(a: seq<Code>, da: seq<nat>, w: seq<Code>, dw: seq<nat>, n: nat, p: int)
    requires LoopAt(a, da, p) && |w| == |dw| && n + |a| <= |w| && w[n..n + |a|] == a && dw[n..n + |a|] == da
    ensures LoopAt(w, dw, n + p)
  {
    hide Signed;
    var e := p + 5 + Signed(a[p + 3].b, a[p + 4].b);
    SliceAt(w, n, |a|, p + 1);
    SliceAt(w, n, |a|, p + 2);
    SliceAt(w, n, |a|, p + 3);
    SliceAt(w, n, |a|, p + 4);
    SliceAt(w, n, |a|, e - 7);
    SliceAt(w, n, |a|, e - 6);
    forall z | n + p + 6 <= z < n + e - 7
      ensures dw[z] > w[n + p + 1].b as nat
    {
      assert dw[n..n + |a|][z - n] == dw[z];
      assert da[z - n] > a[p + 1].b as nat;
    }
  }

  lemma SliceAt(w: seq<Code>, n: nat, m: nat, i: int)
    requires n + m <= |w| && 0 <= i < m
    ensures w[n + i] == w[n..n + m][i]
  {
  }

  lemma LoopsJoin(a: seq<Code>, b: seq<Code>, da: seq<nat>, db: seq<nat>)
    requires LoopsDeep(a, da) && LoopsDeep(b, db)
    ensures LoopsDeep(a + b, da + db)
  {
    hide Cut, Starts, LoopAt;
    CutJoin(a, b);
    forall p | Starts(a + b, p)
      ensures LoopAt(a + b, da + db, p)
    {
      StartsSplit(a, b, p);
      if p < |a| {
        LoopInside([], a, b, [], da, db, p);
        assert [] + a + b == a + b && [] + da + db == da + db;
      } else {
        LoopInside(a, b, [], da, db, [], p - |a|);
        assert a + b + [] == a + b && da + db + [] == da + db;
      }
    }
  }

  lemma NoLoopsJoin(a: seq<Code>, b: seq<Code>)
    requires NoLoops(a) && NoLoops(b)
    ensures NoLoops(a + b)
  {
    hide Cut, Starts;
    CutJoin(a, b);
    forall p ensures !Starts(a + b, p) {
      if Starts(a + b, p) { StartsSplit(a, b, p); }
    }
  }

  // ---- Filling ----------------------------------------------------------------------------

  lemma {:induction false} FillBack(cs: seq<Code>, k: HoleKind, at: int, target: int, p: int)
    requires Cut(cs) && Bound(Fill(cs, k, at, target), p)
    ensures Bound(cs, p)
    decreases |cs|
  {
    hide HoleByte, OpSize;
    if p != 0 {
      var n := OpSize(cs[0].b);
      assert Fill(cs, k, at, target)[0] == cs[0];
      assert Fill(cs, k, at, target)[n..] == Fill(cs[n..], k, at + n, target);
      FillBack(cs[n..], k, at + n, target, p - n);
    }
  }

  lemma LoopFilled(cs: seq<Code>, k: HoleKind, target: int, deep: seq<nat>, p: int)
    requires LoopAt(cs, deep, p)
    ensures LoopAt(Fill(cs, k, 0, target), deep, p)
  {
    hide HoleByte, Signed;
    var f := Fill(cs, k, 0, target);
    assert forall i :: 0 <= i < |cs| && cs[i].B? ==> f[i] == cs[i];
  }

  lemma {:induction false} OpcodeAt(cs: seq<Code>, p: int)
    requires Cut(cs) && Bound(cs, p) && 0 <= p < |cs|
    ensures cs[p].B?
    decreases |cs|
  {
    hide OpSize;
    if p != 0 {
      var n := OpSize(cs[0].b);
      NextBound(cs, p);
      OpcodeAt(cs[n..], p - n);
      assert cs[n..][p - n] == cs[p];
    }
  }

  lemma StartsFilled(cs: seq<Code>, k: HoleKind, target: int, p: int)
    requires Cut(cs) && Starts(Fill(cs, k, 0, target), p)
    ensures Starts(cs, p)
  {
    hide HoleByte, Cut, Bound;
    FillBack(cs, k, 0, target, p);
    OpcodeAt(cs, p);
    assert Fill(cs, k, 0, target)[p] == cs[p];
  }

  lemma LoopsFilled(cs: seq<Code>, k: HoleKind, target: int, deep: seq<nat>)
    requires LoopsDeep(cs, deep)
    ensures LoopsDeep(Fill(cs, k, 0, target), deep)
  {
    hide Cut, Starts, LoopAt, Fill, Bound;
    var f := Fill(cs, k, 0, target);
    StartIsBound(cs);
    FillBounds(cs, k, 0, target, 0);
    forall p | Starts(f, p)
      ensures LoopAt(f, deep, p)
    {
      StartsFilled(cs, k, target, p);
      LoopFilled(cs, k, target, deep, p);
    }
  }

  // ---- Code without loops -------------------------------------------------------------------

  lemma OneNoLoop(c: seq<Code>)
    requires c != [] && c[0].B? && |c| == OpSize(c[0].b) && c[0].b != OP_FORINIT
    ensures NoLoops(c)
  {
    hide OpSize;
    assert c[OpSize(c[0].b)..] == [];
    assert Cut(c[OpSize(c[0].b)..]);
    forall p ensures !Starts(c, p) {
      if Starts(c, p) && p != 0 {
        NextBound(c, p);
        assert false;
      }
    }
  }

  lemma ByteNoLoop(s: seq<Byte>)
    requires s != [] && |s| == OpSize(s[0]) && s[0] != OP_FORINIT
    ensures NoLoops(Bytes(s))
  {
    hide OpSize;
    OneNoLoop(Bytes(s));
  }

  lemma NothingNoLoop()
    ensures NoLoops([]) && Bytes([]) == []
  {
  }

  lemma BytesNoLoop(a: seq<Byte>, b: seq<Byte>)
    requires NoLoops(Bytes(a)) && NoLoops(Bytes(b))
    ensures NoLoops(Bytes(a + b))
  {
    hide NoLoops;
    NoLoopsJoin(Bytes(a), Bytes(b));
    assert Bytes(a) + Bytes(b) == Bytes(a + b);
  }

  lemma {:induction false} StrNoLoop(s: string, t: Tabs, first: bool)
    ensures NoLoops(Bytes(StrCode(s, t, first)))
    decreases |s|
  {
    hide NoLoops, Word, Find;
    var c := Chunk(s);
    var p := PushCode(t, c);
    NothingNoLoop();
    ByteNoLoop(p);
    var q := if first then [] else [OP_CONCAT];
    if !first { ByteNoLoop([OP_CONCAT]); }
    BytesNoLoop(p, q);
    var r := if |c| < |s| then StrCode(s[|c|..], AddConst(t, c), false) else [];
    if |c| < |s| { StrNoLoop(s[|c|..], AddConst(t, c), false); }
    BytesNoLoop(p + q, r);
  }

  lemma OperatorNoLoop(op: BinOp)
    ensures OpSize(CodeOf(op)) == 1 && CodeOf(op) != OP_FORINIT
  {
  }

  lemma {:induction false} ExprNoLoop(e: Expr, t: Tabs)
    ensures NoLoops(Bytes(CodeE(e, t)))
  {
    hide NoLoops, Word, Find, CodeOf, TabE;
    match e {
      case Str(s) => StrNoLoop(s, t, true);
      case Lit(s) => ByteNoLoop(PushCode(t, s));
      case Var(n) => ByteNoLoop(LoadCode(t, n));
      case Plus(a) => ExprNoLoop(a, t);
      case Neg(a) => ExprNoLoop(a, t); ByteNoLoop([OP_NEG]); BytesNoLoop(CodeE(a, t), [OP_NEG]);
      case Not(a) => ExprNoLoop(a, t); ByteNoLoop([OP_NOT]); BytesNoLoop(CodeE(a, t), [OP_NOT]);
      case Bin(op, l, r) =>
        ExprNoLoop(l, t);
        ExprNoLoop(r, TabE(l, t));
        OperatorNoLoop(op);
        ByteNoLoop([CodeOf(op)]);
        BytesNoLoop(CodeE(l, t), CodeE(r, TabE(l, t)));
        BytesNoLoop(CodeE(l, t) + CodeE(r, TabE(l, t)), [CodeOf(op)]);
      case Call(n, a) =>
        ArgsNoLoop(a, AddSym(t, n));
        ByteNoLoop(CallCode(OP_CALL_BIF, t, n, CountA(a)));
        BytesNoLoop(CodeA(a, AddSym(t, n)), CallCode(OP_CALL_BIF, t, n, CountA(a)));
      case TooDeep => ByteNoLoop([OP_RAISE, SYNTAX_EVAL_STACK]);
      case CallTooDeep(_) => ByteNoLoop([OP_RAISE, SYNTAX_EVAL_STACK]);
    }
  }

  lemma {:induction false} ArgsNoLoop(a: Args, t: Tabs)
    ensures NoLoops(Bytes(CodeA(a, t)))
  {
    hide NoLoops, TabE, CodeE;
    match a {
      case NoArgs => NothingNoLoop();
      case Arg(b, e) => ArgsNoLoop(b, t); ExprNoLoop(e, TabA(b, t)); BytesNoLoop(CodeA(b, t), CodeE(e, TabA(b, t)));
      case Omitted(b) => ArgsNoLoop(b, t); ByteNoLoop([OP_PUSH_OMITTED]); BytesNoLoop(CodeA(b, t), [OP_PUSH_OMITTED]);
    }
  }

  lemma SetNoLoop(n: string, e: Expr, t: Tabs)
    ensures NoLoops(Bytes(SetCode(n, e, t)))
  {
    hide NoLoops, Word, Find, CodeE;
    ExprNoLoop(e, t);
    ByteNoLoop(StoreCode(t, n));
    BytesNoLoop(CodeE(e, t), StoreCode(t, n));
  }

  lemma JumpNoLoop(op: Byte, v: int)
    requires IsJump(op)
    ensures NoLoops(Jump(op, v))
  {
    hide NoLoops, Word;
    OneNoLoop(Jump(op, v));
  }

  lemma HoleNoLoop(op: Byte, k: HoleKind)
    requires IsJump(op)
    ensures NoLoops(HoleJump(op, k))
  {
    hide NoLoops;
    OneNoLoop(HoleJump(op, k));
  }

  lemma MarkNoLoop()
    ensures NoLoops([B(OP_NEWCLAUSE)])
  {
    hide NoLoops;
    OneNoLoop([B(OP_NEWCLAUSE)]);
  }

  // ---- DO -------------------------------------------------------------------------------------

  lemma HeadNoLoop(k: DoKind, t: Tabs, d: nat)
    requires d < CTL_MAX && !k.Count?
    ensures NoLoops(Bytes(HeadCode(k, t, d)))
  {
    hide NoLoops, SetCode, TabE, DoSym, ForTabs, ToTabs;
    NothingNoLoop();
    if k.To? {
      var t0 := ToTabs(k.v, t, d);
      var t1 := TabE(k.start, t0);
      var t2 := TabE(k.limit, t1);
      var a, b, c := SetCode(k.v, k.start, t0), SetCode(DoSym(d, "LIM"), k.limit, t1), SetCode(DoSym(d, "STP"), k.step, t2);
      var f := if k.hasFor then SetCode(DoSym(d, "FOR"), k.times, ForTabs(k, t, d)) else [];
      SetNoLoop(k.v, k.start, t0);
      SetNoLoop(DoSym(d, "LIM"), k.limit, t1);
      SetNoLoop(DoSym(d, "STP"), k.step, t2);
      if k.hasFor { SetNoLoop(DoSym(d, "FOR"), k.times, ForTabs(k, t, d)); }
      BytesNoLoop(a, b);
      BytesNoLoop(a + b, c);
      BytesNoLoop(a + b + c, f);
      assert HeadCode(k, t, d) == a + b + c + f;
    }
  }

  lemma TestNoLoop(k: DoKind, t: Tabs, d: nat, rest: nat)
    ensures NoLoops(TestCells(k, t, d, rest))
  {
    hide NoLoops, CodeE, TabE, ToTest, ForTest, TestTabs, Jump;
    NothingNoLoop();
    match k {
      case While(c) =>
        ExprNoLoop(c, t);
        JumpNoLoop(OP_JF, rest);
        NoLoopsJoin(Bytes(CodeE(c, t)), Jump(OP_JF, rest));
      case To(v, _, _, _, _, _) =>
        var u := TestTabs(k, t, d);
        var x, f := Bytes(CodeE(ToTest(v, d), u)), ForCells(k, t, d);
        ExprNoLoop(ToTest(v, d), u);
        JumpNoLoop(OP_JF, |f| + rest);
        NoLoopsJoin(x, Jump(OP_JF, |f| + rest));
        if k.hasFor {
          ExprNoLoop(ForTest(d), TabE(ToTest(v, d), u));
          HoleNoLoop(OP_JF, LeaveHole);
          NoLoopsJoin(Bytes(CodeE(ForTest(d), TabE(ToTest(v, d), u))), HoleJump(OP_JF, LeaveHole));
        }
        NoLoopsJoin(x + Jump(OP_JF, |f| + rest), f);
      case _ =>
    }
  }

  lemma TailNoLoop(k: DoKind, t: Tabs, d: nat)
    requires d < CTL_MAX
    ensures NoLoops(TailCells(k, t, d))
  {
    hide NoLoops, CodeE, TabE, SetCode, Stride, Remaining, DoSym, Word;
    NothingNoLoop();
    match k {
      case Until(c) =>
        ExprNoLoop(c, t);
        HoleNoLoop(OP_JT, LeaveHole);
        NoLoopsJoin(Bytes(CodeE(c, t)), HoleJump(OP_JT, LeaveHole));
      case Count(_) => ByteNoLoop([OP_DECFOR, d] + Word(3));
      case To(v, _, _, _, hasFor, _) =>
        var e, f := Bin(Add, Var(v), Stride(d)), Bin(Sub, Remaining(d), Expr.Lit("1"));
        SetNoLoop(v, e, t);
        if hasFor { SetNoLoop(DoSym(d, "FOR"), f, TabE(e, t)); }
        BytesNoLoop(SetCode(v, e, t), if hasFor then SetCode(DoSym(d, "FOR"), f, TabE(e, t)) else []);
      case _ =>
    }
  }

  lemma Joined3(a: seq<Code>, b: seq<Code>, c: seq<Code>, deep: seq<nat>, d: nat)
    requires NoLoops(a) && LoopsDeep(b, deep) && NoLoops(c)
    ensures LoopsDeep(a + b + c, Rep(|a|, d) + deep + Rep(|c|, d))
  {
    hide NoLoops, LoopsDeep;
    NoLoopsDeep(a, Rep(|a|, d));
    NoLoopsDeep(c, Rep(|c|, d));
    LoopsJoin(a, b, Rep(|a|, d), deep);
    LoopsJoin(a + b, c, Rep(|a|, d) + deep, Rep(|c|, d));
  }

  /** The loop with its body. */
  lemma LoopCellsDeep(k: DoKind, body: seq<Code>, t: Tabs, t': Tabs, d: nat, deep: seq<nat>)
    requires d < CTL_MAX && LoopsDeep(body, deep)
    ensures var loop := LoopCells(k, body, t, t', d);
            var front := 1 + |TestCells(k, t, d, 0)|;
            |loop| >= front + |body| && LoopsDeep(loop, Rep(front, d) + deep + Rep(|loop| - front - |body|, d))
  {
    hide NoLoops, LoopsDeep, TestCells, TailCells, Jump;
    var tail := TailCells(k, t', d);
    var test := TestCells(k, t, d, |body| + |tail| + BackLength(k));
    TestLength(k, t, d, |body| + |tail| + BackLength(k));
    MarkNoLoop();
    TestNoLoop(k, t, d, |body| + |tail| + BackLength(k));
    NoLoopsJoin([B(OP_NEWCLAUSE)], test);
    TailNoLoop(k, t', d);
    var front := [B(OP_NEWCLAUSE)] + test;
    var back := if k.Group? then [] else Jump(OP_JMP, -(|front + body + tail| + 3));
    NothingNoLoop();
    if !k.Group? { JumpNoLoop(OP_JMP, -(|front + body + tail| + 3)); }
    NoLoopsJoin(tail, back);
    Joined3(front, body, tail + back, deep, d);
    assert front + body + (tail + back) == front + body + tail + back;
    assert LoopCells(k, body, t, t', d) == front + body + tail + back;
  }

  lemma TestLength(k: DoKind, t: Tabs, d: nat, rest: nat)
    ensures |TestCells(k, t, d, rest)| == |TestCells(k, t, d, 0)|
  {
    hide CodeE, TabE, ToTest, ForTest, TestTabs;
  }

  /** Set-up of the counter, jump past the loop, loop. */
  lemma GateDeep(d: Byte, loop: seq<Code>, deep: seq<nat>)
    requires LoopsDeep(loop, deep) && 8 <= |loop| <= MAX_CODE
    requires loop[|loop| - 7] == B(OP_DECFOR) && loop[|loop| - 6] == B(d)
    requires forall x :: 1 <= x < |loop| - 7 ==> deep[x] > d as nat
    ensures LoopsDeep(Bytes([OP_FORINIT, d]) + (Jump(OP_JF, |loop|) + loop), Rep(5, d as nat) + deep)
  {
    hide Lo, Hi, Signed, Cut, LoopAt;
    var i, j := Bytes([OP_FORINIT, d]), Jump(OP_JF, |loop|);
    var cs, dc := i + (j + loop), Rep(5, d as nat) + deep;
    JumpNoLoop(OP_JF, |loop|);
    NoLoopsDeep(j, Rep(3, d as nat));
    LoopsJoin(j, loop, Rep(3, d as nat), deep);
    InitCut(d);
    CutJoin(i, j + loop);
    assert Rep(2, d as nat) + (Rep(3, d as nat) + deep) == dc;
    forall p | Starts(cs, p)
      ensures LoopAt(cs, dc, p)
    {
      StartsSplit(i, j + loop, p);
      if p >= 2 {
        LoopInside(i, j + loop, [], Rep(2, d as nat), Rep(3, d as nat) + deep, [], p - 2);
        assert i + (j + loop) + [] == cs && Rep(2, d as nat) + (Rep(3, d as nat) + deep) + [] == dc;
      } else {
        InitStarts(d, p);
        GateAt(d, loop, deep);
      }
    }
  }

  lemma InitCut(d: Byte)
    ensures Cut(Bytes([OP_FORINIT, d]))
  {
    assert Bytes([OP_FORINIT, d])[2..] == [];
  }

  lemma InitStarts(d: Byte, p: int)
    requires Starts(Bytes([OP_FORINIT, d]), p)
    ensures p == 0
  {
    InitCut(d);
    if p != 0 { NextBound(Bytes([OP_FORINIT, d]), p); }
  }

  lemma GateAt(d: Byte, loop: seq<Code>, deep: seq<nat>)
    requires |deep| == |loop| && 8 <= |loop| <= MAX_CODE
    requires loop[|loop| - 7] == B(OP_DECFOR) && loop[|loop| - 6] == B(d)
    requires forall x :: 1 <= x < |loop| - 7 ==> deep[x] > d as nat
    ensures LoopAt(Bytes([OP_FORINIT, d]) + (Jump(OP_JF, |loop|) + loop), Rep(5, d as nat) + deep, 0)
  {
    hide Lo, Hi, Signed;
    WordSigned(|loop|);
    var cs := Bytes([OP_FORINIT, d]) + (Jump(OP_JF, |loop|) + loop);
    assert cs[3] == B(Lo(|loop|)) && cs[4] == B(Hi(|loop|)) && cs[2] == B(OP_JF) && cs[1] == B(d);
    var e := 5 + |loop|;
    assert cs[e - 7] == loop[|loop| - 7] && cs[e - 6] == loop[|loop| - 6];
  }

  // ---- Statements -------------------------------------------------------------------------------

  predicate AtLeast(s: seq<nat>, d: nat) { forall i :: 0 <= i < |s| ==> s[i] >= d }

  lemma AtLeastJoin(a: seq<nat>, b: seq<nat>, d: nat)
    requires AtLeast(a, d) && AtLeast(b, d)
    ensures AtLeast(a + b, d)
  {
  }

  lemma AtLeastRep(n: int, d: nat)
    ensures AtLeast(Rep(n, d), d) && AtLeast([d], d) && AtLeast([], d)
  {
  }

  lemma AtLeastMore(a: seq<nat>, d: nat)
    requires AtLeast(a, d + 1)
    ensures AtLeast(a, d)
  {
  }

  lemma {:induction false} DeepAtLeast(s: Stmt, t: Tabs, d: nat)
    requires DepthOk(s, d)
    ensures AtLeast(DeepS(s, t, d), d)
    decreases s
  {
    hide CodeE, TabE, HeadTabs, InnerS, TabS, AtLeast, Rep;
    AtLeastRep(3, d);
    match s {
      case Null =>
      case Label(_) =>
      case If(c, a, hasElse, b) =>
        var x := Rep(|CodeE(c, t)| + 3, d);
        AtLeastRep(|CodeE(c, t)| + 3, d);
        DeepAtLeast(a, TabE(c, t), d);
        AtLeastJoin(x, DeepS(a, TabE(c, t), d), d);
        if hasElse {
          DeepAtLeast(b, TabS(a, TabE(c, t), d), d);
          AtLeastJoin(Rep(3, d), DeepS(b, TabS(a, TabE(c, t), d), d), d);
        }
        AtLeastJoin(x + DeepS(a, TabE(c, t), d), if hasElse then Rep(3, d) + DeepS(b, TabS(a, TabE(c, t), d), d) else [], d);
        AtLeastJoin([d], DeepInner(s, t, d), d);
      case Select(ws) =>
        DeepAtLeastW(ws, t, d + 1);
        AtLeastMore(DeepW(ws, t, d + 1), d);
        AtLeastJoin([d], DeepInner(s, t, d), d);
      case Do(k, b) =>
        var deep := DeepB(b, HeadTabs(k, t, d), d + 1);
        DeepAtLeastB(b, HeadTabs(k, t, d), d + 1);
        AtLeastMore(deep, d);
        AtLeastRep(BodyAt(k, t, d), d);
        AtLeastRep(|InnerS(s, t, d)| - BodyAt(k, t, d) - |deep|, d);
        AtLeastJoin(Rep(BodyAt(k, t, d), d), deep, d);
        AtLeastJoin(Rep(BodyAt(k, t, d), d) + deep, Rep(|InnerS(s, t, d)| - BodyAt(k, t, d) - |deep|, d), d);
        AtLeastJoin([d], DeepInner(s, t, d), d);
      case _ =>
        AtLeastRep(|InnerS(s, t, d)|, d);
        AtLeastJoin([d], DeepInner(s, t, d), d);
    }
  }

  lemma {:induction false} DeepAtLeastB(b: Block, t: Tabs, d: nat)
    requires DepthOkB(b, d)
    ensures AtLeast(DeepB(b, t, d), d)
    decreases b
  {
    hide DeepS, TabS, AtLeast;
    AtLeastRep(0, d);
    if b.Step? {
      DeepAtLeast(b.s, t, d);
      DeepAtLeastB(b.rest, TabS(b.s, t, d), d);
      AtLeastJoin(DeepS(b.s, t, d), DeepB(b.rest, TabS(b.s, t, d), d), d);
    }
  }

  lemma {:induction false} DeepAtLeastW(ws: Whens, t: Tabs, d: nat)
    requires DepthOkW(ws, d)
    ensures AtLeast(DeepW(ws, t, d), d)
    decreases ws
  {
    hide DeepS, TabS, TabE, CodeE, AtLeast, Rep;
    AtLeastRep(3, d);
    match ws {
      case When(c, s, r) =>
        var x, y := Rep(|CodeE(c, t)| + 3, d), DeepS(s, TabE(c, t), d);
        AtLeastRep(|CodeE(c, t)| + 3, d);
        DeepAtLeast(s, TabE(c, t), d);
        AtLeastJoin(x, y, d);
        AtLeastJoin(x + y, Rep(3, d), d);
        var u := TabS(s, TabE(c, t), d);
        DeepAtLeastW(r, u, d);
        AtLeastJoin(DeepWhen((c, s), t, d), DeepW(r, u, d), d);
      case Otherwise(b) => DeepAtLeastB(b, t, d);
      case NoOtherwise =>
    }
  }

  lemma DoDeep(k: DoKind, b: Block, t: Tabs, d: nat)
    requires d < CTL_MAX && DepthOkB(b, d + 1) && |InnerS(Do(k, b), t, d)| <= MAX_CODE
    requires LoopsDeep(CellsB(b, HeadTabs(k, t, d), d + 1), DeepB(b, HeadTabs(k, t, d), d + 1))
    ensures LoopsDeep(InnerS(Do(k, b), t, d), DeepInner(Do(k, b), t, d))
  {
    hide NoLoops, LoopsDeep, HeadCode, TestCells, LoopCells, CellsB, DeepB, TabB, HeadTabs, Jump, Fill, IteratePoint;
    var t1 := HeadTabs(k, t, d);
    var body, deep, t2 := CellsB(b, t1, d + 1), DeepB(b, t1, d + 1), TabB(b, t1, d + 1);
    DeepLengthB(b, t1, d + 1);
    LoopCellsDeep(k, body, t, t2, d, deep);
    var loop := LoopCells(k, body, t, t2, d);
    var front := 1 + |TestCells(k, t, d, 0)|;
    var dl := Rep(front, d) + deep + Rep(|loop| - front - |body|, d);
    var closed := CloseLoop(loop, IteratePoint(k, |body|, t, d));
    ClosedDeep(loop, IteratePoint(k, |body|, t, d), dl);
    if k.Count? {
      CountDeep(k, body, t, t2, d, deep, b, t1);
      Reps(|CodeE(k.n, t)|, 5, front, d);
      ExprNoLoop(k.n, t);
      var x, g := Bytes(CodeE(k.n, t)), Bytes([OP_FORINIT, d]) + (Jump(OP_JF, |closed|) + closed);
      NoLoopsDeep(x, Rep(|x|, d));
      LoopsJoin(x, g, Rep(|x|, d), Rep(5, d) + dl);
      CountParts(k.n, t, d, closed);
      assert InnerS(Do(k, b), t, d) == x + g;
      assert Rep(|x|, d) + (Rep(5, d) + dl) == DeepInner(Do(k, b), t, d) by { CountLengths(k, t, d, |closed|); }
    } else {
      HeadNoLoop(k, t, d);
      var x := Bytes(HeadCode(k, t, d));
      NoLoopsDeep(x, Rep(|x|, d));
      LoopsJoin(x, closed, Rep(|x|, d), dl);
      assert x + [] + closed == x + closed;
      Reps(|x|, 0, front, d);
      assert Rep(|x|, d) + dl == DeepInner(Do(k, b), t, d);
    }
  }

  lemma ClosedDeep(loop: seq<Code>, it: nat, deep: seq<nat>)
    requires LoopsDeep(loop, deep) && |deep| == |loop|
    ensures LoopsDeep(CloseLoop(loop, it), deep) && |CloseLoop(loop, it)| == |loop|
  {
    hide LoopsDeep, Fill;
    LoopsFilled(loop, LeaveHole, |loop|, deep);
    LoopsFilled(Fill(loop, LeaveHole, 0, |loop|), IterateHole, it, deep);
  }

  lemma Reps(a: nat, b: nat, c: nat, d: nat)
    ensures Rep(a, d) + (Rep(b, d) + Rep(c, d)) == Rep(a + b + c, d) && Rep(a, d) + Rep(c, d) == Rep(a + c, d)
  {
  }

  lemma CountParts(n: Expr, t: Tabs, d: Byte, closed: seq<Code>)
    requires d as nat < CTL_MAX
    ensures Bytes(HeadCode(Count(n), t, d as nat)) + Jump(OP_JF, |closed|) + closed
         == Bytes(CodeE(n, t)) + (Bytes([OP_FORINIT, d]) + (Jump(OP_JF, |closed|) + closed))
  {
    hide CodeE, Jump;
    assert Bytes(CodeE(n, t) + [OP_FORINIT, d]) == Bytes(CodeE(n, t)) + Bytes([OP_FORINIT, d]);
  }

  lemma CountLengths(k: DoKind, t: Tabs, d: nat, n: nat)
    requires d < CTL_MAX && k.Count?
    ensures BodyAt(k, t, d) == |CodeE(k.n, t)| + 5 + 1 && |TestCells(k, t, d, 0)| == 0
  {
    hide CodeE;
  }

  /** A counted loop, closed, behind its gate. */
  lemma CountDeep(k: DoKind, body: seq<Code>, t: Tabs, t2: Tabs, d: nat, deep: seq<nat>, b: Block, t1: Tabs)
    requires d < CTL_MAX && k.Count? && DepthOkB(b, d + 1) && deep == DeepB(b, t1, d + 1) && |deep| == |body|
    requires |LoopCells(k, body, t, t2, d)| <= MAX_CODE
    requires var loop := LoopCells(k, body, t, t2, d);
             var front := 1 + |TestCells(k, t, d, 0)|;
             LoopsDeep(CloseLoop(loop, IteratePoint(k, |body|, t, d)), Rep(front, d) + deep + Rep(|loop| - front - |body|, d))
    ensures var loop := LoopCells(k, body, t, t2, d);
            var front := 1 + |TestCells(k, t, d, 0)|;
            var closed := CloseLoop(loop, IteratePoint(k, |body|, t, d));
            LoopsDeep(Bytes([OP_FORINIT, d]) + (Jump(OP_JF, |closed|) + closed), Rep(5, d) + (Rep(front, d) + deep + Rep(|loop| - front - |body|, d)))
  {
    hide LoopsDeep, HoleByte, Word, DeepB;
    var loop := LoopCells(k, body, t, t2, d);
    var closed := CloseLoop(loop, IteratePoint(k, |body|, t, d));
    var dl := Rep(1, d) + deep + Rep(|loop| - 1 - |body|, d);
    DeepAtLeastB(b, t1, d + 1);
    assert |loop| == |body| + 8;
    assert loop[|loop| - 7] == B(OP_DECFOR) && loop[|loop| - 6] == B(d as Byte);
    assert closed[|closed| - 7] == loop[|loop| - 7] && closed[|closed| - 6] == loop[|loop| - 6];
    forall x | 1 <= x < |closed| - 7
      ensures dl[x] > d
    {
      assert dl[x] == deep[x - 1];
    }
    GateDeep(d as Byte, closed, dl);
  }

  lemma PlainDeep(s: Stmt, t: Tabs, d: nat)
    requires DepthOk(s, d) && !s.If? && !s.Select? && !s.Do?
    ensures LoopsDeep(InnerS(s, t, d), DeepInner(s, t, d))
  {
    hide NoLoops, LoopsDeep, CodeE, TabE, SetCode, Word, Find, CodeA, TabA;
    NothingNoLoop();
    match s {
      case Refused => ByteNoLoop([OP_RAISE, SYNTAX_CTL_STACK]);
      case Assign(n, e) => SetNoLoop(n, e, AddSym(t, n));
      case Say(e) => ExprNoLoop(e, t); ByteNoLoop([OP_SAY]); BytesNoLoop(CodeE(e, t), [OP_SAY]);
      case Exit => ByteNoLoop([OP_EXIT]);
      case ExitWith(e) => ExprNoLoop(e, t); ByteNoLoop([OP_EXIT_RC]); BytesNoLoop(CodeE(e, t), [OP_EXIT_RC]);
      case CallTo(n, a) =>
        ArgsNoLoop(a, AddSym(t, n));
        ByteNoLoop(CallCode(OP_CALL, t, n, CountA(a)));
        BytesNoLoop(CodeA(a, AddSym(t, n)), CallCode(OP_CALL, t, n, CountA(a)));
      case Return => ByteNoLoop([OP_RETURN]);
      case ReturnWith(e) => ExprNoLoop(e, t); ByteNoLoop([OP_RETURNV]); BytesNoLoop(CodeE(e, t), [OP_RETURNV]);
      case Leave(toSelect) => HoleNoLoop(OP_LEAVE, if toSelect then SelectHole else LeaveHole);
      case Iterate => HoleNoLoop(OP_ITERATE, IterateHole);
      case _ =>
    }
    NoLoopsDeep(InnerS(s, t, d), DeepInner(s, t, d));
  }

  lemma IfDeep(c: Expr, a: seq<Code>, b: seq<Code>, hasElse: bool, t: Tabs, d: nat, da: seq<nat>, db: seq<nat>)
    requires LoopsDeep(a, da) && LoopsDeep(b, db) && (!hasElse ==> b == [])
    ensures LoopsDeep(if hasElse then Bytes(CodeE(c, t)) + Jump(OP_JF, |a| + 3) + a + Jump(OP_JMP, |b|) + b
                      else Bytes(CodeE(c, t)) + Jump(OP_JF, |a|) + a,
                      Rep(|CodeE(c, t)| + 3, d) + da + if hasElse then Rep(3, d) + db else [])
  {
    hide NoLoops, LoopsDeep, CodeE, Jump;
    var n := if hasElse then |a| + 3 else |a|;
    var x := Bytes(CodeE(c, t)) + Jump(OP_JF, n);
    ExprNoLoop(c, t);
    JumpNoLoop(OP_JF, n);
    NoLoopsJoin(Bytes(CodeE(c, t)), Jump(OP_JF, n));
    NoLoopsDeep(x, Rep(|x|, d));
    LoopsJoin(x, a, Rep(|x|, d), da);
    if hasElse {
      JumpNoLoop(OP_JMP, |b|);
      NoLoopsDeep(Jump(OP_JMP, |b|), Rep(3, d));
      LoopsJoin(Jump(OP_JMP, |b|), b, Rep(3, d), db);
      LoopsJoin(x + a, Jump(OP_JMP, |b|) + b, Rep(|x|, d) + da, Rep(3, d) + db);
      assert x + a + (Jump(OP_JMP, |b|) + b) == x + a + Jump(OP_JMP, |b|) + b;
    } else {
      assert Rep(|x|, d) + da + [] == Rep(|x|, d) + da;
    }
  }

  lemma {:induction false} StmtDeep(s: Stmt, t: Tabs, d: nat)
    requires DepthOk(s, d) && |CellsS(s, t, d)| <= MAX_CODE
    ensures LoopsDeep(CellsS(s, t, d), DeepS(s, t, d))
    decreases s, 1
  {
    hide NoLoops, LoopsDeep, CodeE, TabE, Fill, TabS, CellsB, CellsW, DeepB, DeepW, HeadTabs, Word, Find;
    match s {
      case Null => NothingNoLoop(); NoLoopsDeep([], []);
      case Label(n) => ByteNoLoop([OP_LABEL] + Word(Find(t.syms, n))); NoLoopsDeep(CellsS(s, t, d), Rep(3, d));
      case If(_, _, _, _) => ChoiceDeep(s, t, d);
      case Select(ws) =>
        WhensDeep(ws, t, d + 1);
        LoopsFilled(CellsW(ws, t, d + 1), SelectHole, |CellsW(ws, t, d + 1)|, DeepW(ws, t, d + 1));
        Marked(s, t, d);
      case Do(k, b) =>
        DoSizes(k, b, t, d);
        BlockDeep(b, HeadTabs(k, t, d), d + 1);
        DoDeep(k, b, t, d);
        Marked(s, t, d);
      case _ =>
        PlainDeep(s, t, d);
        Marked(s, t, d);
    }
  }

  lemma {:induction false} ChoiceDeep(s: Stmt, t: Tabs, d: nat)
    requires s.If? && DepthOk(s, d) && |CellsS(s, t, d)| <= MAX_CODE
    ensures LoopsDeep(CellsS(s, t, d), DeepS(s, t, d))
    decreases s, 0
  {
    hide NoLoops, LoopsDeep, CodeE, TabE, TabS, Jump;
    var If(c, a, hasElse, b) := s;
    var t1 := TabE(c, t);
    IfSizes(c, a, hasElse, b, t, d);
    StmtDeep(a, t1, d);
    if hasElse { StmtDeep(b, TabS(a, t1, d), d); } else { NothingNoLoop(); NoLoopsDeep([], []); }
    IfDeep(c, CellsS(a, t1, d), if hasElse then CellsS(b, TabS(a, t1, d), d) else [], hasElse, t, d,
           DeepS(a, t1, d), if hasElse then DeepS(b, TabS(a, t1, d), d) else []);
    Marked(s, t, d);
  }

  lemma Marked(s: Stmt, t: Tabs, d: nat)
    requires DepthOk(s, d) && !s.Null? && !s.Label? && LoopsDeep(InnerS(s, t, d), DeepInner(s, t, d))
    ensures LoopsDeep(CellsS(s, t, d), DeepS(s, t, d))
  {
    hide NoLoops, LoopsDeep, InnerS, DeepInner;
    MarkNoLoop();
    NoLoopsDeep([B(OP_NEWCLAUSE)], [d]);
    LoopsJoin([B(OP_NEWCLAUSE)], InnerS(s, t, d), [d], DeepInner(s, t, d));
  }

  lemma IfSizes(c: Expr, a: Stmt, hasElse: bool, b: Stmt, t: Tabs, d: nat)
    requires DepthOk(If(c, a, hasElse, b), d)
    ensures |CellsS(a, TabE(c, t), d)| <= |CellsS(If(c, a, hasElse, b), t, d)|
    ensures hasElse ==> |CellsS(b, TabS(a, TabE(c, t), d), d)| <= |CellsS(If(c, a, hasElse, b), t, d)|
  {
    hide CodeE, TabE, TabS;
  }

  lemma DoSizes(k: DoKind, b: Block, t: Tabs, d: nat)
    requires DepthOk(Do(k, b), d)
    ensures |InnerS(Do(k, b), t, d)| < |CellsS(Do(k, b), t, d)|
    ensures |CellsB(b, HeadTabs(k, t, d), d + 1)| <= |InnerS(Do(k, b), t, d)|
  {
    hide CellsB, HeadTabs, DoCells;
    BodySmaller(k, CellsB(b, HeadTabs(k, t, d), d + 1), t, TabB(b, HeadTabs(k, t, d), d + 1), d);
  }

  lemma {:induction false} BlockDeep(b: Block, t: Tabs, d: nat)
    requires DepthOkB(b, d) && |CellsB(b, t, d)| <= MAX_CODE
    ensures LoopsDeep(CellsB(b, t, d), DeepB(b, t, d))
    decreases b, 1
  {
    hide NoLoops, LoopsDeep, CellsS, TabS, DeepS;
    if b.Step? {
      StmtDeep(b.s, t, d);
      BlockDeep(b.rest, TabS(b.s, t, d), d);
      LoopsJoin(CellsS(b.s, t, d), CellsB(b.rest, TabS(b.s, t, d), d), DeepS(b.s, t, d), DeepB(b.rest, TabS(b.s, t, d), d));
    } else {
      NothingNoLoop();
      NoLoopsDeep([], []);
    }
  }

  lemma {:induction false} WhensDeep(ws: Whens, t: Tabs, d: nat)
    requires DepthOkW(ws, d) && |CellsW(ws, t, d)| <= MAX_CODE
    ensures LoopsDeep(CellsW(ws, t, d), DeepW(ws, t, d))
    decreases ws, 1
  {
    hide NoLoops, LoopsDeep, CodeE, TabE, TabS, CellsS, CellsB, DeepS, DeepB, Jump;
    match ws {
      case When(c, s, r) =>
        var t1 := TabE(c, t);
        var a, h, n := CellsS(s, t1, d), HoleJump(OP_JMP, SelectHole), |CellsS(s, t1, d)| + 3;
        var x := Bytes(CodeE(c, t)) + Jump(OP_JF, n);
        StmtDeep(s, t1, d);
        WhensDeep(r, TabS(s, t1, d), d);
        ExprNoLoop(c, t);
        JumpNoLoop(OP_JF, n);
        NoLoopsJoin(Bytes(CodeE(c, t)), Jump(OP_JF, n));
        HoleNoLoop(OP_JMP, SelectHole);
        Joined3(x, a, h, DeepS(s, t1, d), d);
        LoopsJoin(x + a + h, CellsW(r, TabS(s, t1, d), d), DeepWhen((c, s), t, d), DeepW(r, TabS(s, t1, d), d));
      case Otherwise(b) => BlockDeep(b, t, d);
      case NoOtherwise =>
        NothingNoLoop();
        NoLoopsDeep([], []);
    }
  }

  // ---- The image ------------------------------------------------------------------------------------

  /**
   * In every image the compiler makes, each counter's set-up is followed by the jump to the end of its loop, in front of
   * which stands the counter's DECFOR, and all bytes of the body between lie deeper than the counter's number.
   */
  lemma CountedLoopsAreDeep(b: Block, p: nat)
    requires DepthOkB(b, 0) && TopLabels(b) && Programs.ClosedB(b, false, false) && ImageOk(Programs.ImageOf(b))
    requires var code := Programs.ImageOf(b).code; p < |code| && Boundary(code, p) && code[p] == OP_FORINIT
    ensures var code := Programs.ImageOf(b).code;
            CountsAt(code, p) && LoopEnd(code, p) - 7 <= |DeepB(b, Programs.NO_TABS, 0)|
            && forall x :: p + 6 <= x < LoopEnd(code, p) - 7 ==> DeepB(b, Programs.NO_TABS, 0)[x] > code[p + 1] as nat
  {
    hide CellsB, TabB, DeepB, DepthOkB, TopLabels, Programs.ClosedB, LoopsDeep, NoLoops, Bound, LoopAt;
    var cs, deep := CellsB(b, Programs.NO_TABS, 0), DeepB(b, Programs.NO_TABS, 0);
    var code := Programs.ImageOf(b).code;
    Programs.BlockOnly(b, Programs.NO_TABS, 0, false, false);
    assert Bytes(Programs.Written(cs)) == cs;
    BlockDeep(b, Programs.NO_TABS, 0);
    DeepLengthB(b, Programs.NO_TABS, 0);
    ByteNoLoop([OP_EXIT]);
    var exit := Bytes([OP_EXIT]);
    NoLoopsDeep(exit, [0]);
    LoopsJoin(cs, exit, deep, [0]);
    assert Bytes(code) == cs + exit;
    assert Starts(cs + exit, p);
    LoopThere(cs + exit, deep + [0], p);
    LoopInCode(code, deep, p);
  }

  lemma LoopThere(cs: seq<Code>, deep: seq<nat>, p: int)
    requires LoopsDeep(cs, deep) && Starts(cs, p)
    ensures LoopAt(cs, deep, p)
  {
    hide Cut, Starts, LoopAt;
  }

  /** The end of the counted loop whose FORINIT is at p. */
  function LoopEnd(code: seq<Byte>, p: nat): int { p + 5 + ReadI16(code, p + 3) }

  predicate CountsAt(code: seq<Byte>, p: nat)
  {
    && p + 13 <= LoopEnd(code, p) <= |code|
    && code[p + 2] == OP_JF && code[LoopEnd(code, p) - 7] == OP_DECFOR && code[LoopEnd(code, p) - 6] == code[p + 1]
  }

  lemma LoopInCode(code: seq<Byte>, deep: seq<nat>, p: nat)
    requires LoopAt(Bytes(code), deep + [0], p)
    ensures CountsAt(code, p)
    ensures LoopEnd(code, p) - 7 <= |deep|
    ensures forall x :: p + 6 <= x < LoopEnd(code, p) - 7 ==> deep[x] > code[p + 1] as nat
  {
    var cs := Bytes(code);
    assert cs[p + 3] == B(code[p + 3]) && cs[p + 4] == B(code[p + 4]) && cs[p + 1] == B(code[p + 1]);
    var e := p + 5 + Signed(code[p + 3], code[p + 4]);
    assert LoopEnd(code, p) == e;
    assert cs[e - 7] == B(code[e - 7]) && cs[e - 6] == B(code[e - 6]) && cs[p + 2] == B(code[p + 2]);
    forall x | p + 6 <= x < e - 7
      ensures deep[x] > code[p + 1] as nat
    {
      assert (deep + [0])[x] > code[p + 1] as nat;
    }
  }
}
