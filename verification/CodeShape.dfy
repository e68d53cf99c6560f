/** The shape of the code: OP_SIZE cuts it into whole instructions, and every jump lands on one. */
module CodeShape {
  import opened Options
  import opened NumberText
  import opened Bytecode
  import opened Tokens
  import opened ExprSyntax
  import opened ExprCode
  import opened StmtSyntax
  import opened StmtCode
  import opened LoopParts
  import Programs

  /** The jumps whose displacement is counted from behind three bytes. */
  predicate IsJump(op: Byte) { op == OP_JMP || op == OP_JF || op == OP_JT || op == OP_ITERATE || op == OP_LEAVE }

  function Signed(lo: Byte, hi: Byte): int
  {
    var u := lo + 256 * hi;
    if u >= 0x8000 then u - 0x1_0000 else u
  }

  /** Cells made of whole instructions. */
  predicate Cut(cs: seq<Code>)
    decreases |cs|
  {
    cs == [] || (cs[0].B? && OpSize(cs[0].b) <= |cs| && Cut(cs[OpSize(cs[0].b)..]))
  }

  /** An instruction of cs, or their end, is at p. */
  predicate Bound(cs: seq<Code>, p: int)
    decreases |cs|
  {
    p == 0 || (p > 0 && cs != [] && cs[0].B? && OpSize(cs[0].b) <= |cs| && Bound(cs[OpSize(cs[0].b)..], p - OpSize(cs[0].b)))
  }

  /** The instruction c at position `at`: an open jump, or all bytes, with a jump to one of whole's instructions. */
  predicate InstrOk(c: seq<Code>, at: int, whole: seq<Code>, labels: bool)
    requires c != [] && c[0].B? && |c| == OpSize(c[0].b)
  {
    var op := c[0].b;
    if |c| == 3 && c[1].Hole? then IsJump(op) && !c[1].high && c[2] == Hole(c[1].k, true)
    else
      (forall i :: 0 <= i < |c| ==> c[i].B?)
      && (IsJump(op) ==> |c| == 3 && Bound(whole, at + 3 + Signed(c[1].b, c[2].b)))
      && (op == OP_DECFOR ==> |c| == 4 && Bound(whole, at + 4 + Signed(c[2].b, c[3].b)))
      && (op == OP_LABEL ==> labels)
  }

  predicate InstrsOk(cs: seq<Code>, at: int, whole: seq<Code>, labels: bool)
    requires Cut(cs)
    decreases |cs|
  {
    cs == []
    || (InstrOk(cs[..OpSize(cs[0].b)], at, whole, labels)
        && InstrsOk(cs[OpSize(cs[0].b)..], at + OpSize(cs[0].b), whole, labels))
  }

  /** Whole instructions, every closed jump among them landing on one of them or right behind. */
  predicate Sound(cs: seq<Code>, labels: bool) { Cut(cs) && InstrsOk(cs, 0, cs, labels) }

  // ---- Joining -----------------------------------------------------------------

  lemma {:induction false} CutJoin(a: seq<Code>, b: seq<Code>)
    requires Cut(a) && Cut(b)
    ensures Cut(a + b) && Bound(a + b, |a|) && Bound(a, |a|)
    decreases |a|
  {
    hide OpSize;
    if a == [] {
      assert a + b == b;
    } else {
      var n := OpSize(a[0].b);
      CutJoin(a[n..], b);
      assert (a + b)[n..] == a[n..] + b;
    }
  }

  lemma {:induction false} BoundLeft(a: seq<Code>, b: seq<Code>, p: int)
    requires Cut(a) && Bound(a, p)
    ensures Bound(a + b, p)
    decreases |a|
  {
    hide OpSize;
    if p != 0 {
      var n := OpSize(a[0].b);
      BoundLeft(a[n..], b, p - n);
      assert (a + b)[n..] == a[n..] + b;
    }
  }

  lemma {:induction false} BoundRight(a: seq<Code>, b: seq<Code>, p: int)
    requires Cut(a) && Bound(b, p)
    ensures Bound(a + b, |a| + p) && p >= 0
    decreases |a|
  {
    hide OpSize;
    if a == [] {
      assert a + b == b;
    } else {
      var n := OpSize(a[0].b);
      BoundRight(a[n..], b, p);
      assert (a + b)[n..] == a[n..] + b;
      if |a| + p == 0 { assert false; }
    }
  }

  lemma InstrsStep(cs: seq<Code>, at: int, whole: seq<Code>, labels: bool)
    requires Cut(cs) && cs != []
    ensures cs[0].B? && OpSize(cs[0].b) <= |cs|
    ensures var n := OpSize(cs[0].b);
            Cut(cs[n..])
            && (InstrsOk(cs, at, whole, labels) <==> InstrOk(cs[..n], at, whole, labels) && InstrsOk(cs[n..], at + n, whole, labels))
  {
    hide InstrOk, Bound, OpSize;
  }

  lemma {:induction false} InstrsJoin(a: seq<Code>, b: seq<Code>, at: int, whole: seq<Code>, labels: bool)
    requires Cut(a) && Cut(b) && InstrsOk(a, at, whole, labels) && InstrsOk(b, at + |a|, whole, labels)
    ensures Cut(a + b) && InstrsOk(a + b, at, whole, labels)
    decreases |a|
  {
    hide InstrOk, InstrsOk, Bound, OpSize, Cut;
    CutJoin(a, b);
    var w := a + b;
    if a == [] {
      assert w == b && at + |a| == at;
    } else {
      InstrsStep(a, at, whole, labels);
      InstrsStep(w, at, whole, labels);
      var n := OpSize(a[0].b);
      assert w[n..] == a[n..] + b && w[..n] == a[..n];
      InstrsJoin(a[n..], b, at + n, whole, labels);
    }
  }

  /** Instructions seen as part of something larger, d positions further on. */
  lemma {:induction false} InstrsMove(cs: seq<Code>, at: int, was: seq<Code>, whole: seq<Code>, d: int, labels: bool)
    requires Cut(cs) && InstrsOk(cs, at, was, labels) && forall p :: Bound(was, p) ==> Bound(whole, d + p)
    ensures InstrsOk(cs, at + d, whole, labels)
    decreases |cs|
  {
    hide Bound;
    if cs != [] {
      var n := OpSize(cs[0].b);
      InstrMoves(cs[..n], at, was, whole, d, labels);
      InstrsMove(cs[n..], at + n, was, whole, d, labels);
    }
  }

  lemma InstrMoves(c: seq<Code>, at: int, was: seq<Code>, whole: seq<Code>, d: int, labels: bool)
    requires c != [] && c[0].B? && |c| == OpSize(c[0].b)
    requires InstrOk(c, at, was, labels) && forall p :: Bound(was, p) ==> Bound(whole, d + p)
    ensures InstrOk(c, at + d, whole, labels)
  {
    hide Bound, OpSize;
  }

  /** A sound piece inside a larger one. */
  lemma Within(x: seq<Code>, a: seq<Code>, y: seq<Code>, labels: bool)
    requires Cut(x) && Sound(a, labels)
    ensures InstrsOk(a, |x|, x + a + y, labels)
  {
    hide Cut, Bound, InstrsOk;
    forall p | Bound(a, p) ensures Bound(x + a + y, |x| + p) {
      BoundRight(x, a, p);
      CutJoin(x, a);
      BoundLeft(x + a, y, |x| + p);
    }
    InstrsMove(a, 0, a, x + a + y, |x|, labels);
  }

  lemma SoundJoin(a: seq<Code>, b: seq<Code>, labels: bool)
    requires Sound(a, labels) && Sound(b, labels)
    ensures Sound(a + b, labels)
  {
    hide Cut, Bound, InstrsOk;
    NoneSound(labels);
    Within([], a, b, labels);
    Within(a, b, [], labels);
    assert [] + a + b == a + b && a + b + [] == a + b;
    InstrsJoin(a, b, 0, a + b, labels);
  }

  lemma NoneSound(labels: bool)
    ensures Sound([], labels)
  {
  }

  lemma {:induction false} LabelsAllowed(cs: seq<Code>, at: int, whole: seq<Code>)
    requires Cut(cs) && InstrsOk(cs, at, whole, false)
    ensures InstrsOk(cs, at, whole, true)
    decreases |cs|
  {
    hide Bound;
    if cs != [] { LabelsAllowed(cs[OpSize(cs[0].b)..], at + OpSize(cs[0].b), whole); }
  }

  // ---- Single instructions -----------------------------------------------------------

  /** An instruction that is no jump and no label. */
  lemma PlainInstr(s: seq<Byte>, labels: bool)
    requires s != [] && |s| == OpSize(s[0]) && !IsJump(s[0]) && s[0] != OP_DECFOR && s[0] != OP_LABEL
    ensures Sound(Bytes(s), labels)
  {
    hide OpSize, IsJump, Bound;
    OneInstr(Bytes(s), labels);
  }

  lemma OneInstr(c: seq<Code>, labels: bool)
    requires c != [] && c[0].B? && |c| == OpSize(c[0].b) && InstrOk(c, 0, c, labels)
    ensures Sound(c, labels)
  {
    hide InstrOk, OpSize, Bound;
    assert c[OpSize(c[0].b)..] == [] && c[..OpSize(c[0].b)] == c;
    NoneSound(labels);
    OneStepCut(c, labels);
  }

  lemma OneStepCut(c: seq<Code>, labels: bool)
    requires c != [] && c[0].B? && |c| == OpSize(c[0].b) && InstrOk(c, 0, c, labels)
    ensures Cut(c) && InstrsOk(c, 0, c, labels)
  {
    hide InstrOk, OpSize, Bound;
    assert c[OpSize(c[0].b)..] == [] && c[..OpSize(c[0].b)] == c;
  }

  lemma OpenJump(op: Byte, k: HoleKind, labels: bool)
    requires IsJump(op)
    ensures Sound(HoleJump(op, k), labels)
  {
    hide Bound;
    OneInstr(HoleJump(op, k), labels);
  }

  lemma WordSigned(v: int)
    requires -0x8000 <= v < 0x8000
    ensures Signed(Lo(v), Hi(v)) == v
  {
    assert v == 256 * (v / 256) + v % 256;
  }

  /** A closed jump at `at` of whole, over v bytes. */
  lemma JumpOk(op: Byte, v: int, at: int, whole: seq<Code>, labels: bool)
    requires IsJump(op) && -0x8000 <= v < 0x8000 && Bound(whole, at + 3 + v)
    ensures Cut(Jump(op, v)) && InstrsOk(Jump(op, v), at, whole, labels)
  {
    hide Lo, Hi, Bound, Signed;
    WordSigned(v);
    var c := Jump(op, v);
    assert c[1] == B(Lo(v)) && c[2] == B(Hi(v));
    assert c[3..] == [] && c[..3] == c;
  }

  /** x, a jump over y, y. */
  lemma JumpOver(x: seq<Code>, op: Byte, y: seq<Code>, labels: bool)
    requires IsJump(op) && Sound(x, labels) && Sound(y, labels) && |y| < 0x8000
    ensures Sound(x + Jump(op, |y|) + y, labels)
  {
    hide Cut, Bound, InstrsOk, Word;
    var j := Jump(op, |y|);
    var w := x + j + y;
    JumpCut(op, |y|);
    CutJoin(x, j);
    CutJoin(x + j, y);
    NoneSound(labels);
    CutJoin(w, []);
    Within([], x, j + y, labels);
    assert [] + x + (j + y) == w;
    Within(x + j, y, [], labels);
    assert x + j + y + [] == w;
    JumpOk(op, |y|, |x|, w, labels);
    InstrsJoin(x, j, 0, w, labels);
    InstrsJoin(x + j, y, 0, w, labels);
  }

  lemma JumpCut(op: Byte, v: int)
    requires IsJump(op)
    ensures Cut(Jump(op, v))
  {
    hide Word;
    assert Jump(op, v)[3..] == [];
  }

  // ---- Expressions -------------------------------------------------------------------

  lemma {:induction false} StrSound(s: string, t: Tabs, first: bool)
    ensures Sound(Bytes(StrCode(s, t, first)), false)
    decreases |s|
  {
    hide Sound, Word, Find;
    var c := Chunk(s);
    var p := PushCode(t, c);
    NoneSound(false);
    PlainInstr(p, false);
    var q := if first then [] else [OP_CONCAT];
    if !first { PlainInstr([OP_CONCAT], false); }
    assert Bytes([]) == [];
    BytesSound(p, q);
    var r := if |c| < |s| then StrCode(s[|c|..], AddConst(t, c), false) else [];
    if |c| < |s| { StrSound(s[|c|..], AddConst(t, c), false); }
    BytesSound(p + q, r);
  }

  lemma BytesSound(a: seq<Byte>, b: seq<Byte>)
    requires Sound(Bytes(a), false) && Sound(Bytes(b), false)
    ensures Sound(Bytes(a + b), false)
  {
    hide Sound;
    SoundJoin(Bytes(a), Bytes(b), false);
    assert Bytes(a) + Bytes(b) == Bytes(a + b);
  }

  lemma OperatorPlain(op: BinOp)
    ensures var b := CodeOf(op); OpSize(b) == 1 && !IsJump(b) && b != OP_DECFOR && b != OP_LABEL
  {
  }

  lemma {:induction false} ExprSound(e: Expr, t: Tabs)
    ensures Sound(Bytes(CodeE(e, t)), false)
  {
    hide Sound, Word, Find, CodeOf, TabE;
    match e {
      case Str(s) => StrSound(s, t, true);
      case Lit(s) => PlainInstr(PushCode(t, s), false);
      case Var(n) => PlainInstr(LoadCode(t, n), false);
      case Plus(a) => ExprSound(a, t);
      case Neg(a) => ExprSound(a, t); PlainInstr([OP_NEG], false); BytesSound(CodeE(a, t), [OP_NEG]);
      case Not(a) => ExprSound(a, t); PlainInstr([OP_NOT], false); BytesSound(CodeE(a, t), [OP_NOT]);
      case Bin(op, l, r) =>
        ExprSound(l, t);
        ExprSound(r, TabE(l, t));
        OperatorPlain(op);
        PlainInstr([CodeOf(op)], false);
        BytesSound(CodeE(l, t), CodeE(r, TabE(l, t)));
        BytesSound(CodeE(l, t) + CodeE(r, TabE(l, t)), [CodeOf(op)]);
      case Call(n, a) =>
        ArgsSound(a, AddSym(t, n));
        CallSound(OP_CALL_BIF, t, n, CountA(a));
        BytesSound(CodeA(a, AddSym(t, n)), CallCode(OP_CALL_BIF, t, n, CountA(a)));
      case TooDeep => PlainInstr([OP_RAISE, SYNTAX_EVAL_STACK], false);
      case CallTooDeep(_) => PlainInstr([OP_RAISE, SYNTAX_EVAL_STACK], false);
    }
  }

  lemma {:induction false} ArgsSound(a: Args, t: Tabs)
    ensures Sound(Bytes(CodeA(a, t)), false)
  {
    hide Sound, TabE, CodeE;
    match a {
      case NoArgs =>
        NoneSound(false);
        assert Bytes([]) == [];
      case Arg(b, e) => ArgsSound(b, t); ExprSound(e, TabA(b, t)); BytesSound(CodeA(b, t), CodeE(e, TabA(b, t)));
      case Omitted(b) => ArgsSound(b, t); PlainInstr([OP_PUSH_OMITTED], false); BytesSound(CodeA(b, t), [OP_PUSH_OMITTED]);
    }
  }

  lemma CallSound(op: Byte, t: Tabs, name: string, nargs: nat)
    requires op == OP_CALL || op == OP_CALL_BIF
    ensures Sound(Bytes(CallCode(op, t, name, nargs)), false)
  {
    hide Sound, Word, Find;
    PlainInstr(CallCode(op, t, name, nargs), false);
  }

  lemma SetSound(n: string, e: Expr, t: Tabs)
    ensures Sound(Bytes(SetCode(n, e, t)), false)
  {
    hide Sound, Word, Find, CodeE;
    ExprSound(e, t);
    PlainInstr(StoreCode(t, n), false);
    BytesSound(CodeE(e, t), StoreCode(t, n));
  }

  // ---- Closing jumps -------------------------------------------------------------------

  lemma {:induction false} FillBounds(cs: seq<Code>, k: HoleKind, at: int, target: int, p: int)
    requires Cut(cs) && Bound(cs, p)
    ensures Cut(Fill(cs, k, at, target)) && Bound(Fill(cs, k, at, target), p)
    decreases |cs|
  {
    hide HoleByte, OpSize;
    if cs != [] {
      var n := OpSize(cs[0].b);
      FillBounds(cs[n..], k, at + n, target, if p == 0 then 0 else p - n);
      assert Fill(cs, k, at, target)[n..] == Fill(cs[n..], k, at + n, target);
    }
  }

  /** Filling the holes of one kind with a target that is an instruction. */
  lemma {:induction false} FillInstrs(cs: seq<Code>, k: HoleKind, at: int, target: int, whole: seq<Code>, labels: bool)
    requires Cut(cs) && InstrsOk(cs, at, whole, labels) && Bound(whole, target)
    requires 0 <= at && at + |cs| <= MAX_CODE && 0 <= target <= MAX_CODE
    ensures Cut(Fill(cs, k, at, target)) && InstrsOk(Fill(cs, k, at, target), at, whole, labels)
    decreases |cs|
  {
    hide HoleByte, OpSize, Bound, InstrOk;
    var f := Fill(cs, k, at, target);
    if cs != [] {
      var n := OpSize(cs[0].b);
      FillInstrs(cs[n..], k, at + n, target, whole, labels);
      assert f[n..] == Fill(cs[n..], k, at + n, target);
      assert f[..n] == Fill(cs[..n], k, at, target);
      FillInstr(cs[..n], k, at, target, whole, labels);
    }
  }

  lemma FillInstr(c: seq<Code>, k: HoleKind, at: int, target: int, whole: seq<Code>, labels: bool)
    requires c != [] && c[0].B? && |c| == OpSize(c[0].b) && InstrOk(c, at, whole, labels) && Bound(whole, target)
    requires 0 <= at <= MAX_CODE && 0 <= target <= MAX_CODE
    ensures InstrOk(Fill(c, k, at, target), at, whole, labels)
  {
    hide OpSize, Bound, Signed, Lo, Hi;
    if |c| == 3 && c[1].Hole? && c[1].k == k {
      WordSigned(target - (at + 3));
      LabelIsNoJump(c[0].b);
    } else {
      assert Fill(c, k, at, target) == c;
    }
  }

  lemma LabelIsNoJump(op: Byte)
    requires IsJump(op)
    ensures op != OP_LABEL && op != OP_DECFOR
  {
  }

  lemma FillSound(cs: seq<Code>, k: HoleKind, target: int, labels: bool)
    requires Sound(cs, labels) && Bound(cs, target) && |cs| <= MAX_CODE && 0 <= target <= |cs|
    ensures Sound(Fill(cs, k, 0, target), labels)
    ensures forall p :: Bound(cs, p) ==> Bound(Fill(cs, k, 0, target), p)
  {
    hide Cut, Bound, InstrsOk, Fill;
    var f := Fill(cs, k, 0, target);
    FillInstrs(cs, k, 0, target, cs, labels);
    forall p | Bound(cs, p) ensures Bound(f, 0 + p) { FillBounds(cs, k, 0, target, p); }
    InstrsMove(f, 0, cs, f, 0, labels);
  }

  // ---- DO ---------------------------------------------------------------------------------

  lemma HeadSound(k: DoKind, t: Tabs, d: nat)
    requires d < CTL_MAX
    ensures Sound(Bytes(HeadCode(k, t, d)), false)
  {
    hide Sound, CodeE, TabE, SetCode, DoSym, ToTabs, ForTabs;
    NoneSound(false);
    assert Bytes([]) == [];
    match k {
      case Count(n) =>
        ExprSound(n, t);
        PlainInstr([OP_FORINIT, d], false);
        BytesSound(CodeE(n, t), [OP_FORINIT, d]);
      case To(v, start, limit, step, hasFor, times) =>
        var t0 := ToTabs(v, t, d);
        var t1 := TabE(start, t0);
        var t2 := TabE(limit, t1);
        var a, b, c := SetCode(v, start, t0), SetCode(DoSym(d, "LIM"), limit, t1), SetCode(DoSym(d, "STP"), step, t2);
        var f := if hasFor then SetCode(DoSym(d, "FOR"), times, ForTabs(k, t, d)) else [];
        SetSound(v, start, t0);
        SetSound(DoSym(d, "LIM"), limit, t1);
        SetSound(DoSym(d, "STP"), step, t2);
        if hasFor { SetSound(DoSym(d, "FOR"), times, ForTabs(k, t, d)); }
        BytesSound(a, b);
        BytesSound(a + b, c);
        BytesSound(a + b + c, f);
      case _ =>
    }
  }

  /** The front of a loop's test, up to its jump. */
  function Front(k: DoKind, t: Tabs, d: nat): seq<Byte>
    requires k.While? || k.To?
  {
    match k case While(c) => CodeE(c, t) case To(v, _, _, _, _, _) => CodeE(ToTest(v, d), TestTabs(k, t, d))
  }

  function Back(k: DoKind, t: Tabs, d: nat): seq<Code> { if k.To? then ForCells(k, t, d) else [] }

  lemma BackSound(k: DoKind, t: Tabs, d: nat)
    ensures Sound(Back(k, t, d), false)
  {
    hide Sound, CodeE, TabE, ToTest, ForTest, TestTabs;
    NoneSound(false);
    if k.To? && k.hasFor {
      ExprSound(ForTest(d), TabE(ToTest(k.v, d), TestTabs(k, t, d)));
      OpenJump(OP_JF, LeaveHole, false);
      SoundJoin(Bytes(CodeE(ForTest(d), TabE(ToTest(k.v, d), TestTabs(k, t, d)))), HoleJump(OP_JF, LeaveHole), false);
    }
  }

  /** The tail without the counter's instruction, which jumps. */
  lemma TailSound(k: DoKind, t: Tabs, d: nat)
    requires d < CTL_MAX && !k.Count?
    ensures Sound(TailCells(k, t, d), false)
  {
    hide Sound, CodeE, TabE, SetCode, DoSym;
    NoneSound(false);
    assert Bytes([]) == [];
    match k {
      case Until(c) =>
        ExprSound(c, t);
        OpenJump(OP_JT, LeaveHole, false);
        SoundJoin(Bytes(CodeE(c, t)), HoleJump(OP_JT, LeaveHole), false);
      case To(v, _, _, _, hasFor, _) =>
        var e := Bin(Add, Var(v), Stride(d));
        var f := if hasFor then SetCode(DoSym(d, "FOR"), Bin(Sub, Remaining(d), Expr.Lit("1")), TabE(e, t)) else [];
        SetSound(v, e, t);
        if hasFor { SetSound(DoSym(d, "FOR"), Bin(Sub, Remaining(d), Expr.Lit("1")), TabE(e, t)); }
        BytesSound(SetCode(v, e, t), f);
      case _ =>
    }
  }

  lemma MarkSound()
    ensures Sound([B(OP_NEWCLAUSE)], false)
  {
    hide Sound;
    assert Bytes([OP_NEWCLAUSE]) == [B(OP_NEWCLAUSE)];
    PlainInstr([OP_NEWCLAUSE], false);
  }

  /** x and a jump back to its start. */
  lemma BackJump(x: seq<Code>)
    requires Sound(x, false) && |x| < 0x7000
    ensures Sound(x + Jump(OP_JMP, -(|x| + 3)), false)
  {
    hide Cut, InstrsOk, Word;
    var j := Jump(OP_JMP, -(|x| + 3));
    JumpCut(OP_JMP, -(|x| + 3));
    NoneSound(false);
    Within([], x, j, false);
    assert [] + x + j == x + j;
    hide Bound;
    StartIsBound(x + j);
    JumpOk(OP_JMP, -(|x| + 3), |x|, x + j, false);
    InstrsJoin(x, j, 0, x + j, false);
  }

  lemma StartIsBound(cs: seq<Code>)
    ensures Bound(cs, 0)
  {
  }

  /** The counter's instruction behind x, and the jump back it skips at the end. */
  lemma CounterJump(x: seq<Code>, d: Byte)
    requires Sound(x, false) && |x| < 0x7000
    ensures var c := Bytes([OP_DECFOR, d] + Word(3));
            Sound(x + c + Jump(OP_JMP, -(|x + c| + 3)), false)
  {
    hide Cut, InstrsOk, Bound, Lo, Hi;
    var c := Bytes([OP_DECFOR, d] + Word(3));
    var j := Jump(OP_JMP, -(|x + c| + 3));
    var w := x + c + j;
    JumpCut(OP_JMP, -(|x + c| + 3));
    CounterEnd(x, d, j);
    DecForOk(d, |x|, w);
    NoneSound(false);
    Within([], x, c + j, false);
    assert [] + x + (c + j) == w;
    StartIsBound(w);
    JumpOk(OP_JMP, -(|x + c| + 3), |x + c|, w, false);
    InstrsJoin(x, c, 0, w, false);
    InstrsJoin(x + c, j, 0, w, false);
  }

  lemma CounterEnd(x: seq<Code>, d: Byte, j: seq<Code>)
    requires Cut(x) && Cut(j)
    ensures var c := Bytes([OP_DECFOR, d] + Word(3));
            Cut(c) && Bound(x + c + j, |x| + |c| + |j|)
  {
    hide Bound, Cut, Word;
    var c := Bytes([OP_DECFOR, d] + Word(3));
    CounterCut(d);
    NoneSound(false);
    CutJoin(x, c);
    CutJoin(x + c, j);
    CutJoin(x + c + j, []);
  }

  lemma CounterCut(d: Byte)
    ensures Cut(Bytes([OP_DECFOR, d] + Word(3)))
  {
    hide Word;
    assert Bytes([OP_DECFOR, d] + Word(3))[4..] == [];
  }

  lemma DecForOk(d: Byte, at: int, whole: seq<Code>)
    requires Bound(whole, at + 7)
    ensures var c := Bytes([OP_DECFOR, d] + Word(3)); Cut(c) && InstrsOk(c, at, whole, false)
  {
    hide Bound;
    WordSigned(3);
    var c := Bytes([OP_DECFOR, d] + Word(3));
    assert c[4..] == [] && c[..4] == c;
  }

  /** The loop before LEAVE and ITERATE are filled in. */
  lemma LoopSound(k: DoKind, body: seq<Code>, t: Tabs, t': Tabs, d: nat)
    requires d < CTL_MAX && Sound(body, false) && |LoopCells(k, body, t, t', d)| <= MAX_CODE
    ensures Sound(LoopCells(k, body, t, t', d), false)
    ensures Bound(LoopCells(k, body, t, t', d), IteratePoint(k, |body|, t, d))
  {
    hide LoopCells, IteratePoint, Sound, Bound, TailCells, TestCells;
    if k.While? || k.To? {
      TestedSound(k, body, t, t', d);
    } else {
      var x, tail := [B(OP_NEWCLAUSE)] + body, TailCells(k, t', d);
      MarkSound();
      SoundJoin([B(OP_NEWCLAUSE)], body, false);
      UntestedParts(k, body, t, t', d);
      if k.Count? {
        CountedLoop(x, d);
        CounterTail(k, t', d);
      } else {
        TailSound(k, t', d);
        SoundJoin(x, tail, false);
        UntestedLoop(k, x, tail);
      }
      StartIsBound(LoopCells(k, body, t, t', d));
    }
  }

  lemma UntestedParts(k: DoKind, body: seq<Code>, t: Tabs, t': Tabs, d: nat)
    requires d < CTL_MAX && !k.While? && !k.To?
    ensures var x, tail := [B(OP_NEWCLAUSE)] + body, TailCells(k, t', d);
            LoopCells(k, body, t, t', d) == x + tail + (if k.Group? then [] else Jump(OP_JMP, -(|x + tail| + 3)))
            && IteratePoint(k, |body|, t, d) == if k.Forever? then 0 else |x|
  {
    hide TailCells, Word;
    assert [B(OP_NEWCLAUSE)] + [] + body == [B(OP_NEWCLAUSE)] + body;
  }

  lemma CountedLoop(x: seq<Code>, d: Byte)
    requires Sound(x, false) && |x| <= MAX_CODE
    ensures var c := Bytes([OP_DECFOR, d] + Word(3));
            var w := x + c + Jump(OP_JMP, -(|x + c| + 3));
            Sound(w, false) && Bound(w, |x|)
  {
    hide Cut, InstrsOk, Bound, Word;
    var c := Bytes([OP_DECFOR, d] + Word(3));
    var j := Jump(OP_JMP, -(|x + c| + 3));
    CounterJump(x, d);
    CutJoin(x, []) by { NoneSound(false); }
    BoundLeft(x, c + j, |x|);
    assert x + (c + j) == x + c + j;
  }

  lemma TestedSound(k: DoKind, body: seq<Code>, t: Tabs, t': Tabs, d: nat)
    requires d < CTL_MAX && Sound(body, false) && |LoopCells(k, body, t, t', d)| <= MAX_CODE && (k.While? || k.To?)
    ensures Sound(LoopCells(k, body, t, t', d), false)
    ensures Bound(LoopCells(k, body, t, t', d), IteratePoint(k, |body|, t, d))
  {
    hide Sound, Bound, LoopCells, IteratePoint, Front, Back, TailCells;
    var mark, x, f, tail := [B(OP_NEWCLAUSE)], Bytes(Front(k, t, d)), Back(k, t, d), TailCells(k, t', d);
    MarkSound();
    FrontSound(k, t, d);
    BackSound(k, t, d);
    TailSound(k, t', d);
    SoundJoin(mark, x, false);
    TestedParts(k, body, t, t', d);
    TestedLoop(mark + x, f, body, tail);
    StartIsBound(LoopCells(k, body, t, t', d));
  }

  lemma TestedParts(k: DoKind, body: seq<Code>, t: Tabs, t': Tabs, d: nat)
    requires d < CTL_MAX && (k.While? || k.To?)
    ensures var x, f, tail := [B(OP_NEWCLAUSE)] + Bytes(Front(k, t, d)), Back(k, t, d), TailCells(k, t', d);
            var front := x + Jump(OP_JF, |f| + |body| + |tail| + 3) + f + body + tail;
            LoopCells(k, body, t, t', d) == front + Jump(OP_JMP, -(|front| + 3))
            && IteratePoint(k, |body|, t, d) == if k.While? then 0 else |x| + 3 + |f| + |body|
  {
    hide CodeE, TabE, Word, TailCells, TestTabs, ToTest, ForTest, Jump;
    var f := Back(k, t, d);
    var rest := |body| + |TailCells(k, t', d)| + 3;
    SameTestLength(k, t, d, rest);
    var j := Jump(OP_JF, |f| + rest);
    var x := Bytes(Front(k, t, d));
    assert TestCells(k, t, d, rest) == x + j + f;
    assert [B(OP_NEWCLAUSE)] + (x + j + f) == [B(OP_NEWCLAUSE)] + x + j + f;
  }

  lemma CounterTail(k: DoKind, t: Tabs, d: nat)
    requires d < CTL_MAX && k.Count?
    ensures TailCells(k, t, d) == Bytes([OP_DECFOR, d] + Word(3)) && Cut(TailCells(k, t, d))
  {
    hide Word;
    assert TailCells(k, t, d)[4..] == [];
  }

  lemma FrontSound(k: DoKind, t: Tabs, d: nat)
    requires k.While? || k.To?
    ensures Sound(Bytes(Front(k, t, d)), false)
  {
    hide Sound, CodeE, ToTest, TestTabs;
    match k {
      case While(c) => ExprSound(c, t);
      case To(v, _, _, _, _, _) => ExprSound(ToTest(v, d), TestTabs(k, t, d));
    }
  }

  lemma SameTestLength(k: DoKind, t: Tabs, d: nat, rest: nat)
    requires k.While? || k.To?
    ensures |TestCells(k, t, d, 0)| == |TestCells(k, t, d, rest)| == |Front(k, t, d)| + 3 + |Back(k, t, d)|
  {
    hide CodeE, TabE, ToTest, ForTest, TestTabs;
  }

  /** A loop with a test: the test's jump goes behind the jump back. */
  lemma TestedLoop(x: seq<Code>, f: seq<Code>, body: seq<Code>, tail: seq<Code>)
    requires Sound(x, false) && Sound(f, false) && Sound(body, false) && Sound(tail, false)
    requires |x| + |f| + |body| + |tail| + 6 <= MAX_CODE
    ensures var front := x + Jump(OP_JF, |f| + |body| + |tail| + 3) + f + body + tail;
            var w := front + Jump(OP_JMP, -(|front| + 3));
            Sound(w, false) && Bound(w, |x| + 3 + |f| + |body|)
  {
    hide Cut, InstrsOk, Bound, Word;
    var v := |f| + |body| + |tail| + 3;
    var j := Jump(OP_JF, v);
    var y := f + body + tail;
    var front := x + j + f + body + tail;
    var k := Jump(OP_JMP, -(|front| + 3));
    var w := front + k;
    NoneSound(false);
    SoundJoin(f, body, false);
    SoundJoin(f + body, tail, false);
    JumpCut(OP_JF, v);
    JumpCut(OP_JMP, -(|front| + 3));
    CutJoin(x, j);
    CutJoin(x + j, f + body);
    CutJoin(x + j, y);
    assert x + j + y == front && x + j + (f + body) + (tail + k) == w;
    CutJoin(front, k);
    CutJoin(w, []);
    CutJoin(tail, k);
    CutJoin(x + j + (f + body), tail + k);
    BoundLeft(x + j + (f + body), tail + k, |x| + 3 + |f| + |body|);
    StartIsBound(w);
    Within([], x, j + y + k, false);
    assert [] + x + (j + y + k) == w;
    JumpOk(OP_JF, v, |x|, w, false);
    Within(x + j, y, k, false);
    assert x + j + y + k == w;
    JumpOk(OP_JMP, -(|front| + 3), |front|, w, false);
    InstrsJoin(x, j, 0, w, false);
    InstrsJoin(x + j, y, 0, w, false);
    InstrsJoin(front, k, 0, w, false);
  }

  lemma UntestedLoop(k: DoKind, x: seq<Code>, tail: seq<Code>)
    requires Sound(x, false) && Sound(x + tail, false) && Sound(tail, false) && |x| + |tail| <= MAX_CODE
    ensures var w := x + tail + if k.Group? then [] else Jump(OP_JMP, -(|x + tail| + 3));
            Sound(w, false) && Bound(w, |x|)
  {
    hide Cut, InstrsOk, Bound, Word;
    CutJoin(x, tail);
    if k.Group? {
      assert x + tail + [] == x + tail;
    } else {
      BackJump(x + tail);
      BoundLeft(x + tail, Jump(OP_JMP, -(|x + tail| + 3)), |x|);
    }
  }

  lemma DoSound(k: DoKind, body: seq<Code>, t: Tabs, t': Tabs, d: nat)
    requires d < CTL_MAX && Sound(body, false) && |DoCells(k, body, t, t', d)| <= MAX_CODE
    ensures Sound(DoCells(k, body, t, t', d), false)
  {
    hide Cut, InstrsOk, Bound, Word, LoopCells, HeadCode, IteratePoint, Fill;
    var loop, it := LoopCells(k, body, t, t', d), IteratePoint(k, |body|, t, d);
    LoopSound(k, body, t, t', d);
    NoneSound(false);
    CutJoin(loop, []);
    PointWithin(loop, it);
    var first := Fill(loop, LeaveHole, 0, |loop|);
    FillSound(loop, LeaveHole, |loop|, false);
    FillSound(first, IterateHole, it, false);
    HeadSound(k, t, d);
    var head := Bytes(HeadCode(k, t, d));
    if k.Count? {
      JumpOver(head, OP_JF, CloseLoop(loop, it), false);
    } else {
      SoundJoin(head, CloseLoop(loop, it), false);
      assert head + [] + CloseLoop(loop, it) == head + CloseLoop(loop, it);
    }
  }

  lemma {:induction false} PointWithin(cs: seq<Code>, p: int)
    requires Bound(cs, p)
    ensures 0 <= p <= |cs|
    decreases |cs|
  {
    hide OpSize;
    if p != 0 { PointWithin(cs[OpSize(cs[0].b)..], p - OpSize(cs[0].b)); }
  }

  // ---- Statements -----------------------------------------------------------------------------

  lemma {:induction false} StmtSound(s: Stmt, t: Tabs, d: nat)
    requires DepthOk(s, d) && !s.Label? && |CellsS(s, t, d)| <= MAX_CODE && Unlabelled(s)
    ensures Sound(CellsS(s, t, d), false)
    decreases s, 1
  {
    hide Sound, CodeE, TabE, SetCode, DoCells, Word, Fill, TabS, TabB, CellsB, CellsW, HeadTabs, Find;
    NoneSound(false);
    MarkSound();
    match s {
      case Null =>
      case Refused => PlainInstr([OP_RAISE, SYNTAX_CTL_STACK], false);
      case Assign(n, e) => SetSound(n, e, AddSym(t, n));
      case Say(e) => ExprSound(e, t); PlainInstr([OP_SAY], false); BytesSound(CodeE(e, t), [OP_SAY]);
      case Exit => PlainInstr([OP_EXIT], false);
      case ExitWith(e) => ExprSound(e, t); PlainInstr([OP_EXIT_RC], false); BytesSound(CodeE(e, t), [OP_EXIT_RC]);
      case CallTo(n, a) =>
        ArgsSound(a, AddSym(t, n));
        CallSound(OP_CALL, t, n, CountA(a));
        BytesSound(CodeA(a, AddSym(t, n)), CallCode(OP_CALL, t, n, CountA(a)));
      case Return => PlainInstr([OP_RETURN], false);
      case ReturnWith(e) => ExprSound(e, t); PlainInstr([OP_RETURNV], false); BytesSound(CodeE(e, t), [OP_RETURNV]);
      case If(_, _, _, _) => IfSound(s, t, d);
      case Select(ws) =>
        WhensSound(ws, t, d + 1);
        var cs := CellsW(ws, t, d + 1);
        EndIsBound(cs);
        FillSound(cs, SelectHole, |cs|, false);
      case Do(k, b) =>
        var t1 := HeadTabs(k, t, d);
        BodySmaller(k, CellsB(b, t1, d + 1), t, TabB(b, t1, d + 1), d);
        BlockSound(b, t1, d + 1);
        DoSound(k, CellsB(b, t1, d + 1), t, TabB(b, t1, d + 1), d);
      case Leave(toSelect) => OpenJump(OP_LEAVE, if toSelect then SelectHole else LeaveHole, false);
      case Iterate => OpenJump(OP_ITERATE, IterateHole, false);
      case Nop =>
    }
    if !s.Null? { SoundJoin([B(OP_NEWCLAUSE)], InnerS(s, t, d), false); }
  }

  lemma EndIsBound(cs: seq<Code>)
    requires Sound(cs, false)
    ensures Bound(cs, |cs|)
  {
    hide InstrsOk, Bound;
    CutJoin(cs, []);
  }

  lemma BodySmaller(k: DoKind, body: seq<Code>, t: Tabs, t': Tabs, d: nat)
    requires d < CTL_MAX
    ensures |body| <= |DoCells(k, body, t, t', d)|
  {
    hide HeadCode, TestCells, TailCells, IteratePoint;
  }

  /** Labels stand between statements only, where the parser reads them. */
  predicate Unlabelled(s: Stmt)
    decreases s
  {
    match s
    case Label(_) => false
    case If(_, a, _, b) => Unlabelled(a) && Unlabelled(b)
    case Select(ws) => UnlabelledW(ws)
    case Do(_, b) => UnlabelledB(b)
    case _ => true
  }

  predicate UnlabelledB(b: Block)
    decreases b
  {
    match b case Done => true case Step(s, r) => Unlabelled(s) && UnlabelledB(r)
  }

  predicate UnlabelledW(ws: Whens)
    decreases ws
  {
    match ws
    case When(_, s, r) => Unlabelled(s) && UnlabelledW(r)
    case Otherwise(b) => UnlabelledB(b)
    case NoOtherwise => true
  }

  lemma {:induction false} IfSound(s: Stmt, t: Tabs, d: nat)
    requires s.If? && DepthOk(s, d) && |InnerS(s, t, d)| <= MAX_CODE && Unlabelled(s)
    ensures Sound(InnerS(s, t, d), false)
    decreases s, 0
  {
    hide Sound, CodeE, TabE, Word, TabS, CellsS;
    var t1 := TabE(s.c, t);
    var x, a := Bytes(CodeE(s.c, t)), CellsS(s.t, t1, d);
    ExprSound(s.c, t);
    StmtSound(s.t, t1, d);
    if s.hasElse {
      var b := CellsS(s.f, TabS(s.t, t1, d), d);
      StmtSound(s.f, TabS(s.t, t1, d), d);
      TwoBranches(x, a, b);
    } else {
      JumpOver(x, OP_JF, a, false);
    }
  }

  lemma TwoBranches(x: seq<Code>, a: seq<Code>, b: seq<Code>)
    requires Sound(x, false) && Sound(a, false) && Sound(b, false) && |a| + |b| + 6 < 0x8000
    ensures Sound(x + Jump(OP_JF, |a| + 3) + a + Jump(OP_JMP, |b|) + b, false)
  {
    hide Cut, Bound, InstrsOk, Word;
    var j, k := Jump(OP_JF, |a| + 3), Jump(OP_JMP, |b|);
    var w := x + j + a + k + b;
    NoneSound(false);
    JumpCut(OP_JF, |a| + 3);
    JumpCut(OP_JMP, |b|);
    CutJoin(x, j);
    CutJoin(x + j, a);
    CutJoin(x + j + a, k);
    CutJoin(x + j + a + k, b);
    CutJoin(w, []);
    Within([], x, j + a + k + b, false);
    assert [] + x + (j + a + k + b) == w;
    JumpOk(OP_JF, |a| + 3, |x|, w, false);
    Within(x + j, a, k + b, false);
    assert x + j + a + (k + b) == w;
    JumpOk(OP_JMP, |b|, |x + j + a|, w, false);
    Within(x + j + a + k, b, [], false);
    assert x + j + a + k + b + [] == w;
    InstrsJoin(x, j, 0, w, false);
    InstrsJoin(x + j, a, 0, w, false);
    InstrsJoin(x + j + a, k, 0, w, false);
    InstrsJoin(x + j + a + k, b, 0, w, false);
  }

  lemma {:induction false} BlockSound(b: Block, t: Tabs, d: nat)
    requires DepthOkB(b, d) && |CellsB(b, t, d)| <= MAX_CODE && UnlabelledB(b)
    ensures Sound(CellsB(b, t, d), false)
    decreases b, 1
  {
    hide Sound, CellsS, TabS;
    NoneSound(false);
    if b.Step? {
      StmtSound(b.s, t, d);
      BlockSound(b.rest, TabS(b.s, t, d), d);
      SoundJoin(CellsS(b.s, t, d), CellsB(b.rest, TabS(b.s, t, d), d), false);
    }
  }

  lemma {:induction false} WhensSound(ws: Whens, t: Tabs, d: nat)
    requires DepthOkW(ws, d) && |CellsW(ws, t, d)| <= MAX_CODE && UnlabelledW(ws)
    ensures Sound(CellsW(ws, t, d), false)
    decreases ws, 1
  {
    hide Sound, CodeE, TabE, TabS, CellsS, CellsB, Word;
    NoneSound(false);
    match ws {
      case When(c, s, r) =>
        var t1 := TabE(c, t);
        var x, a, h := Bytes(CodeE(c, t)), CellsS(s, t1, d), HoleJump(OP_JMP, SelectHole);
        ExprSound(c, t);
        StmtSound(s, t1, d);
        WhensSound(r, TabS(s, t1, d), d);
        OpenJump(OP_JMP, SelectHole, false);
        SoundJoin(a, h, false);
        JumpOver(x, OP_JF, a + h, false);
        assert x + Jump(OP_JF, |a| + 3) + a + h == x + Jump(OP_JF, |a + h|) + (a + h);
        SoundJoin(x + Jump(OP_JF, |a| + 3) + a + h, CellsW(r, TabS(s, t1, d), d), false);
      case Otherwise(b) => BlockSound(b, t, d);
      case NoOtherwise =>
    }
  }

  // ---- Programs ---------------------------------------------------------------------------------

  lemma {:induction false} ParsedUnlabelled(ts: Source, i: nat, x: Ctl)
    requires i < |ts| && ParseStmt(ts, i, x).Got?
    ensures Unlabelled(ParseStmt(ts, i, x).v)
    decreases |ts| - i, 1
  {
    hide FullExpr, EndsClause, Unmodelled, Named, IsAssign, SkipToEnd, SkipEoc, ConsumeEnd, Full, ParseIf, ParseDo, ParseSelect;
    if EndsClause(ts, i) {
    } else if IsKeyword(ts, i, "IF") && !Full(x) {
      IfUnlabelled(ts, i + 1, x.(ifs := x.ifs + 1));
    } else if IsKeyword(ts, i, "SELECT") && !Full(x) {
      SelectUnlabelled(ts, i + 1, x);
    } else if IsKeyword(ts, i, "DO") && !Full(x) {
      DoUnlabelled(ts, i + 1, x);
    } else {
      hide IsKeyword;
    }
  }

  lemma {:induction false} IfUnlabelled(ts: Source, i: nat, x: Ctl)
    requires i < |ts| && ParseIf(ts, i, x).Got?
    ensures Unlabelled(ParseIf(ts, i, x).v)
    decreases |ts| - i, 2
  {
    hide FullExpr, ParseStmt;
    var (c, j) := FullExpr(ts, i).Extract();
    var a := ConsumeNewline(ts, j + 1);
    var (t, k) := ParseStmt(ts, a, x).Extract();
    ParsedUnlabelled(ts, a, x);
    var m := ConsumeEoc(ts, k);
    if IsKeyword(ts, m, "ELSE") { ParsedUnlabelled(ts, ConsumeNewline(ts, m + 1), x); }
  }

  lemma {:induction false} SelectUnlabelled(ts: Source, i: nat, x: Ctl)
    requires i < |ts| && ParseSelect(ts, i, x).Got?
    ensures Unlabelled(ParseSelect(ts, i, x).v)
    decreases |ts| - i, 5
  {
    hide ParseWhens;
    WhensUnlabelled(ts, SkipEoc(ts, i), x.(loops := x.loops + 1, inSelect := true));
  }

  lemma {:induction false} WhensUnlabelled(ts: Source, i0: nat, x: Ctl)
    requires i0 < |ts| && ParseWhens(ts, i0, x).Got?
    ensures UnlabelledW(ParseWhens(ts, i0, x).v)
    decreases |ts| - i0, 4
  {
    hide FullExpr, ParseStmt, ParseBlock;
    var i := SkipEoc(ts, i0);
    if IsKeyword(ts, i, "WHEN") {
      var (c, j) := FullExpr(ts, i + 1).Extract();
      var a := ConsumeNewline(ts, j + 1);
      var (s, k) := ParseStmt(ts, a, x).Extract();
      ParsedUnlabelled(ts, a, x);
      WhensUnlabelled(ts, ConsumeEoc(ts, k), x);
    } else if IsKeyword(ts, i, "OTHERWISE") {
      BlockUnlabelled(ts, ConsumeEoc(ts, i + 1), x);
    }
  }

  lemma {:induction false} BlockUnlabelled(ts: Source, i0: nat, x: Ctl)
    requires i0 < |ts| && ParseBlock(ts, i0, x).Got?
    ensures UnlabelledB(ParseBlock(ts, i0, x).v)
    decreases |ts| - i0, 4
  {
    hide ParseStmt;
    var i := SkipEoc(ts, i0);
    if ts[i].kind != Eof && !IsKeyword(ts, i, "END") {
      var (s, j) := ParseStmt(ts, i, x).Extract();
      ParsedUnlabelled(ts, i, x);
      BlockUnlabelled(ts, ConsumeEoc(ts, j), x);
    }
  }

  lemma {:induction false} DoUnlabelled(ts: Source, i: nat, x: Ctl)
    requires i < |ts| && ParseDo(ts, i, x).Got?
    ensures Unlabelled(ParseDo(ts, i, x).v)
    decreases |ts| - i, 5
  {
    hide ParseHeader, ParseBlock, Level0;
    var (kind, j) := ParseHeader(ts, i).Extract();
    BlockUnlabelled(ts, j, x.(loops := x.loops + 1, inLoop := true));
  }

  /** Labels at the top level, none inside statements. */
  predicate TopLabels(b: Block)
    decreases b
  {
    match b case Done => true case Step(s, r) => (s.Label? || Unlabelled(s)) && TopLabels(r)
  }

  lemma {:induction false} ProgramLabels(ts: Source, i: nat)
    requires i < |ts| && ParseProgram(ts, i).Got?
    ensures TopLabels(ParseProgram(ts, i).v)
    decreases |ts| - i
  {
    hide ParseStmt, IsLabel, IsSemi, Unlabelled;
    Programs.IsLabelBound(ts, i);
    if ts[i].kind == Eof {
    } else if IsEoc(ts, i) {
      ProgramLabels(ts, i + 1);
    } else if IsLabel(ts, i) {
      ProgramLabels(ts, i + 2);
    } else {
      ParsedUnlabelled(ts, i, TOP);
      ProgramLabels(ts, ConsumeEoc(ts, ParseStmt(ts, i, TOP).next));
    }
  }

  lemma {:induction false} TopSound(b: Block, t: Tabs)
    requires DepthOkB(b, 0) && |CellsB(b, t, 0)| <= MAX_CODE && TopLabels(b)
    ensures Sound(CellsB(b, t, 0), true)
    decreases b
  {
    hide Sound, CellsS, TabS, Unlabelled;
    NoneSound(true);
    if b.Step? {
      if b.s.Label? {
        LabelSound(b.s.name, t);
      } else {
        StmtSound(b.s, t, 0);
        SoundAnyway(CellsS(b.s, t, 0));
      }
      TopSound(b.rest, TabS(b.s, t, 0));
      SoundJoin(CellsS(b.s, t, 0), CellsB(b.rest, TabS(b.s, t, 0), 0), true);
    }
  }

  lemma SoundAnyway(cs: seq<Code>)
    requires Sound(cs, false)
    ensures Sound(cs, true)
  {
    LabelsAllowed(cs, 0, cs);
  }

  lemma LabelSound(name: string, t: Tabs)
    ensures Sound(CellsS(Label(name), t, 0), true)
  {
    hide Bound, Word;
    OneInstr(CellsS(Label(name), t, 0), true);
  }

  // ---- Bytes ------------------------------------------------------------------------------------

  /** An instruction of the code, or its end, is at p: OP_SIZE steps from 0 lead there. */
  ghost predicate Boundary(code: seq<Byte>, p: int) { Bound(Bytes(code), p) }

  /** Where the jump at p leads, None if the instruction there does not jump. */
  function TargetAt(code: seq<Byte>, p: int): Option<int>
  {
    if IsJump(At(code, p)) then Some(p + 3 + ReadI16(code, p + 1))
    else if At(code, p) == OP_DECFOR then Some(p + 4 + ReadI16(code, p + 2))
    else None
  }

  lemma {:induction false} JumpsLand(cs: seq<Code>, at: nat, whole: seq<Code>, code: seq<Byte>, p: int)
    requires Cut(cs) && InstrsOk(cs, at, whole, true) && at + |cs| <= |code| && cs == Bytes(code[at..at + |cs|])
    requires Bound(cs, p) && p < |cs| && TargetAt(code, at + p).Some?
    ensures Bound(whole, TargetAt(code, at + p).value)
    decreases |cs|
  {
    hide OpSize, Bound, InstrOk, TargetAt;
    PointWithin(cs, p);
    var n := OpSize(cs[0].b);
    if p == 0 {
      assert cs[..n] == Bytes(code[at..at + n]);
      FirstLands(cs[..n], at, whole, code);
    } else {
      NextBound(cs, p);
      assert cs[n..] == Bytes(code[at + n..at + |cs|]);
      JumpsLand(cs[n..], at + n, whole, code, p - n);
    }
  }

  lemma NextBound(cs: seq<Code>, p: int)
    requires Cut(cs) && Bound(cs, p) && 0 != p
    ensures cs != [] && p > 0 && Bound(cs[OpSize(cs[0].b)..], p - OpSize(cs[0].b)) && p >= OpSize(cs[0].b)
  {
    hide OpSize;
    PointWithin(cs[OpSize(cs[0].b)..], p - OpSize(cs[0].b));
  }

  lemma FirstLands(c: seq<Code>, at: nat, whole: seq<Code>, code: seq<Byte>)
    requires c != [] && c[0].B? && |c| == OpSize(c[0].b) && InstrOk(c, at, whole, true)
    requires at + |c| <= |code| && c == Bytes(code[at..at + |c|]) && TargetAt(code, at).Some?
    ensures Bound(whole, TargetAt(code, at).value)
  {
    hide OpSize, Bound, IsJump;
    forall i | 0 <= i < |c| ensures c[i] == B(code[at + i]) {
      assert code[at..at + |c|][i] == code[at + i];
    }
  }

  lemma {:induction false} BoundSplit(a: seq<Code>, b: seq<Code>, p: int)
    requires Cut(a) && Bound(a + b, p) && p <= |a|
    ensures Bound(a, p)
    decreases |a|
  {
    if p != 0 {
      PointWithin(a + b, p);
      var n := OpSize(a[0].b);
      assert (a + b)[n..] == a[n..] + b;
      BoundSplit(a[n..], b, p - n);
    }
  }

  /** Every image the compiler makes: OP_SIZE cuts its code into whole instructions, no jump is left open, and every
  jump and counter leads to the start of an instruction inside the code. */
  lemma CodeIsSound(b: Block)
    requires DepthOkB(b, 0) && TopLabels(b) && Programs.ClosedB(b, false, false) && ImageOk(Programs.ImageOf(b))
    ensures var code := Programs.ImageOf(b).code;
            Boundary(code, |code|)
            && forall p :: 0 <= p < |code| && Boundary(code, p) && TargetAt(code, p).Some? ==>
                 0 <= TargetAt(code, p).value < |code| && Boundary(code, TargetAt(code, p).value)
  {
    hide Bound, Cut, InstrsOk, CellsB, TabB, TargetAt, DepthOkB, TopLabels, Programs.ClosedB, Programs.Written, Bytes;
    var cs := CellsB(b, Programs.NO_TABS, 0);
    Programs.BlockOnly(b, Programs.NO_TABS, 0, false, false);
    TopSound(b, Programs.NO_TABS);
    ImageBytes(cs);
    ExitEnds(cs);
    forall p | 0 <= p < |cs| + 1 && Bound(cs + Bytes([OP_EXIT]), p) && TargetAt(Programs.ImageOf(b).code, p).Some?
      ensures 0 <= TargetAt(Programs.ImageOf(b).code, p).value < |cs| + 1
              && Bound(cs + Bytes([OP_EXIT]), TargetAt(Programs.ImageOf(b).code, p).value)
    {
      TargetLands(cs, Programs.ImageOf(b).code, p);
    }
  }

  lemma ExitEnds(cs: seq<Code>)
    requires Cut(cs)
    ensures Bound(cs + Bytes([OP_EXIT]), |cs| + 1)
  {
    hide Bound, Cut, InstrsOk;
    PlainInstr([OP_EXIT], true);
    var exit := Bytes([OP_EXIT]);
    CutJoin(cs, exit);
    CutJoin(cs + exit, []) by { NoneSound(true); }
    assert cs + exit + [] == cs + exit;
  }

  /** The target of one jump of sound cells that an EXIT closes. */
  lemma TargetLands(cs: seq<Code>, code: seq<Byte>, p: int)
    requires Cut(cs) && InstrsOk(cs, 0, cs, true)
    requires |code| == |cs| + 1 && code[|cs|] == OP_EXIT && Bytes(code[0..|cs|]) == cs
    requires 0 <= p <= |cs| && Bound(cs + Bytes([OP_EXIT]), p) && TargetAt(code, p).Some?
    ensures var to := TargetAt(code, p).value;
            0 <= to <= |cs| && Bound(cs + Bytes([OP_EXIT]), to)
  {
    hide Bound, Cut, InstrsOk, TargetAt, Bytes;
    ExitStays(code);
    BoundSplit(cs, Bytes([OP_EXIT]), p);
    JumpsLand(cs, 0, cs, code, p);
    PointWithin(cs, TargetAt(code, p).value);
    BoundLeft(cs, Bytes([OP_EXIT]), TargetAt(code, p).value);
  }

  lemma ImageBytes(cs: seq<Code>)
    requires forall i :: 0 <= i < |cs| ==> cs[i].B?
    ensures var code := Programs.Written(cs) + [OP_EXIT];
            |code| == |cs| + 1 && code[|cs|] == OP_EXIT && Bytes(code) == cs + Bytes([OP_EXIT]) && Bytes(code[0..|cs|]) == cs
  {
  }

  lemma ExitStays(code: seq<Byte>)
    requires code != [] && code[|code| - 1] == OP_EXIT
    ensures TargetAt(code, |code| - 1).None?
  {
  }
}
