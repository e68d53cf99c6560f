/** What the statement methods of the compiler promise, and how the pieces of a statement add up. */
module StmtEmit {
  import opened Options
  import opened NumberText
  import opened Bytecode
  import opened Tokens
  import opened ExprSyntax
  import opened ExprCode
  import opened ExprEmit
  import opened StmtSyntax
  import opened StmtCode
  import opened LoopParts
  import Simulation
  import opened Patching
  import opened CompilerState

  /** A trace map entry: from pc on, the clause at this line, inside this many DO and SELECT blocks. */
  datatype Mark = Mark(pc: nat, line: nat, depth: nat)

  /** Entries in strictly ascending order, none behind the code. */
  predicate MarksOk(marks: seq<Mark>, n: nat)
  {
    (forall i :: 0 <= i < |marks| ==> marks[i].pc <= n)
    && forall i, j :: 0 <= i < j < |marks| ==> marks[i].pc < marks[j].pc
  }

  function CtlOf(fs: seq<Frame>, ifs: nat): Ctl
  {
    Ctl(|fs|, ifs, InnerLoop(fs) >= 0, InnerSelect(fs) >= 0)
  }

  /** The end of compiling a statement without its clause mark. */
  predicate InnerDone(rc: Rc, r: Got<Stmt>, d: nat, st: State, pos: nat, cur: State)
  {
    if r.Got? then
      DepthOk(r.v, d)
      && Compiled(rc, true, false, r.next, InnerS(r.v, st.t, d), TabS(r.v, st.t, d), JumpsS(r.v), st, pos, cur)
    else Compiled(rc, false, r.beyond, 0, [], st.t, 0, st, pos, cur)
  }

  predicate StmtDone(rc: Rc, r: Got<Stmt>, d: nat, st: State, pos: nat, cur: State)
  {
    if r.Got? then
      DepthOk(r.v, d)
      && Compiled(rc, true, false, r.next, CellsS(r.v, st.t, d), TabS(r.v, st.t, d), JumpsS(r.v), st, pos, cur)
    else Compiled(rc, false, r.beyond, 0, [], st.t, 0, st, pos, cur)
  }

  predicate BlockDone(rc: Rc, r: Got<Block>, d: nat, st: State, pos: nat, cur: State)
  {
    if r.Got? then
      DepthOkB(r.v, d)
      && Compiled(rc, true, false, r.next, CellsB(r.v, st.t, d), TabB(r.v, st.t, d), JumpsB(r.v), st, pos, cur)
    else Compiled(rc, false, r.beyond, 0, [], st.t, 0, st, pos, cur)
  }

  predicate WhensDone(rc: Rc, r: Got<Whens>, d: nat, st: State, pos: nat, cur: State)
  {
    if r.Got? then
      DepthOkW(r.v, d)
      && Compiled(rc, true, false, r.next, CellsW(r.v, st.t, d), TabW(r.v, st.t, d), JumpsW(r.v), st, pos, cur)
    else Compiled(rc, false, r.beyond, 0, [], st.t, 0, st, pos, cur)
  }

  /** An expression as a piece of the state. */
  predicate PieceDone(rc: Rc, g: Got<Expr>, st: State, pos: nat, cur: State)
  {
    if g.Got? then Compiled(rc, true, false, g.next, Bytes(CodeE(g.v, st.t)), TabE(g.v, st.t), 0, st, pos, cur)
    else Compiled(rc, false, g.beyond, 0, [], st.t, 0, st, pos, cur)
  }

  lemma PieceFromExpr(rc: Rc, p: Parsed, st: State, pos: nat, code: seq<Byte>, t: Tabs)
    requires ExprDone(rc, p, st.code, st.t, pos, code, t)
    ensures PieceDone(rc, FromExpr(p), st, pos, State(code, t, st.fs)) && rc != PATCH
  {
    hide After, CodeE, TabE, Compiled;
    ExprState(rc, p, st, pos, code, t);
    PieceCases(rc, p, st, pos, State(code, t, st.fs));
  }

  lemma PieceCases(rc: Rc, p: Parsed, st: State, pos: nat, cur: State)
    requires Compiled(rc, p.Tree?, p.Beyond?, if p.Tree? then p.next else 0, if p.Tree? then Bytes(CodeE(p.e, st.t)) else [],
                      if p.Tree? then TabE(p.e, st.t) else st.t, 0, st, pos, cur)
    ensures PieceDone(rc, FromExpr(p), st, pos, cur)
  {
    hide After, CodeE, TabE, TabsFit;
  }

  /** What a successful piece leaves as it was. */
  lemma Settled(st: State, cs: seq<Code>, t: Tabs, cur: State)
    requires cur == After(st, cs, t)
    ensures |cur.code| == |st.code| + |cs| && |cur.fs| == |st.fs| && cur.t == t
    ensures forall ifs :: CtlOf(cur.fs, ifs) == CtlOf(st.fs, ifs)
    ensures KnownOf(cur.fs) == KnownOf(st.fs)
    ensures InnerLoop(cur.fs) == InnerLoop(st.fs) && InnerSelect(cur.fs) == InnerSelect(st.fs)
  {
    hide InnerLoop, InnerSelect, Positions, Emitted;
    HolesKeepKinds(st.fs, cs, |st.code|);
  }

  /** A piece that failed, behind cells a that succeeded: the whole failed. */
  lemma FailedBehind(rc: Rc, a: seq<Code>, ta: Tabs, ja: nat, b: seq<Code>, tb: Tabs, jb: nat,
                     got: bool, beyond: bool, next: nat, w: seq<Code>, t: Tabs, jumps: nat, st: State, pos: nat, cur: State)
    requires rc == CAPACITY || rc == STRTOOLONG || rc == PATCH
    requires Paired(a) && Few(a, ja) && Compiled(rc, true, false, 0, b, tb, jb, After(st, a, ta), pos, cur)
    requires got ==> |a| + |b| <= |w| && Extends(tb, t) && ja + jb <= jumps
    ensures Compiled(rc, got, beyond, next, w, t, jumps, st, pos, cur)
  {
    hide After, Paired, Few, TabsFit, MostJumps;
    HolesAdd(st.fs, a, |st.code|, ja);
    Chain(rc, true, false, 0, a, ta, ja, b, tb, jb, st, pos, cur);
    Early(rc, a + b, tb, ja + jb, got, beyond, next, w, t, jumps, st, pos, cur);
  }

  /** An expression piece, as bytes. */
  lemma PieceBytes(rc: Rc, g: Got<Expr>, st: State, pos: nat, cur: State)
    requires PieceDone(rc, g, st, pos, cur)
    ensures rc == OK ==> g.Got? && pos == g.next && cur == State(st.code + CodeE(g.v, st.t), TabE(g.v, st.t), st.fs)
    ensures rc == UNSUP ==> g == Failed(false)
    ensures rc == BEYOND ==> g == Failed(true)
    ensures (rc == CAPACITY || rc == STRTOOLONG) && g.Got? ==>
      |st.code| + |CodeE(g.v, st.t)| > MAX_CODE || !TabsFit(TabE(g.v, st.t))
  {
    hide After, CodeE, TabE, TabsFit;
    if g.Got? { AfterBytes(st, CodeE(g.v, st.t), TabE(g.v, st.t)); }
  }

  /** Straight code x, then y: a whole statement. */
  lemma BytesDone(rc: Rc, s: Stmt, x: seq<Byte>, y: seq<Byte>, next: nat, st: State, pos: nat, cur: State)
    requires !s.Null? && !s.Label? && DepthOk(s, |st.fs|) && InnerS(s, st.t, |st.fs|) == Bytes(x + y)
    requires rc == OK ==> pos == next && cur == State(st.code + x + y, TabS(s, st.t, |st.fs|), st.fs)
    requires rc == OK || rc == CAPACITY || rc == STRTOOLONG
    requires rc != OK ==> |st.code| + |x| + |y| > MAX_CODE || !TabsFit(TabS(s, st.t, |st.fs|))
    ensures InnerDone(rc, Got(s, next), |st.fs|, st, pos, cur)
  {
    hide TabsFit, InnerS, TabS;
    AfterBytes(st, x + y, TabS(s, st.t, |st.fs|));
    assert st.code + x + y == st.code + (x + y);
  }

  // ---- IF ------------------------------------------------------------------------------

  /** The cells of an IF up to and including its jump, and with its first branch. */
  function IfFront(c: Expr, t: Tabs, skip: int): seq<Code> { Bytes(CodeE(c, t)) + Jump(OP_JF, skip) }

  lemma FrontIsGood(c: Expr, t: Tabs, skip: int)
    ensures Paired(IfFront(c, t, skip)) && Few(IfFront(c, t, skip), 0) && |IfFront(c, t, skip)| == |CodeE(c, t)| + 3
  {
    hide Paired, Few, CodeE, Word;
    BytesArePaired(CodeE(c, t));
    BytesArePaired([OP_JF] + Word(skip));
    PairedJoin(Bytes(CodeE(c, t)), Jump(OP_JF, skip));
    FewBytes(CodeE(c, t));
    FewBytes([OP_JF] + Word(skip));
    FewJoin(Bytes(CodeE(c, t)), 0, Jump(OP_JF, skip), 0);
  }

  /** What an IF is made of. */
  lemma IfShape(s: Stmt, t: Tabs, d: nat)
    requires s.If? && DepthOk(s, d)
    ensures var t1 := TabE(s.c, t);
            var t2 := TabS(s.t, t1, d);
            var a := CellsS(s.t, t1, d);
            var b := if s.hasElse then CellsS(s.f, t2, d) else [];
            Extends(t1, t2) && Extends(t2, TabS(s, t, d)) && Extends(t1, TabS(s, t, d))
            && TabS(s, t, d) == (if s.hasElse then TabS(s.f, t2, d) else t2)
            && InnerS(s, t, d) == (if s.hasElse then IfFront(s.c, t, |a| + 3) + a + Jump(OP_JMP, |b|) + b
                                   else IfFront(s.c, t, |a|) + a)
            && |InnerS(s, t, d)| == |CodeE(s.c, t)| + 3 + |a| + (if s.hasElse then 3 + |b| else 0)
            && Paired(a) && Few(a, JumpsS(s.t)) && JumpsS(s) == JumpsS(s.t) + JumpsS(s.f)
  {
    hide CellsS, TabE, TabS, CodeE, Word, Paired, Few, JumpsS, Extends;
    var t1 := TabE(s.c, t);
    var t2 := TabS(s.t, t1, d);
    Simulation.TabSGrows(s.t, t1, d);
    if s.hasElse { Simulation.TabSGrows(s.f, t2, d); }
    IfUnfolds(s, t, d);
    Same(t2);
    Through(t1, t2, TabS(s, t, d));
    CellsPaired(s.t, t1, d);
    FewS(s.t, t1, d);
  }

  lemma IfUnfolds(s: Stmt, t: Tabs, d: nat)
    requires s.If? && DepthOk(s, d)
    ensures var t2 := TabS(s.t, TabE(s.c, t), d);
            TabS(s, t, d) == (if s.hasElse then TabS(s.f, t2, d) else t2)
    ensures JumpsS(s) == JumpsS(s.t) + JumpsS(s.f)
  {
  }

  /** An IF that stopped in its condition, or found no room for its jump. */
  lemma IfStopped(rc: Rc, r: Got<Stmt>, g: Got<Expr>, d: nat, st: State, pos: nat, cur: State)
    requires r.Got? ==> r.v.If? && DepthOk(r.v, d) && g.Got? && g.v == r.v.c
    requires rc == CAPACITY || rc == STRTOOLONG
    requires g.Got? ==> |st.code| + |CodeE(g.v, st.t)| + 3 > MAX_CODE || !TabsFit(TabE(g.v, st.t))
    ensures InnerDone(rc, r, d, st, pos, cur)
  {
    hide CodeE, TabE, TabS, InnerS, TabsFit;
    if r.Got? {
      IfShape(r.v, st.t, d);
      if TabsFit(TabS(r.v, st.t, d)) { FitsSmaller([], TabE(g.v, st.t), [], TabS(r.v, st.t, d)); }
    }
  }

  /** An IF that stopped in its first branch. */
  lemma ThenStopped(rc: Rc, r: Got<Stmt>, c: Expr, s: Got<Stmt>, d: nat, st: State, pos: nat, cur: State)
    requires r.Got? ==> r.v.If? && DepthOk(r.v, d) && r.v.c == c && s.Got? && s.v == r.v.t
    requires !s.Got? ==> r == Failed(s.beyond)
    requires rc != OK && StmtDone(rc, s, d, After(st, IfFront(c, st.t, 0), TabE(c, st.t)), pos, cur)
    ensures InnerDone(rc, r, d, st, pos, cur)
  {
    hide CodeE, TabE, TabS, InnerS, CellsS, JumpsS, TabsFit, After, MostJumps, IfFront;
    if r.Got? {
      IfShape(r.v, st.t, d);
      FrontIsGood(c, st.t, 0);
      var t1 := TabE(c, st.t);
      assert After(st, IfFront(c, st.t, 0), t1).t == t1 by { TabsOfAfter(st, IfFront(c, st.t, 0), t1); }
      FailedBehind(rc, IfFront(c, st.t, 0), t1, 0, CellsS(s.v, t1, d), TabS(s.v, t1, d), JumpsS(s.v),
                   true, false, r.next, InnerS(r.v, st.t, d), TabS(r.v, st.t, d), JumpsS(r.v), st, pos, cur);
    }
  }

  lemma TabsOfAfter(st: State, cs: seq<Code>, t: Tabs)
    ensures After(st, cs, t).t == t
  {
  }

  /** The condition's jump is patched once y stands behind it. */
  lemma GuardPatched(st: State, c: Expr, y: seq<Code>, t: Tabs, was: State, cur: State)
    requires was == After(st, IfFront(c, st.t, 0) + y, t)
    requires cur == was.(code := PatchAt(was.code, |st.code| + |CodeE(c, st.t)|, |was.code|))
    ensures cur == After(st, IfFront(c, st.t, |y|) + y, t)
  {
    hide After, PatchAt, CodeE, Word;
    var x := Bytes(CodeE(c, st.t));
    var p := |st.code| + |x|;
    AfterLength(st, x + Jump(OP_JF, 0) + y, t);
    assert |was.code| == p + 3 + |y|;
    PatchedJump(st, x, OP_JF, y, t, |was.code|);
    assert |was.code| - (p + 3) == |y|;
    TabsOfAfter(st, x + Jump(OP_JF, |y|) + y, t);
    TabsOfAfter(st, x + Jump(OP_JF, 0) + y, t);
  }

  lemma AfterLength(st: State, cs: seq<Code>, t: Tabs)
    ensures |After(st, cs, t).code| == |st.code| + |cs|
  {
  }

  /** The jump over the second branch b is patched once b stands behind it. */
  lemma OverPatched(st: State, x: seq<Code>, b: seq<Code>, t: Tabs, was: State, cur: State)
    requires was == After(st, x + Jump(OP_JMP, 0) + b, t)
    requires cur == was.(code := PatchAt(was.code, |st.code| + |x|, |was.code|))
    ensures cur == After(st, x + Jump(OP_JMP, |b|) + b, t)
  {
    hide After, PatchAt, Word;
    var p := |st.code| + |x|;
    AfterLength(st, x + Jump(OP_JMP, 0) + b, t);
    PatchedJump(st, x, OP_JMP, b, t, |was.code|);
    assert |was.code| - (p + 3) == |b|;
    TabsOfAfter(st, x + Jump(OP_JMP, |b|) + b, t);
    TabsOfAfter(st, x + Jump(OP_JMP, 0) + b, t);
  }

  lemma ElseFrontIsGood(c: Expr, a: seq<Code>, j: nat, t: Tabs)
    requires Paired(a) && Few(a, j)
    ensures var x := IfFront(c, t, |a| + 3) + a + Jump(OP_JMP, 0);
            Paired(x) && Few(x, j) && |x| == |CodeE(c, t)| + 6 + |a|
  {
    hide Paired, Few, CodeE, Word, IfFront;
    FrontIsGood(c, t, |a| + 3);
    BytesArePaired([OP_JMP] + Word(0));
    FewBytes([OP_JMP] + Word(0));
    PairedJoin(IfFront(c, t, |a| + 3), a);
    FewJoin(IfFront(c, t, |a| + 3), 0, a, j);
    PairedJoin(IfFront(c, t, |a| + 3) + a, Jump(OP_JMP, 0));
    FewJoin(IfFront(c, t, |a| + 3) + a, j, Jump(OP_JMP, 0), 0);
  }

  /** An IF that found no room for the jump behind its first branch. */
  lemma OverStopped(r: Got<Stmt>, c: Expr, a: seq<Code>, t2: Tabs, d: nat, st: State, pos: nat, cur: State)
    requires r.Got? ==> r.v.If? && r.v.hasElse && DepthOk(r.v, d) && r.v.c == c && a == CellsS(r.v.t, TabE(c, st.t), d)
    requires |st.code| + |CodeE(c, st.t)| + 3 + |a| + 3 > MAX_CODE
    ensures InnerDone(CAPACITY, r, d, st, pos, cur)
  {
    hide CodeE, TabE, TabS, InnerS, CellsS, TabsFit, After, MostJumps;
    if r.Got? { IfShape(r.v, st.t, d); }
  }

  /** An IF that stopped in its second branch. */
  lemma ElseStopped(rc: Rc, r: Got<Stmt>, c: Expr, t: Stmt, s: Got<Stmt>, d: nat, st: State, pos: nat, cur: State)
    requires DepthOk(t, d)
    requires r.Got? ==> r.v.If? && r.v.hasElse && DepthOk(r.v, d) && r.v.c == c && r.v.t == t && s.Got? && s.v == r.v.f
    requires !s.Got? ==> r == Failed(s.beyond)
    requires var a := CellsS(t, TabE(c, st.t), d);
             var t2 := TabS(t, TabE(c, st.t), d);
             rc != OK && StmtDone(rc, s, d, After(st, IfFront(c, st.t, |a| + 3) + a + Jump(OP_JMP, 0), t2), pos, cur)
    ensures InnerDone(rc, r, d, st, pos, cur)
  {
    hide CodeE, TabE, TabS, InnerS, CellsS, JumpsS, TabsFit, After, MostJumps, IfFront, Word;
    if r.Got? {
      var t1 := TabE(c, st.t);
      var a, t2 := CellsS(t, t1, d), TabS(t, t1, d);
      IfShape(r.v, st.t, d);
      ElseFrontIsGood(c, a, JumpsS(t), st.t);
      var x := IfFront(c, st.t, |a| + 3) + a + Jump(OP_JMP, 0);
      TabsOfAfter(st, x, t2);
      Same(TabS(s.v, t2, d));
      FailedBehind(rc, x, t2, JumpsS(t), CellsS(s.v, t2, d), TabS(s.v, t2, d), JumpsS(s.v),
                   true, false, r.next, InnerS(r.v, st.t, d), TabS(r.v, st.t, d), JumpsS(r.v), st, pos, cur);
    }
  }

  /** A finished IF. */
  lemma IfDone(r: Got<Stmt>, d: nat, st: State, pos: nat, cur: State)
    requires r.Got? && r.v.If? && DepthOk(r.v, d) && pos == r.next
    requires var t1 := TabE(r.v.c, st.t);
             var a, t2 := CellsS(r.v.t, t1, d), TabS(r.v.t, t1, d);
             if r.v.hasElse then
               var b := CellsS(r.v.f, t2, d);
               cur == After(st, IfFront(r.v.c, st.t, |a| + 3) + a + Jump(OP_JMP, |b|) + b, TabS(r.v.f, t2, d))
             else cur == After(st, IfFront(r.v.c, st.t, |a|) + a, t2)
    ensures InnerDone(OK, r, d, st, pos, cur)
  {
    hide CodeE, TabE, TabS, InnerS, CellsS, JumpsS, TabsFit, After, MostJumps, IfFront, Word;
    IfShape(r.v, st.t, d);
  }

  // ---- The clause mark ---------------------------------------------------------------------

  /** A statement behind its mark. */
  lemma Marked(rc: Rc, r: Got<Stmt>, d: nat, st: State, pos: nat, cur: State)
    requires r.Got? ==> !r.v.Null? && !r.v.Label?
    requires InnerDone(rc, r, d, After(st, [B(OP_NEWCLAUSE)], st.t), pos, cur)
    ensures StmtDone(rc, r, d, st, pos, cur)
  {
    hide After, InnerS, TabS, JumpsS, MostJumps, TabsFit, Paired, Few;
    var m := [B(OP_NEWCLAUSE)];
    MarkIsPaired();
    FewMark();
    HolesAdd(st.fs, m, |st.code|, 0);
    TabsOfAfter(st, m, st.t);
    if r.Got? {
      var cs := InnerS(r.v, st.t, d);
      assert CellsS(r.v, st.t, d) == m + cs;
      Chain(rc, true, false, r.next, m, st.t, 0, cs, TabS(r.v, st.t, d), JumpsS(r.v), st, pos, cur);
    } else {
      FailedAnyway(rc, r.beyond, After(st, m, st.t), st, pos, cur);
    }
  }

  lemma FailedAnyway(rc: Rc, beyond: bool, st1: State, st: State, pos: nat, cur: State)
    requires Compiled(rc, false, beyond, 0, [], st1.t, 0, st1, pos, cur)
    ensures Compiled(rc, false, beyond, 0, [], st.t, 0, st, pos, cur)
  {
    hide After, MostJumps, TabsFit;
  }

  // ---- Statement lists -----------------------------------------------------------------------

  /** The statements p in front of the block b. */
  function Onto(p: seq<Stmt>, b: Block): Block
  {
    if p == [] then b else Step(p[0], Onto(p[1..], b))
  }

  function GotOnto(p: seq<Stmt>, r: Got<Block>): Got<Block>
  {
    if r.Got? then Got(Onto(p, r.v), r.next) else r
  }

  lemma {:induction false} OntoParts(p: seq<Stmt>, b: Block, t: Tabs, d: nat)
    ensures DepthOkB(Onto(p, b), d) <==> DepthOkB(Onto(p, Done), d) && DepthOkB(b, d)
    ensures TabB(Onto(p, b), t, d) == TabB(b, TabB(Onto(p, Done), t, d), d)
    ensures JumpsB(Onto(p, b)) == JumpsB(Onto(p, Done)) + JumpsB(b)
    decreases p
  {
    hide TabS, JumpsS, DepthOk;
    if p != [] { OntoParts(p[1..], b, TabS(p[0], t, d), d); }
  }

  lemma {:induction false} OntoCells(p: seq<Stmt>, b: Block, t: Tabs, d: nat)
    requires DepthOkB(Onto(p, Done), d) && DepthOkB(b, d)
    ensures DepthOkB(Onto(p, b), d)
    ensures CellsB(Onto(p, b), t, d) == CellsB(Onto(p, Done), t, d) + CellsB(b, TabB(Onto(p, Done), t, d), d)
    decreases p
  {
    hide TabS, CellsS, DepthOk;
    OntoParts(p, b, t, d);
    if p != [] {
      OntoCells(p[1..], b, TabS(p[0], t, d), d);
      OntoParts(p[1..], b, TabS(p[0], t, d), d);
    }
  }

  lemma {:induction false} OntoSnoc(p: seq<Stmt>, s: Stmt, b: Block)
    ensures Onto(p + [s], b) == Onto(p, Step(s, b))
    decreases p
  {
    if p == [] {
      assert p + [s] == [s];
    } else {
      assert (p + [s])[1..] == p[1..] + [s];
      OntoSnoc(p[1..], s, b);
    }
  }

  /** One more statement behind the list p. */
  lemma OneMore(p: seq<Stmt>, s: Got<Stmt>, d: nat, st: State, pos: nat, cur: State)
    requires DepthOkB(Onto(p, Done), d)
    requires StmtDone(OK, s, d, After(st, CellsB(Onto(p, Done), st.t, d), TabB(Onto(p, Done), st.t, d)), pos, cur)
    ensures s.Got? && pos == s.next && DepthOkB(Onto(p + [s.v], Done), d)
    ensures cur == After(st, CellsB(Onto(p + [s.v], Done), st.t, d), TabB(Onto(p + [s.v], Done), st.t, d))
  {
    hide After, CellsB, TabB, CellsS, TabS, Paired, DepthOk, DepthOkB;
    var b := Onto(p, Done);
    var a, ta := CellsB(b, st.t, d), TabB(b, st.t, d);
    TabsOfAfter(st, a, ta);
    BlockPaired(b, st.t, d);
    OneBlock(s.v, ta, d);
    OntoSnoc(p, s.v, Done);
    OntoParts(p, Step(s.v, Done), st.t, d);
    OntoCells(p, Step(s.v, Done), st.t, d);
    AfterJoin(st, a, ta, CellsS(s.v, ta, d), TabS(s.v, ta, d));
  }

  lemma OneBlock(s: Stmt, t: Tabs, d: nat)
    requires DepthOk(s, d)
    ensures DepthOkB(Step(s, Done), d) && CellsB(Step(s, Done), t, d) == CellsS(s, t, d) && TabB(Step(s, Done), t, d) == TabS(s, t, d)
    ensures JumpsB(Step(s, Done)) == JumpsS(s)
  {
    hide CellsS, TabS, JumpsS, DepthOk;
    assert CellsS(s, t, d) + [] == CellsS(s, t, d);
  }

  /** A block that stopped in a statement behind the list p. */
  lemma BlockStopped(rc: Rc, p: seq<Stmt>, s: Got<Stmt>, rest: Got<Block>, r: Got<Block>, d: nat, st: State, pos: nat, cur: State)
    requires rc != OK && DepthOkB(Onto(p, Done), d)
    requires StmtDone(rc, s, d, After(st, CellsB(Onto(p, Done), st.t, d), TabB(Onto(p, Done), st.t, d)), pos, cur)
    requires r == if !s.Got? then Failed(s.beyond) else if !rest.Got? then Failed(rest.beyond)
                  else Got(Onto(p, Step(s.v, rest.v)), rest.next)
    requires r.Got? ==> DepthOkB(r.v, d)
    ensures BlockDone(rc, r, d, st, pos, cur)
  {
    hide After, CellsB, TabB, CellsS, TabS, Paired, Few, DepthOk, DepthOkB, TabsFit, MostJumps, JumpsB, JumpsS, Extends;
    var b := Onto(p, Done);
    var a, ta := CellsB(b, st.t, d), TabB(b, st.t, d);
    TabsOfAfter(st, a, ta);
    if r.Got? {
      BlockPaired(b, st.t, d);
      FewB(b, st.t, d);
      OntoParts(p, Step(s.v, rest.v), st.t, d);
      OntoCells(p, Step(s.v, rest.v), st.t, d);
      StepParts(s.v, rest.v, ta, d);
      FailedBehind(rc, a, ta, JumpsB(b), CellsS(s.v, ta, d), TabS(s.v, ta, d), JumpsS(s.v),
                   true, false, r.next, CellsB(r.v, st.t, d), TabB(r.v, st.t, d), JumpsB(r.v), st, pos, cur);
    } else if !s.Got? {
      FailedAnyway(rc, s.beyond, After(st, a, ta), st, pos, cur);
    }
  }

  lemma StepParts(s: Stmt, b: Block, t: Tabs, d: nat)
    requires DepthOkB(Step(s, b), d)
    ensures DepthOk(s, d) && DepthOkB(b, d)
    ensures |CellsB(Step(s, b), t, d)| == |CellsS(s, t, d)| + |CellsB(b, TabS(s, t, d), d)|
    ensures Extends(TabS(s, t, d), TabB(Step(s, b), t, d)) && JumpsB(Step(s, b)) == JumpsS(s) + JumpsB(b)
  {
    hide CellsS, TabS, JumpsS;
    Simulation.TabBGrows(b, TabS(s, t, d), d);
  }
}
