/** How the clauses of a SELECT add up. */
module SelectEmit {
  import opened Options
  import opened NumberText
  import opened Bytecode
  import opened Tokens
  import opened ExprSyntax
  import opened ExprCode
  import opened ExprEmit
  import opened StmtSyntax
  import opened StmtCode
  import Simulation
  import opened LoopParts
  import opened Patching
  import opened CompilerState
  import opened DoState
  import opened StmtEmit

  // ---- One WHEN ----------------------------------------------------------------------------

  function ParseWhen(ts: Source, i: nat, x: Ctl): (r: Got<(Expr, Stmt)>)
    requires i + 1 < |ts|
    ensures r.Got? ==> i < r.next < |ts|
  {
    var (c, j) :- FullExpr(ts, i + 1);
    if !IsKeyword(ts, j, "THEN") then Failed(false)
    else
      var (s, k) :- ParseStmt(ts, ConsumeNewline(ts, j + 1), x);
      Got((c, s), ConsumeEoc(ts, k))
  }

  function WhenCells(w: (Expr, Stmt), t: Tabs, d: nat): seq<Code>
    requires DepthOk(w.1, d)
  {
    var y := CellsS(w.1, TabE(w.0, t), d) + HoleJump(OP_JMP, SelectHole);
    IfFront(w.0, t, |y|) + y
  }

  function WhenTabs(w: (Expr, Stmt), t: Tabs, d: nat): Tabs { TabS(w.1, TabE(w.0, t), d) }

  predicate WhenDone(rc: Rc, r: Got<(Expr, Stmt)>, d: nat, st: State, pos: nat, cur: State)
  {
    if r.Got? then
      DepthOk(r.v.1, d)
      && Compiled(rc, true, false, r.next, WhenCells(r.v, st.t, d), WhenTabs(r.v, st.t, d), JumpsS(r.v.1) + 1, st, pos, cur)
    else Compiled(rc, false, r.beyond, 0, [], st.t, 0, st, pos, cur)
  }

  lemma WhenUnfolds(w: (Expr, Stmt), ws: Whens, t: Tabs, d: nat)
    ensures DepthOkW(When(w.0, w.1, ws), d) <==> DepthOk(w.1, d) && DepthOkW(ws, d)
    ensures TabW(When(w.0, w.1, ws), t, d) == TabW(ws, WhenTabs(w, t, d), d)
    ensures JumpsW(When(w.0, w.1, ws)) == JumpsS(w.1) + 1 + JumpsW(ws)
  {
    hide TabS, TabE, JumpsS, DepthOk;
  }

  lemma WhenInFront(w: (Expr, Stmt), ws: Whens, t: Tabs, d: nat)
    requires DepthOk(w.1, d) && DepthOkW(ws, d)
    ensures DepthOkW(When(w.0, w.1, ws), d)
    ensures CellsW(When(w.0, w.1, ws), t, d) == WhenCells(w, t, d) + CellsW(ws, WhenTabs(w, t, d), d)
  {
    hide TabS, TabE, CellsS, CodeE, Word, JumpsS, DepthOk;
    WhenUnfolds(w, ws, t, d);
    var t1 := TabE(w.0, t);
    var a := CellsS(w.1, t1, d);
    CellsWStep(w, ws, t, d);
    JoinFive(Bytes(CodeE(w.0, t)), Jump(OP_JF, |a| + 3), a, HoleJump(OP_JMP, SelectHole), CellsW(ws, TabS(w.1, t1, d), d));
  }

  lemma CellsWStep(w: (Expr, Stmt), ws: Whens, t: Tabs, d: nat)
    requires DepthOkW(When(w.0, w.1, ws), d)
    ensures DepthOk(w.1, d) && DepthOkW(ws, d)
    ensures var t1 := TabE(w.0, t);
            var a := CellsS(w.1, t1, d);
            CellsW(When(w.0, w.1, ws), t, d)
            == Bytes(CodeE(w.0, t)) + Jump(OP_JF, |a| + 3) + a + HoleJump(OP_JMP, SelectHole) + CellsW(ws, TabS(w.1, t1, d), d)
  {
    hide TabS, TabE, CellsS, CodeE, Word, DepthOk;
  }

  lemma JoinFive(a: seq<Code>, b: seq<Code>, c: seq<Code>, d: seq<Code>, e: seq<Code>)
    ensures a + b + c + d + e == a + b + (c + d) + e
  {
  }

  lemma WhenIsGood(w: (Expr, Stmt), t: Tabs, d: nat)
    requires DepthOk(w.1, d)
    ensures Paired(WhenCells(w, t, d)) && Few(WhenCells(w, t, d), JumpsS(w.1) + 1)
    ensures |WhenCells(w, t, d)| == |CodeE(w.0, t)| + 3 + |CellsS(w.1, TabE(w.0, t), d)| + 3
    ensures Extends(TabE(w.0, t), WhenTabs(w, t, d))
  {
    hide Paired, Few, IfFront, CellsS, JumpsS, DepthOk, TabS, TabE, CodeE, Extends;
    var a := CellsS(w.1, TabE(w.0, t), d);
    var h := HoleJump(OP_JMP, SelectHole);
    Simulation.TabSGrows(w.1, TabE(w.0, t), d);
    CellsPaired(w.1, TabE(w.0, t), d);
    FewS(w.1, TabE(w.0, t), d);
    HolesArePaired(OP_JMP, SelectHole);
    FewJump(OP_JMP, SelectHole);
    PairedJoin(a, h);
    FewJoin(a, JumpsS(w.1), h, 1);
    FrontIsGood(w.0, t, |a + h|);
    PairedJoin(IfFront(w.0, t, |a + h|), a + h);
    FewJoin(IfFront(w.0, t, |a + h|), 0, a + h, JumpsS(w.1) + 1);
  }

  /** A WHEN that stopped in its condition or found no room for a jump. */
  lemma WhenTooMuch(rc: Rc, r: Got<(Expr, Stmt)>, g: Got<Expr>, d: nat, st: State, pos: nat, cur: State)
    requires r.Got? ==> DepthOk(r.v.1, d) && g.Got? && g.v == r.v.0
    requires rc == CAPACITY || rc == STRTOOLONG
    requires g.Got? ==> |st.code| + |CodeE(g.v, st.t)| + 3 > MAX_CODE || !TabsFit(TabE(g.v, st.t))
    ensures WhenDone(rc, r, d, st, pos, cur)
  {
    hide CodeE, TabE, WhenTabs, WhenCells, TabsFit, CellsS;
    if r.Got? {
      WhenIsGood(r.v, st.t, d);
      if TabsFit(WhenTabs(r.v, st.t, d)) { FitsSmaller([], TabE(g.v, st.t), [], WhenTabs(r.v, st.t, d)); }
    }
  }

  /** A WHEN that stopped in its statement. */
  lemma WhenStopped(rc: Rc, r: Got<(Expr, Stmt)>, c: Expr, s: Got<Stmt>, d: nat, st: State, pos: nat, cur: State)
    requires r.Got? ==> DepthOk(r.v.1, d) && r.v.0 == c && s.Got? && s.v == r.v.1
    requires !s.Got? ==> r == Failed(s.beyond)
    requires rc != OK && StmtDone(rc, s, d, After(st, IfFront(c, st.t, 0), TabE(c, st.t)), pos, cur)
    ensures WhenDone(rc, r, d, st, pos, cur)
  {
    hide CodeE, TabE, TabS, CellsS, JumpsS, TabsFit, After, MostJumps, IfFront, WhenCells, Extends;
    if r.Got? {
      var t1 := TabE(c, st.t);
      WhenIsGood(r.v, st.t, d);
      FrontIsGood(c, st.t, 0);
      TabsOfAfter(st, IfFront(c, st.t, 0), t1);
      Same(TabS(s.v, t1, d));
      FailedBehind(rc, IfFront(c, st.t, 0), t1, 0, CellsS(s.v, t1, d), TabS(s.v, t1, d), JumpsS(s.v),
                   true, false, r.next, WhenCells(r.v, st.t, d), WhenTabs(r.v, st.t, d), JumpsS(s.v) + 1, st, pos, cur);
    }
  }

  /** The jump to the end of the SELECT found no room, or no slot. */
  lemma WhenEndStopped(rc: Rc, r: Got<(Expr, Stmt)>, d: nat, next: nat, st: State, pos: nat, cur: State)
    requires rc != OK && r.Got? && DepthOk(r.v.1, d)
    requires var x := IfFront(r.v.0, st.t, 0) + CellsS(r.v.1, TabE(r.v.0, st.t), d);
             var t := WhenTabs(r.v, st.t, d);
             Compiled(rc, true, false, next, HoleJump(OP_JMP, SelectHole), t, 1, After(st, x, t), pos, cur)
    ensures WhenDone(rc, r, d, st, pos, cur)
  {
    hide CodeE, TabE, CellsS, JumpsS, TabsFit, After, MostJumps, IfFront, WhenCells, WhenTabs, Extends, Paired, Few;
    var x, a := IfFront(r.v.0, st.t, 0), CellsS(r.v.1, TabE(r.v.0, st.t), d);
    var t := WhenTabs(r.v, st.t, d);
    WhenIsGood(r.v, st.t, d);
    FrontIsGood(r.v.0, st.t, 0);
    CellsPaired(r.v.1, TabE(r.v.0, st.t), d);
    FewS(r.v.1, TabE(r.v.0, st.t), d);
    PairedJoin(x, a);
    FewJoin(x, 0, a, JumpsS(r.v.1));
    Same(t);
    FailedBehind(rc, x + a, t, JumpsS(r.v.1), HoleJump(OP_JMP, SelectHole), t, 1,
                 true, false, r.next, WhenCells(r.v, st.t, d), t, JumpsS(r.v.1) + 1, st, pos, cur);
  }

  // ---- Lists of WHENs ------------------------------------------------------------------------

  function OntoW(p: seq<(Expr, Stmt)>, ws: Whens): Whens
  {
    if p == [] then ws else When(p[0].0, p[0].1, OntoW(p[1..], ws))
  }

  function GotOntoW(p: seq<(Expr, Stmt)>, r: Got<Whens>): Got<Whens>
  {
    if r.Got? then Got(OntoW(p, r.v), r.next) else r
  }

  lemma {:induction false} OntoWParts(p: seq<(Expr, Stmt)>, ws: Whens, t: Tabs, d: nat)
    ensures DepthOkW(OntoW(p, ws), d) <==> DepthOkW(OntoW(p, NoOtherwise), d) && DepthOkW(ws, d)
    ensures TabW(OntoW(p, ws), t, d) == TabW(ws, TabW(OntoW(p, NoOtherwise), t, d), d)
    ensures JumpsW(OntoW(p, ws)) == JumpsW(OntoW(p, NoOtherwise)) + JumpsW(ws)
    decreases p
  {
    hide TabW, TabS, TabE, JumpsS, JumpsW, DepthOk, DepthOkW;
    NoWhens(t, d);
    if p != [] {
      WhenUnfolds(p[0], OntoW(p[1..], ws), t, d);
      WhenUnfolds(p[0], OntoW(p[1..], NoOtherwise), t, d);
      OntoWParts(p[1..], ws, WhenTabs(p[0], t, d), d);
    }
  }

  lemma NoWhens(t: Tabs, d: nat)
    ensures DepthOkW(NoOtherwise, d) && TabW(NoOtherwise, t, d) == t && JumpsW(NoOtherwise) == 0
    ensures CellsW(NoOtherwise, t, d) == []
  {
  }

  lemma {:induction false} OntoWCells(p: seq<(Expr, Stmt)>, ws: Whens, t: Tabs, d: nat)
    requires DepthOkW(OntoW(p, NoOtherwise), d) && DepthOkW(ws, d)
    ensures DepthOkW(OntoW(p, ws), d)
    ensures CellsW(OntoW(p, ws), t, d) == CellsW(OntoW(p, NoOtherwise), t, d) + CellsW(ws, TabW(OntoW(p, NoOtherwise), t, d), d)
    decreases p
  {
    hide TabW, TabS, TabE, CellsS, CellsW, WhenCells, DepthOk, DepthOkW;
    OntoWParts(p, ws, t, d);
    NoWhens(t, d);
    if p != [] {
      var t1 := WhenTabs(p[0], t, d);
      WhenUnfolds(p[0], OntoW(p[1..], NoOtherwise), t, d);
      OntoWCells(p[1..], ws, t1, d);
      WhenInFront(p[0], OntoW(p[1..], ws), t, d);
      WhenInFront(p[0], OntoW(p[1..], NoOtherwise), t, d);
      assert WhenCells(p[0], t, d) + (CellsW(OntoW(p[1..], NoOtherwise), t1, d) + CellsW(ws, TabW(OntoW(p[1..], NoOtherwise), t1, d), d))
          == WhenCells(p[0], t, d) + CellsW(OntoW(p[1..], NoOtherwise), t1, d) + CellsW(ws, TabW(OntoW(p[1..], NoOtherwise), t1, d), d);
    } else {
      assert [] + CellsW(ws, t, d) == CellsW(ws, t, d);
    }
  }

  lemma {:induction false} OntoWSnoc(p: seq<(Expr, Stmt)>, w: (Expr, Stmt), ws: Whens)
    ensures OntoW(p + [w], ws) == OntoW(p, When(w.0, w.1, ws))
    decreases p
  {
    if p == [] {
      assert p + [w] == [w];
    } else {
      assert (p + [w])[1..] == p[1..] + [w];
      OntoWSnoc(p[1..], w, ws);
    }
  }

  /** One more WHEN behind the list p. */
  lemma OneMoreWhen(p: seq<(Expr, Stmt)>, w: Got<(Expr, Stmt)>, d: nat, st: State, pos: nat, cur: State)
    requires DepthOkW(OntoW(p, NoOtherwise), d)
    requires WhenDone(OK, w, d, After(st, CellsW(OntoW(p, NoOtherwise), st.t, d), TabW(OntoW(p, NoOtherwise), st.t, d)), pos, cur)
    ensures w.Got? && pos == w.next && DepthOkW(OntoW(p + [w.v], NoOtherwise), d)
    ensures cur == After(st, CellsW(OntoW(p + [w.v], NoOtherwise), st.t, d), TabW(OntoW(p + [w.v], NoOtherwise), st.t, d))
  {
    hide After, CellsW, TabW, WhenCells, WhenTabs, Paired, DepthOk, DepthOkW, TabsFit, JumpsS, JumpsW;
    var b, one := OntoW(p, NoOtherwise), When(w.v.0, w.v.1, NoOtherwise);
    var a, ta := CellsW(b, st.t, d), TabW(b, st.t, d);
    TabsOfAfter(st, a, ta);
    WhensPaired(b, st.t, d);
    NoWhens(WhenTabs(w.v, ta, d), d);
    WhenUnfolds(w.v, NoOtherwise, ta, d);
    WhenInFront(w.v, NoOtherwise, ta, d);
    assert WhenCells(w.v, ta, d) + [] == WhenCells(w.v, ta, d);
    OntoWSnoc(p, w.v, NoOtherwise);
    OntoWParts(p, one, st.t, d);
    OntoWCells(p, one, st.t, d);
    AfterJoin(st, a, ta, WhenCells(w.v, ta, d), WhenTabs(w.v, ta, d));
  }

  /** A list that stopped in a WHEN behind p. */
  lemma WhensStopped(rc: Rc, p: seq<(Expr, Stmt)>, w: Got<(Expr, Stmt)>, rest: Got<Whens>, r: Got<Whens>, d: nat,
                     st: State, pos: nat, cur: State)
    requires rc != OK && DepthOkW(OntoW(p, NoOtherwise), d)
    requires WhenDone(rc, w, d, After(st, CellsW(OntoW(p, NoOtherwise), st.t, d), TabW(OntoW(p, NoOtherwise), st.t, d)), pos, cur)
    requires r == if !w.Got? then Failed(w.beyond) else if !rest.Got? then Failed(rest.beyond)
                  else Got(OntoW(p, When(w.v.0, w.v.1, rest.v)), rest.next)
    requires r.Got? ==> DepthOkW(r.v, d)
    ensures WhensDone(rc, r, d, st, pos, cur)
  {
    hide After, CellsW, TabW, WhenCells, WhenTabs, Paired, Few, DepthOk, DepthOkW, TabsFit, MostJumps, JumpsW, JumpsS, Extends;
    var b := OntoW(p, NoOtherwise);
    var a, ta := CellsW(b, st.t, d), TabW(b, st.t, d);
    TabsOfAfter(st, a, ta);
    if r.Got? {
      var more := When(w.v.0, w.v.1, rest.v);
      WhensPaired(b, st.t, d);
      FewW(b, st.t, d);
      OntoWParts(p, more, st.t, d);
      OntoWCells(p, more, st.t, d);
      WhenUnfolds(w.v, rest.v, ta, d);
      WhenInFront(w.v, rest.v, ta, d);
      Simulation.TabWGrows(rest.v, WhenTabs(w.v, ta, d), d);
      FailedBehind(rc, a, ta, JumpsW(b), WhenCells(w.v, ta, d), WhenTabs(w.v, ta, d), JumpsS(w.v.1) + 1,
                   true, false, r.next, CellsW(r.v, st.t, d), TabW(r.v, st.t, d), JumpsW(r.v), st, pos, cur);
    } else if !w.Got? {
      FailedAnyway(rc, w.beyond, After(st, a, ta), st, pos, cur);
    }
  }

  /** OTHERWISE behind the list p. */
  lemma OtherwiseDone(rc: Rc, p: seq<(Expr, Stmt)>, b: Got<Block>, r: Got<Whens>, d: nat, st: State, pos: nat, cur: State)
    requires DepthOkW(OntoW(p, NoOtherwise), d)
    requires BlockDone(rc, b, d, After(st, CellsW(OntoW(p, NoOtherwise), st.t, d), TabW(OntoW(p, NoOtherwise), st.t, d)), pos, cur)
    requires r == if b.Got? then Got(OntoW(p, Otherwise(b.v)), b.next) else Failed(b.beyond)
    ensures WhensDone(rc, r, d, st, pos, cur)
  {
    hide After, CellsW, CellsB, TabB, TabW, Paired, Few, DepthOkB, DepthOkW, TabsFit, MostJumps, JumpsW, JumpsB;
    var ws := OntoW(p, NoOtherwise);
    var a, ta := CellsW(ws, st.t, d), TabW(ws, st.t, d);
    TabsOfAfter(st, a, ta);
    WhensPaired(ws, st.t, d);
    if b.Got? {
      FewW(ws, st.t, d);
      HolesAdd(st.fs, a, |st.code|, JumpsW(ws));
      OtherwiseUnfolds(b.v, ta, d);
      OntoWParts(p, Otherwise(b.v), st.t, d);
      OntoWCells(p, Otherwise(b.v), st.t, d);
      Chain(rc, true, false, b.next, a, ta, JumpsW(ws), CellsB(b.v, ta, d), TabB(b.v, ta, d), JumpsB(b.v), st, pos, cur);
    } else {
      FailedAnyway(rc, b.beyond, After(st, a, ta), st, pos, cur);
    }
  }

  lemma OtherwiseUnfolds(b: Block, t: Tabs, d: nat)
    requires DepthOkB(b, d)
    ensures DepthOkW(Otherwise(b), d) && CellsW(Otherwise(b), t, d) == CellsB(b, t, d)
    ensures TabW(Otherwise(b), t, d) == TabB(b, t, d) && JumpsW(Otherwise(b)) == JumpsB(b)
  {
    hide CellsB, TabB, JumpsB, DepthOkB;
  }

  // ---- SELECT --------------------------------------------------------------------------------

  function SelectFrame(): Frame { Frame(true, false, 0, [], []) }

  function Opened(st: State): State { st.(fs := st.fs + [SelectFrame()]) }

  lemma SelectUnfolds(ws: Whens, t: Tabs, d: nat)
    requires d < CTL_MAX && DepthOkW(ws, d + 1)
    ensures DepthOk(Select(ws), d) && JumpsS(Select(ws)) == JumpsW(ws) && TabS(Select(ws), t, d) == TabW(ws, t, d + 1)
    ensures InnerS(Select(ws), t, d) == Fill(CellsW(ws, t, d + 1), SelectHole, 0, |CellsW(ws, t, d + 1)|)
  {
    hide CellsW, TabW, JumpsW, DepthOkW;
  }

  lemma SelectStopped(rc: Rc, w: Got<Whens>, r: Got<Stmt>, d: nat, st: State, was: State, pos: nat, cur: State)
    requires rc != OK && d < CTL_MAX && d == |st.fs| && WhensDone(rc, w, d + 1, Opened(st), pos, was)
    requires if w.Got? then r.Got? && r.v == Select(w.v) else r == Failed(w.beyond)
    ensures InnerDone(rc, r, d, st, pos, cur)
  {
    hide CellsW, TabW, JumpsW, DepthOkW, InnerS, TabS, JumpsS, MostJumps, TabsFit, After;
    MostPush(st.fs, SelectFrame());
    if w.Got? { SelectUnfolds(w.v, st.t, d); }
  }

  lemma SelectFinished(ws: Whens, next: nat, d: nat, st: State, pos: nat, cur: State)
    requires d < CTL_MAX && DepthOkW(ws, d + 1) && pos == next
    requires var cs := CellsW(ws, st.t, d + 1);
             cur == After(st, Fill(cs, SelectHole, 0, |cs|), TabW(ws, st.t, d + 1))
    ensures InnerDone(OK, Got(Select(ws), next), d, st, pos, cur)
  {
    hide CellsW, TabW, JumpsW, DepthOkW, InnerS, TabS, JumpsS, DepthOk, Fill, After;
    SelectUnfolds(ws, st.t, d);
  }

  lemma SelectJumps(st: State, x: seq<Code>, t: Tabs, was: State, i: nat)
    requires |st.code| >= 1 && Paired(x) && was == After(Opened(st), x, t)
    requires |was.fs| == |st.fs| + 1 && i < |was.fs[|st.fs|].leaves|
    ensures 0 <= was.fs[|st.fs|].leaves[i] && was.fs[|st.fs|].leaves[i] + 2 < |was.code|
  {
    hide Positions, Paired, InnerLoop, InnerSelect, Emitted, AddHoles, KnownOf, Fill;
    SelectFrameHoles(st.fs, SelectFrame(), x, |st.code|);
    assert [] + Positions(x, SelectHole, |st.code|) == Positions(x, SelectHole, |st.code|);
    PositionsInside(x, SelectHole, |st.code|, i);
  }
}
