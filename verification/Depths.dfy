/** Nesting depths along the code: what the trace map says of every byte, and what the tree says it has to be at least. */
module Depths {
  import opened Bytecode
  import opened ExprSyntax
  import opened ExprCode
  import opened StmtSyntax
  import opened StmtCode
  import opened ExprEmit
  import opened StmtEmit
  import opened SelectEmit
  import opened TraceMap

  /** The depth the trace map gives the byte at x. */
  function DepthAt(marks: seq<Mark>, x: nat): nat
  {
    if LastAt(marks, x) < 0 then 0 else marks[LastAt(marks, x)].depth
  }

  /** Every byte lies at least this deep. */
  ghost predicate Deep(marks: seq<Mark>, deep: seq<nat>)
  {
    forall x :: 0 <= x < |deep| ==> DepthAt(marks, x) >= deep[x]
  }

  function Rep(n: int, v: nat): (s: seq<nat>)
    ensures |s| == (if n < 0 then 0 else n) && forall i :: 0 <= i < |s| ==> s[i] == v
  {
    seq(if n < 0 then 0 else n, _ => v)
  }

  function LastDepth(marks: seq<Mark>): nat { if marks == [] then 0 else marks[|marks| - 1].depth }

  /** Entries that a mark at position n does not replace. */
  function OldMarks(marks: seq<Mark>, n: nat): seq<Mark>
  {
    if marks != [] && marks[|marks| - 1].pc == n then marks[..|marks| - 1] else marks
  }

  // ---- The trace map as it grows --------------------------------------------------------

  /** A trace map in order for n bytes of code, whose depths are known to be at least deep. */
  ghost predicate Charted(marks: seq<Mark>, n: nat, deep: seq<nat>)
  {
    MarksOk(marks, n) && |deep| <= n && (marks != [] ==> marks[|marks| - 1].pc <= |deep|) && Deep(marks, deep)
  }

  /** The trace map between two instructions. */
  datatype Chart = Chart(marks: seq<Mark>, n: nat, deep: seq<nat>)

  /** From a to b: the bytes added lie at least as deep as more says; the map goes on at depth d or deeper, or no
  shallower than before. */
  ghost predicate Traced(a: Chart, b: Chart, more: seq<nat>, d: nat)
  {
    Charted(a.marks, a.n, a.deep) && Charted(b.marks, b.n, b.deep) && |a.deep| == a.n && |b.deep| == b.n
    && b.deep == a.deep + more
    && OldMarks(a.marks, a.n) <= b.marks
    && (LastDepth(b.marks) >= LastDepth(a.marks) || LastDepth(b.marks) >= d)
  }

  lemma TracedNone(a: Chart, d: nat)
    requires Charted(a.marks, a.n, a.deep) && |a.deep| == a.n
    ensures Traced(a, a, [], d)
  {
  }

  lemma TracedThen(a: Chart, b: Chart, c: Chart, x: seq<nat>, y: seq<nat>, d: nat)
    requires Traced(a, b, x, d) && Traced(b, c, y, d)
    ensures Traced(a, c, x + y, d)
  {
    hide Deep, LastAt;
    assert OldMarks(a.marks, a.n) <= OldMarks(b.marks, b.n);
  }

  /** A block inside leaves the map no shallower than the block around it needs. */
  lemma TracedInside(a: Chart, b: Chart, x: seq<nat>, d: nat)
    requires Traced(a, b, x, d + 1)
    ensures Traced(a, b, x, d)
  {
  }

  lemma {:induction false} DepthBefore(marks: seq<Mark>, m: Mark, x: nat)
    requires x < m.pc
    ensures LastAt(marks + [m], x) == LastAt(marks, x)
  {
    assert (marks + [m])[..|marks|] == marks;
  }

  /** A mark at the end of the code changes no depth in front of it. */
  lemma MarkPut(a: Chart, line: nat, depth: nat)
    requires Charted(a.marks, a.n, a.deep) && |a.deep| == a.n
    ensures Traced(a, a.(marks := OldMarks(a.marks, a.n) + [Mark(a.n, line, depth)]), [], depth)
  {
    hide LastAt;
    var s, m := OldMarks(a.marks, a.n), Mark(a.n, line, depth);
    forall x | 0 <= x < |a.deep|
      ensures DepthAt(s + [m], x) >= a.deep[x]
    {
      DepthBefore(s, m, x);
      if |s| < |a.marks| {
        assert a.marks == s + [a.marks[|s|]];
        DepthBefore(s, a.marks[|s|], x);
      }
      if LastAt(s, x) >= 0 { assert (s + [m])[LastAt(s, x)] == s[LastAt(s, x)]; }
    }
    assert MarksOk(s + [m], a.n) by {
      forall i | 0 <= i < |s| ensures s[i].pc < a.n {
        if |s| < |a.marks| { assert a.marks[i].pc < a.marks[|s|].pc; }
        else if i < |s| - 1 { assert s[i].pc < s[|s| - 1].pc; }
      }
    }
  }

  /** Code behind the last mark lies as deep as the mark says. */
  lemma CodeNoted(a: Chart, n: nat, v: nat)
    requires Charted(a.marks, a.n, a.deep) && |a.deep| == a.n <= n && LastDepth(a.marks) >= v
    ensures Traced(a, Chart(a.marks, n, a.deep + Rep(n - a.n, v)), Rep(n - a.n, v), v)
  {
    var deep := a.deep + Rep(n - a.n, v);
    forall x | 0 <= x < |deep|
      ensures DepthAt(a.marks, x) >= deep[x]
    {
      if x >= a.n && a.marks != [] { assert LastAt(a.marks, x) == |a.marks| - 1; }
    }
  }

  // ---- Depths by the tree ------------------------------------------------------------------

  /** Where the body of a DO starts. */
  function BodyAt(k: DoKind, t: Tabs, d: nat): nat
    requires d < CTL_MAX
  {
    |HeadCode(k, t, d)| + (if k.Count? then 3 else 0) + 1 + |TestCells(k, t, d, 0)|
  }

  function DeepInner(s: Stmt, t: Tabs, d: nat): seq<nat>
    requires DepthOk(s, d)
    decreases s, 0
  {
    match s
    case If(c, s1, hasElse, s2) =>
      var t1 := TabE(c, t);
      Rep(|CodeE(c, t)| + 3, d) + DeepS(s1, t1, d) + if hasElse then Rep(3, d) + DeepS(s2, TabS(s1, t1, d), d) else []
    case Select(ws) => DeepW(ws, t, d + 1)
    case Do(k, b) =>
      var body := DeepB(b, HeadTabs(k, t, d), d + 1);
      Rep(BodyAt(k, t, d), d) + body + Rep(|InnerS(s, t, d)| - BodyAt(k, t, d) - |body|, d)
    case _ => Rep(|InnerS(s, t, d)|, d)
  }

  function DeepS(s: Stmt, t: Tabs, d: nat): seq<nat>
    requires DepthOk(s, d)
    decreases s, 1
  {
    match s case Null => [] case Label(_) => Rep(3, d) case _ => [d] + DeepInner(s, t, d)
  }

  function DeepB(b: Block, t: Tabs, d: nat): seq<nat>
    requires DepthOkB(b, d)
    decreases b, 1
  {
    match b case Done => [] case Step(s, r) => DeepS(s, t, d) + DeepB(r, TabS(s, t, d), d)
  }

  function DeepW(ws: Whens, t: Tabs, d: nat): seq<nat>
    requires DepthOkW(ws, d)
    decreases ws, 1
  {
    match ws
    case When(c, s, r) => DeepWhen((c, s), t, d) + DeepW(r, TabS(s, TabE(c, t), d), d)
    case Otherwise(b) => DeepB(b, t, d)
    case NoOtherwise => []
  }

  function DeepWhen(w: (Expr, Stmt), t: Tabs, d: nat): seq<nat>
    requires DepthOk(w.1, d)
    decreases w.1, 2
  {
    Rep(|CodeE(w.0, t)| + 3, d) + DeepS(w.1, TabE(w.0, t), d) + Rep(3, d)
  }

  /** One depth for every byte of code. */
  lemma {:induction false} DeepLength(s: Stmt, t: Tabs, d: nat)
    requires DepthOk(s, d)
    ensures |DeepS(s, t, d)| == |CellsS(s, t, d)|
    decreases s, 1
  {
    hide CodeE, TabE, HeadCode, TestCells, TailCells, HeadTabs;
    match s {
      case If(c, a, hasElse, b) =>
        DeepLength(a, TabE(c, t), d);
        if hasElse { DeepLength(b, TabS(a, TabE(c, t), d), d); }
      case Select(ws) => DeepLengthW(ws, t, d + 1);
      case Do(k, b) =>
        DeepLengthB(b, HeadTabs(k, t, d), d + 1);
        FrontFits(k, b, t, d);
      case _ =>
    }
  }

  lemma FrontFits(k: DoKind, b: Block, t: Tabs, d: nat)
    requires d < CTL_MAX && DepthOkB(b, d + 1)
    ensures BodyAt(k, t, d) + |CellsB(b, HeadTabs(k, t, d), d + 1)| <= |InnerS(Do(k, b), t, d)|
  {
    hide CodeE, TabE, HeadCode, TailCells, HeadTabs, CellsB, TabB, ForCells, ToTest;
  }

  lemma {:induction false} DeepLengthB(b: Block, t: Tabs, d: nat)
    requires DepthOkB(b, d)
    ensures |DeepB(b, t, d)| == |CellsB(b, t, d)|
    decreases b, 1
  {
    hide DeepS, CellsS;
    if b.Step? {
      DeepLength(b.s, t, d);
      DeepLengthB(b.rest, TabS(b.s, t, d), d);
    }
  }

  lemma {:induction false} DeepLengthW(ws: Whens, t: Tabs, d: nat)
    requires DepthOkW(ws, d)
    ensures |DeepW(ws, t, d)| == |CellsW(ws, t, d)|
    decreases ws, 1
  {
    hide DeepS, CellsS, CodeE, TabE;
    match ws {
      case When(c, s, r) =>
        DeepLength(s, TabE(c, t), d);
        DeepLengthW(r, TabS(s, TabE(c, t), d), d);
      case Otherwise(b) => DeepLengthB(b, t, d);
      case NoOtherwise =>
    }
  }

  // ---- Lists that grow behind ---------------------------------------------------------------

  lemma {:induction false} DeepOnto(p: seq<Stmt>, s: Stmt, t: Tabs, d: nat)
    requires DepthOkB(Onto(p, Done), d) && DepthOk(s, d)
    ensures DepthOkB(Onto(p + [s], Done), d)
    ensures DeepB(Onto(p + [s], Done), t, d) == DeepB(Onto(p, Done), t, d) + DeepS(s, TabB(Onto(p, Done), t, d), d)
    decreases p
  {
    hide DeepS, TabS, DepthOk;
    if p == [] {
      assert [s][1..] == [];
      assert Onto([s], Done) == Step(s, Done);
      assert [] + DeepS(s, t, d) == DeepS(s, t, d) + [];
    } else {
      assert (p + [s])[1..] == p[1..] + [s];
      var u := TabS(p[0], t, d);
      DeepOnto(p[1..], s, u, d);
      var rest := Onto(p[1..], Done);
      assert DeepS(p[0], t, d) + (DeepB(rest, u, d) + DeepS(s, TabB(rest, u, d), d))
          == (DeepS(p[0], t, d) + DeepB(rest, u, d)) + DeepS(s, TabB(rest, u, d), d);
    }
  }

  lemma {:induction false} DeepOntoW(p: seq<(Expr, Stmt)>, w: (Expr, Stmt), t: Tabs, d: nat)
    requires DepthOkW(OntoW(p, NoOtherwise), d) && DepthOk(w.1, d)
    ensures DepthOkW(OntoW(p + [w], NoOtherwise), d)
    ensures DeepW(OntoW(p + [w], NoOtherwise), t, d)
         == DeepW(OntoW(p, NoOtherwise), t, d) + DeepWhen(w, TabW(OntoW(p, NoOtherwise), t, d), d)
    decreases p
  {
    hide DeepWhen, TabS, TabE, DepthOk;
    if p == [] {
      assert [w][1..] == [];
      assert OntoW([w], NoOtherwise) == When(w.0, w.1, NoOtherwise);
      assert [] + DeepWhen(w, t, d) == DeepWhen(w, t, d) + [];
    } else {
      assert (p + [w])[1..] == p[1..] + [w];
      var u := TabS(p[0].1, TabE(p[0].0, t), d);
      DeepOntoW(p[1..], w, u, d);
      var rest := OntoW(p[1..], NoOtherwise);
      assert DeepWhen(p[0], t, d) + (DeepW(rest, u, d) + DeepWhen(w, TabW(rest, u, d), d))
          == (DeepWhen(p[0], t, d) + DeepW(rest, u, d)) + DeepWhen(w, TabW(rest, u, d), d);
    }
  }

  lemma {:induction false} DeepOtherwise(p: seq<(Expr, Stmt)>, b: Block, t: Tabs, d: nat)
    requires DepthOkW(OntoW(p, NoOtherwise), d) && DepthOkB(b, d)
    ensures DepthOkW(OntoW(p, Otherwise(b)), d)
    ensures DeepW(OntoW(p, Otherwise(b)), t, d)
         == DeepW(OntoW(p, NoOtherwise), t, d) + DeepB(b, TabW(OntoW(p, NoOtherwise), t, d), d)
    decreases p
  {
    hide DeepWhen, TabS, TabE, DepthOk, DeepB;
    if p == [] {
      assert [] + DeepB(b, t, d) == DeepB(b, t, d);
    } else {
      var u := TabS(p[0].1, TabE(p[0].0, t), d);
      DeepOtherwise(p[1..], b, u, d);
      var rest := OntoW(p[1..], NoOtherwise);
      assert DeepWhen(p[0], t, d) + (DeepW(rest, u, d) + DeepB(b, TabW(rest, u, d), d))
          == (DeepWhen(p[0], t, d) + DeepW(rest, u, d)) + DeepB(b, TabW(rest, u, d), d);
    }
  }

  // ---- What the methods promise ---------------------------------------------------------------

  ghost predicate TracedS(rc: Rc, r: Got<Stmt>, t: Tabs, d: nat, a: Chart, b: Chart)
  {
    rc == OK && r.Got? && DepthOk(r.v, d) ==> Traced(a, b, DeepS(r.v, t, d), d)
  }

  ghost predicate TracedInner(rc: Rc, r: Got<Stmt>, t: Tabs, d: nat, a: Chart, b: Chart)
  {
    rc == OK && r.Got? && DepthOk(r.v, d) ==> Traced(a, b, DeepInner(r.v, t, d), d)
  }

  ghost predicate TracedBlock(rc: Rc, r: Got<Block>, t: Tabs, d: nat, a: Chart, b: Chart)
  {
    rc == OK && r.Got? && DepthOkB(r.v, d) ==> Traced(a, b, DeepB(r.v, t, d), d)
  }

  ghost predicate TracedWhens(rc: Rc, r: Got<Whens>, t: Tabs, d: nat, a: Chart, b: Chart)
  {
    rc == OK && r.Got? && DepthOkW(r.v, d) ==> Traced(a, b, DeepW(r.v, t, d), d)
  }

  ghost predicate TracedWhen(rc: Rc, r: Got<(Expr, Stmt)>, t: Tabs, d: nat, a: Chart, b: Chart)
  {
    rc == OK && r.Got? && DepthOk(r.v.1, d) ==> Traced(a, b, DeepWhen(r.v, t, d), d)
  }

  /** Mark, clause byte, statement. */
  lemma StmtTraced(rc: Rc, r: Got<Stmt>, t: Tabs, d: nat, a: Chart, b: Chart, c: Chart, e: Chart)
    requires r.Got? ==> !r.v.Null? && !r.v.Label?
    requires Traced(a, b, [], d) && Traced(b, c, Rep(1, d), d) && TracedInner(rc, r, t, d, c, e)
    ensures TracedS(rc, r, t, d, a, e)
  {
    if rc == OK && r.Got? && DepthOk(r.v, d) {
      var inner := DeepInner(r.v, t, d);
      hide Traced, DeepInner;
      TracedThen(a, b, c, [], Rep(1, d), d);
      TracedThen(a, c, e, [] + Rep(1, d), inner, d);
      assert [] + Rep(1, d) == [d];
    }
  }

  /** A statement that holds no other: all its code lies as deep as it does. */
  lemma PlainTraced(s: Stmt, t: Tabs, d: nat, a: Chart, b: Chart)
    requires DepthOk(s, d) && !s.If? && !s.Select? && !s.Do?
    requires a.n <= b.n && b.n - a.n == |InnerS(s, t, d)| && Traced(a, b, Rep(b.n - a.n, d), d)
    ensures TracedInner(OK, Got(s, 0), t, d, a, b)
  {
    hide Traced, InnerS;
  }

  lemma TracedNext(rc: Rc, s: Stmt, next: nat, n: nat, t: Tabs, d: nat, a: Chart, b: Chart)
    requires TracedInner(rc, Got(s, n), t, d, a, b)
    ensures TracedInner(rc, Got(s, next), t, d, a, b)
  {
    hide Traced;
  }

  /** Condition and first branch. */
  lemma ThenTraced(c: Expr, s: Stmt, t: Tabs, d: nat, a: Chart, b: Chart, e: Chart)
    requires DepthOk(s, d) && Traced(a, b, Rep(|CodeE(c, t)| + 3, d), d) && Traced(b, e, DeepS(s, TabE(c, t), d), d)
    ensures Traced(a, e, Rep(|CodeE(c, t)| + 3, d) + DeepS(s, TabE(c, t), d), d)
    ensures TracedInner(OK, Got(If(c, s, false, Null), 0), t, d, a, e)
  {
    hide Traced, DeepS;
    TracedThen(a, b, e, Rep(|CodeE(c, t)| + 3, d), DeepS(s, TabE(c, t), d), d);
    var x := Rep(|CodeE(c, t)| + 3, d) + DeepS(s, TabE(c, t), d);
    assert x + [] == x;
  }

  lemma ElseTraced(c: Expr, s: Stmt, f: Stmt, t: Tabs, d: nat, a: Chart, b: Chart, e: Chart)
    requires DepthOk(s, d) && DepthOk(f, d)
    requires Traced(a, b, Rep(|CodeE(c, t)| + 3, d) + DeepS(s, TabE(c, t), d) + Rep(3, d), d)
    requires Traced(b, e, DeepS(f, TabS(s, TabE(c, t), d), d), d)
    ensures TracedInner(OK, Got(If(c, s, true, f), 0), t, d, a, e)
  {
    hide Traced, DeepS;
    var x, y := Rep(|CodeE(c, t)| + 3, d) + DeepS(s, TabE(c, t), d), DeepS(f, TabS(s, TabE(c, t), d), d);
    TracedThen(a, b, e, x + Rep(3, d), y, d);
    assert x + Rep(3, d) + y == x + (Rep(3, d) + y);
  }

  lemma WhenTraced(w: (Expr, Stmt), t: Tabs, d: nat, a: Chart, b: Chart, c: Chart, e: Chart, f: Chart)
    requires DepthOk(w.1, d) && Traced(a, b, [], d) && Traced(b, c, Rep(|CodeE(w.0, t)| + 3, d), d)
    requires Traced(c, e, DeepS(w.1, TabE(w.0, t), d), d) && Traced(e, f, Rep(3, d), d)
    ensures Traced(a, f, DeepWhen(w, t, d), d)
  {
    hide Traced, DeepS;
    var x, y := Rep(|CodeE(w.0, t)| + 3, d), DeepS(w.1, TabE(w.0, t), d);
    TracedThen(a, b, c, [], x, d);
    assert [] + x == x;
    TracedThen(a, c, e, x, y, d);
    TracedThen(a, e, f, x + y, Rep(3, d), d);
  }

  lemma SelectTraced(ws: Whens, t: Tabs, d: nat, a: Chart, b: Chart)
    requires d < CTL_MAX && DepthOkW(ws, d + 1) && Traced(a, b, DeepW(ws, t, d + 1), d + 1)
    ensures TracedInner(OK, Got(Select(ws), 0), t, d, a, b)
  {
    hide Traced, DeepW;
    TracedInside(a, b, DeepW(ws, t, d + 1), d);
  }

  /** Everything up to the body, the body, the mark behind it, the rest. */
  lemma DoTraced(k: DoKind, b: Block, t: Tabs, d: nat, a: Chart, c: Chart, n: nat)
    requires d < CTL_MAX && DepthOkB(b, d + 1)
    requires Traced(a, c, Rep(BodyAt(k, t, d), d) + DeepB(b, HeadTabs(k, t, d), d + 1), d)
    requires n == a.n + |InnerS(Do(k, b), t, d)| && c.n <= n && LastDepth(c.marks) >= d
    ensures var e := Chart(c.marks, n, c.deep + Rep(n - c.n, d));
            TracedInner(OK, Got(Do(k, b), 0), t, d, a, e)
  {
    hide Traced, DeepB, InnerS, HeadTabs, BodyAt;
    var x := Rep(BodyAt(k, t, d), d) + DeepB(b, HeadTabs(k, t, d), d + 1);
    assert c.n == a.n + |x| && Charted(c.marks, c.n, c.deep) && |c.deep| == c.n by { TracedLength(a, c, x, d); }
    CodeNoted(c, n, d);
    TracedThen(a, c, Chart(c.marks, n, c.deep + Rep(n - c.n, d)), x, Rep(n - c.n, d), d);
  }

  lemma TracedLength(a: Chart, b: Chart, x: seq<nat>, d: nat)
    requires Traced(a, b, x, d)
    ensures b.n == a.n + |x| && |a.deep| == a.n && |b.deep| == b.n
    ensures Charted(a.marks, a.n, a.deep) && Charted(b.marks, b.n, b.deep)
    ensures LastDepth(a.marks) >= d ==> LastDepth(b.marks) >= d
  {
  }

  lemma TracedLess(a: Chart, b: Chart, x: seq<nat>, e: nat, d: nat)
    requires Traced(a, b, x, e) && e >= d
    ensures Traced(a, b, x, d)
  {
  }

  /** A mark that was behind when the chart a was made is still there. */
  lemma MarkStays(a: Chart, b: Chart, x: seq<nat>, d: nat, i: nat)
    requires Traced(a, b, x, d) && i < |a.marks| && a.marks[|a.marks| - 1].pc < a.n
    ensures i < |b.marks| && b.marks[i] == a.marks[i]
  {
    hide Charted;
  }
}
