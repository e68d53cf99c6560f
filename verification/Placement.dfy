/** Compiling preserves meaning: the VM, started at a statement's code, does what the statement means,
whatever way it ends; and while the meaning is still undecided the VM is still running. */
module Placement {
  import opened Options
  import opened NumberText
  import opened ArithOps
  import opened IntegerFastPath
  import opened Bytecode
  import opened VmValues
  import opened VarPool
  import opened CoreVm
  import opened ExprSyntax
  import opened ExprCode
  import opened StmtSyntax
  import opened StmtCode
  import opened StmtSemantics

  /** Where the open jumps of a statement go. */
  datatype Targets = Targets(leave: int, sel: int, iter: int)

  function TargetOf(k: HoleKind, g: Targets): int
  {
    match k case LeaveHole => g.leave case SelectHole => g.sel case IterateHole => g.iter
  }

  function CellByte(c: Code, i: int, g: Targets): Byte
  {
    match c case B(b) => b case Hole(k, high) => HoleByte(high, i, TargetOf(k, g))
  }

  /** The cells stand in the code at pc, holes filled to jump to g. */
  ghost predicate Placed(code: seq<Byte>, pc: nat, cs: seq<Code>, g: Targets)
  {
    pc + |cs| <= |code| && forall i :: 0 <= i < |cs| ==> code[pc + i] == CellByte(cs[i], pc + i, g)
  }

  lemma PlacedSplit(code: seq<Byte>, pc: nat, a: seq<Code>, b: seq<Code>, g: Targets)
    ensures Placed(code, pc, a + b, g) <==> Placed(code, pc, a, g) && Placed(code, pc + |a|, b, g)
  {
    hide CellByte;
    if Placed(code, pc, a + b, g) {
      forall i | 0 <= i < |a| ensures code[pc + i] == CellByte(a[i], pc + i, g) { assert (a + b)[i] == a[i]; }
      forall i | 0 <= i < |b| ensures code[pc + |a| + i] == CellByte(b[i], pc + |a| + i, g) {
        assert (a + b)[|a| + i] == b[i];
        assert code[pc + (|a| + i)] == CellByte((a + b)[|a| + i], pc + (|a| + i), g);
      }
    }
    if Placed(code, pc, a, g) && Placed(code, pc + |a|, b, g) {
      forall i | 0 <= i < |a + b| ensures code[pc + i] == CellByte((a + b)[i], pc + i, g) {
        if i >= |a| { assert code[pc + |a| + (i - |a|)] == CellByte(b[i - |a|], pc + |a| + (i - |a|), g); }
      }
    }
  }

  lemma PlacedBytes(code: seq<Byte>, pc: nat, s: seq<Byte>, g: Targets)
    requires Placed(code, pc, Bytes(s), g)
    ensures Has(code, pc, s)
  {
    assert forall i :: 0 <= i < |s| ==> code[pc + i] == CellByte(Bytes(s)[i], pc + i, g) == s[i];
    assert code[pc..pc + |s|] == s;
  }

  function Retarget(g: Targets, k: HoleKind, target: int): Targets
  {
    match k
    case LeaveHole => g.(leave := target) case SelectHole => g.(sel := target) case IterateHole => g.(iter := target)
  }

  lemma PlacedFill(code: seq<Byte>, pc: nat, cs: seq<Code>, k: HoleKind, target: int, g: Targets)
    requires Placed(code, pc, Fill(cs, k, 0, target), g)
    ensures Placed(code, pc, cs, Retarget(g, k, pc + target))
  {
    hide Lo, Hi;
    var f := Fill(cs, k, 0, target);
    forall i | 0 <= i < |cs| ensures code[pc + i] == CellByte(cs[i], pc + i, Retarget(g, k, pc + target)) {
      assert code[pc + i] == CellByte(f[i], pc + i, g);
      assert f[i] == FillCell(cs[i], k, i, target);
    }
  }

  /** A jump in the code, its displacement filled in or open. */
  lemma PlacedHole(code: seq<Byte>, pc: nat, op: Byte, k: HoleKind, g: Targets)
    requires Placed(code, pc, HoleJump(op, k), g)
    ensures Has(code, pc, [op] + Word(TargetOf(k, g) - (pc + 3)))
  {
    hide Lo, Hi;
    var cs := HoleJump(op, k);
    assert code[pc + 0] == CellByte(cs[0], pc + 0, g) && code[pc + 1] == CellByte(cs[1], pc + 1, g)
        && code[pc + 2] == CellByte(cs[2], pc + 2, g);
    assert code[pc..pc + 3] == [op] + Word(TargetOf(k, g) - (pc + 3));
  }

  // ---- What the VM keeps ------------------------------------------------------

  const ROOM := 38

  ghost predicate Ready(im: Image, e: Env, c: Core, g: Targets)
  {
    ImageOk(im) && PlainEnv(e) && PlainPools(c.pools) && c.pc >= 0
    && |c.stack| + ROOM <= STACK_DEPTH && |c.counters| >= 1
    && 0 <= g.leave <= |im.code| && 0 <= g.sel <= |im.code| && 0 <= g.iter <= |im.code|
  }

  /** The counters of the loops around are left alone. */
  predicate Kept(a: seq<int>, b: seq<int>, n: int)
  {
    |a| <= |b| && forall i :: 0 <= i < n && i < |a| ==> b[i] == a[i]
  }

  function WorldOf(c: Core): World { World(c.pools, c.out) }

  /** y, reached after n steps, is the end r of a statement started with stack st and counters cs. */
  ghost predicate Simulated(st: seq<Cell>, cs: seq<int>, keep: int, end: int, g: Targets, fuel: nat, r: Result, n: nat, y: Next)
  {
    (r.o != Timeout ==> WorldOf(y.c) == r.w)
    && (y.Run? && r.o != Timeout ==> y.c.stack == st && Kept(cs, y.c.counters, keep) && PlainPools(y.c.pools))
    && match r.o
       case Normal => y.Run? && y.c.pc == end
       case Left(toSelect) => y.Run? && y.c.pc == (if toSelect then g.sel else g.leave)
       case Iterated => y.Run? && y.c.pc == g.iter
       case Exited(rc) => y.Exit? && y.rc == rc
       case Raised(k) => y.Trap? && y.num == k
       case Timeout => y.Run? && n >= fuel
  }

  lemma SimulatedFrom(st: seq<Cell>, cs: seq<int>, keep: int, cs': seq<int>, keep': int, end: int, g: Targets,
                      fuel: nat, fuel': nat, r: Result, n: nat, m: nat, y: Next)
    requires Simulated(st, cs', keep', end, g, fuel', r, n, y) && Kept(cs, cs', keep) && keep <= keep' && fuel <= fuel' + m
    ensures Simulated(st, cs, keep, end, g, fuel, r, m + n, y)
  {
  }

  lemma SetIsPlain(p: Pools, n: string, v: string)
    requires PlainPools(p)
    ensures PlainPools(Set(p, n, Plain(v)))
  {
    hide Owner;
  }

  predicate Small(e: Expr) { Need(e) <= ROOM }

  predicate SmallKind(k: DoKind)
  {
    match k
    case Count(e) => Small(e)
    case While(e) => Small(e)
    case Until(e) => Small(e)
    case To(_, a, b, c, _, f) => Small(a) && Small(b) && Small(c) && Small(f)
    case _ => true
  }

  /** Every expression fits the stack, and nothing is called. */
  predicate SmallS(s: Stmt)
    decreases s
  {
    match s
    case Assign(_, e) => Small(e)
    case Say(e) => Small(e)
    case ExitWith(e) => Small(e)
    case If(c, t, _, f) => Small(c) && SmallS(t) && SmallS(f)
    case Select(ws) => SmallW(ws)
    case Do(k, b) => SmallKind(k) && SmallB(b)
    case CallTo(_, _) => false
    case Return => false
    case ReturnWith(_) => false
    case _ => true
  }

  predicate SmallB(b: Block)
    decreases b
  {
    match b case Done => true case Step(s, r) => SmallS(s) && SmallB(r)
  }

  predicate SmallW(ws: Whens)
    decreases ws
  {
    match ws
    case When(c, s, r) => Small(c) && SmallS(s) && SmallW(r)
    case Otherwise(b) => SmallB(b)
    case NoOtherwise => true
  }

  // ---- Single instructions and conditions ---------------------------------------

  lemma JumpRuns(op: Byte, target: int, im: Image, e: Env, c: Core)
    requires op == OP_JMP || op == OP_LEAVE || op == OP_ITERATE
    requires ImageOk(im) && c.pc >= 0 && 0 <= target <= |im.code| && Has(im.code, c.pc, [op] + Word(target - (c.pc + 3)))
    ensures Reaches(im, e, c, 1, Run(c.(pc := target)))
  {
    OneStep(im, e, c, IJump(op, target - (c.pc + 3)));
  }

  lemma MarkRuns(im: Image, e: Env, c: Core)
    requires c.pc >= 0 && Has(im.code, c.pc, [OP_NEWCLAUSE])
    ensures Reaches(im, e, c, 1, Run(c.(pc := c.pc + 1)))
  {
    OneStep(im, e, c, INewClause);
  }

  /** Where control is after a conditional jump at pc to target on `on`. */
  ghost predicate Branched(c: Core, on: bool, next: int, target: int, v: Verdict, y: Next)
  {
    match v
    case Error(k) => y.Trap? && y.num == k && WorldOf(y.c) == WorldOf(c)
    case _ => y == Run(c.(pc := if v.Yes? == on then target else next))
  }

  /** A condition and the jump behind it. */
  lemma CondRuns(x: Expr, on: bool, target: int, t: Tabs, im: Image, e: Env, c: Core) returns (n: nat, y: Next)
    requires ImageOk(im) && PlainEnv(e) && PlainPools(c.pools) && c.pc >= 0 && |c.stack| + Need(x) <= STACK_DEPTH
    requires 0 <= target <= |im.code|
    requires Has(im.code, c.pc, CodeE(x, t)) && Extends(TabE(x, t), im.tabs)
    requires var q := c.pc + |CodeE(x, t)|; Has(im.code, q, [if on then OP_JT else OP_JF] + Word(target - (q + 3)))
    ensures n >= 1 && Reaches(im, e, c, n, y)
    ensures Branched(c, on, c.pc + |CodeE(x, t)| + 3, target, Decide(x, WorldOf(c), e.num), y)
  {
    hide Has, Reaches, CodeE, Eval, Word, TabE, Extends, PlainPools;
    n, y := ExprRuns(x, t, im, e, c);
    if y.Run? {
      var m, z := BranchRuns(on, target, Eval(x, c.pools, e.num).text, im, e, y.c, c.stack);
      Then(im, e, c, n, y.c, m, z);
      n, y := n + m, z;
    }
  }

  lemma BranchRuns(on: bool, target: int, v: string, im: Image, e: Env, c: Core, st: seq<Cell>) returns (n: nat, y: Next)
    requires ImageOk(im) && c.pc >= 0 && 0 <= target <= |im.code| && c.stack == st + [Plain(v)]
    requires Has(im.code, c.pc, [if on then OP_JT else OP_JF] + Word(target - (c.pc + 3)))
    ensures n == 1 && Reaches(im, e, c, n, y)
    ensures match BoolOf(v)
            case None => y.Trap? && y.num == SYNTAX_BAD_BOOL && WorldOf(y.c) == WorldOf(c)
            case Some(b) => y == Run(c.(stack := st, pc := if b == on then target else c.pc + 3))
  {
    OneStep(im, e, c, IJumpIf(on, target - (c.pc + 3)));
    n, y := 1, Perform(im.tabs, e, IJumpIf(on, target - (c.pc + 3)), c.(pc := c.pc + 3));
    assert (st + [Plain(v)])[..|st|] == st;
  }

  /** Evaluate and store. */
  lemma SetRuns(name: string, x: Expr, t: Tabs, im: Image, e: Env, c: Core) returns (n: nat, y: Next)
    requires ImageOk(im) && PlainEnv(e) && PlainPools(c.pools) && c.pc >= 0 && |c.stack| + Need(x) <= STACK_DEPTH
    requires Has(im.code, c.pc, SetCode(name, x, t)) && Extends(TabE(x, t), im.tabs) && name in t.syms
    ensures n >= 1 && Reaches(im, e, c, n, y)
    ensures var r := AssignTo(name, x, WorldOf(c), e.num);
            WorldOf(y.c) == r.w
            && (r.o.Normal? ==> y == Run(c.(pc := c.pc + |SetCode(name, x, t)|, pools := r.w.pools)) && PlainPools(y.c.pools))
            && (!r.o.Normal? ==> r.o.Raised? && y.Trap? && y.num == r.o.num)
  {
    hide Has, Reaches, CodeE, Eval, Word, TabE, PlainPools, Set;
    HasSplit(im.code, c.pc, CodeE(x, t), StoreCode(t, name));
    n, y := ExprRuns(x, t, im, e, c);
    if y.Run? {
      var v := Eval(x, c.pools, e.num).text;
      Known(t, name, TabE(x, t));
      TabEGrows(x, t);
      StoreRuns(name, t, v, im, e, y.c, c.stack);
      var z := Run(y.c.(pc := y.c.pc + 3, stack := c.stack, pools := Set(c.pools, name, Plain(v))));
      Then(im, e, c, n, y.c, 1, z);
      SetIsPlain(c.pools, name, v);
      n, y := n + 1, z;
    }
  }

  lemma Known(t: Tabs, name: string, u: Tabs)
    requires name in t.syms
    ensures AddSym(t, name) == t
  {
    FindsIt(t.syms, name);
  }

  lemma {:induction false} FindsIt(t: seq<string>, s: string)
    requires s in t
    ensures Find(t, s) < |t|
  {
    if t[0] != s {
      assert s in t[1..];
      FindsIt(t[1..], s);
    }
  }

  lemma {:induction false} FindStable(t: seq<string>, u: seq<string>, s: string)
    requires t <= u && s in t
    ensures Find(u, s) == Find(t, s)
  {
    if t[0] != s {
      assert s in t[1..];
      FindStable(t[1..], u[1..], s);
    }
  }

  lemma Interned(t: Tabs, s: string)
    ensures s in AddSym(t, s).syms && Extends(t, AddSym(t, s))
  {
  }
}
