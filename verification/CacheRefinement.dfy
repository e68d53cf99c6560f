/** The integer cache changes how fast the VM is, never what it computes: erasing the caches
from the VM that keeps them gives, step by step, the VM that has none. */
module CacheRefinement {
  import opened Options
  import opened NumberText
  import opened AddSubMul
  import opened ArithOps
  import opened Comparison
  import opened IntegerFastPath
  import opened Bytecode
  import opened VmValues
  import opened VarPool
  import opened CoreVm

  predicate CellsOk(s: seq<Cell>) { forall i :: 0 <= i < |s| ==> CacheOk(s[i]) }

  predicate ScopeOk(s: Scope) { forall n :: n in s.vars ==> CacheOk(s.vars[n]) }

  predicate PoolsOk(p: seq<Scope>) { forall i :: 0 <= i < |p| ==> ScopeOk(p[i]) }

  /** Every cached integer, on the stack or in a variable, is the integer its text stands for. */
  predicate CoreOk(c: Core) { CellsOk(c.stack) && PoolsOk(c.pools) }

  function EraseCell(v: Cell): Cell { Plain(v.text) }

  function EraseCells(s: seq<Cell>): (r: seq<Cell>)
    ensures |r| == |s|
  {
    seq(|s|, i requires 0 <= i < |s| => EraseCell(s[i]))
  }

  function EraseScope(s: Scope): Scope
  {
    s.(vars := map n | n in s.vars :: EraseCell(s.vars[n]))
  }

  function ErasePools(p: Pools): (r: Pools)
    ensures |r| == |p|
  {
    seq(|p|, i requires 0 <= i < |p| => EraseScope(p[i]))
  }

  function Erase(c: Core): Core
  {
    c.(stack := EraseCells(c.stack), pools := ErasePools(c.pools))
  }

  function EraseNext(x: Next): Next
  {
    match x
    case Run(c) => Run(Erase(c))
    case Trap(n, c) => Trap(n, Erase(c))
    case Novalue(s, c) => Novalue(s, Erase(c))
    case Exit(rc, c) => Exit(rc, Erase(c))
    case Abort(w, c) => Abort(w, Erase(c))
    case Outside(i, c) => Outside(i, Erase(c))
  }

  lemma EraseOwner(p: Pools, name: string)
    ensures Owner(ErasePools(p), name) == Owner(p, name)
  {
    OwnerSame(ErasePools(p), p, name);
  }

  lemma EraseGet(p: Pools, name: string)
    requires PoolsOk(p)
    ensures Get(ErasePools(p), name) == match Get(p, name) case None => None case Some(v) => Some(EraseCell(v))
    ensures Get(p, name).Some? ==> CacheOk(Get(p, name).value)
  {
    hide Owner, CacheOk;
    EraseOwner(p, name);
    assert ScopeOk(p[Owner(p, name)]);
  }

  lemma EraseSet(p: Pools, name: string, v: Cell)
    requires PoolsOk(p) && CacheOk(v)
    ensures ErasePools(Set(p, name, v)) == Set(ErasePools(p), name, EraseCell(v)) && PoolsOk(Set(p, name, v))
  {
    hide Owner, CacheOk;
    EraseOwner(p, name);
    var i := Owner(p, name);
    var q := Set(p, name, v);
    assert EraseScope(q[i]).vars == EraseScope(p[i]).vars[name := EraseCell(v)];
    assert ErasePools(q) == Set(ErasePools(p), name, EraseCell(v));
    assert forall j :: 0 <= j < |q| && j != i ==> q[j] == p[j];
    assert ScopeOk(p[i]);
  }

  lemma EraseDrop(p: Pools, name: string)
    requires PoolsOk(p)
    ensures ErasePools(Drop(p, name)) == Drop(ErasePools(p), name) && PoolsOk(Drop(p, name))
  {
    hide Owner, CacheOk;
    EraseOwner(p, name);
    var i := Owner(p, name);
    var q := Drop(p, name);
    assert EraseScope(q[i]).vars == EraseScope(p[i]).vars - {name};
    assert ErasePools(q) == Drop(ErasePools(p), name);
    assert forall j :: 0 <= j < |q| && j != i ==> q[j] == p[j];
    assert ScopeOk(p[i]);
  }

  /** x, from the VM with caches, is what y is from the one without, and its caches are right. */
  predicate Matches(x: Next, y: Next)
  {
    y == EraseNext(x) && CoreOk(x.c)
  }

  lemma PushMatches(c: Core, v: Cell)
    requires CoreOk(c) && CacheOk(v)
    ensures Matches(Push(c, v), Push(Erase(c), EraseCell(v)))
    ensures CoreOk(c.(stack := c.stack + [v]))
    ensures Erase(c.(stack := c.stack + [v])) == Erase(c).(stack := Erase(c).stack + [EraseCell(v)])
  {
    hide CacheOk;
    assert EraseCells(c.stack + [v]) == EraseCells(c.stack) + [EraseCell(v)];
  }

  lemma PopMatches(c: Core, n: nat)
    requires CoreOk(c) && n <= |c.stack|
    ensures Erase(Pop(c, n)) == Pop(Erase(c), n) && CoreOk(Pop(c, n))
    ensures forall k: nat :: k < |c.stack| ==> Top(Erase(c), k) == EraseCell(Top(c, k)) && CacheOk(Top(c, k))
  {
    hide CacheOk;
    assert EraseCells(c.stack[..|c.stack| - n]) == EraseCells(c.stack)[..|c.stack| - n];
  }

  lemma GiveMatches(c: Core, a: Answer)
    requires CoreOk(c)
    ensures Matches(Give(c, a), Give(Erase(c), a))
  {
    if a.Ok? { PushMatches(c, Plain(a.text)); }
  }

  /** Where the shortcut applies, it gives what the operator gives. */
  lemma ShortcutIsApply(op: BinOp, a: Cell, b: Cell, e: Env)
    requires CacheOk(a) && CacheOk(b) && Shortcut(op, a, b, e).Some?
    ensures Apply(op, a.text, b.text, e.num) == Ok(Shortcut(op, a, b, e).value.text)
    ensures CacheOk(Shortcut(op, a, b, e).value)
  {
    hide CacheOk, ArithOp, CompareText, TryFast;
    PlainIsOk(Truth(true));
    PlainIsOk(Truth(false));
    if Arithmetic(op) {
      FastPathRefinesEngine(ArithCode(op), a, b, e.num);
    } else {
      FastCompare(a, b, e.num);
    }
  }

  lemma PlainIsOk(s: string)
    ensures CacheOk(Plain(s))
  {
  }

  lemma BinaryMatches(op: BinOp, c: Core, e: Env)
    requires CoreOk(c)
    ensures Matches(Binary(op, c, e.(fast := true)), Binary(op, Erase(c), e.(fast := false)))
  {
    hide CacheOk, Apply, Shortcut, CoreOk, Erase;
    NoShortcut(op, c, e);
    if |c.stack| >= 2 {
      var a, b := Top(c, 1), Top(c, 0);
      PopMatches(c, 2);
      var s := Shortcut(op, a, b, e.(fast := true));
      if s.Some? {
        ShortcutIsApply(op, a, b, e.(fast := true));
        PushMatches(Pop(c, 2), s.value);
      } else {
        GiveMatches(Pop(c, 2), Apply(op, a.text, b.text, e.num));
      }
    }
  }

  lemma NoShortcut(op: BinOp, c: Core, e: Env)
    ensures forall a, b :: Shortcut(op, a, b, e.(fast := false)) == None
    ensures |Erase(c).stack| == |c.stack|
  {
  }

  lemma CountMatches(v: Cell)
    requires CacheOk(v)
    ensures CellCount(EraseCell(v)) == CellCount(v)
  {
    hide ParseInt32Fast, CountOf;
    if v.cache.Some? { CachedCount(v.text); }
  }

  lemma ForInitMatches(n: nat, c: Core, e: Env)
    requires CoreOk(c)
    ensures Matches(ForInit(n, c, e.(fast := true)), ForInit(n, Erase(c), e.(fast := false)))
  {
    hide CacheOk, CellCount, Grown;
    if |c.stack| >= 1 && n < DO_DEPTH {
      PopMatches(c, 1);
      CountMatches(Top(c, 0));
      var b := Plain(Truth(CellCount(Top(c, 0)) > 0));
      PlainIsOk(b.text);
      PushMatches(Pop(c, 1), b);
    }
  }

  lemma LoadMatches(name: string, c: Core, e: Env)
    requires CoreOk(c)
    ensures Matches(Load(name, c, e.(fast := true)), Load(name, Erase(c), e.(fast := false)))
  {
    hide CacheOk, Get;
    EraseGet(c.pools, name);
    PlainIsOk(name);
    if Get(c.pools, name).Some? { PushMatches(c, Get(c.pools, name).value); } else { PushMatches(c, Plain(name)); }
  }

  lemma StackMatches(t: Tabs, e: Env, i: Instr, c: Core)
    requires CoreOk(c)
    requires i.IPush? || i.IPop? || i.IDup? || i.ILoad? || i.IStore? || i.IDrop? || i.ISay? || i.IOmitted?
    ensures Matches(Perform(t, e.(fast := true), i, c), Perform(t, e.(fast := false), i, Erase(c)))
  {
    hide CacheOk, Load, Set, Drop, Literal;
    if |c.stack| >= 1 { PopMatches(c, 1); }
    match i {
      case IPush(k) =>
        if Entry(t.consts, k).Some? {
          LiteralIsOk(t.consts[k], e);
          PushMatches(c, Literal(t.consts[k], e.(fast := true)));
        }
      case IPop(n) => if 0 <= n <= |c.stack| { PopMatches(c, n); }
      case IDup => if |c.stack| >= 1 { PushMatches(c, Top(c, 0)); }
      case IOmitted =>
        PlainIsOk("");
        PushMatches(c, Plain(""));
      case ILoad(s) => if Entry(t.syms, s).Some? { LoadMatches(t.syms[s], c, e); }
      case IStore(s) => if |c.stack| >= 1 && Entry(t.syms, s).Some? { EraseSet(c.pools, t.syms[s], Top(c, 0)); }
      case IDrop(s) => if Entry(t.syms, s).Some? { EraseDrop(c.pools, t.syms[s]); }
      case _ =>
    }
  }

  lemma LiteralIsOk(s: string, e: Env)
    ensures CacheOk(Literal(s, e.(fast := true)))
    ensures EraseCell(Literal(s, e.(fast := true))) == Literal(s, e.(fast := false))
  {
  }

  predicate Computes(i: Instr) { i.IBin? || i.INeg? || i.INot? || i.IForInit? || i.IJumpIf? }

  lemma ComputingMatches(t: Tabs, e: Env, i: Instr, c: Core)
    requires CoreOk(c) && Computes(i)
    ensures Matches(Perform(t, e.(fast := true), i, c), Perform(t, e.(fast := false), i, Erase(c)))
  {
    hide CacheOk, Negate, Complement, Binary, ForInit, Load, BoolOf, JumpIf, CellsOk, PoolsOk, EraseCells, ErasePools, Give,
         Matches, Erase, CoreOk;
    SameLength(c);
    BrokenMatches(StackError, c);
    if |c.stack| >= 1 { PopMatches(c, 1); }
    match i {
      case IBin(op) => BinaryMatches(op, c, e);
      case INeg => if |c.stack| >= 1 { GiveMatches(Pop(c, 1), Negate(Top(c, 0).text, e.num)); }
      case INot => if |c.stack| >= 1 { GiveMatches(Pop(c, 1), Complement(Top(c, 0).text)); }
      case IJumpIf(on, off) => JumpIfMatches(on, off, c);
      case IForInit(n) => if n >= 0 { ForInitMatches(n, c, e); } else { BrokenMatches(LoopError, c); }
    }
  }

  lemma BrokenMatches(why: Abend, c: Core)
    requires CoreOk(c)
    ensures Matches(Abort(why, c), Abort(why, Erase(c)))
  {
  }

  lemma OtherMatches(t: Tabs, e: Env, i: Instr, c: Core)
    requires CoreOk(c) && !Computes(i)
    requires !(i.IPush? || i.IPop? || i.IDup? || i.ILoad? || i.IStore? || i.IDrop? || i.ISay? || i.IOmitted?)
    ensures Matches(Perform(t, e.(fast := true), i, c), Perform(t, e.(fast := false), i, Erase(c)))
  {
    hide CacheOk, CellsOk, PoolsOk, EraseCells, ErasePools;
    SameLength(c);
    if |c.stack| >= 1 { PopMatches(c, 1); }
  }

  lemma SameLength(c: Core)
    ensures |Erase(c).stack| == |c.stack|
  {
  }

  lemma JumpIfMatches(on: bool, off: int, c: Core)
    requires CoreOk(c)
    ensures Matches(JumpIf(on, off, c), JumpIf(on, off, Erase(c)))
  {
    hide CacheOk, BoolOf, CellsOk, PoolsOk, EraseCells, ErasePools;
    SameLength(c);
    if |c.stack| >= 1 { PopMatches(c, 1); }
  }

  /** One step: caches stay right and erasing them commutes with the step. */
  lemma StepRefines(im: Image, e: Env, c: Core)
    requires CoreOk(c)
    ensures Matches(CoreStep(im, e.(fast := true), c), CoreStep(im, e.(fast := false), Erase(c)))
  {
    hide CacheOk, Perform, Decode, OpSize;
    if 0 <= c.pc < |im.code| {
      var i := Decode(im.code, c.pc);
      var c' := c.(pc := c.pc + OpSize(im.code[c.pc]));
      if i.IPush? || i.IPop? || i.IDup? || i.ILoad? || i.IStore? || i.IDrop? || i.ISay? || i.IOmitted? {
        StackMatches(im.tabs, e, i, c');
      } else if Computes(i) {
        ComputingMatches(im.tabs, e, i, c');
      } else {
        OtherMatches(im.tabs, e, i, c');
      }
    }
  }

  /** Whole runs: in every reachable state each cached integer is right, and the run with caches
  and shortcuts does exactly what the run without them does. */
  lemma {:induction false} RunRefines(im: Image, e: Env, n: nat, c: Core)
    requires CoreOk(c)
    ensures Matches(Steps(im, e.(fast := true), n, Run(c)), Steps(im, e.(fast := false), n, Run(Erase(c))))
    decreases n
  {
    hide CoreStep, CoreOk, Erase;
    if n > 0 {
      StepRefines(im, e, c);
      var x := CoreStep(im, e.(fast := true), c);
      if x.Run? { RunRefines(im, e, n - 1, x.c); }
    }
  }
}
