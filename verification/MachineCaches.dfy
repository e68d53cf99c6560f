/** The integer cache over whole runs: calls, returns, PROCEDURE, SIGNAL and traps carry cells across variable pools
and activations, and none of them lets a wrong integer through. */
module MachineCaches {
  import opened Options
  import opened NumberText
  import opened ArithOps
  import opened IntegerFastPath
  import opened Bytecode
  import opened VmValues
  import opened VarPool
  import opened CoreVm
  import opened CacheRefinement
  import opened TraceMap
  import opened Activation

  /** The same program on a VM without caches and shortcuts. */
  function Slow(p: Program): Program { p.(fast := false) }

  function EraseM(m: Machine): Machine { m.(core := Erase(m.core)) }

  function EraseS(s: Step): Step
  {
    match s case Going(m) => Going(EraseM(m)) case Ended(e, m) => Ended(e, EraseM(m))
  }

  /** x, from the VM with caches, is what y is from the one without, and its caches are right. */
  predicate MatchesM(x: Step, y: Step)
  {
    y == EraseS(x) && CoreOk(x.m.core)
  }

  // ---- The pools --------------------------------------------------------------------------

  lemma EraseSigl(p: Program, pools: Pools, pc: int)
    requires PoolsOk(pools)
    ensures ErasePools(WithSigl(p, pools, pc)) == WithSigl(Slow(p), ErasePools(pools), pc) && PoolsOk(WithSigl(p, pools, pc))
  {
    hide CacheOk, PoolsOk, Set, LastAt, I32Text;
    if pc > 0 && LastAt(p.marks, pc - 1) >= 0 {
      var v := Plain(I32Text(p.marks[LastAt(p.marks, pc - 1)].line));
      PlainIsOk(v.text);
      EraseSet(pools, "SIGL", v);
    }
  }

  lemma EraseTexts(s: seq<Cell>)
    ensures Texts(EraseCells(s)) == Texts(s)
  {
  }

  lemma EraseDown(pools: Pools, k: nat)
    requires PoolsOk(pools)
    ensures ErasePools(Down(pools, k)) == Down(ErasePools(pools), k) && PoolsOk(Down(pools, k))
  {
    hide CacheOk, ScopeOk;
    if 1 <= k <= |pools| { assert ErasePools(pools[..k]) == ErasePools(pools)[..k]; }
  }

  lemma {:induction false} EraseUnwind(pools: Pools, frames: seq<Frame>)
    requires PoolsOk(pools)
    ensures ErasePools(Unwind(pools, frames)) == Unwind(ErasePools(pools), frames) && PoolsOk(Unwind(pools, frames))
    decreases |frames|
  {
    hide CacheOk, PoolsOk, Down, ErasePools;
    if frames != [] {
      var f := frames[|frames| - 1];
      if f.scope.Some? {
        EraseDown(pools, f.scope.value);
        EraseUnwind(Down(pools, f.scope.value), frames[..|frames| - 1]);
      } else {
        EraseUnwind(pools, frames[..|frames| - 1]);
      }
    }
  }

  /** A machine that differs from m in its pools and its stack only, both right. */
  lemma CoreParts(c: Core, pools: Pools, stack: seq<Cell>)
    requires PoolsOk(pools) && CellsOk(stack)
    ensures CoreOk(c.(pools := pools, stack := stack))
    ensures Erase(c.(pools := pools, stack := stack)) == Erase(c).(pools := ErasePools(pools), stack := EraseCells(stack))
  {
  }

  // ---- SIGNAL and traps --------------------------------------------------------------------

  lemma JumpMatches(p: Program, m: Machine, target: int)
    requires CoreOk(m.core)
    ensures EraseM(Jump(p, m, target)) == Jump(Slow(p), EraseM(m), target) && CoreOk(Jump(p, m, target).core)
  {
    hide CacheOk, PoolsOk, CellsOk, ErasePools, EraseCells, WithSigl, Unwind;
    CoreIs(m.core);
    var q := Unwind(m.core.pools, m.frames);
    EraseUnwind(m.core.pools, m.frames);
    EraseSigl(p, q, m.core.pc);
    NoCells();
    CoreParts(m.core.(pc := target), WithSigl(p, q, m.core.pc), []);
  }

  lemma CoreIs(c: Core)
    ensures CoreOk(c) <==> CellsOk(c.stack) && PoolsOk(c.pools)
    ensures Erase(c) == c.(stack := EraseCells(c.stack), pools := ErasePools(c.pools))
  {
  }

  lemma NoCells()
    ensures CellsOk([]) && EraseCells([]) == []
  {
  }

  lemma RaiseMatches(p: Program, m: Machine, num: nat)
    requires CoreOk(m.core)
    ensures MatchesM(Raise(p, m, num), Raise(Slow(p), EraseM(m), num))
  {
    hide CacheOk, Jump, Set, I32Text, CoreOk, Erase;
    if Armed(p, m.traps, SYNTAX) {
      FireMatches(p, m, SYNTAX);
      SetMatches(Fire(p, m, SYNTAX).core, "RC", Plain(I32Text(num))) by { PlainIsOk(I32Text(num)); }
    }
  }

  lemma FireMatches(p: Program, m: Machine, cond: nat)
    requires CoreOk(m.core) && Armed(p, m.traps, cond)
    ensures EraseM(Fire(p, m, cond)) == Fire(Slow(p), EraseM(m), cond) && CoreOk(Fire(p, m, cond).core)
  {
    hide CoreOk, Erase, Jump;
    JumpMatches(p, m, LabelOf(p, m.traps.handlers[cond]));
  }

  lemma SetMatches(c: Core, name: string, v: Cell)
    requires CoreOk(c) && CacheOk(v)
    ensures var q := c.(pools := Set(c.pools, name, v));
            CoreOk(q) && Erase(q) == Erase(c).(pools := Set(Erase(c).pools, name, EraseCell(v)))
  {
    hide CacheOk, CellsOk, EraseCells, Set, PoolsOk, ErasePools;
    EraseSet(c.pools, name, v);
  }

  // ---- Calls ----------------------------------------------------------------------------------

  lemma EnterMatches(p: Program, m: Machine, nargs: nat, push: bool, target: int)
    requires CoreOk(m.core) && nargs <= |m.core.stack|
    ensures EraseM(Enter(p, m, nargs, push, target)) == Enter(Slow(p), EraseM(m), nargs, push, target)
    ensures CoreOk(Enter(p, m, nargs, push, target).core)
  {
    hide CacheOk, PoolsOk, WithSigl, SiteDepth, ErasePools, Texts;
    var c, k := m.core, |m.core.stack| - nargs;
    EraseSigl(p, c.pools, c.pc);
    TakenMatches(c.stack, k);
    CoreParts(c.(pc := target), WithSigl(p, c.pools, c.pc), c.stack[..k]);
  }

  lemma TakenMatches(s: seq<Cell>, k: nat)
    requires CellsOk(s) && k <= |s|
    ensures CellsOk(s[..k]) && EraseCells(s[..k]) == EraseCells(s)[..k]
    ensures Texts(EraseCells(s)[k..]) == Texts(s[k..])
  {
    hide CacheOk;
    assert EraseCells(s)[k..] == EraseCells(s[k..]);
    EraseTexts(s[k..]);
  }

  lemma CallBifMatches(p: Program, m: Machine, name: string, nargs: nat, push: bool)
    requires CoreOk(m.core) && nargs <= |m.core.stack|
    ensures MatchesM(CallBif(p, m, name, nargs, push), CallBif(Slow(p), EraseM(m), name, nargs, push))
  {
    hide CacheOk, Texts, Raise, Set, PoolsOk, ErasePools;
    var c, k := m.core, |m.core.stack| - nargs;
    TakenMatches(c.stack, k);
    var d := c.(stack := c.stack[..k]);
    CoreParts(c, c.pools, c.stack[..k]);
    match Ask(p, name, Texts(c.stack[k..])) {
      case Failed(n) => RaiseMatches(p, m.(core := d), n);
      case Value(v) =>
        PlainIsOk(v);
        PushMatches(d, Plain(v));
        SetMatches(d, "RESULT", Plain(v));
      case _ =>
    }
  }

  lemma CallMatches(p: Program, m: Machine, s: int, nargs: int, push: bool)
    requires CoreOk(m.core)
    ensures MatchesM(Call(p, m, s, nargs, push), Call(Slow(p), EraseM(m), s, nargs, push))
  {
    hide CoreOk, Enter, CallBif, Raise;
    SameStackLength(m.core);
    RaiseMatches(p, m, SYNTAX_CTL_STACK as nat);
    if 0 <= nargs <= |m.core.stack| {
      if LabelOf(p, s) >= 0 { EnterMatches(p, m, nargs, push, LabelOf(p, s)); }
      if Entry(p.im.tabs.syms, s).Some? { CallBifMatches(p, m, Entry(p.im.tabs.syms, s).value, nargs, push); }
    }
  }

  lemma SameStackLength(c: Core)
    ensures |Erase(c).stack| == |c.stack|
  {
  }

  lemma LeaveMatches(p: Program, m: Machine)
    requires CoreOk(m.core) && m.frames != []
    ensures EraseM(Leave(p, m)) == Leave(Slow(p), EraseM(m)) && CoreOk(Leave(p, m).core)
  {
    hide CacheOk, PoolsOk, CellsOk, ErasePools, EraseCells, Down;
    var f := m.frames[|m.frames| - 1];
    if f.scope.Some? { EraseDown(m.core.pools, f.scope.value); }
    CoreParts(m.core.(pc := f.returnPc), if f.scope.Some? then Down(m.core.pools, f.scope.value) else m.core.pools, m.core.stack);
  }

  lemma ReturnMatches(p: Program, m: Machine)
    requires CoreOk(m.core)
    ensures MatchesM(Return(p, m), Return(Slow(p), EraseM(m)))
  {
    hide CoreOk, Leave, Drop, Erase;
    if m.frames != [] {
      LeaveMatches(p, m);
      DropMatches(Leave(p, m).core, "RESULT");
    }
  }

  lemma DropMatches(c: Core, name: string)
    requires CoreOk(c)
    ensures var q := c.(pools := Drop(c.pools, name));
            CoreOk(q) && Erase(q) == Erase(c).(pools := Drop(Erase(c).pools, name))
  {
    hide CacheOk, CellsOk, EraseCells, Drop, PoolsOk, ErasePools;
    EraseDrop(c.pools, name);
  }

  /** RETURN with a value hands its cell on to RESULT and to the caller's stack, cached integer and all. */
  lemma ReturnValueMatches(p: Program, m: Machine)
    requires CoreOk(m.core)
    ensures MatchesM(ReturnValue(p, m), ReturnValue(Slow(p), EraseM(m)))
  {
    hide CoreOk, Leave, Set, Erase, CacheOk, Pop, Top;
    var c := m.core;
    SameStackLength(c);
    if |c.stack| >= 1 {
      PopMatches(c, 1);
      var v, m1 := Top(c, 0), m.(core := Pop(c, 1));
      assert Top(Erase(c), 0) == EraseCell(v) && CacheOk(v);
      PopKeepsPools(c);
      PopKeepsPools(Erase(c));
      if m.frames == [] {
        SetMatches(m1.core, "RESULT", v);
      } else {
        LeaveMatches(p, m1);
        var b := Leave(p, m1).core;
        SetMatches(b, "RESULT", v);
        PushMatches(b.(pools := Set(b.pools, "RESULT", v)), v);
      }
    }
  }

  lemma PopKeepsPools(c: Core)
    requires |c.stack| >= 1
    ensures Pop(c, 1).pools == c.pools
  {
  }

  // ---- PROCEDURE ------------------------------------------------------------------------------

  lemma ProcedureMatches(m: Machine)
    requires CoreOk(m.core)
    ensures MatchesM(Procedure(m), Procedure(EraseM(m)))
  {
    hide CacheOk, CellsOk, EraseCells;
    var pools := m.core.pools;
    var more := pools + [Scope(map[], {})];
    assert EraseScope(Scope(map[], {})) == Scope(map[], {});
    assert ErasePools(more) == ErasePools(pools) + [Scope(map[], {})];
    CoreParts(m.core, more, m.core.stack);
  }

  lemma ExposeMatches(p: Program, m: Machine, s: int)
    requires CoreOk(m.core)
    ensures MatchesM(Expose(p, m, s), Expose(Slow(p), EraseM(m), s))
  {
    hide CacheOk, CellsOk, EraseCells;
    if Entry(p.im.tabs.syms, s).Some? {
      var pools, k := m.core.pools, |m.core.pools| - 1;
      var q := pools[k := pools[k].(exposed := pools[k].exposed + {Entry(p.im.tabs.syms, s).value})];
      assert ScopeOk(pools[k]);
      assert forall i :: 0 <= i < k ==> q[i] == pools[i];
      assert EraseScope(q[k]) == EraseScope(pools[k]).(exposed := q[k].exposed);
      assert ErasePools(q) == ErasePools(pools)[k := EraseScope(q[k])];
      CoreParts(m.core, q, m.core.stack);
    }
  }

  // ---- Steps and runs ----------------------------------------------------------------------------

  lemma OutsideMatches(p: Program, m: Machine, i: Instr)
    requires CoreOk(m.core)
    ensures MatchesM(Activation.Outside(p, m, i), Activation.Outside(Slow(p), EraseM(m), i))
  {
    hide CoreOk, Erase, Call, Return, ReturnValue, Jump, Procedure, Expose, CondIndex, Armed;
    match i {
      case ICall(s, n, inExpr) => CallMatches(p, m, s, n, inExpr);
      case IReturn => ReturnMatches(p, m);
      case IReturnV => ReturnValueMatches(p, m);
      case ISignal(s) => JumpMatches(p, m, LabelOf(p, s));
      case IProc => ProcedureMatches(m);
      case IExpose(s) => ExposeMatches(p, m, s);
      case _ =>
    }
  }

  /** One instruction of any kind keeps every cached integer right, and erasing the caches commutes with it. */
  lemma NextMatches(p: Program, m: Machine)
    requires p.fast && CoreOk(m.core)
    ensures MatchesM(Activation.Next(p, m), Activation.Next(Slow(p), EraseM(m)))
  {
    hide CoreOk, Erase, CoreStep, Raise, Fire, Activation.Outside;
    var e := EnvOf(p, m);
    assert e == e.(fast := true) && EnvOf(Slow(p), EraseM(m)) == e.(fast := false);
    StepRefines(p.im, e, m.core);
    var x := CoreStep(p.im, e, m.core);
    var u := m.(core := x.c);
    match x {
      case Trap(num, c) => RaiseMatches(p, u, num);
      case Novalue(_, c) => if Armed(p, m.traps, NOVALUE) { FireMatches(p, u, NOVALUE); }
      case Outside(i, c) => OutsideMatches(p, u, i);
      case _ =>
    }
  }

  /** In every reachable state of every run each cached integer, on the stack and in the pools of all activations, is
  the integer its text stands for, and the VM without caches and shortcuts does the same, instruction by
  instruction. */
  lemma {:induction false} MachineRefines(p: Program, n: nat, m: Machine)
    requires p.fast && CoreOk(m.core)
    ensures CoreOk(Machines(p, n, m).m.core)
    ensures Machines(Slow(p), n, EraseM(m)) == EraseS(Machines(p, n, m))
    decreases n
  {
    hide CoreOk, Activation.Next, Erase;
    if n > 0 {
      NextMatches(p, m);
      var x := Activation.Next(p, m);
      if x.Going? { MachineRefines(p, n - 1, x.m); }
    }
  }
}
