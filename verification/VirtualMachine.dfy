/** The VM as it runs: an evaluation stack, DO counters, variables and call frames updated in place by a dispatch loop. */
module VirtualMachine {
  import opened Options
  import opened NumberText
  import opened ArithOps
  import opened IntegerFastPath
  import opened Bytecode
  import opened VmValues
  import opened VarPool
  import opened CoreVm
  import opened ExprCode
  import opened StmtEmit
  import opened TraceMap
  import opened Activation
  import Programs

  /** How an instruction ended. */
  datatype Signal = Went | Trapped(num: nat) | Unset | Left(rc: int) | Broke(why: Abend) | Beyond

  predicate Says(x: CoreVm.Next, s: Signal, c: Core)
  {
    c == x.c
    && match x
       case Run(_) => s.Went?
       case Trap(n, _) => s == Trapped(n)
       case Novalue(_, _) => s.Unset?
       case Exit(rc, _) => s == Left(rc)
       case Abort(w, _) => s == Broke(w)
       case Outside(_, _) => s.Beyond?
  }

  class Vm {
    const p: Program
    const stack: array<Cell>
    var pc: int
    var sp: nat
    var counters: array<int>
    var pools: Pools
    var out: seq<string>
    var frames: seq<Frame>
    var base: nat
    var traps: Traps
    var args: seq<string>

    ghost predicate Valid()
      reads this, stack, counters
    {
      stack.Length == STACK_DEPTH && sp <= STACK_DEPTH && counters.Length > 0 && exists n :: MarksOk(p.marks, n)
    }

    ghost function Now(): Core
      reads this, stack, counters
      requires Valid()
    {
      Core(pc, stack[..sp], pools, counters[..], out)
    }

    ghost function Abs(): Machine
      reads this, stack, counters
      requires Valid()
    {
      Machine(Now(), frames, base, traps, args)
    }

    constructor (p: Program)
      requires exists n :: MarksOk(p.marks, n)
      ensures Valid() && fresh(stack) && fresh(counters) && this.p == p
      ensures Abs() == Machine(Core(0, [], [Scope(map[], {})], Programs.Zeroes(DO_DEPTH), []), [], 0, Traps({}, seq(COND_COUNT, _ => -1)), p.topArgs)
    {
      this.p := p;
      stack := new Cell[STACK_DEPTH](_ => Cell("", None));
      counters := new int[DO_DEPTH](_ => 0);
      pc, sp, pools, out := 0, 0, [Scope(map[], {})], [];
      frames, base, traps, args := [], 0, Traps({}, seq(COND_COUNT, _ => -1)), p.topArgs;
      new;
      assert counters[..] == Programs.Zeroes(DO_DEPTH);
    }

    // ---- The stack -----------------------------------------------------------------

    method PushCell(v: Cell)
      requires Valid() && sp < STACK_DEPTH
      modifies this`sp, stack
      ensures Valid() && Now() == old(Now()).(stack := old(Now()).stack + [v])
    {
      stack[sp] := v;
      sp := sp + 1;
    }

    method Answered(a: Answer) returns (s: Signal)
      requires Valid() && sp < STACK_DEPTH
      modifies this`sp, stack
      ensures Valid() && Says(Give(old(Now()), a), s, Now())
    {
      match a {
        case Ok(t) =>
          PushCell(Plain(t));
          s := Went;
        case Fail(k) => s := Trapped(k);
      }
    }

    /** An operator on the two topmost cells: the integer shortcut, or the engine. */
    method DoBinary(op: BinOp, e: Env) returns (s: Signal)
      requires Valid()
      modifies this`sp, stack
      ensures Valid() && Says(Binary(op, old(Now()), e), s, Now())
    {
      hide Apply, Shortcut;
      if sp < 2 { return Broke(StackError); }
      var a, b := stack[sp - 2], stack[sp - 1];
      var fast := Shortcut(op, a, b, e);
      ghost var below := Pop(Now(), 2);
      sp := sp - 2;
      assert Now() == below;
      match fast {
        case Some(v) =>
          PushCell(v);
          s := Went;
        case None =>
          var r := Operate(op, a.text, b.text, e.num);
          s := Answered(r);
      }
    }

    static method Operate(op: BinOp, a: string, b: string, n: Settings) returns (r: Answer)
      ensures r == Apply(op, a, b, n)
    {
      hide ArithOp, LooseCompare, TextCompare;
      if Arithmetic(op) {
        var o := IrxArithOp(ArithCode(op), a, b, n);
        r := Numbered(o);
      } else {
        r := Apply(op, a, b, n);
      }
    }

    // ---- DO counters -----------------------------------------------------------------

    /** vm_grow_counters: doubled until there is room for `need`. */
    method GrowCounters(need: nat)
      requires Valid()
      modifies this`counters
      ensures Valid() && counters[..] == Grown(old(counters[..]), need) && need < counters.Length
      ensures counters == old(counters) || fresh(counters)
    {
      hide Grown;
      ghost var was := counters[..];
      GrownStep(was, need);
      while counters.Length <= need
        invariant Valid() && Grown(counters[..], need) == Grown(was, need)
        invariant counters == old(counters) || fresh(counters)
        decreases need + 1 - counters.Length
      {
        ghost var cs := counters[..];
        GrownStep(cs, need);
        var bigger := new int[2 * counters.Length](_ => 0);
        var i := 0;
        while i < counters.Length
          invariant 0 <= i <= counters.Length && bigger.Length == 2 * counters.Length
          invariant forall k :: 0 <= k < i ==> bigger[k] == counters[k]
          invariant forall k :: i <= k < bigger.Length ==> bigger[k] == 0
          modifies bigger
        {
          bigger[i] := counters[i];
          i := i + 1;
        }
        assert bigger[..] == cs + seq(|cs|, _ => 0);
        counters := bigger;
      }
      GrownStep(counters[..], need);
    }

    static lemma GrownStep(cs: seq<int>, need: nat)
      requires |cs| > 0
      ensures Grown(cs, need) == if need < |cs| then cs else Grown(cs + seq(|cs|, _ => 0), need)
    {
    }

    method DoForInit(n: nat) returns (s: Signal)
      requires Valid()
      modifies this`counters, stack, counters
      ensures Valid() && Says(ForInit(n, old(Now()), Env(p.fast, p.num, base, false)), s, Now())
      ensures counters == old(counters) || fresh(counters)
    {
      hide Grown, CountOf;
      if sp < 1 { return Broke(StackError); }
      if n >= DO_DEPTH { return Broke(LoopError); }
      ghost var c := Now();
      if base + n >= counters.Length { GrowCounters(base + n); } else { GrownStep(counters[..], base + n); }
      var k := CellCount(stack[sp - 1]);
      ghost var cs := counters[..];
      counters[base + n] := k;
      assert counters[..] == cs[base + n := k];
      stack[sp - 1] := Plain(Truth(k > 0));
      s := Went;
    }

    method DoDecFor(n: nat, off: int) returns (s: Signal)
      requires Valid()
      modifies this`pc, counters
      ensures Valid() && Says(DecFor(n, off, old(Now()), Env(p.fast, p.num, base, false)), s, Now())
    {
      if n >= DO_DEPTH || base + n >= counters.Length { return Broke(LoopError); }
      ghost var cs := counters[..];
      counters[base + n] := counters[base + n] - 1;
      assert counters[..] == cs[base + n := cs[base + n] - 1];
      if counters[base + n] <= 0 { pc := pc + off; }
      s := Went;
    }

    // ---- Core instructions ----------------------------------------------------------------

    method DoLoad(i: int, e: Env) returns (s: Signal)
      requires Valid()
      modifies this`sp, stack
      ensures Valid() && Says(Perform(p.im.tabs, e, ILoad(i), old(Now())), s, Now())
    {
      if sp >= STACK_DEPTH { return Broke(StackError); }
      var name := Entry(p.im.tabs.syms, i);
      if name.None? { return Broke(OpcodeError); }
      var v := Get(pools, name.value);
      if v.None? && e.novalue { return Unset; }
      PushCell(if v.Some? then v.value else Plain(name.value));
      s := Went;
    }

    method DoJumpIf(on: bool, off: int) returns (s: Signal)
      requires Valid()
      modifies this`sp, this`pc
      ensures Valid() && Says(JumpIf(on, off, old(Now())), s, Now())
    {
      if sp < 1 { return Broke(StackError); }
      var b := BoolOf(stack[sp - 1].text);
      ghost var below := Pop(Now(), 1);
      sp := sp - 1;
      assert Now() == below;
      if b.None? { return Trapped(SYNTAX_BAD_BOOL); }
      if b.value == on { pc := pc + off; }
      s := Went;
    }

    static predicate OnStack(i: Instr)
    {
      i.IPush? || i.IPop? || i.IDup? || i.IStore? || i.IDrop? || i.ISay? || i.IOmitted?
    }

    /** The instructions that push, pop or store. */
    method DoStack(i: Instr, e: Env) returns (s: Signal)
      requires Valid() && OnStack(i)
      modifies this`sp, this`pools, this`out, stack
      ensures Valid() && Says(Perform(p.im.tabs, e, i, old(Now())), s, Now())
    {
      hide Literal, Owner;
      if i.IPush? {
        if sp >= STACK_DEPTH { return Broke(StackError); }
        var t := Entry(p.im.tabs.consts, i.k);
        if t.None? { return Broke(OpcodeError); }
        PushCell(Literal(t.value, e));
      } else if i.IPop? {
        if i.n < 0 || sp < i.n { return Broke(StackError); }
        ghost var below := Pop(Now(), i.n);
        sp := sp - i.n;
        assert Now() == below;
      } else if i.IDup? {
        if sp < 1 || sp >= STACK_DEPTH { return Broke(StackError); }
        PushCell(stack[sp - 1]);
      } else if i.IStore? {
        if sp < 1 { return Broke(StackError); }
        var name := Entry(p.im.tabs.syms, i.s);
        if name.None? { return Broke(OpcodeError); }
        ghost var below := Pop(Now(), 1);
        sp := sp - 1;
        assert Now() == below;
        pools := Set(pools, name.value, stack[sp]);
      } else if i.IDrop? {
        var name := Entry(p.im.tabs.syms, i.s);
        if name.None? { return Broke(OpcodeError); }
        pools := Drop(pools, name.value);
      } else if i.IOmitted? {
        if sp >= STACK_DEPTH { return Broke(StackError); }
        PushCell(Plain(""));
      } else {
        if sp < 1 { return Broke(StackError); }
        ghost var below := Pop(Now(), 1);
        sp := sp - 1;
        assert Now() == below;
        out := out + [stack[sp].text];
      }
      s := Went;
    }

    method DoUnary(i: Instr, e: Env) returns (s: Signal)
      requires Valid() && (i.INeg? || i.INot?)
      modifies this`sp, stack
      ensures Valid() && Says(Perform(p.im.tabs, e, i, old(Now())), s, Now())
    {
      hide Complement, ArithOp;
      if sp < 1 { return Broke(StackError); }
      var a := stack[sp - 1].text;
      ghost var below := Pop(Now(), 1);
      sp := sp - 1;
      assert Now() == below;
      var r: Answer;
      if i.INeg? {
        var o := IrxArithOp(OpNeg, a, "", e.num);
        r := Numbered(o);
      } else {
        r := Complement(a);
      }
      s := Answered(r);
    }

    method DoExit(withCode: bool) returns (s: Signal)
      requires Valid()
      modifies this`sp
      ensures Valid() && Says(Perform(p.im.tabs, Env(p.fast, p.num, base, false), if withCode then IExitRc else IExit, old(Now())), s, Now())
    {
      hide ExitCode;
      if !withCode || sp == 0 { return Left(0); }
      ghost var below := Pop(Now(), 1);
      sp := sp - 1;
      assert Now() == below;
      s := Left(ExitCode(stack[sp].text));
    }

    /** The instructions of counted loops. */
    method DoLoop(i: Instr, e: Env) returns (s: Signal)
      requires Valid() && e.fast == p.fast && e.num == p.num && e.base == base && (i.IForInit? || i.IDecFor?)
      modifies this`pc, this`sp, this`counters, stack, counters
      ensures Valid() && Says(Perform(p.im.tabs, e, i, old(Now())), s, Now())
      ensures counters == old(counters) || fresh(counters)
    {
      hide ForInit, DecFor;
      if i.n < 0 { return Broke(LoopError); }
      if i.IForInit? {
        ForInitAnyEnv(i.n, Now(), e);
        s := DoForInit(i.n);
      } else {
        DecForAnyEnv(i.n, i.off, Now(), e);
        s := DoDecFor(i.n, i.off);
      }
    }

    /** Everything the core machine does; pc is already behind the instruction. */
    method DoCore(i: Instr, e: Env) returns (s: Signal)
      requires Valid() && e.fast == p.fast && e.num == p.num && e.base == base
      modifies this`pc, this`sp, this`pools, this`out, this`counters, stack, counters
      ensures Valid() && Says(Perform(p.im.tabs, e, i, old(Now())), s, Now())
      ensures counters == old(counters) || fresh(counters)
    {
      if OnStack(i) {
        s := DoStack(i, e);
        return;
      }
      if i.IJump? || i.IRaise? || i.IOther? || i.INop? || i.INewClause? || i.ILabel? {
        s := DoPlain(i, e);
        return;
      }
      hide Binary, ForInit, DecFor, JumpIf, Give, ExitCode, Owner, Literal, Load, Push;
      match i {
        case IExit => s := DoExit(false);
        case IExitRc => s := DoExit(true);
        case ILoad(k) => s := DoLoad(k, e);
        case IBin(op) => s := DoBinary(op, e);
        case INeg => s := DoUnary(i, e);
        case INot => s := DoUnary(i, e);
        case IJumpIf(on, off) => s := DoJumpIf(on, off);
        case IForInit(_) => s := DoLoop(i, e);
        case IDecFor(_, _) => s := DoLoop(i, e);
        case _ => s := Beyond;
      }
    }

    /** Instructions that only move on or raise an error. */
    method DoPlain(i: Instr, e: Env) returns (s: Signal)
      requires Valid() && (i.IJump? || i.IRaise? || i.IOther? || i.INop? || i.INewClause? || i.ILabel?)
      modifies this`pc
      ensures Valid() && Says(Perform(p.im.tabs, e, i, old(Now())), s, Now())
    {
      hide Binary, ForInit, DecFor, JumpIf, Give, ExitCode, Owner, Literal, Load, Push;
      match i {
        case IJump(_, off) =>
          pc := pc + off;
          s := Went;
        case IRaise(n) => s := if n < 0 then Broke(OpcodeError) else Trapped(n);
        case IOther(_) => s := Broke(OpcodeError);
        case INop(_) => s := Went;
        case INewClause => s := Went;
        case ILabel(_) => s := Went;
      }
    }

    static lemma ForInitAnyEnv(n: nat, c: Core, e: Env)
      ensures ForInit(n, c, e) == ForInit(n, c, Env(e.fast, e.num, e.base, false))
    {
      hide Grown, CellCount;
    }

    static lemma DecForAnyEnv(n: nat, off: int, c: Core, e: Env)
      ensures DecFor(n, off, c, e) == DecFor(n, off, c, Env(e.fast, e.num, e.base, false))
    {
    }

    // ---- SIGNAL and traps -------------------------------------------------------------------

    method SetSigl()
      requires Valid()
      modifies this`pools
      ensures Valid() && Now() == old(Now()).(pools := WithSigl(p, old(pools), pc))
    {
      hide LastAt, I32Text, Set;
      if pc <= 0 { return; }
      var i := LineAt(p.marks, pc - 1);
      if i >= 0 { pools := Set(pools, "SIGL", Plain(I32Text(p.marks[i].line))); }
    }

    /** Leave every frame, innermost first; then the label, with an empty stack. */
    method JumpTo(target: int)
      requires Valid()
      modifies this`pc, this`sp, this`pools, this`frames, this`base, this`args
      ensures Valid() && Abs() == Jump(p, old(Abs()), target)
    {
      hide WithSigl, Unwind;
      var i := |frames|;
      ghost var was := pools;
      assert frames[..|frames|] == frames;
      while i > 0
        invariant 0 <= i <= |frames| && Unwind(pools, frames[..i]) == Unwind(was, frames)
        modifies this`pools
      {
        i := i - 1;
        UnwindStep(pools, frames[..i + 1]);
        assert frames[..i + 1][..i] == frames[..i];
        if frames[i].scope.Some? { pools := Down(pools, frames[i].scope.value); }
      }
      assert frames[..0] == [];
      UnwindNone(pools);
      frames, base, args, sp := [], 0, p.topArgs, 0;
      SetSigl();
      pc := target;
      assert stack[..0] == [];
    }

    static lemma UnwindStep(q: Pools, fs: seq<Frame>)
      requires fs != []
      ensures var f := fs[|fs| - 1];
              Unwind(q, fs) == Unwind(if f.scope.Some? then Down(q, f.scope.value) else q, fs[..|fs| - 1])
    {
    }

    static lemma UnwindNone(q: Pools)
      ensures Unwind(q, []) == q
    {
    }

    method FireTrap(cond: nat)
      requires Valid() && Armed(p, traps, cond)
      modifies this`pc, this`sp, this`pools, this`frames, this`base, this`args, this`traps
      ensures Valid() && Abs() == Fire(p, old(Abs()), cond)
    {
      hide Jump;
      JumpTo(LabelOf(p, traps.handlers[cond]));
      traps := traps.(enabled := traps.enabled - {cond});
    }

    method RaiseSyntax(num: nat) returns (e: Option<Ending>)
      requires Valid()
      modifies this`pc, this`sp, this`pools, this`frames, this`base, this`args, this`traps
      ensures Valid() && StepIs(Raise(p, old(Abs()), num), e, Abs())
    {
      hide Fire, Set, I32Text;
      if !Armed(p, traps, SYNTAX) { return Some(Error(num)); }
      FireTrap(SYNTAX);
      pools := Set(pools, "RC", Plain(I32Text(num)));
      e := None;
    }

    // ---- Calls --------------------------------------------------------------------------------

    /** The texts of the n topmost cells, lowest first. */
    method Arguments(n: nat) returns (a: seq<string>)
      requires Valid() && n <= sp
      ensures a == Texts(stack[..sp][sp - n..])
    {
      a := [];
      var i := 0;
      while i < n
        invariant 0 <= i <= n && |a| == i && forall k :: 0 <= k < i ==> a[k] == stack[sp - n + k].text
      {
        a := a + [stack[sp - n + i].text];
        i := i + 1;
      }
      assert a == Texts(stack[..sp][sp - n..]);
    }

    method EnterLabel(nargs: nat, push: bool, target: int)
      requires Valid() && nargs <= sp
      modifies this`pc, this`sp, this`pools, this`frames, this`base, this`args
      ensures Valid() && Abs() == Enter(p, old(Abs()), nargs, push, target)
    {
      hide WithSigl, SiteDepth, Texts;
      var a := Arguments(nargs);
      frames := frames + [Frame(pc, a, push, traps, base, None)];
      sp := sp - nargs;
      assert stack[..sp] == old(stack[..sp])[..sp];
      args := a;
      var d := ReadSiteDepth(p.marks, pc);
      base := base + d;
      SetSigl();
      pc := target;
    }

    method CallBuiltIn(name: string, nargs: nat, push: bool) returns (e: Option<Ending>)
      requires Valid() && nargs <= sp
      modifies this`pc, this`sp, this`pools, this`frames, this`base, this`args, this`traps, stack
      ensures Valid() && StepIs(CallBif(p, old(Abs()), name, nargs, push), e, Abs())
    {
      hide Set, Raise, Texts;
      if push && sp - nargs + 1 > STACK_DEPTH { return Some(Broken(StackError)); }
      var a := Arguments(nargs);
      var answer := Ask(p, name, a);
      if answer.Missing? || answer.Miscalled? { return Some(NoRoutine); }
      Discard(nargs);
      if answer.Failed? {
        e := RaiseSyntax(answer.num);
      } else if push {
        PushCell(Plain(answer.text));
        e := None;
      } else {
        pools := Set(pools, "RESULT", Plain(answer.text));
        e := None;
      }
    }

    method Discard(n: nat)
      requires Valid() && n <= sp
      modifies this`sp
      ensures Valid() && Now() == Pop(old(Now()), n)
    {
      ghost var below := Pop(Now(), n);
      sp := sp - n;
      assert Now() == below;
    }

    method DoCall(s: int, nargs: int, push: bool) returns (e: Option<Ending>)
      requires Valid()
      modifies this`pc, this`sp, this`pools, this`frames, this`base, this`args, this`traps, stack
      ensures Valid() && StepIs(Call(p, old(Abs()), s, nargs, push), e, Abs())
    {
      hide Enter, CallBif, Raise;
      if !(0 <= nargs <= sp) { return Some(Broken(StackError)); }
      var target := LabelOf(p, s);
      if target >= 0 {
        if |frames| >= CALL_MAX {
          e := RaiseSyntax(SYNTAX_CTL_STACK as nat);
          return;
        }
        EnterLabel(nargs, push, target);
        return None;
      }
      var name := Entry(p.im.tabs.syms, s);
      if name.None? { return Some(Broken(OpcodeError)); }
      e := CallBuiltIn(name.value, nargs, push);
    }

    /** Drop the innermost frame. */
    method LeaveFrame()
      requires Valid() && frames != []
      modifies this`pc, this`pools, this`frames, this`base, this`args, this`traps
      ensures Valid() && Abs() == Leave(p, old(Abs()))
    {
      var n := |frames| - 1;
      var f := frames[n];
      frames := frames[..n];
      base, traps := f.base, f.traps;
      if f.scope.Some? { pools := Down(pools, f.scope.value); }
      pc := f.returnPc;
      args := if n > 0 then frames[n - 1].args else p.topArgs;
    }

    method DoReturn() returns (e: Option<Ending>)
      requires Valid()
      modifies this`pc, this`pools, this`frames, this`base, this`args, this`traps
      ensures Valid() && StepIs(Return(p, old(Abs())), e, Abs())
    {
      hide Leave, Drop;
      if frames == [] { return Some(Activation.Done(0)); }
      var isolated := frames[|frames| - 1].scope.Some?;
      LeaveFrame();
      if !isolated { pools := Drop(pools, "RESULT"); }
      e := None;
    }

    method DoReturnValue() returns (e: Option<Ending>)
      requires Valid()
      modifies this`pc, this`sp, this`pools, this`frames, this`base, this`args, this`traps, stack
      ensures Valid() && StepIs(ReturnValue(p, old(Abs())), e, Abs())
    {
      hide Leave, Set;
      if sp < 1 { return Some(Broken(StackError)); }
      ghost var below := Pop(Now(), 1);
      sp := sp - 1;
      var v := stack[sp];
      assert Now() == below;
      if frames == [] {
        pools := Set(pools, "RESULT", v);
        return Some(Activation.Done(0));
      }
      var push := frames[|frames| - 1].pushResult;
      LeaveFrame();
      pools := Set(pools, "RESULT", v);
      if push { PushCell(v); }
      e := None;
    }

    /** PROCEDURE, and the names it exposes. */
    method DoScope(i: Instr) returns (e: Option<Ending>)
      requires Valid() && (i.IProc? || i.IExpose?)
      modifies this`pools, this`frames
      ensures Valid() && StepIs(Activation.Outside(p, old(Abs()), i), e, Abs())
    {
      if i.IProc? {
        if frames == [] { return Some(Broken(OpcodeError)); }
        var n := |frames| - 1;
        frames := frames[n := frames[n].(scope := Some(|pools|))];
        pools := pools + [Scope(map[], {})];
      } else {
        var name := Entry(p.im.tabs.syms, i.s);
        if name.None? { return Some(Broken(OpcodeError)); }
        var k := |pools| - 1;
        pools := pools[k := pools[k].(exposed := pools[k].exposed + {name.value})];
      }
      e := None;
    }

    method DoOutside(i: Instr) returns (e: Option<Ending>)
      requires Valid()
      modifies this`pc, this`sp, this`pools, this`frames, this`base, this`args, this`traps, stack
      ensures Valid() && StepIs(Activation.Outside(p, old(Abs()), i), e, Abs())
    {
      hide Call, Return, ReturnValue, Procedure, Expose, Jump, CondIndex;
      e := None;
      match i {
        case ICall(s, n, inExpr) => e := DoCall(s, n, inExpr);
        case IReturn => e := DoReturn();
        case IReturnV => e := DoReturnValue();
        case ISignal(s) =>
          if LabelOf(p, s) < 0 { return Some(NoLabel); }
          JumpTo(LabelOf(p, s));
        case ISignalOn(c, s) =>
          if CondIndex(c) >= 0 && |traps.handlers| == COND_COUNT {
            traps := Traps(traps.enabled + {CondIndex(c)}, traps.handlers[CondIndex(c) := s]);
          }
        case ISignalOff(c) =>
          if CondIndex(c) >= 0 { traps := traps.(enabled := traps.enabled - {CondIndex(c)}); }
        case IProc => e := DoScope(i);
        case IExpose(_) => e := DoScope(i);
        case _ => e := Some(NotModelled);
      }
    }

    // ---- Dispatch --------------------------------------------------------------------------------

    /** One instruction. */
    method Advance() returns (e: Option<Ending>)
      requires Valid()
      modifies this, stack, counters
      ensures Valid() && StepIs(Activation.Next(p, old(Abs())), e, Abs())
      ensures counters == old(counters) || fresh(counters)
    {
      hide Perform, Decode, OpSize, Activation.Outside, Raise, Fire, Says, Armed;
      ghost var m := Abs();
      var env := Env(p.fast, p.num, base, Armed(p, traps, NOVALUE));
      if !(0 <= pc < |p.im.code|) { return Some(Broken(WildPc)); }
      var i := Decode(p.im.code, pc);
      pc := pc + OpSize(p.im.code[pc]);
      ghost var x := CoreStep(p.im, EnvOf(p, m), m.core);
      var s := DoCore(i, env);
      assert Says(x, s, Now());
      Said(x, s, Now());
      assert Abs() == m.(core := x.c);
      match s {
        case Went => e := None;
        case Trapped(k) => e := RaiseSyntax(k);
        case Unset =>
          if !Armed(p, traps, NOVALUE) { return Some(NotModelled); }
          FireTrap(NOVALUE);
          e := None;
        case Left(rc) => e := Some(Activation.Done(rc));
        case Broke(w) => e := Some(Broken(w));
        case Beyond =>
          OutsideIs(p.im, EnvOf(p, m), m.core);
          e := DoOutside(i);
      }
    }

    static lemma Said(x: CoreVm.Next, s: Signal, c: Core)
      requires Says(x, s, c)
      ensures c == x.c
      ensures (s.Went? <==> x.Run?) && (s.Trapped? <==> x.Trap?) && (s.Unset? <==> x.Novalue?) && (s.Left? <==> x.Exit?)
              && (s.Broke? <==> x.Abort?) && (s.Beyond? <==> x.Outside?)
      ensures x.Trap? ==> s.num == x.num
      ensures x.Exit? ==> s.rc == x.rc
      ensures x.Abort? ==> s.why == x.why
    {
    }

    static lemma OutsideIs(im: Image, e: Env, c: Core)
      requires CoreStep(im, e, c).Outside? && 0 <= c.pc < |im.code|
      ensures CoreStep(im, e, c).i == Decode(im.code, c.pc)
    {
      hide Decode, Apply, Shortcut, CountOf, OpSize, Owner, Negate, Complement, Get, CellCount, Literal, ExitCode, BoolOf, Grown;
    }

    /** At most n instructions: what the step function does in as many. */
    method Run(n: nat) returns (e: Option<Ending>)
      requires Valid()
      modifies this, stack, counters
      ensures Valid() && StepIs(Machines(p, n, old(Abs())), e, Abs())
      ensures counters == old(counters) || fresh(counters)
    {
      hide Activation.Next, StepIs, Machines;
      ghost var m := Abs();
      var k := 0;
      e := None;
      MachinesNone(p, m);
      while k < n
        invariant 0 <= k <= n && Valid() && e.None? && Machines(p, n, m) == Machines(p, n - k, Abs())
        invariant counters == old(counters) || fresh(counters)
      {
        MachinesOne(p, n - k, Abs());
        ghost var was := Abs();
        e := Advance();
        Stepped(Activation.Next(p, was), e, Abs());
        if e.Some? {
          Finished(Machines(p, n, m), e, Abs());
          return;
        }
        k := k + 1;
      }
      MachinesNone(p, Abs());
      Ongoing(Abs());
    }

    static lemma MachinesNone(p: Program, m: Machine)
      ensures Machines(p, 0, m) == Going(m)
    {
    }

    static lemma MachinesOne(p: Program, n: nat, m: Machine)
      requires n > 0
      ensures Machines(p, n, m) == match Activation.Next(p, m) case Going(m1) => Machines(p, n - 1, m1) case Ended(e, m1) => Ended(e, m1)
    {
    }

    static lemma Stepped(x: Step, e: Option<Ending>, m: Machine)
      requires StepIs(x, e, m)
      ensures if e.None? then x == Going(m) else x == Ended(e.value, m)
    {
    }

    static lemma Finished(x: Step, e: Option<Ending>, m: Machine)
      requires e.Some? && x == Ended(e.value, m)
      ensures StepIs(x, e, m)
    {
    }

    static lemma Ongoing(m: Machine)
      ensures StepIs(Going(m), None, m)
    {
    }
  }

  /** e and m are what the step function gives. */
  predicate StepIs(x: Step, e: Option<Ending>, m: Machine)
  {
    match x
    case Going(u) => e.None? && m == u
    case Ended(k, u) => e == Some(k) && m == u
  }
}
