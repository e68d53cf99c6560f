/** Internal calls, conditions and PROCEDURE on top of the core machine: what an activation may change of its
callers, and what comes back. */
module Activation {
  import opened Options
  import opened NumberText
  import opened ArithOps
  import opened IntegerFastPath
  import opened Bytecode
  import opened VmValues
  import opened VarPool
  import opened CoreVm
  import opened ExprSyntax
  import opened ExprCode
  import opened StmtEmit
  import opened TraceMap

  const CALL_MAX := 250
  const COND_COUNT := 6
  const NOVALUE := 2
  const SYNTAX := 4

  /** Where a condition of this bit keeps its handler; -1 for anything that is no condition. */
  function CondIndex(bit: int): (i: int)
    ensures -1 <= i < COND_COUNT
  {
    if bit == 0x01 then 0 else if bit == 0x02 then 1 else if bit == 0x04 then NOVALUE else if bit == 0x08 then 3
    else if bit == 0x10 then SYNTAX else if bit == 0x20 then 5 else -1
  }

  /** Traps: which conditions are enabled, and the label symbol each goes to. */
  datatype Traps = Traps(enabled: set<nat>, handlers: seq<int>)

  /** A call frame; scope is how many pools there were when PROCEDURE ran. */
  datatype Frame = Frame(returnPc: int, args: seq<string>, pushResult: bool, traps: Traps, base: nat, scope: Option<nat>)

  datatype Machine = Machine(core: Core, frames: seq<Frame>, base: nat, traps: Traps, args: seq<string>)

  /** A built-in function's answer. */
  datatype Bif = Value(text: string) | Missing | Miscalled | Failed(num: nat)

  /** What does not change during a run; bifs holds the built-in functions' answers, whatever they are. */
  datatype Program = Program(im: Image, labels: seq<int>, marks: seq<Mark>, bifs: map<(string, seq<string>), Bif>,
                             topArgs: seq<string>, num: Settings, fast: bool)

  datatype Ending = Done(rc: int) | Error(num: nat) | Broken(why: Abend) | NoLabel | NoRoutine | NotModelled

  datatype Step = Going(m: Machine) | Ended(e: Ending, m: Machine)

  function LabelOf(p: Program, s: int): int { if 0 <= s < |p.labels| then p.labels[s] else -1 }

  predicate Armed(p: Program, t: Traps, cond: nat)
  {
    cond in t.enabled && cond < |t.handlers| && LabelOf(p, t.handlers[cond]) >= 0
  }

  function EnvOf(p: Program, m: Machine): Env { Env(p.fast, p.num, m.base, Armed(p, m.traps, NOVALUE)) }

  /** SIGL: the line of the clause in front of pc, in the current variables. */
  function WithSigl(p: Program, pools: Pools, pc: int): (q: Pools)
    ensures |q| == |pools|
  {
    if pc <= 0 || LastAt(p.marks, pc - 1) < 0 then pools
    else Set(pools, "SIGL", Plain(I32Text(p.marks[LastAt(p.marks, pc - 1)].line)))
  }

  function Texts(s: seq<Cell>): (r: seq<string>)
    ensures |r| == |s|
  {
    seq(|s|, i requires 0 <= i < |s| => s[i].text)
  }

  /** The pools down to the k-th. */
  function Down(pools: Pools, k: nat): (q: Pools)
    ensures |q| <= |pools|
  {
    if 1 <= k <= |pools| then pools[..k] else pools
  }

  // ---- Calls --------------------------------------------------------------------

  /** A call of a label: the arguments leave the stack, the callee's DO counters start past those of the loops
  around the call. */
  function Enter(p: Program, m: Machine, nargs: nat, push: bool, target: int): Machine
    requires nargs <= |m.core.stack|
  {
    var c := m.core;
    var args := Texts(c.stack[|c.stack| - nargs..]);
    var f := Frame(c.pc, args, push, m.traps, m.base, None);
    Machine(c.(stack := c.stack[..|c.stack| - nargs], pools := WithSigl(p, c.pools, c.pc), pc := target),
            m.frames + [f], m.base + SiteDepth(p.marks, c.pc), m.traps, args)
  }

  function Ask(p: Program, name: string, args: seq<string>): Bif
  {
    if (name, args) in p.bifs then p.bifs[(name, args)] else Missing
  }

  function CallBif(p: Program, m: Machine, name: string, nargs: nat, push: bool): Step
    requires nargs <= |m.core.stack|
  {
    var c := m.core;
    var below := c.stack[..|c.stack| - nargs];
    if push && |below| + 1 > STACK_DEPTH then Ended(Broken(StackError), m)
    else match Ask(p, name, Texts(c.stack[|c.stack| - nargs..]))
      case Missing => Ended(NoRoutine, m)
      case Miscalled => Ended(NoRoutine, m)
      case Failed(k) => Raise(p, m.(core := c.(stack := below)), k)
      case Value(v) =>
        if push then Going(m.(core := c.(stack := below + [Plain(v)])))
        else Going(m.(core := c.(stack := below, pools := Set(c.pools, "RESULT", Plain(v)))))
  }

  function Call(p: Program, m: Machine, s: int, nargs: int, push: bool): Step
  {
    if !(0 <= nargs <= |m.core.stack|) then Ended(Broken(StackError), m)
    else if LabelOf(p, s) >= 0 then
      if |m.frames| >= CALL_MAX then Raise(p, m, SYNTAX_CTL_STACK as nat)
      else Going(Enter(p, m, nargs, push, LabelOf(p, s)))
    else if Entry(p.im.tabs.syms, s).None? then Ended(Broken(OpcodeError), m)
    else CallBif(p, m, Entry(p.im.tabs.syms, s).value, nargs, push)
  }

  /** Back in the caller: its counters' base, traps, pools, arguments and position. */
  function Leave(p: Program, m: Machine): Machine
    requires m.frames != []
  {
    var n := |m.frames| - 1;
    var f := m.frames[n];
    var pools := if f.scope.Some? then Down(m.core.pools, f.scope.value) else m.core.pools;
    Machine(m.core.(pc := f.returnPc, pools := pools), m.frames[..n], f.base, f.traps, if n > 0 then m.frames[n - 1].args else p.topArgs)
  }

  function Return(p: Program, m: Machine): Step
  {
    if m.frames == [] then Ended(Done(0), m)
    else
      var f, b := m.frames[|m.frames| - 1], Leave(p, m);
      Going(if f.scope.Some? then b else b.(core := b.core.(pools := Drop(b.core.pools, "RESULT"))))
  }

  function ReturnValue(p: Program, m: Machine): Step
  {
    var c := m.core;
    if |c.stack| < 1 then Ended(Broken(StackError), m)
    else
      var v, m1 := Top(c, 0), m.(core := Pop(c, 1));
      if m.frames == [] then Ended(Done(0), m1.(core := m1.core.(pools := Set(c.pools, "RESULT", v))))
      else
        var f, b := m.frames[|m.frames| - 1], Leave(p, m1);
        Going(b.(core := b.core.(pools := Set(b.core.pools, "RESULT", v),
                                 stack := if f.pushResult then b.core.stack + [v] else b.core.stack)))
  }

  // ---- SIGNAL and traps ------------------------------------------------------------

  /** Every frame left, innermost first. */
  function Unwind(pools: Pools, frames: seq<Frame>): (q: Pools)
    ensures |q| <= |pools|
    decreases |frames|
  {
    if frames == [] then pools
    else
      var f := frames[|frames| - 1];
      Unwind(if f.scope.Some? then Down(pools, f.scope.value) else pools, frames[..|frames| - 1])
  }

  /** At a label of the top level, with nothing left on the stack. */
  function Jump(p: Program, m: Machine, target: int): Machine
  {
    var c := m.core;
    Machine(c.(stack := [], pools := WithSigl(p, Unwind(c.pools, m.frames), c.pc), pc := target), [], 0, m.traps, p.topArgs)
  }

  function Fire(p: Program, m: Machine, cond: nat): Machine
    requires Armed(p, m.traps, cond)
  {
    var j := Jump(p, m, LabelOf(p, m.traps.handlers[cond]));
    j.(traps := j.traps.(enabled := j.traps.enabled - {cond}))
  }

  /** A SYNTAX error: to its handler, with the number in RC, or the end. */
  function Raise(p: Program, m: Machine, num: nat): Step
  {
    if Armed(p, m.traps, SYNTAX) then
      var f := Fire(p, m, SYNTAX);
      Going(f.(core := f.core.(pools := Set(f.core.pools, "RC", Plain(I32Text(num))))))
    else Ended(Error(num), m)
  }

  function SignalTo(p: Program, m: Machine, s: int): Step
  {
    if LabelOf(p, s) < 0 then Ended(NoLabel, m) else Going(Jump(p, m, LabelOf(p, s)))
  }

  // ---- PROCEDURE -----------------------------------------------------------------------

  function Procedure(m: Machine): Step
  {
    if m.frames == [] then Ended(Broken(OpcodeError), m)
    else
      var n := |m.frames| - 1;
      Going(m.(frames := m.frames[n := m.frames[n].(scope := Some(|m.core.pools|))],
               core := m.core.(pools := m.core.pools + [Scope(map[], {})])))
  }

  function Expose(p: Program, m: Machine, s: int): Step
  {
    if Entry(p.im.tabs.syms, s).None? then Ended(Broken(OpcodeError), m)
    else
      var c, k := m.core, |m.core.pools| - 1;
      Going(m.(core := c.(pools := c.pools[k := c.pools[k].(exposed := c.pools[k].exposed + {Entry(p.im.tabs.syms, s).value})])))
  }

  function Outside(p: Program, m: Machine, i: Instr): Step
  {
    match i
    case ICall(s, n, inExpr) => Call(p, m, s, n, inExpr)
    case IReturn => Return(p, m)
    case IReturnV => ReturnValue(p, m)
    case ISignal(s) => SignalTo(p, m, s)
    case ISignalOn(c, s) =>
      if CondIndex(c) < 0 || |m.traps.handlers| != COND_COUNT then Going(m)
      else Going(m.(traps := Traps(m.traps.enabled + {CondIndex(c)}, m.traps.handlers[CondIndex(c) := s])))
    case ISignalOff(c) =>
      if CondIndex(c) < 0 then Going(m) else Going(m.(traps := m.traps.(enabled := m.traps.enabled - {CondIndex(c)})))
    case IProc => Procedure(m)
    case IExpose(s) => Expose(p, m, s)
    case _ => Ended(NotModelled, m)
  }

  /** One instruction. */
  function Next(p: Program, m: Machine): Step
  {
    match CoreStep(p.im, EnvOf(p, m), m.core)
    case Run(c) => Going(m.(core := c))
    case Trap(num, c) => Raise(p, m.(core := c), num)
    case Novalue(_, c) => if Armed(p, m.traps, NOVALUE) then Going(Fire(p, m.(core := c), NOVALUE)) else Ended(NotModelled, m.(core := c))
    case Exit(rc, c) => Ended(Done(rc), m.(core := c))
    case Abort(why, c) => Ended(Broken(why), m.(core := c))
    case Outside(i, c) => Outside(p, m.(core := c), i)
  }

  function Machines(p: Program, n: nat, m: Machine): Step
    decreases n
  {
    if n == 0 then Going(m)
    else match Next(p, m) case Going(m1) => Machines(p, n - 1, m1) case Ended(e, m1) => Ended(e, m1)
  }

  // ---- DO counters --------------------------------------------------------------------

  /** Counters below k are as they were. */
  predicate KeepsBelow(cs: seq<int>, ds: seq<int>, k: nat)
  {
    |cs| <= |ds| && forall i :: 0 <= i < k && i < |cs| ==> ds[i] == cs[i]
  }

  /** The machine stands in an activation entered from a machine with depth frames, whose counters start at base. */
  predicate Within(m: Machine, depth: nat, base: nat)
  {
    |m.frames| > depth && m.base >= base && forall i :: depth < i < |m.frames| ==> m.frames[i].base >= base
  }

  lemma CoreKeeps(im: Image, e: Env, c: Core)
    ensures KeepsBelow(c.counters, CoreStep(im, e, c).c.counters, e.base)
  {
    hide Decode, Apply, Shortcut, CountOf, OpSize, Owner, Negate, Complement, Get, Set, Drop, CellCount, Literal,
         ExitCode, BoolOf;
  }

  lemma RaiseInside(p: Program, m: Machine, num: nat)
    ensures Raise(p, m, num).m.core.counters == m.core.counters
    ensures Raise(p, m, num).Going? ==> Raise(p, m, num).m.frames == []
    ensures !Raise(p, m, num).Going? ==> Raise(p, m, num).m == m
  {
    hide WithSigl, LabelOf, Set, Down, Unwind, Armed, I32Text;
  }

  lemma CallInside(p: Program, m: Machine, s: int, nargs: int, push: bool, depth: nat, base: nat)
    requires Within(m, depth, base)
    ensures var x := Call(p, m, s, nargs, push);
            x.m.core.counters == m.core.counters && (x.Going? && |x.m.frames| > depth ==> Within(x.m, depth, base))
  {
    hide WithSigl, LabelOf, Set, Raise, SiteDepth, Texts;
    RaiseInside(p, m, SYNTAX_CTL_STACK as nat);
    if 0 <= nargs <= |m.core.stack| && Entry(p.im.tabs.syms, s).Some? {
      BifInside(p, m, Entry(p.im.tabs.syms, s).value, nargs, push, depth, base);
    }
  }

  lemma BifInside(p: Program, m: Machine, name: string, nargs: nat, push: bool, depth: nat, base: nat)
    requires Within(m, depth, base) && nargs <= |m.core.stack|
    ensures var x := CallBif(p, m, name, nargs, push);
            x.m.core.counters == m.core.counters && (x.Going? && |x.m.frames| > depth ==> Within(x.m, depth, base))
  {
    hide Set, Raise, Texts;
    match Ask(p, name, Texts(m.core.stack[|m.core.stack| - nargs..])) {
      case Failed(k) => RaiseInside(p, m.(core := m.core.(stack := m.core.stack[..|m.core.stack| - nargs])), k);
      case _ =>
    }
  }

  lemma LeaveInside(p: Program, m: Machine, depth: nat, base: nat)
    requires Within(m, depth, base) && |m.frames| > depth + 1
    ensures Within(Leave(p, m), depth, base)
  {
    hide Down;
  }

  lemma OutsideInside(p: Program, m: Machine, i: Instr, depth: nat, base: nat)
    requires Within(m, depth, base)
    ensures var x := Outside(p, m, i);
            x.m.core.counters == m.core.counters && (x.Going? && |x.m.frames| > depth ==> Within(x.m, depth, base))
  {
    hide Call, Leave, Set, Drop, WithSigl, Unwind, LabelOf, CondIndex, Within;
    LeaveKeeps(p, m);
    match i {
      case ICall(s, n, inExpr) => CallInside(p, m, s, n, inExpr, depth, base);
      case IReturn => if |m.frames| > depth + 1 { LeaveInside(p, m, depth, base); SameWithin(Leave(p, m), Return(p, m).m, depth, base); }
      case IReturnV =>
        if |m.core.stack| >= 1 {
          var m1 := m.(core := Pop(m.core, 1));
          SameWithin(m, m1, depth, base);
          LeaveKeeps(p, m1);
          if |m.frames| > depth + 1 { LeaveInside(p, m1, depth, base); SameWithin(Leave(p, m1), ReturnValue(p, m).m, depth, base); }
        }
      case IProc => SameWithin(m, Procedure(m).m, depth, base);
      case ISignal(_) =>
      case _ => SameWithin(m, Outside(p, m, i).m, depth, base);
    }
  }

  lemma LeaveKeeps(p: Program, m: Machine)
    ensures m.frames != [] ==> Leave(p, m).core.counters == m.core.counters && |Leave(p, m).frames| == |m.frames| - 1
  {
    hide Down;
  }

  lemma SameWithin(m: Machine, u: Machine, depth: nat, base: nat)
    requires |m.frames| == |u.frames| && m.base == u.base && forall i :: 0 <= i < |m.frames| ==> u.frames[i].base == m.frames[i].base
    ensures Within(m, depth, base) ==> Within(u, depth, base)
  {
  }

  /** A step inside an activation leaves every counter below its base alone, and stays inside unless it returns
  or jumps out. */
  lemma StepKeeps(p: Program, m: Machine, depth: nat, base: nat)
    requires Within(m, depth, base)
    ensures KeepsBelow(m.core.counters, Next(p, m).m.core.counters, base)
    ensures Next(p, m).Going? && |Next(p, m).m.frames| > depth ==> Within(Next(p, m).m, depth, base)
  {
    hide CoreStep, Outside, Raise, Fire, Armed;
    CoreKeeps(p.im, EnvOf(p, m), m.core);
    match CoreStep(p.im, EnvOf(p, m), m.core) {
      case Outside(i, c) => OutsideInside(p, m.(core := c), i, depth, base);
      case Trap(k, c) => RaiseInside(p, m.(core := c), k);
      case Novalue(_, c) => if Armed(p, m.traps, NOVALUE) { FireLeaves(p, m.(core := c)); }
      case _ =>
    }
  }

  lemma FireLeaves(p: Program, m: Machine)
    requires Armed(p, m.traps, NOVALUE)
    ensures Fire(p, m, NOVALUE).core.counters == m.core.counters && Fire(p, m, NOVALUE).frames == []
  {
    hide WithSigl, LabelOf, Unwind, Armed;
  }

  /** However long a callee runs, whatever it calls: no DO counter below its base changes before it returns. */
  lemma {:induction false} CallersCountersStay(p: Program, n: nat, m: Machine, depth: nat, base: nat)
    requires Within(m, depth, base)
    requires forall k :: 0 <= k < n && Machines(p, k, m).Going? ==> |Machines(p, k, m).m.frames| > depth
    ensures KeepsBelow(m.core.counters, Machines(p, n, m).m.core.counters, base)
    decreases n
  {
    hide Next;
    if n > 0 {
      StepKeeps(p, m, depth, base);
      if Next(p, m).Going? {
        var m1 := Next(p, m).m;
        if n > 1 { assert Machines(p, 1, m) == Machines(p, 0, m1); }
        forall k | 0 <= k < n - 1 && Machines(p, k, m1).Going? ensures |Machines(p, k, m1).m.frames| > depth {
          assert Machines(p, k + 1, m) == Machines(p, k, m1);
        }
        if n > 1 { CallersCountersStay(p, n - 1, m1, depth, base); }
      }
    }
  }

  // ---- RETURN -------------------------------------------------------------------------------

  /** In a call made in state m0: its frame f and everything below is as it was, only that PROCEDURE may have run. */
  predicate InCall(m0: Machine, f: Frame, m: Machine)
  {
    var d := |m0.frames|;
    |m.frames| > d && m.frames[..d] == m0.frames && m.frames[d].(scope := None) == f
  }

  lemma OutsideInCall(p: Program, m0: Machine, f: Frame, m: Machine, i: Instr)
    requires InCall(m0, f, m)
    ensures var x := Outside(p, m, i);
            x.Going? && |x.m.frames| > |m0.frames| ==> InCall(m0, f, x.m)
  {
    hide Set, Drop, WithSigl, Unwind, LabelOf, CondIndex, Armed, Down, SiteDepth, Texts, I32Text;
    var d := |m0.frames|;
    match i {
      case ICall(s, n, inExpr) =>
        var x := Call(p, m, s, n, inExpr);
        if x.Going? && |x.m.frames| > d {
          CallShape(p, m, s, n, inExpr);
          assert x.m.frames[..d] == m.frames[..d];
        }
      case IReturn => ReturnShape(p, m, false, d);
      case IReturnV => ReturnShape(p, m, true, d);
      case IProc =>
        var x := Procedure(m);
        assert x.m.frames[..d] == m.frames[..d];
      case _ =>
    }
  }

  lemma CallShape(p: Program, m: Machine, s: int, n: int, push: bool)
    ensures var x := Call(p, m, s, n, push);
            x.Going? ==> x.m.frames == [] || x.m.frames == m.frames || (|x.m.frames| == |m.frames| + 1 && x.m.frames[..|m.frames|] == m.frames)
  {
    hide Set, Drop, WithSigl, LabelOf, SiteDepth, Texts, Raise;
    RaiseInside(p, m, SYNTAX_CTL_STACK as nat);
    if 0 <= n <= |m.core.stack| {
      if LabelOf(p, s) < 0 && Entry(p.im.tabs.syms, s).Some? {
        var name := Entry(p.im.tabs.syms, s).value;
        match Ask(p, name, Texts(m.core.stack[|m.core.stack| - n..])) {
          case Failed(k) => RaiseInside(p, m.(core := m.core.(stack := m.core.stack[..|m.core.stack| - n])), k);
          case _ =>
        }
      }
    }
  }

  lemma ReturnShape(p: Program, m: Machine, value: bool, d: nat)
    requires |m.frames| > d
    ensures var x := if value then ReturnValue(p, m) else Return(p, m);
            x.Going? ==> x.m.frames == m.frames[..|m.frames| - 1] && (|x.m.frames| > d ==> x.m.frames[..d] == m.frames[..d])
  {
    hide Set, Drop, Down;
  }

  lemma StepInCall(p: Program, m0: Machine, f: Frame, m: Machine)
    requires InCall(m0, f, m)
    ensures Next(p, m).Going? && |Next(p, m).m.frames| > |m0.frames| ==> InCall(m0, f, Next(p, m).m)
  {
    hide CoreStep, Outside, Raise, Fire, Armed;
    match CoreStep(p.im, EnvOf(p, m), m.core) {
      case Outside(i, c) => OutsideInCall(p, m0, f, m.(core := c), i);
      case Trap(k, c) => RaiseInside(p, m.(core := c), k);
      case Novalue(_, c) => if Armed(p, m.traps, NOVALUE) { FireLeaves(p, m.(core := c)); }
      case _ =>
    }
  }

  /** Nothing a callee does, nor anything it calls, touches its caller's frame. */
  lemma {:induction false} CallersFrameStays(p: Program, n: nat, m0: Machine, f: Frame, m: Machine)
    requires InCall(m0, f, m)
    requires forall k :: 0 <= k <= n && Machines(p, k, m).Going? ==> |Machines(p, k, m).m.frames| > |m0.frames|
    ensures Machines(p, n, m).Going? ==> InCall(m0, f, Machines(p, n, m).m)
    decreases n
  {
    hide Next, InCall;
    if n > 0 {
      StepInCall(p, m0, f, m);
      if Next(p, m).Going? {
        var m1 := Next(p, m).m;
        assert Machines(p, 1, m) == Machines(p, 0, m1);
        forall k | 0 <= k <= n - 1 && Machines(p, k, m1).Going? ensures |Machines(p, k, m1).m.frames| > |m0.frames| {
          assert Machines(p, k + 1, m) == Machines(p, k, m1);
        }
        CallersFrameStays(p, n - 1, m0, f, m1);
      }
    }
  }

  /** What a caller gets back. */
  predicate Restored(p: Program, m0: Machine, m: Machine)
  {
    m.frames == m0.frames && m.base == m0.base && m.traps == m0.traps && m.core.pc == m0.core.pc
    && m.args == if m0.frames == [] then p.topArgs else m0.frames[|m0.frames| - 1].args
  }

  /** The RETURN of a call made in m0 restores the caller's counters' base, traps and handlers, arguments and position,
  and its frames, whatever happened in between. */
  lemma ReturnRestores(p: Program, m0: Machine, nargs: nat, push: bool, target: int, n: nat, value: bool)
    requires nargs <= |m0.core.stack|
    requires var m1 := Enter(p, m0, nargs, push, target);
             (forall k :: 0 <= k <= n && Machines(p, k, m1).Going? ==> |Machines(p, k, m1).m.frames| > |m0.frames|)
             && Machines(p, n, m1).Going? && |Machines(p, n, m1).m.frames| == |m0.frames| + 1
    ensures var m := Machines(p, n, Enter(p, m0, nargs, push, target)).m;
            var x := if value then ReturnValue(p, m) else Return(p, m);
            x.Going? ==> Restored(p, m0, x.m)
  {
    hide Machines, Return, ReturnValue, WithSigl, SiteDepth, Texts;
    var m1 := Enter(p, m0, nargs, push, target);
    var f := m1.frames[|m0.frames|];
    assert m1.frames[..|m0.frames|] == m0.frames;
    CallersFrameStays(p, n, m0, f, m1);
    ReturnsTo(p, m0, Machines(p, n, m1).m, f, value);
  }

  lemma ReturnsTo(p: Program, m0: Machine, m: Machine, f: Frame, value: bool)
    requires InCall(m0, f, m) && |m.frames| == |m0.frames| + 1
    requires f.returnPc == m0.core.pc && f.traps == m0.traps && f.base == m0.base
    ensures var x := if value then ReturnValue(p, m) else Return(p, m);
            x.Going? ==> Restored(p, m0, x.m)
  {
    hide Set, Drop, Down;
    assert m.frames[..|m.frames| - 1] == m0.frames;
  }

  // ---- Pools --------------------------------------------------------------------------------

  function Isolated(frames: seq<Frame>): (n: nat)
    ensures n <= |frames|
    decreases |frames|
  {
    if frames == [] then 0 else Isolated(frames[..|frames| - 1]) + if frames[|frames| - 1].scope.Some? then 1 else 0
  }

  /** One pool for the program and one for every activation that ran PROCEDURE, each frame knowing its caller's. */
  predicate PoolsMatch(m: Machine)
  {
    |m.core.pools| == 1 + Isolated(m.frames) && ScopesMatch(m.frames)
  }

  predicate ScopesMatch(frames: seq<Frame>)
    decreases |frames|
  {
    frames == []
    || (ScopesMatch(frames[..|frames| - 1])
        && (frames[|frames| - 1].scope.Some? ==> frames[|frames| - 1].scope.value == 1 + Isolated(frames[..|frames| - 1])))
  }

  /** Leaving all frames ends in the program's own pool. */
  lemma {:induction false} UnwindsToRoot(pools: Pools, frames: seq<Frame>)
    requires ScopesMatch(frames) && |pools| == 1 + Isolated(frames)
    ensures Unwind(pools, frames) == pools[..1]
    decreases |frames|
  {
    if frames == [] {
      assert pools[..1] == pools;
    } else {
      var f, rest := frames[|frames| - 1], frames[..|frames| - 1];
      var q := if f.scope.Some? then Down(pools, f.scope.value) else pools;
      UnwindsToRoot(q, rest);
      assert q[..1] == pools[..1];
    }
  }

  /** A SIGNAL, and any trap, ends in the program's own pool, with no frame, no argument but the program's, all
  counters free and nothing on the stack. */
  lemma JumpEndsAtTop(p: Program, m: Machine, target: int)
    requires PoolsMatch(m)
    ensures var j := Jump(p, m, target);
            |j.core.pools| == 1 && j.core.pools == WithSigl(p, m.core.pools[..1], m.core.pc)
            && j.frames == [] && j.base == 0 && j.core.stack == [] && j.args == p.topArgs && j.core.pc == target
            && PoolsMatch(j)
  {
    hide LastAt, I32Text;
    UnwindsToRoot(m.core.pools, m.frames);
  }

  /** The step that would break it: a second PROCEDURE in one activation. */
  predicate SecondProcedure(p: Program, m: Machine)
  {
    var x := CoreStep(p.im, EnvOf(p, m), m.core);
    x.Outside? && x.i.IProc? && m.frames != [] && m.frames[|m.frames| - 1].scope.Some?
  }

  lemma {:induction false} CoreKeepsPools(im: Image, e: Env, c: Core)
    ensures |CoreStep(im, e, c).c.pools| == |c.pools|
  {
    hide Decode, Apply, Shortcut, CountOf, OpSize, Owner, Negate, Complement, Get, CellCount, Literal, ExitCode, BoolOf, Grown;
  }

  lemma RaisePools(p: Program, m: Machine, num: nat)
    requires PoolsMatch(m)
    ensures PoolsMatch(Raise(p, m, num).m)
  {
    hide PoolsMatch, Jump, LabelOf, I32Text, Set;
    if Armed(p, m.traps, SYNTAX) { FirePools(p, m, SYNTAX); }
    SamePools(if Armed(p, m.traps, SYNTAX) then Fire(p, m, SYNTAX) else m, Raise(p, m, num).m);
  }

  lemma SamePools(m: Machine, u: Machine)
    requires u.frames == m.frames && |u.core.pools| == |m.core.pools|
    ensures PoolsMatch(m) ==> PoolsMatch(u)
  {
  }

  lemma FirePools(p: Program, m: Machine, cond: nat)
    requires PoolsMatch(m) && Armed(p, m.traps, cond)
    ensures PoolsMatch(Fire(p, m, cond))
  {
    hide PoolsMatch, Jump;
    var target := LabelOf(p, m.traps.handlers[cond]);
    JumpEndsAtTop(p, m, target);
    SamePools(Jump(p, m, target), Fire(p, m, cond));
  }

  lemma LeavePools(p: Program, m: Machine)
    requires PoolsMatch(m) && m.frames != []
    ensures PoolsMatch(Leave(p, m))
    ensures |Leave(p, m).core.pools| == 1 + Isolated(m.frames[..|m.frames| - 1])
  {
  }

  lemma EnterPools(p: Program, m: Machine, nargs: nat, push: bool, target: int)
    requires PoolsMatch(m) && nargs <= |m.core.stack|
    ensures PoolsMatch(Enter(p, m, nargs, push, target))
  {
    hide WithSigl, SiteDepth, Texts;
    var e := Enter(p, m, nargs, push, target);
    assert e.frames[..|m.frames|] == m.frames;
  }

  lemma CallPools(p: Program, m: Machine, s: int, n: int, push: bool)
    requires PoolsMatch(m)
    ensures PoolsMatch(Call(p, m, s, n, push).m)
  {
    hide PoolsMatch, Enter, Raise, LabelOf, Set, Texts;
    RaisePools(p, m, SYNTAX_CTL_STACK as nat);
    if 0 <= n <= |m.core.stack| {
      if LabelOf(p, s) >= 0 {
        EnterPools(p, m, n, push, LabelOf(p, s));
      } else if Entry(p.im.tabs.syms, s).Some? {
        var name := Entry(p.im.tabs.syms, s).value;
        var below := m.(core := m.core.(stack := m.core.stack[..|m.core.stack| - n]));
        SamePools(m, below);
        match Ask(p, name, Texts(m.core.stack[|m.core.stack| - n..])) {
          case Failed(k) => RaisePools(p, below, k);
          case _ => SamePools(m, CallBif(p, m, name, n, push).m);
        }
      }
    }
  }

  lemma ProcedurePools(m: Machine)
    requires PoolsMatch(m) && (m.frames != [] ==> m.frames[|m.frames| - 1].scope.None?)
    ensures PoolsMatch(Procedure(m).m)
  {
    if m.frames != [] {
      var n := |m.frames| - 1;
      assert Procedure(m).m.frames[..n] == m.frames[..n];
    }
  }

  lemma OutsidePools(p: Program, m: Machine, i: Instr)
    requires PoolsMatch(m) && !(i.IProc? && m.frames != [] && m.frames[|m.frames| - 1].scope.Some?)
    ensures PoolsMatch(Outside(p, m, i).m)
  {
    hide PoolsMatch, Call, Leave, Jump, LabelOf, Set, Drop, CondIndex;
    match i {
      case ICall(s, n, inExpr) => CallPools(p, m, s, n, inExpr);
      case IReturn =>
        if m.frames != [] {
          LeavePools(p, m);
          SamePools(Leave(p, m), Return(p, m).m);
        }
      case IReturnV =>
        if |m.core.stack| >= 1 {
          var m1 := m.(core := Pop(m.core, 1));
          SamePools(m, m1);
          if m.frames != [] {
            LeavePools(p, m1);
            SamePools(Leave(p, m1), ReturnValue(p, m).m);
          } else {
            SamePools(m1, ReturnValue(p, m).m);
          }
        }
      case ISignal(s) => if LabelOf(p, s) >= 0 { JumpEndsAtTop(p, m, LabelOf(p, s)); }
      case IProc => ProcedurePools(m);
      case IExpose(s) => SamePools(m, Expose(p, m, s).m);
      case _ => SamePools(m, Outside(p, m, i).m);
    }
  }

  lemma StepPools(p: Program, m: Machine)
    requires PoolsMatch(m) && !SecondProcedure(p, m)
    ensures PoolsMatch(Next(p, m).m)
  {
    hide PoolsMatch, CoreStep, Outside, Raise, Fire, Armed;
    CoreKeepsPools(p.im, EnvOf(p, m), m.core);
    var x := CoreStep(p.im, EnvOf(p, m), m.core);
    var u := m.(core := x.c);
    SamePools(m, u);
    match x {
      case Outside(i, c) => OutsidePools(p, u, i);
      case Trap(k, c) => RaisePools(p, u, k);
      case Novalue(_, c) => if Armed(p, m.traps, NOVALUE) { FirePools(p, u, NOVALUE); }
      case _ =>
    }
  }

  /** In every run in which no activation runs PROCEDURE twice, pools and activations match: so RETURN gives back the
  caller's pool, and SIGNAL and traps the program's. */
  lemma {:induction false} PoolsAlwaysMatch(p: Program, n: nat, m: Machine)
    requires PoolsMatch(m)
    requires forall k :: 0 <= k < n && Machines(p, k, m).Going? ==> !SecondProcedure(p, Machines(p, k, m).m)
    ensures PoolsMatch(Machines(p, n, m).m)
    decreases n
  {
    hide Next, PoolsMatch, SecondProcedure;
    if n > 0 {
      assert Machines(p, 0, m) == Going(m);
      StepPools(p, m);
      if Next(p, m).Going? {
        var m1 := Next(p, m).m;
        forall k | 0 <= k < n - 1 && Machines(p, k, m1).Going? ensures !SecondProcedure(p, Machines(p, k, m1).m) {
          assert Machines(p, k + 1, m) == Machines(p, k, m1);
        }
        PoolsAlwaysMatch(p, n - 1, m1);
      }
    }
  }

  /** With pools and activations matching, the RETURN of a call made in m0 ends in the pool of m0. */
  lemma ReturnsToPool(p: Program, m0: Machine, f: Frame, m: Machine, value: bool)
    requires PoolsMatch(m0) && PoolsMatch(m) && InCall(m0, f, m) && |m.frames| == |m0.frames| + 1
    ensures var x := if value then ReturnValue(p, m) else Return(p, m);
            x.Going? ==> |x.m.core.pools| == |m0.core.pools|
  {
    hide Set, Drop, ScopesMatch;
    var d := |m0.frames|;
    assert m.frames[..d] == m0.frames;
    if value && |m.core.stack| >= 1 {
      var m1 := m.(core := Pop(m.core, 1));
      LeavePools(p, m1);
    } else {
      LeavePools(p, m);
    }
  }
}
