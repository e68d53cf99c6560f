/** SIGNAL ON, SIGNAL OFF and what happens when the condition comes. */
module Conditions {
  import opened Options
  import opened NumberText
  import opened ArithOps
  import opened IntegerFastPath
  import opened Bytecode
  import opened VmValues
  import opened VarPool
  import opened CoreVm
  import opened TraceMap
  import opened Activation

  /** The bit of each condition, ERROR, HALT, NOVALUE, NOTREADY, SYNTAX and FAILURE, and no two share a handler. */
  lemma ConditionBits(a: int, b: int)
    ensures CondIndex(a) >= 0 <==> a in {1, 2, 4, 8, 16, 32}
    ensures CondIndex(a) == CondIndex(b) >= 0 ==> a == b
  {
  }

  /** SIGNAL ON sends its own condition to the label and leaves the others as they were. */
  lemma OnIsArmed(p: Program, m: Machine, bit: int, s: nat)
    requires CondIndex(bit) >= 0 && |m.traps.handlers| == COND_COUNT && s < |p.labels| && p.labels[s] >= 0
    ensures var x := Activation.Outside(p, m, ISignalOn(bit, s));
            && x.Going? && x.m == m.(traps := x.m.traps) && |x.m.traps.handlers| == COND_COUNT
            && Armed(p, x.m.traps, CondIndex(bit)) && x.m.traps.handlers[CondIndex(bit)] == s
            && forall k | 0 <= k < COND_COUNT && k != CondIndex(bit) ::
                 (k in x.m.traps.enabled <==> k in m.traps.enabled) && x.m.traps.handlers[k] == m.traps.handlers[k]
  {
  }

  lemma OffIsNot(p: Program, m: Machine, bit: int)
    requires CondIndex(bit) >= 0
    ensures var x := Activation.Outside(p, m, ISignalOff(bit));
            && x.Going? && x.m == m.(traps := x.m.traps) && x.m.traps.handlers == m.traps.handlers
            && !Armed(p, x.m.traps, CondIndex(bit))
            && forall k: nat | k != CondIndex(bit) :: k in x.m.traps.enabled <==> k in m.traps.enabled
  {
  }

  // ---- Where an error goes ---------------------------------------------------------------------

  /** The error the next instruction raises, if it raises one. */
  function ErrorAt(p: Program, m: Machine): Option<nat>
  {
    match CoreStep(p.im, EnvOf(p, m), m.core)
    case Trap(num, _) => Some(num)
    case Outside(i, c) => if i.ICall? then CallError(p, m.(core := c), i) else None
    case _ => None
  }

  function CallError(p: Program, m: Machine, i: Instr): Option<nat>
    requires i.ICall?
  {
    var below := |m.core.stack| - i.nargs;
    if !(0 <= i.nargs <= |m.core.stack|) then None
    else if LabelOf(p, i.s) >= 0 then (if |m.frames| >= 250 then Some(11) else None)
    else if Entry(p.im.tabs.syms, i.s).None? || (i.inExpr && below + 1 > STACK_DEPTH) then None
    else match Ask(p, Entry(p.im.tabs.syms, i.s).value, Texts(m.core.stack[below..]))
      case Failed(k) => Some(k)
      case _ => None
  }

  /** At the label, in no activation and with nothing on the stack, the number in RC and the trap off. */
  ghost predicate AtHandler(p: Program, t: Traps, num: nat, m: Machine)
  {
    && SYNTAX < |t.handlers| && 0 <= t.handlers[SYNTAX] < |p.labels| && m.core.pc == p.labels[t.handlers[SYNTAX]]
    && m.frames == [] && m.core.stack == [] && m.base == 0 && m.args == p.topArgs
    && Get(m.core.pools, "RC") == Some(Plain(I32Text(num)))
    && m.traps == t.(enabled := t.enabled - {SYNTAX}) && !Armed(p, m.traps, SYNTAX)
  }

  lemma Raised(p: Program, m: Machine, num: nat)
    ensures if Armed(p, m.traps, SYNTAX) then Raise(p, m, num).Going? && AtHandler(p, m.traps, num, Raise(p, m, num).m)
            else Raise(p, m, num) == Ended(Error(num), m)
  {
    hide Set, Get, Unwind, WithSigl;
    if Armed(p, m.traps, SYNTAX) {
      var f := Fire(p, m, SYNTAX);
      GetSet(f.core.pools, "RC", Plain(I32Text(num)), "RC");
    }
  }

  /** Armed, the error goes to the handler; otherwise it ends the run. */
  lemma ErrorIsCaught(p: Program, m: Machine, num: nat)
    requires ErrorAt(p, m) == Some(num)
    ensures var x := Activation.Next(p, m);
            if Armed(p, m.traps, SYNTAX) then x.Going? && AtHandler(p, m.traps, num, x.m) else x.Ended? && x.e == Error(num)
  {
    hide CoreStep, Armed, AtHandler, Raise;
    match CoreStep(p.im, EnvOf(p, m), m.core) {
      case Trap(k, c) => Raised(p, m.(core := c), k);
      case Outside(i, c) =>
        var u := m.(core := c);
        if LabelOf(p, i.s) >= 0 { Raised(p, u, 11); }
        else { Raised(p, u.(core := c.(stack := c.stack[..|c.stack| - i.nargs])), num); }
    }
  }

  /** SIGL, after SIGNAL, a trap or a call: the line of the last clause begun in front of the place left. */
  lemma SiglIs(p: Program, m: Machine, target: int, nargs: nat, push: bool, i: nat)
    requires i < |p.marks| && p.marks[i].pc < m.core.pc && (i + 1 < |p.marks| ==> p.marks[i + 1].pc >= m.core.pc)
    requires nargs <= |m.core.stack| && (forall j, k :: 0 <= j < k < |p.marks| ==> p.marks[j].pc < p.marks[k].pc)
    ensures var line := Some(Plain(I32Text(p.marks[i].line)));
            && Get(Jump(p, m, target).core.pools, "SIGL") == line && Get(Enter(p, m, nargs, push, target).core.pools, "SIGL") == line
            && (Armed(p, m.traps, NOVALUE) ==> Get(Fire(p, m, NOVALUE).core.pools, "SIGL") == line)
  {
    hide Get, Set, Unwind, Texts, I32Text;
    var v := Plain(I32Text(p.marks[i].line));
    LastAtIs(p.marks, m.core.pc - 1, i);
    GetSet(Unwind(m.core.pools, m.frames), "SIGL", v, "SIGL");
    GetSet(m.core.pools, "SIGL", v, "SIGL");
  }

  // ---- From SIGNAL ON to the error ---------------------------------------------------------------

  /** The traps here and those of every activation entered since are t. */
  predicate SameTraps(m: Machine, d: nat, t: Traps)
  {
    |m.frames| >= d && m.traps == t && forall i :: d <= i < |m.frames| ==> m.frames[i].traps == t
  }

  /** The next instruction neither switches a trap nor lets one go off. */
  predicate Quiet(p: Program, m: Machine)
  {
    && ErrorAt(p, m).None?
    && match CoreStep(p.im, EnvOf(p, m), m.core)
       case Novalue(_, _) => false
       case Outside(i, c) => !i.ISignalOn? && !i.ISignalOff?
       case _ => true
  }

  lemma QuietStep(p: Program, m: Machine, d: nat, t: Traps)
    requires SameTraps(m, d, t) && Quiet(p, m) && Activation.Next(p, m).Going? && |Activation.Next(p, m).m.frames| >= d
    ensures SameTraps(Activation.Next(p, m).m, d, t)
  {
    hide CoreStep, Activation.Outside, Raise, Armed, CallError;
    match CoreStep(p.im, EnvOf(p, m), m.core) {
      case Outside(i, c) => QuietOutside(p, m.(core := c), i, d, t);
      case _ =>
    }
  }

  lemma QuietOutside(p: Program, m: Machine, i: Instr, d: nat, t: Traps)
    requires SameTraps(m, d, t) && !i.ISignalOn? && !i.ISignalOff? && (i.ICall? ==> CallError(p, m, i).None?)
    requires Activation.Outside(p, m, i).Going? && |Activation.Outside(p, m, i).m.frames| >= d
    ensures SameTraps(Activation.Outside(p, m, i).m, d, t)
  {
    hide Activation.Call, CallError, Return, ReturnValue, SignalTo, Procedure, CondIndex, SameTraps;
    match i {
      case ICall(s, n, inExpr) => QuietCall(p, m, i, d, t);
      case IReturn => QuietReturn(p, m, false, d, t);
      case IReturnV => QuietReturn(p, m, true, d, t);
      case ISignal(s) => QuietJump(p, m, s, d, t);
      case IProc => QuietProcedure(m, d, t);
      case IExpose(s) => SameFrames(m, Expose(p, m, s).m, d, t);
      case _ =>
    }
  }

  lemma SameFrames(m: Machine, m1: Machine, d: nat, t: Traps)
    requires SameTraps(m, d, t) && m1.frames == m.frames && m1.traps == m.traps
    ensures SameTraps(m1, d, t)
  {
  }

  lemma QuietCall(p: Program, m: Machine, i: Instr, d: nat, t: Traps)
    requires SameTraps(m, d, t) && i.ICall? && CallError(p, m, i).None? && Activation.Call(p, m, i.s, i.nargs, i.inExpr).Going?
    ensures SameTraps(Activation.Call(p, m, i.s, i.nargs, i.inExpr).m, d, t)
  {
    hide Set, WithSigl, LabelOf, SiteDepth, Texts, Raise, Ask;
  }

  lemma QuietReturn(p: Program, m: Machine, value: bool, d: nat, t: Traps)
    requires SameTraps(m, d, t)
    ensures var x := if value then ReturnValue(p, m) else Return(p, m);
            x.Going? && |x.m.frames| >= d ==> SameTraps(x.m, d, t)
  {
    hide Set, Drop, Down;
  }

  lemma QuietJump(p: Program, m: Machine, s: int, d: nat, t: Traps)
    requires SameTraps(m, d, t)
    ensures SignalTo(p, m, s).Going? && |SignalTo(p, m, s).m.frames| >= d ==> SameTraps(SignalTo(p, m, s).m, d, t)
  {
    hide WithSigl, Unwind, LabelOf;
  }

  lemma QuietProcedure(m: Machine, d: nat, t: Traps)
    requires SameTraps(m, d, t)
    ensures Procedure(m).Going? ==> SameTraps(Procedure(m).m, d, t)
  {
  }

  /**
   * From SIGNAL ON SYNTAX to the error: however many calls are entered and left in between, as long as the activation
   * goes on, no trap is switched and none goes off, the error is caught at the label named, and a second one is not.
   */
  lemma {:induction false} ErrorsReachHandler(p: Program, n: nat, m: Machine, d: nat, num: nat)
    requires SameTraps(m, d, m.traps) && Armed(p, m.traps, SYNTAX)
    requires forall j :: 0 <= j <= n ==> Machines(p, j, m).Going? && |Machines(p, j, m).m.frames| >= d
    requires forall j :: 0 <= j < n ==> Quiet(p, Machines(p, j, m).m)
    requires ErrorAt(p, Machines(p, n, m).m) == Some(num)
    ensures Machines(p, n + 1, m).Going? && AtHandler(p, m.traps, num, Machines(p, n + 1, m).m)
    decreases n
  {
    hide Activation.Next, Quiet, AtHandler, ErrorAt, Armed, SameTraps;
    assert Machines(p, 0, m).m == m;
    if n == 0 {
      ErrorIsCaught(p, m, num);
      var x := Activation.Next(p, m);
      assert x.Going? ==> Machines(p, 0, x.m) == x;
      assert Machines(p, 1, m) == x;
    } else {
      assert Quiet(p, Machines(p, 0, m).m) && Machines(p, 1, m).Going?;
      var m1 := Activation.Next(p, m).m;
      assert Machines(p, 1, m) == Going(m1) by { assert Machines(p, 0, m1) == Going(m1); }
      QuietStep(p, m, d, m.traps);
      forall j | 0 <= j <= n - 1 ensures Machines(p, j, m1) == Machines(p, j + 1, m) { }
      SameIsSame(m, m1, d);
      ErrorsReachHandler(p, n - 1, m1, d, num);
    }
  }

  lemma SameIsSame(m: Machine, m1: Machine, d: nat)
    requires SameTraps(m1, d, m.traps)
    ensures m1.traps == m.traps && SameTraps(m1, d, m1.traps)
  {
  }
}
