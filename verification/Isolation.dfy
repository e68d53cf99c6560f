/** What PROCEDURE keeps apart: whole runs of a callee, exactly when pools and activations match, and the stack's bound. */
module Isolation {
  import opened Options
  import opened NumberText
  import opened ArithOps
  import opened IntegerFastPath
  import opened Bytecode
  import opened VmValues
  import opened VarPool
  import opened CoreVm
  import opened Activation
  import opened StmtEmit
  import opened TraceMap
  import opened Labels
  import Programs

  // ---- The evaluation stack ---------------------------------------------------------

  /** One instruction, calls, returns and traps included. */
  lemma StepStaysBounded(p: Program, m: Machine)
    requires |m.core.stack| <= STACK_DEPTH
    ensures |Activation.Next(p, m).m.core.stack| <= STACK_DEPTH
  {
    hide CoreStep, Set, Drop, Down, WithSigl, LabelOf, Unwind, Armed, I32Text, SiteDepth, Texts;
    StackBound(p.im, EnvOf(p, m), m.core);
  }

  /** In every run the stack holds at most 256 cells. */
  lemma {:induction false} StackStaysBounded(p: Program, n: nat, m: Machine)
    requires |m.core.stack| <= 256
    ensures |Machines(p, n, m).m.core.stack| <= 256
    decreases n
  {
    hide Activation.Next;
    if n > 0 {
      StepStaysBounded(p, m);
      if Activation.Next(p, m).Going? { StackStaysBounded(p, n - 1, Activation.Next(p, m).m); }
    }
  }

  // ---- When pools and activations match -----------------------------------------------

  lemma {:induction false} OneMore(p: Program, n: nat, m: Machine)
    ensures Machines(p, n + 1, m) == match Machines(p, n, m) case Going(u) => Activation.Next(p, u) case Ended(e, u) => Ended(e, u)
    decreases n
  {
    hide Activation.Next;
    if n == 0 {
      assert Machines(p, 1, m) == match Activation.Next(p, m) case Going(u) => Machines(p, 0, u) case Ended(e, u) => Ended(e, u);
    } else if Activation.Next(p, m).Going? {
      OneMore(p, n - 1, Activation.Next(p, m).m);
    }
  }

  /** A second PROCEDURE in one activation always breaks it. */
  lemma SecondBreaks(p: Program, m: Machine)
    requires PoolsMatch(m) && SecondProcedure(p, m)
    ensures Activation.Next(p, m).Going? && !PoolsMatch(Activation.Next(p, m).m)
  {
    hide CoreStep, ScopesMatch;
    CoreKeepsPools(p.im, EnvOf(p, m), m.core);
    var c := CoreStep(p.im, EnvOf(p, m), m.core).c;
    var u := m.(core := c);
    var n := |m.frames| - 1;
    var v := Procedure(u).m;
    assert v.frames[..n] == m.frames[..n];
    assert Isolated(v.frames) == Isolated(m.frames);
  }

  ghost predicate AlwaysMatch(p: Program, n: nat, m: Machine)
  {
    forall k: nat :: k <= n && Machines(p, k, m).Going? ==> PoolsMatch(Machines(p, k, m).m)
  }

  ghost predicate NeverTwice(p: Program, n: nat, m: Machine)
  {
    forall k: nat :: k < n && Machines(p, k, m).Going? ==> !SecondProcedure(p, Machines(p, k, m).m)
  }

  /** Through a whole run pools and activations match, exactly if no activation runs PROCEDURE a second time. */
  lemma MatchExactly(p: Program, n: nat, m: Machine)
    requires PoolsMatch(m)
    ensures AlwaysMatch(p, n, m) <==> NeverTwice(p, n, m)
  {
    hide Activation.Next, PoolsMatch, SecondProcedure, Machines;
    if NeverTwice(p, n, m) {
      forall k: nat | k <= n && Machines(p, k, m).Going? ensures PoolsMatch(Machines(p, k, m).m) {
        PoolsAlwaysMatch(p, k, m);
      }
    } else {
      var k: nat :| k < n && Machines(p, k, m).Going? && SecondProcedure(p, Machines(p, k, m).m);
      if PoolsMatch(Machines(p, k, m).m) {
        OneMore(p, k, m);
        SecondBreaks(p, Machines(p, k, m).m);
        assert Machines(p, k + 1, m).Going? && !PoolsMatch(Machines(p, k + 1, m).m);
      }
    }
  }

  // ---- A program that runs PROCEDURE twice -----------------------------------------------

  /** CALL F; EXIT; F: PROCEDURE; PROCEDURE; and then the given end, with the byte that starts each clause. */
  function Twice(end: seq<Byte>): seq<Byte>
  {
    [OP_NEWCLAUSE, OP_CALL, 0, 0, 0, OP_NEWCLAUSE, OP_EXIT, OP_LABEL, 0, 0,
     OP_NEWCLAUSE, OP_PROC, 0, OP_NEWCLAUSE, OP_PROC, 0, OP_NEWCLAUSE] + end
  }

  const RETURN_END: seq<Byte> := [OP_RETURN, OP_EXIT]

  /** SIGNAL T; T: */
  const SIGNAL_END: seq<Byte> := [OP_SIGNAL, 1, 0, OP_LABEL, 1, 0, OP_EXIT]

  /** The program, with the labels its code has and whatever lines its trace map tells; no clause lies in a block. */
  function TwiceProgram(end: seq<Byte>, marks: seq<Mark>, n: Settings): Program
  {
    var c := Twice(end);
    Program(Image(c, Tabs([], ["F", "T"])), [LabelFrom(c, 0, 0, -1), LabelFrom(c, 0, 1, -1)], marks, map[], [], n, true)
  }

  predicate Flat(marks: seq<Mark>) { forall i :: 0 <= i < |marks| ==> marks[i].depth == 0 }

  lemma {:induction false} TwiceLabels(end: seq<Byte>, s: nat)
    requires end == RETURN_END || end == SIGNAL_END
    ensures LabelFrom(Twice(end), 0, s, -1) == if s == 0 then 10 else if s == 1 && end == SIGNAL_END then 23 else -1
  {
    var c := Twice(end);
    var f := if s == 0 then 10 else -1;
    assert LabelFrom(c, 0, s, -1) == LabelFrom(c, 1, s, -1) == LabelFrom(c, 5, s, -1) == LabelFrom(c, 6, s, -1);
    assert LabelFrom(c, 6, s, -1) == LabelFrom(c, 7, s, -1) == LabelFrom(c, 10, s, f) == LabelFrom(c, 11, s, f);
    assert LabelFrom(c, 11, s, f) == LabelFrom(c, 13, s, f) == LabelFrom(c, 14, s, f) == LabelFrom(c, 16, s, f) == LabelFrom(c, 17, s, f);
    TwiceEnds(end, s, f);
  }

  lemma {:induction false} TwiceEnds(end: seq<Byte>, s: nat, f: int)
    requires end == RETURN_END || end == SIGNAL_END
    ensures LabelFrom(Twice(end), 17, s, f) == if s == 1 && end == SIGNAL_END then 23 else f
  {
    var c := Twice(end);
    if end == SIGNAL_END {
      var g := if s == 1 then 23 else f;
      assert LabelFrom(c, 17, s, f) == LabelFrom(c, 20, s, f) == LabelFrom(c, 23, s, g) == LabelFrom(c, 24, s, g);
    } else {
      assert LabelFrom(c, 17, s, f) == LabelFrom(c, 18, s, f) == LabelFrom(c, 19, s, f);
    }
  }

  function TwiceStart(): Machine
  {
    Machine(Core(0, [], [Scope(map[], {})], Programs.Zeroes(DO_DEPTH), []), [], 0, Traps({}, []), [])
  }

  /** In the subroutine at pc, after so many PROCEDUREs. */
  function TwiceAt(p: Program, pc: int, procs: nat): Machine
    requires procs <= 2
  {
    var none := Scope(map[], {});
    var callers := WithSigl(p, [none], 5);
    Machine(Core(pc, [], callers + [none, none][..procs], Programs.Zeroes(DO_DEPTH), []),
            [Frame(5, [], false, Traps({}, []), 0, if procs > 0 then Some(procs) else None)], 0, Traps({}, []), [])
  }

  lemma TwiceCode(end: seq<Byte>)
    requires |end| >= 1
    ensures var c := Twice(end);
            && |c| > 17 && Decode(c, 1) == ICall(0, 0, false) && Decode(c, 11) == IProc && Decode(c, 14) == IProc
            && OpSize(c[1]) == 4 && OpSize(c[11]) == 2 && OpSize(c[14]) == 2
            && c[0] == c[10] == c[13] == c[16] == OP_NEWCLAUSE && c[17] == end[0]
  {
  }

  lemma NextClause(p: Program, m: Machine)
    requires 0 <= m.core.pc < |p.im.code| && p.im.code[m.core.pc] == OP_NEWCLAUSE
    ensures Activation.Next(p, m) == Going(m.(core := m.core.(pc := m.core.pc + 1)))
  {
    assert Decode(p.im.code, m.core.pc) == INewClause && OpSize(OP_NEWCLAUSE) == 1;
  }

  lemma NextOutside(p: Program, m: Machine, i: Instr)
    requires 0 <= m.core.pc < |p.im.code| && Decode(p.im.code, m.core.pc) == i && (i.IReturn? || i.ISignal? || i.ICall? || i.IProc?)
    ensures Activation.Next(p, m) == Activation.Outside(p, m.(core := m.core.(pc := m.core.pc + OpSize(p.im.code[m.core.pc]))), i)
  {
    hide Decode, OpSize;
  }

  lemma FlatSite(marks: seq<Mark>, pc: int)
    requires Flat(marks)
    ensures SiteDepth(marks, pc) == 0
  {
    hide LastAt;
  }

  /** CALL goes to the label, PROCEDURE opens a pool, each time. */
  lemma TwiceSteps(p: Program, end: seq<Byte>, n: Settings)
    requires (end == RETURN_END || end == SIGNAL_END) && p == TwiceProgram(end, p.marks, n) && Flat(p.marks)
    ensures Activation.Next(p, TwiceStart().(core := TwiceStart().core.(pc := 1))) == Going(TwiceAt(p, 10, 0))
    ensures Activation.Next(p, TwiceAt(p, 11, 0)) == Going(TwiceAt(p, 13, 1))
    ensures Activation.Next(p, TwiceAt(p, 14, 1)) == Going(TwiceAt(p, 16, 2))
  {
    hide Programs.Zeroes, LastAt, WithSigl, Decode, OpSize, Twice, LabelFrom, SiteDepth, Activation.Next;
    TwiceCode(end);
    TwiceLabels(end, 0);
    FlatSite(p.marks, 5);
    var m0 := TwiceStart().(core := TwiceStart().core.(pc := 1));
    NextOutside(p, m0, ICall(0, 0, false));
    assert m0.core.stack[..0] == [] && Texts([]) == [];
    NextOutside(p, TwiceAt(p, 11, 0), IProc);
    NextOutside(p, TwiceAt(p, 14, 1), IProc);
    var none := Scope(map[], {});
    assert [none, none][..0] == [] && [none, none][..1] == [none] && [none, none][..2] == [none, none];
  }

  lemma TwiceRuns(p: Program, end: seq<Byte>, n: Settings)
    requires (end == RETURN_END || end == SIGNAL_END) && p == TwiceProgram(end, p.marks, n) && Flat(p.marks)
    ensures Machines(p, 7, TwiceStart()) == Going(TwiceAt(p, 17, 2))
  {
    hide Programs.Zeroes, WithSigl, Activation.Next;
    TwiceSteps(p, end, n);
    TwiceCode(end);
    hide Twice;
    var m0 := TwiceStart();
    NextClause(p, m0);
    NextClause(p, TwiceAt(p, 10, 0));
    NextClause(p, TwiceAt(p, 13, 1));
    NextClause(p, TwiceAt(p, 16, 2));
    hide TwiceProgram;
    var m1 := m0.(core := m0.core.(pc := 1));
    assert Machines(p, 7, m0) == Machines(p, 6, m1) == Machines(p, 5, TwiceAt(p, 10, 0)) == Machines(p, 4, TwiceAt(p, 11, 0));
    assert Machines(p, 4, TwiceAt(p, 11, 0)) == Machines(p, 3, TwiceAt(p, 13, 1)) == Machines(p, 2, TwiceAt(p, 14, 1));
    assert Machines(p, 2, TwiceAt(p, 14, 1)) == Machines(p, 1, TwiceAt(p, 16, 2)) == Machines(p, 0, TwiceAt(p, 17, 2));
  }

  /** RETURN then leaves the caller with two pools where it had one. */
  lemma TwiceReturns(marks: seq<Mark>, n: Settings)
    requires Flat(marks)
    ensures var x := Machines(TwiceProgram(RETURN_END, marks, n), 8, TwiceStart());
            x.Going? && x.m.frames == [] && x.m.core.pc == 5 && |x.m.core.pools| == 2
  {
    var p := TwiceProgram(RETURN_END, marks, n);
    assert Decode(p.im.code, 17) == IReturn && OpSize(OP_RETURN) == 1;
    hide Decode, OpSize, Twice, LabelFrom, Programs.Zeroes, Machines, WithSigl;
    TwiceRuns(p, RETURN_END, n);
    OneMore(p, 7, TwiceStart());
    NextOutside(p, TwiceAt(p, 17, 2), IReturn);
    var m := TwiceAt(p, 18, 2);
    hide Drop, Activation.Next;
    assert m.frames[..0] == [] && |m.core.pools| == 3 && Leave(p, m).core.pools == m.core.pools[..2];
  }

  /** SIGNAL then leaves the program with two pools. */
  lemma TwiceSignals(marks: seq<Mark>, n: Settings)
    requires Flat(marks)
    ensures var x := Machines(TwiceProgram(SIGNAL_END, marks, n), 8, TwiceStart());
            x.Going? && x.m.frames == [] && x.m.core.pc == 23 && |x.m.core.pools| == 2
  {
    var p := TwiceProgram(SIGNAL_END, marks, n);
    assert Decode(p.im.code, 17) == ISignal(1) && OpSize(OP_SIGNAL) == 3;
    TwiceLabels(SIGNAL_END, 1);
    hide Decode, OpSize, Twice, LabelFrom, Programs.Zeroes, Machines, WithSigl;
    TwiceRuns(p, SIGNAL_END, n);
    OneMore(p, 7, TwiceStart());
    NextOutside(p, TwiceAt(p, 17, 2), ISignal(1));
    var m := TwiceAt(p, 20, 2);
    hide Activation.Next;
    assert m.frames[..0] == [] && |m.core.pools| == 3 && Unwind(m.core.pools[..2], []) == m.core.pools[..2];
    assert Unwind(m.core.pools, m.frames) == m.core.pools[..2];
  }

  // ---- What a callee with PROCEDURE cannot reach -------------------------------------------

  /** From pools p to pools q nothing below the k-th has changed but what the k-th exposes; it may expose more. */
  ghost predicate Shields(p: Pools, q: Pools, k: nat)
  {
    && |p| > k && |q| > k
    && p[k].exposed <= q[k].exposed
    && forall i :: 0 <= i < k ==>
         && q[i].exposed == p[i].exposed
         && forall n :: n !in q[k].exposed ==>
              (n in q[i].vars <==> n in p[i].vars) && (n in p[i].vars ==> q[i].vars[n] == p[i].vars[n])
  }

  lemma ShieldsThrough(p: Pools, q: Pools, r: Pools, k: nat)
    requires Shields(p, q, k) && Shields(q, r, k)
    ensures Shields(p, r, k)
  {
    forall i | 0 <= i < k
      ensures r[i].exposed == p[i].exposed
      ensures forall n :: n !in r[k].exposed ==>
                (n in r[i].vars <==> n in p[i].vars) && (n in p[i].vars ==> r[i].vars[n] == p[i].vars[n])
    {
      assert q[i].exposed == p[i].exposed;
    }
  }

  lemma {:induction false} OwnerExposes(p: Pools, name: string, j: nat)
    requires Owner(p, name) < j < |p|
    ensures name in p[j].exposed
    decreases |p|
  {
    if j < |p| - 1 {
      OwnerExposes(p[..|p| - 1], name, j);
    }
  }

  lemma SetShields(p: Pools, name: string, v: Cell, k: nat)
    requires |p| > k
    ensures Shields(p, Set(p, name, v), k) && Shields(p, Drop(p, name), k)
  {
    if Owner(p, name) < k { OwnerExposes(p, name, k); }
  }

  lemma DownShields(p: Pools, s: nat, k: nat)
    requires |p| > k && s > k
    ensures Shields(p, Down(p, s), k)
  {
  }

  lemma CoreShields(im: Image, e: Env, c: Core, k: nat)
    requires |c.pools| > k
    ensures Shields(c.pools, CoreStep(im, e, c).c.pools, k)
  {
    hide Shields, Set, Drop, Get, Owner, Decode, Apply, OpSize, Literal;
    SameShields(c.pools, k);
    if 0 <= c.pc < |im.code| {
      match Decode(im.code, c.pc) {
        case IStore(s) => if 0 <= s < |im.tabs.syms| && |c.stack| >= 1 { SetShields(c.pools, im.tabs.syms[s], Top(c, 0), k); }
        case IDrop(s) => if 0 <= s < |im.tabs.syms| { SetShields(c.pools, im.tabs.syms[s], Plain(""), k); }
        case i =>
          hide Shields, Decode, Apply, Shortcut, CountOf, OpSize, Owner, Negate, Complement, Get, Set, Drop,
               CellCount, Literal, ExitCode, BoolOf, Grown;
      }
    }
  }

  lemma SameShields(p: Pools, k: nat)
    requires |p| > k
    ensures Shields(p, p, k)
  {
  }

  lemma SiglShields(p: Program, pools: Pools, pc: int, k: nat)
    requires |pools| > k
    ensures Shields(pools, WithSigl(p, pools, pc), k)
  {
    hide Set, LastAt, I32Text, Shields;
    SameShields(pools, k);
    if pc > 0 && LastAt(p.marks, pc - 1) >= 0 {
      SetShields(pools, "SIGL", Plain(I32Text(p.marks[LastAt(p.marks, pc - 1)].line)), k);
    }
  }

  lemma {:induction false} IsolatedGrows(frames: seq<Frame>, d: nat)
    requires d <= |frames|
    ensures Isolated(frames[..d]) <= Isolated(frames)
    decreases |frames|
  {
    if d < |frames| {
      IsolatedGrows(frames[..|frames| - 1], d);
      assert frames[..|frames| - 1][..d] == frames[..d];
    } else {
      assert frames[..d] == frames;
    }
  }

  lemma {:induction false} ScopeAt(frames: seq<Frame>, d: nat)
    requires ScopesMatch(frames) && d < |frames| && frames[d].scope.Some?
    ensures frames[d].scope.value == 1 + Isolated(frames[..d])
    decreases |frames|
  {
    if d < |frames| - 1 {
      ScopeAt(frames[..|frames| - 1], d);
      assert frames[..|frames| - 1][..d] == frames[..d];
    }
  }

  /** The frame at this depth ran PROCEDURE, making the k-th pool, and is still there. */
  predicate Behind(m: Machine, depth: nat, k: nat)
  {
    PoolsMatch(m) && |m.frames| > depth && m.frames[depth].scope == Some(k)
  }

  lemma PoolsAbove(m: Machine, depth: nat, k: nat)
    requires Behind(m, depth, k)
    ensures |m.core.pools| > k
    ensures |m.frames| > depth + 1 && m.frames[|m.frames| - 1].scope.Some? ==> m.frames[|m.frames| - 1].scope.value > k
  {
    var fs := m.frames;
    ScopeAt(fs, depth);
    assert fs[..depth + 1][..depth] == fs[..depth];
    IsolatedGrows(fs, depth + 1);
    if |fs| > depth + 1 {
      var n := |fs| - 1;
      IsolatedGrows(fs[..n], depth + 1);
      assert fs[..n][..depth + 1] == fs[..depth + 1];
    }
  }

  lemma LeaveShields(p: Program, m: Machine, depth: nat, k: nat)
    requires Behind(m, depth, k) && |m.frames| > depth + 1
    ensures Shields(m.core.pools, Leave(p, m).core.pools, k)
    ensures Leave(p, m).frames == m.frames[..|m.frames| - 1] && |Leave(p, m).core.pools| > k
  {
    PoolsAbove(m, depth, k);
    hide Shields, PoolsMatch;
    SameShields(m.core.pools, k);
    var f := m.frames[|m.frames| - 1];
    if f.scope.Some? { DownShields(m.core.pools, f.scope.value, k); }
  }

  lemma CallShields(p: Program, m: Machine, s: int, nargs: int, push: bool, depth: nat, k: nat)
    requires |m.core.pools| > k && |m.frames| > depth
    ensures var x := Call(p, m, s, nargs, push);
            x.Going? && |x.m.frames| > depth ==>
              Shields(m.core.pools, x.m.core.pools, k) && x.m.frames[depth] == m.frames[depth]
  {
    hide Shields, WithSigl, Set, Raise, SiteDepth, Texts, LabelOf;
    RaiseInside(p, m, SYNTAX_CTL_STACK as nat);
    SameShields(m.core.pools, k);
    if 0 <= nargs <= |m.core.stack| {
      if LabelOf(p, s) >= 0 {
        SiglShields(p, m.core.pools, m.core.pc, k);
      } else if Entry(p.im.tabs.syms, s).Some? {
        match Ask(p, Entry(p.im.tabs.syms, s).value, Texts(m.core.stack[|m.core.stack| - nargs..])) {
          case Failed(j) => RaiseInside(p, m.(core := m.core.(stack := m.core.stack[..|m.core.stack| - nargs])), j);
          case Value(v) => SetShields(m.core.pools, "RESULT", Plain(v), k);
          case _ =>
        }
      }
    }
  }

  lemma ReturnShields(p: Program, m: Machine, value: bool, depth: nat, k: nat)
    requires Behind(m, depth, k)
    ensures var x := if value then ReturnValue(p, m) else Return(p, m);
            x.Going? && |x.m.frames| > depth ==>
              Shields(m.core.pools, x.m.core.pools, k) && x.m.frames[depth] == m.frames[depth]
  {
    hide Shields, PoolsMatch, Set, Drop, Down;
    var x := if value then ReturnValue(p, m) else Return(p, m);
    if x.Going? && |x.m.frames| > depth {
      var m1 := if value then m.(core := Pop(m.core, 1)) else m;
      SamePools(m, m1);
      LeaveShields(p, m1, depth, k);
      var b := Leave(p, m1);
      assert b.frames[depth] == m.frames[depth];
      SetShields(b.core.pools, "RESULT", if value then Top(m.core, 0) else Plain(""), k);
      SameShields(b.core.pools, k);
      ShieldsThrough(m.core.pools, b.core.pools, x.m.core.pools, k);
    }
  }

  lemma ScopeShields(p: Program, m: Machine, i: Instr, k: nat)
    requires |m.core.pools| > k && m.frames != []
    ensures i.IProc? ==> Shields(m.core.pools, Procedure(m).m.core.pools, k)
    ensures i.IExpose? ==> Shields(m.core.pools, Expose(p, m, i.s).m.core.pools, k)
  {
  }

  lemma OutsideShields(p: Program, m: Machine, i: Instr, depth: nat, k: nat)
    requires Behind(m, depth, k) && !(i.IProc? && m.frames[|m.frames| - 1].scope.Some?)
    ensures var x := Activation.Outside(p, m, i);
            x.Going? && |x.m.frames| > depth ==>
              Shields(m.core.pools, x.m.core.pools, k) && x.m.frames[depth].scope == Some(k)
  {
    PoolsAbove(m, depth, k);
    SameShields(m.core.pools, k);
    ScopeShields(p, m, i, k);
    hide Shields, PoolsMatch, Call, Return, ReturnValue, WithSigl, Unwind, LabelOf, CondIndex, Expose;
    match i {
      case ICall(s, n, inExpr) => CallShields(p, m, s, n, inExpr, depth, k);
      case IReturn => ReturnShields(p, m, false, depth, k);
      case IReturnV => ReturnShields(p, m, true, depth, k);
      case IExpose(s) => assert Expose(p, m, s).m.frames == m.frames by { ExposeFrames(p, m, s); }
      case _ =>
    }
  }

  lemma ExposeFrames(p: Program, m: Machine, s: int)
    ensures Expose(p, m, s).m.frames == m.frames
  {
  }

  lemma StepShields(p: Program, m: Machine, depth: nat, k: nat)
    requires Behind(m, depth, k) && !SecondProcedure(p, m)
    ensures Activation.Next(p, m).Going? && |Activation.Next(p, m).m.frames| > depth ==>
              Behind(Activation.Next(p, m).m, depth, k) && Shields(m.core.pools, Activation.Next(p, m).m.core.pools, k)
  {
    StepPools(p, m);
    PoolsAbove(m, depth, k);
    CoreShields(p.im, EnvOf(p, m), m.core, k);
    CoreKeepsPools(p.im, EnvOf(p, m), m.core);
    hide Shields, PoolsMatch, CoreStep, Activation.Outside, Raise, Fire, Armed;
    var x := CoreStep(p.im, EnvOf(p, m), m.core);
    var u := m.(core := x.c);
    SamePools(m, u);
    match x {
      case Outside(i, c) =>
        OutsideShields(p, u, i, depth, k);
        var y := Activation.Next(p, m);
        if y.Going? && |y.m.frames| > depth { ShieldsThrough(m.core.pools, c.pools, y.m.core.pools, k); }
      case Trap(num, c) => RaiseInside(p, u, num);
      case Novalue(_, c) => if Armed(p, m.traps, NOVALUE) { FireLeaves(p, u); }
      case _ =>
    }
  }

  /** As long as the activation that ran PROCEDURE lives, nothing it does or calls reaches a variable of its callers
  that it does not expose, nor what they expose. */
  lemma {:induction false} CalleeIsShielded(p: Program, n: nat, m: Machine, depth: nat, k: nat)
    requires Behind(m, depth, k)
    requires forall j :: 0 <= j <= n && Machines(p, j, m).Going? ==> |Machines(p, j, m).m.frames| > depth
    requires NeverTwice(p, n, m)
    ensures Machines(p, n, m).Going? ==>
              Behind(Machines(p, n, m).m, depth, k) && Shields(m.core.pools, Machines(p, n, m).m.core.pools, k)
    decreases n
  {
    hide Activation.Next, Shields, PoolsMatch, SecondProcedure;
    PoolsAbove(m, depth, k);
    SameShields(m.core.pools, k);
    if n > 0 {
      assert Machines(p, 0, m) == Going(m);
      StepShields(p, m, depth, k);
      if Activation.Next(p, m).Going? {
        var m1 := Activation.Next(p, m).m;
        assert Machines(p, 1, m) == Machines(p, 0, m1);
        forall j: nat | j <= n - 1 && Machines(p, j, m1).Going?
          ensures |Machines(p, j, m1).m.frames| > depth && (j < n - 1 ==> !SecondProcedure(p, Machines(p, j, m1).m))
        {
          assert Machines(p, j + 1, m) == Machines(p, j, m1);
        }
        CalleeIsShielded(p, n - 1, m1, depth, k);
        if Machines(p, n, m).Going? {
          ShieldsThrough(m.core.pools, m1.core.pools, Machines(p, n, m).m.core.pools, k);
        }
      }
    }
  }

  lemma SeenBelow(p: Pools, q: Pools, k: nat, name: string)
    requires Shields(p, q, k) && k >= 1 && name !in q[k].exposed
    ensures Get(q[..k], name) == Get(p[..k], name)
  {
    OwnerSame(p[..k], q[..k], name);
    assert p[..k][Owner(p[..k], name)] == p[Owner(p[..k], name)];
    assert q[..k][Owner(p[..k], name)] == q[Owner(p[..k], name)];
  }

  /**
   * The isolation PROCEDURE is for: an activation in m0 runs PROCEDURE, then anything at all without running it again,
   * and returns.  The caller finds as many pools as before, each exposing what it did, and every variable as it was
   * that the callee did not expose, RESULT apart.
   */
  lemma ProcedureIsolates(p: Program, n: nat, m0: Machine, value: bool, name: string)
    requires PoolsMatch(m0) && m0.frames != [] && m0.frames[|m0.frames| - 1].scope.None?
    requires var m1 := Procedure(m0).m;
             && (forall j :: 0 <= j <= n && Machines(p, j, m1).Going? ==> |Machines(p, j, m1).m.frames| >= |m0.frames|)
             && NeverTwice(p, n, m1)
             && Machines(p, n, m1).Going? && |Machines(p, n, m1).m.frames| == |m0.frames|
    ensures Kept(m0, Machines(p, n, Procedure(m0).m).m,
                 if value then ReturnValue(p, Machines(p, n, Procedure(m0).m).m) else Return(p, Machines(p, n, Procedure(m0).m).m), name)
  {
    var d, k := |m0.frames| - 1, |m0.core.pools|;
    var m1 := Procedure(m0).m;
    ProcedureOpens(m0);
    hide Procedure, Behind, Activation.Next, PoolsMatch, SecondProcedure, Machines, ReturnValue, Return, Kept, Shields;
    CalleeIsShielded(p, n, m1, d, k);
    var m := Machines(p, n, m1).m;
    BehindAtTop(m, d, k);
    LastReturn(p, m0, m1, m, value, name);
  }

  lemma ProcedureOpens(m: Machine)
    requires PoolsMatch(m) && m.frames != [] && m.frames[|m.frames| - 1].scope.None?
    ensures var q := Procedure(m).m;
            && |q.core.pools| > |m.core.pools| && q.core.pools[..|m.core.pools|] == m.core.pools
            && Behind(q, |m.frames| - 1, |m.core.pools|)
  {
    ProcedurePools(m);
  }

  lemma BehindAtTop(m: Machine, depth: nat, k: nat)
    requires Behind(m, depth, k) && |m.frames| == depth + 1
    ensures m.frames[|m.frames| - 1].scope == Some(k) && |m.core.pools| > k
  {
    PoolsAbove(m, depth, k);
  }

  /** After the return x of a callee that stood in m: the caller's pools are as in m0. */
  predicate Kept(m0: Machine, m: Machine, x: Step, name: string)
  {
    var k := |m0.core.pools|;
    && |m.core.pools| > k
    && (x.Going? ==>
         && |x.m.core.pools| == k
         && (forall i :: 0 <= i < k ==> x.m.core.pools[i].exposed == m0.core.pools[i].exposed)
         && (name != "RESULT" && name !in m.core.pools[k].exposed ==> Get(x.m.core.pools, name) == Get(m0.core.pools, name)))
  }

  lemma LastReturn(p: Program, m0: Machine, m1: Machine, m: Machine, value: bool, name: string)
    requires m.frames != [] && m.frames[|m.frames| - 1].scope == Some(|m0.core.pools|)
    requires |m1.core.pools| > |m0.core.pools| && m1.core.pools[..|m0.core.pools|] == m0.core.pools
    requires Shields(m1.core.pools, m.core.pools, |m0.core.pools|)
    ensures Kept(m0, m, if value then ReturnValue(p, m) else Return(p, m), name)
  {
    hide Get, Set, Drop, Shields, Leave, Down, Return, ReturnValue, Owner;
    var k := |m0.core.pools|;
    PoolsBelow(m0.core.pools, m1.core.pools, m.core.pools, name);
    var low := m.core.pools[..k];
    if !value {
      ReturnPools(p, m, k);
    } else if |m.core.stack| >= 1 {
      ReturnValuePools(p, m, k);
      GetSet(low, "RESULT", Top(m.core, 0), name);
      SetExposes(low, "RESULT", Top(m.core, 0));
    } else {
      NothingToReturn(p, m);
    }
  }

  /** What is left of the pools q of a callee that opened the k-th over the pools p0 of its caller. */
  lemma PoolsBelow(p0: Pools, p: Pools, q: Pools, name: string)
    requires |p| > |p0| && p[..|p0|] == p0 && Shields(p, q, |p0|)
    ensures |q| > |p0| && forall i :: 0 <= i < |p0| ==> q[i].exposed == p0[i].exposed
    ensures name !in q[|p0|].exposed ==> Get(q[..|p0|], name) == Get(p0, name)
  {
    hide Get, Owner;
    assert forall i :: 0 <= i < |p0| ==> p[i] == p0[i];
    if name !in q[|p0|].exposed { SeenBelow(p, q, |p0|, name); }
  }

  lemma ReturnPools(p: Program, m: Machine, k: nat)
    requires m.frames != [] && m.frames[|m.frames| - 1].scope == Some(k) && 1 <= k <= |m.core.pools|
    ensures Return(p, m).Going? && Return(p, m).m.core.pools == m.core.pools[..k]
  {
    hide Drop;
  }

  lemma ReturnValuePools(p: Program, m: Machine, k: nat)
    requires m.frames != [] && m.frames[|m.frames| - 1].scope == Some(k) && 1 <= k <= |m.core.pools| && |m.core.stack| >= 1
    ensures ReturnValue(p, m).Going?
    ensures ReturnValue(p, m).m.core.pools == Set(m.core.pools[..k], "RESULT", Top(m.core, 0))
  {
    hide Set;
  }

  lemma NothingToReturn(p: Program, m: Machine)
    requires m.core.stack == []
    ensures !ReturnValue(p, m).Going?
  {
  }

  lemma SetExposes(p: Pools, name: string, v: Cell)
    ensures SameExposed(Set(p, name, v), p)
  {
  }
}
