/** Counted loops around calls: what a routine does leaves the loops of its callers alone. */
module CallersLoops {
  import opened Bytecode
  import opened Tokens
  import opened ExprCode
  import opened ExprEmit
  import opened StmtSyntax
  import opened StmtEmit
  import opened TraceMap
  import opened CoreVm
  import opened CodeShape
  import opened LoopDepth
  import opened EndToEnd
  import opened Compiler
  import opened Activation

  /** m stands behind an instruction in the body of the counted loop whose FORINIT is at f. */
  predicate InBody(code: seq<Byte>, f: nat, m: Machine)
  {
    f + 13 <= |code| && f + 6 < m.core.pc <= LoopEnd(code, f) - 7
  }

  /** Where the loop keeps its count in the activation of m. */
  function CounterOf(code: seq<Byte>, f: nat, m: Machine): nat
    requires f + 1 < |code|
  {
    m.base + code[f + 1] as nat
  }

  /**
   * A compiled program calls a routine from inside a counted loop.  However long the routine runs, whatever it calls
   * in turn and whatever loops they all run, up to and including its return the count of the loop is what it was.
   */
  lemma LoopSurvivesCall(ts: Source, p: Program, f: nat, m: Machine, nargs: nat, push: bool, target: int, n: nat)
    requires ProgramDone(OK, ParseProgram(ts, 0), p.im.code, p.im.tabs) && Mapped(ts, p.marks)
    requires f < |p.im.code| && Boundary(p.im.code, f) && p.im.code[f] == OP_FORINIT && InBody(p.im.code, f, m)
    requires nargs <= |m.core.stack| && CounterOf(p.im.code, f, m) < |m.core.counters|
    requires var m1 := Enter(p, m, nargs, push, target);
             forall k :: 0 <= k < n && Machines(p, k, m1).Going? ==> |Machines(p, k, m1).m.frames| > |m.frames|
    ensures var i := CounterOf(p.im.code, f, m);
            var c := Machines(p, n, Enter(p, m, nargs, push, target)).m.core.counters;
            i < |c| && c[i] == m.core.counters[i]
  {
    hide Machines, Mapped, ProgramDone, ParseProgram, Boundary, SiteDepth, WithSigl, Texts;
    CompiledLoops(ts, OK, p.im, p.marks, f);
    var m1 := Enter(p, m, nargs, push, target);
    assert m1.base > CounterOf(p.im.code, f, m);
    CallersCountersStay(p, n, m1, |m.frames|, m1.base);
  }
}
