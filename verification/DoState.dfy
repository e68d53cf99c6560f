/** The compiler's state while a DO is open: which cells of the loop are written, which jumps recorded. */
module DoState {
  import opened Options
  import opened NumberText
  import opened Bytecode
  import opened ExprSyntax
  import opened ExprCode
  import opened ExprEmit
  import opened StmtSyntax
  import opened StmtCode
  import opened Patching
  import opened CompilerState

  const UNKNOWN := Known(false, 0)

  /** The cells as an outer block sees them: jumps of this loop are its own business. */
  function Closed(x: seq<Code>): seq<Code>
  {
    Fill(Fill(x, LeaveHole, 0, 0), IterateHole, 0, 0)
  }

  predicate NoIterateHole(x: seq<Code>)
  {
    forall i :: 0 <= i < |x| && x[i].Hole? ==> !x[i].k.IterateHole?
  }

  /** The loop's cells x are written behind ct, its iterate point is known and every LEAVE is recorded. */
  predicate LoopState(cur: State, ct: seq<Byte>, fs: seq<Frame>, target: int, x: seq<Code>, t: Tabs)
  {
    NoIterateHole(x) && Paired(x)
    && cur == State(ct + Emitted(x, |ct|, UNKNOWN), t,
                    AddHoles(fs, Closed(x), |ct|) + [Frame(false, true, target, Positions(x, LeaveHole, |ct|), [])])
  }

  lemma ClosedPositions(x: seq<Code>, at: int)
    requires Paired(x)
    ensures Positions(Closed(x), LeaveHole, at) == [] && Positions(Closed(x), IterateHole, at) == []
    ensures Positions(Closed(x), SelectHole, at) == Positions(x, SelectHole, at)
  {
    hide Positions, Paired;
    var y := Fill(x, LeaveHole, 0, 0);
    forall j ensures Positions(y, j, at) == if j == LeaveHole then [] else Positions(x, j, at) {
      FillPaired(x, LeaveHole, 0, 0, j, at);
    }
    FillPaired(x, LeaveHole, 0, 0, LeaveHole, at);
    FillPaired(y, IterateHole, 0, 0, LeaveHole, at);
    FillPaired(y, IterateHole, 0, 0, IterateHole, at);
    FillPaired(y, IterateHole, 0, 0, SelectHole, at);
  }

  lemma InnerPush(fs: seq<Frame>, f: Frame)
    ensures InnerLoop(fs + [f]) == if f.isSelect then InnerLoop(fs) else |fs|
    ensures InnerSelect(fs + [f]) == if f.isSelect then |fs| else InnerSelect(fs)
  {
    assert (fs + [f])[..|fs|] == fs;
  }

  /** A new DO frame takes the LEAVEs and ITERATEs of its body; a named LEAVE goes on to the SELECT around. */
  lemma LoopFrameHoles(fs: seq<Frame>, f: Frame, x: seq<Code>, at: int)
    requires !f.isSelect && Paired(x)
    ensures AddHoles(fs + [f], x, at)
         == AddHoles(fs, Closed(x), at)
            + [f.(leaves := f.leaves + Positions(x, LeaveHole, at),
                  iterates := if f.known then f.iterates else f.iterates + Positions(x, IterateHole, at))]
  {
    hide InnerLoop, InnerSelect, Positions, Paired, Closed;
    InnerPush(fs, f);
    ClosedPositions(x, at);
    var gs := AddHoles(fs + [f], x, at);
    forall i | 0 <= i < |fs| ensures gs[i] == Noted(fs, i, Closed(x), at) {
      assert (fs + [f])[i] == fs[i];
    }
  }

  /** FOREVER and WHILE know their iterate point from the start. */
  lemma BodyKnown(ct: seq<Byte>, t0: Tabs, fs: seq<Frame>, x: seq<Code>, t: Tabs, cur: State)
    requires Paired(x) && cur == After(State(ct, t0, fs + [Frame(false, true, |ct|, [], [])]), x, t)
    ensures LoopState(cur, ct, fs, |ct|, Fill(x, IterateHole, 0, 0), t)
  {
    hide Positions, Paired, InnerLoop, InnerSelect, Emitted, AddHoles;
    var f := Frame(false, true, |ct|, [], []);
    var y := Fill(x, IterateHole, 0, 0);
    InnerPush(fs, f);
    LoopFrameHoles(fs, f, x, |ct|);
    KnownIsFilled(x, |ct|, |ct|, UNKNOWN);
    FillPaired(x, IterateHole, 0, 0, LeaveHole, |ct|);
    SameOutside(fs, x, y, |ct|, 0);
    FilledIterate(x, 0);
    assert [] + Positions(x, LeaveHole, |ct|) == Positions(x, LeaveHole, |ct|);
  }

  lemma FilledIterate(x: seq<Code>, it: int)
    ensures NoIterateHole(Fill(x, IterateHole, 0, it))
  {
    hide HoleByte;
  }

  lemma SameOutside(fs: seq<Frame>, x: seq<Code>, y: seq<Code>, at: int, it: int)
    requires Paired(x) && y == Fill(x, IterateHole, 0, it)
    ensures AddHoles(fs, Closed(x), at) == AddHoles(fs, Closed(y), at)
  {
    hide Positions, Paired, InnerLoop, InnerSelect, Closed;
    ClosedPositions(x, at);
    FillPaired(x, IterateHole, 0, it, SelectHole, at);
    ClosedPositions(y, at);
    forall i | 0 <= i < |fs| ensures Noted(fs, i, Closed(x), at) == Noted(fs, i, Closed(y), at) { }
  }

  /** The others learn it behind the body and patch the ITERATEs recorded so far. */
  lemma BodyPatched(ct: seq<Byte>, t0: Tabs, fs: seq<Frame>, x: seq<Code>, t: Tabs, it: int, was: State, cur: State)
    requires Paired(x) && |ct| >= 1 && was == After(State(ct, t0, fs + [Frame(false, false, 0, [], [])]), x, t)
    requires cur == State(PatchAll(was.code, was.fs[|fs|].iterates, |ct| + it), t,
                          was.fs[|fs| := was.fs[|fs|].(known := true, target := |ct| + it, iterates := [])])
    ensures LoopState(cur, ct, fs, |ct| + it, Fill(x, IterateHole, 0, it), t)
  {
    hide Positions, Paired, InnerLoop, InnerSelect, Emitted, AddHoles, PatchAll;
    var f := Frame(false, false, 0, [], []);
    var y := Fill(x, IterateHole, 0, it);
    InnerPush(fs, f);
    LoopFrameHoles(fs, f, x, |ct|);
    FilledIterate(x, it);
    FillPaired(x, IterateHole, 0, it, LeaveHole, |ct|);
    SameOutside(fs, x, y, |ct|, it);
    var at := |ct|;
    assert [] + Positions(x, LeaveHole, at) == Positions(x, LeaveHole, at);
    assert [] + Positions(x, IterateHole, at) == Positions(x, IterateHole, at);
    PatchFills(ct, x, IterateHole, at + it, UNKNOWN, at);
    KnownAway(x, at, Known(false, 0));
  }

  lemma KnownAway(x: seq<Code>, at: int, k: Known)
    requires !k.known
    ensures Emitted(x, at, k) == Emitted(x, at, UNKNOWN)
  {
  }

  /** More code behind the body. */
  lemma LoopGrows(ct: seq<Byte>, fs: seq<Frame>, target: int, x: seq<Code>, t0: Tabs, y: seq<Code>, t: Tabs, was: State, cur: State)
    requires LoopState(was, ct, fs, target, x, t0) && Paired(y) && NoIterateHole(y) && cur == After(was, y, t)
    ensures LoopState(cur, ct, fs, target, x + y, t)
  {
    hide Positions, Paired, InnerLoop, InnerSelect, Emitted, AddHoles;
    var at := |ct|;
    var gs := AddHoles(fs, Closed(x), at);
    var f := Frame(false, true, target, Positions(x, LeaveHole, at), []);
    EmittedJoin(x, y, at, UNKNOWN);
    InnerPush(gs, f);
    NoIterate(y, at + |x|, KnownOf(was.fs), UNKNOWN);
    LoopFrameHoles(gs, f, y, at + |x|);
    PositionsJoin(x, y, LeaveHole, at);
    PairedJoin(x, y);
    ClosedJoin(fs, x, y, at);
    assert ct + Emitted(x, at, UNKNOWN) + Emitted(y, at + |x|, UNKNOWN) == ct + (Emitted(x, at, UNKNOWN) + Emitted(y, at + |x|, UNKNOWN));
  }

  lemma ClosedJoin(fs: seq<Frame>, x: seq<Code>, y: seq<Code>, at: int)
    requires Paired(x) && Paired(y)
    ensures AddHoles(AddHoles(fs, Closed(x), at), Closed(y), at + |x|) == AddHoles(fs, Closed(x + y), at)
  {
    hide Positions, Paired, InnerLoop, InnerSelect, Closed;
    ClosedPositions(x, at);
    ClosedPositions(y, at + |x|);
    PairedJoin(x, y);
    ClosedPositions(x + y, at);
    PositionsJoin(x, y, SelectHole, at);
    var gs := AddHoles(fs, Closed(x), at);
    HolesKeepKinds(fs, Closed(x), at);
    forall i | 0 <= i < |fs| ensures Noted(gs, i, Closed(y), at + |x|) == Noted(fs, i, Closed(x + y), at) {
      Reassociate(fs[i].leaves, Positions(x, SelectHole, at), Positions(y, SelectHole, at + |x|));
    }
  }

  /** The jump of the loop's condition learns where the loop ends. */
  lemma ConditionPatched(ct: seq<Byte>, fs: seq<Frame>, target: int, a: seq<Code>, op: Byte, b: seq<Code>, t: Tabs, end: int, was: State, cur: State)
    requires LoopState(was, ct, fs, target, a + Jump(op, 0) + b, t)
    requires cur == was.(code := PatchAt(was.code, |ct| + |a|, end))
    ensures LoopState(cur, ct, fs, target, a + Jump(op, end - (|ct| + |a| + 3)) + b, t)
  {
    hide Positions, InnerLoop, InnerSelect, Emitted, AddHoles, PatchAt, Lo, Hi, Paired;
    var at := |ct|;
    var v := end - (at + |a| + 3);
    var x, y := a + Jump(op, 0) + b, a + Jump(op, v) + b;
    JumpsAlike(a, op, v, b);
    HolesAlike(y, x, LeaveHole, at);
    PairedAlike(y, x);
    ClosedAlike(fs, y, x, at);
    JumpWritten(ct, a, op, b, end);
  }

  lemma JumpWritten(ct: seq<Byte>, a: seq<Code>, op: Byte, b: seq<Code>, end: int)
    ensures var at := |ct|;
            ct + Emitted(a + Jump(op, end - (at + |a| + 3)) + b, at, UNKNOWN)
            == PatchAt(ct + Emitted(a + Jump(op, 0) + b, at, UNKNOWN), at + |a|, end)
  {
    hide Emitted, Lo, Hi, PatchAt;
    var at, p := |ct|, |ct| + |a|;
    var v := end - (p + 3);
    forall w ensures Emitted(a + Jump(op, w) + b, at, UNKNOWN)
                  == Emitted(a, at, UNKNOWN) + ([op] + Word(w)) + Emitted(b, p + 3, UNKNOWN) {
      EmittedJoin(a + Jump(op, w), b, at, UNKNOWN);
      EmittedJoin(a, Jump(op, w), at, UNKNOWN);
      EmittedBytes([op] + Word(w), p, UNKNOWN);
    }
    var c, z := ct + Emitted(a, at, UNKNOWN), Emitted(b, p + 3, UNKNOWN);
    PatchOver(c, op, z, end);
    ZeroWord();
    assert ct + Emitted(a + Jump(op, 0) + b, at, UNKNOWN) == c + [op, 0, 0] + z;
    assert ct + Emitted(a + Jump(op, v) + b, at, UNKNOWN) == c + ([op] + Word(v)) + z;
  }

  lemma {:induction false} PairedAlike(a: seq<Code>, b: seq<Code>)
    requires |a| == |b| && forall i :: 0 <= i < |a| ==> a[i].B? == b[i].B? && (a[i].Hole? ==> a[i] == b[i])
    ensures Paired(a) == Paired(b)
    decreases |a|
  {
    if a != [] {
      if a[0].B? { PairedAlike(a[1..], b[1..]); }
      else if |a| >= 2 { PairedAlike(a[2..], b[2..]); }
    }
  }

  lemma ClosedAlike(fs: seq<Frame>, a: seq<Code>, b: seq<Code>, at: int)
    requires Paired(a) && Paired(b)
    requires |a| == |b| && forall i :: 0 <= i < |a| ==> a[i].B? == b[i].B? && (a[i].Hole? ==> a[i] == b[i])
    ensures AddHoles(fs, Closed(a), at) == AddHoles(fs, Closed(b), at)
  {
    hide Positions, Paired, InnerLoop, InnerSelect, Closed;
    ClosedPositions(a, at);
    ClosedPositions(b, at);
    HolesAlike(a, b, SelectHole, at);
    forall i | 0 <= i < |fs| ensures Noted(fs, i, Closed(a), at) == Noted(fs, i, Closed(b), at) { }
  }

  /** All LEAVEs patched to the end of the loop, the frame closed. */
  lemma LoopDone(st: State, target: int, x: seq<Code>, t: Tabs, was: State, cur: State)
    requires |st.code| >= 1 && LoopState(was, st.code, st.fs, target, x, t)
    requires cur == State(PatchAll(was.code, was.fs[|st.fs|].leaves, |st.code| + |x|), t, was.fs[..|st.fs|])
    ensures cur == After(st, Fill(x, LeaveHole, 0, |x|), t)
  {
    hide Positions, Paired, InnerLoop, InnerSelect, Emitted, AddHoles, PatchAll;
    var at := |st.code|;
    var y := Fill(x, LeaveHole, 0, |x|);
    PatchFills(st.code, x, LeaveHole, at + |x|, UNKNOWN, at);
    FilledKeeps(x, LeaveHole, |x|);
    NoIterate(y, at, UNKNOWN, KnownOf(st.fs));
    DoneOutside(st.fs, x, y, at);
  }

  lemma FilledKeeps(x: seq<Code>, k: HoleKind, target: int)
    requires NoIterateHole(x)
    ensures NoIterateHole(Fill(x, k, 0, target))
  {
    hide HoleByte;
  }

  lemma DoneOutside(fs: seq<Frame>, x: seq<Code>, y: seq<Code>, at: int)
    requires Paired(x) && NoIterateHole(x) && y == Fill(x, LeaveHole, 0, |x|)
    ensures AddHoles(fs, Closed(x), at) == AddHoles(fs, y, at)
  {
    hide Positions, Paired, InnerLoop, InnerSelect, Closed;
    ClosedPositions(x, at);
    FillPaired(x, LeaveHole, 0, |x|, LeaveHole, at);
    FillPaired(x, LeaveHole, 0, |x|, SelectHole, at);
    FillPaired(x, LeaveHole, 0, |x|, IterateHole, at);
    NoIteratePositions(x, at);
    forall i | 0 <= i < |fs| ensures Noted(fs, i, Closed(x), at) == Noted(fs, i, y, at) { }
  }

  lemma {:induction false} NoIteratePositions(x: seq<Code>, at: int)
    requires NoIterateHole(x)
    ensures Positions(x, IterateHole, at) == []
    decreases |x|
  {
    if x == [] {
    } else if x[0].Hole? && |x| >= 2 {
      NoIteratePositions(x[2..], at + 2);
    } else {
      NoIteratePositions(x[1..], at + 1);
    }
  }

  // ---- SELECT ---------------------------------------------------------------------------

  /** A SELECT's cells x written behind st, every jump to its end recorded in its own frame. */
  lemma SelectFrameHoles(fs: seq<Frame>, f: Frame, x: seq<Code>, at: int)
    requires f.isSelect && Paired(x)
    ensures AddHoles(fs + [f], x, at)
         == AddHoles(fs, Fill(x, SelectHole, 0, |x|), at) + [f.(leaves := f.leaves + Positions(x, SelectHole, at))]
    ensures KnownOf(fs + [f]) == KnownOf(fs)
  {
    hide InnerLoop, InnerSelect, Positions, Paired;
    InnerPush(fs, f);
    var y := Fill(x, SelectHole, 0, |x|);
    FillPaired(x, SelectHole, 0, |x|, LeaveHole, at);
    FillPaired(x, SelectHole, 0, |x|, IterateHole, at);
    FillPaired(x, SelectHole, 0, |x|, SelectHole, at);
    var gs := AddHoles(fs + [f], x, at);
    forall i | 0 <= i < |fs| ensures gs[i] == Noted(fs, i, y, at) {
      assert (fs + [f])[i] == fs[i];
      if i == InnerSelect(fs) { assert fs[i].leaves + [] == fs[i].leaves; }
    }
  }

  lemma SelectDone(st: State, x: seq<Code>, t: Tabs, was: State, cur: State)
    requires |st.code| >= 1 && Paired(x)
    requires was == After(st.(fs := st.fs + [Frame(true, false, 0, [], [])]), x, t)
    requires cur == State(PatchAll(was.code, was.fs[|st.fs|].leaves, |st.code| + |x|), t, was.fs[..|st.fs|])
    ensures cur == After(st, Fill(x, SelectHole, 0, |x|), t)
  {
    hide Positions, Paired, InnerLoop, InnerSelect, Emitted, AddHoles, PatchAll, KnownOf;
    var at := |st.code|;
    SelectFrameHoles(st.fs, Frame(true, false, 0, [], []), x, at);
    assert [] + Positions(x, SelectHole, at) == Positions(x, SelectHole, at);
    PatchFills(st.code, x, SelectHole, at + |x|, KnownOf(st.fs), at);
  }
}
