/** The VM's scan for labels before it runs: OP_SIZE steps over the code, noting where each LABEL ends. */
module Labels {
  import opened Options
  import opened NumberText
  import opened Bytecode
  import opened ExprSyntax
  import opened ExprCode
  import opened StmtSyntax
  import opened StmtCode
  import opened LoopParts
  import opened CodeShape
  import Placement
  import Programs
  import Simulation

  /** The position behind the last LABEL of symbol s from position `at` on; found if there is none. */
  function LabelFrom(code: seq<Byte>, at: nat, s: nat, found: int): int
    decreases |code| - at
  {
    if at >= |code| then found
    else LabelFrom(code, at + OpSize(code[at]), s,
                   if code[at] == OP_LABEL && at + 2 < |code| && ReadU16(code, at + 1) == s then at + 3 else found)
  }

  /** The label table: -1 where a symbol is no label, a later LABEL replacing an earlier one. */
  method ScanLabels(code: seq<Byte>, symbols: nat) returns (labels: array<int>)
    ensures fresh(labels) && labels.Length == symbols
    ensures forall s :: 0 <= s < symbols ==> labels[s] == LabelFrom(code, 0, s, -1)
  {
    labels := new int[symbols](_ => -1);
    var at := 0;
    while at < |code|
      invariant 0 <= at
      invariant forall s :: 0 <= s < symbols ==> LabelFrom(code, at, s, labels[s]) == LabelFrom(code, 0, s, -1)
      decreases |code| - at
    {
      var op := code[at];
      ghost var was := labels[..];
      if op == OP_LABEL && at + 2 < |code| {
        var s := ReadU16(code, at + 1);
        if s < symbols { labels[s] := at + 3; }
      }
      forall s | 0 <= s < symbols
        ensures LabelFrom(code, at + OpSize(op), s, labels[s]) == LabelFrom(code, 0, s, -1)
      {
        assert LabelFrom(code, at, s, was[s]) == LabelFrom(code, 0, s, -1);
      }
      at := at + OpSize(op);
    }
  }

  // ---- Labels of a program -------------------------------------------------------

  /** The same over cells. */
  function LabelIn(cs: seq<Code>, at: int, s: int, found: int): int
    requires Cut(cs)
    decreases |cs|
  {
    if cs == [] then found
    else
      var n := OpSize(cs[0].b);
      var here := cs[0].b == OP_LABEL && cs[1].B? && cs[2].B? && cs[1].b + 256 * cs[2].b == s;
      LabelIn(cs[n..], at + n, s, if here then at + 3 else found)
  }

  lemma LabelStep(cs: seq<Code>, at: int, s: int, found: int)
    requires Cut(cs) && cs != []
    ensures cs[0].B? && OpSize(cs[0].b) <= |cs| && Cut(cs[OpSize(cs[0].b)..])
    ensures var n := OpSize(cs[0].b);
            LabelIn(cs, at, s, found) == LabelIn(cs[n..], at + n, s, LabelIn1(cs[..n], at, s, found))
  {
  }

  function LabelIn1(c: seq<Code>, at: int, s: int, found: int): int
  {
    if |c| >= 3 && c[0].B? && c[0].b == OP_LABEL && c[1].B? && c[2].B? && c[1].b + 256 * c[2].b == s then at + 3 else found
  }

  lemma {:induction false} LabelJoin(a: seq<Code>, b: seq<Code>, at: int, s: int, found: int)
    requires Cut(a) && Cut(b)
    ensures Cut(a + b) && LabelIn(a + b, at, s, found) == LabelIn(b, at + |a|, s, LabelIn(a, at, s, found))
    decreases |a|
  {
    hide Cut, LabelIn, LabelIn1, OpSize;
    CutJoin(a, b);
    var w := a + b;
    if a == [] {
      NoLabel(at, s, found);
      assert w == b && at + |a| == at;
    } else {
      LabelStep(a, at, s, found);
      LabelStep(w, at, s, found);
      var n := OpSize(a[0].b);
      assert w[n..] == a[n..] + b && w[..n] == a[..n];
      LabelJoin(a[n..], b, at + n, s, LabelIn1(a[..n], at, s, found));
    }
  }

  lemma NoLabel(at: int, s: int, found: int)
    ensures Cut([]) && LabelIn([], at, s, found) == found
  {
  }

  /** Code without labels does not matter. */
  lemma {:induction false} Unmarked(cs: seq<Code>, at: int, s: int, found: int, off: int, whole: seq<Code>)
    requires Cut(cs) && InstrsOk(cs, off, whole, false)
    ensures LabelIn(cs, at, s, found) == found
    decreases |cs|
  {
    hide Cut, LabelIn, InstrsOk, OpSize, Bound;
    if cs == [] {
      NoLabel(at, s, found);
    } else {
      InstrsStep(cs, off, whole, false);
      LabelStep(cs, at, s, found);
      var n := OpSize(cs[0].b);
      NoLabelHere(cs[..n], at, s, found, off, whole);
      Unmarked(cs[n..], at + n, s, found, off + n, whole);
    }
  }

  lemma NoLabelHere(c: seq<Code>, at: int, s: int, found: int, off: int, whole: seq<Code>)
    requires c != [] && c[0].B? && |c| == OpSize(c[0].b) && InstrOk(c, off, whole, false)
    ensures LabelIn1(c, at, s, found) == found
  {
    hide OpSize, Bound;
  }

  /** Where the last label of this name ends, b standing at `at`. */
  function LabelEnd(b: Block, t: Tabs, at: int, name: string, found: int): int
    requires DepthOkB(b, 0)
    decreases b
  {
    match b
    case Done => found
    case Step(s, r) =>
      LabelEnd(r, TabS(s, t, 0), at + |CellsS(s, t, 0)|, name, if s == Label(name) then at + 3 else found)
  }

  /** The scan finds exactly the labels of the program, whatever the rest of its code holds. */
  lemma {:induction false} LabelsFound(b: Block, t: Tabs, at: nat, name: string, all: Tabs, found: int)
    requires DepthOkB(b, 0) && TopLabels(b) && |CellsB(b, t, 0)| <= MAX_CODE
    requires Extends(TabB(b, t, 0), all) && name in all.syms && TabsFit(all)
    ensures Cut(CellsB(b, t, 0)) && LabelIn(CellsB(b, t, 0), at, Find(all.syms, name), found) == LabelEnd(b, t, at, name, found)
    decreases b
  {
    hide Cut, LabelIn, CellsS, TabS, Find, Unlabelled, DepthOk, InstrsOk, Extends, TabsFit;
    TopSound(b, t);
    if b.Done? {
      NoLabel(at, Find(all.syms, name), found);
    } else {
      var a, t1 := CellsS(b.s, t, 0), TabS(b.s, t, 0);
      Simulation.TabBGrows(b.rest, t1, 0);
      Through(t1, TabB(b.rest, t1, 0), all);
      TopSound(b.rest, t1);
      var i := Find(all.syms, name);
      if b.s.Label? {
        LabelSound(b.s.name, t);
        OneLabel(b.s.name, t, at, name, all, found);
      } else {
        StmtSound(b.s, t, 0);
        Unmarked(a, at, i, found, 0, a);
      }
      LabelJoin(a, CellsB(b.rest, t1, 0), at, i, found);
      LabelsFound(b.rest, t1, at + |a|, name, all, if b.s == Label(name) then at + 3 else found);
    }
  }

  lemma OneLabel(n: string, t: Tabs, at: nat, name: string, all: Tabs, found: int)
    requires Extends(TabS(Label(n), t, 0), all) && name in all.syms && TabsFit(all) && Cut(CellsS(Label(n), t, 0))
    ensures LabelIn(CellsS(Label(n), t, 0), at, Find(all.syms, name), found) == if n == name then at + 3 else found
  {
    hide LabelIn, Cut, Find, Lo, Hi;
    var c := CellsS(Label(n), t, 0);
    var k := Find(t.syms, n);
    LabelStep(c, at, Find(all.syms, name), found);
    assert c[3..] == [] && c[..3] == c;
    NoLabel(at + 3, Find(all.syms, name), LabelIn1(c, at, Find(all.syms, name), found));
    SameIndex(n, t, all);
    Placement.FindsIt(all.syms, name);
    WordBack(k);
  }

  lemma WordBack(k: nat)
    requires k < 0x1_0000
    ensures Lo(k) + 256 * Hi(k) == k
  {
  }

  /** A label's index stays its index. */
  lemma SameIndex(n: string, t: Tabs, all: Tabs)
    requires Extends(AddSym(t, n), all) && TabsFit(all)
    ensures Find(t.syms, n) == Find(all.syms, n) < |all.syms| <= 512
  {
    hide Find;
    var u := AddSym(t, n);
    assert u.syms[Find(t.syms, n)] == n;
    Placement.FindStable(u.syms, all.syms, n);
    FoundThere(t.syms, n);
  }

  lemma {:induction false} FoundThere(t: seq<string>, n: string)
    ensures Find(Intern(t, n), n) == Find(t, n)
  {
    if Find(t, n) == |t| { Appended(t, n); }
  }

  lemma {:induction false} Appended(t: seq<string>, n: string)
    requires Find(t, n) == |t|
    ensures Find(t + [n], n) == |t|
  {
    if t != [] {
      assert (t + [n])[1..] == t[1..] + [n];
      Appended(t[1..], n);
    }
  }

  /** Over the bytes of the image. */
  lemma {:induction false} BytesScanned(cs: seq<Code>, code: seq<Byte>, at: nat, s: nat, found: int)
    requires Cut(cs) && at + |cs| + 1 == |code| && cs == Bytes(code[at..at + |cs|]) && code[|code| - 1] == OP_EXIT
    ensures LabelFrom(code, at, s, found) == LabelIn(cs, at, s, found)
    decreases |cs|
  {
    hide Cut, LabelIn, OpSize, LabelIn1, LabelFrom;
    if cs == [] {
      NoLabel(at, s, found);
      LastScanned(code, s, found);
    } else {
      LabelStep(cs, at, s, found);
      var n := OpSize(cs[0].b);
      assert code[at..at + |cs|][0] == code[at];
      assert cs[n..] == Bytes(code[at + n..at + |cs|]);
      OneScanned(cs, code, at, s, found);
      BytesScanned(cs[n..], code, at + n, s, LabelIn1(cs[..n], at, s, found));
    }
  }

  lemma LastScanned(code: seq<Byte>, s: nat, found: int)
    requires code != [] && code[|code| - 1] == OP_EXIT
    ensures LabelFrom(code, |code| - 1, s, found) == found
  {
  }

  lemma OneScanned(cs: seq<Code>, code: seq<Byte>, at: nat, s: nat, found: int)
    requires cs != [] && at + |cs| + 1 == |code| && cs == Bytes(code[at..at + |cs|]) && OpSize(code[at]) <= |cs|
    ensures var n := OpSize(code[at]);
            LabelFrom(code, at, s, found) == LabelFrom(code, at + n, s, LabelIn1(cs[..n], at, s, found))
  {
    hide Cut;
    forall i | 0 <= i < |cs| ensures cs[i] == B(code[at + i]) {
      assert code[at..at + |cs|][i] == code[at + i];
    }
  }

  /** The label table of a compiled program: for every name the end of the last label of that name, or -1. */
  lemma LabelTable(b: Block, name: string)
    requires DepthOkB(b, 0) && TopLabels(b) && Programs.ClosedB(b, false, false) && ImageOk(Programs.ImageOf(b))
    requires name in Programs.ImageOf(b).tabs.syms
    ensures LabelFrom(Programs.ImageOf(b).code, 0, Find(Programs.ImageOf(b).tabs.syms, name), -1)
         == LabelEnd(b, Programs.NO_TABS, 0, name, -1)
  {
    hide CellsB, TabB, DepthOkB, TopLabels, Programs.ClosedB, LabelEnd, LabelFrom, LabelIn, Cut;
    var cs := CellsB(b, Programs.NO_TABS, 0);
    var im := Programs.ImageOf(b);
    Programs.BlockOnly(b, Programs.NO_TABS, 0, false, false);
    assert Bytes(Programs.Written(cs)) == cs;
    Same(im.tabs);
    LabelsFound(b, Programs.NO_TABS, 0, name, im.tabs, -1);
    assert im.code[0..|cs|] == Programs.Written(cs);
    BytesScanned(cs, im.code, 0, Find(im.tabs.syms, name), -1);
  }

  // ---- Where labels lead ----------------------------------------------------------------

  lemma {:induction false} BoundNext(cs: seq<Code>, p: int)
    requires Bound(cs, p) && 0 <= p < |cs| && Cut(cs)
    ensures cs[p].B? && p + OpSize(cs[p].b) <= |cs| && Bound(cs, p + OpSize(cs[p].b))
    decreases |cs|
  {
    hide OpSize;
    var n := OpSize(cs[0].b);
    if p == 0 {
      assert Bound(cs[n..], 0);
    } else {
      NextBound(cs, p);
      BoundNext(cs[n..], p - n);
      assert cs[n..][p - n] == cs[p];
    }
  }

  /** The last label of a symbol, if it has one, ends in front of an instruction inside the code. */
  lemma {:induction false} LabelLands(code: seq<Byte>, at: nat, s: nat, found: int)
    requires Cut(Bytes(code)) && Boundary(code, at) && code != [] && code[|code| - 1] == OP_EXIT && Boundary(code, |code| - 1)
    requires found == -1 || (0 <= found < |code| && Boundary(code, found))
    ensures var f := LabelFrom(code, at, s, found); f == -1 || (0 <= f < |code| && Boundary(code, f))
    decreases |code| - at
  {
    hide Bound, Cut, ReadU16;
    if at < |code| {
      BoundNext(Bytes(code), at);
      var n := OpSize(code[at]);
      var here := code[at] == OP_LABEL && at + 2 < |code| && ReadU16(code, at + 1) == s;
      if here && at + 3 == |code| { NothingBetween(Bytes(code), at, |code| - 1); }
      LabelLands(code, at + n, s, if here then at + 3 else found);
    }
  }

  /** No instruction starts inside another. */
  lemma {:induction false} NothingBetween(cs: seq<Code>, p: int, q: int)
    requires Cut(cs) && Bound(cs, p) && Bound(cs, q) && 0 <= p < q < |cs|
    ensures cs[p].B? && q >= p + OpSize(cs[p].b)
    decreases |cs|
  {
    hide OpSize;
    var n := OpSize(cs[0].b);
    NextBound(cs, q);
    if p > 0 {
      NextBound(cs, p);
      NothingBetween(cs[n..], p - n, q - n);
      assert cs[n..][p - n] == cs[p];
    }
  }

  /** Of every image the compiler makes: each entry of the label table is -1 or the start of an instruction. */
  lemma LabelsLand(b: Block, s: nat)
    requires DepthOkB(b, 0) && TopLabels(b) && Programs.ClosedB(b, false, false) && ImageOk(Programs.ImageOf(b))
    ensures var code := Programs.ImageOf(b).code;
            var f := LabelFrom(code, 0, s, -1);
            f == -1 || (0 <= f < |code| && Boundary(code, f))
  {
    hide Bound, Cut, InstrsOk, CellsB, TabB, DepthOkB, TopLabels, Programs.ClosedB, LabelFrom;
    var cs := CellsB(b, Programs.NO_TABS, 0);
    var code := Programs.ImageOf(b).code;
    Programs.BlockOnly(b, Programs.NO_TABS, 0, false, false);
    TopSound(b, Programs.NO_TABS);
    assert Bytes(Programs.Written(cs)) == cs;
    PlainInstr([OP_EXIT], true);
    var exit := Bytes([OP_EXIT]);
    CutJoin(cs, exit);
    assert Bytes(code) == cs + exit;
    assert Boundary(code, 0) by { BoundStart(Bytes(code)); }
    LabelLands(code, 0, s, -1);
  }

  lemma BoundStart(cs: seq<Code>)
    ensures Bound(cs, 0)
  {
  }
}
