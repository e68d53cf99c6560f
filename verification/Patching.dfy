/** Back-patching: what the compiler has written while jumps are still open, and that patching the
recorded positions fills exactly the holes. */
module Patching {
  import opened Bytecode
  import opened StmtCode

  /** Whether the iterate point of the innermost DO is known already, and where it is. */
  datatype Known = Known(known: bool, target: int)

  function EmittedByte(c: Code, i: int, x: Known): Byte
  {
    match c
    case B(b) => b
    case Hole(k, high) => if k.IterateHole? && x.known then HoleByte(high, i, x.target) else 0
  }

  /** The bytes written for cells from position `at` on. */
  function Emitted(cs: seq<Code>, at: int, x: Known): (s: seq<Byte>)
    ensures |s| == |cs|
  {
    seq(|cs|, i requires 0 <= i < |cs| => EmittedByte(cs[i], at + i, x))
  }

  lemma EmittedJoin(a: seq<Code>, b: seq<Code>, at: int, x: Known)
    ensures Emitted(a + b, at, x) == Emitted(a, at, x) + Emitted(b, at + |a|, x)
  {
  }

  lemma EmittedBytes(s: seq<Byte>, at: int, x: Known)
    ensures Emitted(Bytes(s), at, x) == s
  {
  }

  /** Holes come in pairs, low byte first. */
  predicate Paired(cs: seq<Code>)
    decreases |cs|
  {
    if cs == [] then true
    else if cs[0].B? then Paired(cs[1..])
    else !cs[0].high && |cs| >= 2 && cs[1] == Hole(cs[0].k, true) && Paired(cs[2..])
  }

  /** Where the jumps with holes of kind k are, `at` being the position of the first cell. */
  function Positions(cs: seq<Code>, k: HoleKind, at: int): seq<int>
    decreases |cs|
  {
    if cs == [] then []
    else if cs[0].Hole? && |cs| >= 2 then (if cs[0].k == k then [at - 1] else []) + Positions(cs[2..], k, at + 2)
    else Positions(cs[1..], k, at + 1)
  }

  lemma {:induction false} PairedJoin(a: seq<Code>, b: seq<Code>)
    requires Paired(a) && Paired(b)
    ensures Paired(a + b)
    decreases |a|
  {
    if a == [] {
      assert a + b == b;
    } else if a[0].B? {
      PairedJoin(a[1..], b);
      assert (a + b)[1..] == a[1..] + b;
    } else {
      PairedJoin(a[2..], b);
      assert (a + b)[2..] == a[2..] + b;
    }
  }

  lemma PositionsByte(a: seq<Code>, k: HoleKind, at: int)
    requires a != [] && a[0].B?
    ensures Positions(a, k, at) == Positions(a[1..], k, at + 1)
  {
  }

  lemma PositionsPair(a: seq<Code>, k: HoleKind, at: int)
    requires |a| >= 2 && a[0].Hole?
    ensures Positions(a, k, at) == (if a[0].k == k then [at - 1] else []) + Positions(a[2..], k, at + 2)
  {
  }

  lemma PositionsNone(k: HoleKind, at: int)
    ensures Positions([], k, at) == []
  {
  }

  lemma {:induction false} PositionsJoin(a: seq<Code>, b: seq<Code>, k: HoleKind, at: int)
    requires Paired(a)
    ensures Positions(a + b, k, at) == Positions(a, k, at) + Positions(b, k, at + |a|)
    decreases |a|
  {
    hide Positions;
    if a == [] {
      PositionsNone(k, at);
      assert a + b == b;
    } else if a[0].B? {
      PositionsJoin(a[1..], b, k, at + 1);
      PositionsByte(a, k, at);
      PositionsByte(a + b, k, at);
      assert (a + b)[1..] == a[1..] + b;
    } else {
      PositionsJoin(a[2..], b, k, at + 2);
      PositionsPair(a, k, at);
      PositionsPair(a + b, k, at);
      assert (a + b)[2..] == a[2..] + b;
      Reassociate(if a[0].k == k then [at - 1] else [], Positions(a[2..], k, at + 2), Positions(b, k, at + |a|));
    }
  }

  lemma Reassociate(p: seq<int>, q: seq<int>, r: seq<int>)
    ensures p + (q + r) == p + q + r
  {
  }

  lemma {:induction false} BytesPaired(s: seq<Byte>, k: HoleKind, at: int)
    ensures Paired(Bytes(s)) && Positions(Bytes(s), k, at) == []
    decreases |s|
  {
    if s != [] {
      BytesPaired(s[1..], k, at + 1);
      assert Bytes(s)[1..] == Bytes(s[1..]);
    }
  }

  lemma HoleJumpPaired(op: Byte, k: HoleKind, j: HoleKind, at: int)
    ensures Paired(HoleJump(op, k)) && Positions(HoleJump(op, k), j, at) == if j == k then [at] else []
  {
    var cs := HoleJump(op, k);
    assert cs[1..] == [Hole(k, false), Hole(k, true)];
    assert cs[1..][2..] == [];
    assert Positions(cs[1..], j, at + 1) == if j == k then [at] else [];
  }

  /** Filling the holes of one kind leaves the others where they are. */
  lemma {:induction false} FillPaired(cs: seq<Code>, k: HoleKind, o: int, target: int, j: HoleKind, at: int)
    requires Paired(cs)
    ensures Paired(Fill(cs, k, o, target))
    ensures Positions(Fill(cs, k, o, target), j, at) == if j == k then [] else Positions(cs, j, at)
    decreases |cs|
  {
    hide HoleByte;
    var f := Fill(cs, k, o, target);
    if cs == [] {
    } else if cs[0].B? {
      FillPaired(cs[1..], k, o + 1, target, j, at + 1);
      assert f[1..] == Fill(cs[1..], k, o + 1, target);
    } else {
      FillPaired(cs[2..], k, o + 2, target, j, at + 2);
      assert f[2..] == Fill(cs[2..], k, o + 2, target);
      if cs[0].k == k {
        assert f[1..][1..] == f[2..];
        assert f[0].B? && f[1].B?;
        assert Positions(f, j, at) == Positions(f[1..], j, at + 1) == Positions(f[2..], j, at + 2);
      }
    }
  }

  /** The jumps recorded for cells are jumps in them. */
  lemma {:induction false} PositionsInside(x: seq<Code>, k: HoleKind, at: int, i: nat)
    requires Paired(x) && i < |Positions(x, k, at)|
    ensures at - 1 <= Positions(x, k, at)[i] && Positions(x, k, at)[i] + 2 < at + |x|
    decreases |x|
  {
    if x != [] {
      if x[0].B? {
        PositionsInside(x[1..], k, at + 1, i);
      } else if x[0].k == k {
        if i > 0 { PositionsInside(x[2..], k, at + 2, i - 1); }
      } else {
        PositionsInside(x[2..], k, at + 2, i);
      }
    }
  }

  /** patch_jmp_to: the displacement of the jump at p. */
  function PatchAt(code: seq<Byte>, p: int, target: int): (r: seq<Byte>)
    ensures |r| == |code|
  {
    if 0 <= p && p + 2 < |code| then code[p + 1 := Lo(target - (p + 3))][p + 2 := Hi(target - (p + 3))] else code
  }

  function PatchAll(code: seq<Byte>, ps: seq<int>, target: int): (r: seq<Byte>)
    ensures |r| == |code|
    decreases |ps|
  {
    if ps == [] then code else PatchAll(PatchAt(code, ps[0], target), ps[1..], target)
  }

  /** Patching the recorded positions is filling the holes. */
  lemma {:induction false} PatchFills(base: seq<Byte>, cs: seq<Code>, k: HoleKind, target: int, x: Known, from: int)
    requires Paired(cs) && |base| >= 1 && (k.IterateHole? ==> !x.known)
    ensures PatchAll(base + Emitted(cs, |base|, x), Positions(cs, k, |base|), target)
         == base + Emitted(Fill(cs, k, |base| - from, target - from), |base|, x)
    decreases |cs|
  {
    hide Lo, Hi, Emitted, Fill, EmittedByte, PatchAll;
    var at := |base|;
    if cs == [] {
      NothingToFill(base, cs, k, target, x, from);
    } else if cs[0].B? {
      var base' := base + [cs[0].b];
      PositionsByte(cs, k, at);
      ByteStep(base, cs, k, target, x, from);
      PatchFills(base', cs[1..], k, target, x, from);
    } else {
      var f := Fill(cs, k, at - from, target - from);
      var base' := base + [EmittedByte(f[0], at, x), EmittedByte(f[1], at + 1, x)];
      PositionsPair(cs, k, at);
      PairStep(base, cs, k, target, x, from);
      PatchFills(base', cs[2..], k, target, x, from);
      if cs[0].k == k { PatchFirst(base + Emitted(cs, at, x), at - 1, Positions(cs[2..], k, at + 2), target); }
      else { assert [] + Positions(cs[2..], k, at + 2) == Positions(cs[2..], k, at + 2); }
    }
  }

  lemma PatchFirst(code: seq<Byte>, p: int, ps: seq<int>, target: int)
    ensures PatchAll(code, [p] + ps, target) == PatchAll(PatchAt(code, p, target), ps, target)
  {
    assert ([p] + ps)[1..] == ps;
  }

  lemma NothingToFill(base: seq<Byte>, cs: seq<Code>, k: HoleKind, target: int, x: Known, from: int)
    requires cs == []
    ensures PatchAll(base + Emitted(cs, |base|, x), Positions(cs, k, |base|), target)
         == base + Emitted(Fill(cs, k, |base| - from, target - from), |base|, x)
  {
  }

  lemma ByteStep(base: seq<Byte>, cs: seq<Code>, k: HoleKind, target: int, x: Known, from: int)
    requires cs != [] && cs[0].B?
    ensures var at := |base|;
            var base' := base + [cs[0].b];
            base + Emitted(cs, at, x) == base' + Emitted(cs[1..], at + 1, x)
            && base + Emitted(Fill(cs, k, at - from, target - from), at, x)
               == base' + Emitted(Fill(cs[1..], k, at + 1 - from, target - from), at + 1, x)
  {
    hide Lo, Hi;
    var at := |base|;
    assert Emitted(cs, at, x) == [cs[0].b] + Emitted(cs[1..], at + 1, x);
    var f, f' := Fill(cs, k, at - from, target - from), Fill(cs[1..], k, at + 1 - from, target - from);
    assert f == [cs[0]] + f';
    assert Emitted(f, at, x) == [cs[0].b] + Emitted(f', at + 1, x);
  }

  lemma PairStep(base: seq<Byte>, cs: seq<Code>, k: HoleKind, target: int, x: Known, from: int)
    requires |cs| >= 2 && cs[0].Hole? && !cs[0].high && cs[1] == Hole(cs[0].k, true) && |base| >= 1
    requires k.IterateHole? ==> !x.known
    ensures var at := |base|;
            var f := Fill(cs, k, at - from, target - from);
            var base' := base + [EmittedByte(f[0], at, x), EmittedByte(f[1], at + 1, x)];
            base + Emitted(f, at, x) == base' + Emitted(Fill(cs[2..], k, at + 2 - from, target - from), at + 2, x)
            && base' + Emitted(cs[2..], at + 2, x)
               == if cs[0].k == k then PatchAt(base + Emitted(cs, at, x), at - 1, target) else base + Emitted(cs, at, x)
  {
    hide Lo, Hi;
    var at := |base|;
    var rest := Emitted(cs[2..], at + 2, x);
    assert Emitted(cs, at, x) == [EmittedByte(cs[0], at, x), EmittedByte(cs[1], at + 1, x)] + rest;
    var f, f' := Fill(cs, k, at - from, target - from), Fill(cs[2..], k, at + 2 - from, target - from);
    assert f == [f[0], f[1]] + f';
    assert Emitted(f, at, x) == [EmittedByte(f[0], at, x), EmittedByte(f[1], at + 1, x)] + Emitted(f', at + 2, x);
  }

  /** Patching a jump over code that has been written meanwhile. */
  lemma PatchOver(a: seq<Byte>, op: Byte, y: seq<Byte>, target: int)
    ensures PatchAt(a + [op, 0, 0] + y, |a|, target) == a + ([op] + Word(target - (|a| + 3))) + y
  {
  }

  /** Jumps to a known iterate point are written complete. */
  lemma KnownIsFilled(cs: seq<Code>, at: int, top: int, x: Known)
    ensures Emitted(cs, at, Known(true, top)) == Emitted(Fill(cs, IterateHole, 0, top - at), at, x)
  {
    hide Lo, Hi;
  }

  /** Without iterate holes it does not matter what is known. */
  lemma NoIterate(cs: seq<Code>, at: int, x: Known, y: Known)
    requires forall i :: 0 <= i < |cs| && cs[i].Hole? ==> !cs[i].k.IterateHole?
    ensures Emitted(cs, at, x) == Emitted(cs, at, y)
  {
  }
}
