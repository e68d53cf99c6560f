/** Looking up the trace map: the clause an instruction belongs to. */
module TraceMap {
  import opened StmtEmit

  /** The last entry at or in front of pc, -1 if there is none: a scan from the end. */
  function LastAt(marks: seq<Mark>, pc: nat): (i: int)
    ensures -1 <= i < |marks|
    decreases |marks|
  {
    if marks == [] then -1
    else if marks[|marks| - 1].pc <= pc then |marks| - 1
    else LastAt(marks[..|marks| - 1], pc)
  }

  /** What the scan finds, in a map that ascends. */
  lemma {:induction false} LastAtIs(marks: seq<Mark>, pc: nat, i: nat)
    requires forall j, k :: 0 <= j < k < |marks| ==> marks[j].pc < marks[k].pc
    requires i < |marks| && marks[i].pc <= pc && (i + 1 < |marks| ==> pc < marks[i + 1].pc)
    ensures LastAt(marks, pc) == i
    decreases |marks|
  {
    if i + 1 < |marks| {
      var n := |marks| - 1;
      assert pc < marks[n].pc by { if n > i + 1 { assert marks[i + 1].pc < marks[n].pc; } }
      LastAtIs(marks[..n], pc, i);
    }
  }

  lemma {:induction false} LastAtNone(marks: seq<Mark>, pc: nat)
    requires (forall j, k :: 0 <= j < k < |marks| ==> marks[j].pc < marks[k].pc) && (marks != [] ==> pc < marks[0].pc)
    ensures LastAt(marks, pc) == -1
    decreases |marks|
  {
    if marks != [] {
      var n := |marks| - 1;
      assert pc < marks[n].pc by { if n > 0 { assert marks[0].pc < marks[n].pc; } }
      LastAtNone(marks[..n], pc);
    }
  }

  /** irx_bc_line_at: halving finds what the scan finds. */
  method LineAt(marks: seq<Mark>, pc: nat) returns (i: int)
    requires exists n :: MarksOk(marks, n)
    ensures i == LastAt(marks, pc)
  {
    hide LastAt;
    var n := |marks|;
    if n == 0 || pc < marks[0].pc {
      LastAtNone(marks, pc);
      return -1;
    }
    var lo, hi := 0, n - 1;
    while lo < hi
      invariant 0 <= lo <= hi < n && marks[lo].pc <= pc && (hi + 1 < n ==> pc < marks[hi + 1].pc)
    {
      var mid := lo + (hi - lo + 1) / 2;
      if marks[mid].pc <= pc {
        lo := mid;
      } else {
        hi := mid - 1;
      }
    }
    LastAtIs(marks, pc, lo);
    i := lo;
  }

  /** vm_site_depth: how many DO and SELECT blocks are open around the clause in front of pc. */
  function SiteDepth(marks: seq<Mark>, pc: int): nat
  {
    if pc <= 0 || LastAt(marks, pc - 1) < 0 then 0 else marks[LastAt(marks, pc - 1)].depth
  }

  method ReadSiteDepth(marks: seq<Mark>, pc: int) returns (d: nat)
    requires exists n :: MarksOk(marks, n)
    ensures d == SiteDepth(marks, pc)
  {
    hide LastAt;
    if pc <= 0 { return 0; }
    var i := LineAt(marks, pc - 1);
    d := if i < 0 then 0 else marks[i].depth;
  }
}
