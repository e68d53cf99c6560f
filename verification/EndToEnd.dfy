/** From tokens to behaviour: compiling a program and running what comes out. */
module EndToEnd {
  import opened ArithOps
  import opened Bytecode
  import opened VmValues
  import opened CoreVm
  import opened CacheRefinement
  import opened Tokens
  import opened ExprCode
  import opened ExprEmit
  import opened StmtSyntax
  import opened StmtCode
  import opened StmtSemantics
  import opened CompilerState
  import opened StmtEmit
  import opened Compiler
  import opened CodeShape
  import opened Labels
  import opened Depths
  import opened LoopDepth
  import opened TraceMap
  import Programs

  /** irx_bc_compile: an image exactly if the program parses and the code, the tables and the jumps waiting
  in each block keep within their limits; jumps cannot be too many if all the program has are at most 48. */
  method Compile(ts: Source) returns (rc: Rc, im: Image, marks: seq<Mark>)
    ensures ProgramDone(rc, ParseProgram(ts, 0), im.code, im.tabs)
    ensures MarksOk(marks, |im.code|) && (rc == OK ==> Mapped(ts, marks))
  {
    hide ProgramDone, MarksOk, ParseProgram, Deep, DeepB;
    var c := new Compiler(ts);
    c.CompileProgram();
    rc, im, marks := c.rc, Image(c.code, c.Tables()), c.lmap;
  }

  /** The trace map tells no byte to lie less deep than its statement. */
  ghost predicate Mapped(ts: Source, marks: seq<Mark>)
  {
    ParseProgram(ts, 0).Got? && DepthOkB(ParseProgram(ts, 0).v, 0) && Deep(marks, DeepB(ParseProgram(ts, 0).v, Programs.NO_TABS, 0))
  }

  /** Code and tables within their limits. */
  predicate Small(im: Image)
  {
    && |im.code| <= 16384 && |im.tabs.consts| <= 512 && |im.tabs.syms| <= 512
    && (forall i :: 0 <= i < |im.tabs.consts| ==> |im.tabs.consts[i]| <= 63)
    && (forall i :: 0 <= i < |im.tabs.syms| ==> |im.tabs.syms[i]| <= 63)
  }

  /** What the conditions on the end of a compile come to. */
  lemma CompiledExactly(rc: Rc, r: Got<Block>, code: seq<Byte>, t: Tabs)
    requires ProgramDone(rc, r, code, t) && (r.Got? ==> JumpsB(r.v) <= 48)
    ensures rc == OK <==> r.Got? && Small(Programs.ImageOf(r.v))
  {
    hide JumpsB, DepthOkB;
  }

  /** The whole way from tokens: whatever the compiler accepts, as long as it calls nothing, running its image on the VM, with integer cache
  and shortcuts, writes the lines, leaves the variables and ends the way the program means. */
  lemma CompiledRuns(ts: Source, rc: Rc, im: Image, fuel: nat, n: Settings) returns (m: nat, y: Next)
    requires rc == OK && ProgramDone(rc, ParseProgram(ts, 0), im.code, im.tabs)
    requires ParseProgram(ts, 0).Got? && CallFreeB(ParseProgram(ts, 0).v)
    ensures Reaches(im, Programs.Running(true, n), Programs.START, m, y)
    ensures Programs.Observed(ExecBlock(ParseProgram(ts, 0).v, 0, fuel, World(Programs.START.pools, []), n), fuel, m, EraseNext(y))
  {
    hide ImageOk, Reaches, ExecBlock, Programs.ImageOf, ParseProgram, Programs.Observed, DepthOkB;
    Programs.ProgramIsGood(ts, 0);
    m, y := Programs.ProgramRuns(ts, fuel, n);
  }

  /** The code of every compile: whole instructions, and each jump leads to one of them. */
  lemma CompiledIsSound(ts: Source, rc: Rc, im: Image)
    requires rc == OK && ProgramDone(rc, ParseProgram(ts, 0), im.code, im.tabs)
    ensures Boundary(im.code, |im.code|)
    ensures forall p :: 0 <= p < |im.code| && Boundary(im.code, p) && TargetAt(im.code, p).Some? ==>
              0 <= TargetAt(im.code, p).value < |im.code| && Boundary(im.code, TargetAt(im.code, p).value)
  {
    hide ImageOk, ParseProgram, Boundary, TargetAt, DepthOkB, TopLabels, Programs.ClosedB, Programs.ImageOf;
    Programs.ProgramIsGood(ts, 0);
    ProgramLabels(ts, 0);
    CodeIsSound(ParseProgram(ts, 0).v);
  }

  /** The label table of every compile, as the VM scans it: no entry leads anywhere but to an instruction. */
  method CompiledLabels(ts: Source, rc: Rc, im: Image) returns (labels: array<int>)
    requires rc == OK && ProgramDone(rc, ParseProgram(ts, 0), im.code, im.tabs)
    ensures fresh(labels) && labels.Length == |im.tabs.syms|
    ensures forall s :: 0 <= s < labels.Length ==> labels[s] == -1 || (0 <= labels[s] < |im.code| && Boundary(im.code, labels[s]))
  {
    hide ImageOk, ParseProgram, Boundary, DepthOkB, TopLabels, Programs.ClosedB, Programs.ImageOf, LabelFrom;
    Programs.ProgramIsGood(ts, 0);
    ProgramLabels(ts, 0);
    labels := ScanLabels(im.code, |im.tabs.syms|);
    forall s | 0 <= s < labels.Length ensures labels[s] == -1 || (0 <= labels[s] < |im.code| && Boundary(im.code, labels[s])) {
      LabelsLand(ParseProgram(ts, 0).v, s);
    }
  }

  /** Of every compile: the counted loops of the code, and that behind any instruction of a loop's body the trace map
  gives more blocks around it than the number of the loop's counter. */
  lemma CompiledLoops(ts: Source, rc: Rc, im: Image, marks: seq<Mark>, p: nat)
    requires rc == OK && ProgramDone(rc, ParseProgram(ts, 0), im.code, im.tabs) && Mapped(ts, marks)
    requires p < |im.code| && Boundary(im.code, p) && im.code[p] == OP_FORINIT
    ensures CountsAt(im.code, p)
    ensures forall pc :: p + 6 < pc <= LoopEnd(im.code, p) - 7 ==> SiteDepth(marks, pc) > im.code[p + 1] as nat
  {
    hide ImageOk, ParseProgram, Boundary, DepthOkB, TopLabels, Programs.ClosedB, Programs.ImageOf, DeepB, LastAt;
    Programs.ProgramIsGood(ts, 0);
    ProgramLabels(ts, 0);
    var b := ParseProgram(ts, 0).v;
    CountedLoopsAreDeep(b, p);
    var deep := DeepB(b, Programs.NO_TABS, 0);
    forall pc | p + 6 < pc <= LoopEnd(im.code, p) - 7
      ensures SiteDepth(marks, pc) > im.code[p + 1] as nat
    {
      assert deep[pc - 1] > im.code[p + 1] as nat && DepthAt(marks, pc - 1) >= deep[pc - 1];
    }
  }
}
