/** A program compiled and run: the compiler and the VM together do what the program means. */
module Execution {
  import opened Options
  import opened NumberText
  import opened ArithOps
  import opened Bytecode
  import opened VmValues
  import opened VarPool
  import opened CoreVm
  import opened CacheRefinement
  import opened Tokens
  import opened ExprCode
  import opened ExprEmit
  import opened StmtSyntax
  import opened StmtSemantics
  import opened StmtEmit
  import opened Activation
  import opened VirtualMachine
  import opened Labels
  import Placement
  import Programs
  import opened Compiler
  import opened EndToEnd

  /** The machine a run starts in. */
  function Begin(p: Program): Machine
  {
    Machine(Programs.START, [], 0, Traps({}, seq(COND_COUNT, _ => -1)), p.topArgs)
  }

  /** The end of a core run, seen from the machine around it; no trap is set. */
  function AsStep(x: CoreVm.Next, m: Machine): Step
  {
    match x
    case Run(c) => Going(m.(core := c))
    case Exit(rc, c) => Ended(Activation.Done(rc), m.(core := c))
    case Trap(k, c) => Ended(Activation.Error(k), m.(core := c))
    case Abort(w, c) => Ended(Broken(w), m.(core := c))
    case Novalue(_, c) => Ended(NotModelled, m.(core := c))
    case Outside(_, c) => Ended(NotModelled, m.(core := c))
  }

  /** Without calls and traps the machine does what its core does. */
  lemma {:induction false} MachinesFollow(p: Program, n: nat, m: Machine)
    requires m.traps.enabled == {} && !Steps(p.im, EnvOf(p, m), n, Run(m.core)).Outside?
    ensures Machines(p, n, m) == AsStep(Steps(p.im, EnvOf(p, m), n, Run(m.core)), m)
    decreases n
  {
    hide CoreStep, Activation.Outside, Fire;
    if n > 0 {
      var x := CoreStep(p.im, EnvOf(p, m), m.core);
      Ends(p.im, EnvOf(p, m), n - 1, x);
      if x.Run? {
        var m1 := m.(core := x.c);
        MachinesFollow(p, n - 1, m1);
      }
    }
  }

  lemma Ends(im: Image, e: Env, n: nat, x: CoreVm.Next)
    ensures !x.Run? ==> Steps(im, e, n, x) == x
  {
    hide CoreStep;
  }

  /** The end e of a run in machine m is what the program's result r says. */
  predicate EndsAs(e: Ending, m: Machine, r: Result)
  {
    m.core.out == r.w.out && ErasePools(m.core.pools) == r.w.pools
    && match r.o
       case Normal => e == Activation.Done(0)
       case Exited(rc) => e == Activation.Done(rc)
       case Raised(k) => e == Activation.Error(k)
       case _ => false
  }

  function Meaning(ts: Source, fuel: nat, n: Settings): Result
    requires ParseProgram(ts, 0).Got?
  {
    ExecBlock(ParseProgram(ts, 0).v, 0, fuel, World(Programs.START.pools, []), n)
  }

  /** A program that means to end ends on the VM, that way. */
  lemma ProgramEnds(ts: Source, p: Program, fuel: nat) returns (m: nat)
    requires ProgramDone(OK, ParseProgram(ts, 0), p.im.code, p.im.tabs) && p.fast
    requires ParseProgram(ts, 0).Got? && CallFreeB(ParseProgram(ts, 0).v)
    requires !Meaning(ts, fuel, p.num).o.Timeout?
    ensures Machines(p, m, Begin(p)).Ended?
    ensures EndsAs(Machines(p, m, Begin(p)).e, Machines(p, m, Begin(p)).m, Meaning(ts, fuel, p.num))
  {
    hide ExecBlock, ParseProgram, ProgramDone, Machines, Steps, ErasePools;
    var y;
    m, y := CompiledRuns(ts, OK, p.im, fuel, p.num) by { ImageIs(p.im); }
    assert EnvOf(p, Begin(p)) == Programs.Running(true, p.num);
    MachinesFollow(p, m, Begin(p));
  }

  /** A program that goes on for ever by its meaning has not ended after any number of instructions. */
  lemma ProgramGoesOn(ts: Source, p: Program, fuel: nat)
    requires ProgramDone(OK, ParseProgram(ts, 0), p.im.code, p.im.tabs) && p.fast
    requires ParseProgram(ts, 0).Got? && CallFreeB(ParseProgram(ts, 0).v)
    requires Meaning(ts, fuel, p.num).o.Timeout?
    ensures Machines(p, fuel, Begin(p)).Going?
  {
    hide ExecBlock, ParseProgram, ProgramDone, Machines, Steps, ErasePools;
    var m, y := CompiledRuns(ts, OK, p.im, fuel, p.num) by { ImageIs(p.im); }
    assert EnvOf(p, Begin(p)) == Programs.Running(true, p.num);
    MachinesFollow(p, m, Begin(p));
    if !Machines(p, fuel, Begin(p)).Going? { EndedStays(p, fuel, m, Begin(p)); }
  }

  lemma ImageIs(im: Image)
    ensures im == Image(im.code, im.tabs)
  {
  }

  /** A run that has ended does not go on. */
  lemma {:induction false} EndedStays(p: Program, n: nat, k: nat, m: Machine)
    requires n <= k && Machines(p, n, m).Ended?
    ensures Machines(p, k, m) == Machines(p, n, m)
    decreases n
  {
    hide Activation.Next;
    if n > 0 && Activation.Next(p, m).Going? { EndedStays(p, n - 1, k - 1, Activation.Next(p, m).m); }
  }

  /** Compile and run for at most `steps` instructions.  If the run of a program without calls ends, then the program means to end, and ends that
  way under any fuel that is enough. */
  method Execute(ts: Source, num: Settings, bifs: map<(string, seq<string>), Bif>, topArgs: seq<string>, steps: nat)
    returns (rc: Rc, e: Option<Ending>, ghost m: Machine)
    ensures rc == OK ==> ParseProgram(ts, 0).Got?
    ensures rc == OK && e.Some? && CallFreeB(ParseProgram(ts, 0).v) ==> !Meaning(ts, steps, num).o.Timeout?
    ensures rc == OK && e.Some? && CallFreeB(ParseProgram(ts, 0).v) ==>
      forall fuel: nat :: !Meaning(ts, fuel, num).o.Timeout? ==> EndsAs(e.value, m, Meaning(ts, fuel, num))
  {
    hide ProgramDone, ParseProgram, MarksOk, Machines, ExecBlock, EndsAs, Meaning, StepIs;
    var im, marks;
    rc, im, marks := Compile(ts);
    e := None;
    m := Machine(Programs.START, [], 0, Traps({}, []), []);
    if rc != OK { return; }
    Parsed(rc, ParseProgram(ts, 0), im.code, im.tabs);
    var labels := ScanLabels(im.code, |im.tabs.syms|);
    var p := Program(im, labels[..], marks, bifs, topArgs, num, true);
    var vm := new Vm(p);
    assert vm.Abs() == Begin(p);
    e := vm.Run(steps);
    m := vm.Abs();
    if e.Some? && CallFreeB(ParseProgram(ts, 0).v) {
      EndOfRun(Machines(p, steps, Begin(p)), e, m);
      if Meaning(ts, steps, num).o.Timeout? { ProgramGoesOn(ts, p, steps); }
      forall fuel: nat | !Meaning(ts, fuel, num).o.Timeout? ensures EndsAs(e.value, m, Meaning(ts, fuel, num)) {
        var k := ProgramEnds(ts, p, fuel);
        if k <= steps { EndedStays(p, k, steps, Begin(p)); } else { EndedStays(p, steps, k, Begin(p)); }
      }
    }
  }

  lemma Parsed(rc: Rc, r: Got<Block>, code: seq<Byte>, t: Tabs)
    requires rc == OK && ProgramDone(rc, r, code, t)
    ensures r.Got?
  {
  }

  lemma EndOfRun(x: Step, e: Option<Ending>, m: Machine)
    requires e.Some? && StepIs(x, e, m)
    ensures x == Ended(e.value, m)
  {
  }
}
