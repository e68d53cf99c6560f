/** One instruction of the VM on everything but calls and traps: stack, variables, DO counters, output. */
module CoreVm {
  import opened Options
  import opened NumberText
  import opened AddSubMul
  import opened ArithOps
  import opened IntegerFastPath
  import opened Bytecode
  import opened VmValues
  import opened VarPool

  const STACK_DEPTH := 256
  const DO_DEPTH := 250

  datatype Core = Core(pc: int, stack: seq<Cell>, pools: Pools, counters: seq<int>, out: seq<string>)

  /** What does not change during a stretch of core instructions: whether integers are cached,
  the NUMERIC settings, the activation's first DO counter, and whether NOVALUE is trapped. */
  datatype Env = Env(fast: bool, num: Settings, base: nat, novalue: bool)

  /** Ends of a run that no SIGNAL ON can catch. */
  datatype Abend = StackError | OpcodeError | LoopError | WildPc

  datatype Next =
    | Run(c: Core)
    | Trap(num: nat, c: Core)
    | Novalue(name: string, c: Core)
    | Exit(rc: int, c: Core)
    | Abort(why: Abend, c: Core)
    | Outside(i: Instr, c: Core)

  function Pop(c: Core, n: nat): Core
    requires n <= |c.stack|
  {
    c.(stack := c.stack[..|c.stack| - n])
  }

  function Top(c: Core, n: nat): Cell
    requires n < |c.stack|
  {
    c.stack[|c.stack| - 1 - n]
  }

  function Push(c: Core, v: Cell): Next
  {
    if |c.stack| >= STACK_DEPTH then Abort(StackError, c) else Run(c.(stack := c.stack + [v]))
  }

  function Plain(s: string): Cell { Cell(s, None) }

  function Literal(s: string, e: Env): Cell { Cell(s, if e.fast then ParseInt32Fast(s) else None) }

  function Give(c: Core, a: Answer): Next
  {
    match a case Ok(s) => Run(c.(stack := c.stack + [Plain(s)])) case Fail(n) => Trap(n, c)
  }

  /** The arithmetic shortcut is on for these operators, under DIGITS 9 only. */
  function Shortcut(op: BinOp, a: Cell, b: Cell, e: Env): Option<Cell>
  {
    if !e.fast then None
    else if Arithmetic(op) && !op.Div? && !op.Power? && e.num.digits == 9 then TryFast(ArithCode(op), a, b)
    else if Comparing(op) && a.cache.Some? && b.cache.Some? && e.num.fuzz == 0 then
      Some(Plain(Truth(Holds(op, Sign(a.cache.value - b.cache.value)))))
    else None
  }

  function Binary(op: BinOp, c: Core, e: Env): Next
  {
    if |c.stack| < 2 then Abort(StackError, c)
    else
      var a, b := Top(c, 1), Top(c, 0);
      match Shortcut(op, a, b, e)
      case Some(v) => Run(Pop(c, 2).(stack := Pop(c, 2).stack + [v]))
      case None => Give(Pop(c, 2), Apply(op, a.text, b.text, e.num))
  }

  function Load(name: string, c: Core, e: Env): Next
  {
    if |c.stack| >= STACK_DEPTH then Abort(StackError, c)
    else match Get(c.pools, name)
      case Some(v) => Push(c, v)
      case None => if e.novalue then Novalue(name, c) else Push(c, Plain(name))
  }

  function JumpIf(on: bool, off: int, c: Core): Next
  {
    if |c.stack| < 1 then Abort(StackError, c)
    else match BoolOf(Top(c, 0).text)
      case None => Trap(SYNTAX_BAD_BOOL, Pop(c, 1))
      case Some(b) => Run(Pop(c, 1).(pc := if b == on then c.pc + off else c.pc))
  }

  /** The counter table doubles until it has an entry `need`. */
  function Grown(cs: seq<int>, need: nat): (r: seq<int>)
    ensures |r| >= |cs| && r[..|cs|] == cs
    ensures |cs| > 0 ==> need < |r|
    decreases need + 1 - |cs|
  {
    if need < |cs| || |cs| == 0 then cs
    else
      var r := Grown(cs + seq(|cs|, _ => 0), need);
      assert r[..|cs|] == (cs + seq(|cs|, _ => 0))[..|cs|];
      r
  }

  function CellCount(v: Cell): int { if v.cache.Some? then v.cache.value else CountOf(v.text) }

  function ForInit(n: int, c: Core, e: Env): Next
    requires n >= 0
  {
    if |c.stack| < 1 then Abort(StackError, c)
    else if n >= DO_DEPTH then Abort(LoopError, c)
    else
      var k := CellCount(Top(c, 0));
      var cs := Grown(c.counters, e.base + n);
      if e.base + n >= |cs| then Abort(LoopError, c)
      else Run(Pop(c, 1).(stack := Pop(c, 1).stack + [Plain(Truth(k > 0))], counters := cs[e.base + n := k]))
  }

  function DecFor(n: int, off: int, c: Core, e: Env): Next
    requires n >= 0
  {
    if n >= DO_DEPTH || e.base + n >= |c.counters| then Abort(LoopError, c)
    else
      var k := c.counters[e.base + n] - 1;
      Run(c.(counters := c.counters[e.base + n := k], pc := if k <= 0 then c.pc + off else c.pc))
  }

  function Entry(t: seq<string>, i: int): Option<string>
  {
    if 0 <= i < |t| then Some(t[i]) else None
  }

  /** The effect of instruction i; c.pc is already behind it. */
  function Perform(t: Tabs, e: Env, i: Instr, c: Core): Next
  {
    match i
    case INop(_) => Run(c)
    case INewClause => Run(c)
    case ILabel(_) => Run(c)
    case IExit => Exit(0, c)
    case IExitRc => if |c.stack| == 0 then Exit(0, c) else Exit(ExitCode(Top(c, 0).text), Pop(c, 1))
    case IPush(k) =>
      if |c.stack| >= STACK_DEPTH then Abort(StackError, c)
      else if Entry(t.consts, k).None? then Abort(OpcodeError, c)
      else Push(c, Literal(Entry(t.consts, k).value, e))
    case IPop(n) => if n < 0 || |c.stack| < n then Abort(StackError, c) else Run(Pop(c, n))
    case IDup => if |c.stack| < 1 then Abort(StackError, c) else Push(c, Top(c, 0))
    case ILoad(s) =>
      if |c.stack| >= STACK_DEPTH then Abort(StackError, c)
      else if Entry(t.syms, s).None? then Abort(OpcodeError, c)
      else Load(Entry(t.syms, s).value, c, e)
    case IStore(s) =>
      if |c.stack| < 1 then Abort(StackError, c)
      else if Entry(t.syms, s).None? then Abort(OpcodeError, c)
      else Run(Pop(c, 1).(pools := Set(c.pools, Entry(t.syms, s).value, Top(c, 0))))
    case IDrop(s) =>
      if Entry(t.syms, s).None? then Abort(OpcodeError, c)
      else Run(c.(pools := Drop(c.pools, Entry(t.syms, s).value)))
    case IBin(op) => Binary(op, c, e)
    case INeg => if |c.stack| < 1 then Abort(StackError, c) else Give(Pop(c, 1), Negate(Top(c, 0).text, e.num))
    case INot => if |c.stack| < 1 then Abort(StackError, c) else Give(Pop(c, 1), Complement(Top(c, 0).text))
    case IJump(_, off) => Run(c.(pc := c.pc + off))
    case IJumpIf(on, off) => JumpIf(on, off, c)
    case ISay => if |c.stack| < 1 then Abort(StackError, c) else Run(Pop(c, 1).(out := c.out + [Top(c, 0).text]))
    case IForInit(n) => if n < 0 then Abort(LoopError, c) else ForInit(n, c, e)
    case IDecFor(n, off) => if n < 0 then Abort(LoopError, c) else DecFor(n, off, c, e)
    case IRaise(n) => if n < 0 then Abort(OpcodeError, c) else Trap(n, c)
    case IOmitted => Push(c, Plain(""))
    case IOther(_) => Abort(OpcodeError, c)
    case _ => Outside(i, c)
  }

  function CoreStep(im: Image, e: Env, c: Core): Next
  {
    if !(0 <= c.pc < |im.code|) then Abort(WildPc, c)
    else Perform(im.tabs, e, Decode(im.code, c.pc), c.(pc := c.pc + OpSize(im.code[c.pc])))
  }

  /** n instructions, fewer if the run ends before. */
  function Steps(im: Image, e: Env, n: nat, x: Next): Next
    decreases n
  {
    if n == 0 || !x.Run? then x else Steps(im, e, n - 1, CoreStep(im, e, x.c))
  }

  lemma {:induction false} StepsAdd(im: Image, e: Env, m: nat, n: nat, x: Next)
    ensures Steps(im, e, m + n, x) == Steps(im, e, n, Steps(im, e, m, x))
    decreases m
  {
    hide CoreStep;
    if m > 0 && x.Run? { StepsAdd(im, e, m - 1, n, CoreStep(im, e, x.c)); }
  }

  /** No core instruction grows the stack past 256 cells. */
  lemma StackBound(im: Image, e: Env, c: Core)
    requires |c.stack| <= STACK_DEPTH
    ensures |CoreStep(im, e, c).c.stack| <= STACK_DEPTH
  {
    hide Decode, Apply, Shortcut, Grown, CountOf, OpSize, Owner, Negate, Complement;
  }
}
