/** What statements mean: a big-step interpreter over trees.  Fuel bounds how often a loop that might
never end goes round; everything else ends by itself.  Calls are not part of this meaning: what is said about it
is said of statements without them. */
module StmtSemantics {
  import opened Options
  import opened NumberText
  import opened ArithOps
  import opened IntegerFastPath
  import opened Bytecode
  import opened VmValues
  import opened VarPool
  import opened CoreVm
  import opened ExprSyntax
  import opened ExprCode
  import opened StmtSyntax
  import opened StmtCode

  /** Variables and what was written. */
  datatype World = World(pools: Pools, out: seq<string>)

  datatype Outcome =
    | Normal
    | Left(toSelect: bool) | Iterated
    | Exited(rc: int) | Raised(num: nat)
    | Timeout

  datatype Result = Result(o: Outcome, w: World)

  /** A condition: true, false or an error. */
  datatype Verdict = Yes | No | Error(num: nat)

  function Decide(e: Expr, w: World, n: Settings): Verdict
  {
    match Eval(e, w.pools, n)
    case Fail(k) => Error(k)
    case Ok(v) => (match BoolOf(v) case None => Error(SYNTAX_BAD_BOOL) case Some(b) => if b then Yes else No)
  }

  function Store(w: World, name: string, v: string): World
  {
    w.(pools := Set(w.pools, name, Plain(v)))
  }

  function AssignTo(name: string, e: Expr, w: World, n: Settings): Result
  {
    match Eval(e, w.pools, n)
    case Ok(v) => Result(Normal, Store(w, name, v))
    case Fail(k) => Result(Raised(k), w)
  }

  /** The header of a DO; a counted one also yields how often to go round. */
  function Head(k: DoKind, d: nat, w: World, n: Settings): (Result, int)
  {
    match k
    case Count(e) =>
      (match Eval(e, w.pools, n)
       case Ok(v) => (Result(Normal, w), CountOf(v))
       case Fail(x) => (Result(Raised(x), w), 0))
    case To(v, start, limit, step, hasFor, times) =>
      var r1 := AssignTo(v, start, w, n);
      if !r1.o.Normal? then (r1, 0)
      else
        var r2 := AssignTo(DoSym(d, "LIM"), limit, r1.w, n);
        if !r2.o.Normal? then (r2, 0)
        else
          var r3 := AssignTo(DoSym(d, "STP"), step, r2.w, n);
          if !r3.o.Normal? || !hasFor then (r3, 0)
          else (AssignTo(DoSym(d, "FOR"), times, r3.w, n), 0)
    case _ => (Result(Normal, w), 0)
  }

  /** Whether to go round (again). */
  function Test(k: DoKind, d: nat, w: World, n: Settings): Verdict
  {
    match k
    case While(c) => Decide(c, w, n)
    case To(v, _, _, _, hasFor, _) =>
      var t := Decide(ToTest(v, d), w, n);
      if t.Yes? && hasFor then Decide(ForTest(d), w, n) else t
    case _ => Yes
  }

  /** Behind the body: Left(false) if the loop is done. */
  function Tail(k: DoKind, d: nat, w: World, n: Settings): Result
  {
    match k
    case Until(c) =>
      (match Decide(c, w, n)
       case Yes => Result(Left(false), w)
       case No => Result(Normal, w)
       case Error(x) => Result(Raised(x), w))
    case To(v, _, _, _, hasFor, _) =>
      var r := AssignTo(v, Bin(Add, Var(v), Stride(d)), w, n);
      if !r.o.Normal? || !hasFor then r
      else AssignTo(DoSym(d, "FOR"), Bin(Sub, Remaining(d), Expr.Lit("1")), r.w, n)
    case _ => Result(Normal, w)
  }

  /** What the end of a body means for the loop around it: go on, or end with this outcome. */
  function AfterBody(o: Outcome): Outcome { if o.Iterated? then Normal else o }

  function EndOfLoop(r: Result): Result
  {
    if r.o == Left(false) then r.(o := Normal) else r
  }

  function Exec(s: Stmt, d: nat, fuel: nat, w: World, n: Settings): Result
    decreases fuel, s, 0, 0
  {
    match s
    case Refused => Result(Raised(SYNTAX_CTL_STACK as nat), w)
    case Assign(v, e) => AssignTo(v, e, w, n)
    case Say(e) =>
      (match Eval(e, w.pools, n)
       case Ok(v) => Result(Normal, w.(out := w.out + [v]))
       case Fail(k) => Result(Raised(k), w))
    case Exit => Result(Exited(0), w)
    case ExitWith(e) =>
      (match Eval(e, w.pools, n)
       case Ok(v) => Result(Exited(ExitCode(v)), w)
       case Fail(k) => Result(Raised(k), w))
    case If(c, t, hasElse, f) =>
      (match Decide(c, w, n)
       case Yes => Exec(t, d, fuel, w, n)
       case No => if hasElse then Exec(f, d, fuel, w, n) else Result(Normal, w)
       case Error(k) => Result(Raised(k), w))
    case Select(ws) =>
      var r := ExecWhens(ws, d + 1, fuel, w, n);
      if r.o == Left(true) then r.(o := Normal) else r
    case Do(k, b) =>
      var (h, count) := Head(k, d, w, n);
      if !h.o.Normal? then h
      else if k.Group? then EndOfLoop(ExecRound(b, d + 1, fuel, h.w, n))
      else if k.Count? then (if count <= 0 then h else EndOfLoop(ExecCount(b, d + 1, count, fuel, h.w, n)))
      else EndOfLoop(ExecLoop(k, b, d, fuel, h.w, n))
    case Leave(toSelect) => Result(Left(toSelect), w)
    case Iterate => Result(Iterated, w)
    case _ => Result(Normal, w)
  }

  function ExecBlock(b: Block, d: nat, fuel: nat, w: World, n: Settings): Result
    decreases fuel, b, 0, 0
  {
    match b
    case Done => Result(Normal, w)
    case Step(s, rest) =>
      var r := Exec(s, d, fuel, w, n);
      if r.o.Normal? then ExecBlock(rest, d, fuel, r.w, n) else r
  }

  /** The first WHEN that holds; none and no OTHERWISE is no error here. */
  function ExecWhens(ws: Whens, d: nat, fuel: nat, w: World, n: Settings): Result
    decreases fuel, ws, 0, 0
  {
    match ws
    case When(c, s, rest) =>
      (match Decide(c, w, n)
       case Yes => Exec(s, d, fuel, w, n)
       case No => ExecWhens(rest, d, fuel, w, n)
       case Error(k) => Result(Raised(k), w))
    case Otherwise(b) => ExecBlock(b, d, fuel, w, n)
    case NoOtherwise => Result(Normal, w)
  }

  /** The body once; ITERATE only ends the round. */
  function ExecRound(b: Block, d: nat, fuel: nat, w: World, n: Settings): (res: Result)
    ensures res.o != Iterated
    decreases fuel, b, 0, 1
  {
    var r := ExecBlock(b, d, fuel, w, n);
    r.(o := AfterBody(r.o))
  }

  /** A counted DO, with count >= 1 rounds to go. */
  function ExecCount(b: Block, d: nat, count: int, fuel: nat, w: World, n: Settings): (res: Result)
    ensures res.o != Iterated
    decreases fuel, b, 1, if count < 0 then 0 else count
  {
    var r := ExecRound(b, d, fuel, w, n);
    if r.o.Normal? && count > 1 then ExecCount(b, d, count - 1, fuel, r.w, n) else r
  }

  /** FOREVER, WHILE, UNTIL and controlled loops; Left(false) when done. */
  function ExecLoop(k: DoKind, b: Block, d: nat, fuel: nat, w: World, n: Settings): (res: Result)
    ensures res.o != Iterated
    decreases fuel, b, 2, 0
  {
    if fuel == 0 then Result(Timeout, w)
    else match Test(k, d, w, n)
      case No => Result(Left(false), w)
      case Error(x) => Result(Raised(x), w)
      case Yes =>
        var r := ExecRound(b, d + 1, fuel, w, n);
        if !r.o.Normal? then r
        else
          var t := Tail(k, d, r.w, n);
          if t.o.Normal? then ExecLoop(k, b, d, fuel - 1, t.w, n) else t
  }
}
