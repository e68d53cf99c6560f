/** DO v = s TO t BY b FOR n with its limit, step and count kept out of sight, and that the variables the compiler makes
up for them come to the same as long as the program does not use their names. */
module HiddenLoops {
  import opened Options
  import opened NumberText
  import opened ArithOps
  import opened IntegerFastPath
  import opened Bytecode
  import opened VmValues
  import opened VarPool
  import opened CoreVm
  import opened ExprSyntax
  import opened ExprCode
  import opened StmtSyntax
  import opened StmtCode
  import opened StmtSemantics
  import opened ControlledLoops

  /** What a controlled loop remembers. */
  datatype Hidden = Hidden(limit: string, step: string, left: string)

  const NOTHING := Hidden("", "", "")

  // ---- The meaning -----------------------------------------------------------------------

  /** step > 0 and v <= limit, or not step > 0 and v >= limit. */
  function Within(v: string, h: Hidden): Expr
  {
    var up := Bin(Gt, Str(h.step), Expr.Lit("0"));
    Bin(Or, Bin(And, up, Bin(Le, Var(v), Str(h.limit))), Bin(And, Not(up), Bin(Ge, Var(v), Str(h.limit))))
  }

  /** Start is assigned; limit, step and count are only evaluated, in this order. */
  function Begun(k: DoKind, w: World, n: Settings): (Result, int, Hidden)
  {
    match k
    case Count(e) =>
      (match Eval(e, w.pools, n)
       case Ok(v) => (Result(Normal, w), CountOf(v), NOTHING)
       case Fail(x) => (Result(Raised(x), w), 0, NOTHING))
    case To(v, start, limit, step, hasFor, times) =>
      var r := AssignTo(v, start, w, n);
      if !r.o.Normal? then (r, 0, NOTHING)
      else
        (match Eval(limit, r.w.pools, n)
         case Fail(x) => (Result(Raised(x), r.w), 0, NOTHING)
         case Ok(l) =>
           match Eval(step, r.w.pools, n)
           case Fail(x) => (Result(Raised(x), r.w), 0, NOTHING)
           case Ok(b) =>
             if !hasFor then (r, 0, Hidden(l, b, ""))
             else match Eval(times, r.w.pools, n)
               case Fail(x) => (Result(Raised(x), r.w), 0, NOTHING)
               case Ok(c) => (r, 0, Hidden(l, b, c)))
    case _ => (Result(Normal, w), 0, NOTHING)
  }

  function GoesOn(k: DoKind, h: Hidden, w: World, n: Settings): Verdict
  {
    match k
    case While(c) => Decide(c, w, n)
    case To(v, _, _, _, hasFor, _) =>
      var t := Decide(Within(v, h), w, n);
      if t.Yes? && hasFor then Decide(Bin(Gt, Str(h.left), Expr.Lit("0")), w, n) else t
    case _ => Yes
  }

  /** v goes up by the step, the count down by one. */
  function Advanced(k: DoKind, h: Hidden, w: World, n: Settings): (Result, Hidden)
  {
    match k
    case Until(c) =>
      (match Decide(c, w, n)
       case Yes => (Result(Left(false), w), h)
       case No => (Result(Normal, w), h)
       case Error(x) => (Result(Raised(x), w), h))
    case To(v, _, _, _, hasFor, _) =>
      var r := AssignTo(v, Bin(Add, Var(v), Str(h.step)), w, n);
      if !r.o.Normal? || !hasFor then (r, h)
      else
        (match Eval(Bin(Sub, Str(h.left), Expr.Lit("1")), r.w.pools, n)
         case Ok(c) => (r, h.(left := c))
         case Fail(x) => (Result(Raised(x), r.w), h))
    case _ => (Result(Normal, w), h)
  }

  function Run(s: Stmt, fuel: nat, w: World, n: Settings): Result
    decreases fuel, s, 0, 0
  {
    match s
    case If(c, t, hasElse, f) =>
      (match Decide(c, w, n)
       case Yes => Run(t, fuel, w, n)
       case No => if hasElse then Run(f, fuel, w, n) else Result(Normal, w)
       case Error(k) => Result(Raised(k), w))
    case Select(ws) =>
      var r := RunWhens(ws, fuel, w, n);
      if r.o == Left(true) then r.(o := Normal) else r
    case Do(k, b) =>
      var (r, count, h) := Begun(k, w, n);
      if !r.o.Normal? then r
      else if k.Group? then EndOfLoop(RunRound(b, fuel, r.w, n))
      else if k.Count? then (if count <= 0 then r else EndOfLoop(RunCount(b, count, fuel, r.w, n)))
      else EndOfLoop(RunLoop(k, b, h, fuel, r.w, n))
    case _ => Exec(s, 0, fuel, w, n)
  }

  function RunBlock(b: Block, fuel: nat, w: World, n: Settings): Result
    decreases fuel, b, 0, 0
  {
    match b
    case Done => Result(Normal, w)
    case Step(s, rest) =>
      var r := Run(s, fuel, w, n);
      if r.o.Normal? then RunBlock(rest, fuel, r.w, n) else r
  }

  function RunWhens(ws: Whens, fuel: nat, w: World, n: Settings): Result
    decreases fuel, ws, 0, 0
  {
    match ws
    case When(c, s, rest) =>
      (match Decide(c, w, n)
       case Yes => Run(s, fuel, w, n)
       case No => RunWhens(rest, fuel, w, n)
       case Error(k) => Result(Raised(k), w))
    case Otherwise(b) => RunBlock(b, fuel, w, n)
    case NoOtherwise => Result(Normal, w)
  }

  function RunRound(b: Block, fuel: nat, w: World, n: Settings): Result
    decreases fuel, b, 0, 1
  {
    var r := RunBlock(b, fuel, w, n);
    r.(o := AfterBody(r.o))
  }

  function RunCount(b: Block, count: int, fuel: nat, w: World, n: Settings): Result
    decreases fuel, b, 1, if count < 0 then 0 else count
  {
    var r := RunRound(b, fuel, w, n);
    if r.o.Normal? && count > 1 then RunCount(b, count - 1, fuel, r.w, n) else r
  }

  function RunLoop(k: DoKind, b: Block, h: Hidden, fuel: nat, w: World, n: Settings): Result
    decreases fuel, b, 2, 0
  {
    if fuel == 0 then Result(Timeout, w)
    else match GoesOn(k, h, w, n)
      case No => Result(Left(false), w)
      case Error(x) => Result(Raised(x), w)
      case Yes =>
        var r := RunRound(b, fuel, w, n);
        if !r.o.Normal? then r
        else
          var (t, h1) := Advanced(k, h, r.w, n);
          if t.o.Normal? then RunLoop(k, b, h1, fuel - 1, t.w, n) else t
  }

  // ---- Programs that leave the made-up names alone -----------------------------------------

  /** A name DoSym makes. */
  predicate MadeUp(name: string)
  {
    |name| == 9 && name[..4] == "__DO" && IsDigit(name[4]) && (name[5..] == "_LIM" || name[5..] == "_STP" || name[5..] == "_FOR")
  }

  function Made(d: nat): set<string> { {DoSym(d, "LIM"), DoSym(d, "STP"), DoSym(d, "FOR")} }

  lemma MadeNames(d: nat)
    ensures MadeUp(DoSym(d, "LIM")) && MadeUp(DoSym(d, "STP")) && MadeUp(DoSym(d, "FOR"))
    ensures DoSym(d, "LIM") != DoSym(d, "STP") && DoSym(d, "LIM") != DoSym(d, "FOR") && DoSym(d, "STP") != DoSym(d, "FOR")
  {
    hide MadeUp, DoSym;
    MadeName(d, "LIM");
    MadeName(d, "STP");
    MadeName(d, "FOR");
  }

  lemma MadeName(d: nat, x: string)
    requires x == "LIM" || x == "STP" || x == "FOR"
    ensures MadeUp(DoSym(d, x)) && |DoSym(d, x)| == 9 && DoSym(d, x)[6..] == x
  {
    var c, s := [CharOf(d % 10)], DoSym(d, x);
    assert s == "__DO" + (c + ("_" + x)) && s[..4] == "__DO" && s[4] == c[0] && s[5..] == "_" + x && s[6..] == x;
  }

  predicate Clean(e: Expr)
  {
    match e
    case Var(v) => !MadeUp(v)
    case Plus(a) => Clean(a)
    case Neg(a) => Clean(a)
    case Not(a) => Clean(a)
    case Bin(_, l, r) => Clean(l) && Clean(r)
    case _ => true
  }

  predicate CleanKind(k: DoKind)
  {
    match k
    case Count(e) => Clean(e)
    case While(c) => Clean(c)
    case Until(c) => Clean(c)
    case To(v, a, b, c, _, f) => !MadeUp(v) && Clean(a) && Clean(b) && Clean(c) && Clean(f)
    case _ => true
  }

  /** No made-up name is used, and no controlled loop stands in another of the same digit. */
  predicate CleanS(s: Stmt, d: nat)
    decreases s
  {
    match s
    case Assign(v, e) => !MadeUp(v) && Clean(e)
    case Say(e) => Clean(e)
    case ExitWith(e) => Clean(e)
    case If(c, a, hasElse, b) => Clean(c) && CleanS(a, d) && (hasElse ==> CleanS(b, d))
    case Select(ws) => CleanW(ws, d + 1)
    case Do(k, b) => CleanKind(k) && CleanB(b, d + 1) && (k.To? ==> SparesB(b, d + 1, Made(d)))
    case _ => true
  }

  predicate CleanB(b: Block, d: nat)
    decreases b
  {
    match b case Done => true case Step(s, r) => CleanS(s, d) && CleanB(r, d)
  }

  predicate CleanW(ws: Whens, d: nat)
    decreases ws
  {
    match ws
    case When(c, s, r) => Clean(c) && CleanS(s, d) && CleanW(r, d)
    case Otherwise(b) => CleanB(b, d)
    case NoOtherwise => true
  }

  // ---- Both meanings agree --------------------------------------------------------------------

  /** The same output, and the same variables but for the made-up ones. */
  ghost predicate Alike(w: World, u: World)
  {
    w.out == u.out && forall x :: !MadeUp(x) ==> Get(w.pools, x) == Get(u.pools, x)
  }

  ghost predicate AlikeResults(r: Result, q: Result) { r.o == q.o && Alike(r.w, q.w) }

  /** The made-up variables hold what the loop remembers. */
  ghost predicate Recalls(k: DoKind, d: nat, h: Hidden, w: World)
  {
    k.To? ==>
      Get(w.pools, DoSym(d, "LIM")) == Some(Plain(h.limit)) && Get(w.pools, DoSym(d, "STP")) == Some(Plain(h.step))
      && (k.hasFor ==> Get(w.pools, DoSym(d, "FOR")) == Some(Plain(h.left)))
  }

  lemma {:induction false} EvalAlike(e: Expr, w: World, u: World, n: Settings)
    requires Clean(e) && Alike(w, u)
    ensures Eval(e, w.pools, n) == Eval(e, u.pools, n)
  {
    hide Get, MadeUp, Apply, Negate, Complement;
    match e {
      case Plus(a) => EvalAlike(a, w, u, n);
      case Neg(a) => EvalAlike(a, w, u, n);
      case Not(a) => EvalAlike(a, w, u, n);
      case Bin(_, l, r) => EvalAlike(l, w, u, n); EvalAlike(r, w, u, n);
      case _ =>
    }
  }

  lemma DecideAlike(e: Expr, w: World, u: World, n: Settings)
    requires Clean(e) && Alike(w, u)
    ensures Decide(e, w, n) == Decide(e, u, n)
  {
    hide Alike, Eval, BoolOf;
    EvalAlike(e, w, u, n);
  }

  lemma StoreAlike(v: string, x: string, w: World, u: World)
    requires !MadeUp(v) && Alike(w, u)
    ensures Alike(Store(w, v, x), Store(u, v, x))
  {
    hide Get, Set, MadeUp;
    forall y | !MadeUp(y) ensures Get(Store(w, v, x).pools, y) == Get(Store(u, v, x).pools, y) {
      GetSet(w.pools, v, Plain(x), y);
      GetSet(u.pools, v, Plain(x), y);
    }
  }

  lemma AssignAlike(v: string, e: Expr, w: World, u: World, n: Settings)
    requires !MadeUp(v) && Clean(e) && Alike(w, u)
    ensures AlikeResults(AssignTo(v, e, w, n), AssignTo(v, e, u, n))
  {
    hide Alike, Eval, Store;
    EvalAlike(e, w, u, n);
    match Eval(e, w.pools, n) {
      case Ok(x) => StoreAlike(v, x, w, u);
      case Fail(_) =>
    }
  }

  /** A made-up variable is set: nothing is to be seen of it. */
  lemma StoreHidden(v: string, x: string, w: World, u: World)
    requires MadeUp(v) && Alike(w, u)
    ensures Alike(Store(w, v, x), u)
    ensures forall y :: Get(Store(w, v, x).pools, y) == if y == v then Some(Plain(x)) else Get(w.pools, y)
  {
    hide Get, Set, MadeUp;
    forall y ensures Get(Store(w, v, x).pools, y) == if y == v then Some(Plain(x)) else Get(w.pools, y) {
      GetSet(w.pools, v, Plain(x), y);
    }
  }

  lemma HeadAlike(k: DoKind, d: nat, w: World, u: World, n: Settings)
    requires CleanKind(k) && Alike(w, u)
    ensures var (r, c) := Head(k, d, w, n);
            var (q, e, h) := Begun(k, u, n);
            AlikeResults(r, q) && c == e && (r.o.Normal? ==> Recalls(k, d, h, r.w))
  {
    hide Alike, Eval, MadeUp, DoSym, Store, Get, Clean;
    match k {
      case Count(e) => EvalAlike(e, w, u, n);
      case To(v, a, b, c, hasFor, f) => ToHeadAlike(k, d, w, u, n);
      case _ =>
    }
  }

  lemma ToHeadAlike(k: DoKind, d: nat, w: World, u: World, n: Settings)
    requires k.To? && CleanKind(k) && Alike(w, u)
    ensures var (r, c) := Head(k, d, w, n);
            var (q, e, h) := Begun(k, u, n);
            AlikeResults(r, q) && c == e && (r.o.Normal? ==> Recalls(k, d, h, r.w))
  {
    hide Alike, Eval, MadeUp, DoSym, Store, Get, Clean;
    MadeNames(d);
    AssignAlike(k.v, k.start, w, u, n);
    var r1, q := AssignTo(k.v, k.start, w, n), AssignTo(k.v, k.start, u, n);
    if r1.o.Normal? {
      EvalAlike(k.limit, r1.w, q.w, n);
      if Eval(k.limit, q.w.pools, n).Ok? {
        var l := Eval(k.limit, q.w.pools, n).text;
        StoreHidden(DoSym(d, "LIM"), l, r1.w, q.w);
        var w2 := Store(r1.w, DoSym(d, "LIM"), l);
        EvalAlike(k.step, w2, q.w, n);
        if Eval(k.step, q.w.pools, n).Ok? {
          var b := Eval(k.step, q.w.pools, n).text;
          StoreHidden(DoSym(d, "STP"), b, w2, q.w);
          var w3 := Store(w2, DoSym(d, "STP"), b);
          EvalAlike(k.times, w3, q.w, n);
          if k.hasFor && Eval(k.times, q.w.pools, n).Ok? {
            StoreHidden(DoSym(d, "FOR"), Eval(k.times, q.w.pools, n).text, w3, q.w);
          }
        }
      }
    }
  }

  lemma TestAlike(k: DoKind, d: nat, h: Hidden, w: World, u: World, n: Settings)
    requires CleanKind(k) && Alike(w, u) && Recalls(k, d, h, w)
    ensures Test(k, d, w, n) == GoesOn(k, h, u, n)
  {
    hide MadeUp, DoSym, Apply, Complement, BoolOf, Get, ToTest, ForTest, Within, Eval;
    match k {
      case While(c) => DecideAlike(c, w, u, n);
      case To(v, _, _, _, hasFor, _) =>
        ToTestAlike(k, d, h, w, u, n);
        if hasFor { assert Eval(ForTest(d), w.pools, n) == Eval(Bin(Gt, Str(h.left), Expr.Lit("0")), u.pools, n); }
      case _ =>
    }
  }

  lemma ToTestAlike(k: DoKind, d: nat, h: Hidden, w: World, u: World, n: Settings)
    requires k.To? && !MadeUp(k.v) && Alike(w, u) && Recalls(k, d, h, w)
    ensures Eval(ToTest(k.v, d), w.pools, n) == Eval(Within(k.v, h), u.pools, n)
    ensures k.hasFor ==> Eval(ForTest(d), w.pools, n) == Eval(Bin(Gt, Str(h.left), Expr.Lit("0")), u.pools, n)
  {
    hide MadeUp, DoSym, Apply, Complement, Get;
    EvalAlike(Var(k.v), w, u, n);
    var up, up1 := Bin(Gt, Stride(d), Expr.Lit("0")), Bin(Gt, Str(h.step), Expr.Lit("0"));
    assert Eval(up, w.pools, n) == Eval(up1, u.pools, n);
    assert Eval(Not(up), w.pools, n) == Eval(Not(up1), u.pools, n);
    var le, le1 := Bin(Le, Var(k.v), Limit(d)), Bin(Le, Var(k.v), Str(h.limit));
    assert Eval(le, w.pools, n) == Eval(le1, u.pools, n);
    var ge, ge1 := Bin(Ge, Var(k.v), Limit(d)), Bin(Ge, Var(k.v), Str(h.limit));
    assert Eval(ge, w.pools, n) == Eval(ge1, u.pools, n);
    SameBin(And, up, le, w, up1, le1, u, n);
    SameBin(And, Not(up), ge, w, Not(up1), ge1, u, n);
    SameBin(Or, Bin(And, up, le), Bin(And, Not(up), ge), w, Bin(And, up1, le1), Bin(And, Not(up1), ge1), u, n);
  }

  lemma SameBin(op: BinOp, a: Expr, b: Expr, w: World, c: Expr, e: Expr, u: World, n: Settings)
    requires Eval(a, w.pools, n) == Eval(c, u.pools, n) && Eval(b, w.pools, n) == Eval(e, u.pools, n)
    ensures Eval(Bin(op, a, b), w.pools, n) == Eval(Bin(op, c, e), u.pools, n)
  {
    hide Apply;
  }

  lemma TailAlike(k: DoKind, d: nat, h: Hidden, w: World, u: World, n: Settings)
    requires CleanKind(k) && Alike(w, u) && Recalls(k, d, h, w)
    ensures var r := Tail(k, d, w, n);
            var (q, h1) := Advanced(k, h, u, n);
            AlikeResults(r, q) && (r.o.Normal? ==> Recalls(k, d, h1, r.w))
  {
    hide MadeUp, DoSym, Clean, Apply, BoolOf, Get, Alike;
    match k {
      case Until(c) => DecideAlike(c, w, u, n);
      case To(v, _, _, _, hasFor, _) => ToTailAlike(k, d, h, w, u, n);
      case _ =>
    }
  }

  lemma ToTailAlike(k: DoKind, d: nat, h: Hidden, w: World, u: World, n: Settings)
    requires k.To? && CleanKind(k) && Alike(w, u) && Recalls(k, d, h, w)
    ensures var r := Tail(k, d, w, n);
            var (q, h1) := Advanced(k, h, u, n);
            AlikeResults(r, q) && (r.o.Normal? ==> Recalls(k, d, h1, r.w))
  {
    hide MadeUp, DoSym, Apply, Get, Set, Store;
    MadeNames(d);
    var v, e, f := k.v, Bin(Add, Var(k.v), Stride(d)), Bin(Add, Var(k.v), Str(h.step));
    EvalAlike(Var(v), w, u, n);
    assert Eval(e, w.pools, n) == Eval(f, u.pools, n);
    if Eval(e, w.pools, n).Ok? {
      var x := Eval(e, w.pools, n).text;
      StoreAlike(v, x, w, u);
      var w1, u1 := Store(w, v, x), Store(u, v, x);
      Stored(v, x, w);
      if k.hasFor {
        assert Eval(Bin(Sub, Remaining(d), Expr.Lit("1")), w1.pools, n) == Eval(Bin(Sub, Str(h.left), Expr.Lit("1")), u1.pools, n);
        if Eval(Bin(Sub, Str(h.left), Expr.Lit("1")), u1.pools, n).Ok? {
          StoreHidden(DoSym(d, "FOR"), Eval(Bin(Sub, Str(h.left), Expr.Lit("1")), u1.pools, n).text, w1, u1);
        }
      }
    }
  }

  lemma Stored(v: string, x: string, w: World)
    ensures forall y :: Get(Store(w, v, x).pools, y) == if y == v then Some(Plain(x)) else Get(w.pools, y)
  {
    hide Get, Set;
    forall y ensures Get(Store(w, v, x).pools, y) == if y == v then Some(Plain(x)) else Get(w.pools, y) {
      GetSet(w.pools, v, Plain(x), y);
    }
  }

  /** What the loop remembers survives its body. */
  lemma RecallsStill(k: DoKind, d: nat, h: Hidden, w: World, u: World)
    requires Recalls(k, d, h, w) && Same(w, u, Made(d))
    ensures Recalls(k, d, h, u)
  {
    hide Get, DoSym;
  }

  lemma PlainAlike(s: Stmt, d: nat, fuel: nat, w: World, u: World, n: Settings)
    requires CleanS(s, d) && Alike(w, u) && !s.If? && !s.Select? && !s.Do?
    ensures AlikeResults(Exec(s, d, fuel, w, n), Exec(s, 0, fuel, u, n))
  {
    hide MadeUp, Eval, Get, Clean, ExitCode;
    match s {
      case Assign(v, e) => AssignAlike(v, e, w, u, n);
      case Say(e) => EvalAlike(e, w, u, n);
      case ExitWith(e) => EvalAlike(e, w, u, n);
      case _ =>
    }
  }

  /** The compiler's made-up variables come to the same as hidden values. */
  lemma {:induction false} StmtAlike(s: Stmt, d: nat, fuel: nat, w: World, u: World, n: Settings)
    requires CleanS(s, d) && Alike(w, u)
    ensures AlikeResults(Exec(s, d, fuel, w, n), Run(s, fuel, u, n))
    decreases fuel, s, 0, 0
  {
    hide Alike, Decide, Head, Begun, ExecRound, ExecCount, ExecLoop, RunRound, RunCount, RunLoop, Clean, CleanKind,
         ExitCode, Eval, AssignTo, Spares, SparesB, DoSym;
    match s {
      case If(c, a, hasElse, b) =>
        DecideAlike(c, w, u, n);
        StmtAlike(a, d, fuel, w, u, n);
        if hasElse { StmtAlike(b, d, fuel, w, u, n); }
      case Select(ws) => WhensAlike(ws, d + 1, fuel, w, u, n);
      case Do(k, b) =>
        HeadAlike(k, d, w, u, n);
        var (r, c) := Head(k, d, w, n);
        var (q, e, h) := Begun(k, u, n);
        if r.o.Normal? {
          if k.Group? { RoundAlike(b, d + 1, fuel, r.w, q.w, n); }
          else if k.Count? { if c > 0 { CountAlike(b, d + 1, c, fuel, r.w, q.w, n); } }
          else { LoopAlike(k, b, d, h, fuel, r.w, q.w, n); }
        }
      case _ => PlainAlike(s, d, fuel, w, u, n);
    }
  }

  lemma {:induction false} BlockAlike(b: Block, d: nat, fuel: nat, w: World, u: World, n: Settings)
    requires CleanB(b, d) && Alike(w, u)
    ensures AlikeResults(ExecBlock(b, d, fuel, w, n), RunBlock(b, fuel, u, n))
    decreases fuel, b, 0, 0
  {
    hide Alike, Exec, Run, CleanS;
    if b.Step? {
      StmtAlike(b.s, d, fuel, w, u, n);
      var r, q := Exec(b.s, d, fuel, w, n), Run(b.s, fuel, u, n);
      if r.o.Normal? { BlockAlike(b.rest, d, fuel, r.w, q.w, n); }
    }
  }

  lemma {:induction false} WhensAlike(ws: Whens, d: nat, fuel: nat, w: World, u: World, n: Settings)
    requires CleanW(ws, d) && Alike(w, u)
    ensures AlikeResults(ExecWhens(ws, d, fuel, w, n), RunWhens(ws, fuel, u, n))
    decreases fuel, ws, 0, 0
  {
    hide Alike, Exec, Run, ExecBlock, RunBlock, Decide, Clean, CleanS, CleanB;
    match ws {
      case When(c, s, r) =>
        DecideAlike(c, w, u, n);
        StmtAlike(s, d, fuel, w, u, n);
        WhensAlike(r, d, fuel, w, u, n);
      case Otherwise(b) => BlockAlike(b, d, fuel, w, u, n);
      case NoOtherwise =>
    }
  }

  lemma {:induction false} RoundAlike(b: Block, d: nat, fuel: nat, w: World, u: World, n: Settings)
    requires CleanB(b, d) && Alike(w, u)
    ensures AlikeResults(ExecRound(b, d, fuel, w, n), RunRound(b, fuel, u, n))
    decreases fuel, b, 0, 1
  {
    hide Alike, ExecBlock, RunBlock;
    BlockAlike(b, d, fuel, w, u, n);
  }

  lemma {:induction false} CountAlike(b: Block, d: nat, count: int, fuel: nat, w: World, u: World, n: Settings)
    requires CleanB(b, d) && Alike(w, u)
    ensures AlikeResults(ExecCount(b, d, count, fuel, w, n), RunCount(b, count, fuel, u, n))
    decreases fuel, b, 1, if count < 0 then 0 else count
  {
    hide Alike, ExecRound, RunRound;
    RoundAlike(b, d, fuel, w, u, n);
    var r, q := ExecRound(b, d, fuel, w, n), RunRound(b, fuel, u, n);
    if r.o.Normal? && count > 1 { CountAlike(b, d, count - 1, fuel, r.w, q.w, n); }
  }

  lemma {:induction false} LoopAlike(k: DoKind, b: Block, d: nat, h: Hidden, fuel: nat, w: World, u: World, n: Settings)
    requires CleanKind(k) && CleanB(b, d + 1) && (k.To? ==> SparesB(b, d + 1, Made(d))) && Alike(w, u) && Recalls(k, d, h, w)
    ensures AlikeResults(ExecLoop(k, b, d, fuel, w, n), RunLoop(k, b, h, fuel, u, n))
    decreases fuel, b, 2, 0
  {
    hide Alike, ExecRound, RunRound, Test, GoesOn, Tail, Advanced, Recalls, CleanKind, CleanB, SparesB, Same, Made;
    if fuel > 0 {
      TestAlike(k, d, h, w, u, n);
      RoundAlike(b, d + 1, fuel, w, u, n);
      var r, q := ExecRound(b, d + 1, fuel, w, n), RunRound(b, fuel, u, n);
      BodyRecalls(k, b, d, h, fuel, w, n);
      if r.o.Normal? {
        TailAlike(k, d, h, r.w, q.w, n);
        var t := Tail(k, d, r.w, n);
        var (s, h1) := Advanced(k, h, q.w, n);
        if t.o.Normal? { LoopAlike(k, b, d, h1, fuel - 1, t.w, s.w, n); }
      }
    }
  }

  lemma BodyRecalls(k: DoKind, b: Block, d: nat, h: Hidden, fuel: nat, w: World, n: Settings)
    requires (k.To? ==> SparesB(b, d + 1, Made(d))) && Recalls(k, d, h, w)
    ensures Recalls(k, d, h, ExecRound(b, d + 1, fuel, w, n).w)
  {
    hide ExecRound, SparesB, Made, Same;
    if k.To? {
      RoundKeeps(b, d + 1, fuel, w, n, Made(d));
      RecallsStill(k, d, h, w, ExecRound(b, d + 1, fuel, w, n).w);
    }
  }

  /** A whole program whose names leave the made-up ones alone means what it means with hidden values. */
  lemma ProgramAlike(b: Block, fuel: nat, w: World, n: Settings)
    requires CleanB(b, 0)
    ensures AlikeResults(ExecBlock(b, 0, fuel, w, n), RunBlock(b, fuel, w, n))
  {
    BlockAlike(b, 0, fuel, w, w, n);
  }
}
