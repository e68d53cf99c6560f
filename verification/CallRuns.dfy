/** What the code of CALL, of a function call and of RETURN does: the arguments are evaluated in order, the callee runs as
a run of its own, and its caller goes on behind the call. */
module CallRuns {
  import opened Options
  import opened NumberText
  import opened ArithOps
  import opened IntegerFastPath
  import opened Bytecode
  import opened VmValues
  import opened VarPool
  import opened CoreVm
  import opened ExprSyntax
  import opened ExprCode
  import opened TraceMap
  import opened Placement
  import opened LoopParts
  import opened Activation

  // ---- Arguments --------------------------------------------------------------------------

  datatype Values = Given(texts: seq<string>) | Wrong(num: nat)

  /** The values of arguments in order, an omitted one being empty; the first error ends it. */
  function EvalA(a: Args, p: Pools, n: Settings): Values
  {
    match a
    case NoArgs => Given([])
    case Omitted(b) => (match EvalA(b, p, n) case Given(ts) => Given(ts + [""]) case w => w)
    case Arg(b, e) =>
      match EvalA(b, p, n)
      case Given(ts) => (match Eval(e, p, n) case Ok(v) => Given(ts + [v]) case Fail(k) => Wrong(k))
      case w => w
  }

  /** How far evaluating arguments makes the stack grow: those in front wait on it. */
  function NeedA(a: Args): nat
  {
    match a
    case NoArgs => 0
    case Omitted(b) => Max(NeedA(b), CountA(b) + 1)
    case Arg(b, e) => Max(NeedA(b), CountA(b) + Need(e))
  }

  function Plains(ts: seq<string>): (s: seq<Cell>)
    ensures |s| == |ts|
  {
    seq(|ts|, i requires 0 <= i < |ts| => Plain(ts[i]))
  }

  /** The end of evaluating arguments: their values on the stack behind the code, or the error. */
  ghost predicate Gathered(c: Core, len: nat, a: Values, x: Next)
  {
    match a
    case Given(ts) => x == Run(c.(pc := c.pc + len, stack := c.stack + Plains(ts)))
    case Wrong(k) => x.Trap? && x.num == k && x.c.pools == c.pools && x.c.out == c.out
  }

  lemma {:induction false} ValuesCount(a: Args, p: Pools, n: Settings)
    ensures EvalA(a, p, n).Given? ==> |EvalA(a, p, n).texts| == CountA(a)
  {
    hide Eval;
    match a {
      case NoArgs =>
      case Omitted(b) => ValuesCount(b, p, n);
      case Arg(b, e) => ValuesCount(b, p, n);
    }
  }

  lemma OneMoreValue(c: Core, len: nat, ts: seq<string>, v: string, more: nat)
    ensures var d := c.(pc := c.pc + len, stack := c.stack + Plains(ts));
            d.(pc := d.pc + more, stack := d.stack + [Plain(v)]) == c.(pc := c.pc + (len + more), stack := c.stack + Plains(ts + [v]))
  {
    assert Plains(ts + [v]) == Plains(ts) + [Plain(v)];
    assert c.stack + Plains(ts) + [Plain(v)] == c.stack + (Plains(ts) + [Plain(v)]);
  }

  lemma {:induction false} ArgsRun(a: Args, t: Tabs, im: Image, e: Env, c: Core) returns (n: nat, y: Next)
    requires ImageOk(im) && PlainEnv(e) && PlainPools(c.pools) && c.pc >= 0 && |c.stack| + NeedA(a) <= STACK_DEPTH
    requires Has(im.code, c.pc, CodeA(a, t)) && Extends(TabA(a, t), im.tabs)
    ensures Reaches(im, e, c, n, y) && Gathered(c, |CodeA(a, t)|, EvalA(a, c.pools, e.num), y)
    decreases a
  {
    hide Has, Reaches, CodeE, TabE, PlainPools, PlainEnv, ImageOk, EvalA, Need, Extends;
    match a {
      case NoArgs => n, y := NothingGathered(im, e, c);
      case Omitted(b) =>
        HasSplit(im.code, c.pc, CodeA(b, t), [OP_PUSH_OMITTED]);
        n, y := ArgsRun(b, t, im, e, c);
        hide NeedA;
        if y.Run? { n, y := OmittedAfter(b, |CodeA(b, t)|, im, e, c, n, y); } else { StaysWrong(a, c.pools, e.num); }
      case Arg(b, x) =>
        HasSplit(im.code, c.pc, CodeA(b, t), CodeE(x, TabA(b, t)));
        TabEGrows(x, TabA(b, t));
        Through(TabA(b, t), TabA(a, t), im.tabs);
        n, y := ArgsRun(b, t, im, e, c);
        if y.Run? { n, y := ArgAfter(b, x, t, im, e, c, n, y); } else { StaysWrong(a, c.pools, e.num); }
    }
  }

  lemma StaysWrong(a: Args, p: Pools, n: Settings)
    ensures !a.NoArgs? && EvalA(a.before, p, n).Wrong? ==> EvalA(a, p, n) == EvalA(a.before, p, n)
  {
    hide Eval;
  }

  lemma OmittedAfter(b: Args, len: nat, im: Image, e: Env, c: Core, m: nat, y0: Next) returns (n: nat, y: Next)
    requires c.pc >= 0 && |c.stack| + CountA(b) < STACK_DEPTH && Has(im.code, c.pc + len, [OP_PUSH_OMITTED])
    requires Reaches(im, e, c, m, y0) && Gathered(c, len, EvalA(b, c.pools, e.num), y0) && y0.Run?
    ensures Reaches(im, e, c, n, y) && Gathered(c, len + 1, EvalA(Omitted(b), c.pools, e.num), y)
  {
    hide Has, Reaches, Eval, Plains;
    ValuesCount(b, c.pools, e.num);
    OmittedRuns(im, e, y0.c);
    OneMoreValue(c, len, EvalA(b, c.pools, e.num).texts, "", 1);
    y := Run(y0.c.(pc := y0.c.pc + 1, stack := y0.c.stack + [Plain("")]));
    Then(im, e, c, m, y0.c, 1, y);
    n := m + 1;
  }

  lemma ArgAfter(b: Args, x: Expr, t: Tabs, im: Image, e: Env, c: Core, m: nat, y0: Next) returns (n: nat, y: Next)
    requires ImageOk(im) && PlainEnv(e) && PlainPools(c.pools) && c.pc >= 0 && |c.stack| + CountA(b) + Need(x) <= STACK_DEPTH
    requires Has(im.code, c.pc + |CodeA(b, t)|, CodeE(x, TabA(b, t))) && Extends(TabE(x, TabA(b, t)), im.tabs)
    requires Reaches(im, e, c, m, y0) && Gathered(c, |CodeA(b, t)|, EvalA(b, c.pools, e.num), y0) && y0.Run?
    ensures Reaches(im, e, c, n, y) && Gathered(c, |CodeA(b, t)| + |CodeE(x, TabA(b, t))|, EvalA(Arg(b, x), c.pools, e.num), y)
  {
    hide Has, Reaches, CodeE, CodeA, TabE, TabA, PlainPools, PlainEnv, ImageOk, Eval, Need, Plains;
    ValuesCount(b, c.pools, e.num);
    var d := y0.c;
    var k, z := ExprRuns(x, TabA(b, t), im, e, d);
    Then(im, e, c, m, d, k, z);
    if z.Run? {
      OneMoreValue(c, |CodeA(b, t)|, EvalA(b, c.pools, e.num).texts, Eval(x, c.pools, e.num).text, |CodeE(x, TabA(b, t))|);
    }
    n, y := m + k, z;
  }

  lemma NothingGathered(im: Image, e: Env, c: Core) returns (n: nat, y: Next)
    ensures Reaches(im, e, c, n, y) && Gathered(c, 0, EvalA(NoArgs, c.pools, e.num), y)
  {
    n, y := 0, Run(c);
    assert c.stack + Plains([]) == c.stack;
  }

  lemma OmittedRuns(im: Image, e: Env, c: Core)
    requires c.pc >= 0 && |c.stack| < STACK_DEPTH && Has(im.code, c.pc, [OP_PUSH_OMITTED])
    ensures Reaches(im, e, c, 1, Run(c.(pc := c.pc + 1, stack := c.stack + [Plain("")])))
  {
    hide Has, Reaches;
    OneStep(im, e, c, IOmitted);
  }

  // ---- Core instructions as instructions of the machine ---------------------------------------

  /** A stretch of core instructions is a stretch of the machine's; an error ends it in Raise. */
  lemma {:induction false} StretchRuns(p: Program, m: Machine, n: nat, x: Next) returns (k: nat)
    requires Steps(p.im, EnvOf(p, m), n, Run(m.core)) == x && (x.Run? || x.Trap?)
    ensures k <= n
    ensures x.Run? ==> Machines(p, k, m) == Going(m.(core := x.c))
    ensures x.Trap? ==> k > 0 && Machines(p, k, m) == Raise(p, m.(core := x.c), x.num)
    decreases n
  {
    hide CoreStep, Raise;
    if n == 0 {
      k := 0;
    } else {
      var y := CoreStep(p.im, EnvOf(p, m), m.core);
      if y.Run? {
        var m1 := m.(core := y.c);
        var j := StretchRuns(p, m1, n - 1, x);
        k := j + 1;
      } else {
        k := 1;
        OneRaise(p, m, y.num, y.c);
      }
    }
  }

  lemma OneRaise(p: Program, m: Machine, num: nat, c: Core)
    requires CoreStep(p.im, EnvOf(p, m), m.core) == Trap(num, c)
    ensures Machines(p, 1, m) == Raise(p, m.(core := c), num)
  {
    hide CoreStep, Raise;
    var x := Activation.Next(p, m);
    if x.Going? { assert Machines(p, 0, x.m) == x; }
  }

  lemma {:induction false} RunsOn(p: Program, j: nat, k: nat, m: Machine)
    requires Machines(p, j, m).Going?
    ensures Machines(p, j + k, m) == Machines(p, k, Machines(p, j, m).m)
    decreases j
  {
    hide Activation.Next;
    if j > 0 { RunsOn(p, j - 1, k, Activation.Next(p, m).m); }
  }

  // ---- The call --------------------------------------------------------------------------------

  /** The machine can run code without caches from here, no NOVALUE trap being set. */
  ghost predicate Starts(p: Program, m: Machine, need: nat)
  {
    && !p.fast && !Armed(p, m.traps, NOVALUE) && ImageOk(p.im)
    && PlainPools(m.core.pools) && m.core.pc >= 0 && |m.core.stack| + need <= STACK_DEPTH
  }

  /** Behind the arguments, with their values on the stack, m is about to call. */
  function Loaded(m: Machine, len: nat, ts: seq<string>): Machine
  {
    m.(core := m.core.(pc := m.core.pc + len, stack := m.core.stack + Plains(ts)))
  }

  /** The code of a call evaluates the arguments from left to right and calls the name with their values; the error of an
  argument is raised instead, with nothing called. */
  lemma CallRuns(p: Program, m: Machine, push: bool, name: string, args: Args, t: Tabs) returns (k: nat, c: Core)
    requires Starts(p, m, NeedA(args)) && CountA(args) <= MAX_ARGS
    requires var op := if push then OP_CALL_BIF else OP_CALL;
             Has(p.im.code, m.core.pc, CodeA(args, AddSym(t, name)) + CallCode(op, t, name, CountA(args)))
    requires Extends(TabA(args, AddSym(t, name)), p.im.tabs)
    ensures match EvalA(args, m.core.pools, p.num)
            case Given(ts) =>
              var s := Find(t.syms, name);
              && Entry(p.im.tabs.syms, s) == Some(name)
              && Machines(p, k, m) == Activation.Call(p, Loaded(m, |CodeA(args, AddSym(t, name))| + 4, ts), s, |ts|, push)
            case Wrong(num) =>
              c.pools == m.core.pools && c.out == m.core.out && Machines(p, k, m) == Raise(p, m.(core := c), num)
  {
    hide Has, CodeA, TabA, ImageOk, EvalA, NeedA, Plains, Activation.Call, Raise, CallCode, AddSym, Extends, Find, Machines, Starts;
    var op, a := if push then OP_CALL_BIF else OP_CALL, CodeA(args, AddSym(t, name));
    SplitCall(p.im.code, m, a, CallCode(op, t, name, CountA(args)), p, NeedA(args));
    k, c := ArgsStretch(p, m, args, AddSym(t, name));
    if EvalA(args, m.core.pools, p.num).Given? {
      var ts := EvalA(args, m.core.pools, p.num).texts;
      ValuesCount(args, m.core.pools, p.num);
      NameIsThere(t, name, args, p.im);
      CalledNext(p, Loaded(m, |a|, ts), push, t, name, CountA(args));
      OneMoreStep(p, k, m, Loaded(m, |a|, ts));
      k := k + 1;
    }
  }

  lemma SplitCall(code: seq<Byte>, m: Machine, a: seq<Byte>, b: seq<Byte>, p: Program, need: nat)
    requires Starts(p, m, need) && Has(code, m.core.pc, a + b)
    ensures ImageOk(p.im) && m.core.pc >= 0 && Has(code, m.core.pc, a) && Has(code, m.core.pc + |a|, b)
  {
    hide Has, ImageOk;
    HasSplit(code, m.core.pc, a, b);
  }

  /** The arguments of a call, as a stretch of the machine's instructions. */
  lemma ArgsStretch(p: Program, m: Machine, args: Args, t: Tabs) returns (k: nat, c: Core)
    requires Starts(p, m, NeedA(args)) && Has(p.im.code, m.core.pc, CodeA(args, t)) && Extends(TabA(args, t), p.im.tabs)
    ensures var v := EvalA(args, m.core.pools, p.num);
            && (v.Given? ==> Machines(p, k, m) == Going(Loaded(m, |CodeA(args, t)|, v.texts)))
            && (v.Wrong? ==> c.pools == m.core.pools && c.out == m.core.out && Machines(p, k, m) == Raise(p, m.(core := c), v.num))
  {
    hide Has, Reaches, CodeA, TabA, PlainPools, ImageOk, EvalA, NeedA, Plains, Raise, Extends, Steps, Machines, Armed;
    var n, y := ArgsRun(args, t, p.im, EnvOf(p, m), m.core);
    ReachedIs(p.im, EnvOf(p, m), m.core, n, y);
    k := StretchRuns(p, m, n, y);
    c := y.c;
  }

  lemma ReachedIs(im: Image, e: Env, c: Core, n: nat, y: Next)
    requires Reaches(im, e, c, n, y)
    ensures Steps(im, e, n, Run(c)) == y
  {
  }

  lemma NameIsThere(t: Tabs, name: string, args: Args, im: Image)
    requires Extends(TabA(args, AddSym(t, name)), im.tabs) && ImageOk(im)
    ensures 0 <= Find(t.syms, name) < 65536 && Entry(im.tabs.syms, Find(t.syms, name)) == Some(name)
  {
    hide CodeE, Find;
    TabAGrows(args, AddSym(t, name));
    FoundIn(t, name);
  }

  lemma FoundIn(t: Tabs, name: string)
    ensures var u := AddSym(t, name); 0 <= Find(t.syms, name) < |u.syms| && u.syms[Find(t.syms, name)] == name
  {
  }

  lemma CalledNext(p: Program, m: Machine, push: bool, t: Tabs, name: string, n: nat)
    requires m.core.pc >= 0 && n <= MAX_ARGS && 0 <= Find(t.syms, name) < 65536
    requires Has(p.im.code, m.core.pc, CallCode(if push then OP_CALL_BIF else OP_CALL, t, name, n))
    ensures Activation.Next(p, m) == Activation.Call(p, m.(core := m.core.(pc := m.core.pc + 4)), Find(t.syms, name), n, push)
  {
    hide Has, Activation.Call, Find;
    var i := ICall(Find(t.syms, name), n, push);
    assert Encode(i) == CallCode(if push then OP_CALL_BIF else OP_CALL, t, name, n);
    EncodedIsDecoded(p.im.code, m.core.pc, i);
    hide Encode, Decode, OpSize;
    assert |CallCode(OP_CALL, t, name, n)| == 4;
  }

  lemma OneMoreStep(p: Program, k: nat, m: Machine, u: Machine)
    requires Machines(p, k, m) == Going(u)
    ensures Machines(p, k + 1, m) == Activation.Next(p, u)
  {
    hide Activation.Next;
    RunsOn(p, k, 1, m);
    assert Machines(p, 1, u) == match Activation.Next(p, u) case Going(v) => Machines(p, 0, v) case Ended(e, v) => Ended(e, v);
  }

  /** A name with no label is a built-in function: its answer to the arguments' values is the value of a function call,
  and RESULT after CALL. */
  lemma BuiltinRuns(p: Program, m: Machine, push: bool, name: string, args: Args, t: Tabs, v: string) returns (k: nat, x: Machine)
    requires Starts(p, m, NeedA(args)) && CountA(args) <= MAX_ARGS && (push ==> |m.core.stack| < 256)
    requires var op := if push then OP_CALL_BIF else OP_CALL;
             Has(p.im.code, m.core.pc, CodeA(args, AddSym(t, name)) + CallCode(op, t, name, CountA(args)))
    requires Extends(TabA(args, AddSym(t, name)), p.im.tabs)
    requires LabelOf(p, Find(t.syms, name)) < 0 && EvalA(args, m.core.pools, p.num).Given?
    requires var key := (name, EvalA(args, m.core.pools, p.num).texts); key in p.bifs && p.bifs[key] == Value(v)
    ensures Machines(p, k, m) == Going(x) && x == m.(core := x.core) && x.core.out == m.core.out && x.core.counters == m.core.counters
    ensures x.core.pc == m.core.pc + |CodeA(args, AddSym(t, name))| + 4
    ensures x.core.stack == m.core.stack + (if push then [Plain(v)] else [])
    ensures if push then x.core.pools == m.core.pools
            else forall n :: Get(x.core.pools, n) == if n == "RESULT" then Some(Plain(v)) else Get(m.core.pools, n)
  {
    hide Has, CodeA, TabA, EvalA, NeedA, CallCode, AddSym, Extends, Find, Machines, Starts, LabelOf, Get, Set, Raise, Plains;
    var c;
    k, c := CallRuns(p, m, push, name, args, t);
    var ts := EvalA(args, m.core.pools, p.num).texts;
    var m0 := Loaded(m, |CodeA(args, AddSym(t, name))| + 4, ts);
    LoadedStack(m, |CodeA(args, AddSym(t, name))| + 4, ts);
    LoadedTexts(m, |CodeA(args, AddSym(t, name))| + 4, ts);
    x := BuiltinAnswers(p, m0, Find(t.syms, name), |ts|, push, name, v);
    forall n ensures Get(Set(m.core.pools, "RESULT", Plain(v)), n) == if n == "RESULT" then Some(Plain(v)) else Get(m.core.pools, n)
    {
      GetSet(m.core.pools, "RESULT", Plain(v), n);
    }
  }

  lemma LoadedTexts(m: Machine, len: nat, ts: seq<string>)
    ensures var c := Loaded(m, len, ts).core;
            |c.stack| == |m.core.stack| + |ts| && Texts(c.stack[|m.core.stack|..]) == ts && c.stack[..|m.core.stack|] == m.core.stack
  {
    var c := Loaded(m, len, ts).core;
    assert c.stack[|m.core.stack|..] == Plains(ts);
    assert Texts(Plains(ts)) == ts;
  }

  lemma BuiltinAnswers(p: Program, m: Machine, s: int, nargs: nat, push: bool, name: string, v: string) returns (x: Machine)
    requires nargs <= |m.core.stack| && LabelOf(p, s) < 0 && Entry(p.im.tabs.syms, s) == Some(name)
    requires var below := |m.core.stack| - nargs; push ==> below < 256
    requires var key := (name, Texts(m.core.stack[|m.core.stack| - nargs..])); key in p.bifs && p.bifs[key] == Value(v)
    ensures Activation.Call(p, m, s, nargs, push) == Going(x) && x == m.(core := x.core)
    ensures var below := m.core.stack[..|m.core.stack| - nargs];
            x.core == m.core.(stack := below + (if push then [Plain(v)] else []),
                              pools := if push then m.core.pools else Set(m.core.pools, "RESULT", Plain(v)))
  {
    hide LabelOf, Set, Raise;
    x := Activation.Call(p, m, s, nargs, push).m;
    if !push { assert m.core.stack[..|m.core.stack| - nargs] + [] == m.core.stack[..|m.core.stack| - nargs]; }
  }

  // ---- Calling and coming back ------------------------------------------------------------------

  /** From u, entered by a call made with depth frames, n instructions lead to a RETURN of that call. */
  ghost predicate ComesBack(p: Program, u: Machine, depth: nat, n: nat, value: bool)
  {
    && (forall j :: 0 <= j <= n && Machines(p, j, u).Going? ==> |Machines(p, j, u).m.frames| > depth)
    && Machines(p, n, u).Going?
    && var w := Machines(p, n, u).m;
       && |w.frames| == depth + 1 && 0 <= w.core.pc < |p.im.code|
       && Decode(p.im.code, w.core.pc) == (if value then IReturnV else IReturn)
       && (value ==> w.core.stack != [])
  }

  /** What the caller m finds when the callee has come back from w: it goes on at next, everything of its own as it was,
  with RESULT set to the value or dropped, and behind a function call the value on the stack. */
  ghost predicate WentOn(p: Program, m: Machine, next: int, push: bool, w: Machine, value: bool, x: Machine)
    requires w.frames != [] && (value ==> w.core.stack != [])
  {
    var pools := if w.frames[|w.frames| - 1].scope.Some? then Down(w.core.pools, w.frames[|w.frames| - 1].scope.value) else w.core.pools;
    && x.core.pc == next && x.frames == m.frames && x.base == m.base && x.traps == m.traps
    && x.args == (if m.frames == [] then p.topArgs else m.frames[|m.frames| - 1].args)
    && x.core.out == w.core.out && x.core.counters == w.core.counters
    && if value then
         var rest, v := w.core.stack[..|w.core.stack| - 1], w.core.stack[|w.core.stack| - 1];
         x.core.stack == rest + (if push then [v] else []) && x.core.pools == Set(pools, "RESULT", v)
       else
         x.core.stack == w.core.stack
         && x.core.pools == if w.frames[|w.frames| - 1].scope.Some? then pools else Drop(pools, "RESULT")
  }

  /**
   * A call of a label and its return, whatever the callee does in between: the arguments' values in order are what the
   * callee finds as its arguments, at the label, and when it comes back the caller goes on behind the call.
   */
  lemma CallAndReturn(p: Program, m: Machine, push: bool, name: string, args: Args, t: Tabs, n: nat, value: bool)
    returns (k: nat, u: Machine, x: Machine)
    requires Starts(p, m, NeedA(args)) && CountA(args) <= MAX_ARGS && |m.frames| < CALL_MAX
    requires var op := if push then OP_CALL_BIF else OP_CALL;
             Has(p.im.code, m.core.pc, CodeA(args, AddSym(t, name)) + CallCode(op, t, name, CountA(args)))
    requires Extends(TabA(args, AddSym(t, name)), p.im.tabs)
    requires LabelOf(p, Find(t.syms, name)) >= 0 && EvalA(args, m.core.pools, p.num).Given?
    ensures Machines(p, k, m) == Going(u)
    ensures u.core.pc == LabelOf(p, Find(t.syms, name)) && u.args == EvalA(args, m.core.pools, p.num).texts
    ensures u.core.stack == m.core.stack && u.core.out == m.core.out && |u.frames| == |m.frames| + 1
    ensures ComesBack(p, u, |m.frames|, n, value) ==>
              var next := m.core.pc + |CodeA(args, AddSym(t, name))| + 4;
              && Machines(p, k + n + 1, m) == Going(x)
              && WentOn(p, m, next, push, Machines(p, n, u).m, value, x)
  {
    hide Has, CodeA, TabA, EvalA, NeedA, Plains, CallCode, AddSym, Extends, Find, Machines, Starts, LabelOf, Enter, ComesBack, WentOn;
    var c;
    k, c := CallRuns(p, m, push, name, args, t);
    var ts, s := EvalA(args, m.core.pools, p.num).texts, Find(t.syms, name);
    var m0 := Loaded(m, |CodeA(args, AddSym(t, name))| + 4, ts);
    LoadedStack(m, |CodeA(args, AddSym(t, name))| + 4, ts);
    assert Activation.Call(p, m0, s, |ts|, push) == Going(Enter(p, m0, |ts|, push, LabelOf(p, s)));
    u := Enter(p, m0, |ts|, push, LabelOf(p, s));
    Entered(p, m, |CodeA(args, AddSym(t, name))| + 4, ts, push, LabelOf(p, s));
    x := u;
    if ComesBack(p, u, |m.frames|, n, value) {
      x := ComingBack(p, m0, |ts|, push, LabelOf(p, s), n, value);
      RunsOn(p, k, n + 1, m);
      SameCaller(p, m, m0, push, Machines(p, n, u).m, value, x);
    }
  }

  lemma LoadedStack(m: Machine, len: nat, ts: seq<string>)
    ensures var c := Loaded(m, len, ts).core;
            |c.stack| == |m.core.stack| + |ts| && c.pools == m.core.pools && c.pc == m.core.pc + len && Loaded(m, len, ts).frames == m.frames
  {
  }

  lemma Entered(p: Program, m: Machine, len: nat, ts: seq<string>, push: bool, target: int)
    ensures var m0 := Loaded(m, len, ts);
            |ts| <= |m0.core.stack| &&
            var u := Enter(p, m0, |ts|, push, target);
            && u.core.pc == target && u.args == ts && u.core.stack == m.core.stack && u.core.out == m.core.out
            && |u.frames| == |m.frames| + 1
  {
    hide WithSigl, SiteDepth;
    var m0 := Loaded(m, len, ts);
    var k := |m.core.stack|;
    assert m0.core.stack[..k] == m.core.stack && m0.core.stack[k..] == Plains(ts);
    assert Texts(Plains(ts)) == ts;
  }

  lemma SameCaller(p: Program, m: Machine, m0: Machine, push: bool, w: Machine, value: bool, x: Machine)
    requires m0 == m.(core := m0.core) && w.frames != [] && (value ==> w.core.stack != [])
    requires WentOn(p, m0, m0.core.pc, push, w, value, x)
    ensures WentOn(p, m, m0.core.pc, push, w, value, x)
  {
  }

  lemma ComingBack(p: Program, m0: Machine, nargs: nat, push: bool, target: int, n: nat, value: bool) returns (x: Machine)
    requires nargs <= |m0.core.stack| && ComesBack(p, Enter(p, m0, nargs, push, target), |m0.frames|, n, value)
    ensures var u := Enter(p, m0, nargs, push, target);
            && Machines(p, n + 1, u) == Going(x)
            && Machines(p, n, u).m.frames != [] && (value ==> Machines(p, n, u).m.core.stack != [])
            && WentOn(p, m0, m0.core.pc, push, Machines(p, n, u).m, value, x)
  {
    hide Machines, Enter, Decode, Return, ReturnValue, WentOn, Restored;
    var u := Enter(p, m0, nargs, push, target);
    var w := Machines(p, n, u).m;
    ReturnRestores(p, m0, nargs, push, target, n, value);
    PushesAs(p, m0, nargs, push, target, n);
    OneMoreStep(p, n, u, w);
    var w1 := w.(core := w.core.(pc := w.core.pc + OpSize(p.im.code[w.core.pc])));
    NextReturn(p, w, value);
    ReturnAnywhere(p, w, w1, value);
    x := (if value then ReturnValue(p, w) else Return(p, w)).m;
    ReturnIs(p, m0, w, push, value);
  }

  /** The innermost frame is the one the call made, up to a PROCEDURE. */
  lemma PushesAs(p: Program, m0: Machine, nargs: nat, push: bool, target: int, n: nat)
    requires nargs <= |m0.core.stack|
    requires var u := Enter(p, m0, nargs, push, target);
             && (forall j :: 0 <= j <= n && Machines(p, j, u).Going? ==> |Machines(p, j, u).m.frames| > |m0.frames|)
             && Machines(p, n, u).Going? && |Machines(p, n, u).m.frames| == |m0.frames| + 1
    ensures var w := Machines(p, n, Enter(p, m0, nargs, push, target)).m;
            w.frames[|w.frames| - 1].pushResult == push
  {
    hide Machines, WithSigl, SiteDepth, Texts;
    var u := Enter(p, m0, nargs, push, target);
    var f := u.frames[|m0.frames|];
    assert u.frames[..|m0.frames|] == m0.frames;
    CallersFrameStays(p, n, m0, f, u);
  }

  lemma NextReturn(p: Program, w: Machine, value: bool)
    requires 0 <= w.core.pc < |p.im.code| && Decode(p.im.code, w.core.pc) == if value then IReturnV else IReturn
    ensures var w1 := w.(core := w.core.(pc := w.core.pc + OpSize(p.im.code[w.core.pc])));
            Activation.Next(p, w) == if value then ReturnValue(p, w1) else Return(p, w1)
  {
    hide Decode, OpSize, Return, ReturnValue;
  }

  /** Where the RETURN stands does not matter. */
  lemma ReturnAnywhere(p: Program, w: Machine, w1: Machine, value: bool)
    requires w1 == w.(core := w.core.(pc := w1.core.pc)) && w.frames != []
    ensures if value then ReturnValue(p, w1).Going? ==> ReturnValue(p, w1) == ReturnValue(p, w) else Return(p, w1) == Return(p, w)
    ensures value && w.core.stack != [] ==> ReturnValue(p, w).Going? && ReturnValue(p, w1).Going?
    ensures !value ==> Return(p, w).Going?
  {
    hide Set, Drop, Down;
  }

  lemma ReturnIs(p: Program, m0: Machine, w: Machine, push: bool, value: bool)
    requires w.frames != [] && w.frames[|w.frames| - 1].pushResult == push && (value ==> w.core.stack != [])
    requires Restored(p, m0, (if value then ReturnValue(p, w) else Return(p, w)).m)
    ensures WentOn(p, m0, m0.core.pc, push, w, value, (if value then ReturnValue(p, w) else Return(p, w)).m)
  {
    hide Set, Drop, Down;
  }

  /** At the top level RETURN ends the run with code 0, and with a value RESULT has it at the end. */
  lemma TopReturns(p: Program, m: Machine)
    requires m.frames == []
    ensures Return(p, m) == Ended(Done(0), m)
    ensures m.core.stack != [] ==>
              var x := ReturnValue(p, m);
              x.Ended? && x.e == Done(0) && x.m.core.out == m.core.out
              && forall n :: Get(x.m.core.pools, n) == if n == "RESULT" then Some(m.core.stack[|m.core.stack| - 1]) else Get(m.core.pools, n)
  {
    hide Get, Set;
    if m.core.stack != [] {
      var v := m.core.stack[|m.core.stack| - 1];
      forall n ensures Get(Set(m.core.pools, "RESULT", v), n) == if n == "RESULT" then Some(v) else Get(m.core.pools, n)
      {
        GetSet(m.core.pools, "RESULT", v, n);
      }
    }
  }
}
