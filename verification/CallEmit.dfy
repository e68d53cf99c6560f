/** The arguments of CALL: what the method compiling them promises. */
module CallEmit {
  import opened Options
  import opened NumberText
  import opened Bytecode
  import opened Tokens
  import opened ExprSyntax
  import opened ExprCode
  import opened ExprEmit
  import opened StmtSyntax

  ghost predicate CallArgsDone(rc: Rc, g: Got<Args>, c0: seq<Byte>, t0: Tabs, pos: nat, code: seq<Byte>, t: Tabs)
  {
    match rc
    case OK => g.Got? && pos == g.next && code == c0 + CodeA(g.v, t0) && t == TabA(g.v, t0)
    case UNSUP => g == Failed(false)
    case BEYOND => g == Failed(true)
    case PATCH => false
    case _ => g.Got? ==> !Fits(c0 + CodeA(g.v, t0), TabA(g.v, t0))
  }

  /** More arguments only add code. */
  lemma {:induction false} CallArgsExtend(ts: Source, i: nat, acc: Args, t: Tabs)
    requires i < |ts| && ParseCallArgs(ts, i, acc).Got?
    ensures var a := ParseCallArgs(ts, i, acc).v;
            |CodeA(acc, t)| <= |CodeA(a, t)| && Extends(TabA(acc, t), TabA(a, t))
    decreases |ts| - i
  {
    hide Level0;
    if ts[i].kind == Comma {
      CallArgsExtend(ts, i + 1, Omitted(acc), t);
    } else if !EndsClause(ts, i) {
      var x := Level0(ts, i);
      TabEGrows(x.v, TabA(acc, t));
      if ts[x.next].kind == Comma { CallArgsExtend(ts, x.next + 1, Arg(acc, x.v), t); }
    }
  }

  /** What follows the argument at i. */
  function BehindArg(ts: Source, j: nat, acc: Args): Got<Args>
    requires j < |ts|
  {
    if ts[j].kind == Comma then ParseCallArgs(ts, j + 1, acc)
    else if EndsClause(ts, j) then Got(acc, j)
    else Failed(false)
  }

  lemma CallArgFolds(ts: Source, i: nat, acc: Args)
    requires i < |ts| && CountA(acc) < MAX_ARGS
    ensures ts[i].kind == Comma ==> i + 1 < |ts| && ParseCallArgs(ts, i, acc) == ParseCallArgs(ts, i + 1, Omitted(acc))
    ensures ts[i].kind != Comma && EndsClause(ts, i) ==> ParseCallArgs(ts, i, acc) == Got(Omitted(acc), i)
    ensures ts[i].kind != Comma && !EndsClause(ts, i) ==>
      var x := Level0(ts, i);
      (x.Got? ==> ParseCallArgs(ts, i, acc) == BehindArg(ts, x.next, Arg(acc, x.v)))
      && (!x.Got? ==> ParseCallArgs(ts, i, acc) == Failed(x.beyond))
  {
    hide Level0;
  }

  lemma BehindIs(ts: Source, j: nat, acc: Args)
    requires j < |ts|
    ensures ts[j].kind == Comma ==> j + 1 < |ts| && BehindArg(ts, j, acc) == ParseCallArgs(ts, j + 1, acc)
    ensures ts[j].kind != Comma && EndsClause(ts, j) ==> BehindArg(ts, j, acc) == Got(acc, j)
    ensures ts[j].kind != Comma && !EndsClause(ts, j) ==> BehindArg(ts, j, acc) == Failed(false)
  {
    hide ParseCallArgs;
  }

  lemma BehindExtends(ts: Source, j: nat, acc: Args, t: Tabs)
    requires j < |ts| && BehindArg(ts, j, acc).Got?
    ensures var a := BehindArg(ts, j, acc).v;
            |CodeA(acc, t)| <= |CodeA(a, t)| && Extends(TabA(acc, t), TabA(a, t))
  {
    hide ParseCallArgs;
    if ts[j].kind == Comma { CallArgsExtend(ts, j + 1, acc, t); }
  }

  lemma CallArgFailed(rc: Rc, ts: Source, i: nat, acc: Args, c0: seq<Byte>, t0: Tabs, pos: nat, code: seq<Byte>, t: Tabs)
    requires i < |ts| && CountA(acc) < MAX_ARGS && ts[i].kind != Comma && !EndsClause(ts, i) && rc != OK
    requires ExprDone(rc, ParseLevel(ts, 0, i, 0), c0 + CodeA(acc, t0), TabA(acc, t0), pos, code, t)
    ensures CallArgsDone(rc, ParseCallArgs(ts, i, acc), c0, t0, pos, code, t)
  {
    hide ParseLevel, BehindArg, ParseCallArgs, Fits, EndsClause;
    CallArgFolds(ts, i, acc);
    var x, p := Level0(ts, i), ParseCallArgs(ts, i, acc);
    if p.Got? && Fits(c0 + CodeA(p.v, t0), TabA(p.v, t0)) {
      BehindExtends(ts, x.next, Arg(acc, x.v), t0);
      FitsSmaller(c0 + CodeA(acc, t0) + CodeE(x.v, TabA(acc, t0)), TabA(Arg(acc, x.v), t0), c0 + CodeA(p.v, t0), TabA(p.v, t0));
    }
  }

  lemma CallOmittedFailed(ts: Source, i: nat, acc: Args, c0: seq<Byte>, t0: Tabs, pos: nat, code: seq<Byte>, t: Tabs)
    requires i < |ts| && CountA(acc) < MAX_ARGS && (ts[i].kind == Comma || EndsClause(ts, i))
    requires |c0 + CodeA(acc, t0)| + 1 > MAX_CODE
    ensures CallArgsDone(CAPACITY, ParseCallArgs(ts, i, acc), c0, t0, pos, code, t)
  {
    hide ParseCallArgs, TabsFit, EndsClause;
    CallArgFolds(ts, i, acc);
    if ParseCallArgs(ts, i, acc).Got? && ts[i].kind == Comma { CallArgsExtend(ts, i + 1, Omitted(acc), t0); }
  }

  /** The name of a call that finds no room. */
  lemma CalleeTooMuch(t: Tabs, name: string, a: Args)
    requires !TabsFit(AddSym(t, name))
    ensures !TabsFit(TabA(a, AddSym(t, name)))
  {
    hide TabsFit;
    TabAGrows(a, AddSym(t, name));
    if TabsFit(TabA(a, AddSym(t, name))) { FitsSmaller([], AddSym(t, name), [], TabA(a, AddSym(t, name))); }
  }
}
