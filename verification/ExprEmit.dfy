/** Facts about failing and growing the expression compiler's methods rest on. */
module ExprEmit {
  import opened Options
  import opened NumberText
  import opened Bytecode
  import opened Tokens
  import opened ExprSyntax
  import opened ExprCode

  /** Why a compile stopped.  BEYOND marks a construct this model leaves out. */
  datatype Rc = OK | UNSUP | BEYOND | CAPACITY | STRTOOLONG | PATCH

  /** Code and tables within their limits. */
  predicate Fits(code: seq<Byte>, t: Tabs) { |code| <= MAX_CODE && TabsFit(t) }

  lemma FitsSmaller(code: seq<Byte>, t: Tabs, code': seq<Byte>, t': Tabs)
    requires |code| <= |code'| && Extends(t, t') && Fits(code', t')
    ensures Fits(code, t)
  {
    assert forall i :: 0 <= i < |t.consts| ==> t.consts[i] == t'.consts[i];
    assert forall i :: 0 <= i < |t.syms| ==> t.syms[i] == t'.syms[i];
  }

  /** The state after compiling the expression p from code c0 and tables t0: everything as the tree says,
  or the reason there is no tree, or the tree's code does not fit. */
  ghost predicate ExprDone(rc: Rc, p: Parsed, c0: seq<Byte>, t0: Tabs, pos: nat, code: seq<Byte>, t: Tabs)
  {
    match rc
    case OK => p.Tree? && pos == p.next && code == c0 + CodeE(p.e, t0) && t == TabE(p.e, t0)
    case UNSUP => p.Unsup?
    case BEYOND => p.Beyond?
    case PATCH => false
    case _ => p.Tree? ==> !Fits(c0 + CodeE(p.e, t0), TabE(p.e, t0))
  }

  /** A longer expression contains the code of its leftmost operand. */
  lemma {:induction false} RestExtends(ts: Source, k: nat, i: nat, d: nat, l: Expr, t: Tabs)
    requires i < |ts| && k <= 6 && ParseRest(ts, k, i, d, l).Tree?
    ensures var e := ParseRest(ts, k, i, d, l).e;
            |CodeE(l, t)| <= |CodeE(e, t)| && Extends(TabE(l, t), TabE(e, t))
    decreases |ts| - i
  {
    hide OpAt, ParseOperand;
    if OpAt(ts, k, i).Some? {
      var (op, n) := OpAt(ts, k, i).value;
      var x := ParseOperand(ts, k, i + n, d);
      TabEGrows(x.e, TabE(l, t));
      if k != 2 {
        Progress(ts, k, i, d);
        RestExtends(ts, k, x.next, d, Bin(op, l, x.e), t);
      }
    }
  }

  lemma BinCode(op: BinOp, l: Expr, r: Expr, t: Tabs, c: seq<Byte>)
    ensures c + CodeE(Bin(op, l, r), t) == c + CodeE(l, t) + CodeE(r, TabE(l, t)) + [CodeOf(op)]
    ensures TabE(Bin(op, l, r), t) == TabE(r, TabE(l, t))
  {
    hide CodeOf;
    Associate(c, CodeE(l, t), CodeE(r, TabE(l, t)), [CodeOf(op)]);
  }

  lemma Associate(a: seq<Byte>, b: seq<Byte>, c: seq<Byte>, d: seq<Byte>)
    ensures a + (b + c + d) == a + b + c + d
  {
  }

  lemma RestFolds(ts: Source, k: nat, i: nat, d: nat, l: Expr, op: BinOp, n: nat)
    requires i < |ts| && k <= 6 && OpAt(ts, k, i) == Some((op, n)) && ParseOperand(ts, k, i + n, d).Tree?
    ensures var x := ParseOperand(ts, k, i + n, d);
            i < x.next < |ts|
            && ParseRest(ts, k, i, d, l)
               == if k == 2 then Tree(Bin(op, l, x.e), x.next) else ParseRest(ts, k, x.next, d, Bin(op, l, x.e))
  {
    hide OpAt, ParseOperand;
    Progress(ts, k, i, d);
  }

  lemma OperandFailed(rc: Rc, ts: Source, k: nat, i: nat, d: nat, l: Expr, op: BinOp, n: nat, c0: seq<Byte>, t0: Tabs,
                      pos: nat, code: seq<Byte>, t: Tabs)
    requires i < |ts| && k <= 6 && OpAt(ts, k, i) == Some((op, n)) && rc != OK
    requires ExprDone(rc, ParseOperand(ts, k, i + n, d), c0 + CodeE(l, t0), TabE(l, t0), pos, code, t)
    ensures ExprDone(rc, ParseRest(ts, k, i, d, l), c0, t0, pos, code, t)
  {
    hide OpAt, ParseOperand, Fits;
    var x := ParseOperand(ts, k, i + n, d);
    var p := ParseRest(ts, k, i, d, l);
    if p.Tree? && Fits(c0 + CodeE(p.e, t0), TabE(p.e, t0)) {
      TakenExtends(ts, k, i, d, l, op, n, t0);
      FitsSmaller(c0 + CodeE(l, t0) + CodeE(x.e, TabE(l, t0)), TabE(x.e, TabE(l, t0)), c0 + CodeE(p.e, t0), TabE(p.e, t0));
    }
  }

  lemma TakenExtends(ts: Source, k: nat, i: nat, d: nat, l: Expr, op: BinOp, n: nat, t: Tabs)
    requires i < |ts| && k <= 6 && OpAt(ts, k, i) == Some((op, n)) && ParseRest(ts, k, i, d, l).Tree?
    ensures var x := ParseOperand(ts, k, i + n, d);
            var e := ParseRest(ts, k, i, d, l).e;
            x.Tree? && |CodeE(Bin(op, l, x.e), t)| <= |CodeE(e, t)| && Extends(TabE(Bin(op, l, x.e), t), TabE(e, t))
  {
    hide OpAt, ParseOperand;
    Progress(ts, k, i, d);
    var x := ParseOperand(ts, k, i + n, d);
    if k != 2 { RestExtends(ts, k, x.next, d, Bin(op, l, x.e), t); }
  }

  lemma OperatorFailed(rc: Rc, ts: Source, k: nat, i: nat, d: nat, l: Expr, op: BinOp, n: nat, c0: seq<Byte>, t0: Tabs,
                       pos: nat, code: seq<Byte>, t: Tabs)
    requires i < |ts| && k <= 6 && OpAt(ts, k, i) == Some((op, n)) && rc == CAPACITY
    requires var x := ParseOperand(ts, k, i + n, d); x.Tree? && |c0 + CodeE(Bin(op, l, x.e), t0)| > MAX_CODE
    ensures ExprDone(rc, ParseRest(ts, k, i, d, l), c0, t0, pos, code, t)
  {
    hide OpAt, ParseOperand, CodeE, TabE, TabsFit;
    if ParseRest(ts, k, i, d, l).Tree? { TakenExtends(ts, k, i, d, l, op, n, t0); }
  }

  lemma FirstFailed(rc: Rc, ts: Source, k: nat, i: nat, d: nat, c0: seq<Byte>, t0: Tabs, pos: nat, code: seq<Byte>, t: Tabs)
    requires i < |ts| && k <= 6 && rc != OK
    requires ExprDone(rc, ParseLevel(ts, k + 1, i, d), c0, t0, pos, code, t)
    ensures ExprDone(rc, ParseLevel(ts, k, i, d), c0, t0, pos, code, t)
  {
    hide OpAt, Fits, CodeE, TabE, ParseRest;
    var x, p := ParseLevel(ts, k + 1, i, d), ParseLevel(ts, k, i, d);
    if p.Tree? && Fits(c0 + CodeE(p.e, t0), TabE(p.e, t0)) {
      RestExtends(ts, k, x.next, d, x.e, t0);
      FitsSmaller(c0 + CodeE(x.e, t0), TabE(x.e, t0), c0 + CodeE(p.e, t0), TabE(p.e, t0));
    }
  }

  lemma {:induction false} JoinedExtends(ts: Source, i: nat, l: Expr, t: Tabs)
    requires i < |ts| && ParseJoined(ts, i, l).Tree?
    ensures var e := ParseJoined(ts, i, l).e;
            |CodeE(l, t)| <= |CodeE(e, t)| && Extends(TabE(l, t), TabE(e, t))
    decreases |ts| - i
  {
    hide ParseLevel, BarrierWord;
    if IsContinuation(ts, i) && !EndsClause(ts, i + 1) && !IsBarrier(ts, i + 1) {
      var x := ParseLevel(ts, 0, i + 1, 0);
      TabEGrows(x.e, TabE(l, t));
      JoinedExtends(ts, x.next, Bin(BConcat, l, x.e), t);
    }
  }

  lemma BlankJoin()
    ensures CodeOf(BConcat) == OP_BCONCAT
  {
  }

  lemma JoinFolds(ts: Source, i: nat, l: Expr)
    requires i < |ts|
    ensures !IsContinuation(ts, i) ==> ParseJoined(ts, i, l) == Tree(l, i)
    ensures IsContinuation(ts, i) ==> i + 1 < |ts|
    ensures IsContinuation(ts, i) && (EndsClause(ts, i + 1) || IsBarrier(ts, i + 1)) ==>
      ParseJoined(ts, i, l) == Tree(l, i + 1) && !IsContinuation(ts, i + 1)
    ensures IsContinuation(ts, i) && !EndsClause(ts, i + 1) && !IsBarrier(ts, i + 1) && ParseLevel(ts, 0, i + 1, 0).Tree? ==>
      var x := ParseLevel(ts, 0, i + 1, 0); ParseJoined(ts, i, l) == ParseJoined(ts, x.next, Bin(BConcat, l, x.e))
  {
    hide ParseLevel, BarrierWord;
  }

  lemma JoinFailed(rc: Rc, ts: Source, i: nat, c0: seq<Byte>, t0: Tabs, pos: nat, code: seq<Byte>, t: Tabs)
    requires i < |ts| && rc != OK && ExprDone(rc, ParseLevel(ts, 0, i, 0), c0, t0, pos, code, t)
    ensures ExprDone(rc, ParseExpr(ts, i), c0, t0, pos, code, t)
  {
    hide Fits, CodeE, TabE, ParseLevel;
    var x, p := ParseLevel(ts, 0, i, 0), ParseExpr(ts, i);
    if p.Tree? && Fits(c0 + CodeE(p.e, t0), TabE(p.e, t0)) {
      JoinedExtends(ts, x.next, x.e, t0);
      FitsSmaller(c0 + CodeE(x.e, t0), TabE(x.e, t0), c0 + CodeE(p.e, t0), TabE(p.e, t0));
    }
  }

  lemma JoinedFailed(rc: Rc, ts: Source, i: nat, l: Expr, c0: seq<Byte>, t0: Tabs, pos: nat, code: seq<Byte>, t: Tabs)
    requires i < |ts| && IsContinuation(ts, i) && !EndsClause(ts, i + 1) && !IsBarrier(ts, i + 1) && rc != OK
    requires ExprDone(rc, ParseLevel(ts, 0, i + 1, 0), c0 + CodeE(l, t0), TabE(l, t0), pos, code, t)
    ensures ExprDone(rc, ParseJoined(ts, i, l), c0, t0, pos, code, t)
  {
    hide Fits, ParseLevel, BarrierWord;
    var x, p := ParseLevel(ts, 0, i + 1, 0), ParseJoined(ts, i, l);
    if p.Tree? && Fits(c0 + CodeE(p.e, t0), TabE(p.e, t0)) {
      JoinedExtends(ts, x.next, Bin(BConcat, l, x.e), t0);
      FitsSmaller(c0 + CodeE(l, t0) + CodeE(x.e, TabE(l, t0)), TabE(x.e, TabE(l, t0)), c0 + CodeE(p.e, t0), TabE(p.e, t0));
    }
  }

  lemma JoinTooLong(ts: Source, i: nat, l: Expr, c0: seq<Byte>, t0: Tabs, pos: nat, code: seq<Byte>, t: Tabs)
    requires i < |ts| && IsContinuation(ts, i) && !EndsClause(ts, i + 1) && !IsBarrier(ts, i + 1)
    requires var x := ParseLevel(ts, 0, i + 1, 0);
             x.Tree? && |c0 + CodeE(l, t0) + CodeE(x.e, TabE(l, t0))| + 1 > MAX_CODE
    ensures ExprDone(CAPACITY, ParseJoined(ts, i, l), c0, t0, pos, code, t)
  {
    hide TabsFit, ParseLevel, BarrierWord;
    var x, p := ParseLevel(ts, 0, i + 1, 0), ParseJoined(ts, i, l);
    if p.Tree? { JoinedExtends(ts, x.next, Bin(BConcat, l, x.e), t0); }
  }

  // ---- Function calls ------------------------------------------------------------

  /** The same for the arguments of a call. */
  ghost predicate ArgsDone(rc: Rc, p: ParsedArgs, c0: seq<Byte>, t0: Tabs, pos: nat, code: seq<Byte>, t: Tabs)
  {
    match rc
    case OK => p.List? && pos == p.next && code == c0 + CodeA(p.a, t0) && t == TabA(p.a, t0)
    case UNSUP => p.ListUnsup?
    case BEYOND => p.ListBeyond?
    case PATCH => false
    case _ => p.List? ==> !Fits(c0 + CodeA(p.a, t0), TabA(p.a, t0))
  }

  /** More arguments only add code. */
  lemma {:induction false} ArgsExtend(ts: Source, i: nat, d: nat, acc: Args, t: Tabs)
    requires i < |ts| && ParseArgs(ts, i, d, acc).List?
    ensures var a := ParseArgs(ts, i, d, acc).a;
            |CodeA(acc, t)| <= |CodeA(a, t)| && Extends(TabA(acc, t), TabA(a, t))
    decreases |ts| - i, 1
  {
    hide ParseLevel;
    if ts[i].kind == Comma || ts[i].kind == RParen {
      SeparatorExtends(ts, i, d, Omitted(acc), t);
    } else {
      var x := ParseLevel(ts, 0, i, d);
      TabEGrows(x.e, TabA(acc, t));
      SeparatorExtends(ts, x.next, d, Arg(acc, x.e), t);
    }
  }

  lemma {:induction false} SeparatorExtends(ts: Source, j: nat, d: nat, acc: Args, t: Tabs)
    requires j < |ts| && ParseSeparator(ts, j, d, acc).List?
    ensures var a := ParseSeparator(ts, j, d, acc).a;
            |CodeA(acc, t)| <= |CodeA(a, t)| && Extends(TabA(acc, t), TabA(a, t))
    decreases |ts| - j, 0
  {
    hide ParseLevel;
    if ts[j].kind == Comma { ArgsExtend(ts, j + 1, d, acc, t); }
  }

  /** Behind the argument at i comes a separator. */
  lemma ArgFolds(ts: Source, i: nat, d: nat, acc: Args)
    requires i < |ts| && CountA(acc) < MAX_ARGS
    ensures ts[i].kind == Comma || ts[i].kind == RParen ==> ParseArgs(ts, i, d, acc) == ParseSeparator(ts, i, d, Omitted(acc))
    ensures ts[i].kind != Comma && ts[i].kind != RParen ==>
      var x := ParseLevel(ts, 0, i, d);
      (x.Tree? ==> ParseArgs(ts, i, d, acc) == ParseSeparator(ts, x.next, d, Arg(acc, x.e)))
      && (x.Unsup? ==> ParseArgs(ts, i, d, acc) == ListUnsup)
      && (x.Beyond? ==> ParseArgs(ts, i, d, acc) == ListBeyond)
  {
    hide ParseLevel, ParseSeparator;
  }

  lemma SeparatorIs(ts: Source, j: nat, d: nat, acc: Args)
    requires j < |ts|
    ensures ts[j].kind == RParen ==> ParseSeparator(ts, j, d, acc) == List(acc, j + 1) && j + 1 < |ts|
    ensures ts[j].kind == Comma ==> j + 1 < |ts| && ParseSeparator(ts, j, d, acc) == ParseArgs(ts, j + 1, d, acc)
    ensures ts[j].kind != RParen && ts[j].kind != Comma ==> ParseSeparator(ts, j, d, acc) == ListUnsup
  {
    hide ParseArgs;
  }

  lemma ArgFailed(rc: Rc, ts: Source, i: nat, d: nat, acc: Args, c0: seq<Byte>, t0: Tabs, pos: nat, code: seq<Byte>, t: Tabs)
    requires i < |ts| && CountA(acc) < MAX_ARGS && ts[i].kind != Comma && ts[i].kind != RParen && rc != OK
    requires ExprDone(rc, ParseLevel(ts, 0, i, d), c0 + CodeA(acc, t0), TabA(acc, t0), pos, code, t)
    ensures ArgsDone(rc, ParseArgs(ts, i, d, acc), c0, t0, pos, code, t)
  {
    hide ParseLevel, ParseSeparator, ParseArgs, Fits;
    ArgFolds(ts, i, d, acc);
    var x, p := ParseLevel(ts, 0, i, d), ParseArgs(ts, i, d, acc);
    if p.List? && Fits(c0 + CodeA(p.a, t0), TabA(p.a, t0)) {
      SeparatorExtends(ts, x.next, d, Arg(acc, x.e), t0);
      FitsSmaller(c0 + CodeA(acc, t0) + CodeE(x.e, TabA(acc, t0)), TabA(Arg(acc, x.e), t0), c0 + CodeA(p.a, t0), TabA(p.a, t0));
    }
  }

  lemma OmittedFailed(ts: Source, i: nat, d: nat, acc: Args, c0: seq<Byte>, t0: Tabs, pos: nat, code: seq<Byte>, t: Tabs)
    requires i < |ts| && CountA(acc) < MAX_ARGS && (ts[i].kind == Comma || ts[i].kind == RParen)
    requires |c0 + CodeA(acc, t0)| + 1 > MAX_CODE
    ensures ArgsDone(CAPACITY, ParseArgs(ts, i, d, acc), c0, t0, pos, code, t)
  {
    hide ParseLevel, ParseSeparator, ParseArgs, TabsFit;
    ArgFolds(ts, i, d, acc);
    if ParseArgs(ts, i, d, acc).List? { SeparatorExtends(ts, i, d, Omitted(acc), t0); }
  }

  lemma ArgCode(acc: Args, e: Expr, t: Tabs, c: seq<Byte>)
    ensures c + CodeA(acc, t) + CodeE(e, TabA(acc, t)) == c + CodeA(Arg(acc, e), t)
    ensures c + CodeA(acc, t) + [OP_PUSH_OMITTED] == c + CodeA(Omitted(acc), t)
  {
  }

  /** A call whose name finds no room. */
  lemma NameFailed(rc: Rc, ts: Source, i: nat, d: nat, c0: seq<Byte>, t0: Tabs, pos: nat, code: seq<Byte>, t: Tabs)
    requires i < |ts| && ts[i].kind != RParen && Tok(ts, i + 1).kind == LParen
    requires (rc == CAPACITY || rc == STRTOOLONG) && !TabsFit(AddSym(t0, ts[i].upper))
    ensures ExprDone(rc, ParseCall(ts, i, d), c0, t0, pos, code, t)
  {
    hide ParseArgs;
    var p := ParseCall(ts, i, d);
    if p.Tree? && Fits(c0 + CodeE(p.e, t0), TabE(p.e, t0)) {
      if p.e.Call? { TabAGrows(p.e.args, AddSym(t0, ts[i].upper)); }
      FitsSmaller([], AddSym(t0, ts[i].upper), c0 + CodeE(p.e, t0), TabE(p.e, t0));
    }
  }

  lemma CallRefused(rc: Rc, ts: Source, i: nat, d: nat, c0: seq<Byte>, t0: Tabs, pos: nat, code: seq<Byte>, t: Tabs)
    requires i < |ts| && ts[i].kind != RParen && Tok(ts, i + 1).kind == LParen && d + COST_GROUP > NEST_MAX
    requires ExprDone(rc, Refuse(ts, i), c0, AddSym(t0, ts[i].upper), pos, code, t)
    ensures ExprDone(rc, ParseCall(ts, i, d), c0, t0, pos, code, t)
  {
    hide TabsFit, ParseArgs, SkipToParen;
  }

  lemma ArgsFailed(rc: Rc, ts: Source, i: nat, d: nat, c0: seq<Byte>, t0: Tabs, pos: nat, code: seq<Byte>, t: Tabs)
    requires i + 2 < |ts| && ts[i].kind != RParen && ts[i + 1].kind == LParen && d + COST_GROUP <= NEST_MAX && ts[i + 2].kind != RParen
    requires ArgsDone(rc, ParseArgs(ts, i + 2, d + COST_GROUP, NoArgs), c0, AddSym(t0, ts[i].upper), pos, code, t) && rc != OK
    ensures ExprDone(rc, ParseCall(ts, i, d), c0, t0, pos, code, t)
  {
    hide TabsFit, ParseArgs, CodeA, TabA;
  }
}
