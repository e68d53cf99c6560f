/** Statements: trees and what the one-pass compiler reads. */
module StmtSyntax {
  import opened Options
  import opened NumberText
  import opened Tokens
  import opened ExprSyntax

  const CTL_MAX := 250

  /** Null emits nothing; Refused stands for a block past the control stack.  A LEAVE goes to the end of
  the innermost SELECT if toSelect is set, else of the innermost DO. */
  datatype Stmt =
    | Null | Nop | Refused
    | Label(name: string)
    | Assign(name: string, e: Expr)
    | Say(e: Expr)
    | Exit | ExitWith(e: Expr)
    | CallTo(name: string, args: Args) | Return | ReturnWith(e: Expr)
    | If(c: Expr, t: Stmt, hasElse: bool, f: Stmt)
    | Select(ws: Whens)
    | Do(kind: DoKind, body: Block)
    | Leave(toSelect: bool) | Iterate

  datatype Block = Done | Step(s: Stmt, rest: Block)

  /** WHEN clauses; the list ends with OTHERWISE, or without it. */
  datatype Whens = When(c: Expr, s: Stmt, rest: Whens) | Otherwise(body: Block) | NoOtherwise

  datatype DoKind =
    | Forever | Group
    | Count(n: Expr) | While(c: Expr) | Until(c: Expr)
    | To(v: string, start: Expr, limit: Expr, step: Expr, hasFor: bool, times: Expr)

  /** A result with the position behind it, or why there is none. */
  datatype Got<+T> = Got(v: T, next: nat) | Failed(beyond: bool) {
    predicate IsFailure() { Failed? }

    function PropagateFailure<U>(): Got<U>
      requires Failed?
    {
      Failed(beyond)
    }

    function Extract(): (T, nat)
      requires Got?
    {
      (v, next)
    }
  }

  function FromExpr(p: Parsed): (g: Got<Expr>)
    ensures g.Got? <==> p.Tree?
    ensures g.Got? ==> g.v == p.e && g.next == p.next
  {
    match p case Tree(e, j) => Got(e, j) case Unsup => Failed(false) case Beyond => Failed(true)
  }

  /** An expression of the first level, without joining lines. */
  function Level0(ts: Source, i: nat): (g: Got<Expr>)
    requires i < |ts|
    ensures g.Got? ==> i < g.next < |ts|
  {
    FromExpr(ParseLevel(ts, 0, i, 0))
  }

  function FullExpr(ts: Source, i: nat): (g: Got<Expr>)
    requires i < |ts|
    ensures g.Got? ==> i < g.next < |ts|
  {
    FromExpr(ParseExpr(ts, i))
  }

  // ---- Clause ends -----------------------------------------------------------

  predicate IsEoc(ts: Source, i: nat) { Tok(ts, i).kind == Eoc || IsSemi(ts, i) }

  function SkipEoc(ts: Source, i: nat): (j: nat)
    requires i < |ts|
    ensures i <= j < |ts| && !IsEoc(ts, j)
    decreases |ts| - i
  {
    if IsEoc(ts, i) then SkipEoc(ts, i + 1) else i
  }

  function ConsumeEoc(ts: Source, i: nat): (j: nat)
    requires i < |ts|
    ensures i <= j < |ts|
  {
    if IsEoc(ts, i) then i + 1 else i
  }

  /** A line end behind THEN or ELSE; a ';' there would be an empty statement. */
  function ConsumeNewline(ts: Source, i: nat): (j: nat)
    requires i < |ts|
    ensures i <= j < |ts|
  {
    if ts[i].kind == Eoc then i + 1 else i
  }

  /** END and the name that may follow it. */
  function ConsumeEnd(ts: Source, i: nat): (j: nat)
    requires i < |ts|
    ensures i <= j < |ts|
  {
    if !IsKeyword(ts, i, "END") then i
    else if Tok(ts, i + 1).kind == Symbol && !EndsClause(ts, i + 1) then i + 2 else i + 1
  }

  function SkipClause(ts: Source, i: nat): (j: nat)
    requires i < |ts|
    ensures i <= j < |ts|
    decreases |ts| - i
  {
    if EndsClause(ts, i) then i else SkipClause(ts, i + 1)
  }

  predicate IsAssign(ts: Source, i: nat)
  {
    Is(ts, i + 1, Comparison, '=') && !Is(ts, i + 2, Comparison, '=')
  }

  // ---- Blocks past the control stack -----------------------------------------

  /** The END of the innermost block open at i. */
  function SkipToEnd(ts: Source, i: nat, balance: nat, atStart: bool): (r: Option<nat>)
    requires i < |ts|
    ensures r.Some? ==> i <= r.value < |ts| && IsKeyword(ts, r.value, "END")
    decreases |ts| - i
  {
    if ts[i].kind == Eof then None
    else
      var key := atStart && ts[i].kind == Symbol && !IsAssign(ts, i);
      if key && IsKeyword(ts, i, "END") && balance == 0 then Some(i)
      else
        var b: nat := if key && IsKeyword(ts, i, "END") then balance - 1
                      else if key && (IsKeyword(ts, i, "DO") || IsKeyword(ts, i, "SELECT")) then balance + 1
                      else balance;
        SkipToEnd(ts, i + 1, b, ts[i].kind == Eoc || ts[i].kind == Semicolon
                                || IsKeyword(ts, i, "THEN") || IsKeyword(ts, i, "ELSE") || IsKeyword(ts, i, "OTHERWISE"))
  }

  function ParseRefused(ts: Source, i: nat): (r: Got<Stmt>)
    requires i < |ts| && !IsKeyword(ts, i, "END")
    ensures r.Got? ==> i < r.next < |ts|
  {
    match SkipToEnd(ts, i, 0, true) case None => Failed(false) case Some(j) => Got(Refused, j)
  }

  // ---- Statements ------------------------------------------------------------

  /** What is open around a statement: DO and SELECT frames, IFs, whether a DO or a SELECT is among them. */
  datatype Ctl = Ctl(loops: nat, ifs: nat, inLoop: bool, inSelect: bool)

  predicate Full(x: Ctl) { x.loops + x.ifs >= CTL_MAX }

  predicate Unmodelled(ts: Source, i: nat)
  {
    IsKeyword(ts, i, "PARSE") || IsKeyword(ts, i, "ARG")
    || IsKeyword(ts, i, "PROCEDURE") || IsKeyword(ts, i, "SIGNAL") || IsKeyword(ts, i, "TRACE")
    || IsKeyword(ts, i, "ADDRESS") || IsKeyword(ts, i, "DROP") || (IsKeyword(ts, i, "NUMERIC") && !IsAssign(ts, i))
  }

  function ParseExit(ts: Source, i: nat): (r: Got<Stmt>)
    requires i < |ts|
    ensures r.Got? ==> i <= r.next < |ts|
  {
    if EndsClause(ts, i) then Got(Exit, i)
    else
      var (e, j) :- FullExpr(ts, i);
      Got(ExitWith(e), j)
  }

  function ParseSay(ts: Source, i: nat): (r: Got<Stmt>)
    requires i < |ts|
    ensures r.Got? ==> i <= r.next < |ts|
  {
    if EndsClause(ts, i) then Got(Say(Expr.Lit("")), i)
    else
      var (e, j) :- FullExpr(ts, i);
      Got(Say(e), j)
  }

  function ParseAssign(ts: Source, i: nat, name: string): (r: Got<Stmt>)
    requires i < |ts|
    ensures r.Got? ==> i <= r.next < |ts|
  {
    var (e, j) :- FullExpr(ts, i);
    Got(Assign(name, e), j)
  }

  /** CALL, from the name on. */
  function ParseCallTo(ts: Source, i: nat): (r: Got<Stmt>)
    requires i < |ts|
    ensures r.Got? ==> i < r.next < |ts|
  {
    if ts[i].kind != Symbol || ts[i].constant then Failed(false)
    else if EndsClause(ts, i + 1) then Got(CallTo(ts[i].upper, NoArgs), i + 1)
    else
      var (a, j) :- ParseCallArgs(ts, i + 1, NoArgs);
      Got(CallTo(ts[i].upper, a), j)
  }

  /** The arguments up to the end of the clause, behind those in acc; a comma without an argument in front of it, or
  at the end, stands for an omitted one. */
  function ParseCallArgs(ts: Source, i: nat, acc: Args): (r: Got<Args>)
    requires i < |ts|
    ensures r.Got? ==> i <= r.next < |ts|
    decreases |ts| - i
  {
    if CountA(acc) >= MAX_ARGS then Failed(false)
    else if ts[i].kind == Comma then ParseCallArgs(ts, i + 1, Omitted(acc))
    else if EndsClause(ts, i) then Got(Omitted(acc), i)
    else
      var (e, j) :- Level0(ts, i);
      if ts[j].kind == Comma then ParseCallArgs(ts, j + 1, Arg(acc, e))
      else if EndsClause(ts, j) then Got(Arg(acc, e), j)
      else Failed(false)
  }

  function ParseReturn(ts: Source, i: nat): (r: Got<Stmt>)
    requires i < |ts|
    ensures r.Got? ==> i <= r.next < |ts|
  {
    if EndsClause(ts, i) then Got(Return, i)
    else
      var (e, j) :- FullExpr(ts, i);
      Got(ReturnWith(e), j)
  }

  /** ITERATE or LEAVE with a name: no DO is ever given the name of its variable. */
  predicate Named(ts: Source, i: nat)
  {
    Tok(ts, i + 1).kind == Symbol && !EndsClause(ts, i + 1)
  }

  function ParseIterate(ts: Source, i: nat, x: Ctl): (r: Got<Stmt>)
    requires i + 1 < |ts|
    ensures r.Got? ==> i < r.next < |ts|
  {
    if Named(ts, i) || !x.inLoop then Failed(false) else Got(Iterate, i + 1)
  }

  function ParseLeave(ts: Source, i: nat, x: Ctl): (r: Got<Stmt>)
    requires i + 1 < |ts|
    ensures r.Got? ==> i < r.next < |ts|
  {
    if !Named(ts, i) && x.inLoop then Got(Leave(false), i + 1)
    else if x.inSelect then Got(Leave(true), if Named(ts, i) then i + 2 else i + 1)
    else Failed(false)
  }

  function ParseSelect(ts: Source, i: nat, x: Ctl): (r: Got<Stmt>)
    requires i < |ts|
    ensures r.Got? ==> i <= r.next < |ts|
    decreases |ts| - i, 5
  {
    var (ws, j) :- ParseWhens(ts, SkipEoc(ts, i), x.(loops := x.loops + 1, inSelect := true));
    Got(Select(ws), ConsumeEnd(ts, j))
  }

  function ParseStmt(ts: Source, i: nat, x: Ctl): (r: Got<Stmt>)
    requires i < |ts|
    ensures r.Got? ==> i <= r.next < |ts| && (!EndsClause(ts, i) ==> i < r.next)
    decreases |ts| - i, 1
  {
    if EndsClause(ts, i) then Got(Null, i)
    else if IsKeyword(ts, i, "EXIT") then
      ParseExit(ts, i + 1)
    else if IsKeyword(ts, i, "SAY") then
      ParseSay(ts, i + 1)
    else if IsKeyword(ts, i, "IF") then
      if Full(x) then ParseRefused(ts, i) else ParseIf(ts, i + 1, x.(ifs := x.ifs + 1))
    else if IsKeyword(ts, i, "SELECT") then
      if Full(x) then ParseRefused(ts, i) else ParseSelect(ts, i + 1, x)
    else if IsKeyword(ts, i, "DO") then
      if Full(x) then ParseRefused(ts, i) else ParseDo(ts, i + 1, x)
    else if IsKeyword(ts, i, "ITERATE") then
      ParseIterate(ts, i, x)
    else if IsKeyword(ts, i, "LEAVE") then
      ParseLeave(ts, i, x)
    else if IsKeyword(ts, i, "NOP") then Got(Nop, i + 1)
    else if IsKeyword(ts, i, "CALL") then
      ParseCallTo(ts, i + 1)
    else if IsKeyword(ts, i, "RETURN") then
      ParseReturn(ts, i + 1)
    else if Unmodelled(ts, i) then Failed(true)
    else if ts[i].kind == Symbol && !ts[i].constant && IsAssign(ts, i) then
      if ts[i].compound then Failed(true) else ParseAssign(ts, i + 2, ts[i].upper)
    else Failed(false)
  }

  function ParseIf(ts: Source, i: nat, x: Ctl): (r: Got<Stmt>)
    requires i < |ts|
    ensures r.Got? ==> i < r.next < |ts|
    decreases |ts| - i, 2
  {
    var (c, j) :- FullExpr(ts, i);
    if !IsKeyword(ts, j, "THEN") then Failed(false)
    else
      var (t, k) :- ParseStmt(ts, ConsumeNewline(ts, j + 1), x);
      var m := ConsumeEoc(ts, k);
      if !IsKeyword(ts, m, "ELSE") then Got(If(c, t, false, Null), m)
      else
        var (f, n) :- ParseStmt(ts, ConsumeNewline(ts, m + 1), x);
        Got(If(c, t, true, f), ConsumeEoc(ts, n))
  }

  function ParseWhens(ts: Source, i0: nat, x: Ctl): (r: Got<Whens>)
    requires i0 < |ts|
    ensures r.Got? ==> i0 <= r.next < |ts|
    decreases |ts| - i0, 4
  {
    var i := SkipEoc(ts, i0);
    if IsKeyword(ts, i, "WHEN") then
      var (c, j) :- FullExpr(ts, i + 1);
      if !IsKeyword(ts, j, "THEN") then Failed(false)
      else
        var (s, k) :- ParseStmt(ts, ConsumeNewline(ts, j + 1), x);
        var (ws, n) :- ParseWhens(ts, ConsumeEoc(ts, k), x);
        Got(When(c, s, ws), n)
    else if IsKeyword(ts, i, "OTHERWISE") then
      var (b, j) :- ParseBlock(ts, ConsumeEoc(ts, i + 1), x);
      Got(Otherwise(b), j)
    else if IsKeyword(ts, i, "END") then Got(NoOtherwise, i)
    else Failed(false)
  }

  /** Statements up to END or the end of the source. */
  function ParseBlock(ts: Source, i0: nat, x: Ctl): (r: Got<Block>)
    requires i0 < |ts|
    ensures r.Got? ==> i0 <= r.next < |ts|
    decreases |ts| - i0, 4
  {
    var i := SkipEoc(ts, i0);
    if ts[i].kind == Eof || IsKeyword(ts, i, "END") then Got(Done, i)
    else
      var (s, j) :- ParseStmt(ts, i, x);
      var (b, k) :- ParseBlock(ts, ConsumeEoc(ts, j), x);
      Got(Step(s, b), k)
  }

  /** The header of DO var = start TO limit [BY step] [FOR count], from behind the '='. */
  function ParseTo(ts: Source, i: nat, v: string): (r: Got<DoKind>)
    requires i < |ts|
    ensures r.Got? ==> i < r.next < |ts| && r.v.To?
  {
    var (start, j) :- Level0(ts, i);
    if !IsKeyword(ts, j, "TO") then Failed(false)
    else
      var (limit, k) :- Level0(ts, j + 1);
      if IsKeyword(ts, k, "BY") then
        var (step, m) :- Level0(ts, k + 1);
        ParseFor(ts, m, v, start, limit, step)
      else ParseFor(ts, k, v, start, limit, Expr.Lit("1"))
  }

  function ParseFor(ts: Source, i: nat, v: string, start: Expr, limit: Expr, step: Expr): (r: Got<DoKind>)
    requires i < |ts|
    ensures r.Got? ==> i <= r.next < |ts| && r.v.To?
  {
    if IsKeyword(ts, i, "FOR") then
      var (n, j) :- Level0(ts, i + 1);
      Got(To(v, start, limit, step, true, n), j)
    else Got(To(v, start, limit, step, false, Expr.Lit("")), i)
  }

  predicate IsControlled(ts: Source, i: nat)
  {
    Tok(ts, i).kind == Symbol && !Tok(ts, i).constant && Is(ts, i + 1, Comparison, '=')
    && Tok(ts, i + 2).kind != Comparison
  }

  /** Everything up to the body.  The UNTIL condition is only skipped here: the compiler comes back
  for it behind the body. */
  function ParseHeader(ts: Source, i: nat): (r: Got<DoKind>)
    requires i < |ts|
    ensures r.Got? ==> i <= r.next < |ts|
  {
    if IsKeyword(ts, i, "FOREVER") then Got(Forever, ConsumeEoc(ts, i + 1))
    else if EndsClause(ts, i) then Got(Group, ConsumeEoc(ts, i))
    else if IsKeyword(ts, i, "WHILE") then
      var (c, j) :- Level0(ts, i + 1);
      Got(While(c), ConsumeEoc(ts, j))
    else if IsKeyword(ts, i, "UNTIL") then Got(Until(TooDeep), ConsumeEoc(ts, SkipClause(ts, i + 1)))
    else if IsControlled(ts, i) then
      var (k, j) :- ParseTo(ts, i + 2, ts[i].upper);
      Got(k, ConsumeEoc(ts, j))
    else
      var (n, j) :- Level0(ts, i);
      Got(Count(n), ConsumeEoc(ts, j))
  }

  function ParseDo(ts: Source, i: nat, x: Ctl): (r: Got<Stmt>)
    requires i < |ts|
    ensures r.Got? ==> i <= r.next < |ts|
    decreases |ts| - i, 5
  {
    var (kind, j) :- ParseHeader(ts, i);
    var (b, k) :- ParseBlock(ts, j, x.(loops := x.loops + 1, inLoop := true));
    if kind.Until? then
      var (c, _) :- Level0(ts, i + 1);
      Got(Do(Until(c), b), ConsumeEnd(ts, k))
    else Got(Do(kind, b), ConsumeEnd(ts, k))
  }

  const TOP := Ctl(0, 0, false, false)

  predicate IsLabel(ts: Source, i: nat)
  {
    Tok(ts, i).kind == Symbol && Is(ts, i + 1, Semicolon, ':')
  }

  function ParseProgram(ts: Source, i: nat): (r: Got<Block>)
    requires i < |ts|
    decreases |ts| - i
  {
    if ts[i].kind == Eof then Got(Done, i)
    else if IsEoc(ts, i) then ParseProgram(ts, i + 1)
    else if IsLabel(ts, i) then
      var (b, k) :- ParseProgram(ts, i + 2);
      Got(Step(Label(ts[i].upper), b), k)
    else
      var (s, j) :- ParseStmt(ts, i, TOP);
      var (b, k) :- ParseProgram(ts, ConsumeEoc(ts, j));
      Got(Step(s, b), k)
  }

  // ---- Statements without calls ------------------------------------------------

  predicate CallFreeKind(k: DoKind)
  {
    match k
    case Count(e) => CallFree(e)
    case While(e) => CallFree(e)
    case Until(e) => CallFree(e)
    case To(_, a, b, c, _, f) => CallFree(a) && CallFree(b) && CallFree(c) && CallFree(f)
    case _ => true
  }

  /** No CALL, no function call and no RETURN. */
  predicate CallFreeS(s: Stmt)
    decreases s
  {
    match s
    case Assign(_, e) => CallFree(e)
    case Say(e) => CallFree(e)
    case ExitWith(e) => CallFree(e)
    case If(c, t, _, f) => CallFree(c) && CallFreeS(t) && CallFreeS(f)
    case Select(ws) => CallFreeW(ws)
    case Do(k, b) => CallFreeKind(k) && CallFreeB(b)
    case CallTo(_, _) => false
    case Return => false
    case ReturnWith(_) => false
    case _ => true
  }

  predicate CallFreeB(b: Block)
    decreases b
  {
    match b case Done => true case Step(s, r) => CallFreeS(s) && CallFreeB(r)
  }

  predicate CallFreeW(ws: Whens)
    decreases ws
  {
    match ws
    case When(c, s, r) => CallFree(c) && CallFreeS(s) && CallFreeW(r)
    case Otherwise(b) => CallFreeB(b)
    case NoOtherwise => true
  }
}
