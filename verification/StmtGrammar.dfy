/** The statements, said without a parser: which token texts are statements, blocks and WHEN lists, and what trees they
stand for.  The one-pass descent reads exactly these texts. */
module StmtGrammar {
  import opened Options
  import opened NumberText
  import opened Bytecode
  import opened Tokens
  import opened ExprSyntax
  import opened ExprGrammar
  import opened StmtSyntax

  // ---- Statements as written ---------------------------------------------------------------

  /** A keyword alone or in front of an expression, an assignment, CALL, IF, SELECT and DO.  Nothing stands for the empty
  statement behind THEN or ELSE. */
  datatype SText =
    | Nothing
    | Word(k: Token)
    | WordExpr(k: Token, e: Phrase)
    | LeaveNamed(k: Token, name: Token)
    | Setting(name: Token, eq: Token, e: Phrase)
    | Calling(k: Token, name: Token, args: CText)
    | IfThen(k: Token, c: Phrase, yes: Branch)
    | IfElse(k: Token, c: Phrase, yes: Branch, no: Branch)
    | Selecting(k: Token, ws: WText, end: seq<Token>)
    | Looping(k: Token, h: HText, b: BText, end: seq<Token>)

  /** THEN or ELSE, a line end or not, a statement, a separator or not. */
  datatype Branch = Branch(mark: Token, nl: seq<Token>, s: SText, sep: seq<Token>)

  datatype WText =
    | Case(seps: seq<Token>, k: Token, c: Phrase, yes: Branch, rest: WText)
    | Rest(seps: seq<Token>, k: Token, b: BText)
    | NoRest(seps: seq<Token>)

  datatype BText = Closed(seps: seq<Token>) | Next(seps: seq<Token>, s: SText, rest: BText)

  /** What follows DO, with the separator behind it.  The clause of UNTIL may go on behind the condition. */
  datatype HText =
    | Always(k: Token, sep: seq<Token>)
    | Once(sep: seq<Token>)
    | Times(n: Phrase, sep: seq<Token>)
    | Whiling(k: Token, c: Phrase, sep: seq<Token>)
    | Untiling(k: Token, c: Phrase, more: seq<Token>, sep: seq<Token>)
    | Counting(v: Token, eq: Token, start: Phrase, to: Token, limit: Phrase, step: Part, times: Part, sep: seq<Token>)

  /** BY or FOR with its expression, or neither. */
  datatype Part = Absent | Given(k: Token, e: Phrase)

  /** The arguments of CALL; none at all, or a list in which each may be left out. */
  datatype CText = NoList | Listed(items: CItems)

  datatype CItems = LastOne(s: Slot) | Further(s: Slot, comma: Token, rest: CItems)

  /** What stands in front of a program's statements. */
  datatype PText = Ended(seps: seq<Token>) | Labelled(seps: seq<Token>, name: Token, colon: Token, rest: PText)
                 | Then(seps: seq<Token>, s: SText, rest: PText)

  function WrittenS(s: SText): seq<Token>
    decreases s
  {
    match s
    case Nothing => []
    case Word(k) => [k]
    case WordExpr(k, e) => [k] + Written(e)
    case LeaveNamed(k, n) => [k, n]
    case Setting(n, q, e) => [n, q] + Written(e)
    case Calling(k, n, a) => [k, n] + WrittenC(a)
    case IfThen(k, c, y) => [k] + Written(c) + WrittenR(y)
    case IfElse(k, c, y, n) => [k] + Written(c) + WrittenR(y) + WrittenR(n)
    case Selecting(k, ws, end) => [k] + WrittenW(ws) + end
    case Looping(k, h, b, end) => [k] + WrittenH(h) + WrittenB(b) + end
  }

  function WrittenR(b: Branch): seq<Token>
    decreases b
  {
    [b.mark] + b.nl + WrittenS(b.s) + b.sep
  }

  function WrittenW(ws: WText): seq<Token>
    decreases ws
  {
    match ws
    case Case(seps, k, c, y, r) => seps + [k] + Written(c) + WrittenR(y) + WrittenW(r)
    case Rest(seps, k, b) => seps + [k] + WrittenB(b)
    case NoRest(seps) => seps
  }

  function WrittenB(b: BText): seq<Token>
    decreases b
  {
    match b case Closed(seps) => seps case Next(seps, s, r) => seps + WrittenS(s) + WrittenB(r)
  }

  function WrittenH(h: HText): seq<Token>
  {
    match h
    case Always(k, sep) => [k] + sep
    case Once(sep) => sep
    case Times(n, sep) => Written(n) + sep
    case Whiling(k, c, sep) => [k] + Written(c) + sep
    case Untiling(k, c, more, sep) => [k] + Written(c) + more + sep
    case Counting(v, q, a, to, z, step, times, sep) =>
      [v, q] + Written(a) + [to] + Written(z) + WrittenPart(step) + WrittenPart(times) + sep
  }

  function WrittenPart(p: Part): seq<Token>
  {
    match p case Absent => [] case Given(k, e) => [k] + Written(e)
  }

  function WrittenC(a: CText): seq<Token>
  {
    match a case NoList => [] case Listed(it) => WrittenI(it)
  }

  function WrittenI(it: CItems): seq<Token>
  {
    match it case LastOne(s) => WrittenSlot(s) case Further(s, c, r) => WrittenSlot(s) + [c] + WrittenI(r)
  }

  function WrittenP(p: PText): seq<Token>
  {
    match p
    case Ended(seps) => seps
    case Labelled(seps, n, c, r) => seps + [n, c] + WrittenP(r)
    case Then(seps, s, r) => seps + WrittenS(s) + WrittenP(r)
  }

  // ---- What they stand for -----------------------------------------------------------------

  /** LEAVE in a DO leaves the DO, else the SELECT. */
  function TreeS(s: SText, inLoop: bool): Stmt
    decreases s
  {
    match s
    case Nothing => Null
    case Word(k) =>
      if k.upper == "SAY" then Say(Expr.Lit("")) else if k.upper == "EXIT" then Exit else if k.upper == "RETURN" then Return
      else if k.upper == "NOP" then Nop else if k.upper == "LEAVE" then Leave(!inLoop) else Iterate
    case WordExpr(k, e) =>
      if k.upper == "SAY" then Say(TreeOf(e)) else if k.upper == "EXIT" then ExitWith(TreeOf(e)) else ReturnWith(TreeOf(e))
    case LeaveNamed(_, _) => Leave(true)
    case Setting(n, _, e) => Assign(n.upper, TreeOf(e))
    case Calling(_, n, a) => CallTo(n.upper, TreeC(a))
    case IfThen(_, c, y) => If(TreeOf(c), TreeS(y.s, inLoop), false, Null)
    case IfElse(_, c, y, n) => If(TreeOf(c), TreeS(y.s, inLoop), true, TreeS(n.s, inLoop))
    case Selecting(_, ws, _) => Select(TreeW(ws, inLoop))
    case Looping(_, h, b, _) => Do(TreeH(h), TreeB(b, true))
  }

  function TreeW(ws: WText, inLoop: bool): Whens
    decreases ws
  {
    match ws
    case Case(_, _, c, y, r) => When(TreeOf(c), TreeS(y.s, inLoop), TreeW(r, inLoop))
    case Rest(_, _, b) => Otherwise(TreeB(b, inLoop))
    case NoRest(_) => NoOtherwise
  }

  function TreeB(b: BText, inLoop: bool): Block
    decreases b
  {
    match b case Closed(_) => Done case Next(_, s, r) => Step(TreeS(s, inLoop), TreeB(r, inLoop))
  }

  /** Without BY the step is 1. */
  function TreeH(h: HText): DoKind
  {
    match h
    case Always(_, _) => Forever
    case Once(_) => DoKind.Group
    case Times(n, _) => Count(TreeOf(n))
    case Whiling(_, c, _) => While(TreeOf(c))
    case Untiling(_, c, _, _) => Until(TreeOf(c))
    case Counting(v, _, a, _, z, step, times, _) =>
      To(v.upper, TreeOf(a), TreeOf(z), if step.Given? then TreeOf(step.e) else Expr.Lit("1"),
         times.Given?, if times.Given? then TreeOf(times.e) else Expr.Lit(""))
  }

  function TreeC(a: CText): Args
  {
    match a case NoList => NoArgs case Listed(it) => TreeI(it, NoArgs)
  }

  /** The arguments, behind those in acc. */
  function TreeI(it: CItems, acc: Args): Args
  {
    match it case LastOne(s) => WithSlot(s, acc) case Further(s, _, r) => TreeI(r, WithSlot(s, acc))
  }

  function TreeP(p: PText): Block
  {
    match p
    case Ended(_) => Done
    case Labelled(_, n, _, r) => Step(Label(n.upper), TreeP(r))
    case Then(_, s, r) => Step(TreeS(s, false), TreeP(r))
  }

  // ---- Where they stand --------------------------------------------------------------------

  predicate Is1(t: Token, w: string) { t.kind == Symbol && t.upper == w }

  predicate Separator(t: Token) { t.kind == Eoc || (t.kind == Semicolon && t.text != "" && t.text[0] == ';') }

  predicate ClauseEnd(t: Token) { Separator(t) || t.kind == Eof }

  predicate EqualSign(t: Token) { t.kind == Comparison && t.text != "" && t.text[0] == '=' }

  /** Words no clause that starts with them is an assignment. */
  predicate Reserved(w: string)
  {
    w == "EXIT" || w == "SAY" || w == "IF" || w == "SELECT" || w == "DO" || w == "ITERATE" || w == "LEAVE" || w == "NOP"
    || w == "CALL" || w == "RETURN" || w == "PARSE" || w == "ARG" || w == "PROCEDURE" || w == "SIGNAL" || w == "TRACE"
    || w == "ADDRESS" || w == "DROP"
  }

  /** The expression p stands at i.  Strictly, nothing behind it goes on with it. */
  ghost predicate FitsE(ts: Source, i: nat, p: Phrase, strict: bool)
  {
    && WellFormed(p) && Cost(p) <= NEST_MAX && Stands(ts, i, Written(p))
    && var j := i + |Written(p)|;
       j < |ts| && !CallLike(Last(p), ts[j]) && (strict ==> Stops(ts, 0, j) && !(ts[j].kind == Comma && ts[j].continuation))
  }

  /** One separator, if there is one. */
  predicate FitsSep(ts: Source, i: nat, sep: seq<Token>)
  {
    i < |ts| && sep == if Separator(ts[i]) then [ts[i]] else []
  }

  /** All separators there are. */
  ghost predicate FitsSeps(ts: Source, i: nat, seps: seq<Token>)
  {
    Stands(ts, i, seps) && i + |seps| < |ts| && (forall j :: 0 <= j < |seps| ==> Separator(seps[j])) && !Separator(ts[i + |seps|])
  }

  /** END and a name behind it; END may be missing only at the end of the source. */
  ghost predicate FitsEnd(ts: Source, i: nat, end: seq<Token>)
  {
    && Stands(ts, i, end) && i + |end| < |ts| && |end| <= 2
    && if end == [] then ts[i].kind == Eof
       else Is1(end[0], "END") && if |end| == 2 then end[1].kind == Symbol else ts[i + 1].kind != Symbol
  }

  ghost predicate FitsS(ts: Source, i: nat, s: SText, x: Ctl, strict: bool)
    decreases s
  {
    match s
    case Nothing => i < |ts| && ClauseEnd(ts[i])
    case Word(k) =>
      && i + 1 < |ts| && ts[i] == k && k.kind == Symbol
      && if k.upper == "SAY" || k.upper == "EXIT" || k.upper == "RETURN" then ClauseEnd(ts[i + 1])
         else if k.upper == "LEAVE" then ts[i + 1].kind != Symbol && (x.inLoop || x.inSelect)
         else if k.upper == "ITERATE" then ts[i + 1].kind != Symbol && x.inLoop
         else k.upper == "NOP"
    case WordExpr(k, e) =>
      && i < |ts| && ts[i] == k && (Is1(k, "SAY") || Is1(k, "EXIT") || Is1(k, "RETURN"))
      && FitsE(ts, i + 1, e, strict)
    case LeaveNamed(k, n) => i + 2 < |ts| && ts[i] == k && ts[i + 1] == n && Is1(k, "LEAVE") && n.kind == Symbol && x.inSelect
    case Setting(n, q, e) =>
      && i + 1 < |ts| && ts[i] == n && ts[i + 1] == q && EqualSign(q)
      && n.kind == Symbol && !n.constant && !n.compound && !Reserved(n.upper)
      && FitsE(ts, i + 2, e, strict)
    case Calling(k, n, a) =>
      && i + 1 < |ts| && ts[i] == k && ts[i + 1] == n && Is1(k, "CALL") && n.kind == Symbol && !n.constant
      && FitsC(ts, i + 2, a, strict)
    case IfThen(k, c, y) =>
      && FitsIf(ts, i, k, c, x, strict)
      && FitsR(ts, i + 1 + |Written(c)|, y, "THEN", x.(ifs := x.ifs + 1), strict)
      && !Is1(ts[i + 1 + |Written(c)| + |WrittenR(y)|], "ELSE")
    case IfElse(k, c, y, n) =>
      && FitsIf(ts, i, k, c, x, strict)
      && FitsR(ts, i + 1 + |Written(c)|, y, "THEN", x.(ifs := x.ifs + 1), strict)
      && FitsR(ts, i + 1 + |Written(c)| + |WrittenR(y)|, n, "ELSE", x.(ifs := x.ifs + 1), strict)
    case Selecting(k, ws, end) =>
      && i < |ts| && ts[i] == k && Is1(k, "SELECT") && x.loops + x.ifs < 250
      && FitsW(ts, i + 1, ws, x.(loops := x.loops + 1, inSelect := true), strict)
      && FitsEnd(ts, i + 1 + |WrittenW(ws)|, end)
    case Looping(k, h, b, end) =>
      && i < |ts| && ts[i] == k && Is1(k, "DO") && x.loops + x.ifs < 250
      && FitsH(ts, i + 1, h, strict)
      && FitsB(ts, i + 1 + |WrittenH(h)|, b, x.(loops := x.loops + 1, inLoop := true), strict)
      && FitsEnd(ts, i + 1 + |WrittenH(h)| + |WrittenB(b)|, end)
  }

  ghost predicate FitsIf(ts: Source, i: nat, k: Token, c: Phrase, x: Ctl, strict: bool)
  {
    i < |ts| && ts[i] == k && Is1(k, "IF") && x.loops + x.ifs < 250 && FitsE(ts, i + 1, c, strict)
  }

  ghost predicate FitsR(ts: Source, i: nat, b: Branch, w: string, x: Ctl, strict: bool)
    ensures FitsR(ts, i, b, w, x, strict) ==> i + |WrittenR(b)| < |ts|
    decreases b
  {
    && i + 1 < |ts| && ts[i] == b.mark && Is1(b.mark, w)
    && (b.nl == if ts[i + 1].kind == Eoc then [ts[i + 1]] else [])
    && FitsS(ts, i + 1 + |b.nl|, b.s, x, strict)
    && FitsSep(ts, i + 1 + |b.nl| + |WrittenS(b.s)|, b.sep)
    && i + |WrittenR(b)| < |ts|
  }

  ghost predicate FitsW(ts: Source, i: nat, ws: WText, x: Ctl, strict: bool)
    decreases ws
  {
    && FitsSeps(ts, i, ws.seps)
    && var j := i + |ws.seps|;
       match ws
       case Case(_, k, c, y, r) =>
         && ts[j] == k && Is1(k, "WHEN") && FitsE(ts, j + 1, c, strict)
         && FitsR(ts, j + 1 + |Written(c)|, y, "THEN", x, strict)
         && FitsW(ts, j + 1 + |Written(c)| + |WrittenR(y)|, r, x, strict)
       case Rest(_, k, b) => ts[j] == k && Is1(k, "OTHERWISE") && FitsB(ts, j + 1, b, x, strict)
       case NoRest(_) => Is1(ts[j], "END")
  }

  ghost predicate FitsB(ts: Source, i: nat, b: BText, x: Ctl, strict: bool)
    decreases b
  {
    && FitsSeps(ts, i, b.seps)
    && var j := i + |b.seps|;
       match b
       case Closed(_) => ts[j].kind == Eof || Is1(ts[j], "END")
       case Next(_, s, r) =>
         ts[j].kind != Eof && !Is1(ts[j], "END") && FitsS(ts, j, s, x, strict) && FitsB(ts, j + |WrittenS(s)|, r, x, strict)
  }

  ghost predicate FitsH(ts: Source, i: nat, h: HText, strict: bool)
  {
    match h
    case Always(k, sep) => i < |ts| && ts[i] == k && Is1(k, "FOREVER") && FitsSep(ts, i + 1, sep)
    case Once(sep) => i < |ts| && ClauseEnd(ts[i]) && FitsSep(ts, i, sep)
    case Times(n, sep) =>
      && FitsE(ts, i, n, strict) && FitsSep(ts, i + |Written(n)|, sep)
      && !Is1(ts[i], "FOREVER") && !Is1(ts[i], "WHILE") && !Is1(ts[i], "UNTIL")
      && !(ts[i].kind == Symbol && !ts[i].constant && EqualSign(ts[i + 1]) && Tok(ts, i + 2).kind != Comparison)
    case Whiling(k, c, sep) =>
      i < |ts| && ts[i] == k && Is1(k, "WHILE") && FitsE(ts, i + 1, c, strict) && FitsSep(ts, i + 1 + |Written(c)|, sep)
    case Untiling(k, c, more, sep) =>
      && i < |ts| && ts[i] == k && Is1(k, "UNTIL") && FitsE(ts, i + 1, c, strict)
      && var j := i + 1 + |Written(c)|;
         && Stands(ts, j, more) && (forall m :: 0 <= m < |more| ==> !ClauseEnd(more[m]))
         && j + |more| < |ts| && ClauseEnd(ts[j + |more|]) && FitsSep(ts, j + |more|, sep)
    case Counting(_, _, _, _, _, _, _, _) => FitsVariable(ts, i, h) && FitsBounds(ts, i + 2, h, strict)
  }

  predicate FitsVariable(ts: Source, i: nat, h: HText)
    requires h.Counting?
  {
    && i + 2 < |ts| && ts[i] == h.v && ts[i + 1] == h.eq && h.v.kind == Symbol && !h.v.constant && EqualSign(h.eq)
    && h.v.upper != "FOREVER" && h.v.upper != "WHILE" && h.v.upper != "UNTIL"
  }

  ghost predicate FitsBounds(ts: Source, i: nat, h: HText, strict: bool)
    requires h.Counting?
  {
    && FitsE(ts, i, h.start, strict)
    && var j := i + |Written(h.start)|;
       && ts[j] == h.to && Is1(h.to, "TO") && FitsE(ts, j + 1, h.limit, strict)
       && var m := j + 1 + |Written(h.limit)|;
          && FitsPart(ts, m, h.step, "BY", strict) && FitsPart(ts, m + |WrittenPart(h.step)|, h.times, "FOR", strict)
          && FitsSep(ts, m + |WrittenPart(h.step)| + |WrittenPart(h.times)|, h.sep)
  }

  ghost predicate FitsPart(ts: Source, i: nat, p: Part, w: string, strict: bool)
    ensures FitsPart(ts, i, p, w, strict) ==> i < |ts|
  {
    match p
    case Absent => i < |ts| && !Is1(ts[i], w)
    case Given(k, e) => i < |ts| && ts[i] == k && Is1(k, w) && FitsE(ts, i + 1, e, strict)
  }

  /** An argument list goes on to the end of the clause. */
  ghost predicate FitsC(ts: Source, i: nat, a: CText, strict: bool)
  {
    match a
    case NoList => i < |ts| && ClauseEnd(ts[i])
    case Listed(it) => i < |ts| && !ClauseEnd(ts[i]) && CountC(it) <= 16 && FitsI(ts, i, it, strict)
  }

  function CountC(it: CItems): nat
  {
    match it case LastOne(_) => 1 case Further(_, _, r) => 1 + CountC(r)
  }

  ghost predicate FitsI(ts: Source, i: nat, it: CItems, strict: bool)
    decreases it
  {
    && (it.s.Filled? ==> FitsE(ts, i, it.s.e, strict) && ts[i].kind != Comma)
    && var j := i + |WrittenSlot(it.s)|;
       && j < |ts|
       && match it
          case LastOne(_) => ClauseEnd(ts[j])
          case Further(_, c, r) => ts[j] == c && c.kind == Comma && FitsI(ts, j + 1, r, strict)
  }

  predicate Colon(t: Token) { t.kind == Semicolon && t.text != "" && t.text[0] == ':' }

  ghost predicate FitsP(ts: Source, i: nat, p: PText, strict: bool)
    decreases p
  {
    && FitsSeps(ts, i, p.seps)
    && var j := i + |p.seps|;
       match p
       case Ended(_) => ts[j].kind == Eof
       case Labelled(_, n, c, r) =>
         && j + 1 < |ts| && ts[j] == n && ts[j + 1] == c && n.kind == Symbol && Colon(c)
         && FitsP(ts, j + 2, r, strict)
       case Then(_, s, r) =>
         && ts[j].kind != Eof && j + 1 < |ts| && !(ts[j].kind == Symbol && Colon(ts[j + 1]))
         && FitsS(ts, j, s, Ctl(0, 0, false, false), strict) && FitsP(ts, j + |WrittenS(s)|, r, strict)
  }

  // ---- What ends an expression ---------------------------------------------------------------

  /** The words that are no values between values. */
  lemma BarrierWords(w: string)
    ensures BarrierWord(w) <==>
              || w == "THEN" || w == "ELSE" || w == "END" || w == "WHEN" || w == "OTHERWISE" || w == "TO" || w == "BY" || w == "FOR"
              || w == "WHILE" || w == "UNTIL" || w == "FOREVER" || w == "IF" || w == "DO" || w == "SAY" || w == "SELECT"
              || w == "EXIT" || w == "ITERATE" || w == "LEAVE" || w == "NOP" || w == "CALL" || w == "RETURN"
              || w == "PROCEDURE" || w == "PARSE" || w == "DROP" || w == "SIGNAL" || w == "TRACE" || w == "ADDRESS"
  {
  }

  /** A clause end and every keyword that can follow an expression end it. */
  lemma EndsExpression(ts: Source, j: nat)
    requires j < |ts|
    requires ClauseEnd(ts[j]) || Is1(ts[j], "THEN") || Is1(ts[j], "ELSE") || Is1(ts[j], "END") || Is1(ts[j], "WHEN")
             || Is1(ts[j], "OTHERWISE") || Is1(ts[j], "TO") || Is1(ts[j], "BY") || Is1(ts[j], "FOR")
    ensures Stops(ts, 0, j) && !IsContinuation(ts, j) && forall t :: !CallLike(t, ts[j])
  {
    hide BarrierWord;
    BarrierWords(ts[j].upper);
  }

  /** An expression in front of one of these fits, whatever it is. */
  lemma KeywordEnds(ts: Source, i: nat, p: Phrase)
    requires WellFormed(p) && Cost(p) <= NEST_MAX && Stands(ts, i, Written(p)) && i + |Written(p)| < |ts|
    requires var t := ts[i + |Written(p)|];
             || ClauseEnd(t) || Is1(t, "THEN") || Is1(t, "ELSE") || Is1(t, "END") || Is1(t, "WHEN")
             || Is1(t, "OTHERWISE") || Is1(t, "TO") || Is1(t, "BY") || Is1(t, "FOR")
    ensures FitsE(ts, i, p, true)
  {
    hide Stops, CallLike, WellFormed, Cost, Stands;
    EndsExpression(ts, i + |Written(p)|);
  }

  // ---- Every text is read as its tree ----------------------------------------------------------

  lemma Ends(ts: Source, i: nat)
    requires i < |ts|
    ensures EndsClause(ts, i) <==> ClauseEnd(ts[i])
    ensures IsEoc(ts, i) <==> Separator(ts[i])
    ensures forall w :: IsKeyword(ts, i, w) <==> Is1(ts[i], w)
    ensures ts[i].kind != Eof ==> i + 1 < |ts|
  {
  }

  /** Facts about the first token of an expression. */
  lemma ExprStart(ts: Source, i: nat, p: Phrase, strict: bool)
    requires FitsE(ts, i, p, strict)
    ensures i < |ts| && !ClauseEnd(ts[i]) && ts[i].kind != Comparison && ts[i].kind != Comma && ts[i].kind != RParen && i + 1 < |ts|
  {
    hide WellFormed, Stops, CallLike, Cost, Stands, BarrierWord;
    StandsAt(ts, i, Written(p), 0);
    FirstToken(p);
  }

  lemma ExprIsRead(ts: Source, i: nat, p: Phrase)
    requires FitsE(ts, i, p, true)
    ensures var g := Got(TreeOf(p), i + |Written(p)|); i < |ts| && FullExpr(ts, i) == g && Level0(ts, i) == g
  {
    hide WellFormed, Stops, CallLike, Cost, Stands, TreeOf, Written, ParseLevel;
    PhraseIsRead(ts, i, p, 0, 0);
    var j := i + |Written(p)|;
    assert !IsContinuation(ts, j);
    assert ParseJoined(ts, j, TreeOf(p)) == Tree(TreeOf(p), j);
  }

  lemma {:induction false} SepsAreSkipped(ts: Source, i: nat, seps: seq<Token>)
    requires FitsSeps(ts, i, seps)
    ensures i < |ts| && SkipEoc(ts, i) == i + |seps| && SkipEoc(ts, ConsumeEoc(ts, i)) == i + |seps|
    ensures SkipEoc(ts, i + |seps|) == i + |seps|
    decreases |seps|
  {
    Ends(ts, i + |seps|);
    if seps != [] {
      StandsAt(ts, i, seps, 0);
      Ends(ts, i);
      StandsSplit(ts, i, [seps[0]], seps[1..]);
      assert [seps[0]] + seps[1..] == seps;
      assert forall j :: 0 <= j < |seps| - 1 ==> seps[1..][j] == seps[j + 1];
      SepsAreSkipped(ts, i + 1, seps[1..]);
    }
  }

  lemma SepIsConsumed(ts: Source, i: nat, sep: seq<Token>)
    requires FitsSep(ts, i, sep)
    ensures ConsumeEoc(ts, i) == i + |sep| < |ts|
  {
    Ends(ts, i);
  }

  lemma EndIsConsumed(ts: Source, i: nat, end: seq<Token>)
    requires FitsEnd(ts, i, end)
    ensures i < |ts| && ConsumeEnd(ts, i) == i + |end|
  {
    Ends(ts, i);
    if end != [] {
      StandsAt(ts, i, end, 0);
      if |end| == 2 { StandsAt(ts, i, end, 1); }
      Ends(ts, i + 1);
    }
  }

  /** Which parser a statement's first word leads to. */
  lemma FirstWord(ts: Source, i: nat, x: Ctl)
    requires i + 1 < |ts| && ts[i].kind == Symbol
    ensures Is1(ts[i], "SAY") ==> ParseStmt(ts, i, x) == ParseSay(ts, i + 1)
    ensures Is1(ts[i], "EXIT") ==> ParseStmt(ts, i, x) == ParseExit(ts, i + 1)
    ensures Is1(ts[i], "RETURN") ==> ParseStmt(ts, i, x) == ParseReturn(ts, i + 1)
    ensures Is1(ts[i], "NOP") ==> ParseStmt(ts, i, x) == Got(Nop, i + 1)
    ensures Is1(ts[i], "LEAVE") ==> ParseStmt(ts, i, x) == ParseLeave(ts, i, x)
    ensures Is1(ts[i], "ITERATE") ==> ParseStmt(ts, i, x) == ParseIterate(ts, i, x)
    ensures Is1(ts[i], "CALL") ==> ParseStmt(ts, i, x) == ParseCallTo(ts, i + 1)
  {
    hide ParseSay, ParseExit, ParseReturn, ParseLeave, ParseIterate, ParseCallTo, ParseIf, ParseSelect, ParseDo, ParseRefused;
    Ends(ts, i);
  }

  lemma FirstBlockWord(ts: Source, i: nat, x: Ctl)
    requires i + 1 < |ts| && ts[i].kind == Symbol && x.loops + x.ifs < 250
    ensures Is1(ts[i], "IF") ==> ParseStmt(ts, i, x) == ParseIf(ts, i + 1, x.(ifs := x.ifs + 1))
    ensures Is1(ts[i], "SELECT") ==> ParseStmt(ts, i, x) == ParseSelect(ts, i + 1, x)
    ensures Is1(ts[i], "DO") ==> ParseStmt(ts, i, x) == ParseDo(ts, i + 1, x)
  {
    hide ParseSay, ParseExit, ParseReturn, ParseLeave, ParseIterate, ParseCallTo, ParseIf, ParseSelect, ParseDo, ParseRefused;
    Ends(ts, i);
  }

  lemma FirstName(ts: Source, i: nat, x: Ctl)
    requires i + 2 < |ts| && ts[i].kind == Symbol && !ts[i].constant && !ts[i].compound && !Reserved(ts[i].upper)
    requires EqualSign(ts[i + 1]) && ts[i + 2].kind != Comparison
    ensures ParseStmt(ts, i, x) == ParseAssign(ts, i + 2, ts[i].upper)
  {
    hide ParseSay, ParseExit, ParseReturn, ParseLeave, ParseIterate, ParseCallTo, ParseIf, ParseSelect, ParseDo, ParseRefused,
         ParseAssign;
    Ends(ts, i);
  }

  lemma WordIsRead(ts: Source, i: nat, s: SText, x: Ctl)
    requires (s.Word? || s.LeaveNamed? || s.WordExpr? || s.Setting? || s.Calling?) && FitsS(ts, i, s, x, true)
    ensures i < |ts| && ParseStmt(ts, i, x) == Got(TreeS(s, x.inLoop), i + |WrittenS(s)|)
  {
    hide FitsE, FitsC, ParseStmt, FullExpr, Written, WrittenC, TreeOf, TreeC, ParseCallArgs;
    match s {
      case Word(k) =>
        FirstWord(ts, i, x);
        Ends(ts, i + 1);
      case LeaveNamed(_, _) =>
        FirstWord(ts, i, x);
        Ends(ts, i + 1);
      case WordExpr(_, e) =>
        ExprStart(ts, i + 1, e, true);
        Ends(ts, i + 1);
        FirstWord(ts, i, x);
        ExprIsRead(ts, i + 1, e);
      case Setting(_, _, e) =>
        ExprStart(ts, i + 2, e, true);
        FirstName(ts, i, x);
        ExprIsRead(ts, i + 2, e);
      case Calling(_, n, a) =>
        FirstWord(ts, i, x);
        CallIsRead(ts, i + 1, n, a);
    }
  }

  lemma CallIsRead(ts: Source, i: nat, n: Token, a: CText)
    requires i < |ts| && ts[i] == n && n.kind == Symbol && !n.constant && FitsC(ts, i + 1, a, true)
    ensures ParseCallTo(ts, i) == Got(CallTo(n.upper, TreeC(a)), i + 1 + |WrittenC(a)|)
  {
    hide FitsI, ParseCallArgs;
    Ends(ts, i + 1);
    if a.Listed? { ArgumentsAreRead(ts, i + 1, a.items, NoArgs); }
  }

  lemma {:induction false} ArgumentsAreRead(ts: Source, i: nat, it: CItems, acc: Args)
    requires i < |ts| && FitsI(ts, i, it, true) && CountA(acc) + CountC(it) <= 16
    ensures ParseCallArgs(ts, i, acc) == Got(TreeI(it, acc), i + |WrittenI(it)|)
    decreases it
  {
    hide FitsE, Written, TreeOf, ParseCallArgs, CountA, WrittenSlot, WithSlot, ClauseEnd;
    var j := i + |WrittenSlot(it.s)|;
    OneMoreArg(acc, it.s);
    SlotParsed(ts, i, it.s, acc);
    if it.Further? { ArgumentsAreRead(ts, j + 1, it.rest, WithSlot(it.s, acc)); }
  }

  lemma SlotParsed(ts: Source, i: nat, s: Slot, acc: Args)
    requires s.Filled? ==> FitsE(ts, i, s.e, true)
    requires var j := i + |WrittenSlot(s)|; j < |ts| && (ClauseEnd(ts[j]) || ts[j].kind == Comma) && CountA(acc) < 16
    ensures i < |ts|
    ensures var j := i + |WrittenSlot(s)|;
            && (ClauseEnd(ts[j]) ==> ParseCallArgs(ts, i, acc) == Got(WithSlot(s, acc), j))
            && (ts[j].kind == Comma ==> j + 1 < |ts| && ParseCallArgs(ts, i, acc) == ParseCallArgs(ts, j + 1, WithSlot(s, acc)))
  {
    hide FitsE, Written, TreeOf, ParseCallArgs, CountA, ClauseEnd;
    if s.Filled? {
      ExprStart(ts, i, s.e, true);
      ExprIsRead(ts, i, s.e);
      ArgParsed(ts, i, acc, TreeOf(s.e), i + |Written(s.e)|);
    } else {
      OmittedParsed(ts, i, acc);
    }
  }

  lemma OneMoreArg(acc: Args, s: Slot)
    ensures CountA(WithSlot(s, acc)) == CountA(acc) + 1
  {
  }

  lemma ArgParsed(ts: Source, i: nat, acc: Args, e: Expr, j: nat)
    requires i < |ts| && CountA(acc) < 16 && ts[i].kind != Comma && !ClauseEnd(ts[i]) && Level0(ts, i) == Got(e, j) && j < |ts|
    ensures ClauseEnd(ts[j]) ==> ParseCallArgs(ts, i, acc) == Got(Arg(acc, e), j)
    ensures ts[j].kind == Comma ==> j + 1 < |ts| && ParseCallArgs(ts, i, acc) == ParseCallArgs(ts, j + 1, Arg(acc, e))
  {
    hide Level0;
    Ends(ts, i);
    Ends(ts, j);
  }

  lemma OmittedParsed(ts: Source, i: nat, acc: Args)
    requires i < |ts| && CountA(acc) < 16
    ensures ClauseEnd(ts[i]) ==> ParseCallArgs(ts, i, acc) == Got(Omitted(acc), i)
    ensures ts[i].kind == Comma ==> i + 1 < |ts| && ParseCallArgs(ts, i, acc) == ParseCallArgs(ts, i + 1, Omitted(acc))
  {
    hide Level0;
    Ends(ts, i);
  }

  lemma {:induction false} StmtIsRead(ts: Source, i: nat, s: SText, x: Ctl)
    requires FitsS(ts, i, s, x, true)
    ensures i < |ts| && ParseStmt(ts, i, x) == Got(TreeS(s, x.inLoop), i + |WrittenS(s)|)
    decreases s, 2
  {
    hide FitsE, FitsC, FitsH, FitsEnd, FitsR, FitsW, FitsB, ParseIf, ParseSelect, ParseDo, Written, WrittenC, TreeOf, TreeC,
         WrittenH, TreeH;
    match s {
      case Nothing => Ends(ts, i);
      case IfThen(_, _, _) => IfIsRead(ts, i, s, x);
      case IfElse(_, _, _, _) => IfIsRead(ts, i, s, x);
      case Selecting(_, _, _) => SelectIsRead(ts, i, s, x);
      case Looping(_, _, _, _) => DoIsRead(ts, i, s, x);
      case _ => WordIsRead(ts, i, s, x);
    }
  }

  lemma {:induction false} BranchIsRead(ts: Source, i: nat, b: Branch, w: string, x: Ctl)
    requires FitsR(ts, i, b, w, x, true)
    ensures i + 1 < |ts| && IsKeyword(ts, i, w)
    ensures var g := ParseStmt(ts, ConsumeNewline(ts, i + 1), x);
            g.Got? && g.v == TreeS(b.s, x.inLoop) && ConsumeEoc(ts, g.next) == i + |WrittenR(b)| < |ts|
    decreases b, 3
  {
    hide FitsS, FitsSep, ParseStmt, TreeS, WrittenS;
    Ends(ts, i);
    StmtIsRead(ts, i + 1 + |b.nl|, b.s, x);
    SepIsConsumed(ts, i + 1 + |b.nl| + |WrittenS(b.s)|, b.sep);
  }

  lemma {:induction false} IfIsRead(ts: Source, i: nat, s: SText, x: Ctl)
    requires (s.IfThen? || s.IfElse?) && FitsS(ts, i, s, x, true)
    ensures i < |ts| && ParseStmt(ts, i, x) == Got(TreeS(s, x.inLoop), i + |WrittenS(s)|)
    decreases s, 1
  {
    hide FitsE, FitsR, ParseStmt, Written, TreeOf, WrittenR, ParseIf, WrittenS, TreeS, FitsS, IsKeyword, FullExpr;
    IfTexts(s, x.inLoop);
    IfFits(ts, i, s, x);
    var m := IfStarts(ts, i, s, x);
    if s.IfElse? { BranchIsRead(ts, m, s.no, "ELSE", x.(ifs := x.ifs + 1)); } else { NoElse(ts, m); }
  }

  lemma NoElse(ts: Source, m: nat)
    requires m < |ts| && !Is1(ts[m], "ELSE")
    ensures !IsKeyword(ts, m, "ELSE")
  {
  }

  /** IF, its condition and the branch behind THEN. */
  lemma {:induction false} IfStarts(ts: Source, i: nat, s: SText, x: Ctl) returns (m: nat)
    requires (s.IfThen? || s.IfElse?) && FitsIf(ts, i, s.k, s.c, x, true)
    requires FitsR(ts, i + 1 + |Written(s.c)|, s.yes, "THEN", x.(ifs := x.ifs + 1), true)
    ensures m == i + 1 + |Written(s.c)| + |WrittenR(s.yes)| < |ts| && i < |ts|
    ensures var y, t := x.(ifs := x.ifs + 1), TreeS(s.yes.s, x.inLoop);
            && (!IsKeyword(ts, m, "ELSE") ==> ParseStmt(ts, i, x) == Got(If(TreeOf(s.c), t, false, Null), m))
            && (IsKeyword(ts, m, "ELSE") ==>
                 m + 1 < |ts| &&
                 var f := ParseStmt(ts, ConsumeNewline(ts, m + 1), y);
                 ParseStmt(ts, i, x) == if f.Got? then Got(If(TreeOf(s.c), t, true, f.v), ConsumeEoc(ts, f.next)) else Failed(f.beyond))
    decreases s, 0
  {
    hide FitsE, FitsR, ParseStmt, Written, TreeOf, WrittenR, ParseIf, WrittenS, TreeS, FitsS, FullExpr, ConsumeNewline, ConsumeEoc;
    var y := x.(ifs := x.ifs + 1);
    var j := i + 1 + |Written(s.c)|;
    m := j + |WrittenR(s.yes)|;
    ExprStart(ts, i + 1, s.c, true);
    ExprIsRead(ts, i + 1, s.c);
    FirstBlockWord(ts, i, x);
    BranchIsRead(ts, j, s.yes, "THEN", y);
    IfParsed(ts, i + 1, y, TreeOf(s.c), j, m);
  }

  lemma IfFits(ts: Source, i: nat, s: SText, x: Ctl)
    requires (s.IfThen? || s.IfElse?) && FitsS(ts, i, s, x, true)
    ensures FitsIf(ts, i, s.k, s.c, x, true)
    ensures FitsR(ts, i + 1 + |Written(s.c)|, s.yes, "THEN", x.(ifs := x.ifs + 1), true)
    ensures s.IfThen? ==> !Is1(ts[i + 1 + |Written(s.c)| + |WrittenR(s.yes)|], "ELSE")
    ensures s.IfElse? ==> FitsR(ts, i + 1 + |Written(s.c)| + |WrittenR(s.yes)|, s.no, "ELSE", x.(ifs := x.ifs + 1), true)
  {
    hide FitsE, FitsR, Written, WrittenR;
  }

  lemma IfTexts(s: SText, inLoop: bool)
    requires s.IfThen? || s.IfElse?
    ensures s.IfThen? ==> |WrittenS(s)| == 1 + |Written(s.c)| + |WrittenR(s.yes)|
    ensures s.IfThen? ==> TreeS(s, inLoop) == If(TreeOf(s.c), TreeS(s.yes.s, inLoop), false, Null)
    ensures s.IfElse? ==> |WrittenS(s)| == 1 + |Written(s.c)| + |WrittenR(s.yes)| + |WrittenR(s.no)|
    ensures s.IfElse? ==> TreeS(s, inLoop) == If(TreeOf(s.c), TreeS(s.yes.s, inLoop), true, TreeS(s.no.s, inLoop))
  {
    hide Written, WrittenR, TreeOf;
  }

  lemma IfParsed(ts: Source, i: nat, x: Ctl, c: Expr, j: nat, m: nat)
    requires i < |ts| && FullExpr(ts, i) == Got(c, j) && j + 1 < |ts| && IsKeyword(ts, j, "THEN") && m < |ts|
    requires var g := ParseStmt(ts, ConsumeNewline(ts, j + 1), x); g.Got? && ConsumeEoc(ts, g.next) == m
    ensures var g := ParseStmt(ts, ConsumeNewline(ts, j + 1), x);
            && (!IsKeyword(ts, m, "ELSE") ==> ParseIf(ts, i, x) == Got(If(c, g.v, false, Null), m))
            && (IsKeyword(ts, m, "ELSE") ==>
                 m + 1 < |ts| &&
                 var f := ParseStmt(ts, ConsumeNewline(ts, m + 1), x);
                 ParseIf(ts, i, x) == if f.Got? then Got(If(c, g.v, true, f.v), ConsumeEoc(ts, f.next)) else Failed(f.beyond))
  {
    hide FullExpr, ParseStmt, ConsumeNewline, ConsumeEoc;
  }

  lemma {:induction false} SelectIsRead(ts: Source, i: nat, s: SText, x: Ctl)
    requires s.Selecting? && FitsS(ts, i, s, x, true)
    ensures i < |ts| && ParseStmt(ts, i, x) == Got(TreeS(s, x.inLoop), i + |WrittenS(s)|)
    decreases s, 1
  {
    hide FitsW, FitsEnd, ParseStmt, ParseWhens, WrittenW, TreeW, ConsumeEnd, SkipEoc;
    var y := x.(loops := x.loops + 1, inSelect := true);
    WhensAreRead(ts, i + 1, s.ws, y);
    FirstBlockWord(ts, i, x);
    EndIsConsumed(ts, i + 1 + |WrittenW(s.ws)|, s.end);
  }

  lemma {:induction false} DoIsRead(ts: Source, i: nat, s: SText, x: Ctl)
    requires s.Looping? && FitsS(ts, i, s, x, true)
    ensures i < |ts| && ParseStmt(ts, i, x) == Got(TreeS(s, x.inLoop), i + |WrittenS(s)|)
    decreases s, 1
  {
    hide FitsH, FitsB, FitsEnd, ParseStmt, ParseHeader, ParseBlock, WrittenH, WrittenB, TreeB, TreeH, Level0, ParseDo, ConsumeEnd,
         WrittenS, TreeS;
    DoTexts(s, x.inLoop);
    var y := x.(loops := x.loops + 1, inLoop := true);
    HeaderIsRead(ts, i + 1, s.h);
    FirstBlockWord(ts, i, x);
    BlockIsRead(ts, i + 1 + |WrittenH(s.h)|, s.b, y);
    EndIsConsumed(ts, i + 1 + |WrittenH(s.h)| + |WrittenB(s.b)|, s.end);
    HeaderKind(s.h);
    DoParsed(ts, i + 1, x);
  }

  lemma DoTexts(s: SText, inLoop: bool)
    requires s.Looping?
    ensures |WrittenS(s)| == 1 + |WrittenH(s.h)| + |WrittenB(s.b)| + |s.end| && TreeS(s, inLoop) == Do(TreeH(s.h), TreeB(s.b, true))
  {
    hide WrittenH, WrittenB, TreeH, TreeB;
  }

  lemma DoParsed(ts: Source, i: nat, x: Ctl)
    requires i < |ts| && ParseHeader(ts, i).Got? && ParseBlock(ts, ParseHeader(ts, i).next, x.(loops := x.loops + 1, inLoop := true)).Got?
    requires ParseHeader(ts, i).v.Until? ==> i + 1 < |ts| && Level0(ts, i + 1).Got?
    ensures var h := ParseHeader(ts, i);
            var b := ParseBlock(ts, h.next, x.(loops := x.loops + 1, inLoop := true));
            ParseDo(ts, i, x) == Got(Do(if h.v.Until? then Until(Level0(ts, i + 1).v) else h.v, b.v), ConsumeEnd(ts, b.next))
  {
    hide ParseHeader, ParseBlock, Level0, ConsumeEnd;
  }

  /** All of a header but the condition of UNTIL, which is read behind the body. */
  ghost predicate HeaderRead(ts: Source, i: nat, h: HText)
  {
    && i + |WrittenH(h)| < |ts|
    && if h.Untiling? then
         ParseHeader(ts, i) == Got(Until(TooDeep), i + |WrittenH(h)|) && i + 1 < |ts| && Level0(ts, i + 1).Got?
         && Level0(ts, i + 1).v == TreeOf(h.c)
       else ParseHeader(ts, i) == Got(TreeH(h), i + |WrittenH(h)|)
  }

  lemma HeaderKind(h: HText)
    ensures TreeH(h).Until? <==> h.Untiling?
    ensures h.Untiling? ==> TreeH(h) == Until(TreeOf(h.c))
  {
    hide TreeOf;
  }

  lemma HeaderIsRead(ts: Source, i: nat, h: HText)
    requires FitsH(ts, i, h, true)
    ensures i < |ts| && HeaderRead(ts, i, h)
  {
    hide FitsE, FitsSep, ParseTo, Level0, Written, TreeOf, WrittenPart, FitsPart;
    match h {
      case Always(_, sep) => SepIsConsumed(ts, i + 1, sep);
      case Once(sep) =>
        Ends(ts, i);
        SepIsConsumed(ts, i, sep);
      case Times(_, _) => TimesAreRead(ts, i, h);
      case Whiling(_, _, _) => WhileIsRead(ts, i, h);
      case Untiling(_, _, _, _) => UntilIsRead(ts, i, h);
      case Counting(_, _, _, _, _, _, _, _) => CountingIsRead(ts, i, h);
    }
  }

  lemma TimesAreRead(ts: Source, i: nat, h: HText)
    requires h.Times? && FitsH(ts, i, h, true)
    ensures i + 1 < |ts| && HeaderRead(ts, i, h)
  {
    hide FitsE, FitsSep, ParseTo, Level0, Written, TreeOf;
    ExprStart(ts, i, h.n, true);
    Ends(ts, i);
    ExprIsRead(ts, i, h.n);
    SepIsConsumed(ts, i + |Written(h.n)|, h.sep);
  }

  lemma WhileIsRead(ts: Source, i: nat, h: HText)
    requires h.Whiling? && FitsH(ts, i, h, true)
    ensures i + 1 < |ts| && HeaderRead(ts, i, h)
  {
    hide FitsE, FitsSep, Level0, Written, TreeOf, ParseHeader, ConsumeEoc, Is1;
    ExprStart(ts, i + 1, h.c, true);
    ExprIsRead(ts, i + 1, h.c);
    SepIsConsumed(ts, i + 1 + |Written(h.c)|, h.sep);
    WhileParsed(ts, i);
  }

  lemma WhileParsed(ts: Source, i: nat)
    requires i + 1 < |ts| && Is1(ts[i], "WHILE") && Level0(ts, i + 1).Got?
    ensures ParseHeader(ts, i) == Got(While(Level0(ts, i + 1).v), ConsumeEoc(ts, Level0(ts, i + 1).next))
  {
    hide Level0, ConsumeEoc;
    Ends(ts, i);
  }

  lemma {:induction false} ClauseIsSkipped(ts: Source, i: nat, j: nat)
    requires i <= j < |ts| && ClauseEnd(ts[j]) && forall m :: i <= m < j ==> !ClauseEnd(ts[m])
    ensures SkipClause(ts, i) == j
    decreases j - i
  {
    Ends(ts, i);
    if i < j { ClauseIsSkipped(ts, i + 1, j); }
  }

  /** No token of an expression ends a clause. */
  lemma {:induction false} NoClauseEnds(p: Phrase)
    requires WellFormed(p)
    ensures forall t :: t in Written(p) ==> !ClauseEnd(t)
    decreases p
  {
    hide Adjacent, BarrierWord, TreeOf, Cost;
    match p {
      case Term(_) =>
      case Group(_, e, _) => NoClauseEnds(e);
      case Prefixed(_, e) => NoClauseEnds(e);
      case Infix(k, op, s, l, r) =>
        NoClauseEnds(l);
        NoClauseEnds(r);
        if s != [] { SignEndsNothing(s, k, op); }
      case Bare(_, _, _) =>
      case Applied(_, _, it) => NoItemEnds(it);
    }
  }

  lemma {:induction false} NoItemEnds(it: Items)
    requires WellItems(it)
    ensures forall t :: t in WrittenItems(it) ==> !ClauseEnd(t)
    decreases it
  {
    hide WellFormed, Written;
    if it.s.Filled? { NoClauseEnds(it.s.e); }
    if it.NextItem? { NoItemEnds(it.rest); }
  }

  lemma SignEndsNothing(sign: seq<Token>, k: nat, op: BinOp)
    requires Spells(sign, k, op)
    ensures forall t :: t in sign ==> !ClauseEnd(t)
  {
    hide BarrierWord, Adjacent;
    SignLength(sign, k, op);
    var s: Source := sign + [END];
    assert s[0] == sign[0] && s[|sign|] == END;
    if |sign| >= 2 { assert s[1] == sign[1]; }
    if |sign| >= 3 { assert s[2] == sign[2]; }
  }

  lemma UntilIsRead(ts: Source, i: nat, h: HText)
    requires h.Untiling? && FitsH(ts, i, h, true)
    ensures i + 1 < |ts| && HeaderRead(ts, i, h)
  {
    hide FitsE, FitsSep, Level0, Written, TreeOf, ParseHeader, Stands, ClauseEnd;
    var j := i + 1 + |Written(h.c)|;
    ExprStart(ts, i + 1, h.c, true);
    ExprIsRead(ts, i + 1, h.c);
    ExprEndsNothing(ts, i + 1, h.c, true);
    forall m | i + 1 <= m < j + |h.more| ensures !ClauseEnd(ts[m]) {
      if m >= j { StandsAt(ts, j, h.more, m - j); }
    }
    ClauseIsSkipped(ts, i + 1, j + |h.more|);
    SepIsConsumed(ts, j + |h.more|, h.sep);
    UntilParsed(ts, i);
  }

  lemma UntilParsed(ts: Source, i: nat)
    requires i + 1 < |ts| && Is1(ts[i], "UNTIL")
    ensures ParseHeader(ts, i) == Got(Until(TooDeep), ConsumeEoc(ts, SkipClause(ts, i + 1)))
  {
    hide SkipClause;
    Ends(ts, i);
  }

  lemma ExprEndsNothing(ts: Source, i: nat, p: Phrase, strict: bool)
    requires FitsE(ts, i, p, strict)
    ensures forall m :: i <= m < i + |Written(p)| ==> !ClauseEnd(ts[m])
  {
    hide WellFormed, Stops, CallLike, Cost, Stands, ClauseEnd;
    NoClauseEnds(p);
    forall m | i <= m < i + |Written(p)| ensures !ClauseEnd(ts[m]) {
      StandsAt(ts, i, Written(p), m - i);
    }
  }

  lemma CountingIsRead(ts: Source, i: nat, h: HText)
    requires h.Counting? && FitsH(ts, i, h, true)
    ensures i + 1 < |ts| && HeaderRead(ts, i, h)
  {
    hide FitsE, Written, TreeOf, ParseHeader, FitsBounds, EqualSign, WrittenH, BehindLimit, ConsumeEoc, TreeH, FitsH, Level0, Is1;
    CountingFits(ts, i, h);
    assert FitsE(ts, i + 2, h.start, true) by { BoundsStart(ts, i + 2, h); }
    ExprStart(ts, i + 2, h.start, true);
    BoundsAreRead(ts, i + 2, h);
    var j := i + 2 + |Written(h.start)|;
    CountingParsed(ts, i, Got(TreeOf(h.start), j), Got(TreeOf(h.limit), j + 1 + |Written(h.limit)|));
    CountingLength(h);
  }

  lemma CountingFits(ts: Source, i: nat, h: HText)
    requires h.Counting? && FitsH(ts, i, h, true)
    ensures FitsVariable(ts, i, h) && FitsBounds(ts, i + 2, h, true) && !TreeH(h).Until?
  {
    hide FitsBounds;
  }

  lemma BoundsStart(ts: Source, i: nat, h: HText)
    requires h.Counting? && FitsBounds(ts, i, h, true)
    ensures FitsE(ts, i, h.start, true)
  {
  }

  lemma BoundsAreRead(ts: Source, i: nat, h: HText)
    requires h.Counting? && FitsBounds(ts, i, h, true) && i < |ts|
    ensures var j := i + |Written(h.start)|;
            var m := j + 1 + |Written(h.limit)|;
            var o := m + |WrittenPart(h.step)| + |WrittenPart(h.times)|;
            && j + 1 < |ts| && m < |ts| && o < |ts| && Is1(ts[j], "TO")
            && Level0(ts, i) == Got(TreeOf(h.start), j) && Level0(ts, j + 1) == Got(TreeOf(h.limit), m)
            && BehindLimit(ts, m, h.v.upper, TreeOf(h.start), TreeOf(h.limit)) == Got(TreeH(h), o)
            && ConsumeEoc(ts, o) == o + |h.sep| < |ts|
  {
    hide FitsE, FitsSep, Level0, Written, TreeOf, FitsPart, WrittenPart, ParseFor, BehindLimit, ConsumeEoc;
    var j := i + |Written(h.start)|;
    var m := j + 1 + |Written(h.limit)|;
    var n := m + |WrittenPart(h.step)|;
    SepIsConsumed(ts, n + |WrittenPart(h.times)|, h.sep);
    ExprIsRead(ts, i, h.start);
    ExprIsRead(ts, j + 1, h.limit);
    StepIsRead(ts, m, h.v.upper, TreeOf(h.start), TreeOf(h.limit), h.step);
    ForIsRead(ts, n, h.v.upper, TreeOf(h.start), TreeOf(h.limit), if h.step.Given? then TreeOf(h.step.e) else Expr.Lit("1"), h.times);
  }

  lemma CountingLength(h: HText)
    requires h.Counting?
    ensures |WrittenH(h)| == 2 + |Written(h.start)| + 1 + |Written(h.limit)| + |WrittenPart(h.step)| + |WrittenPart(h.times)| + |h.sep|
  {
    hide Written, WrittenPart;
  }

  lemma CountingParsed(ts: Source, i: nat, a: Got<Expr>, z: Got<Expr>)
    requires i + 2 < |ts| && ts[i].kind == Symbol && !ts[i].constant && EqualSign(ts[i + 1]) && ts[i + 2].kind != Comparison
    requires ts[i].upper != "FOREVER" && ts[i].upper != "WHILE" && ts[i].upper != "UNTIL"
    requires Level0(ts, i + 2) == a && a.Got? && a.next < |ts| && Is1(ts[a.next], "TO")
    requires a.next + 1 < |ts| && Level0(ts, a.next + 1) == z && z.Got? && z.next < |ts|
    ensures ParseHeader(ts, i) ==
              match BehindLimit(ts, z.next, ts[i].upper, a.v, z.v) case Got(k, n) => Got(k, ConsumeEoc(ts, n)) case Failed(b) => Failed(b)
  {
    hide Level0, ParseFor;
    Ends(ts, i);
    Ends(ts, a.next);
    assert IsControlled(ts, i);
  }

  /** From behind the limit on. */
  function BehindLimit(ts: Source, k: nat, v: string, start: Expr, limit: Expr): (g: Got<DoKind>)
    requires k < |ts|
    ensures g.Got? ==> g.next < |ts|
  {
    if IsKeyword(ts, k, "BY") then
      match Level0(ts, k + 1) case Got(e, m) => ParseFor(ts, m, v, start, limit, e) case Failed(b) => Failed(b)
    else ParseFor(ts, k, v, start, limit, Expr.Lit("1"))
  }

  lemma StepIsRead(ts: Source, i: nat, v: string, start: Expr, limit: Expr, p: Part)
    requires FitsPart(ts, i, p, "BY", true) && i + |WrittenPart(p)| < |ts|
    ensures i < |ts|
    ensures BehindLimit(ts, i, v, start, limit) ==
              ParseFor(ts, i + |WrittenPart(p)|, v, start, limit, if p.Given? then TreeOf(p.e) else Expr.Lit("1"))
  {
    hide FitsE, Level0, Written, TreeOf, ParseFor, IsKeyword, Is1;
    Ends(ts, i);
    if p.Given? { ExprIsRead(ts, i + 1, p.e); }
  }

  lemma ForIsRead(ts: Source, i: nat, v: string, start: Expr, limit: Expr, step: Expr, p: Part)
    requires FitsPart(ts, i, p, "FOR", true) && i + |WrittenPart(p)| < |ts|
    ensures i < |ts|
    ensures ParseFor(ts, i, v, start, limit, step) ==
              Got(To(v, start, limit, step, p.Given?, if p.Given? then TreeOf(p.e) else Expr.Lit("")), i + |WrittenPart(p)|)
  {
    hide FitsE, Level0, Written, TreeOf;
    Ends(ts, i);
    if p.Given? { ExprIsRead(ts, i + 1, p.e); }
  }

  lemma {:induction false} WhensAreRead(ts: Source, i: nat, ws: WText, x: Ctl)
    requires FitsW(ts, i, ws, x, true)
    ensures i < |ts| && ParseWhens(ts, i, x) == Got(TreeW(ws, x.inLoop), i + |WrittenW(ws)|)
    ensures ParseWhens(ts, ConsumeEoc(ts, i), x) == ParseWhens(ts, i, x) && ParseWhens(ts, SkipEoc(ts, i), x) == ParseWhens(ts, i, x)
    decreases ws, 4
  {
    hide FitsE, FitsR, FitsB, ParseWhens, Written, TreeOf, WrittenR, WrittenB, TreeB, TreeS, FitsSeps, ConsumeEoc, SkipEoc,
         ParseStmt, ParseBlock, ConsumeNewline, FullExpr;
    SepsAreSkipped(ts, i, ws.seps);
    var j := i + |ws.seps|;
    WhensSkip(ts, i, x);
    Ends(ts, j);
    match ws {
      case Case(_, _, _, _, _) => CaseIsRead(ts, j, ws, x);
      case Rest(_, _, b) =>
        BlockIsRead(ts, j + 1, b, x);
        RestParsed(ts, j, x);
      case NoRest(_) => NoRestParsed(ts, j, x);
    }
  }

  lemma {:induction false} CaseIsRead(ts: Source, j: nat, ws: WText, x: Ctl)
    requires ws.Case? && j < |ts| && SkipEoc(ts, j) == j
    requires ts[j] == ws.k && Is1(ws.k, "WHEN") && FitsE(ts, j + 1, ws.c, true)
    requires FitsR(ts, j + 1 + |Written(ws.c)|, ws.yes, "THEN", x, true)
    requires FitsW(ts, j + 1 + |Written(ws.c)| + |WrittenR(ws.yes)|, ws.rest, x, true)
    ensures ParseWhens(ts, j, x) ==
              Got(TreeW(ws, x.inLoop), j + 1 + |Written(ws.c)| + |WrittenR(ws.yes)| + |WrittenW(ws.rest)|)
    decreases ws, 3
  {
    hide FitsE, FitsR, FitsW, ParseWhens, Written, TreeOf, WrittenR, TreeS, ConsumeEoc, SkipEoc, ParseStmt, ConsumeNewline, FullExpr;
    var m := j + 1 + |Written(ws.c)|;
    ExprStart(ts, j + 1, ws.c, true);
    ExprIsRead(ts, j + 1, ws.c);
    BranchIsRead(ts, m, ws.yes, "THEN", x);
    WhensAreRead(ts, m + |WrittenR(ws.yes)|, ws.rest, x);
    CaseParsed(ts, j, x, TreeOf(ws.c), m, m + |WrittenR(ws.yes)|);
  }

  lemma WhensSkip(ts: Source, i: nat, x: Ctl)
    requires i < |ts| && SkipEoc(ts, ConsumeEoc(ts, i)) == SkipEoc(ts, i)
    ensures ParseWhens(ts, SkipEoc(ts, i), x) == ParseWhens(ts, i, x) == ParseWhens(ts, ConsumeEoc(ts, i), x)
  {
    var j := SkipEoc(ts, i);
    assert SkipEoc(ts, j) == j;
    WhensFrom(ts, i, x);
    WhensFrom(ts, j, x);
    WhensFrom(ts, ConsumeEoc(ts, i), x);
  }

  /** WHEN, OTHERWISE or END at i, no separator in front of it. */
  function WhensAt(ts: Source, i: nat, x: Ctl): Got<Whens>
    requires i < |ts|
  {
    if IsKeyword(ts, i, "WHEN") then
      var (c, j) :- FullExpr(ts, i + 1);
      if !IsKeyword(ts, j, "THEN") then Failed(false)
      else
        var (s, k) :- ParseStmt(ts, ConsumeNewline(ts, j + 1), x);
        var (ws, n) :- ParseWhens(ts, ConsumeEoc(ts, k), x);
        Got(When(c, s, ws), n)
    else if IsKeyword(ts, i, "OTHERWISE") then
      var (b, j) :- ParseBlock(ts, ConsumeEoc(ts, i + 1), x);
      Got(Otherwise(b), j)
    else if IsKeyword(ts, i, "END") then Got(NoOtherwise, i)
    else Failed(false)
  }

  lemma WhensFrom(ts: Source, i: nat, x: Ctl)
    requires i < |ts|
    ensures ParseWhens(ts, i, x) == WhensAt(ts, SkipEoc(ts, i), x)
  {
    hide FullExpr, ParseStmt, ParseBlock, SkipEoc, ConsumeEoc, ConsumeNewline, IsKeyword;
  }

  lemma CaseParsed(ts: Source, j: nat, x: Ctl, c: Expr, m: nat, n: nat)
    requires j + 1 < |ts| && Is1(ts[j], "WHEN") && FullExpr(ts, j + 1) == Got(c, m) && m + 1 < |ts| && IsKeyword(ts, m, "THEN")
    requires n < |ts| && SkipEoc(ts, j) == j
    requires var g := ParseStmt(ts, ConsumeNewline(ts, m + 1), x); g.Got? && ConsumeEoc(ts, g.next) == n
    ensures var g := ParseStmt(ts, ConsumeNewline(ts, m + 1), x);
            var r := ParseWhens(ts, n, x);
            ParseWhens(ts, j, x) == if r.Got? then Got(When(c, g.v, r.v), r.next) else Failed(r.beyond)
  {
    hide FullExpr, ParseStmt, ParseWhens, ParseBlock, SkipEoc, ConsumeEoc, ConsumeNewline;
    WhensFrom(ts, j, x);
  }

  lemma RestParsed(ts: Source, j: nat, x: Ctl)
    requires j + 1 < |ts| && Is1(ts[j], "OTHERWISE") && SkipEoc(ts, j) == j
    ensures var b := ParseBlock(ts, ConsumeEoc(ts, j + 1), x);
            ParseWhens(ts, j, x) == if b.Got? then Got(Otherwise(b.v), b.next) else Failed(b.beyond)
  {
    hide FullExpr, ParseStmt, ParseWhens, ParseBlock, SkipEoc, ConsumeEoc, ConsumeNewline;
    WhensFrom(ts, j, x);
  }

  lemma NoRestParsed(ts: Source, j: nat, x: Ctl)
    requires j < |ts| && Is1(ts[j], "END") && SkipEoc(ts, j) == j
    ensures ParseWhens(ts, j, x) == Got(NoOtherwise, j)
  {
    hide FullExpr, ParseStmt, ParseWhens, ParseBlock, SkipEoc, ConsumeEoc, ConsumeNewline;
    WhensFrom(ts, j, x);
  }

  lemma {:induction false} BlockIsRead(ts: Source, i: nat, b: BText, x: Ctl)
    requires FitsB(ts, i, b, x, true)
    ensures i < |ts| && ParseBlock(ts, i, x) == Got(TreeB(b, x.inLoop), i + |WrittenB(b)|)
    ensures ParseBlock(ts, ConsumeEoc(ts, i), x) == ParseBlock(ts, i, x)
    decreases b, 4
  {
    hide FitsS, ParseStmt, WrittenS, TreeS, FitsSeps;
    SepsAreSkipped(ts, i, b.seps);
    var j := i + |b.seps|;
    Ends(ts, j);
    if b.Next? {
      StmtIsRead(ts, j, b.s, x);
      BlockIsRead(ts, j + |WrittenS(b.s)|, b.rest, x);
    }
  }

  /** A program written out is read as its tree. */
  lemma {:induction false} ProgramIsRead(ts: Source, i: nat, p: PText)
    requires FitsP(ts, i, p, true)
    ensures i < |ts| && ParseProgram(ts, i) == Got(TreeP(p), i + |WrittenP(p)|)
    ensures ParseProgram(ts, ConsumeEoc(ts, i)) == ParseProgram(ts, i)
    decreases p
  {
    hide FitsS, ParseStmt, WrittenS, TreeS, FitsSeps, ParseProgram;
    SepsAreSkipped(ts, i, p.seps);
    var j := i + |p.seps|;
    ProgramSkips(ts, i);
    ProgramSkips(ts, j);
    ProgramSkips(ts, ConsumeEoc(ts, i));
    Ends(ts, j);
    match p {
      case Ended(_) => ProgramEnded(ts, j);
      case Labelled(_, n, c, r) =>
        ProgramIsRead(ts, j + 2, r);
        LabelParsed(ts, j);
      case Then(_, s, r) =>
        StmtIsRead(ts, j, s, TOP);
        ProgramIsRead(ts, j + |WrittenS(s)|, r);
        StepParsed(ts, j);
    }
  }

  lemma {:induction false} ProgramSkips(ts: Source, i: nat)
    requires i < |ts|
    ensures ParseProgram(ts, i) == ParseProgram(ts, SkipEoc(ts, i))
    decreases |ts| - i
  {
    if IsEoc(ts, i) { ProgramSkips(ts, i + 1); }
  }

  lemma ProgramEnded(ts: Source, j: nat)
    requires j < |ts| && ts[j].kind == Eof
    ensures ParseProgram(ts, j) == Got(Done, j)
  {
  }

  lemma LabelParsed(ts: Source, j: nat)
    requires j + 2 < |ts| && ts[j].kind == Symbol && Colon(ts[j + 1])
    ensures var b := ParseProgram(ts, j + 2);
            ParseProgram(ts, j) == if b.Got? then Got(Step(Label(ts[j].upper), b.v), b.next) else Failed(b.beyond)
  {
    Ends(ts, j);
  }

  lemma StepParsed(ts: Source, j: nat)
    requires j + 1 < |ts| && ts[j].kind != Eof && !Separator(ts[j]) && !(ts[j].kind == Symbol && Colon(ts[j + 1]))
    requires ParseStmt(ts, j, TOP).Got?
    ensures var g := ParseStmt(ts, j, TOP);
            var b := ParseProgram(ts, ConsumeEoc(ts, g.next));
            ParseProgram(ts, j) == if b.Got? then Got(Step(g.v, b.v), b.next) else Failed(b.beyond)
  {
    hide ParseStmt, ConsumeEoc;
    Ends(ts, j);
  }

  // ---- Everything read is a text -----------------------------------------------------------------

  predicate ShallowKind(k: DoKind)
  {
    match k
    case Count(n) => Shallow(n)
    case While(c) => Shallow(c)
    case Until(c) => Shallow(c)
    case To(_, a, z, b, _, n) => Shallow(a) && Shallow(z) && Shallow(b) && Shallow(n)
    case _ => true
  }

  /** No block past the control stack, no expression past the evaluation stack. */
  predicate ShallowS(s: Stmt)
    decreases s
  {
    match s
    case Refused => false
    case Assign(_, e) => Shallow(e)
    case Say(e) => Shallow(e)
    case ExitWith(e) => Shallow(e)
    case CallTo(_, a) => ShallowArgs(a)
    case ReturnWith(e) => Shallow(e)
    case If(c, t, _, f) => Shallow(c) && ShallowS(t) && ShallowS(f)
    case Select(ws) => ShallowW(ws)
    case Do(k, b) => ShallowKind(k) && ShallowB(b)
    case _ => true
  }

  predicate ShallowW(ws: Whens)
    decreases ws
  {
    match ws
    case When(c, s, r) => Shallow(c) && ShallowS(s) && ShallowW(r)
    case Otherwise(b) => ShallowB(b)
    case NoOtherwise => true
  }

  predicate ShallowB(b: Block)
    decreases b
  {
    match b case Done => true case Step(s, r) => ShallowS(s) && ShallowB(r)
  }

  /** No comma merely continues a line. */
  predicate OnLines(ts: Source) { forall j :: 0 <= j < |ts| ==> !(ts[j].kind == Comma && ts[j].continuation) }

  lemma LinesUnbroken(ts: Source, i: nat, j: nat)
    requires OnLines(ts) && j <= |ts|
    ensures Unbroken(ts, i, j)
  {
  }

  lemma ExprFound(ts: Source, i: nat) returns (p: Phrase)
    requires i < |ts| && Level0(ts, i).Got? && Shallow(Level0(ts, i).v) && OnLines(ts)
    ensures FitsE(ts, i, p, false) && TreeOf(p) == Level0(ts, i).v && i + |Written(p)| == Level0(ts, i).next
  {
    hide WellFormed, Stops, CallLike, Cost, Stands, TreeOf, Written, ParseLevel, Shallow, OnLines, Unbroken;
    LinesUnbroken(ts, i, Level0(ts, i).next);
    p := ReadIsPhrase(ts, 0, i, 0);
  }

  /** Nothing is joined where no comma continues a line. */
  lemma FullIsLevel(ts: Source, i: nat)
    requires i < |ts| && FullExpr(ts, i).Got? && OnLines(ts)
    ensures Level0(ts, i) == FullExpr(ts, i)
  {
    hide ParseLevel;
    assert !IsContinuation(ts, ParseLevel(ts, 0, i, 0).next);
  }

  lemma FullFound(ts: Source, i: nat) returns (p: Phrase)
    requires i < |ts| && FullExpr(ts, i).Got? && Shallow(FullExpr(ts, i).v) && OnLines(ts)
    ensures FitsE(ts, i, p, false) && TreeOf(p) == FullExpr(ts, i).v && i + |Written(p)| == FullExpr(ts, i).next
  {
    hide FitsE, FullExpr, Level0, TreeOf, Written, Shallow, OnLines;
    FullIsLevel(ts, i);
    p := ExprFound(ts, i);
  }

  lemma SeqFound(ts: Source, i: nat, j: nat)
    requires i <= j <= |ts|
    ensures Stands(ts, i, ts[i..j]) && |ts[i..j]| == j - i
  {
  }

  function SepAt(ts: Source, i: nat): (sep: seq<Token>)
    requires i < |ts|
    ensures FitsSep(ts, i, sep) && i + |sep| == ConsumeEoc(ts, i)
  {
    Ends(ts, i);
    if Separator(ts[i]) then [ts[i]] else []
  }

  lemma {:induction false} SepsFound(ts: Source, i: nat)
    requires i < |ts|
    ensures FitsSeps(ts, i, ts[i..SkipEoc(ts, i)])
    decreases |ts| - i
  {
    Ends(ts, i);
    SeqFound(ts, i, SkipEoc(ts, i));
    if IsEoc(ts, i) {
      SepsFound(ts, i + 1);
      var a, b := ts[i..SkipEoc(ts, i)], ts[i + 1..SkipEoc(ts, i)];
      forall j | 0 <= j < |a| ensures Separator(a[j]) { if j > 0 { assert a[j] == b[j - 1]; } }
    }
  }

  function EndAt(ts: Source, i: nat): (end: seq<Token>)
    requires i < |ts| && (ts[i].kind == Eof || Is1(ts[i], "END"))
    ensures FitsEnd(ts, i, end) && i + |end| == ConsumeEnd(ts, i)
  {
    Ends(ts, i);
    if ts[i].kind == Eof then (SeqFound(ts, i, i); assert ts[i..i] == []; [])
    else
      Ends(ts, i + 1);
      var j := if ts[i + 1].kind == Symbol then i + 2 else i + 1;
      SeqFound(ts, i, j);
      ts[i..j]
  }

  // ---- Clauses of one line -------------------------------------------------------------------------

  predicate OneLine(ts: Source, i: nat)
  {
    !IsKeyword(ts, i, "IF") && !IsKeyword(ts, i, "SELECT") && !IsKeyword(ts, i, "DO")
  }

  lemma LineIsText(ts: Source, i: nat, x: Ctl) returns (s: SText)
    requires i < |ts| && OneLine(ts, i) && ParseStmt(ts, i, x).Got?
    requires ShallowS(ParseStmt(ts, i, x).v) && OnLines(ts)
    ensures FitsS(ts, i, s, x, false) && TreeS(s, x.inLoop) == ParseStmt(ts, i, x).v
    ensures i + |WrittenS(s)| == ParseStmt(ts, i, x).next
  {
    hide FitsS, TreeS, WrittenS, ParseStmt, ShallowS, OnLines;
    Ends(ts, i);
    if EndsClause(ts, i) {
      s := NullIsText(ts, i, x);
    } else if ts[i].kind == Symbol && (ts[i].upper == "SAY" || ts[i].upper == "EXIT" || ts[i].upper == "RETURN") {
      s := ExprLineIsText(ts, i, x);
    } else if Is1(ts[i], "LEAVE") || Is1(ts[i], "ITERATE") || Is1(ts[i], "NOP") {
      s := WordLineIsText(ts, i, x);
    } else if Is1(ts[i], "CALL") {
      s := CallLineIsText(ts, i, x);
    } else {
      s := SettingIsText(ts, i, x);
    }
  }

  lemma NullIsText(ts: Source, i: nat, x: Ctl) returns (s: SText)
    requires i < |ts| && EndsClause(ts, i)
    ensures FitsS(ts, i, s, x, false) && ParseStmt(ts, i, x) == Got(TreeS(s, x.inLoop), i + |WrittenS(s)|)
  {
    Ends(ts, i);
    s := Nothing;
  }

  lemma CallLineIsText(ts: Source, i: nat, x: Ctl) returns (s: SText)
    requires i + 1 < |ts| && Is1(ts[i], "CALL") && ParseStmt(ts, i, x).Got? && ShallowS(ParseStmt(ts, i, x).v) && OnLines(ts)
    ensures FitsS(ts, i, s, x, false) && TreeS(s, x.inLoop) == ParseStmt(ts, i, x).v
    ensures i + |WrittenS(s)| == ParseStmt(ts, i, x).next
  {
    hide ParseStmt, ParseCallTo, FitsC, WrittenC, TreeC, OnLines, ShallowArgs;
    FirstWord(ts, i, x);
    CalleeIsName(ts, i + 1);
    var a := CallIsText(ts, i + 1, ParseStmt(ts, i, x).next);
    s := Calling(ts[i], ts[i + 1], a);
  }

  lemma CalleeIsName(ts: Source, i: nat)
    requires i < |ts| && ParseCallTo(ts, i).Got?
    ensures ParseCallTo(ts, i).v.CallTo?
  {
    hide ParseCallArgs;
  }

  lemma WordLineIsText(ts: Source, i: nat, x: Ctl) returns (s: SText)
    requires i + 1 < |ts| && (Is1(ts[i], "LEAVE") || Is1(ts[i], "ITERATE") || Is1(ts[i], "NOP")) && ParseStmt(ts, i, x).Got?
    ensures FitsS(ts, i, s, x, false) && TreeS(s, x.inLoop) == ParseStmt(ts, i, x).v
    ensures i + |WrittenS(s)| == ParseStmt(ts, i, x).next
  {
    hide ParseStmt;
    FirstWord(ts, i, x);
    Ends(ts, i + 1);
    s := if Is1(ts[i], "LEAVE") && ts[i + 1].kind == Symbol then LeaveNamed(ts[i], ts[i + 1]) else Word(ts[i]);
  }

  lemma ExprLineIsText(ts: Source, i: nat, x: Ctl) returns (s: SText)
    requires i + 1 < |ts| && (Is1(ts[i], "SAY") || Is1(ts[i], "EXIT") || Is1(ts[i], "RETURN")) && ParseStmt(ts, i, x).Got?
    requires ShallowS(ParseStmt(ts, i, x).v) && OnLines(ts)
    ensures FitsS(ts, i, s, x, false) && TreeS(s, x.inLoop) == ParseStmt(ts, i, x).v
    ensures i + |WrittenS(s)| == ParseStmt(ts, i, x).next
  {
    hide ParseStmt, FullExpr, FitsE, Written, TreeOf, OnLines, Shallow;
    FirstWord(ts, i, x);
    Ends(ts, i + 1);
    if EndsClause(ts, i + 1) {
      s := Word(ts[i]);
    } else {
      var p := FullFound(ts, i + 1);
      s := WordExpr(ts[i], p);
    }
  }

  lemma SettingIsText(ts: Source, i: nat, x: Ctl) returns (s: SText)
    requires i + 1 < |ts| && OneLine(ts, i) && !EndsClause(ts, i) && ParseStmt(ts, i, x).Got?
    requires !(ts[i].kind == Symbol && (ts[i].upper == "SAY" || ts[i].upper == "EXIT" || ts[i].upper == "RETURN" || ts[i].upper == "CALL"
               || ts[i].upper == "LEAVE" || ts[i].upper == "ITERATE" || ts[i].upper == "NOP"))
    requires ShallowS(ParseStmt(ts, i, x).v) && OnLines(ts)
    ensures FitsS(ts, i, s, x, false) && TreeS(s, x.inLoop) == ParseStmt(ts, i, x).v
    ensures i + |WrittenS(s)| == ParseStmt(ts, i, x).next
  {
    hide FullExpr, FitsE, Written, TreeOf, OnLines, Shallow, ParseSay, ParseExit, ParseReturn, ParseCallTo, ParseIf, ParseSelect,
         ParseDo, ParseRefused, ParseLeave, ParseIterate;
    var j := ParseStmt(ts, i, x).next;
    var p := FullFound(ts, i + 2);
    s := Setting(ts[i], ts[i + 1], p);
  }

  lemma CallIsText(ts: Source, i: nat, j: nat) returns (a: CText)
    requires i < |ts| && ParseCallTo(ts, i).Got? && ParseCallTo(ts, i).next == j && OnLines(ts)
    requires i > 0 && ParseCallTo(ts, i).v.CallTo? && ShallowArgs(ParseCallTo(ts, i).v.args)
    ensures ts[i].kind == Symbol && !ts[i].constant && FitsC(ts, i + 1, a, false)
    ensures ParseCallTo(ts, i).v == CallTo(ts[i].upper, TreeC(a)) && i + 1 + |WrittenC(a)| == j
  {
    hide ParseCallArgs, OnLines, ShallowArgs, FitsI;
    Ends(ts, i + 1);
    if EndsClause(ts, i + 1) {
      a := NoList;
    } else {
      var it := ArgumentsAreText(ts, i + 1, NoArgs);
      a := Listed(it);
    }
  }

  lemma {:induction false} ShallowBefore(ts: Source, i: nat, acc: Args)
    requires i < |ts| && ParseCallArgs(ts, i, acc).Got? && ShallowArgs(ParseCallArgs(ts, i, acc).v)
    ensures ShallowArgs(acc)
    decreases |ts| - i
  {
    hide Level0, Shallow;
    if CountA(acc) < MAX_ARGS {
      if ts[i].kind == Comma {
        ShallowBefore(ts, i + 1, Omitted(acc));
      } else if !EndsClause(ts, i) {
        var g := Level0(ts, i);
        if ts[g.next].kind == Comma { ShallowBefore(ts, g.next + 1, Arg(acc, g.v)); }
      }
    }
  }

  lemma {:induction false} ArgumentsAreText(ts: Source, i: nat, acc: Args) returns (it: CItems)
    requires i < |ts| && ParseCallArgs(ts, i, acc).Got? && ShallowArgs(ParseCallArgs(ts, i, acc).v)
    requires OnLines(ts)
    ensures FitsI(ts, i, it, false) && CountA(acc) + CountC(it) <= 16
    ensures TreeI(it, acc) == ParseCallArgs(ts, i, acc).v && i + |WrittenI(it)| == ParseCallArgs(ts, i, acc).next
    decreases |ts| - i
  {
    hide FitsE, Written, TreeOf, ParseCallArgs, OnLines, ShallowArgs, CountA, ClauseEnd;
    var sl, j := SlotFoundAt(ts, i, acc);
    OneMoreArg(acc, sl);
    if ts[j].kind == Comma {
      var r := ArgumentsAreText(ts, j + 1, WithSlot(sl, acc));
      it := Further(sl, ts[j], r);
    } else {
      it := LastOne(sl);
    }
  }

  /** The first argument, left out or not. */
  lemma SlotFoundAt(ts: Source, i: nat, acc: Args) returns (s: Slot, j: nat)
    requires i < |ts| && ParseCallArgs(ts, i, acc).Got? && ShallowArgs(ParseCallArgs(ts, i, acc).v) && OnLines(ts)
    ensures CountA(acc) < 16 && j == i + |WrittenSlot(s)| < |ts| && (s.Filled? ==> FitsE(ts, i, s.e, false) && ts[i].kind != Comma)
    ensures ts[j].kind == Comma ==> j + 1 < |ts| && ParseCallArgs(ts, i, acc) == ParseCallArgs(ts, j + 1, WithSlot(s, acc))
    ensures ts[j].kind != Comma ==> ClauseEnd(ts[j]) && ParseCallArgs(ts, i, acc) == Got(WithSlot(s, acc), j)
  {
    hide FitsE, Written, TreeOf, Level0, OnLines, Shallow;
    Ends(ts, i);
    s, j := Empty, i;
    if ts[i].kind != Comma && !EndsClause(ts, i) {
      var g := Level0(ts, i);
      Ends(ts, g.next);
      j := g.next;
      if ts[j].kind == Comma { ShallowBefore(ts, j + 1, Arg(acc, g.v)); }
      var p := ExprFound(ts, i);
      s := Filled(p);
    }
  }

  // ---- Blocks --------------------------------------------------------------------------------------

  lemma {:induction false} StmtIsText(ts: Source, i: nat, x: Ctl) returns (s: SText)
    requires i < |ts| && ParseStmt(ts, i, x).Got?
    requires ShallowS(ParseStmt(ts, i, x).v) && OnLines(ts)
    ensures FitsS(ts, i, s, x, false) && TreeS(s, x.inLoop) == ParseStmt(ts, i, x).v
    ensures i + |WrittenS(s)| == ParseStmt(ts, i, x).next
    decreases |ts| - i, 1
  {
    hide FitsS, TreeS, WrittenS, ParseStmt, ShallowS, OnLines;
    if OneLine(ts, i) {
      s := LineIsText(ts, i, x);
    } else {
      NotTooDeep(ts, i, x);
      if IsKeyword(ts, i, "IF") { s := IfIsText(ts, i, x); }
      else if IsKeyword(ts, i, "SELECT") { s := SelectIsText(ts, i, x); }
      else { s := DoIsText(ts, i, x); }
    }
  }

  lemma NotTooDeep(ts: Source, i: nat, x: Ctl)
    requires i < |ts| && !OneLine(ts, i) && ParseStmt(ts, i, x).Got? && ShallowS(ParseStmt(ts, i, x).v)
    ensures x.loops + x.ifs < 250 && i + 1 < |ts| && ts[i].kind == Symbol
  {
    hide ParseIf, ParseSelect, ParseDo, SkipToEnd;
    Ends(ts, i);
  }

  /** One branch, from its keyword on. */
  lemma {:induction false} BranchIsText(ts: Source, i: nat, w: string, x: Ctl, end: nat) returns (b: Branch)
    requires i + 1 < |ts| && IsKeyword(ts, i, w) && ParseStmt(ts, ConsumeNewline(ts, i + 1), x).Got?
    requires var g := ParseStmt(ts, ConsumeNewline(ts, i + 1), x); ShallowS(g.v) && end == ConsumeEoc(ts, g.next) && OnLines(ts)
    ensures FitsR(ts, i, b, w, x, false) && i + |WrittenR(b)| == end
    ensures TreeS(b.s, x.inLoop) == ParseStmt(ts, ConsumeNewline(ts, i + 1), x).v
    decreases |ts| - i, 0
  {
    hide FitsS, TreeS, WrittenS, ParseStmt, ShallowS, OnLines;
    Ends(ts, i);
    var j := ConsumeNewline(ts, i + 1);
    var g := ParseStmt(ts, j, x);
    var t := StmtIsText(ts, j, x);
    var nl := if ts[i + 1].kind == Eoc then [ts[i + 1]] else [];
    b := Branch(ts[i], nl, t, SepAt(ts, g.next));
    assert |WrittenR(b)| == 1 + |nl| + |WrittenS(t)| + |b.sep|;
  }

  lemma {:induction false} IfIsText(ts: Source, i: nat, x: Ctl) returns (s: SText)
    requires i + 1 < |ts| && IsKeyword(ts, i, "IF") && x.loops + x.ifs < 250 && ParseStmt(ts, i, x).Got?
    requires ShallowS(ParseStmt(ts, i, x).v) && OnLines(ts)
    ensures FitsS(ts, i, s, x, false) && TreeS(s, x.inLoop) == ParseStmt(ts, i, x).v
    ensures i + |WrittenS(s)| == ParseStmt(ts, i, x).next
    decreases |ts| - i, 0
  {
    hide FitsE, FitsR, ParseStmt, FullExpr, Written, TreeOf, WrittenR, OnLines, Shallow, ConsumeEoc, ConsumeNewline, IsKeyword,
         ParseSelect, ParseDo;
    Ends(ts, i);
    FirstBlockWord(ts, i, x);
    var y := x.(ifs := x.ifs + 1);
    var end := ParseStmt(ts, i, x).next;
    var g := FullExpr(ts, i + 1);
    Ends(ts, g.next);
    var t := ParseStmt(ts, ConsumeNewline(ts, g.next + 1), y);
    var m := ConsumeEoc(ts, t.next);
    Ends(ts, m);
    var c := FullFound(ts, i + 1);
    var yes := BranchIsText(ts, g.next, "THEN", y, m);
    if IsKeyword(ts, m, "ELSE") {
      var no := BranchIsText(ts, m, "ELSE", y, end);
      s := IfElse(ts[i], c, yes, no);
    } else {
      s := IfThen(ts[i], c, yes);
    }
  }

  lemma {:induction false} SelectIsText(ts: Source, i: nat, x: Ctl) returns (s: SText)
    requires i + 1 < |ts| && IsKeyword(ts, i, "SELECT") && x.loops + x.ifs < 250 && ParseStmt(ts, i, x).Got?
    requires ShallowS(ParseStmt(ts, i, x).v) && OnLines(ts)
    ensures FitsS(ts, i, s, x, false) && TreeS(s, x.inLoop) == ParseStmt(ts, i, x).v
    ensures i + |WrittenS(s)| == ParseStmt(ts, i, x).next
    decreases |ts| - i, 0
  {
    hide FitsW, ParseStmt, ParseWhens, WrittenW, TreeW, OnLines, ShallowW, FitsEnd, SkipEoc, ConsumeEoc, ConsumeEnd;
    Ends(ts, i);
    FirstBlockWord(ts, i, x);
    var y := x.(loops := x.loops + 1, inSelect := true);
    SkippedOnce(ts, i + 1);
    WhensSkip(ts, i + 1, y);
    var g := ParseWhens(ts, i + 1, y);
    var ws := WhensAreText(ts, i + 1, y);
    s := Selecting(ts[i], ws, EndAt(ts, g.next));
  }

  lemma SkippedOnce(ts: Source, i: nat)
    requires i < |ts|
    ensures SkipEoc(ts, ConsumeEoc(ts, i)) == SkipEoc(ts, i) && SkipEoc(ts, SkipEoc(ts, i)) == SkipEoc(ts, i)
  {
    var j := SkipEoc(ts, i);
    assert SkipEoc(ts, j) == j;
  }

  lemma {:induction false} WhensAreText(ts: Source, i: nat, x: Ctl) returns (ws: WText)
    requires i < |ts| && ParseWhens(ts, i, x).Got?
    requires ShallowW(ParseWhens(ts, i, x).v) && OnLines(ts)
    ensures FitsW(ts, i, ws, x, false) && TreeW(ws, x.inLoop) == ParseWhens(ts, i, x).v
    ensures i + |WrittenW(ws)| == ParseWhens(ts, i, x).next
    ensures ts[ParseWhens(ts, i, x).next].kind == Eof || Is1(ts[ParseWhens(ts, i, x).next], "END")
    decreases |ts| - i, 4
  {
    hide FitsE, FitsR, FitsB, FullExpr, ParseStmt, ParseBlock, ParseWhens, Written, TreeOf, WrittenR, WrittenB, TreeB, TreeS, OnLines,
         Shallow, ShallowS, ShallowB, FitsSeps, ConsumeEoc, SkipEoc, ConsumeNewline;
    var j, end := SkipEoc(ts, i), ParseWhens(ts, i, x).next;
    WhensFrom(ts, i, x);
    SepsFound(ts, i);
    var seps := ts[i..j];
    Ends(ts, j);
    if IsKeyword(ts, j, "WHEN") {
      ws := CaseIsText(ts, i, j, x);
    } else if IsKeyword(ts, j, "OTHERWISE") {
      SkippedOnce(ts, j + 1);
      BlockSkips(ts, j + 1, x);
      var b := BlockIsText(ts, j + 1, x);
      ws := Rest(seps, ts[j], b);
    } else {
      ws := NoRest(seps);
    }
  }

  lemma {:induction false} CaseIsText(ts: Source, i: nat, j: nat, x: Ctl) returns (ws: WText)
    requires i < |ts| && j == SkipEoc(ts, i) && IsKeyword(ts, j, "WHEN") && ParseWhens(ts, i, x).Got? && ParseWhens(ts, i, x) == WhensAt(ts, j, x)
    requires ShallowW(ParseWhens(ts, i, x).v) && OnLines(ts) && FitsSeps(ts, i, ts[i..j])
    ensures FitsW(ts, i, ws, x, false) && TreeW(ws, x.inLoop) == ParseWhens(ts, i, x).v
    ensures i + |WrittenW(ws)| == ParseWhens(ts, i, x).next
    ensures ts[ParseWhens(ts, i, x).next].kind == Eof || Is1(ts[ParseWhens(ts, i, x).next], "END")
    decreases |ts| - i, 3
  {
    hide FitsE, FitsR, FullExpr, ParseStmt, ParseBlock, ParseWhens, Written, TreeOf, WrittenR, TreeS, OnLines, Shallow, ShallowS,
         FitsSeps, ConsumeEoc, SkipEoc, ConsumeNewline;
    var end := ParseWhens(ts, i, x).next;
    Ends(ts, j);
    var g := FullExpr(ts, j + 1);
    Ends(ts, g.next);
    var t := ParseStmt(ts, ConsumeNewline(ts, g.next + 1), x);
    var m := ConsumeEoc(ts, t.next);
    var c := FullFound(ts, j + 1);
    var yes := BranchIsText(ts, g.next, "THEN", x, m);
    var r := WhensAreText(ts, m, x);
    ws := Case(ts[i..j], ts[j], c, yes, r);
  }

  /** A statement at i, END or the end of the source, no separator in front of it. */
  function BlockAt(ts: Source, i: nat, x: Ctl): Got<Block>
    requires i < |ts| && !IsEoc(ts, i)
  {
    if ts[i].kind == Eof || IsKeyword(ts, i, "END") then Got(Done, i)
    else
      var (s, j) :- ParseStmt(ts, i, x);
      var (b, k) :- ParseBlock(ts, ConsumeEoc(ts, j), x);
      Got(Step(s, b), k)
  }

  lemma BlockFrom(ts: Source, i: nat, x: Ctl)
    requires i < |ts|
    ensures ParseBlock(ts, i, x) == BlockAt(ts, SkipEoc(ts, i), x)
  {
    hide ParseStmt, SkipEoc, ConsumeEoc, IsKeyword;
  }

  lemma BlockSkips(ts: Source, i: nat, x: Ctl)
    requires i < |ts|
    ensures ParseBlock(ts, ConsumeEoc(ts, i), x) == ParseBlock(ts, i, x)
  {
    hide ParseBlock;
    SkippedOnce(ts, i);
    BlockFrom(ts, i, x);
    BlockFrom(ts, ConsumeEoc(ts, i), x);
  }

  lemma BlockGoesOn(ts: Source, j: nat, x: Ctl)
    requires j < |ts| && !IsEoc(ts, j) && ts[j].kind != Eof && ParseStmt(ts, j, x).Got?
    ensures j < ParseStmt(ts, j, x).next
  {
    hide ParseStmt;
  }

  lemma {:induction false} BlockIsText(ts: Source, i: nat, x: Ctl) returns (b: BText)
    requires i < |ts| && ParseBlock(ts, i, x).Got?
    requires ShallowB(ParseBlock(ts, i, x).v) && OnLines(ts)
    ensures FitsB(ts, i, b, x, false) && TreeB(b, x.inLoop) == ParseBlock(ts, i, x).v
    ensures i + |WrittenB(b)| == ParseBlock(ts, i, x).next
    ensures ts[ParseBlock(ts, i, x).next].kind == Eof || Is1(ts[ParseBlock(ts, i, x).next], "END")
    decreases |ts| - i, 4
  {
    hide FitsS, ParseStmt, ParseBlock, WrittenS, TreeS, OnLines, ShallowS, FitsSeps, ConsumeEoc, SkipEoc, Is1, IsKeyword;
    var j, end := SkipEoc(ts, i), ParseBlock(ts, i, x).next;
    BlockFrom(ts, i, x);
    SepsFound(ts, i);
    Ends(ts, j);
    if ts[j].kind == Eof || IsKeyword(ts, j, "END") {
      b := Closed(ts[i..j]);
    } else {
      var g := ParseStmt(ts, j, x);
      BlockGoesOn(ts, j, x);
      BlockSkips(ts, g.next, x);
      var s := StmtIsText(ts, j, x);
      var r := BlockIsText(ts, g.next, x);
      b := Next(ts[i..j], s, r);
    }
  }

  lemma {:induction false} DoIsText(ts: Source, i: nat, x: Ctl) returns (s: SText)
    requires i + 1 < |ts| && IsKeyword(ts, i, "DO") && x.loops + x.ifs < 250 && ParseStmt(ts, i, x).Got?
    requires ShallowS(ParseStmt(ts, i, x).v) && OnLines(ts)
    ensures FitsS(ts, i, s, x, false) && TreeS(s, x.inLoop) == ParseStmt(ts, i, x).v
    ensures i + |WrittenS(s)| == ParseStmt(ts, i, x).next
    decreases |ts| - i, 0
  {
    hide FitsH, FitsB, ParseStmt, ParseHeader, ParseBlock, WrittenH, WrittenB, TreeB, TreeH, OnLines, ShallowB, ShallowKind, FitsEnd,
         Level0, ConsumeEnd;
    Ends(ts, i);
    FirstBlockWord(ts, i, x);
    var end := ParseStmt(ts, i, x).next;
    var y := x.(loops := x.loops + 1, inLoop := true);
    var h := ParseHeader(ts, i + 1);
    var g := ParseBlock(ts, h.next, y);
    var ht := HeaderIsText(ts, i + 1, ParseStmt(ts, i, x).v.kind);
    var b := BlockIsText(ts, h.next, y);
    s := Looping(ts[i], ht, b, EndAt(ts, g.next));
  }

  /** The header, and the condition of UNTIL that is read behind the body. */
  lemma HeaderIsText(ts: Source, i: nat, k: DoKind) returns (h: HText)
    requires i < |ts| && ParseHeader(ts, i).Got? && OnLines(ts) && ShallowKind(k)
    requires if ParseHeader(ts, i).v.Until? then i + 1 < |ts| && Level0(ts, i + 1).Got? && k == Until(Level0(ts, i + 1).v)
             else k == ParseHeader(ts, i).v
    ensures FitsH(ts, i, h, false) && TreeH(h) == k && i + |WrittenH(h)| == ParseHeader(ts, i).next
  {
    hide FitsE, FitsSep, ParseTo, Level0, Written, TreeOf, FitsBounds, ConsumeEoc, SkipClause, OnLines, Shallow;
    Ends(ts, i);
    var end := ParseHeader(ts, i).next;
    if IsKeyword(ts, i, "FOREVER") {
      h := Always(ts[i], SepAt(ts, i + 1));
    } else if EndsClause(ts, i) {
      h := Once(SepAt(ts, i));
    } else if IsKeyword(ts, i, "WHILE") {
      var g := Level0(ts, i + 1);
      var c := ExprFound(ts, i + 1);
      h := Whiling(ts[i], c, SepAt(ts, g.next));
    } else if IsKeyword(ts, i, "UNTIL") {
      h := UntilIsText(ts, i);
    } else if IsControlled(ts, i) {
      ControlledStart(ts, i);
      h := CountingIsText(ts, i);
    } else {
      h := TimesAreText(ts, i);
    }
  }

  lemma ControlledStart(ts: Source, i: nat)
    requires i < |ts| && IsControlled(ts, i)
    ensures i + 2 < |ts| && ts[i].kind == Symbol && !ts[i].constant && EqualSign(ts[i + 1]) && ts[i + 2].kind != Comparison
  {
  }

  lemma TimesAreText(ts: Source, i: nat) returns (h: HText)
    requires i < |ts| && ParseHeader(ts, i).Got? && OnLines(ts) && ShallowKind(ParseHeader(ts, i).v)
    requires !IsKeyword(ts, i, "FOREVER") && !EndsClause(ts, i) && !IsKeyword(ts, i, "WHILE") && !IsKeyword(ts, i, "UNTIL")
    requires !IsControlled(ts, i)
    ensures FitsH(ts, i, h, false) && TreeH(h) == ParseHeader(ts, i).v && i + |WrittenH(h)| == ParseHeader(ts, i).next
  {
    hide FitsE, FitsSep, ParseTo, Level0, Written, TreeOf, ConsumeEoc, OnLines, Shallow;
    Ends(ts, i);
    var g := Level0(ts, i);
    var n := ExprFound(ts, i);
    h := Times(n, SepAt(ts, g.next));
  }

  lemma {:induction false} ClauseGoesOn(ts: Source, i: nat, j: nat)
    requires i <= j < |ts| && forall m :: i <= m < j ==> !ClauseEnd(ts[m])
    ensures j <= SkipClause(ts, i) && ClauseEnd(ts[SkipClause(ts, i)])
    ensures forall m :: i <= m < SkipClause(ts, i) ==> !ClauseEnd(ts[m])
    decreases |ts| - i
  {
    Ends(ts, i);
    if !EndsClause(ts, i) { ClauseGoesOn(ts, i + 1, if j > i then j else i + 1); }
  }

  lemma UntilIsText(ts: Source, i: nat) returns (h: HText)
    requires i + 1 < |ts| && IsKeyword(ts, i, "UNTIL") && Level0(ts, i + 1).Got? && Shallow(Level0(ts, i + 1).v)
    requires OnLines(ts)
    ensures FitsH(ts, i, h, false) && TreeH(h) == Until(Level0(ts, i + 1).v) && i + |WrittenH(h)| == ParseHeader(ts, i).next
  {
    hide FitsE, FitsSep, ParseHeader, Level0, Written, TreeOf, ConsumeEoc, OnLines, Shallow, ClauseEnd;
    Ends(ts, i);
    UntilParsed(ts, i);
    var g, e := Level0(ts, i + 1), SkipClause(ts, i + 1);
    ClauseGoesOn(ts, i + 1, i + 1);
    var c := ExprFound(ts, i + 1);
    ExprEndsNothing(ts, i + 1, c, false);
    ClauseGoesOn(ts, i + 1, g.next);
    SeqFound(ts, g.next, e);
    h := Untiling(ts[i], c, ts[g.next..e], SepAt(ts, e));
  }

  lemma CountingIsText(ts: Source, i: nat) returns (h: HText)
    requires i + 2 < |ts| && ts[i].kind == Symbol && !ts[i].constant && EqualSign(ts[i + 1]) && ts[i + 2].kind != Comparison
    requires ts[i].upper != "FOREVER" && ts[i].upper != "WHILE" && ts[i].upper != "UNTIL"
    requires ParseHeader(ts, i).Got? && OnLines(ts) && ShallowKind(ParseHeader(ts, i).v)
    ensures FitsH(ts, i, h, false) && TreeH(h) == ParseHeader(ts, i).v && i + |WrittenH(h)| == ParseHeader(ts, i).next
  {
    hide FitsE, FitsSep, Level0, Written, TreeOf, OnLines, Shallow, FitsPart, WrittenPart, ConsumeEoc, ParseHeader, BehindLimit, ShallowKind;
    var v := ts[i].upper;
    var a, z := BoundsFound(ts, i);
    CountingParsed(ts, i, a, z);
    var k := BehindLimit(ts, z.next, v, a.v, z.v);
    var step, times := PartsAreText(ts, z.next, v, a.v, z.v);
    AllShallow(k.v);
    var start := ExprFound(ts, i + 2);
    var limit := ExprFound(ts, a.next + 1);
    h := Counting(ts[i], ts[i + 1], start, ts[a.next], limit, step, times, SepAt(ts, k.next));
    CountingLength(h);
  }

  lemma BoundsFound(ts: Source, i: nat) returns (a: Got<Expr>, z: Got<Expr>)
    requires i + 2 < |ts| && ts[i].kind == Symbol && !ts[i].constant && EqualSign(ts[i + 1]) && ts[i + 2].kind != Comparison
    requires ts[i].upper != "FOREVER" && ts[i].upper != "WHILE" && ts[i].upper != "UNTIL" && ParseHeader(ts, i).Got?
    ensures a == Level0(ts, i + 2) && a.Got? && a.next + 1 < |ts| && Is1(ts[a.next], "TO")
    ensures z == Level0(ts, a.next + 1) && z.Got? && z.next < |ts|
  {
    hide Level0, ParseFor;
    Ends(ts, i);
    assert IsControlled(ts, i);
    a := Level0(ts, i + 2);
    Ends(ts, a.next);
    z := Level0(ts, a.next + 1);
  }

  lemma AllShallow(k: DoKind)
    requires k.To? && ShallowKind(k)
    ensures Shallow(k.start) && Shallow(k.limit)
  {
    hide Shallow;
  }

  lemma PartsAreText(ts: Source, k: nat, v: string, start: Expr, limit: Expr) returns (step: Part, times: Part)
    requires k < |ts| && BehindLimit(ts, k, v, start, limit).Got? && ShallowKind(BehindLimit(ts, k, v, start, limit).v) && OnLines(ts)
    ensures FitsPart(ts, k, step, "BY", false) && FitsPart(ts, k + |WrittenPart(step)|, times, "FOR", false)
    ensures var g := BehindLimit(ts, k, v, start, limit);
            && g.next == k + |WrittenPart(step)| + |WrittenPart(times)|
            && g.v == To(v, start, limit, if step.Given? then TreeOf(step.e) else Expr.Lit("1"),
                         times.Given?, if times.Given? then TreeOf(times.e) else Expr.Lit(""))
  {
    hide FitsE, Level0, Written, TreeOf, OnLines, Shallow, Is1, IsKeyword, ParseFor, BehindLimit;
    Ends(ts, k);
    var m, e := StepFound(ts, k, v, start, limit);
    times := TimesFound(ts, m, v, start, limit, e);
    step := Absent;
    if IsKeyword(ts, k, "BY") {
      var p := ExprFound(ts, k + 1);
      step := Given(ts[k], p);
    }
  }

  lemma StepFound(ts: Source, k: nat, v: string, start: Expr, limit: Expr) returns (m: nat, e: Expr)
    requires k < |ts| && BehindLimit(ts, k, v, start, limit).Got?
    ensures m < |ts| && BehindLimit(ts, k, v, start, limit) == ParseFor(ts, m, v, start, limit, e)
    ensures IsKeyword(ts, k, "BY") ==> k + 1 < |ts| && Level0(ts, k + 1) == Got(e, m)
    ensures !IsKeyword(ts, k, "BY") ==> m == k && e == Expr.Lit("1")
  {
    hide Level0, ParseFor;
    m, e := k, Expr.Lit("1");
    if IsKeyword(ts, k, "BY") { m, e := Level0(ts, k + 1).next, Level0(ts, k + 1).v; }
  }

  lemma TimesFound(ts: Source, m: nat, v: string, start: Expr, limit: Expr, step: Expr) returns (p: Part)
    requires m < |ts| && ParseFor(ts, m, v, start, limit, step).Got? && ShallowKind(ParseFor(ts, m, v, start, limit, step).v)
    requires OnLines(ts)
    ensures FitsPart(ts, m, p, "FOR", false)
    ensures ParseFor(ts, m, v, start, limit, step) ==
              Got(To(v, start, limit, step, p.Given?, if p.Given? then TreeOf(p.e) else Expr.Lit("")), m + |WrittenPart(p)|)
    ensures Shallow(step)
  {
    hide FitsE, Level0, Written, TreeOf, OnLines, Shallow;
    p := Absent;
    if IsKeyword(ts, m, "FOR") {
      var q := ExprFound(ts, m + 1);
      p := Given(ts[m], q);
    }
  }

  // ---- Programs -------------------------------------------------------------------------------------

  /** Whatever program is read is a text with that tree. */
  lemma {:induction false} ProgramIsText(ts: Source, i: nat) returns (p: PText)
    requires i < |ts| && ParseProgram(ts, i).Got? && ShallowB(ParseProgram(ts, i).v) && OnLines(ts)
    ensures FitsP(ts, i, p, false) && TreeP(p) == ParseProgram(ts, i).v && i + |WrittenP(p)| == ParseProgram(ts, i).next
    decreases |ts| - i
  {
    hide FitsS, ParseStmt, ParseProgram, WrittenS, TreeS, OnLines, ShallowS, FitsSeps, ConsumeEoc, SkipEoc;
    var j := SkipEoc(ts, i);
    ProgramSkips(ts, i);
    SepsFound(ts, i);
    Ends(ts, j);
    var seps := ts[i..j];
    if ts[j].kind == Eof {
      ProgramEnded(ts, j);
      p := Ended(seps);
    } else {
      ProgramAt(ts, j);
      if ts[j].kind == Symbol && Colon(ts[j + 1]) {
        LabelParsed(ts, j);
        var r := ProgramIsText(ts, j + 2);
        p := Labelled(seps, ts[j], ts[j + 1], r);
      } else {
        var g := ParseStmt(ts, j, TOP);
        StepParsed(ts, j);
        StmtGoesOn(ts, j);
        SkippedOnce(ts, g.next);
        ProgramSkips(ts, g.next);
        ProgramSkips(ts, ConsumeEoc(ts, g.next));
        var s := StmtIsText(ts, j, TOP);
        var r := ProgramIsText(ts, g.next);
        p := Then(seps, s, r);
      }
    }
  }

  lemma StmtGoesOn(ts: Source, j: nat)
    requires j < |ts| && ts[j].kind != Eof && !Separator(ts[j]) && ParseStmt(ts, j, TOP).Got?
    ensures j < ParseStmt(ts, j, TOP).next < |ts|
  {
    hide ParseStmt;
    Ends(ts, j);
  }

  lemma ProgramAt(ts: Source, j: nat)
    requires j < |ts| && ts[j].kind != Eof && !Separator(ts[j]) && ParseProgram(ts, j).Got?
    ensures j + 1 < |ts|
    ensures ts[j].kind == Symbol && Colon(ts[j + 1]) ==> j + 2 < |ts| && ParseProgram(ts, j + 2).Got?
    ensures !(ts[j].kind == Symbol && Colon(ts[j + 1])) ==>
              ParseStmt(ts, j, TOP).Got? && ParseProgram(ts, ConsumeEoc(ts, ParseStmt(ts, j, TOP).next)).Got?
  {
    hide ParseStmt, ConsumeEoc;
    Ends(ts, j);
  }

  // ---- One program ------------------------------------------------------------------------------------

  /** IF X = 1 THEN SAY 'yes' */
  const CHOICE: seq<Token> :=
    [Mark(Symbol, "IF", 0), Mark(Symbol, "X", 3), Mark(Kind.Comparison, "=", 5), Mark(Number, "1", 7), Mark(Symbol, "THEN", 9),
     Mark(Symbol, "SAY", 14), Mark(String, "yes", 18), END]

  function ChoiceCondition(): Phrase { Infix(2, Eq, [CHOICE[2]], Term(CHOICE[1]), Term(CHOICE[3])) }

  function ChoiceText(): SText
  {
    IfThen(CHOICE[0], ChoiceCondition(), Branch(CHOICE[4], [], WordExpr(CHOICE[5], Term(CHOICE[6])), []))
  }

  lemma ChoiceIsRead()
    ensures |CHOICE| == 8 && CHOICE[7].kind == Eof
    ensures ParseProgram(CHOICE, 0) ==
              Got(Step(If(Bin(Eq, Var("X"), Expr.Lit("1")), Say(Str("yes")), false, Null), Done), 7)
  {
    ChoiceFits();
    ChoiceMeans();
    ChoiceEnds();
    hide ChoiceText, FitsS, WrittenS, TreeS, FitsSeps;
    var p := Then([], ChoiceText(), Ended([]));
    assert FitsP(CHOICE, 7, Ended([]), true);
    assert FitsP(CHOICE, 0, p, true);
    ProgramIsRead(CHOICE, 0, p);
  }

  lemma ChoiceEnds()
    ensures FitsSeps(CHOICE, 0, []) && FitsSeps(CHOICE, 7, []) && CHOICE[7].kind == Eof && CHOICE[0].kind == Symbol
    ensures !Colon(CHOICE[1])
  {
    assert CHOICE[0..0] == [] && CHOICE[7..7] == [];
  }

  lemma ChoiceMeans()
    ensures WrittenS(ChoiceText()) == CHOICE[..7]
    ensures TreeS(ChoiceText(), false) == If(Bin(Eq, Var("X"), Expr.Lit("1")), Say(Str("yes")), false, Null)
  {
    ChoiceWords();
    hide TreeOf;
    var c := ChoiceCondition();
    assert Written(c) == [CHOICE[1]] + [CHOICE[2]] + [CHOICE[3]];
    assert WrittenS(WordExpr(CHOICE[5], Term(CHOICE[6]))) == [CHOICE[5]] + [CHOICE[6]];
    assert WrittenS(ChoiceText()) == [CHOICE[0]] + ([CHOICE[1]] + [CHOICE[2]] + [CHOICE[3]]) + ([CHOICE[4]] + [] + ([CHOICE[5]] + [CHOICE[6]]) + []);
  }

  lemma ChoiceExprs()
    ensures FitsE(CHOICE, 1, ChoiceCondition(), true) && |Written(ChoiceCondition())| == 3
    ensures FitsE(CHOICE, 6, Term(CHOICE[6]), true) && |Written(Term(CHOICE[6]))| == 1
  {
    var ts: Source := CHOICE;
    ChoiceWords();
    var c, d := ChoiceCondition(), Term(CHOICE[6]);
    assert Written(c) == [ts[1]] + [ts[2]] + [ts[3]] && Written(d) == [ts[6]];
    assert Stands(ts, 1, Written(c)) by { assert ts[1..4] == [ts[1]] + [ts[2]] + [ts[3]]; }
    assert Stands(ts, 6, Written(d)) by { assert ts[6..7] == [ts[6]]; }
    hide Stands, WellFormed, Written, ChoiceCondition, Cost;
    KeywordEnds(ts, 1, c);
    KeywordEnds(ts, 6, d);
  }

  lemma ChoiceFits()
    ensures FitsS(CHOICE, 0, ChoiceText(), TOP, true)
  {
    var ts: Source := CHOICE;
    ChoiceExprs();
    hide FitsE, Written, ChoiceCondition;
    var e := WordExpr(ts[5], Term(ts[6]));
    assert FitsS(ts, 5, e, TOP.(ifs := 1), true);
    assert |WrittenS(e)| == 2;
    assert FitsR(ts, 4, Branch(ts[4], [], e, []), "THEN", TOP.(ifs := 1), true);
  }

  lemma ChoiceWords()
    ensures var c := ChoiceCondition();
            && WellFormed(c) && Cost(c) <= NEST_MAX && TreeOf(c) == Bin(Eq, Var("X"), Expr.Lit("1"))
            && WellFormed(Term(CHOICE[6])) && TreeOf(Term(CHOICE[6])) == Str("yes")
  {
    var s: Source := [CHOICE[2]] + [END];
    assert s == [CHOICE[2], END] && Tok(s, 1) == END && Tok(s, 2) == END;
    assert Spells([CHOICE[2]], 2, Eq);
  }
}
