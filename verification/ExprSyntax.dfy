/** Expressions: trees, the precedence table, and what the nine-level descent reads. */
module ExprSyntax {
  import opened Options
  import opened NumberText
  import opened Bytecode
  import opened Tokens

  const NEST_MAX := 40
  const COST_GROUP := 1
  const COST_OPERATOR := 1
  const COST_PREFIX := 2

  const MAX_ARGS := 16

  /** Lit is a number or constant symbol, TooDeep an operand and CallTooDeep a function call nested past the
  evaluation stack. */
  datatype Expr =
    | Str(text: string) | Lit(text: string) | Var(name: string)
    | Plus(e: Expr) | Neg(e: Expr) | Not(e: Expr)
    | Bin(op: BinOp, l: Expr, r: Expr)
    | Call(name: string, args: Args)
    | TooDeep | CallTooDeep(name: string)

  /** Arguments, the last one outermost. */
  datatype Args = NoArgs | Arg(before: Args, e: Expr) | Omitted(before: Args)

  function CountA(a: Args): nat
  {
    match a case NoArgs => 0 case Arg(b, _) => CountA(b) + 1 case Omitted(b) => CountA(b) + 1
  }

  /** Unsup: not compiled. Beyond: compiled by the program, but not part of this model. */
  datatype Parsed = Tree(e: Expr, next: nat) | Unsup | Beyond

  datatype ParsedArgs = List(a: Args, next: nat) | ListUnsup | ListBeyond

  // ---- Operators by level ------------------------------------------------

  /** The comparison sign written at i, c0 c1 c2 being the characters there. */
  function CompareSign(not0: bool, c0: char, c1: char, c2: char): Option<(BinOp, nat)>
  {
    if not0 then
      if c1 == '=' then (if c2 == '=' then Some((Dne, 3)) else Some((Ne, 2)))
      else if c1 == '>' then Some((Le, 2))
      else if c1 == '<' then Some((Ge, 2))
      else None
    else if c0 == '=' then (if c1 == '=' then Some((Deq, 2)) else Some((Eq, 1)))
    else if c0 == '>' then
      if c1 == '>' then (if c2 == '=' then Some((Dge, 3)) else Some((Dgt, 2)))
      else if c1 == '=' then Some((Ge, 2))
      else if c1 == '<' then Some((Ne, 2))
      else Some((Gt, 1))
    else if c0 == '<' then
      if c1 == '<' then (if c2 == '=' then Some((Dle, 3)) else Some((Dlt, 2)))
      else if c1 == '=' then Some((Le, 2))
      else if c1 == '>' then Some((Ne, 2))
      else Some((Lt, 1))
    else None
  }

  function SignOf(t: Token): char
  {
    if t.kind == Comparison && t.text != "" then t.text[0] else ' '
  }

  const BARRIERS: seq<string> :=
    ["THEN", "ELSE", "END", "WHEN", "OTHERWISE", "TO", "BY", "FOR", "WHILE", "UNTIL", "FOREVER",
     "IF", "DO", "SAY", "SELECT", "EXIT", "ITERATE", "LEAVE", "NOP",
     "CALL", "RETURN", "PROCEDURE", "PARSE", "DROP", "SIGNAL", "TRACE", "ADDRESS"]

  predicate BarrierWord(s: string) { s in BARRIERS }

  predicate IsBarrier(ts: Source, i: int)
  {
    Tok(ts, i).kind == Symbol && BarrierWord(Tok(ts, i).upper)
  }

  predicate StartsValue(ts: Source, i: int)
  {
    !IsBarrier(ts, i)
    && (Tok(ts, i).kind == Symbol || Tok(ts, i).kind == String || Tok(ts, i).kind == Number || Tok(ts, i).kind == LParen)
  }

  /** The binary operator of level k at i and how many tokens spell it: the precedence table.
  Two values side by side are a concatenation, without a blank if nothing is between them. */
  function OpAt(ts: Source, k: nat, i: nat): (r: Option<(BinOp, nat)>)
    requires i < |ts|
    ensures r.Some? ==> i + r.value.1 < |ts|
    ensures r.Some? && r.value.1 == 0 ==> k == 3 && StartsValue(ts, i)
  {
    if k == 0 then
      if Is(ts, i, Logical, '&') && Is(ts, i + 1, Logical, '&') then Some((Xor, 2))
      else if Is(ts, i, Logical, '|') && !Is(ts, i + 1, Logical, '|') then Some((Or, 1))
      else None
    else if k == 1 then
      if Is(ts, i, Logical, '&') && !Is(ts, i + 1, Logical, '&') then Some((And, 1)) else None
    else if k == 2 then
      CompareSign(Tok(ts, i).kind == NotSign, SignOf(Tok(ts, i)), SignOf(Tok(ts, i + 1)), SignOf(Tok(ts, i + 2)))
    else if k == 3 then
      if Is(ts, i, Logical, '|') && Is(ts, i + 1, Logical, '|') then Some((Concat, 2))
      else if StartsValue(ts, i) then Some((if Adjacent(Tok(ts, i - 1), Tok(ts, i)) then Concat else BConcat, 0))
      else None
    else if k == 4 then
      if Is(ts, i, Operator, '+') then Some((Add, 1))
      else if Is(ts, i, Operator, '-') then Some((Sub, 1))
      else None
    else if k == 5 then
      if Is(ts, i, Operator, '/') then (if Is(ts, i + 1, Operator, '/') then Some((Mod, 2)) else Some((Div, 1)))
      else if Is(ts, i, Operator, '*') && !Is(ts, i + 1, Operator, '*') then Some((Mul, 1))
      else if Is(ts, i, Operator, '%') then Some((IDiv, 1))
      else None
    else if k == 6 then
      if Is(ts, i, Operator, '*') && Is(ts, i + 1, Operator, '*') then Some((Power, 2)) else None
    else None
  }

  // ---- The descent -------------------------------------------------------

  /** The closing parenthesis of the innermost one open at i, if it comes before the clause ends. */
  function SkipToParen(ts: Source, i: nat, balance: nat): (r: Option<nat>)
    requires i < |ts|
    ensures r.Some? ==> i <= r.value < |ts| && ts[r.value].kind == RParen
    decreases |ts| - i
  {
    if EndsClause(ts, i) then None
    else if ts[i].kind == RParen && balance == 0 then Some(i)
    else SkipToParen(ts, i + 1, if ts[i].kind == LParen then balance + 1
                                else if ts[i].kind == RParen then balance - 1 else balance)
  }

  /** An operand too deep: everything up to the enclosing parenthesis is replaced by an error. */
  function Refuse(ts: Source, i: nat): (r: Parsed)
    requires i < |ts|
    ensures r.Tree? ==> i <= r.next < |ts| && (ts[i].kind != RParen ==> i < r.next)
  {
    match SkipToParen(ts, i, 0) case None => Unsup case Some(j) => Tree(TooDeep, j)
  }

  function SkipContinuations(ts: Source, i: nat): (j: nat)
    requires i < |ts|
    ensures i <= j < |ts|
    decreases |ts| - i
  {
    if IsContinuation(ts, i) then SkipContinuations(ts, i + 1) else i
  }

  function Dedouble(raw: string, quote: char): string
  {
    if raw == "" then ""
    else if |raw| >= 2 && raw[0] == quote && raw[1] == quote then [quote] + Dedouble(raw[2..], quote)
    else [raw[0]] + Dedouble(raw[1..], quote)
  }

  predicate HasPair(raw: string, quote: char)
  {
    exists k :: 0 <= k < |raw| - 1 && raw[k] == quote && raw[k + 1] == quote
  }

  /** The body of a string token: doubled quotes stand for one. */
  function StringBody(t: Token): string
  {
    if t.doubled then Dedouble(t.text, if HasPair(t.text, '"') && !HasPair(t.text, '\'') then '"' else '\'')
    else t.text
  }

  function Wrap(p: Parsed, f: Expr -> Expr): (r: Parsed)
    ensures r.Tree? <==> p.Tree?
    ensures r.Tree? ==> r.next == p.next && r.e == f(p.e)
    ensures !r.Tree? ==> r == p
  {
    match p case Tree(e, j) => Tree(f(e), j) case x => x
  }

  function ParsePrimary(ts: Source, i0: nat, d: nat): (r: Parsed)
    requires i0 < |ts|
    ensures r.Tree? ==> i0 < r.next < |ts|
    decreases |ts| - i0, 4
  {
    var i := SkipContinuations(ts, i0);
    var t := ts[i];
    match t.kind
    case LParen =>
      if d + COST_GROUP > NEST_MAX then Refuse(ts, i)
      else
        (match ParseLevel(ts, 0, i + 1, d + COST_GROUP)
         case Tree(e, j) => if ts[j].kind == RParen then Tree(e, j + 1) else Unsup
         case x => x)
    case String => Tree(Str(StringBody(t)), i + 1)
    case Number => Tree(Lit(t.text), i + 1)
    case Symbol =>
      if t.constant then Tree(Lit(t.text), i + 1)
      else if t.compound then Beyond
      else if Tok(ts, i + 1).kind == LParen && Adjacent(t, Tok(ts, i + 1)) then ParseCall(ts, i, d)
      else Tree(Var(t.upper), i + 1)
    case _ => Unsup
  }

  /** A name with its opening parenthesis at i. */
  function ParseCall(ts: Source, i: nat, d: nat): (r: Parsed)
    requires i < |ts| && ts[i].kind != RParen && Tok(ts, i + 1).kind == LParen
    ensures r.Tree? ==> i < r.next < |ts|
    decreases |ts| - i, 3
  {
    if d + COST_GROUP > NEST_MAX then
      (match SkipToParen(ts, i, 0) case None => Unsup case Some(j) => Tree(CallTooDeep(ts[i].upper), j))
    else if ts[i + 2].kind == RParen then Tree(Call(ts[i].upper, NoArgs), i + 3)
    else
      match ParseArgs(ts, i + 2, d + COST_GROUP, NoArgs)
      case List(a, j) => Tree(Call(ts[i].upper, a), j)
      case ListUnsup => Unsup
      case ListBeyond => Beyond
  }

  /** The arguments from i on up to the closing parenthesis, behind those in acc; nothing in front of a comma or the
  parenthesis is an omitted argument. */
  function ParseArgs(ts: Source, i: nat, d: nat, acc: Args): (r: ParsedArgs)
    requires i < |ts|
    ensures r.List? ==> i < r.next < |ts|
    decreases |ts| - i, 50
  {
    if CountA(acc) >= MAX_ARGS then ListUnsup
    else if ts[i].kind == Comma || ts[i].kind == RParen then ParseSeparator(ts, i, d, Omitted(acc))
    else match ParseLevel(ts, 0, i, d)
      case Tree(e, j) => ParseSeparator(ts, j, d, Arg(acc, e))
      case Unsup => ListUnsup
      case Beyond => ListBeyond
  }

  function ParseSeparator(ts: Source, j: nat, d: nat, acc: Args): (r: ParsedArgs)
    requires j < |ts|
    ensures r.List? ==> j < r.next < |ts|
    decreases |ts| - j, 40
  {
    if ts[j].kind == RParen then List(acc, j + 1)
    else if ts[j].kind == Comma then ParseArgs(ts, j + 1, d, acc)
    else ListUnsup
  }

  /** Levels 0 to 6 are binary, level 7 is prefix. */
  function ParseLevel(ts: Source, k: nat, i: nat, d: nat): (r: Parsed)
    requires i < |ts| && k <= 7
    ensures r.Tree? ==> i < r.next < |ts|
    decreases |ts| - i, 4 * (9 - k)
  {
    if k == 7 then
      if Is(ts, i, Operator, '-') then
        if d + COST_PREFIX > NEST_MAX then Refuse(ts, i)
        else Wrap(ParseLevel(ts, 7, i + 1, d + COST_PREFIX), e => Neg(e))
      else if Is(ts, i, Operator, '+') then
        if d + COST_PREFIX > NEST_MAX then Refuse(ts, i)
        else Wrap(ParseLevel(ts, 7, i + 1, d + COST_PREFIX), e => Plus(e))
      else if ts[i].kind == NotSign then
        if d + COST_PREFIX > NEST_MAX then Refuse(ts, i)
        else Wrap(ParseLevel(ts, 7, i + 1, d + COST_PREFIX), e => Not(e))
      else ParsePrimary(ts, i, d)
    else match ParseLevel(ts, k + 1, i, d)
      case Tree(l, j) => ParseRest(ts, k, j, d, l)
      case x => x
  }

  function ParseOperand(ts: Source, k: nat, i: nat, d: nat): (r: Parsed)
    requires i < |ts| && k <= 6
    ensures r.Tree? ==> i <= r.next < |ts| && (ts[i].kind != RParen ==> i < r.next)
    decreases |ts| - i, 4 * (9 - k) - 1
  {
    if d + COST_OPERATOR > NEST_MAX then Refuse(ts, i) else ParseLevel(ts, k + 1, i, d + COST_OPERATOR)
  }

  /** Operators of level k behind the operand l, folded to the left; a comparison takes only one. */
  function ParseRest(ts: Source, k: nat, i: nat, d: nat, l: Expr): (r: Parsed)
    requires i < |ts| && k <= 6
    ensures r.Tree? ==> i <= r.next < |ts|
    decreases |ts| - i, 4 * (9 - k) + 1
  {
    match OpAt(ts, k, i)
    case None => Tree(l, i)
    case Some((op, n)) =>
      match ParseOperand(ts, k, i + n, d)
      case Tree(r, j) => if k == 2 then Tree(Bin(op, l, r), j) else ParseRest(ts, k, j, d, Bin(op, l, r))
      case x => x
  }

  function ParseJoined(ts: Source, i: nat, l: Expr): (r: Parsed)
    requires i < |ts|
    ensures r.Tree? ==> i <= r.next < |ts|
    decreases |ts| - i
  {
    if !IsContinuation(ts, i) then Tree(l, i)
    else if EndsClause(ts, i + 1) || IsBarrier(ts, i + 1) then Tree(l, i + 1)
    else match ParseLevel(ts, 0, i + 1, 0)
      case Tree(r, j) => ParseJoined(ts, j, Bin(BConcat, l, r))
      case x => x
  }

  /** A whole expression: a comma that only continues a line joins with a blank. */
  function ParseExpr(ts: Source, i: nat): (r: Parsed)
    requires i < |ts|
    ensures r.Tree? ==> i < r.next < |ts|
  {
    match ParseLevel(ts, 0, i, 0)
    case Tree(e, j) => ParseJoined(ts, j, e)
    case x => x
  }

  // ---- Depth bounds the stack ----------------------------------------------

  function Max(a: nat, b: nat): nat { if a < b then b else a }

  const STR_MAX := 63

  /** More than any stack holds. */
  const UNBOUNDED := 1000

  predicate CallFree(e: Expr)
  {
    match e
    case Plus(a) => CallFree(a)
    case Neg(a) => CallFree(a)
    case Not(a) => CallFree(a)
    case Bin(_, l, r) => CallFree(l) && CallFree(r)
    case Call(_, _) => false
    case CallTooDeep(_) => false
    case _ => true
  }

  /** How far evaluating e makes the stack grow; nothing bounds a call. */
  function Need(e: Expr): nat
  {
    match e
    case Str(s) => if |s| > STR_MAX then 2 else 1
    case Lit(_) => 1
    case Var(_) => 1
    case Plus(a) => Need(a)
    case Neg(a) => Need(a)
    case Not(a) => Need(a)
    case Bin(_, l, r) => Max(Need(l), 1 + Need(r))
    case Call(_, _) => UNBOUNDED
    case TooDeep => 0
    case CallTooDeep(_) => UNBOUNDED
  }

  // ---- The nesting counter's peak ------------------------------------------------

  /** The greatest nesting depth on the way through an expression of level k, entered at depth d. */
  function PeakLevel(ts: Source, k: nat, i: nat, d: nat): (r: nat)
    requires i < |ts| && k <= 7 && d <= NEST_MAX
    ensures d <= r <= NEST_MAX
    decreases |ts| - i, 4 * (9 - k)
  {
    if k < 7 then
      var x := ParseLevel(ts, k + 1, i, d);
      var first := PeakLevel(ts, k + 1, i, d);
      if x.Tree? then Max(first, PeakRest(ts, k, x.next, d)) else first
    else if Is(ts, i, Operator, '-') || Is(ts, i, Operator, '+') || ts[i].kind == NotSign then
      if d + COST_PREFIX > NEST_MAX then d else PeakLevel(ts, 7, i + 1, d + COST_PREFIX)
    else PeakPrimary(ts, i, d)
  }

  function PeakOperand(ts: Source, k: nat, i: nat, d: nat): (r: nat)
    requires i < |ts| && k <= 6 && d <= NEST_MAX
    ensures d <= r <= NEST_MAX
    decreases |ts| - i, 4 * (9 - k) - 1
  {
    if d + COST_OPERATOR > NEST_MAX then d else PeakLevel(ts, k + 1, i, d + COST_OPERATOR)
  }

  function PeakRest(ts: Source, k: nat, i: nat, d: nat): (r: nat)
    requires i < |ts| && k <= 6 && d <= NEST_MAX
    ensures d <= r <= NEST_MAX
    decreases |ts| - i, 4 * (9 - k) + 1
  {
    match OpAt(ts, k, i)
    case None => d
    case Some((_, n)) =>
      var x := ParseOperand(ts, k, i + n, d);
      var operand := PeakOperand(ts, k, i + n, d);
      if x.Tree? && k != 2 then Max(operand, PeakRest(ts, k, x.next, d)) else operand
  }

  function PeakPrimary(ts: Source, i0: nat, d: nat): (r: nat)
    requires i0 < |ts| && d <= NEST_MAX
    ensures d <= r <= NEST_MAX
    decreases |ts| - i0, 4
  {
    var i := SkipContinuations(ts, i0);
    if d + COST_GROUP > NEST_MAX then d
    else if ts[i].kind == LParen then PeakLevel(ts, 0, i + 1, d + COST_GROUP)
    else if ts[i].kind == Symbol && !ts[i].constant && !ts[i].compound
            && Tok(ts, i + 1).kind == LParen && Adjacent(ts[i], Tok(ts, i + 1)) then
      if ts[i + 2].kind == RParen then d + COST_GROUP else PeakArgs(ts, i + 2, d + COST_GROUP, 0)
    else d
  }

  function PeakArgs(ts: Source, i: nat, d: nat, n: nat): (r: nat)
    requires i < |ts| && d <= NEST_MAX
    ensures d <= r <= NEST_MAX
    decreases |ts| - i, 50
  {
    if n >= MAX_ARGS then d
    else if ts[i].kind == RParen then d
    else if ts[i].kind == Comma then PeakArgs(ts, i + 1, d, n + 1)
    else
      var x := ParseLevel(ts, 0, i, d);
      var first := PeakLevel(ts, 0, i, d);
      if x.Tree? && ts[x.next].kind == Comma then Max(first, PeakArgs(ts, x.next + 1, d, n + 1)) else first
  }

  /** Of the segments that continuation commas join, the deepest one's peak. */
  function PeakJoined(ts: Source, i: nat): (r: nat)
    requires i < |ts|
    ensures r <= NEST_MAX
    decreases |ts| - i
  {
    if !Continues(ts, i) then 0
    else
      var x := ParseLevel(ts, 0, i + 1, 0);
      if x.Tree? then Max(PeakLevel(ts, 0, i + 1, 0), PeakJoined(ts, x.next)) else PeakLevel(ts, 0, i + 1, 0)
  }

  /** A comma that joins one more segment. */
  predicate Continues(ts: Source, i: nat)
    requires i < |ts|
  {
    IsContinuation(ts, i) && !EndsClause(ts, i + 1) && !IsBarrier(ts, i + 1)
  }

  function PeakExpr(ts: Source, i: nat): (r: nat)
    requires i < |ts|
    ensures r <= NEST_MAX
  {
    var x := ParseLevel(ts, 0, i, 0);
    if x.Tree? then Max(PeakLevel(ts, 0, i, 0), PeakJoined(ts, x.next)) else PeakLevel(ts, 0, i, 0)
  }

  // ---- Depth bounds the stack ----------------------------------------------

  /**
   * What the descent reads needs no more stack cells than the nesting counter's peak allows.  Every operand that waits
   * has paid for its operator, but a way back to the weakest operators is a parenthesis, which has paid as well and
   * leaves nothing waiting: eight units of nesting cost buy at most seven cells.
   */
  lemma {:induction false} PeakBoundsStack(ts: Source, k: nat, i: nat, d: nat)
    requires i < |ts| && k <= 7 && d <= NEST_MAX && ParseLevel(ts, k, i, d).Tree? && CallFree(ParseLevel(ts, k, i, d).e)
    ensures 8 * Need(ParseLevel(ts, k, i, d).e) <= 7 * (PeakLevel(ts, k, i, d) - d) + 23 - k
    decreases |ts| - i, 4 * (9 - k)
  {
    hide OpAt, Adjacent, StringBody, BarrierWord, ParsePrimary, PeakPrimary, Refuse;
    RefusedNeeds(ts, i);
    if k < 7 {
      var x := ParseLevel(ts, k + 1, i, d);
      RestCallFree(ts, k, x.next, d, x.e);
      PeakBoundsStack(ts, k + 1, i, d);
      RestPeak(ts, k, x.next, d, x.e, PeakLevel(ts, k, i, d));
    } else if Is(ts, i, Operator, '-') || Is(ts, i, Operator, '+') || ts[i].kind == NotSign {
      if d + COST_PREFIX <= NEST_MAX { PeakBoundsStack(ts, 7, i + 1, d + COST_PREFIX); }
    } else {
      PrimaryBound(ts, i, d);
    }
  }

  lemma {:induction false} PrimaryBound(ts: Source, i: nat, d: nat)
    requires i < |ts| && d <= NEST_MAX && ParsePrimary(ts, i, d).Tree? && CallFree(ParsePrimary(ts, i, d).e)
    ensures 8 * Need(ParsePrimary(ts, i, d).e) <= 7 * (PeakPrimary(ts, i, d) - d) + 16
    decreases |ts| - i, 4
  {
    hide Adjacent, StringBody, ParseLevel, PeakLevel, Refuse;
    var j := SkipContinuations(ts, i);
    if ts[j].kind == LParen {
      RefusedNeeds(ts, j);
      if d + COST_GROUP <= NEST_MAX { PeakBoundsStack(ts, 0, j + 1, d + COST_GROUP); }
    } else {
      LeafNeeds(ts, i, d);
    }
  }

  lemma RefusedNeeds(ts: Source, i: nat)
    requires i < |ts|
    ensures Refuse(ts, i).Tree? ==> Refuse(ts, i).e == TooDeep
  {
  }

  /** In particular at most the peak plus two, and 37 in all. */
  lemma DepthBoundsStack(ts: Source, i: nat)
    requires i < |ts| && ParseLevel(ts, 0, i, 0).Tree? && CallFree(ParseLevel(ts, 0, i, 0).e)
    ensures Need(ParseLevel(ts, 0, i, 0).e) <= PeakLevel(ts, 0, i, 0) + 2
    ensures Need(ParseLevel(ts, 0, i, 0).e) <= 37
  {
    hide ParseLevel, PeakLevel;
    PeakBoundsStack(ts, 0, i, 0);
  }

  const MOST_CELLS := 37

  lemma LeafNeeds(ts: Source, i: nat, d: nat)
    requires i < |ts| && ts[SkipContinuations(ts, i)].kind != LParen && ParsePrimary(ts, i, d).Tree?
    requires CallFree(ParsePrimary(ts, i, d).e)
    ensures Need(ParsePrimary(ts, i, d).e) <= 2
  {
    hide StringBody, Adjacent, SkipToParen, SkipContinuations, ParseArgs, ParseLevel;
  }

  /** A call in the left operand is still there in the whole. */
  lemma {:induction false} RestCallFree(ts: Source, k: nat, i: nat, d: nat, l: Expr)
    requires i < |ts| && k <= 6 && ParseRest(ts, k, i, d, l).Tree? && CallFree(ParseRest(ts, k, i, d, l).e)
    ensures CallFree(l)
    decreases |ts| - i
  {
    hide OpAt, ParseOperand;
    if OpAt(ts, k, i).Some? {
      var (op, n) := OpAt(ts, k, i).value;
      var x := ParseOperand(ts, k, i + n, d);
      if k != 2 {
        Progress(ts, k, i, d);
        RestCallFree(ts, k, x.next, d, Bin(op, l, x.e));
      }
    }
  }

  lemma {:induction false} RestPeak(ts: Source, k: nat, i: nat, d: nat, l: Expr, peak: nat)
    requires i < |ts| && k <= 6 && d <= NEST_MAX && peak >= PeakRest(ts, k, i, d) && ParseRest(ts, k, i, d, l).Tree?
    requires 8 * Need(l) <= 7 * (peak - d) + 23 - k && CallFree(ParseRest(ts, k, i, d, l).e)
    ensures 8 * Need(ParseRest(ts, k, i, d, l).e) <= 7 * (peak - d) + 23 - k
    decreases |ts| - i, 4 * (9 - k) + 1
  {
    hide OpAt, Adjacent, BarrierWord, ParseLevel, Refuse, SkipToParen, PeakLevel;
    if OpAt(ts, k, i).Some? {
      var (op, n) := OpAt(ts, k, i).value;
      var x := ParseOperand(ts, k, i + n, d);
      if k != 2 {
        Progress(ts, k, i, d);
        RestCallFree(ts, k, x.next, d, Bin(op, l, x.e));
      }
      OperandPeak(ts, k, i + n, d);
      if k != 2 {
        RestPeak(ts, k, x.next, d, Bin(op, l, x.e), peak);
      }
    }
  }

  lemma OperandPeak(ts: Source, k: nat, i: nat, d: nat)
    requires i < |ts| && k <= 6 && d <= NEST_MAX && ParseOperand(ts, k, i, d).Tree? && CallFree(ParseOperand(ts, k, i, d).e)
    ensures 8 * (Need(ParseOperand(ts, k, i, d).e) + 1) <= 7 * (PeakOperand(ts, k, i, d) - d) + 23 - k
    decreases |ts| - i, 4 * (9 - k) - 1
  {
    hide ParseLevel, PeakLevel;
    if d + COST_OPERATOR <= NEST_MAX { PeakBoundsStack(ts, k + 1, i, d + COST_OPERATOR); }
  }

  lemma Progress(ts: Source, k: nat, i: nat, d: nat)
    requires i < |ts| && k <= 6 && OpAt(ts, k, i).Some?
    ensures var n := OpAt(ts, k, i).value.1;
            i + n < |ts| && (ParseOperand(ts, k, i + n, d).Tree? ==> i < ParseOperand(ts, k, i + n, d).next)
  {
    hide BarrierWord, Adjacent, ParseLevel;
  }

  /** A whole expression: 37 cells, 38 if commas joined it over line ends.  Joined, it keeps to its peak plus two if and
  only if each segment behind the first leaves a cell of that for the text it is joined to. */
  lemma {:induction false} ExprDepth(ts: Source, i: nat)
    requires i < |ts| && ParseExpr(ts, i).Tree? && CallFree(ParseExpr(ts, i).e)
    ensures Need(ParseExpr(ts, i).e) <= 38
    ensures !Continues(ts, ParseLevel(ts, 0, i, 0).next) ==>
              Need(ParseExpr(ts, i).e) <= 37 && Need(ParseExpr(ts, i).e) <= PeakExpr(ts, i) + 2
    ensures Need(ParseExpr(ts, i).e) <= PeakExpr(ts, i) + 2 <==> LaterFit(ts, ParseLevel(ts, 0, i, 0).next, PeakExpr(ts, i) + 1)
  {
    hide ParseLevel, PeakLevel, BarrierWord;
    var x := ParseLevel(ts, 0, i, 0);
    JoinedCallFree(ts, x.next, x.e);
    DepthBoundsStack(ts, i);
    JoinedNeed(ts, x.next, x.e, MOST_CELLS + 1);
    JoinedNeed(ts, x.next, x.e, PeakExpr(ts, i) + 2);
    LaterFitMost(ts, x.next, x.e);
  }

  /** Each segment behind i needs at most so many cells. */
  predicate LaterFit(ts: Source, i: nat, cells: nat)
    requires i < |ts|
    decreases |ts| - i
  {
    Continues(ts, i) && ParseLevel(ts, 0, i + 1, 0).Tree? ==>
      var x := ParseLevel(ts, 0, i + 1, 0);
      Need(x.e) <= cells && LaterFit(ts, x.next, cells)
  }

  lemma {:induction false} JoinedNeed(ts: Source, i: nat, l: Expr, cap: nat)
    requires i < |ts| && cap >= 1 && ParseJoined(ts, i, l).Tree?
    ensures Need(ParseJoined(ts, i, l).e) <= cap <==> Need(l) <= cap && LaterFit(ts, i, cap - 1)
    decreases |ts| - i
  {
    hide ParseLevel, BarrierWord;
    if Continues(ts, i) {
      var x := ParseLevel(ts, 0, i + 1, 0);
      JoinedNeed(ts, x.next, Bin(BConcat, l, x.e), cap);
    }
  }

  lemma {:induction false} LaterFitMost(ts: Source, i: nat, l: Expr)
    requires i < |ts| && ParseJoined(ts, i, l).Tree? && CallFree(ParseJoined(ts, i, l).e)
    ensures LaterFit(ts, i, MOST_CELLS)
    decreases |ts| - i
  {
    hide ParseLevel, BarrierWord, PeakLevel;
    if Continues(ts, i) {
      var x := ParseLevel(ts, 0, i + 1, 0);
      JoinedCallFree(ts, x.next, Bin(BConcat, l, x.e));
      DepthBoundsStack(ts, i + 1);
      LaterFitMost(ts, x.next, Bin(BConcat, l, x.e));
    }
  }

  lemma {:induction false} JoinedCallFree(ts: Source, i: nat, l: Expr)
    requires i < |ts| && ParseJoined(ts, i, l).Tree? && CallFree(ParseJoined(ts, i, l).e)
    ensures CallFree(l)
    decreases |ts| - i
  {
    hide ParseLevel, BarrierWord;
    if IsContinuation(ts, i) && !EndsClause(ts, i + 1) && !IsBarrier(ts, i + 1) {
      var x := ParseLevel(ts, 0, i + 1, 0);
      JoinedCallFree(ts, x.next, Bin(BConcat, l, x.e));
    }
  }
}
