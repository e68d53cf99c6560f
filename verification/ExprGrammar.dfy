/** The precedence grammar, said without a parser: which token phrases are expressions of which level,
and what tree each stands for.  The descent reads exactly these phrases. */
module ExprGrammar {
  import opened Options
  import opened NumberText
  import opened Bytecode
  import opened Tokens
  import opened ExprSyntax

  /** An expression as written.  An empty sign is a concatenation without an operator. */
  datatype Phrase =
    | Term(t: Token)
    | Group(open: Token, e: Phrase, close: Token)
    | Prefixed(mark: Token, e: Phrase)
    | Infix(k: nat, op: BinOp, sign: seq<Token>, l: Phrase, r: Phrase)
    | Bare(name: Token, open: Token, close: Token)
    | Applied(name: Token, open: Token, items: Items)

  /** Arguments with the commas between them; one may be left out. */
  datatype Slot = Empty | Filled(e: Phrase)

  datatype Items = LastItem(s: Slot, close: Token) | NextItem(s: Slot, comma: Token, rest: Items)

  function Written(p: Phrase): (s: seq<Token>)
    ensures |s| >= 1
  {
    match p
    case Term(t) => [t]
    case Group(o, e, c) => [o] + Written(e) + [c]
    case Prefixed(s, e) => [s] + Written(e)
    case Infix(_, _, s, l, r) => Written(l) + s + Written(r)
    case Bare(n, o, c) => [n, o, c]
    case Applied(n, o, it) => [n, o] + WrittenItems(it)
  }

  function WrittenItems(it: Items): (s: seq<Token>)
    ensures |s| >= 1
  {
    match it
    case LastItem(s, c) => WrittenSlot(s) + [c]
    case NextItem(s, c, r) => WrittenSlot(s) + [c] + WrittenItems(r)
  }

  function WrittenSlot(s: Slot): seq<Token>
  {
    match s case Empty => [] case Filled(e) => Written(e)
  }

  function CountItems(it: Items): nat
  {
    match it case LastItem(_, _) => 1 case NextItem(_, _, r) => 1 + CountItems(r)
  }

  function First(p: Phrase): Token { Written(p)[0] }

  function Last(p: Phrase): Token { Written(p)[|Written(p)| - 1] }

  function Level(p: Phrase): nat
  {
    match p case Term(_) => 8 case Group(_, _, _) => 8 case Prefixed(_, _) => 7 case Infix(k, _, _, _, _) => k
    case Bare(_, _, _) => 8 case Applied(_, _, _) => 8
  }

  predicate IsName(t: Token) { t.kind == Symbol && !t.constant && !t.compound }

  predicate IsTerm(t: Token)
  {
    t.kind == String || t.kind == Number || (t.kind == Symbol && (t.constant || !t.compound))
  }

  /** A name directly in front of '(' is a function call. */
  predicate CallLike(a: Token, b: Token)
  {
    IsName(a) && b.kind == LParen && Adjacent(a, b)
  }

  predicate CanFollow(t: Token)
  {
    (t.kind == Symbol && !BarrierWord(t.upper)) || t.kind == String || t.kind == Number || t.kind == LParen
  }

  predicate IsSign(t: Token)
  {
    t.kind == NotSign || (t.kind == Operator && t.text != "" && (t.text[0] == '-' || t.text[0] == '+'))
  }

  const END := Token(Eof, "", "", false, false, false, false, 0, 0)

  /** sign, followed by an operand, is operator op of level k. */
  predicate Spells(sign: seq<Token>, k: nat, op: BinOp)
  {
    k <= 6 && sign != [] && OpAt(sign + [END], k, 0) == Some((op, |sign|))
  }

  predicate WellFormed(p: Phrase)
  {
    match p
    case Term(t) => IsTerm(t)
    case Group(o, e, c) => o.kind == LParen && c.kind == RParen && WellFormed(e)
    case Prefixed(s, e) => IsSign(s) && WellFormed(e) && Level(e) >= 7
    case Infix(k, op, s, l, r) =>
      WellFormed(l) && WellFormed(r) && k <= 6 && Level(r) >= k + 1 && Level(l) >= (if k == 2 then 3 else k)
      && if s != [] then Spells(s, k, op)
         else k == 3 && CanFollow(First(r)) && !CallLike(Last(l), First(r))
              && op == (if Adjacent(Last(l), First(r)) then Concat else BConcat)
    case Bare(n, o, c) => CallLike(n, o) && c.kind == RParen
    case Applied(n, o, it) => CallLike(n, o) && CountItems(it) <= MAX_ARGS && WellItems(it) && !(it.LastItem? && it.s.Empty?)
  }

  predicate WellItems(it: Items)
  {
    match it
    case LastItem(s, c) => c.kind == RParen && WellSlot(s)
    case NextItem(s, c, r) => c.kind == Comma && WellSlot(s) && WellItems(r)
  }

  predicate WellSlot(s: Slot)
  {
    match s case Empty => true case Filled(e) => WellFormed(e)
  }

  function TermTree(t: Token): Expr
  {
    if t.kind == String then Str(StringBody(t))
    else if t.kind == Number || t.constant then Lit(t.text)
    else Var(t.upper)
  }

  function TreeOf(p: Phrase): Expr
  {
    match p
    case Term(t) => TermTree(t)
    case Group(_, e, _) => TreeOf(e)
    case Prefixed(s, e) =>
      if s.kind == NotSign then Not(TreeOf(e)) else if s.text != "" && s.text[0] == '-' then Neg(TreeOf(e)) else Plus(TreeOf(e))
    case Infix(_, op, _, l, r) => Bin(op, TreeOf(l), TreeOf(r))
    case Bare(n, _, _) => Call(n.upper, NoArgs)
    case Applied(n, _, it) => Call(n.upper, ArgsOf(it, NoArgs))
  }

  /** The arguments, behind those in acc. */
  function ArgsOf(it: Items, acc: Args): Args
  {
    match it
    case LastItem(s, _) => WithSlot(s, acc)
    case NextItem(s, _, r) => ArgsOf(r, WithSlot(s, acc))
  }

  function WithSlot(s: Slot, acc: Args): Args
  {
    match s case Empty => Omitted(acc) case Filled(e) => Arg(acc, TreeOf(e))
  }

  /** Entries of the evaluation stack the phrase takes. */
  function Cost(p: Phrase): nat
  {
    match p
    case Term(_) => 0
    case Group(_, e, _) => COST_GROUP + Cost(e)
    case Prefixed(_, e) => COST_PREFIX + Cost(e)
    case Infix(_, _, _, l, r) => Max(Cost(l), COST_OPERATOR + Cost(r))
    case Bare(_, _, _) => COST_GROUP
    case Applied(_, _, it) => COST_GROUP + CostItems(it)
  }

  function CostItems(it: Items): nat
  {
    match it
    case LastItem(s, _) => CostSlot(s)
    case NextItem(s, _, r) => Max(CostSlot(s), CostItems(r))
  }

  function CostSlot(s: Slot): nat
  {
    match s case Empty => 0 case Filled(e) => Cost(e)
  }

  /** Nothing at j continues an expression of level k. */
  predicate Stops(ts: Source, k: nat, j: nat)
  {
    j < |ts| && forall m :: k <= m <= 6 ==> OpAt(ts, m, j).None?
  }

  // ---- Every phrase is read as its tree -------------------------------------

  lemma FirstToken(p: Phrase)
    requires WellFormed(p)
    ensures CanFollow(First(p)) || First(p).kind == Symbol || IsSign(First(p))
    ensures Level(p) == 8 ==> !IsSign(First(p))
  {
    match p {
      case Infix(_, _, s, l, r) => FirstToken(l); assert First(p) == First(l);
      case _ =>
    }
  }

  predicate OperandStart(t: Token) { CanFollow(t) || t.kind == Symbol || IsSign(t) }

  // A sign means the same in any text in which an operand follows it, and means nothing on other levels.
  lemma SignStands(ts: Source, i: nat, sign: seq<Token>, k: nat, op: BinOp)
    requires Spells(sign, k, op) && Stands(ts, i, sign) && i + |sign| < |ts| && OperandStart(ts[i + |sign|])
    ensures OpAt(ts, k, i) == Some((op, |sign|))
    ensures forall m :: k < m <= 6 ==> OpAt(ts, m, i).None?
  {
    hide OpAt, Stands, OperandStart;
    var s: Source := sign + [END];
    SignLength(sign, k, op);
    StandsAt(ts, i, sign, 0);
    if |sign| >= 2 { StandsAt(ts, i, sign, 1); }
    if |sign| >= 3 { StandsAt(ts, i, sign, 2); }
    if k == 2 { CompareStands(ts, i, sign, op); } else { PlainStands(ts, i, sign, k, op); }
  }

  lemma SignLength(sign: seq<Token>, k: nat, op: BinOp)
    requires Spells(sign, k, op)
    ensures |sign| <= (if k == 2 then 3 else 2)
  {
  }

  lemma CompareStands(ts: Source, i: nat, sign: seq<Token>, op: BinOp)
    requires Spells(sign, 2, op) && |sign| <= 3 && i + |sign| < |ts| && OperandStart(ts[i + |sign|])
    requires forall j :: 0 <= j < |sign| ==> ts[i + j] == sign[j]
    ensures OpAt(ts, 2, i) == Some((op, |sign|))
    ensures forall m :: 2 < m <= 6 ==> OpAt(ts, m, i).None?
  {
    hide BarrierWord, Adjacent;
    var s: Source := sign + [END];
    assert s[0] == sign[0] == ts[i + 0];
    if |sign| >= 2 { assert s[1] == sign[1] == ts[i + 1]; }
    if |sign| >= 3 { assert s[2] == sign[2] == ts[i + 2]; }
    assert s[|sign|] == END;
  }

  lemma PlainStands(ts: Source, i: nat, sign: seq<Token>, k: nat, op: BinOp)
    requires k != 2 && Spells(sign, k, op) && |sign| <= 2 && i + |sign| < |ts| && OperandStart(ts[i + |sign|])
    requires forall j :: 0 <= j < |sign| ==> ts[i + j] == sign[j]
    ensures OpAt(ts, k, i) == Some((op, |sign|))
    ensures forall m :: k < m <= 6 ==> OpAt(ts, m, i).None?
  {
    hide BarrierWord, Adjacent;
    var s: Source := sign + [END];
    assert s[0] == sign[0] == ts[i + 0];
    if |sign| >= 2 { assert s[1] == sign[1] == ts[i + 1]; }
    assert s[|sign|] == END;
  }

  lemma ValueStands(ts: Source, i: nat)
    requires 1 <= i < |ts| && CanFollow(ts[i])
    ensures OpAt(ts, 3, i) == Some((if Adjacent(ts[i - 1], ts[i]) then Concat else BConcat, 0))
    ensures forall m :: 4 <= m <= 6 ==> OpAt(ts, m, i).None?
  {
  }

  // The operator between l and r.
  lemma OperatorStands(ts: Source, i: nat, p: Phrase)
    requires p.Infix? && WellFormed(p) && Stands(ts, i, Written(p))
    ensures var j := i + |Written(p.l)|;
            Stands(ts, i, Written(p.l)) && Stands(ts, j + |p.sign|, Written(p.r)) && j < |ts|
            && OpAt(ts, p.k, j) == Some((p.op, |p.sign|))
            && (forall m :: p.k < m <= 6 ==> OpAt(ts, m, j).None?)
            && !CallLike(Last(p.l), ts[j])
  {
    hide WellFormed, OpAt, Written, TreeOf, Adjacent, CallLike, Stands, CanFollow, IsSign, Spells, BarrierWord;
    var a, b := Written(p.l), Written(p.r);
    InfixParts(p);
    StandsSplit(ts, i, a + p.sign, b);
    StandsSplit(ts, i, a, p.sign);
    var j := i + |a|;
    StandsAt(ts, j + |p.sign|, b, 0);
    StandsAt(ts, i, a, |a| - 1);
    FirstToken(p.r);
    if p.sign != [] {
      SignStands(ts, j, p.sign, p.k, p.op);
      StandsAt(ts, j, p.sign, 0);
      SignIsNoParen(p.sign, p.k, p.op);
      NoCall(Last(p.l), ts[j]);
    } else {
      ValueStands(ts, j);
    }
  }

  lemma NoCall(a: Token, b: Token)
    requires b.kind != LParen
    ensures !CallLike(a, b)
  {
  }

  lemma SignIsNoParen(sign: seq<Token>, k: nat, op: BinOp)
    requires Spells(sign, k, op)
    ensures sign[0].kind != LParen
  {
    assert (sign + [END])[0] == sign[0];
  }

  lemma InfixParts(p: Phrase)
    requires p.Infix? && WellFormed(p)
    ensures Written(p) == Written(p.l) + p.sign + Written(p.r) && WellFormed(p.l) && WellFormed(p.r)
    ensures TreeOf(p) == Bin(p.op, TreeOf(p.l), TreeOf(p.r))
    ensures p.k <= 6 && Level(p.r) >= p.k + 1 && Level(p.l) >= (if p.k == 2 then 3 else p.k)
    ensures p.sign != [] ==> Spells(p.sign, p.k, p.op)
    ensures p.sign == [] ==> p.k == 3 && CanFollow(First(p.r)) && !CallLike(Last(p.l), First(p.r))
    ensures p.sign == [] ==> p.op == (if Adjacent(Last(p.l), First(p.r)) then Concat else BConcat)
  {
  }

  lemma InfixFormed(p: Phrase)
    requires p.Infix? && WellFormed(p.l) && WellFormed(p.r) && p.k <= 6
    requires Level(p.r) >= p.k + 1 && Level(p.l) >= (if p.k == 2 then 3 else p.k)
    requires p.sign != [] ==> Spells(p.sign, p.k, p.op)
    requires p.sign == [] ==> p.k == 3 && CanFollow(First(p.r)) && !CallLike(Last(p.l), First(p.r))
    requires p.sign == [] ==> p.op == (if Adjacent(Last(p.l), First(p.r)) then Concat else BConcat)
    ensures WellFormed(p) && TreeOf(p) == Bin(p.op, TreeOf(p.l), TreeOf(p.r))
    ensures Written(p) == Written(p.l) + p.sign + Written(p.r) && Last(p) == Last(p.r) && First(p) == First(p.l)
  {
    SameLast(Written(p.l) + p.sign, Written(p.r));
  }

  /** The descent, started at the level of a phrase or below, reads the phrase and yields its tree. */
  lemma {:induction false} PhraseIsRead(ts: Source, i: nat, p: Phrase, k: nat, d: nat)
    requires WellFormed(p) && Stands(ts, i, Written(p)) && k <= 7 && Level(p) >= k && d + Cost(p) <= 40
    requires i + |Written(p)| < |ts| && Stops(ts, k, i + |Written(p)|) && !CallLike(Last(p), ts[i + |Written(p)|])
    ensures i < |ts| && ParseLevel(ts, k, i, d) == Tree(TreeOf(p), i + |Written(p)|)
    decreases p, 10 - k, 1
  {
    hide OpAt, Adjacent, CallLike, Written, WellFormed, TreeOf, ParseRest, ParseLevel, Stands, BarrierWord,
         CanFollow, IsSign, Spells;
    var j := i + |Written(p)|;
    if p.Infix? { InfixParts(p); }
    if k == 7 {
      if p.Prefixed? { PrefixIsRead(ts, i, p, d); }
      else if p.Bare? || p.Applied? { CallIsRead(ts, i, p, d); }
      else { PrimaryIsRead(ts, i, p, d); }
    } else if k == 2 && Level(p) == 2 {
      InfixParts(p);
      OperatorStands(ts, i, p);
      var m := i + |Written(p.l)|;
      PhraseIsRead(ts, i, p.l, 3, d);
      SameEnd(p);
      PhraseIsRead(ts, m + |p.sign|, p.r, 3, d + 1);
      RestTakes(ts, 2, m, d, TreeOf(p.l), p.op, |p.sign|, TreeOf(p.r), j);
      LevelDescends(ts, 2, i, d, TreeOf(p.l), m);
    } else {
      SpineIsRead(ts, i, p, k, d);
      RestStops(ts, k, j, d, TreeOf(p));
    }
  }

  lemma RestStops(ts: Source, k: nat, j: nat, d: nat, l: Expr)
    requires j < |ts| && k <= 6 && OpAt(ts, k, j).None?
    ensures ParseRest(ts, k, j, d, l) == Tree(l, j)
  {
    hide ParseLevel, OpAt, Refuse, ParseOperand;
  }

  lemma RestTakes(ts: Source, k: nat, i: nat, d: nat, l: Expr, op: BinOp, n: nat, r: Expr, j: nat)
    requires i < |ts| && k <= 6 && OpAt(ts, k, i) == Some((op, n)) && d + COST_OPERATOR <= NEST_MAX && j < |ts|
    requires ParseLevel(ts, k + 1, i + n, d + COST_OPERATOR) == Tree(r, j)
    ensures ParseRest(ts, k, i, d, l) == if k == 2 then Tree(Bin(op, l, r), j) else ParseRest(ts, k, j, d, Bin(op, l, r))
  {
    hide ParseLevel, OpAt, Refuse;
    assert ParseOperand(ts, k, i + n, d) == Tree(r, j);
  }

  lemma LevelDescends(ts: Source, k: nat, i: nat, d: nat, l: Expr, j: nat)
    requires i < |ts| && j < |ts| && k <= 6 && ParseLevel(ts, k + 1, i, d) == Tree(l, j)
    ensures ParseLevel(ts, k, i, d) == ParseRest(ts, k, j, d, l)
  {
    hide ParseRest, ParsePrimary, Refuse;
  }

  lemma SameEnd(p: Phrase)
    requires p.Infix? && WellFormed(p)
    ensures Last(p) == Last(p.r) && |Written(p)| == |Written(p.l)| + |p.sign| + |Written(p.r)|
    ensures Cost(p.l) <= Cost(p) && COST_OPERATOR + Cost(p.r) <= Cost(p)
  {
  }

  /** A chain of operators of one level is folded to the left. */
  lemma {:induction false} SpineIsRead(ts: Source, i: nat, p: Phrase, k: nat, d: nat)
    requires WellFormed(p) && Stands(ts, i, Written(p)) && k <= 6 && Level(p) >= k && d + Cost(p) <= NEST_MAX
    requires k == 2 ==> Level(p) > 2
    requires i + |Written(p)| < |ts| && Stops(ts, k + 1, i + |Written(p)|) && !CallLike(Last(p), ts[i + |Written(p)|])
    ensures i < |ts| && ParseLevel(ts, k, i, d) == ParseRest(ts, k, i + |Written(p)|, d, TreeOf(p))
    decreases p, 10 - k, 0
  {
    hide OpAt, Adjacent, CallLike, Written, WellFormed, TreeOf, ParseRest, ParseLevel, Stands, BarrierWord,
         CanFollow, IsSign, Spells;
    if Level(p) > k {
      PhraseIsRead(ts, i, p, k + 1, d);
      LevelDescends(ts, k, i, d, TreeOf(p), i + |Written(p)|);
    } else {
      InfixParts(p);
      OperatorStands(ts, i, p);
      var m, j := i + |Written(p.l)|, i + |Written(p)|;
      SpineIsRead(ts, i, p.l, k, d);
      SameEnd(p);
      PhraseIsRead(ts, m + |p.sign|, p.r, k + 1, d + 1);
      RestTakes(ts, k, m, d, TreeOf(p.l), p.op, |p.sign|, TreeOf(p.r), j);
    }
  }

  lemma PrefixIsRead(ts: Source, i: nat, p: Phrase, d: nat)
    requires p.Prefixed? && WellFormed(p) && Stands(ts, i, Written(p)) && d + Cost(p) <= NEST_MAX
    requires i + |Written(p)| < |ts| && Stops(ts, 7, i + |Written(p)|) && !CallLike(Last(p), ts[i + |Written(p)|])
    ensures i < |ts| && ParseLevel(ts, 7, i, d) == Tree(TreeOf(p), i + |Written(p)|)
    decreases p, 3, 0
  {
    hide OpAt, Adjacent, CallLike, Stands;
    StandsSplit(ts, i, [p.mark], Written(p.e));
    StandsAt(ts, i, [p.mark], 0);
    assert Last(p) == Last(p.e);
    PhraseIsRead(ts, i + 1, p.e, 7, d + COST_PREFIX);
  }

  lemma PrimaryIsRead(ts: Source, i: nat, p: Phrase, d: nat)
    requires (p.Term? || p.Group?) && WellFormed(p) && Stands(ts, i, Written(p)) && d + Cost(p) <= NEST_MAX
    requires i + |Written(p)| < |ts| && !CallLike(Last(p), ts[i + |Written(p)|])
    ensures i < |ts| && ParseLevel(ts, 7, i, d) == Tree(TreeOf(p), i + |Written(p)|)
    decreases p, 3, 0
  {
    hide OpAt, Adjacent, Stands, BarrierWord, ParseLevel, ParsePrimary;
    StandsAt(ts, i, Written(p), 0);
    if p.Group? {
      var n := |Written(p.e)|;
      StandsSplit(ts, i, [p.open] + Written(p.e), [p.close]);
      StandsSplit(ts, i, [p.open], Written(p.e));
      StandsAt(ts, i + 1 + n, [p.close], 0);
      ParenStops(ts, i + 1 + n);
      PhraseIsRead(ts, i + 1, p.e, 0, d + COST_GROUP);
      GroupIsRead(ts, i, TreeOf(p.e), i + 1 + n, d);
    } else {
      TermIsRead(ts, i, d);
    }
  }

  lemma CallIsRead(ts: Source, i: nat, p: Phrase, d: nat)
    requires (p.Bare? || p.Applied?) && WellFormed(p) && Stands(ts, i, Written(p)) && d + Cost(p) <= NEST_MAX
    requires i + |Written(p)| < |ts|
    ensures i < |ts| && ParseLevel(ts, 7, i, d) == Tree(TreeOf(p), i + |Written(p)|)
    decreases p, 3, 0
  {
    hide OpAt, Adjacent, Stands, BarrierWord, ParseLevel, ParsePrimary, ParseArgs, ParseCall;
    StandsAt(ts, i, Written(p), 0);
    StandsAt(ts, i, Written(p), 1);
    NameIsCalled(ts, i, d);
    if p.Bare? {
      StandsAt(ts, i, Written(p), 2);
      BareIsCalled(ts, i, d);
    } else {
      StandsSplit(ts, i, [p.name, p.open], WrittenItems(p.items));
      ItemsAreRead(ts, i + 2, p.items, d + COST_GROUP, NoArgs);
      FirstItem(p.items);
      StandsAt(ts, i + 2, WrittenItems(p.items), 0);
      ItemsAreCalled(ts, i, d, ArgsOf(p.items, NoArgs), i + |Written(p)|);
    }
  }

  lemma NameIsCalled(ts: Source, i: nat, d: nat)
    requires i + 1 < |ts| && CallLike(ts[i], ts[i + 1])
    ensures ParseLevel(ts, 7, i, d) == ParseCall(ts, i, d)
  {
    assert ParsePrimary(ts, i, d) == ParseCall(ts, i, d);
  }

  lemma BareIsCalled(ts: Source, i: nat, d: nat)
    requires i + 2 < |ts| && ts[i].kind != RParen && ts[i + 1].kind == LParen && ts[i + 2].kind == RParen && d + COST_GROUP <= NEST_MAX
    ensures ParseCall(ts, i, d) == Tree(Call(ts[i].upper, NoArgs), i + 3)
  {
  }

  lemma ItemsAreCalled(ts: Source, i: nat, d: nat, a: Args, j: nat)
    requires i + 2 < |ts| && ts[i].kind != RParen && ts[i + 1].kind == LParen && ts[i + 2].kind != RParen && d + COST_GROUP <= NEST_MAX
    requires ParseArgs(ts, i + 2, d + COST_GROUP, NoArgs) == List(a, j)
    ensures ParseCall(ts, i, d) == Tree(Call(ts[i].upper, a), j)
  {
    hide ParseArgs;
  }

  lemma FirstItem(it: Items)
    requires WellItems(it) && !(it.LastItem? && it.s.Empty?)
    ensures WrittenItems(it)[0].kind != RParen
    ensures it.s.Filled? ==> WrittenItems(it)[0].kind != Comma
  {
    hide WellFormed, Written;
    if it.s.Filled? {
      FirstToken(it.s.e);
      assert WrittenItems(it)[0] == First(it.s.e);
    }
  }

  /** The argument list is read item by item, omitted ones included. */
  lemma {:induction false} ItemsAreRead(ts: Source, i: nat, it: Items, d: nat, acc: Args)
    requires WellItems(it) && Stands(ts, i, WrittenItems(it)) && d + CostItems(it) <= NEST_MAX
    requires CountA(acc) + CountItems(it) <= 16 && i + |WrittenItems(it)| < |ts|
    ensures i < |ts| && ParseArgs(ts, i, d, acc) == List(ArgsOf(it, acc), i + |WrittenItems(it)|)
    decreases it, 1
  {
    hide OpAt, Adjacent, Stands, BarrierWord, ParseLevel, ParseArgs, ParseSeparator, CallLike, WrittenSlot, TreeOf, Cost;
    var w := WrittenSlot(it.s);
    var sep := if it.LastItem? then it.close else it.comma;
    var rest := if it.LastItem? then [] else WrittenItems(it.rest);
    assert WrittenItems(it) == w + [sep] + rest;
    StandsSplit(ts, i, w + [sep], rest);
    StandsSplit(ts, i, w, [sep]);
    var j := i + |w|;
    StandsAt(ts, j, [sep], 0);
    SlotIsRead(ts, i, it, d, acc);
    SeparatorIsRead(ts, j, d, WithSlot(it.s, acc));
    if it.NextItem? { ItemsAreRead(ts, j + 1, it.rest, d, WithSlot(it.s, acc)); }
  }

  lemma {:induction false} SlotIsRead(ts: Source, i: nat, it: Items, d: nat, acc: Args)
    requires WellItems(it) && Stands(ts, i, WrittenSlot(it.s)) && d + CostItems(it) <= NEST_MAX
    requires CountA(acc) < MAX_ARGS && i + |WrittenSlot(it.s)| < |ts|
    requires ts[i + |WrittenSlot(it.s)|].kind == if it.LastItem? then RParen else Comma
    ensures i < |ts| && ParseArgs(ts, i, d, acc) == ParseSeparator(ts, i + |WrittenSlot(it.s)|, d, WithSlot(it.s, acc))
    decreases it, 0
  {
    hide OpAt, Adjacent, Stands, BarrierWord, ParseLevel, ParseArgs, ParseSeparator, CallLike, Written;
    var w := WrittenSlot(it.s);
    var j := i + |w|;
    SeparatorStops(ts, j);
    match it.s {
      case Empty => EmptyIsRead(ts, i, d, acc);
      case Filled(e) =>
        PhraseIsRead(ts, i, e, 0, d);
        StandsAt(ts, i, w, 0);
        FirstToken(e);
        FilledIsRead(ts, i, d, acc, TreeOf(e), j);
    }
  }

  lemma EmptyIsRead(ts: Source, i: nat, d: nat, acc: Args)
    requires i < |ts| && CountA(acc) < MAX_ARGS && (ts[i].kind == Comma || ts[i].kind == RParen)
    ensures ParseArgs(ts, i, d, acc) == ParseSeparator(ts, i, d, Omitted(acc))
  {
    hide ParseLevel, ParseSeparator;
  }

  lemma FilledIsRead(ts: Source, i: nat, d: nat, acc: Args, e: Expr, j: nat)
    requires i < |ts| && CountA(acc) < MAX_ARGS && ts[i].kind != Comma && ts[i].kind != RParen
    requires ParseLevel(ts, 0, i, d) == Tree(e, j)
    ensures j < |ts| && ParseArgs(ts, i, d, acc) == ParseSeparator(ts, j, d, Arg(acc, e))
  {
    hide ParseLevel, ParseSeparator;
  }

  lemma SeparatorIsRead(ts: Source, j: nat, d: nat, acc: Args)
    requires j < |ts|
    ensures ts[j].kind == RParen ==> ParseSeparator(ts, j, d, acc) == List(acc, j + 1)
    ensures ts[j].kind == Comma ==> j + 1 < |ts| && ParseSeparator(ts, j, d, acc) == ParseArgs(ts, j + 1, d, acc)
  {
    hide ParseArgs;
  }

  lemma SeparatorStops(ts: Source, j: nat)
    requires j < |ts| && (ts[j].kind == RParen || ts[j].kind == Comma)
    ensures Stops(ts, 0, j) && forall t :: !CallLike(t, ts[j])
  {
  }

  lemma GroupIsRead(ts: Source, i: nat, e: Expr, j: nat, d: nat)
    requires i + 1 < |ts| && j < |ts| && ts[i].kind == LParen && ts[j].kind == RParen && d + COST_GROUP <= NEST_MAX
    requires ParseLevel(ts, 0, i + 1, d + COST_GROUP) == Tree(e, j)
    ensures ParseLevel(ts, 7, i, d) == Tree(e, j + 1)
  {
    assert ParsePrimary(ts, i, d) == Tree(e, j + 1);
  }

  lemma TermIsRead(ts: Source, i: nat, d: nat)
    requires i + 1 < |ts| && IsTerm(ts[i]) && !CallLike(ts[i], ts[i + 1])
    ensures ParseLevel(ts, 7, i, d) == Tree(TermTree(ts[i]), i + 1)
  {
    assert ParsePrimary(ts, i, d) == Tree(TermTree(ts[i]), i + 1);
  }

  lemma ParenStops(ts: Source, j: nat)
    requires j < |ts| && ts[j].kind == RParen
    ensures Stops(ts, 0, j) && forall t :: !CallLike(t, ts[j])
  {
  }

  // ---- Everything read is a phrase -------------------------------------------

  predicate Shallow(e: Expr)
  {
    match e
    case Plus(a) => Shallow(a)
    case Neg(a) => Shallow(a)
    case Not(a) => Shallow(a)
    case Bin(_, l, r) => Shallow(l) && Shallow(r)
    case Call(_, a) => ShallowArgs(a)
    case TooDeep => false
    case CallTooDeep(_) => false
    case _ => true
  }

  predicate ShallowArgs(a: Args)
  {
    match a case NoArgs => true case Arg(b, e) => ShallowArgs(b) && Shallow(e) case Omitted(b) => ShallowArgs(b)
  }

  /** No comma among the tokens from i up to j merely continues a line. */
  predicate Unbroken(ts: Source, i: nat, j: nat)
  {
    forall x :: i <= x < j ==> !IsContinuation(ts, x)
  }

  /** p is what stands in ts from i up to j, and means e. */
  ghost predicate Reads(ts: Source, i: nat, j: nat, p: Phrase, e: Expr)
  {
    WellFormed(p) && TreeOf(p) == e && i + |Written(p)| == j < |ts| && Stands(ts, i, Written(p)) && !CallLike(Last(p), ts[j])
  }

  lemma SignFound(ts: Source, i: nat, k: nat)
    requires i < |ts| && k <= 6 && OpAt(ts, k, i).Some? && OpAt(ts, k, i).value.1 > 0
    ensures var (op, n) := OpAt(ts, k, i).value;
            i + n < |ts| && Spells(ts[i..i + n], k, op)
  {
    hide BarrierWord, Adjacent;
    var (op, n) := OpAt(ts, k, i).value;
    var s: Source := ts[i..i + n] + [END];
    assert s[0] == ts[i] && s[n] == END;
    if n >= 2 { assert s[1] == ts[i + 1]; }
    if n >= 3 { assert s[2] == ts[i + 2]; }
  }

  /** Whatever the descent accepts within the nesting limit is a phrase of its level with that tree. */
  lemma {:induction false} ReadIsPhrase(ts: Source, k: nat, i: nat, d: nat) returns (p: Phrase)
    requires i < |ts| && k <= 7 && d <= NEST_MAX
    requires ParseLevel(ts, k, i, d).Tree? && Shallow(ParseLevel(ts, k, i, d).e)
    requires Unbroken(ts, i, ParseLevel(ts, k, i, d).next)
    ensures Level(p) >= k && d + Cost(p) <= 40
    ensures Reads(ts, i, ParseLevel(ts, k, i, d).next, p, ParseLevel(ts, k, i, d).e)
    decreases |ts| - i, 4 * (9 - k)
  {
    hide OpAt, Reads, WellFormed, TreeOf, Written, ParsePrimary, ParseRest;
    var (e, j) := (ParseLevel(ts, k, i, d).e, ParseLevel(ts, k, i, d).next);
    if k < 7 {
      var x := ParseLevel(ts, k + 1, i, d);
      RestGrows(ts, k, x.next, d, x.e);
      var l := ReadIsPhrase(ts, k + 1, i, d);
      p := RestIsPhrase(ts, k, i, x.next, d, l, x.e);
    } else if IsSign(ts[i]) {
      PrefixFound(ts, i, d);
      var q := ReadIsPhrase(ts, 7, i + 1, d + COST_PREFIX);
      p := Prefixed(ts[i], q);
      PrefixReads(ts, i, j, q, ParseLevel(ts, 7, i + 1, d + COST_PREFIX).e);
    } else {
      p := PrimaryIsPhrase(ts, i, d);
    }
  }

  lemma PrefixFound(ts: Source, i: nat, d: nat)
    requires i < |ts| && IsSign(ts[i]) && ParseLevel(ts, 7, i, d).Tree? && Shallow(ParseLevel(ts, 7, i, d).e)
    ensures i + 1 < |ts| && d + COST_PREFIX <= NEST_MAX
    ensures var x, y := ParseLevel(ts, 7, i + 1, d + COST_PREFIX), ParseLevel(ts, 7, i, d);
            x.Tree? && y.next == x.next && Shallow(x.e)
            && y.e == (if ts[i].kind == NotSign then Not(x.e) else if ts[i].text[0] == '-' then Neg(x.e) else Plus(x.e))
  {
    hide ParsePrimary;
  }

  lemma PrefixReads(ts: Source, i: nat, j: nat, q: Phrase, e: Expr)
    requires i < |ts| && IsSign(ts[i]) && Level(q) >= 7 && Reads(ts, i + 1, j, q, e)
    ensures Reads(ts, i, j, Prefixed(ts[i], q),
                  if ts[i].kind == NotSign then Not(e) else if ts[i].text[0] == '-' then Neg(e) else Plus(e))
  {
    hide Adjacent;
    assert Stands(ts, i, [ts[i]]);
    StandsSplit(ts, i, [ts[i]], Written(q));
    assert Last(Prefixed(ts[i], q)) == Last(q);
  }

  lemma RestGrows(ts: Source, k: nat, i: nat, d: nat, l: Expr)
    requires i < |ts| && k <= 6 && ParseRest(ts, k, i, d, l).Tree? && Shallow(ParseRest(ts, k, i, d, l).e)
    ensures Shallow(l)
    decreases |ts| - i
  {
    hide OpAt, ParseLevel, Refuse;
    if OpAt(ts, k, i).Some? {
      var (op, n) := OpAt(ts, k, i).value;
      var x := ParseOperand(ts, k, i + n, d);
      assert x.Tree?;
      if k != 2 {
        Progress(ts, k, i, d);
        RestGrows(ts, k, x.next, d, Bin(op, l, x.e));
      }
    }
  }

  lemma {:induction false} RestIsPhrase(ts: Source, k: nat, i0: nat, i: nat, d: nat, l: Phrase, e: Expr) returns (p: Phrase)
    requires i0 < i < |ts| && k <= 6 && d <= NEST_MAX && Level(l) >= (if k == 2 then 3 else k) && d + Cost(l) <= NEST_MAX
    requires Reads(ts, i0, i, l, e)
    requires ParseRest(ts, k, i, d, e).Tree? && Shallow(ParseRest(ts, k, i, d, e).e)
    requires Unbroken(ts, i, ParseRest(ts, k, i, d, e).next)
    ensures Level(p) >= k && d + Cost(p) <= NEST_MAX
    ensures Reads(ts, i0, ParseRest(ts, k, i, d, e).next, p, ParseRest(ts, k, i, d, e).e)
    decreases |ts| - i, 4 * (9 - k) + 1
  {
    hide OpAt, Reads, WellFormed, TreeOf, Written, ParseLevel, Refuse;
    if OpAt(ts, k, i).None? {
      p := l;
    } else {
      var (op, n) := OpAt(ts, k, i).value;
      Progress(ts, k, i, d);
      var x := ParseOperand(ts, k, i + n, d);
      if k != 2 { RestGrows(ts, k, x.next, d, Bin(op, e, x.e)); }
      OperandFound(ts, k, i + n, d);
      var r := ReadIsPhrase(ts, k + 1, i + n, d + COST_OPERATOR);
      p := Infix(k, op, ts[i..i + n], l, r);
      InfixReads(ts, i0, i, x.next, p, e, x.e);
      if k != 2 { p := RestIsPhrase(ts, k, i0, x.next, d, p, Bin(op, e, x.e)); }
    }
  }

  lemma OperandFound(ts: Source, k: nat, i: nat, d: nat)
    requires i < |ts| && k <= 6 && ParseOperand(ts, k, i, d).Tree? && Shallow(ParseOperand(ts, k, i, d).e)
    ensures d + COST_OPERATOR <= NEST_MAX && ParseOperand(ts, k, i, d) == ParseLevel(ts, k + 1, i, d + COST_OPERATOR)
  {
    hide ParseLevel;
  }

  lemma InfixReads(ts: Source, i0: nat, i: nat, j: nat, p: Phrase, e: Expr, f: Expr)
    requires p.Infix? && i < |ts| && p.k <= 6 && OpAt(ts, p.k, i) == Some((p.op, |p.sign|)) && i + |p.sign| < |ts|
    requires p.sign == ts[i..i + |p.sign|]
    requires Reads(ts, i0, i, p.l, e) && Reads(ts, i + |p.sign|, j, p.r, f)
    requires Level(p.r) >= p.k + 1 && Level(p.l) >= (if p.k == 2 then 3 else p.k)
    ensures Reads(ts, i0, j, p, Bin(p.op, e, f))
  {
    hide OpAt, Adjacent, Stands, BarrierWord, CanFollow, Spells, WellFormed, TreeOf, Written, CallLike;
    var a, b := Written(p.l), Written(p.r);
    assert Stands(ts, i, p.sign) by { SliceIsThere(ts, i, |p.sign|); }
    StandsSplit(ts, i0, a, p.sign);
    StandsSplit(ts, i0, a + p.sign, b);
    StandsAt(ts, i0, a, |a| - 1);
    StandsAt(ts, i + |p.sign|, b, 0);
    if p.sign != [] { SignFound(ts, i, p.k); } else { ValueFound(ts, i, p.k); }
    InfixFormed(p);
  }

  lemma SliceIsThere(ts: Source, i: nat, n: nat)
    requires i + n <= |ts|
    ensures Stands(ts, i, ts[i..i + n])
  {
  }

  lemma SameLast(a: seq<Token>, b: seq<Token>)
    requires |b| >= 1
    ensures (a + b)[|a + b| - 1] == b[|b| - 1]
  {
  }

  lemma ValueFound(ts: Source, i: nat, k: nat)
    requires 1 <= i < |ts| && k <= 6 && OpAt(ts, k, i).Some? && OpAt(ts, k, i).value.1 == 0
    ensures k == 3 && CanFollow(ts[i])
    ensures OpAt(ts, k, i).value.0 == (if Adjacent(ts[i - 1], ts[i]) then Concat else BConcat)
  {
    hide BarrierWord, Adjacent;
  }

  lemma PrimaryIsPhrase(ts: Source, i: nat, d: nat) returns (p: Phrase)
    requires i < |ts| && !IsSign(ts[i]) && d <= NEST_MAX && ParseLevel(ts, 7, i, d).Tree?
    requires Shallow(ParseLevel(ts, 7, i, d).e) && Unbroken(ts, i, ParseLevel(ts, 7, i, d).next)
    ensures Level(p) >= 7 && d + Cost(p) <= NEST_MAX
    ensures Reads(ts, i, ParseLevel(ts, 7, i, d).next, p, ParseLevel(ts, 7, i, d).e)
    decreases |ts| - i, 3
  {
    hide OpAt, Adjacent, Reads, WellFormed, TreeOf, Written, StringBody, BarrierWord, TermTree, IsTerm;
    assert ParseLevel(ts, 7, i, d) == ParsePrimary(ts, i, d);
    assert !IsContinuation(ts, i);
    if ts[i].kind == LParen {
      OpenFound(ts, i, d);
      var x := ParseLevel(ts, 0, i + 1, d + COST_GROUP);
      var q := ReadIsPhrase(ts, 0, i + 1, d + COST_GROUP);
      p := Group(ts[i], q, ts[x.next]);
      GroupReads(ts, i, x.next, q, x.e);
    } else if CallLike(ts[i], Tok(ts, i + 1)) {
      NameIsCalled(ts, i, d);
      p := CallIsPhrase(ts, i, d);
    } else {
      p := Term(ts[i]);
      TermReads(ts, i, d);
    }
  }

  lemma CallIsPhrase(ts: Source, i: nat, d: nat) returns (p: Phrase)
    requires i + 1 < |ts| && CallLike(ts[i], ts[i + 1]) && d <= NEST_MAX && ParseCall(ts, i, d).Tree?
    requires Shallow(ParseCall(ts, i, d).e) && Unbroken(ts, i, ParseCall(ts, i, d).next)
    ensures Level(p) >= 7 && d + Cost(p) <= NEST_MAX
    ensures Reads(ts, i, ParseCall(ts, i, d).next, p, ParseCall(ts, i, d).e)
    decreases |ts| - i, 2
  {
    hide OpAt, Adjacent, Reads, WellFormed, TreeOf, Written, WrittenItems, WellItems, ParseArgs, ParsesItems;
    CallFound(ts, i, d);
    if ts[i + 2].kind == RParen {
      p := Bare(ts[i], ts[i + 1], ts[i + 2]);
      BareReads(ts, i);
    } else {
      var x := ParseArgs(ts, i + 2, d + COST_GROUP, NoArgs);
      var it := ArgsArePhrases(ts, i + 2, d + COST_GROUP, NoArgs);
      p := Applied(ts[i], ts[i + 1], it);
      CallReads(ts, i, x.next, it, x.a, d);
    }
  }

  lemma CallFound(ts: Source, i: nat, d: nat)
    requires i + 1 < |ts| && ts[i].kind != RParen && ts[i + 1].kind == LParen && ParseCall(ts, i, d).Tree? && Shallow(ParseCall(ts, i, d).e)
    ensures i + 2 < |ts| && d + COST_GROUP <= NEST_MAX
    ensures ts[i + 2].kind == RParen ==> ParseCall(ts, i, d) == Tree(Call(ts[i].upper, NoArgs), i + 3)
    ensures ts[i + 2].kind != RParen ==>
              var x := ParseArgs(ts, i + 2, d + COST_GROUP, NoArgs);
              x.List? && ParseCall(ts, i, d) == Tree(Call(ts[i].upper, x.a), x.next) && ShallowArgs(x.a)
  {
    hide ParseArgs;
  }

  lemma BareReads(ts: Source, i: nat)
    requires i + 3 < |ts| && CallLike(ts[i], ts[i + 1]) && ts[i + 2].kind == RParen
    ensures Reads(ts, i, i + 3, Bare(ts[i], ts[i + 1], ts[i + 2]), Call(ts[i].upper, NoArgs))
  {
    hide Adjacent;
    SliceIsThere(ts, i, 3);
    assert ts[i..i + 3] == [ts[i], ts[i + 1], ts[i + 2]];
  }

  /** it is what stands in ts from i up to j, and means a behind acc. */
  ghost predicate ParsesItems(ts: Source, i: nat, j: nat, it: Items, acc: Args, a: Args)
  {
    WellItems(it) && ArgsOf(it, acc) == a && i + |WrittenItems(it)| == j < |ts| && Stands(ts, i, WrittenItems(it))
    && CountA(acc) + CountItems(it) <= MAX_ARGS && ts[j - 1].kind == RParen
  }

  lemma CallReads(ts: Source, i: nat, j: nat, it: Items, a: Args, d: nat)
    requires i + 2 < |ts| && CallLike(ts[i], ts[i + 1]) && ts[i + 2].kind != RParen && ParsesItems(ts, i + 2, j, it, NoArgs, a)
    ensures Reads(ts, i, j, Applied(ts[i], ts[i + 1], it), Call(ts[i].upper, a))
  {
    hide Adjacent, BarrierWord, CallLike, OpAt;
    var p := Applied(ts[i], ts[i + 1], it);
    SliceIsThere(ts, i, 2);
    assert ts[i..i + 2] == [ts[i], ts[i + 1]];
    StandsAt(ts, i + 2, WrittenItems(it), 0);
    OnlyEmpty(it);
    assert WellFormed(p) && TreeOf(p) == Call(ts[i].upper, a) && Written(p) == [ts[i], ts[i + 1]] + WrittenItems(it);
    hide Written, WellFormed, TreeOf, Stands, WrittenItems;
    StandsSplit(ts, i, [ts[i], ts[i + 1]], WrittenItems(it));
    StandsAt(ts, i + 2, WrittenItems(it), |WrittenItems(it)| - 1);
    SameLast([ts[i], ts[i + 1]], WrittenItems(it));
    NoNameAt(ts[j - 1], ts[j]);
  }

  lemma OnlyEmpty(it: Items)
    ensures it.LastItem? && it.s.Empty? && WellItems(it) ==> WrittenItems(it)[0].kind == RParen
  {
  }

  lemma {:induction false} ArgsArePhrases(ts: Source, i: nat, d: nat, acc: Args) returns (it: Items)
    requires i < |ts| && d <= NEST_MAX && ParseArgs(ts, i, d, acc).List? && ShallowArgs(ParseArgs(ts, i, d, acc).a)
    requires Unbroken(ts, i, ParseArgs(ts, i, d, acc).next)
    ensures d + CostItems(it) <= NEST_MAX
    ensures ParsesItems(ts, i, ParseArgs(ts, i, d, acc).next, it, acc, ParseArgs(ts, i, d, acc).a)
    decreases |ts| - i, 50
  {
    hide OpAt, Adjacent, Reads, WellFormed, TreeOf, Written, WellItems, WrittenItems, ParseLevel, ParseArgs,
         ParseSeparator, ParsesItems, CallLike, ArgsOf, Stands, CountItems;
    SlotFound(ts, i, d, acc);
    var s, j := Empty, i;
    if ts[i].kind != Comma && ts[i].kind != RParen {
      var x := ParseLevel(ts, 0, i, d);
      SeparatorShallow(ts, x.next, d, Arg(acc, x.e));
      var q := ReadIsPhrase(ts, 0, i, d);
      s, j := Filled(q), x.next;
      SlotReads(ts, i, j, q, x.e);
    } else {
      NothingReads(ts, i);
    }
    var acc1 := WithSlot(s, acc);
    SeparatorFound(ts, j, d, acc1);
    if ts[j].kind == RParen {
      it := LastItem(s, ts[j]);
      LastReads(ts, i, j, s, acc);
    } else {
      var rest := ArgsArePhrases(ts, j + 1, d, acc1);
      it := NextItem(s, ts[j], rest);
      NextReads(ts, i, j, s, rest, acc, ParseArgs(ts, i, d, acc));
    }
  }

  lemma SlotFound(ts: Source, i: nat, d: nat, acc: Args)
    requires i < |ts| && ParseArgs(ts, i, d, acc).List?
    ensures CountA(acc) < MAX_ARGS
    ensures if ts[i].kind == Comma || ts[i].kind == RParen then ParseArgs(ts, i, d, acc) == ParseSeparator(ts, i, d, Omitted(acc))
            else ParseLevel(ts, 0, i, d).Tree?
                 && ParseArgs(ts, i, d, acc) == ParseSeparator(ts, ParseLevel(ts, 0, i, d).next, d, Arg(acc, ParseLevel(ts, 0, i, d).e))
  {
    hide ParseLevel, ParseSeparator;
  }

  lemma SeparatorFound(ts: Source, j: nat, d: nat, acc: Args)
    requires j < |ts| && ParseSeparator(ts, j, d, acc).List?
    ensures ts[j].kind == RParen || ts[j].kind == Comma
    ensures ts[j].kind == RParen ==> ParseSeparator(ts, j, d, acc) == List(acc, j + 1)
    ensures ts[j].kind == Comma ==> j + 1 < |ts| && ParseSeparator(ts, j, d, acc) == ParseArgs(ts, j + 1, d, acc)
  {
    hide ParseArgs;
  }

  /** The arguments so far are among all. */
  lemma {:induction false} SeparatorShallow(ts: Source, j: nat, d: nat, acc: Args)
    requires j < |ts| && ParseSeparator(ts, j, d, acc).List? && ShallowArgs(ParseSeparator(ts, j, d, acc).a)
    ensures ShallowArgs(acc)
    decreases |ts| - j
  {
    hide ParseLevel, ParseSeparator, ParseArgs;
    SeparatorFound(ts, j, d, acc);
    if ts[j].kind == Comma {
      SlotFound(ts, j + 1, d, acc);
      if ts[j + 1].kind == Comma || ts[j + 1].kind == RParen {
        SeparatorShallow(ts, j + 1, d, Omitted(acc));
      } else {
        var x := ParseLevel(ts, 0, j + 1, d);
        SeparatorShallow(ts, x.next, d, Arg(acc, x.e));
      }
    }
  }

  /** A slot with its tokens from i up to j. */
  ghost predicate SlotAt(ts: Source, i: nat, j: nat, s: Slot)
  {
    WellSlot(s) && i + |WrittenSlot(s)| == j < |ts| && Stands(ts, i, WrittenSlot(s))
  }

  lemma SlotReads(ts: Source, i: nat, j: nat, q: Phrase, e: Expr)
    requires Reads(ts, i, j, q, e)
    ensures SlotAt(ts, i, j, Filled(q)) && TreeOf(q) == e
  {
    hide Written, WellFormed, TreeOf, Stands, CallLike;
  }

  lemma NothingReads(ts: Source, i: nat)
    requires i < |ts|
    ensures SlotAt(ts, i, i, Empty)
  {
  }

  lemma LastReads(ts: Source, i: nat, j: nat, s: Slot, acc: Args)
    requires SlotAt(ts, i, j, s) && ts[j].kind == RParen && j + 1 < |ts| && CountA(acc) < MAX_ARGS
    ensures ParsesItems(ts, i, j + 1, LastItem(s, ts[j]), acc, WithSlot(s, acc))
  {
    hide Written, WellFormed, TreeOf, Stands;
    OneThere(ts, j);
    StandsSplit(ts, i, WrittenSlot(s), [ts[j]]);
  }

  lemma NextReads(ts: Source, i: nat, j: nat, s: Slot, rest: Items, acc: Args, x: ParsedArgs)
    requires SlotAt(ts, i, j, s) && ts[j].kind == Comma && j + 1 < |ts| && x.List?
    requires ParsesItems(ts, j + 1, x.next, rest, WithSlot(s, acc), x.a)
    ensures ParsesItems(ts, i, x.next, NextItem(s, ts[j], rest), acc, x.a)
  {
    hide Written, WellFormed, TreeOf, Stands;
    OneThere(ts, j);
    StandsSplit(ts, i, WrittenSlot(s), [ts[j]]);
    StandsSplit(ts, i, WrittenSlot(s) + [ts[j]], WrittenItems(rest));
  }

  lemma OpenFound(ts: Source, i: nat, d: nat)
    requires i < |ts| && ts[i].kind == LParen && ParsePrimary(ts, i, d).Tree? && Shallow(ParsePrimary(ts, i, d).e)
    ensures i + 1 < |ts| && d + COST_GROUP <= NEST_MAX
    ensures var x := ParseLevel(ts, 0, i + 1, d + COST_GROUP);
            x.Tree? && ts[x.next].kind == RParen && ParsePrimary(ts, i, d) == Tree(x.e, x.next + 1)
  {
    hide ParseLevel;
  }

  lemma GroupReads(ts: Source, i: nat, j: nat, q: Phrase, e: Expr)
    requires i < |ts| && ts[i].kind == LParen && j + 1 < |ts| && ts[j].kind == RParen && Reads(ts, i + 1, j, q, e)
    ensures Reads(ts, i, j + 1, Group(ts[i], q, ts[j]), e)
  {
    hide Adjacent, Stands, BarrierWord, CallLike, OpAt;
    var g := Group(ts[i], q, ts[j]);
    assert Written(g) == [ts[i]] + Written(q) + [ts[j]];
    assert WellFormed(g) && TreeOf(g) == e;
    hide Written, WellFormed, TreeOf;
    OneThere(ts, i);
    OneThere(ts, j);
    StandsSplit(ts, i, [ts[i]], Written(q));
    StandsSplit(ts, i, [ts[i]] + Written(q), [ts[j]]);
    SameLast([ts[i]] + Written(q), [ts[j]]);
    NoNameAt(ts[j], ts[j + 1]);
  }

  lemma OneThere(ts: Source, i: nat)
    requires i < |ts|
    ensures Stands(ts, i, [ts[i]])
  {
  }

  lemma NoNameAt(a: Token, b: Token)
    requires a.kind == RParen
    ensures !CallLike(a, b)
  {
  }

  lemma TermReads(ts: Source, i: nat, d: nat)
    requires i < |ts| && ts[i].kind != LParen && !IsContinuation(ts, i) && ParsePrimary(ts, i, d).Tree? && !CallLike(ts[i], Tok(ts, i + 1))
    ensures i + 1 < |ts| && Reads(ts, i, i + 1, Term(ts[i]), ParsePrimary(ts, i, d).e) && ParsePrimary(ts, i, d).next == i + 1
  {
    hide Adjacent, StringBody, ParseLevel;
    SliceIsThere(ts, i, 1);
    assert ts[i..i + 1] == [ts[i]];
  }

  // ---- Every tree can be written ---------------------------------------------

  function LevelOf(op: BinOp): (k: nat)
    ensures k <= 6
  {
    match op
    case Xor => 0 case Or => 0 case And => 1
    case Concat => 3 case BConcat => 3
    case Add => 4 case Sub => 4
    case Mul => 5 case Div => 5 case IDiv => 5 case Mod => 5
    case Power => 6
    case _ => 2
  }

  function SignText(op: BinOp): string
  {
    match op
    case Add => "+" case Sub => "-" case Mul => "*" case Div => "/" case IDiv => "%" case Mod => "//" case Power => "**"
    case Eq => "=" case Ne => "<>" case Lt => "<" case Le => "<=" case Gt => ">" case Ge => ">="
    case Deq => "==" case Dne => "\\==" case Dlt => "<<" case Dle => "<<=" case Dgt => ">>" case Dge => ">>="
    case And => "&" case Or => "|" case Xor => "&&" case Concat => "||" case BConcat => ""
  }

  function SignKind(ch: char): Kind
  {
    if ch == '&' || ch == '|' then Logical
    else if ch == '\\' then NotSign
    else if ch == '=' || ch == '<' || ch == '>' then Comparison
    else Operator
  }

  /** One token per sign character, in columns c, c + 1, ... */
  function Signs(text: string, c: nat): (s: seq<Token>)
    ensures |s| == |text|
  {
    seq(|text|, i requires 0 <= i < |text| => Token(SignKind(text[i]), [text[i]], "", false, false, false, false, 0, c + i))
  }

  function Mark(k: Kind, text: string, c: nat): Token
  {
    Token(k, text, text, false, false, false, false, 0, c)
  }

  function TreeLevel(e: Expr): nat
  {
    match e case Bin(op, _, _) => LevelOf(op) case Plus(_) => 7 case Neg(_) => 7 case Not(_) => 7 case _ => 8
  }

  /** Whether e, written for level k, starts with a token a concatenation can put behind a value. */
  predicate Leads(e: Expr, k: nat)
  {
    TreeLevel(e) < k
    || match e
       case Var(n) => !BarrierWord(n)
       case Call(n, _) => !BarrierWord(n)
       case Bin(op, l, _) => Leads(l, if LevelOf(op) == 2 then 3 else LevelOf(op))
       case Plus(_) => false
       case Neg(_) => false
       case Not(_) => false
       case _ => true
  }

  /** What can be written: a call has at most sixteen arguments, and no argument at all is not one omitted. */
  predicate Writable(e: Expr)
  {
    match e
    case Plus(a) => Writable(a)
    case Neg(a) => Writable(a)
    case Not(a) => Writable(a)
    case Bin(_, l, r) => Writable(l) && Writable(r)
    case Call(_, a) => WritableArgs(a) && CountA(a) <= MAX_ARGS && a != Omitted(NoArgs)
    case TooDeep => false
    case CallTooDeep(_) => false
    case _ => true
  }

  predicate WritableArgs(a: Args)
  {
    match a case NoArgs => true case Arg(b, e) => WritableArgs(b) && Writable(e) case Omitted(b) => WritableArgs(b)
  }

  /** e written on one line from column c on, with blanks between all values; parentheses only where
  the level of e is too low or, behind a blank concatenation, where e could not start.
  The second component is the first column behind it and a blank. */
  function Show(e: Expr, k: nat, c: nat): (r: (Phrase, nat))
    requires Writable(e)
    ensures First(r.0).col >= c && First(r.0).line == 0
    ensures Last(r.0).line == 0 && Last(r.0).kind !in {HexString, BinString}
    ensures Last(r.0).col + |Last(r.0).text| + (if Last(r.0).kind == String then 2 else 0) < r.1
    decreases e, 1
  {
    if TreeLevel(e) >= k then ShowOpen(e, c)
    else
      var (p, c1) := ShowOpen(e, c + 2);
      (Group(Mark(LParen, "(", c), p, Mark(RParen, ")", c1)), c1 + 2)
  }

  function ShowOpen(e: Expr, c: nat): (r: (Phrase, nat))
    requires Writable(e)
    ensures First(r.0).col >= c && First(r.0).line == 0
    ensures Last(r.0).line == 0 && Last(r.0).kind !in {HexString, BinString}
    ensures Last(r.0).col + |Last(r.0).text| + (if Last(r.0).kind == String then 2 else 0) < r.1
    decreases e, 0
  {
    match e
    case Str(s) => (Term(Mark(String, s, c)), c + |s| + 3)
    case Lit(s) => (Term(Mark(Number, s, c)), c + |s| + 1)
    case Var(n) => (Term(Mark(Symbol, n, c)), c + |n| + 1)
    case Plus(a) => Behind(Mark(Operator, "+", c), Show(a, 7, c + 2))
    case Neg(a) => Behind(Mark(Operator, "-", c), Show(a, 7, c + 2))
    case Not(a) => Behind(Mark(NotSign, "\\", c), Show(a, 7, c + 2))
    case Bin(op, l, r) =>
      var k := LevelOf(op);
      var (pl, c1) := Show(l, if k == 2 then 3 else k, c);
      var sign := Signs(SignText(op), c1);
      Between(pl, k, op, sign, Show(r, if op.BConcat? && !Leads(r, k + 1) then 9 else k + 1, c1 + |sign| + 1))
    case Call(n, a) =>
      var name, open := Mark(Symbol, n, c), Mark(LParen, "(", c + |n|);
      if a.NoArgs? then (Bare(name, open, Mark(RParen, ")", c + |n| + 1)), c + |n| + 3)
      else
        var ss := ShowArgs(a, c + |n| + 1);
        LastWritten(ss);
        (Applied(name, open, ItemsOf(ss)), ss[|ss| - 1].1 + 2)
  }

  /** Every argument, and the column of the comma or parenthesis behind it. */
  function ShowArgs(a: Args, c: nat): (r: seq<(Slot, nat)>)
    requires WritableArgs(a)
    ensures |r| == CountA(a)
    decreases a
  {
    match a
    case NoArgs => []
    case Omitted(b) =>
      var before := ShowArgs(b, c);
      before + [(Empty, NextColumn(before, c))]
    case Arg(b, e) =>
      var before := ShowArgs(b, c);
      var (p, c1) := Show(e, 0, NextColumn(before, c));
      before + [(Filled(p), c1)]
  }

  /** The column behind what is written so far. */
  function NextColumn(before: seq<(Slot, nat)>, c: nat): nat
  {
    if before == [] then c else before[|before| - 1].1 + 1
  }

  function ItemsOf(ss: seq<(Slot, nat)>): Items
    requires ss != []
  {
    if |ss| == 1 then LastItem(ss[0].0, Mark(RParen, ")", ss[0].1))
    else NextItem(ss[0].0, Mark(Comma, ",", ss[0].1), ItemsOf(ss[1..]))
  }

  lemma {:induction false} LastWritten(ss: seq<(Slot, nat)>)
    requires ss != []
    ensures WrittenItems(ItemsOf(ss))[|WrittenItems(ItemsOf(ss))| - 1] == Mark(RParen, ")", ss[|ss| - 1].1)
    decreases |ss|
  {
    if |ss| > 1 {
      LastWritten(ss[1..]);
      SameLast(WrittenSlot(ss[0].0) + [Mark(Comma, ",", ss[0].1)], WrittenItems(ItemsOf(ss[1..])));
    }
  }

  function Behind(t: Token, shown: (Phrase, nat)): (r: (Phrase, nat))
    ensures r == (Prefixed(t, shown.0), shown.1) && First(r.0) == t && Last(r.0) == Last(shown.0)
  {
    SamePlace(t, shown.0);
    (Prefixed(t, shown.0), shown.1)
  }

  function Between(left: Phrase, k: nat, op: BinOp, sign: seq<Token>, shown: (Phrase, nat)): (r: (Phrase, nat))
    ensures r == (Infix(k, op, sign, left, shown.0), shown.1) && First(r.0) == First(left) && Last(r.0) == Last(shown.0)
  {
    SameLast(Written(left) + sign, Written(shown.0));
    (Infix(k, op, sign, left, shown.0), shown.1)
  }

  lemma SamePlace(t: Token, p: Phrase)
    ensures Last(Prefixed(t, p)) == Last(p) && First(Prefixed(t, p)) == t
  {
    SameLast([t], Written(p));
  }

  lemma SignsSpell(op: BinOp, c: nat)
    requires op != BConcat
    ensures Spells(Signs(SignText(op), c), LevelOf(op), op)
  {
    hide BarrierWord, Adjacent, IsBarrier, StartsValue, CompareSign;
    if LevelOf(op) == 2 {
      CompareSpells(op, c);
    } else {
      var t := SignText(op);
      var s: Source := Signs(t, c) + [END];
      assert s[0] == Signs(t, c)[0] && s[|t|] == END;
      if |t| >= 2 { assert s[1] == Signs(t, c)[1]; }
    }
  }

  lemma CompareSpells(op: BinOp, c: nat)
    requires LevelOf(op) == 2
    ensures Spells(Signs(SignText(op), c), 2, op)
  {
    hide BarrierWord, Adjacent, IsBarrier, StartsValue;
    var t := SignText(op);
    var s: Source := Signs(t, c) + [END];
    assert s[0] == Signs(t, c)[0] && s[|t|] == END;
    if |t| >= 2 { assert s[1] == Signs(t, c)[1]; }
    if |t| >= 3 { assert s[2] == Signs(t, c)[2]; }
  }

  lemma {:induction false} ShowIsPhrase(e: Expr, k: nat, c: nat)
    requires Writable(e)
    ensures var p := Show(e, k, c).0; WellFormed(p) && TreeOf(p) == e && Level(p) >= (if k < 8 then k else 8)
    ensures Leads(e, k) ==> CanFollow(First(Show(e, k, c).0))
    decreases e, 1
  {
    hide BarrierWord, Adjacent, Spells, ShowOpen;
    if TreeLevel(e) >= k { ShowOpenIsPhrase(e, c); } else { ShowOpenIsPhrase(e, c + 2); }
  }

  lemma {:induction false} ShowOpenIsPhrase(e: Expr, c: nat)
    requires Writable(e)
    ensures var p := ShowOpen(e, c).0; WellFormed(p) && TreeOf(p) == e && Level(p) == TreeLevel(e)
    ensures Leads(e, 0) ==> CanFollow(First(ShowOpen(e, c).0))
    decreases e, 0, 1
  {
    hide BarrierWord, Adjacent, Spells, Show, StringBody, Signs, SignText, CallLike, Leads, LevelOf;
    LeadsOpen(e);
    match e {
      case Plus(a) => ShowIsPhrase(a, 7, c + 2);
      case Neg(a) => ShowIsPhrase(a, 7, c + 2);
      case Not(a) => ShowIsPhrase(a, 7, c + 2);
      case Bin(op, l, r) => ShowBinIsPhrase(op, l, r, c);
      case Str(s) => assert StringBody(Mark(String, s, c)) == s by { BodyAsWritten(s, c); }
      case Call(n, a) =>
        ShowCallIsPhrase(n, a, c);
        hide ShowOpen, WellFormed, TreeOf;
      case _ =>
    }
  }

  lemma {:induction false} ShowCallIsPhrase(n: string, a: Args, c: nat)
    requires Writable(Call(n, a))
    ensures var p := ShowOpen(Call(n, a), c).0; WellFormed(p) && TreeOf(p) == Call(n, a) && Level(p) == 8
    ensures First(ShowOpen(Call(n, a), c).0) == Mark(Symbol, n, c)
    decreases a, 2
  {
    hide BarrierWord, Spells, Show, ShowArgs, ItemsOf, WrittenItems, WellItems, ArgsOf, CountItems, WritableArgs, Gathered, CallLike;
    NameBeforeParen(n, c);
    if !a.NoArgs? {
      var ss := ShowArgs(a, c + |n| + 1);
      ShowArgsArePhrases(a, c + |n| + 1);
      ItemsAreFormed(ss, NoArgs);
      OneOmitted(ss);
      assert ShowOpen(Call(n, a), c).0 == Applied(Mark(Symbol, n, c), Mark(LParen, "(", c + |n|), ItemsOf(ss));
      hide ShowOpen;
    }
  }

  lemma NameBeforeParen(n: string, c: nat)
    ensures CallLike(Mark(Symbol, n, c), Mark(LParen, "(", c + |n|))
  {
  }

  /** The arguments in ss behind those in acc. */
  function Gathered(ss: seq<(Slot, nat)>, acc: Args): Args
  {
    if ss == [] then acc else WithSlot(ss[|ss| - 1].0, Gathered(ss[..|ss| - 1], acc))
  }

  lemma {:induction false} ShowArgsArePhrases(a: Args, c: nat)
    requires WritableArgs(a)
    ensures forall x :: x in ShowArgs(a, c) ==> WellSlot(x.0)
    ensures Gathered(ShowArgs(a, c), NoArgs) == a
    decreases a, 1
  {
    hide Show, WellFormed, TreeOf;
    var ss := ShowArgs(a, c);
    match a {
      case NoArgs =>
      case Omitted(b) =>
        ShowArgsArePhrases(b, c);
        assert ss[..|ss| - 1] == ShowArgs(b, c);
      case Arg(b, e) =>
        ShowArgsArePhrases(b, c);
        assert ss[..|ss| - 1] == ShowArgs(b, c);
        ShowIsPhrase(e, 0, NextColumn(ShowArgs(b, c), c));
    }
  }

  lemma {:induction false} ItemsAreFormed(ss: seq<(Slot, nat)>, acc: Args)
    requires ss != [] && forall x :: x in ss ==> WellSlot(x.0)
    ensures WellItems(ItemsOf(ss)) && CountItems(ItemsOf(ss)) == |ss| && ArgsOf(ItemsOf(ss), acc) == Gathered(ss, acc)
    decreases |ss|
  {
    hide WellSlot, WithSlot;
    if |ss| > 1 {
      ItemsAreFormed(ss[1..], WithSlot(ss[0].0, acc));
      GatheredFront(ss, acc);
    } else {
      assert ss[..0] == [];
    }
  }

  lemma {:induction false} GatheredFront(ss: seq<(Slot, nat)>, acc: Args)
    requires ss != []
    ensures Gathered(ss, acc) == Gathered(ss[1..], WithSlot(ss[0].0, acc))
    decreases |ss|
  {
    hide WithSlot;
    if |ss| > 1 {
      GatheredFront(ss[..|ss| - 1], acc);
      assert ss[..|ss| - 1][1..] == ss[1..][..|ss| - 2];
    } else {
      assert ss[..0] == [] == ss[1..];
    }
  }

  lemma OneOmitted(ss: seq<(Slot, nat)>)
    requires ss != [] && Gathered(ss, NoArgs) != Omitted(NoArgs)
    ensures !(ItemsOf(ss).LastItem? && ItemsOf(ss).s.Empty?)
  {
    if |ss| == 1 { assert ss[..0] == []; }
  }

  lemma ShowBinIsPhrase(op: BinOp, l: Expr, r: Expr, c: nat)
    requires Writable(l) && Writable(r)
    ensures var p := ShowOpen(Bin(op, l, r), c).0;
            WellFormed(p) && TreeOf(p) == Bin(op, l, r) && Level(p) == LevelOf(op)
    ensures Leads(l, if LevelOf(op) == 2 then 3 else LevelOf(op)) ==> CanFollow(First(ShowOpen(Bin(op, l, r), c).0))
    decreases Bin(op, l, r), 0, 0
  {
    hide BarrierWord, Adjacent, Spells, Show, Signs, SignText, CallLike, Leads, CanFollow, LevelOf, WellFormed, TreeOf, Written;
    var k := LevelOf(op);
    var kl := if k == 2 then 3 else k;
    var kr := if op.BConcat? && !Leads(r, k + 1) then 9 else k + 1;
    var (pl, c1) := Show(l, kl, c);
    var sign := Signs(SignText(op), c1);
    var pr := Show(r, kr, c1 + |sign| + 1).0;
    ShowIsPhrase(l, kl, c);
    ShowIsPhrase(r, kr, c1 + |sign| + 1);
    assert ShowOpen(Bin(op, l, r), c).0 == Infix(k, op, sign, pl, pr);
    if op.BConcat? {
      NoSign();
      LeadsClosed(r);
      Apart(Last(pl), First(pr));
    } else {
      SignsSpell(op, c1);
      SignTexts(op);
    }
    InfixFormed(Infix(k, op, sign, pl, pr));
  }

  lemma NoSign()
    ensures SignText(BConcat) == "" && LevelOf(BConcat) == 3
  {
  }

  lemma SignTexts(op: BinOp)
    requires op != BConcat
    ensures SignText(op) != ""
  {
  }

  lemma BodyAsWritten(s: string, c: nat)
    ensures StringBody(Mark(String, s, c)) == s
  {
  }

  lemma LeadsClosed(e: Expr)
    ensures Leads(e, 9)
  {
  }

  lemma LeadsOpen(e: Expr)
    ensures e.Bin? ==> (Leads(e, 0) <==> Leads(e.l, if LevelOf(e.op) == 2 then 3 else LevelOf(e.op)))
    ensures e.Plus? || e.Neg? || e.Not? ==> !Leads(e, 0)
    ensures e.Var? || e.Call? ==> (Leads(e, 0) <==> !BarrierWord(e.name))
  {
  }

  lemma Apart(a: Token, b: Token)
    requires a.line == b.line && a.kind !in {HexString, BinString}
    requires a.col + |a.text| + (if a.kind == String then 2 else 0) < b.col
    ensures !Adjacent(a, b) && !CallLike(a, b)
  {
  }

  /** Printing a tree with only the parentheses the table requires and reading it gives the tree back. */
  lemma PrintedIsRead(e: Expr, end: Token)
    requires Writable(e) && end.kind == Eof && Cost(Show(e, 0, 0).0) <= NEST_MAX
    ensures ParseExpr(Written(Show(e, 0, 0).0) + [end], 0) == Tree(e, |Written(Show(e, 0, 0).0)|)
  {
    hide OpAt, ParseLevel, BarrierWord, Adjacent, Show, WellFormed, TreeOf, Written, Cost, Stops, CallLike;
    var p := Show(e, 0, 0).0;
    ShowIsPhrase(e, 0, 0);
    var ts: Source := Written(p) + [end];
    assert Stands(ts, 0, Written(p));
    EndStops(ts, |Written(p)|);
    PhraseIsRead(ts, 0, p, 0, 0);
  }

  /** Nothing else can be read: the tree of every phrase can be written. */
  lemma {:induction false} PhraseIsWritable(p: Phrase)
    requires WellFormed(p)
    ensures Writable(TreeOf(p))
    decreases p
  {
    hide Spells, CanFollow, CallLike, Adjacent;
    match p {
      case Term(_) =>
      case Group(_, e, _) => PhraseIsWritable(e);
      case Prefixed(_, e) => PhraseIsWritable(e);
      case Infix(_, _, _, l, r) => PhraseIsWritable(l); PhraseIsWritable(r);
      case Bare(_, _, _) =>
      case Applied(_, _, it) => ItemsAreWritable(it, NoArgs);
    }
  }

  lemma {:induction false} ItemsAreWritable(it: Items, acc: Args)
    requires WellItems(it) && WritableArgs(acc)
    ensures WritableArgs(ArgsOf(it, acc)) && CountA(ArgsOf(it, acc)) == CountA(acc) + CountItems(it)
    ensures ArgsOf(it, acc) == Omitted(NoArgs) ==> acc == NoArgs && it.LastItem? && it.s.Empty?
    decreases it
  {
    hide WellFormed, TreeOf, Writable;
    if it.s.Filled? { PhraseIsWritable(it.s.e); }
    if it.NextItem? { ItemsAreWritable(it.rest, WithSlot(it.s, acc)); }
  }

  lemma EndStops(ts: Source, j: nat)
    requires j < |ts| && ts[j].kind == Eof
    ensures Stops(ts, 0, j) && !IsContinuation(ts, j) && forall t :: !CallLike(t, ts[j])
  {
  }
}
