/** The nesting counter, seen on the grammar's phrases: what its peak is, and expressions that need all the cells it
allows. */
module Nesting {
  import opened Options
  import opened NumberText
  import opened Bytecode
  import opened Tokens
  import opened ExprSyntax
  import opened ExprGrammar
  import opened VmValues
  import opened VarPool
  import ArithOps
  import ExprCode

  // ---- The peak is what the phrase costs ------------------------------------------------

  /** On its way through a phrase the counter peaks at the phrase's cost. */
  lemma {:induction false} PhrasePeak(ts: Source, i: nat, p: Phrase, k: nat, d: nat)
    requires WellFormed(p) && Stands(ts, i, Written(p)) && k <= 7 && Level(p) >= k && d + Cost(p) <= NEST_MAX
    requires i + |Written(p)| < |ts| && Stops(ts, k, i + |Written(p)|) && !CallLike(Last(p), ts[i + |Written(p)|])
    ensures i < |ts| && PeakLevel(ts, k, i, d) == d + Cost(p)
    decreases p, 10 - k, 1
  {
    hide OpAt, Adjacent, CallLike, Written, WellFormed, TreeOf, ParseLevel, PeakLevel, PeakRest, Stands, BarrierWord,
         CanFollow, IsSign, Spells, Cost;
    PhraseIsRead(ts, i, p, k, d);
    var j := i + |Written(p)|;
    if p.Infix? { InfixParts(p); }
    if k == 7 {
      if p.Prefixed? { PrefixPeak(ts, i, p, d); } else { PrimaryPeak(ts, i, p, d); }
    } else if k == 2 && Level(p) == 2 {
      ComparePeak(ts, i, p, d);
    } else {
      SpinePeak(ts, i, p, k, d);
      RestPeaks(ts, k, j, d);
    }
  }

  lemma RestPeaks(ts: Source, k: nat, j: nat, d: nat)
    requires j < |ts| && k <= 6 && d <= NEST_MAX && OpAt(ts, k, j).None?
    ensures PeakRest(ts, k, j, d) == d
  {
    hide OpAt;
  }

  lemma RestGoesOn(ts: Source, k: nat, i: nat, d: nat, op: BinOp, n: nat, r: Expr, j: nat)
    requires i < |ts| && k <= 6 && d + COST_OPERATOR <= NEST_MAX && OpAt(ts, k, i) == Some((op, n)) && j < |ts|
    requires ParseLevel(ts, k + 1, i + n, d + COST_OPERATOR) == Tree(r, j)
    ensures var operand := PeakLevel(ts, k + 1, i + n, d + COST_OPERATOR);
            PeakRest(ts, k, i, d) == if k == 2 then operand else Max(operand, PeakRest(ts, k, j, d))
  {
    hide OpAt, ParseLevel, PeakLevel;
    assert ParseOperand(ts, k, i + n, d) == Tree(r, j);
  }

  lemma LevelPeaks(ts: Source, k: nat, i: nat, d: nat, l: Expr, j: nat)
    requires i < |ts| && j < |ts| && k <= 6 && d <= NEST_MAX && ParseLevel(ts, k + 1, i, d) == Tree(l, j)
    ensures PeakLevel(ts, k, i, d) == Max(PeakLevel(ts, k + 1, i, d), PeakRest(ts, k, j, d))
  {
    hide ParseLevel, PeakRest, PeakPrimary;
  }

  lemma InfixCost(p: Phrase)
    requires p.Infix?
    ensures Cost(p) == Max(Cost(p.l), COST_OPERATOR + Cost(p.r))
  {
  }

  lemma {:induction false} ComparePeak(ts: Source, i: nat, p: Phrase, d: nat)
    requires p.Infix? && p.k == 2 && WellFormed(p) && Stands(ts, i, Written(p)) && d + Cost(p) <= NEST_MAX
    requires i + |Written(p)| < |ts| && Stops(ts, 2, i + |Written(p)|) && !CallLike(Last(p), ts[i + |Written(p)|])
    ensures i < |ts| && PeakLevel(ts, 2, i, d) == d + Cost(p)
    decreases p, 7, 0
  {
    hide OpAt, Adjacent, CallLike, Written, WellFormed, TreeOf, ParseRest, ParseLevel, PeakLevel, PeakRest, Stands, BarrierWord,
         CanFollow, IsSign, Spells, Cost;
    InfixParts(p);
    OperatorStands(ts, i, p);
    var m, j := i + |Written(p.l)|, i + |Written(p)|;
    SameEnd(p);
    InfixCost(p);
    PhrasePeak(ts, i, p.l, 3, d);
    PhraseIsRead(ts, i, p.l, 3, d);
    PhrasePeak(ts, m + |p.sign|, p.r, 3, d + 1);
    PhraseIsRead(ts, m + |p.sign|, p.r, 3, d + 1);
    RestGoesOn(ts, 2, m, d, p.op, |p.sign|, TreeOf(p.r), j);
    LevelPeaks(ts, 2, i, d, TreeOf(p.l), m);
  }

  /** Behind a chain of operators of one level the peak so far is the chain's. */
  lemma {:induction false} SpinePeak(ts: Source, i: nat, p: Phrase, k: nat, d: nat)
    requires WellFormed(p) && Stands(ts, i, Written(p)) && k <= 6 && Level(p) >= k && d + Cost(p) <= NEST_MAX
    requires k == 2 ==> Level(p) > 2
    requires i + |Written(p)| < |ts| && Stops(ts, k + 1, i + |Written(p)|) && !CallLike(Last(p), ts[i + |Written(p)|])
    ensures i < |ts| && PeakLevel(ts, k, i, d) == Max(d + Cost(p), PeakRest(ts, k, i + |Written(p)|, d))
    decreases p, 10 - k, 0
  {
    hide OpAt, Adjacent, CallLike, Written, WellFormed, TreeOf, ParseRest, ParseLevel, PeakLevel, PeakRest, Stands, BarrierWord,
         CanFollow, IsSign, Spells, Cost;
    var j := i + |Written(p)|;
    if Level(p) > k {
      PhrasePeak(ts, i, p, k + 1, d);
      PhraseIsRead(ts, i, p, k + 1, d);
      LevelPeaks(ts, k, i, d, TreeOf(p), j);
    } else {
      InfixParts(p);
      OperatorStands(ts, i, p);
      var m := i + |Written(p.l)|;
      SameEnd(p);
      InfixCost(p);
      SpinePeak(ts, i, p.l, k, d);
      PhrasePeak(ts, m + |p.sign|, p.r, k + 1, d + 1);
      PhraseIsRead(ts, m + |p.sign|, p.r, k + 1, d + 1);
      RestGoesOn(ts, k, m, d, p.op, |p.sign|, TreeOf(p.r), j);
    }
  }

  lemma {:induction false} PrefixPeak(ts: Source, i: nat, p: Phrase, d: nat)
    requires p.Prefixed? && WellFormed(p) && Stands(ts, i, Written(p)) && d + Cost(p) <= NEST_MAX
    requires i + |Written(p)| < |ts| && Stops(ts, 7, i + |Written(p)|) && !CallLike(Last(p), ts[i + |Written(p)|])
    ensures i < |ts| && PeakLevel(ts, 7, i, d) == d + Cost(p)
    decreases p, 3, 0
  {
    hide OpAt, Adjacent, CallLike, Stands, ParseLevel, PeakPrimary;
    StandsSplit(ts, i, [p.mark], Written(p.e));
    StandsAt(ts, i, [p.mark], 0);
    assert Last(p) == Last(p.e);
    PhrasePeak(ts, i + 1, p.e, 7, d + COST_PREFIX);
  }

  lemma {:induction false} PrimaryPeak(ts: Source, i: nat, p: Phrase, d: nat)
    requires !p.Infix? && !p.Prefixed? && WellFormed(p) && Stands(ts, i, Written(p)) && d + Cost(p) <= NEST_MAX
    requires i + |Written(p)| < |ts| && !CallLike(Last(p), ts[i + |Written(p)|])
    ensures i < |ts| && PeakLevel(ts, 7, i, d) == d + Cost(p)
    decreases p, 3, 0
  {
    hide OpAt, Adjacent, Stands, BarrierWord, ParseLevel, PeakLevel, PeakPrimary, PeakArgs;
    StandsAt(ts, i, Written(p), 0);
    match p {
      case Term(t) => TermPeaks(ts, i, d);
      case Group(_, _, _) => GroupPeak(ts, i, p, d);
      case Bare(_, _, _) =>
        StandsAt(ts, i, Written(p), 1);
        StandsAt(ts, i, Written(p), 2);
        CallPeaks(ts, i, d);
      case Applied(name, o, it) =>
        StandsAt(ts, i, Written(p), 1);
        StandsSplit(ts, i, [name, o], WrittenItems(it));
        FirstItem(it);
        StandsAt(ts, i + 2, WrittenItems(it), 0);
        CallPeaks(ts, i, d);
        ItemsPeak(ts, i + 2, it, d + COST_GROUP, 0);
    }
  }

  lemma {:induction false} GroupPeak(ts: Source, i: nat, p: Phrase, d: nat)
    requires p.Group? && WellFormed(p) && Stands(ts, i, Written(p)) && d + Cost(p) <= NEST_MAX && i + |Written(p)| < |ts|
    ensures i < |ts| && PeakLevel(ts, 7, i, d) == d + Cost(p)
    decreases p, 2
  {
    hide OpAt, Adjacent, Stands, BarrierWord, ParseLevel, PeakLevel, CallLike;
    var Group(o, e, c) := p;
    var n := |Written(e)|;
    StandsAt(ts, i, Written(p), 0);
    StandsSplit(ts, i, [o] + Written(e), [c]);
    StandsSplit(ts, i, [o], Written(e));
    StandsAt(ts, i + 1 + n, [c], 0);
    ParenStops(ts, i + 1 + n);
    PhrasePeak(ts, i + 1, e, 0, d + COST_GROUP);
    GroupPeaks(ts, i, d);
  }

  lemma TermPeaks(ts: Source, i: nat, d: nat)
    requires i + 1 < |ts| && IsTerm(ts[i]) && !CallLike(ts[i], ts[i + 1]) && d <= NEST_MAX
    ensures PeakLevel(ts, 7, i, d) == d
  {
  }

  lemma GroupPeaks(ts: Source, i: nat, d: nat)
    requires i + 1 < |ts| && ts[i].kind == LParen && d + COST_GROUP <= NEST_MAX
    ensures PeakLevel(ts, 7, i, d) == PeakLevel(ts, 0, i + 1, d + COST_GROUP)
  {
    hide ParseLevel, ParseRest, PeakRest, OpAt;
    assert PeakLevel(ts, 7, i, d) == PeakPrimary(ts, i, d);
    hide PeakLevel;
  }

  lemma CallPeaks(ts: Source, i: nat, d: nat)
    requires i + 2 < |ts| && CallLike(ts[i], ts[i + 1]) && d + COST_GROUP <= NEST_MAX
    ensures PeakLevel(ts, 7, i, d) ==
              if ts[i + 2].kind == RParen then d + COST_GROUP else PeakArgs(ts, i + 2, d + COST_GROUP, 0)
  {
    hide PeakArgs, Adjacent;
    assert PeakLevel(ts, 7, i, d) == PeakPrimary(ts, i, d);
    hide PeakLevel;
  }

  lemma {:induction false} ItemsPeak(ts: Source, i: nat, it: Items, d: nat, n: nat)
    requires WellItems(it) && Stands(ts, i, WrittenItems(it)) && d + CostItems(it) <= NEST_MAX
    requires n + CountItems(it) <= MAX_ARGS && i + |WrittenItems(it)| < |ts|
    ensures i < |ts| && PeakArgs(ts, i, d, n) == d + CostItems(it)
    decreases it, 1
  {
    hide OpAt, Adjacent, Stands, BarrierWord, ParseLevel, PeakLevel, CallLike, WrittenSlot, TreeOf, CostSlot, PeakArgs;
    var w := WrittenSlot(it.s);
    var sep := if it.LastItem? then it.close else it.comma;
    var rest := if it.LastItem? then [] else WrittenItems(it.rest);
    assert WrittenItems(it) == w + [sep] + rest;
    StandsSplit(ts, i, w + [sep], rest);
    StandsSplit(ts, i, w, [sep]);
    var j := i + |w|;
    StandsAt(ts, j, [sep], 0);
    SlotPeak(ts, i, it, d, n);
    if it.NextItem? { ItemsPeak(ts, j + 1, it.rest, d, n + 1); }
  }

  lemma {:induction false} SlotPeak(ts: Source, i: nat, it: Items, d: nat, n: nat)
    requires WellItems(it) && Stands(ts, i, WrittenSlot(it.s)) && d + CostItems(it) <= NEST_MAX
    requires n < MAX_ARGS && i + |WrittenSlot(it.s)| < |ts|
    requires ts[i + |WrittenSlot(it.s)|].kind == if it.LastItem? then RParen else Comma
    ensures var j := i + |WrittenSlot(it.s)|;
            i < |ts| && PeakArgs(ts, i, d, n) ==
              if it.LastItem? then d + CostSlot(it.s) else Max(d + CostSlot(it.s), PeakArgs(ts, j + 1, d, n + 1))
    decreases it, 0
  {
    hide OpAt, Adjacent, Stands, BarrierWord, ParseLevel, PeakLevel, CallLike, Written, WellFormed, Cost, PeakArgs;
    var j := i + |WrittenSlot(it.s)|;
    SeparatorStops(ts, j);
    match it.s {
      case Empty => SlotLeftOut(ts, i, d, n);
      case Filled(e) =>
        PhrasePeak(ts, i, e, 0, d);
        PhraseIsRead(ts, i, e, 0, d);
        StandsAt(ts, i, Written(e), 0);
        FirstToken(e);
        NoSeparator(First(e));
        SlotTaken(ts, i, d, n, TreeOf(e), j);
    }
  }

  lemma NoSeparator(t: Token)
    requires CanFollow(t) || t.kind == Symbol || IsSign(t)
    ensures t.kind != Comma && t.kind != RParen
  {
    hide BarrierWord;
  }

  lemma SlotLeftOut(ts: Source, i: nat, d: nat, n: nat)
    requires i < |ts| && d <= NEST_MAX && n < MAX_ARGS && (ts[i].kind == Comma || ts[i].kind == RParen)
    ensures ts[i].kind == RParen ==> PeakArgs(ts, i, d, n) == d
    ensures ts[i].kind == Comma ==> PeakArgs(ts, i, d, n) == PeakArgs(ts, i + 1, d, n + 1) >= d
  {
    hide ParseLevel, PeakLevel;
  }

  lemma SlotTaken(ts: Source, i: nat, d: nat, n: nat, e: Expr, j: nat)
    requires i < |ts| && d <= NEST_MAX && n < MAX_ARGS && ts[i].kind != Comma && ts[i].kind != RParen
    requires ParseLevel(ts, 0, i, d) == Tree(e, j) && j < |ts|
    ensures PeakArgs(ts, i, d, n) ==
              if ts[j].kind == Comma then Max(PeakLevel(ts, 0, i, d), PeakArgs(ts, j + 1, d, n + 1)) else PeakLevel(ts, 0, i, d)
  {
    hide ParseLevel, PeakLevel;
  }

  // ---- The bounds are reached -------------------------------------------------------------

  function Long(): string { seq(64, _ => 'x') }

  function Weakest(k: nat): BinOp
    requires k <= 6
  {
    if k == 0 then Or else if k == 1 then And else if k == 2 then Eq else if k == 3 then Concat
    else if k == 4 then Add else if k == 5 then Mul else Power
  }

  /** For r units of nesting: an operator of each level in turn, then a parenthesis, at last a literal of two cells. */
  function Steep(k: nat, r: nat): (e: Expr)
    requires k <= 7
    ensures CallFree(e) && Writable(e)
    decreases r
  {
    if r == 0 then Str(Long())
    else if k == 7 then Steep(0, r - 1)
    else Bin(Weakest(k), Var("A"), Steep(k + 1, r - 1))
  }

  lemma {:induction false} SteepNeeds(k: nat, r: nat)
    requires k <= 7
    ensures Need(Steep(k, r)) == (7 * r + 23 - k) / 8
    decreases r
  {
    if r > 0 {
      if k == 7 { SteepNeeds(0, r - 1); } else { SteepNeeds(k + 1, r - 1); }
    }
  }

  lemma {:induction false} SteepCosts(k: nat, r: nat, c: nat)
    requires k <= 7
    ensures Cost(Show(Steep(k, r), k, c).0) <= r
    decreases r
  {
    hide Show, Cost, Need;
    if r == 0 {
      LiteralCosts(k, c);
    } else if k == 7 {
      SteepCosts(0, r - 1, c);
      SteepCosts(0, r - 1, c + 2);
      GroupCosts(Steep(0, r - 1), c);
    } else {
      var c1 := OperatorCosts(k, Steep(k + 1, r - 1), c);
      SteepCosts(k + 1, r - 1, c1);
    }
  }

  lemma LiteralCosts(k: nat, c: nat)
    requires k <= 7
    ensures Cost(Show(Str(Long()), k, c).0) == 0
  {
  }

  lemma GroupCosts(e: Expr, c: nat)
    requires Writable(e)
    ensures Cost(Show(e, 7, c).0) <= COST_GROUP + Max(Cost(Show(e, 0, c).0), Cost(Show(e, 0, c + 2).0))
  {
    hide ShowOpen;
  }

  lemma OperatorCosts(k: nat, e: Expr, c: nat) returns (c1: nat)
    requires k <= 6 && Writable(e)
    ensures Cost(Show(Bin(Weakest(k), Var("A"), e), k, c).0) <= COST_OPERATOR + Cost(Show(e, k + 1, c1).0)
  {
    hide *;
    WeakestLevel(k);
    BinTree(Weakest(k), Var("A"), e);
    OpenShown(Bin(Weakest(k), Var("A"), e), k, c);
    c1 := OperatorShown(Weakest(k), e, c);
  }

  lemma BinTree(op: BinOp, l: Expr, r: Expr)
    ensures TreeLevel(Bin(op, l, r)) == LevelOf(op) && (Writable(l) && Writable(r) ==> Writable(Bin(op, l, r)))
    ensures Writable(Var("A"))
  {
    hide LevelOf;
  }

  lemma OperatorShown(op: BinOp, e: Expr, c: nat) returns (c1: nat)
    requires Writable(e) && op != BConcat
    ensures Writable(Bin(op, Var("A"), e))
    ensures Cost(ShowOpen(Bin(op, Var("A"), e), c).0) <= COST_OPERATOR + Cost(Show(e, LevelOf(op) + 1, c1).0)
  {
    hide Show, SignText, Signs, LevelOf, Leads, Cost;
    var k := LevelOf(op);
    var (pl, c0) := Show(Var("A"), if k == 2 then 3 else k, c);
    NameCosts(if k == 2 then 3 else k, c);
    c1 := c0 + |Signs(SignText(op), c0)| + 1;
    var p := Infix(k, op, Signs(SignText(op), c0), pl, Show(e, k + 1, c1).0);
    assert ShowOpen(Bin(op, Var("A"), e), c).0 == p;
    InfixCost(p);
  }

  lemma NameCosts(k: nat, c: nat)
    requires k <= 6
    ensures Cost(Show(Var("A"), k, c).0) == 0
  {
  }

  lemma WeakestLevel(k: nat)
    requires k <= 6
    ensures LevelOf(Weakest(k)) == k && Weakest(k) != BConcat
  {
  }

  lemma OpenShown(e: Expr, k: nat, c: nat)
    requires Writable(e) && TreeLevel(e) >= k
    ensures Show(e, k, c) == ShowOpen(e, c)
  {
    hide ShowOpen;
  }

  /** For every r up to 40 there is an expression at whose reading the counter peaks at r or less and which needs all the
  cells that leaves: 37 for 40. */
  lemma BoundIsReached(r: nat, end: Token)
    requires r <= NEST_MAX && end.kind == Eof
    ensures var ts: Source := Written(Show(Steep(0, r), 0, 0).0) + [end];
            && ParseExpr(ts, 0).Tree? && Need(ParseExpr(ts, 0).e) == (7 * r + 23) / 8 && PeakLevel(ts, 0, 0, 0) <= r
  {
    hide OpAt, ParseLevel, PeakLevel, BarrierWord, Adjacent, Show, WellFormed, TreeOf, Written, Cost, Stops, CallLike, Steep,
         Need, ParseExpr;
    var e := Steep(0, r);
    SteepNeeds(0, r);
    SteepCosts(0, r, 0);
    var p := Show(e, 0, 0).0;
    PrintedIsRead(e, end);
    ShowIsPhrase(e, 0, 0);
    var ts: Source := Written(p) + [end];
    assert Stands(ts, 0, Written(p)) by { StandsAlone(Written(p), end); }
    EndStops(ts, |Written(p)|);
    PhrasePeak(ts, 0, p, 0, 0);
  }

  lemma StandsAlone(s: seq<Token>, end: Token)
    ensures Stands(s + [end], 0, s)
  {
  }

  // ---- Expressions joined over line ends ---------------------------------------------------

  /** Two phrases with a comma between them that only continues the line. */
  lemma JoinedIsRead(a: Phrase, b: Phrase, comma: Token, end: Token)
    requires WellFormed(a) && WellFormed(b) && Cost(a) <= NEST_MAX && Cost(b) <= NEST_MAX
    requires comma.kind == Comma && comma.continuation && end.kind == Eof && CanFollow(First(b))
    ensures var ts: Source := Written(a) + [comma] + Written(b) + [end];
            && ParseExpr(ts, 0) == Tree(Bin(BConcat, TreeOf(a), TreeOf(b)), |ts| - 1)
            && PeakExpr(ts, 0) == Max(Cost(a), Cost(b))
  {
    hide OpAt, ParseLevel, PeakLevel, BarrierWord, Adjacent, WellFormed, TreeOf, Written, Cost, Stops, CallLike, CanFollow,
         Stands, ParseExpr, PeakExpr, Continues;
    var ts: Source := Written(a) + [comma] + Written(b) + [end];
    var i, n := |Written(a)|, |ts| - 1;
    Segments(Written(a), comma, Written(b), end);
    CommaStops(ts, i);
    EndStops(ts, n);
    GoesOn(ts, i);
    PhraseIsRead(ts, 0, a, 0, 0);
    PhrasePeak(ts, 0, a, 0, 0);
    PhraseIsRead(ts, i + 1, b, 0, 0);
    PhrasePeak(ts, i + 1, b, 0, 0);
    TwoSegments(ts, TreeOf(a), i, TreeOf(b), n);
  }

  lemma Segments(a: seq<Token>, comma: Token, b: seq<Token>, end: Token)
    requires b != []
    ensures var ts := a + [comma] + b + [end];
            && ts[|a|] == comma && ts[|a| + 1] == b[0] && |ts| == |a| + |b| + 2 && ts[|ts| - 1] == end
            && Stands(ts, 0, a) && Stands(ts, |a| + 1, b)
  {
    var ts := a + [comma] + b + [end];
    assert ts[..|a|] == a && ts[|a| + 1..|a| + 1 + |b|] == b;
  }

  lemma TwoSegments(ts: Source, a: Expr, i: nat, b: Expr, j: nat)
    requires i < |ts| && j < |ts| && Continues(ts, i) && !IsContinuation(ts, j)
    requires ParseLevel(ts, 0, 0, 0) == Tree(a, i) && ParseLevel(ts, 0, i + 1, 0) == Tree(b, j)
    ensures ParseExpr(ts, 0) == Tree(Bin(BConcat, a, b), j)
    ensures PeakExpr(ts, 0) == Max(PeakLevel(ts, 0, 0, 0), PeakLevel(ts, 0, i + 1, 0))
  {
    hide ParseLevel, PeakLevel;
    assert ParseJoined(ts, i, a) == ParseJoined(ts, j, Bin(BConcat, a, b));
    assert PeakJoined(ts, j) == 0;
  }

  lemma CommaStops(ts: Source, j: nat)
    requires j < |ts| && ts[j].kind == Comma
    ensures Stops(ts, 0, j) && forall t :: !CallLike(t, ts[j])
  {
  }

  lemma GoesOn(ts: Source, i: nat)
    requires i + 1 < |ts| && ts[i].kind == Comma && ts[i].continuation && CanFollow(ts[i + 1])
    ensures Continues(ts, i)
  {
    hide BarrierWord;
  }

  const NEXT_LINE := Token(Comma, ",", "", false, false, false, true, 0, 0)

  /** A variable and, on the next line, a literal of 64 characters: nothing nests, and three cells are taken. */
  lemma CommaTakesThree()
    ensures var ts: Source := [Mark(Symbol, "A", 0), NEXT_LINE, Mark(String, Long(), 0), END];
            ParseExpr(ts, 0).Tree? && PeakExpr(ts, 0) == 0 && Need(ParseExpr(ts, 0).e) == 3
  {
    hide ParseExpr, PeakExpr;
    var a, b := Term(Mark(Symbol, "A", 0)), Term(Mark(String, Long(), 0));
    JoinedIsRead(a, b, NEXT_LINE, END);
    assert Written(a) + [NEXT_LINE] + Written(b) + [END] == [Mark(Symbol, "A", 0), NEXT_LINE, Mark(String, Long(), 0), END];
  }

  /** The steepest expressions on the second line take one cell more than alone: 38 for 40. */
  lemma JoinedReaches(r: nat)
    requires r <= NEST_MAX
    ensures var ts: Source := [Mark(Symbol, "A", 0), NEXT_LINE] + Written(Show(Steep(0, r), 0, 0).0) + [END];
            ParseExpr(ts, 0).Tree? && PeakExpr(ts, 0) <= r && Need(ParseExpr(ts, 0).e) == (7 * r + 23) / 8 + 1
  {
    hide ParseExpr, PeakExpr, Show, Steep, Cost, WellFormed, TreeOf, Written, CanFollow;
    var e := Steep(0, r);
    SteepNeeds(0, r);
    SteepCosts(0, r, 0);
    ShowIsPhrase(e, 0, 0);
    var a, p := Term(Mark(Symbol, "A", 0)), Show(e, 0, 0).0;
    TermA();
    SteepLeads(r);
    JoinedIsRead(a, p, NEXT_LINE, END);
    assert Written(a) + [NEXT_LINE] == [Mark(Symbol, "A", 0), NEXT_LINE];
  }

  lemma TermA()
    ensures var a := Term(Mark(Symbol, "A", 0));
            WellFormed(a) && Cost(a) == 0 && TreeOf(a) == Var("A") && Written(a) == [Mark(Symbol, "A", 0)]
  {
  }

  lemma SteepLeads(r: nat)
    ensures Leads(Steep(0, r), 0)
  {
    if r > 0 { assert Steep(0, r).l == Var("A") && !BarrierWord("A"); }
  }

  // ---- Forty parentheses ------------------------------------------------------------------------

  /** A number in n pairs of parentheses at i, behind them the end or the parenthesis of another pair. */
  predicate Wrapped(ts: Source, i: nat, n: nat)
  {
    && i + 2 * n + 1 < |ts|
    && (forall j :: i <= j < i + n ==> ts[j].kind == LParen)
    && ts[i + n].kind == Number
    && (forall j :: i + n < j <= i + 2 * n ==> ts[j].kind == RParen)
    && (ts[i + 2 * n + 1].kind == RParen || ts[i + 2 * n + 1].kind == Eof)
  }

  lemma {:induction false} SkipsPairs(ts: Source, i: nat, n: nat, p: nat)
    requires Wrapped(ts, i, n) && i <= p <= i + 2 * n + 1 && ts[i + 2 * n + 1].kind == RParen
    ensures SkipToParen(ts, p, if p <= i + n then p - i else i + 2 * n + 1 - p) == Some(i + 2 * n + 1)
    decreases i + 2 * n + 1 - p
  {
    if p < i + 2 * n + 1 { SkipsPairs(ts, i, n, p + 1); }
  }

  lemma {:induction false} Lifted(ts: Source, k: nat, i: nat, d: nat, e: Expr, j: nat)
    requires i < |ts| && (ts[i].kind == LParen || ts[i].kind == Number) && ParsePrimary(ts, i, d) == Tree(e, j)
    requires j < |ts| && (ts[j].kind == RParen || ts[j].kind == Eof) && k <= 7
    ensures ParseLevel(ts, k, i, d) == Tree(e, j)
    decreases 7 - k
  {
    hide ParsePrimary, BarrierWord, Adjacent;
    if k < 7 { Lifted(ts, k + 1, i, d, e, j); }
  }

  lemma {:induction false} WrappedIsRead(ts: Source, i: nat, n: nat, d: nat)
    requires Wrapped(ts, i, n) && d <= 40 && (d > 0 ==> ts[i + 2 * n + 1].kind == RParen)
    ensures ParseLevel(ts, 0, i, d) == Tree(if d + n <= 40 then Lit(ts[i + n].text) else TooDeep, i + 2 * n + 1)
    decreases n
  {
    hide ParseLevel;
    if 0 < n && d < 40 {
      WrappedIsRead(ts, i + 1, n - 1, d + 1);
    } else if 0 < n {
      SkipsPairs(ts, i, n, i);
    }
    assert !IsContinuation(ts, i);
    Lifted(ts, 0, i, d, if d + n <= 40 then Lit(ts[i + n].text) else TooDeep, i + 2 * n + 1);
  }

  /** Forty pairs of parentheses around a number are read as that number; with more the program stops with error 39. */
  lemma FortyParentheses(ts: Source, n: nat, p: Pools, s: ArithOps.Settings)
    requires Wrapped(ts, 0, n) && ts[2 * n + 1].kind == Eof
    ensures ParseLevel(ts, 0, 0, 0).Tree? && ParseLevel(ts, 0, 0, 0).next == 2 * n + 1
    ensures ExprCode.Eval(ParseLevel(ts, 0, 0, 0).e, p, s) == if n <= 40 then Ok(ts[n].text) else Fail(39)
  {
    hide ParseLevel;
    WrappedIsRead(ts, 0, n, 0);
  }
}
