/** A PARSE template compiled: targets wait for the pattern behind them, all but the last for a word each. */
module ParseTemplates {
  import opened Options
  import opened NumberText
  import opened IntegerFastPath
  import opened VarPool
  import opened ParseMachine
  import opened ParseResults

  const MAX_ITEMS := 16

  datatype Element = Target(target: Target) | Pattern(trigger: Trigger)

  /** The targets waiting, and the pattern they wait for. */
  function Flushed(items: seq<Target>, g: Trigger): (r: seq<Op>) {
    if items == [] then [Aim(Dot), Fire(g)]
    else if |items| == 1 then [Aim(items[0]), Fire(g)]
    else [Aim(items[0]), Fire(Space)] + Flushed(items[1..], g)
  }

  /** Targets beyond the sixteenth of a section are not kept. */
  function Waiting(items: seq<Target>, t: Target): (r: seq<Target>) {
    if |items| < MAX_ITEMS then items + [t] else items
  }

  function Compiled(elements: seq<Element>, items: seq<Target>): (r: seq<Op>)
    decreases |elements|
  {
    if elements == [] then (if items == [] then [] else Flushed(items, End))
    else match elements[0]
         case Target(t) => Compiled(elements[1..], Waiting(items, t))
         case Pattern(g) => Flushed(items, g) + Compiled(elements[1..], [])
  }

  class TemplateCompiler {
    var code: seq<Op>

    constructor ()
      ensures code == []
    {
      code := [];
    }

    method Flush(items: seq<Target>, g: Trigger)
      modifies this
      ensures code == old(code) + Flushed(items, g)
    {
      var i := 0;
      while i < |items| - 1
        invariant 0 <= i && (items != [] ==> i <= |items| - 1) && (items == [] ==> i == 0)
        invariant code + Flushed(items[i..], g) == old(code) + Flushed(items, g)
      {
        assert items[i..][0] == items[i] && items[i..][1..] == items[i + 1..];
        ghost var before := code;
        code := code + [Aim(items[i])];
        code := code + [Fire(Space)];
        assert code == before + [Aim(items[i]), Fire(Space)];
        i := i + 1;
      }
      ghost var before := code;
      if |items| == 0 {
        code := code + [Aim(Dot)];
      } else {
        code := code + [Aim(items[|items| - 1])];
        assert items[i..] == [items[i]];
      }
      code := code + [Fire(g)];
      assert code == before + Flushed(items[i..], g);
    }

    method Template(elements: seq<Element>)
      modifies this
      ensures code == old(code) + Compiled(elements, [])
    {
      var items: seq<Target> := [];
      var k := 0;
      while k < |elements|
        invariant 0 <= k <= |elements|
        invariant code + Compiled(elements[k..], items) == old(code) + Compiled(elements, [])
      {
        assert elements[k..][0] == elements[k] && elements[k..][1..] == elements[k + 1..];
        match elements[k] {
          case Pattern(g) =>
            ghost var before := code;
            Flush(items, g);
            assert code + Compiled(elements[k + 1..], []) == before + (Flushed(items, g) + Compiled(elements[k + 1..], []));
            items := [];
          case Target(t) =>
            if |items| < MAX_ITEMS {
              items := items + [t];
            }
        }
        k := k + 1;
      }
      if |items| > 0 {
        Flush(items, End);
      }
    }
  }

  // ----- what a template assigns ------------------------------------------------

  /** Every target with the trigger that follows it: a blank before another target, the pattern behind the last one. */
  function SectionPairs(items: seq<Target>, g: Trigger): seq<(Target, Trigger)>
  {
    if items == [] then [(Dot, g)]
    else if |items| == 1 then [(items[0], g)]
    else [(items[0], Space)] + SectionPairs(items[1..], g)
  }

  function TemplatePairs(elements: seq<Element>, items: seq<Target>): seq<(Target, Trigger)>
    decreases |elements|
  {
    if elements == [] then (if items == [] then [] else SectionPairs(items, End))
    else match elements[0]
         case Target(t) => TemplatePairs(elements[1..], Waiting(items, t))
         case Pattern(g) => SectionPairs(items, g) + TemplatePairs(elements[1..], [])
  }

  function Ops(ps: seq<(Target, Trigger)>): seq<Op>
  {
    if ps == [] then [] else [Aim(ps[0].0), Fire(ps[0].1)] + Ops(ps[1..])
  }

  /** The targets that take something: no periods, and nothing directly in front of an empty literal. */
  function Taking(ps: seq<(Target, Trigger)>): seq<Target>
  {
    if ps == [] then [] else (if Takes(ps[0]) then [ps[0].0] else []) + Taking(ps[1..])
  }

  predicate Takes(p: (Target, Trigger)) { !p.0.Dot? && p.1 != Lit("") }

  /** The targets of a template that are kept, in order, and of those the ones no empty literal directly follows. */
  function Kept(elements: seq<Element>, items: seq<Target>): seq<Target>
    decreases |elements|
  {
    if elements == [] then NoDots(items)
    else match elements[0]
         case Target(t) => Kept(elements[1..], Waiting(items, t))
         case Pattern(g) =>
           NoDots(if g == Lit("") && items != [] then items[..|items| - 1] else items) + Kept(elements[1..], [])
  }

  function NoDots(items: seq<Target>): seq<Target>
  {
    if items == [] then [] else (if items[0].Dot? then [] else [items[0]]) + NoDots(items[1..])
  }

  /** The name a target has when the variables are these. */
  function NameIn(t: Target, pools: Pools): string
  {
    match t case Name(n) => n case Dot => "" case Compound(stem, tails) => Tailed(stem, tails, pools)
  }

  /** The variables after these assignments. */
  function After(pools: Pools, ws: seq<Write>): Pools
    decreases |ws|
  {
    if ws == [] then pools else After(Set(pools, ws[0].name, Cell(ws[0].text, None)), ws[1..])
  }

  predicate Stemmed(t: Target) { t.Compound? ==> t.stem != "" }

  predicate AllStemmed(ps: seq<(Target, Trigger)>) { forall i :: 0 <= i < |ps| ==> Stemmed(ps[i].0) }

  predicate Template(elements: seq<Element>)
  {
    forall i :: 0 <= i < |elements| && elements[i].Target? ==> Stemmed(elements[i].target)
  }

  /** The assignments ws go to the targets ts in order, a compound name being made of the values its tails have by then. */
  ghost predicate Went(pools: Pools, ts: seq<Target>, ws: seq<Write>)
  {
    |ws| == |ts| && forall i :: 0 <= i < |ws| ==> ws[i].name == NameIn(ts[i], After(pools, ws[..i]))
  }

  lemma WentFront(pools: Pools, t: Target, w: Write, ts: seq<Target>, ws: seq<Write>)
    requires w.name == NameIn(t, pools) && Went(Set(pools, w.name, Cell(w.text, None)), ts, ws)
    ensures Went(pools, [t] + ts, [w] + ws)
    ensures After(pools, [w] + ws) == After(Set(pools, w.name, Cell(w.text, None)), ws)
  {
    hide NameIn, Set;
    var q := Set(pools, w.name, Cell(w.text, None));
    forall i | 0 <= i < |ws| + 1
      ensures ([w] + ws)[i].name == NameIn(([t] + ts)[i], After(pools, ([w] + ws)[..i]))
    {
      if i == 0 {
        assert ([w] + ws)[..0] == [];
      } else {
        AfterFront(pools, w, ws[..i - 1]);
        assert ([w] + ws)[..i] == [w] + ws[..i - 1];
      }
    }
    AfterFront(pools, w, ws);
  }

  lemma AfterFront(pools: Pools, w: Write, ws: seq<Write>)
    ensures After(pools, [w] + ws) == After(Set(pools, w.name, Cell(w.text, None)), ws)
  {
    hide Set;
    assert ([w] + ws)[1..] == ws;
  }

  lemma {:induction false} TailedLonger(stem: string, tails: seq<Tail>, pools: Pools)
    ensures |Tailed(stem, tails, pools)| >= |stem|
    decreases |tails|
  {
    if tails != [] { TailedLonger(stem, tails[..|tails| - 1], pools); }
  }

  /** One target and its trigger. */
  lemma OnePair(f: Frame, t: Target, g: Trigger, rest: seq<Op>)
    requires Fits(f) && Stemmed(t)
    ensures var ops := [Aim(t), Fire(g)] + rest;
            match Aimed(f, t)
            case TooLong => Steps(f, ops) == TooLong && Writes(f, ops) == []
            case Going(a) =>
              var h := Fired(a, g);
              var c := CutOf(f.source, f.scan, g, f.pools);
              var w := Write(NameIn(t, f.pools), f.source[c.from..c.upto]);
              && Steps(f, ops) == Steps(h, rest)
              && Writes(f, ops) == (if Takes((t, g)) then [w] else []) + Writes(h, rest)
              && h.pools == (if Takes((t, g)) then Set(f.pools, w.name, Cell(w.text, None)) else f.pools)
  {
    hide CutOf, Set, Tailed;
    if t.Compound? { TailedLonger(t.stem, t.tails, f.pools); }
    var ops := [Aim(t), Fire(g)] + rest;
    assert ops[0] == Aim(t) && ops[1..] == [Fire(g)] + rest && ops[1..][1..] == rest;
  }

  lemma AimedIs(f: Frame, t: Target)
    ensures Aimed(f, t).TooLong? <==> t.Compound? && |NameIn(t, f.pools)| > 63
    ensures Aimed(f, t).Going? ==> Aimed(f, t).f.source == f.source && Aimed(f, t).f.scan == f.scan
  {
    hide Tailed;
  }

  /** The targets in front of the j-th pair have been dealt with; there the run ends, or a name is too long. */
  lemma {:induction false} PairsAssign(f: Frame, ps: seq<(Target, Trigger)>) returns (j: nat)
    requires Fits(f) && AllStemmed(ps)
    ensures j <= |ps| && Went(f.pools, Taking(ps[..j]), Writes(f, Ops(ps)))
    ensures if Steps(f, Ops(ps)).Going? then j == |ps|
            else j < |ps| && ps[j].0.Compound? && |NameIn(ps[j].0, After(f.pools, Writes(f, Ops(ps))))| > STR_MAX
    decreases |ps|
  {
    hide Writes, Steps, Aimed, Fired, Set, NameIn, CutOf, Stemmed;
    if ps == [] {
      NothingLeft(f);
      assert ps[..0] == [];
      j := 0;
    } else {
      var (t, g) := ps[0];
      assert AllStemmed(ps[1..]);
      OnePair(f, t, g, Ops(ps[1..]));
      AimedIs(f, t);
      if Aimed(f, t).TooLong? {
        assert ps[..0] == [];
        j := 0;
      } else {
        var h := Fired(Aimed(f, t).f, g);
        var k := PairsAssign(h, ps[1..]);
        j := k + 1;
        assert ps[..j][0] == ps[0] && ps[..j][1..] == ps[1..][..k];
        if Takes(ps[0]) {
          var c := CutOf(f.source, f.scan, g, f.pools);
          WentFront(f.pools, t, Write(NameIn(t, f.pools), f.source[c.from..c.upto]), Taking(ps[1..][..k]), Writes(h, Ops(ps[1..])));
        } else {
          assert Taking(ps[..j]) == Taking(ps[1..][..k]);
        }
      }
    }
  }

  lemma {:induction false} SectionIsPairs(items: seq<Target>, g: Trigger)
    ensures Flushed(items, g) == Ops(SectionPairs(items, g))
    ensures Taking(SectionPairs(items, g)) == NoDots(if g == Lit("") && items != [] then items[..|items| - 1] else items)
    ensures (forall i :: 0 <= i < |items| ==> Stemmed(items[i])) ==> AllStemmed(SectionPairs(items, g))
    decreases |items|
  {
    hide Stemmed;
    if |items| <= 1 {
      assert Ops([]) == [] && Taking([]) == [];
      assert items == [] ==> Stemmed(Dot) by { DotIsStemmed(); }
      if |items| == 1 { assert items[1..] == [] && items[..0] == []; }
    } else {
      SectionIsPairs(items[1..], g);
      assert SectionPairs(items, g)[1..] == SectionPairs(items[1..], g);
      NoDotsUpTo(items);
    }
  }

  lemma DotIsStemmed()
    ensures Stemmed(Dot)
  {
  }

  lemma NoDotsUpTo(items: seq<Target>)
    requires |items| > 1
    ensures NoDots(items[..|items| - 1]) == (if items[0].Dot? then [] else [items[0]]) + NoDots(items[1..][..|items| - 2])
  {
    assert items[..|items| - 1][1..] == items[1..][..|items| - 2];
  }

  lemma {:induction false} PairsJoin(a: seq<(Target, Trigger)>, b: seq<(Target, Trigger)>)
    ensures Ops(a + b) == Ops(a) + Ops(b) && Taking(a + b) == Taking(a) + Taking(b)
    decreases |a|
  {
    if a == [] {
      assert a + b == b;
    } else {
      PairsJoin(a[1..], b);
      assert (a + b)[0] == a[0] && (a + b)[1..] == a[1..] + b;
      PairsUnfold(a);
      PairsUnfold(a + b);
      hide *;
    }
  }

  lemma PairsUnfold(a: seq<(Target, Trigger)>)
    requires a != []
    ensures Ops(a) == [Aim(a[0].0), Fire(a[0].1)] + Ops(a[1..])
    ensures Taking(a) == (if Takes(a[0]) then [a[0].0] else []) + Taking(a[1..])
  {
  }

  /** A template's code is its pairs, one after another, and the targets that take something are the kept ones. */
  lemma {:induction false} TemplateIsPairs(elements: seq<Element>, items: seq<Target>)
    requires Template(elements) && forall i :: 0 <= i < |items| ==> Stemmed(items[i])
    ensures Compiled(elements, items) == Ops(TemplatePairs(elements, items)) && AllStemmed(TemplatePairs(elements, items))
    ensures Taking(TemplatePairs(elements, items)) == Kept(elements, items)
    decreases |elements|
  {
    hide Flushed, SectionPairs, Stemmed, NoDots;
    if elements == [] {
      SectionIsPairs(items, End);
      if items == [] { assert NoDots(items) == [] by { NoDotsNone(); } }
    } else {
      assert forall i :: 0 <= i < |elements| - 1 ==> elements[1..][i] == elements[i + 1];
      match elements[0]
      case Target(t) => TemplateIsPairs(elements[1..], Waiting(items, t));
      case Pattern(g) =>
        SectionIsPairs(items, g);
        TemplateIsPairs(elements[1..], []);
        PairsJoin(SectionPairs(items, g), TemplatePairs(elements[1..], []));
    }
  }

  lemma NoDotsNone()
    ensures NoDots([]) == []
  {
  }

  /**
   * A run of a template assigns each of its kept targets exactly once, in the order of the template: all sixteen at most
   * of a section but periods and a target that an empty literal directly follows.  It fails only at a compound target
   * whose name has become too long, and has then assigned those in front of it.
   */
  lemma EveryTargetOnce(f: Frame, elements: seq<Element>) returns (j: nat)
    requires Fits(f) && Template(elements)
    ensures var ps, ws := TemplatePairs(elements, []), Writes(f, Compiled(elements, []));
            && j <= |ps| && Went(f.pools, Taking(ps[..j]), ws)
            && if Steps(f, Compiled(elements, [])).Going? then Went(f.pools, Kept(elements, []), ws)
               else j < |ps| && ps[j].0.Compound? && |NameIn(ps[j].0, After(f.pools, ws))| > STR_MAX
  {
    hide Writes, Steps, Went, NameIn, After, Taking, Kept, TemplatePairs, Compiled, Ops, Template, AllStemmed;
    TemplateIsPairs(elements, []);
    var ps := TemplatePairs(elements, []);
    j := PairsAssign(f, ps);
    assert ps[..|ps|] == ps;
  }

  /** For instance a '' b over the text x: a is never assigned, b takes everything. */
  lemma EmptyPatternDrops(pools: Pools)
    ensures var elements := [Target(Name("A")), Pattern(Lit("")), Target(Name("B"))];
            && Kept(elements, []) == [Name("B")]
            && Writes(Opened("x", false, pools), Compiled(elements, [])) == [Write("B", "x")]
  {
    var elements := [Target(Name("A")), Pattern(Lit("")), Target(Name("B"))];
    DropsPairs();
    TemplateIsPairs(elements, []);
    var f, ops := Opened("x", false, pools), [Aim(Name("B")), Fire(End)];
    hide Compiled, TemplatePairs, Kept, Set, Opened;
    OnePair(f, Name("A"), Lit(""), ops);
    assert f.source == "x" && f.scan == 0 by { OpenedIs("x", pools); }
    var h := Fired(Aimed(f, Name("A")).f, Lit(""));
    OnePair(h, Name("B"), End, []);
    assert ops == [Aim(Name("B")), Fire(End)] + [];
    NothingLeft(Fired(Aimed(h, Name("B")).f, End));
    assert "x"[0..1] == "x";
  }

  lemma OpenedIs(s: string, pools: Pools)
    ensures Opened(s, false, pools).source == s && Opened(s, false, pools).scan == 0
  {
  }

  lemma DropsPairs()
    ensures var elements := [Target(Name("A")), Pattern(Lit("")), Target(Name("B"))];
            && Compiled(elements, []) == [Aim(Name("A")), Fire(Lit(""))] + [Aim(Name("B")), Fire(End)]
            && Kept(elements, []) == [Name("B")]
  {
    var elements := [Target(Name("A")), Pattern(Lit("")), Target(Name("B"))];
    assert elements[1..] == [Pattern(Lit("")), Target(Name("B"))] && elements[1..][1..] == [Target(Name("B"))]
           && elements[1..][1..][1..] == [];
    assert Waiting([], Name("A")) == [Name("A")] && Waiting([], Name("B")) == [Name("B")];
    assert [Name("A")][..0] == [] && [Name("B")][1..] == [];
    assert Kept([], [Name("B")]) == [Name("B")] + NoDots([]);
    assert Kept([Target(Name("B"))], []) == [Name("B")];
  }

  lemma NothingLeft(h: Frame)
    requires Fits(h)
    ensures Steps(h, []) == Going(h) && Writes(h, []) == []
  {
  }

  // ----- the templates of the main results -----------------------------------------

  function Targets(names: seq<string>): (r: seq<Element>)
    ensures |r| == |names|
  {
    seq(|names|, i requires 0 <= i < |names| => Target(Name(names[i])))
  }

  function Items(names: seq<string>): (r: seq<Target>)
    ensures |r| == |names|
  {
    seq(|names|, i requires 0 <= i < |names| => Name(names[i]))
  }

  lemma {:induction false} TargetsWait(names: seq<string>, before: seq<string>, rest: seq<Element>)
    ensures var all := before + names;
            Compiled(Targets(names) + rest, Items(Capped(before))) == Compiled(rest, Items(Capped(all)))
    decreases |names|
  {
    var all := before + names;
    if names == [] {
      assert Targets(names) + rest == rest && all == before;
    } else {
      var els := Targets(names) + rest;
      assert els[0] == Target(Name(names[0])) && els[1..] == Targets(names[1..]) + rest;
      var items := Items(Capped(before));
      assert Waiting(items, Name(names[0])) == Items(Capped(before + [names[0]])) by {
        if |before| < MAX_ITEMS {
          assert Capped(before + [names[0]]) == before + [names[0]];
        } else {
          assert Capped(before + [names[0]]) == Capped(before);
        }
      }
      TargetsWait(names[1..], before + [names[0]], rest);
      assert before + [names[0]] + names[1..] == all;
    }
  }

  function Capped(names: seq<string>): (r: seq<string>)
    ensures |r| <= |names|
  {
    if |names| <= 16 then names else names[..16]
  }

  lemma {:induction false} FlushedWords(names: seq<string>)
    requires names != []
    ensures Flushed(Items(names), End) == ByWords(names)
    decreases |names|
  {
    if |names| > 1 {
      assert Items(names)[1..] == Items(names[1..]);
      FlushedWords(names[1..]);
    }
  }

  lemma {:induction false} FlushedThen(names: seq<string>, last: string, p: string)
    ensures Flushed(Items(names + [last]), Lit(p)) == WordsThen(names, last, p)
    decreases |names|
  {
    if names != [] {
      assert Items(names + [last])[1..] == Items(names[1..] + [last]);
      assert (names + [last])[0] == names[0];
      FlushedThen(names[1..], last, p);
    }
  }

  /** A template of variables only deals the words of the source; from the seventeenth variable on nothing is assigned. */
  lemma WordTemplate(f: Frame, names: seq<string>)
    requires Fits(f) && names != []
    ensures Dealt(Capped(names), Words(f.source, f.scan), Writes(f, Compiled(Targets(names), [])))
  {
    hide Writes, Words, Dealt;
    TargetsWait(names, [], []);
    assert Targets(names) + [] == Targets(names) && [] + names == names && Items(Capped([])) == [];
    FlushedWords(Capped(names));
    WordsAreDealt(f, Capped(names));
  }

  /** Variables with one delimiter between each two. */
  function Between(names: seq<string>, d: string): (r: seq<Element>) {
    if names == [] then []
    else if |names| == 1 then [Target(Name(names[0]))]
    else [Target(Name(names[0])), Pattern(Lit(d))] + Between(names[1..], d)
  }

  lemma {:induction false} BetweenSplits(names: seq<string>, d: string)
    ensures Compiled(Between(names, d), []) == SplitAt(names, d)
    decreases |names|
  {
    if |names| > 1 {
      var els := Between(names, d);
      BetweenSplits(names[1..], d);
      assert els[1..] == [Pattern(Lit(d))] + Between(names[1..], d);
      assert els[1..][1..] == Between(names[1..], d);
      assert Compiled(els[1..], [Name(names[0])]) == Flushed([Name(names[0])], Lit(d)) + SplitAt(names[1..], d);
    } else if |names| == 1 {
      var els := Between(names, d);
      assert els[1..] == [] && Waiting([], els[0].target) == [Name(names[0])];
    }
  }

  /** The template v1 'd' v2 'd' ... vn takes apart what was joined with the delimiter, exactly when no part meets it early. */
  lemma DelimiterTemplate(parts: seq<string>, names: seq<string>, d: string, pools: Pools)
    requires |parts| == |names| > 0 && d != ""
    ensures (Writes(Opened(Joined(parts, d), false, pools), Compiled(Between(names, d), [])) == Paired(names, parts))
            <==> forall i :: 0 <= i < |parts| - 1 ==> Apart(parts[i], d)
  {
    hide Writes;
    BetweenSplits(names, d);
    SplitUndoesJoin(parts, names, d, pools);
  }

  // ---- Fixed fields -------------------------------------------------------------------------------

  /** c1 v1 c2 v2 ... */
  function Columns(names: seq<string>, cols: seq<nat>): seq<Element>
    requires |names| == |cols|
  {
    if names == [] then []
    else [Pattern(Column(cols[0])), Target(Name(names[0]))] + Columns(names[1..], cols[1..])
  }

  predicate Ascending(cols: seq<nat>)
  {
    (cols != [] ==> cols[0] >= 1) && forall i, j :: 0 <= i < j < |cols| ==> cols[i] < cols[j]
  }

  /** The text from one column up to the next, the last one up to the end; a column is counted from 1. */
  function Fields(s: string, cols: seq<nat>): (r: seq<string>)
    requires Ascending(cols)
    ensures |r| == |cols|
  {
    if cols == [] then []
    else if |cols| == 1 then [Field(s, cols[0], |s| + 1)]
    else [Field(s, cols[0], cols[1])] + Fields(s, cols[1..])
  }

  /** The characters number a up to, but not including, number b, as far as there are any. */
  function Field(s: string, a: nat, b: nat): (r: string)
    requires 1 <= a
  {
    if a > |s| || b <= a then "" else if b - 1 <= |s| then s[a - 1..b - 1] else s[a - 1..]
  }

  lemma ColumnCut(s: string, scan: nat, a: nat, b: nat, pools: Pools) returns (c: Cut)
    requires 1 <= a < b && scan <= |s| && InFrontOf(s, a, scan)
    ensures c == CutOf(s, scan, Column(b), pools) && c.next <= |s| && InFrontOf(s, b, c.next)
    ensures s[c.from..c.upto] == Field(s, a, b)
  {
    hide CutOf;
    c := CutOf(s, scan, Column(b), pools);
    CutIsExact(s, scan, Column(b), pools, c);
  }

  lemma LastCut(s: string, scan: nat, a: nat, pools: Pools) returns (c: Cut)
    requires 1 <= a && scan <= |s| && InFrontOf(s, a, scan)
    ensures c == CutOf(s, scan, End, pools) && s[c.from..c.upto] == Field(s, a, |s| + 1)
  {
    hide CutOf;
    c := CutOf(s, scan, End, pools);
    CutIsExact(s, scan, End, pools, c);
  }

  lemma {:induction false} FieldsFrom(f: Frame, at: nat, prev: string, names: seq<string>, cols: seq<nat>)
    requires |names| == |cols| && Ascending([at] + cols) && Fits(f) && InFrontOf(f.source, at, f.scan)
    ensures Writes(f, Compiled(Columns(names, cols), [Name(prev)])) == Paired([prev] + names, Fields(f.source, [at] + cols))
    decreases |names|
  {
    hide CutOf, Set, Writes, InFrontOf, Field, Fired, Compiled, Columns;
    var s := f.source;
    PairedFront([prev] + names, Fields(s, [at] + cols));
    assert ([prev] + names)[1..] == names && ([at] + cols)[1..] == cols && [at][1..] == [];
    if names == [] {
      var c := LastCut(s, f.scan, at, f.pools);
      ColumnsEnd(prev);
      assert cols == [];
      OneField(f, prev, End, []);
      NothingLeft(Fired(Aimed(f, Name(prev)).f, End));
      assert Fields(s, [at] + cols) == [Field(s, at, |s| + 1)];
      assert Paired(names, Fields(s, [at] + cols)[1..]) == [];
    } else {
      AscendingRest(at, cols);
      var c := ColumnCut(s, f.scan, at, cols[0], f.pools);
      ColumnsStep(prev, names, cols);
      var rest := Compiled(Columns(names[1..], cols[1..]), [Name(names[0])]);
      OneField(f, prev, Column(cols[0]), rest);
      var h := Fired(Aimed(f, Name(prev)).f, Column(cols[0]));
      FieldsFrom(h, cols[0], names[0], names[1..], cols[1..]);
      assert [names[0]] + names[1..] == names && [cols[0]] + cols[1..] == cols;
      assert Fields(s, [at] + cols) == [Field(s, at, cols[0])] + Fields(s, cols);
    }
  }

  lemma AscendingRest(at: nat, cols: seq<nat>)
    requires Ascending([at] + cols) && cols != []
    ensures 1 <= at < cols[0] && Ascending(cols) && Ascending([cols[0]] + cols[1..])
  {
    var all := [at] + cols;
    assert all[0] == at && forall i :: 0 <= i < |cols| ==> all[i + 1] == cols[i];
    assert [cols[0]] + cols[1..] == cols;
  }

  lemma OneField(f: Frame, name: string, g: Trigger, rest: seq<Op>)
    requires Fits(f) && g != Lit("")
    ensures var c := CutOf(f.source, f.scan, g, f.pools);
            var h := Fired(Aimed(f, Name(name)).f, g);
            && Writes(f, [Aim(Name(name)), Fire(g)] + rest) == [Write(name, f.source[c.from..c.upto])] + Writes(h, rest)
            && h.source == f.source && h.scan == c.next
  {
    hide CutOf, Set;
    OnePair(f, Name(name), g, rest);
  }

  lemma ColumnsEnd(prev: string)
    ensures Compiled(Columns([], []), [Name(prev)]) == [Aim(Name(prev)), Fire(End)] + []
  {
  }

  lemma ColumnsStep(prev: string, names: seq<string>, cols: seq<nat>)
    requires |names| == |cols| > 0
    ensures Compiled(Columns(names, cols), [Name(prev)]) ==
              [Aim(Name(prev)), Fire(Column(cols[0]))] + Compiled(Columns(names[1..], cols[1..]), [Name(names[0])])
  {
    var els, rest := Columns(names, cols), Columns(names[1..], cols[1..]);
    assert els[0] == Pattern(Column(cols[0])) && els[1..] == [Target(Name(names[0]))] + rest && els[1..][1..] == rest;
    assert Waiting([], Name(names[0])) == [Name(names[0])];
    assert Compiled(els[1..], []) == Compiled(rest, [Name(names[0])]);
  }

  /** A template of ascending columns deals the fields between them, wherever the scan stood: v1 gets the characters number c1
  up to c2, and so on, the last variable the rest. */
  lemma ColumnTemplate(f: Frame, names: seq<string>, cols: seq<nat>)
    requires |names| == |cols| > 0 && Ascending(cols) && Fits(f)
    ensures Writes(f, Compiled(Columns(names, cols), [])) == Paired(names, Fields(f.source, cols))
  {
    hide *;
    var h := ColumnsOpen(f, names, cols);
    assert [names[0]] + names[1..] == names;
    assert [cols[0]] + cols[1..] == cols;
    FieldsFrom(h, cols[0], names[0], names[1..], cols[1..]);
  }

  /** The first column only takes the scan there. */
  lemma ColumnsOpen(f: Frame, names: seq<string>, cols: seq<nat>) returns (h: Frame)
    requires |names| == |cols| > 0 && Fits(f)
    ensures h.source == f.source && Fits(h) && InFrontOf(h.source, cols[0], h.scan)
    ensures Writes(f, Compiled(Columns(names, cols), [])) == Writes(h, Compiled(Columns(names[1..], cols[1..]), [Name(names[0])]))
  {
    hide CutOf, Set, Writes, Fired, InFrontOf, Compiled, Columns, Tailed;
    var rest := Compiled(Columns(names[1..], cols[1..]), [Name(names[0])]);
    ColumnsStart(names, cols);
    StartsAt(f, cols[0]);
    OnePair(f, Dot, Column(cols[0]), rest);
    h := Fired(Aimed(f, Dot).f, Column(cols[0]));
  }

  lemma StartsAt(f: Frame, col: nat)
    requires Fits(f)
    ensures Aimed(f, Dot).Going?
    ensures var h := Fired(Aimed(f, Dot).f, Column(col)); h.source == f.source && Fits(h) && InFrontOf(h.source, col, h.scan)
  {
    hide CutOf, Set;
    CutIsExact(f.source, f.scan, Column(col), f.pools, CutOf(f.source, f.scan, Column(col), f.pools));
  }

  lemma ColumnsStart(names: seq<string>, cols: seq<nat>)
    requires |names| == |cols| > 0
    ensures Compiled(Columns(names, cols), []) ==
              [Aim(Dot), Fire(Column(cols[0]))] + Compiled(Columns(names[1..], cols[1..]), [Name(names[0])])
  {
    var els, rest := Columns(names, cols), Columns(names[1..], cols[1..]);
    assert els[0] == Pattern(Column(cols[0])) && els[1..] == [Target(Name(names[0]))] + rest && els[1..][1..] == rest;
    assert Waiting([], Name(names[0])) == [Name(names[0])];
    assert Compiled(els[1..], []) == Compiled(rest, [Name(names[0])]);
  }

  /** For instance a 3 b over the text abcdef: a gets ab, b gets cdef. */
  lemma ColumnsCount(pools: Pools)
    ensures Writes(Opened("abcdef", false, pools), Compiled([Target(Name("A")), Pattern(Column(3)), Target(Name("B"))], []))
         == [Write("A", "ab"), Write("B", "cdef")]
  {
    var f := Opened("abcdef", false, pools);
    OpenedIs("abcdef", pools);
    ThreeElements();
    ThreeFields();
    hide Writes, Opened, Compiled, Columns, Fields, Ascending;
    FieldsFrom(f, 1, "A", ["B"], [3]);
    assert Paired(["A"] + ["B"], ["ab", "cdef"]) == [Write("A", "ab"), Write("B", "cdef")];
  }

  lemma ThreeElements()
    ensures Compiled([Target(Name("A")), Pattern(Column(3)), Target(Name("B"))], []) == Compiled(Columns(["B"], [3]), [Name("A")])
  {
    var els := [Target(Name("A")), Pattern(Column(3)), Target(Name("B"))];
    assert ["B"][1..] == [] && [3][1..] == [];
    assert Columns(["B"], [3]) == [Pattern(Column(3)), Target(Name("B"))] + Columns([], []);
    assert els[1..] == Columns(["B"], [3]);
    assert Waiting([], Name("A")) == [Name("A")];
  }

  lemma ThreeFields()
    ensures Ascending([1] + [3]) && Fields("abcdef", [1] + [3]) == ["ab", "cdef"] && InFrontOf("abcdef", 1, 0)
  {
    assert [1] + [3] == [1, 3] && [1, 3][1..] == [3];
    assert Fields("abcdef", [3]) == [Field("abcdef", 3, 7)];
    assert "abcdef"[0..2] == "ab" && "abcdef"[2..6] == "cdef";
  }

  /** Up to sixteen variables before a pattern keep the language's rule exactly when their words end before the pattern's first occurrence. */
  lemma PatternTemplate(f: Frame, names: seq<string>, last: string, p: string)
    requires Fits(f) && p != "" && |names| < MAX_ITEMS
    ensures (Trail(f, Compiled(Targets(names + [last]) + [Pattern(Lit(p))], [])) == ByTheRule(f.source, f.scan, |names|, p))
            <==> (FirstAt(f.source, p, f.scan).None?
                  || BehindWords(f.source, f.scan, |names|) <= FirstAt(f.source, p, f.scan).value)
  {
    PatternCompiled(names, last, p);
    hide *;
    WordsBeforePattern(f, names, last, p);
  }

  lemma PatternCompiled(names: seq<string>, last: string, p: string)
    requires |names| < MAX_ITEMS
    ensures Compiled(Targets(names + [last]) + [Pattern(Lit(p))], []) == WordsThen(names, last, p)
  {
    var all := names + [last];
    TargetsWait(all, [], [Pattern(Lit(p))]);
    assert [] + all == all && Items(Capped([])) == [];
    assert Compiled([Pattern(Lit(p))], Items(all)) == Flushed(Items(all), Lit(p)) + [];
    FlushedThen(names, last, p);
  }

  /** For instance v1 v2 ',' over the text a,b c: the rule gives a to v1 and nothing to v2, the template a,b and c. */
  lemma WordsOvertake(pools: Pools)
    ensures var f := Opened("a,b c", false, pools);
            var ops := Compiled(Targets(["V1", "V2"]) + [Pattern(Lit(","))], []);
            && Writes(f, ops) == [Write("V1", "a,b"), Write("V2", "c")]
            && Trail(f, ops) != ByTheRule(f.source, 0, 1, ",")
            && FirstAt(f.source, ",", 0) == Some(1) && BehindWords(f.source, 0, 1) == 4
  {
    var s := "a,b c";
    var f := Opened(s, false, pools);
    var pools1 := Set(pools, "V1", Cell("a,b", None));
    OvertakenCuts(pools, pools1);
    hide FirstAt, BehindWords, SkipSpaces, WordEnd, CutOf, Set, Compiled, WordsThen, ByTheRule, Writes, Trail;
    PatternTemplate(f, ["V1"], "V2", ",");
    assert ["V1"] + ["V2"] == ["V1", "V2"];
    PatternCompiled(["V1"], "V2", ",");
    var rest := [Aim(Name("V2")), Fire(Lit(","))];
    assert ["V1"][1..] == [];
    WordsThenIs(["V1"], "V2", ",");
    WordsThenIs([], "V2", ",");
    WritesTwo(f, "V1", Space, rest);
    var h := Fired(Aimed(f, Name("V1")).f, Space);
    assert h.pools == pools1;
    assert rest == rest + [];
    WritesTwo(h, "V2", Lit(","), []);
    NothingLeft(Fired(Aimed(h, Name("V2")).f, Lit(",")));
    assert Writes(f, [Aim(Name("V1")), Fire(Space)] + rest) == [Write("V1", "a,b")] + Writes(h, rest);
    assert Writes(h, rest) == [Write("V2", "c")] + [];
  }

  lemma OvertakenCuts(pools: Pools, pools1: Pools)
    ensures var s := "a,b c";
            && FirstAt(s, ",", 0) == Some(1) && BehindWords(s, 0, 1) == 4
            && CutOf(s, 0, Space, pools) == Cut(0, 3, 4) && s[0..3] == "a,b"
            && CutOf(s, 4, Lit(","), pools1) == Cut(4, 5, 5) && s[4..5] == "c"
  {
    var s := "a,b c";
    assert SkipSpaces(s, 0) == 0;
    assert WordEnd(s, 0) == WordEnd(s, 1) == WordEnd(s, 2) == WordEnd(s, 3) == 3;
    assert s[0..1] == "a" && s[1..2] == ",";
    assert FirstAt(s, ",", 0) == FirstAt(s, ",", 1) == Some(1);
    assert BehindWords(s, 0, 1) == BehindWords(s, 4, 0) == 4;
    assert s[4..5] == "c" && FirstAt(s, ",", 4) == FirstAt(s, ",", 5) == None;
  }
}
