/** What a run of PARSE instructions does to the source and to the variables. */
module ParseResults {
  import opened Options
  import opened NumberText
  import opened IntegerFastPath
  import opened VarPool
  import opened ParseMachine

  predicate OnlyForward(g: Trigger) { !g.Column? && !g.Relative? }

  predicate NoColumns(ops: seq<Op>) {
    forall i :: 0 <= i < |ops| && ops[i].Fire? ==> OnlyForward(ops[i].trigger)
  }

  /** The text a literal or indirect pattern looks for. */
  function PatternText(g: Trigger, pools: Pools): string
    requires g.Lit? || g.Indirect?
  {
    match g
    case Lit(p) => p
    case Indirect(n) => match Get(pools, n) case Some(c) => c.text case None => ""
  }

  /** What a cut has to be, by the text before, in and behind the slice. */
  ghost predicate Exact(s: string, scan: nat, g: Trigger, pools: Pools, c: Cut)
  {
    && scan <= c.from <= c.upto <= |s| && c.next <= |s| && (OnlyForward(g) ==> c.upto <= c.next)
    && match g
       case Space =>
         && (forall k :: scan <= k < c.from ==> IsSpace(s[k]))
         && (forall k :: c.from <= k < c.upto ==> !IsSpace(s[k]))
         && (c.from == c.upto ==> c.upto == |s|)
         && (if c.upto < |s| then c.next == c.upto + 1 && IsSpace(s[c.upto]) else c.next == c.upto)
       case End => c.from == scan && c.upto == c.next == |s|
       case Lit(p) => c.from == scan && UpTo(s, p, c)
       case Indirect(n) => c.from == scan && UpTo(s, PatternText(g, pools), c)
       case Column(col) => c.from == scan && InFrontOf(s, col, c.next) && c.upto == if c.next < scan then scan else c.next
       case Relative(off) => c.from == scan && c.upto == (if off < 0 then scan else c.next) && MovedBy(s, scan, off, c.next)
  }

  /** Position i is in front of the col-th character, characters being counted from 1: col - 1 of them come before.  Past
  the end it is the end, and column 0 is the start. */
  predicate InFrontOf(s: string, col: nat, i: nat)
    requires i <= |s|
  {
    if col == 0 then i == 0 else if i < |s| then |s[..i]| + 1 == col else col > |s|
  }

  /** Position i is off characters away from scan, or the end of the text in that direction if there are fewer. */
  predicate MovedBy(s: string, scan: nat, off: int, i: nat)
    requires scan <= |s| && i <= |s|
  {
    if off >= 0 then scan <= i && (|s[scan..i]| == off || (i == |s| && |s[scan..]| < off))
    else i <= scan && (|s[i..scan]| == -off || (i == 0 && |s[..scan]| < -off))
  }

  /** Up to the first occurrence, or to the end when there is none; no text at all cuts nothing off. */
  ghost predicate UpTo(s: string, p: string, c: Cut)
  {
    if p == "" then c.upto == c.next == c.from
    else if OccursAt(s, p, c.upto) then c.next == c.upto + |p| && forall k :: c.from <= k < c.upto ==> !OccursAt(s, p, k)
    else c.upto == c.next == |s| && forall k :: c.from <= k ==> !OccursAt(s, p, k)
  }

  /** Each trigger makes the one cut there is: the next word and the blank behind it, everything up to the first occurrence,
  the text up to a column, or so many characters on or back. */
  lemma CutIsExact(s: string, scan: nat, g: Trigger, pools: Pools, c: Cut)
    requires scan <= |s| && g != Lit("")
    ensures Exact(s, scan, g, pools, c) <==> c == CutOf(s, scan, g, pools)
  {
    hide Get, FirstAt, OccursAt, Owner, SkipSpaces, WordEnd;
    match g
    case Space => WordIsExact(s, scan, pools, c);
    case Lit(p) => FoundIsExact(s, p, scan, c);
    case Indirect(n) =>
      if PatternText(g, pools) != "" {
        FoundIsExact(s, PatternText(g, pools), scan, c);
      }
    case End =>
    case Column(_) =>
    case Relative(_) =>
  }

  lemma {:induction false} SkipMeans(s: string, i: nat)
    requires i <= |s|
    ensures forall k :: i <= k < SkipSpaces(s, i) ==> IsSpace(s[k])
    ensures SkipSpaces(s, i) < |s| ==> !IsSpace(s[SkipSpaces(s, i)])
    decreases |s| - i
  {
    if i < |s| && IsSpace(s[i]) {
      SkipMeans(s, i + 1);
    }
  }

  lemma {:induction false} WordMeans(s: string, i: nat)
    requires i <= |s|
    ensures forall k :: i <= k < WordEnd(s, i) ==> !IsSpace(s[k])
    ensures WordEnd(s, i) < |s| ==> IsSpace(s[WordEnd(s, i)])
    decreases |s| - i
  {
    if i < |s| && !IsSpace(s[i]) {
      WordMeans(s, i + 1);
    }
  }

  lemma {:induction false} FirstMeans(s: string, p: string, i: nat)
    ensures match FirstAt(s, p, i)
            case Some(j) => OccursAt(s, p, j) && forall k :: i <= k < j ==> !OccursAt(s, p, k)
            case None => forall k :: i <= k ==> !OccursAt(s, p, k)
    decreases |s| - i
  {
    if i + |p| <= |s| && s[i..i + |p|] != p {
      FirstMeans(s, p, i + 1);
    }
  }

  lemma WordIsExact(s: string, scan: nat, pools: Pools, c: Cut)
    requires scan <= |s|
    ensures Exact(s, scan, Space, pools, c) <==> c == CutOf(s, scan, Space, pools)
  {
    var j := SkipSpaces(s, scan);
    SkipMeans(s, scan);
    WordMeans(s, j);
    hide SkipSpaces, WordEnd;
    if Exact(s, scan, Space, pools, c) {
      assert !(j < c.from);
      if c.from < |s| {
        assert !IsSpace(s[c.from]);
      }
      assert !(WordEnd(s, j) < c.upto) && !(c.upto < WordEnd(s, j));
    }
  }

  lemma FoundIsExact(s: string, p: string, scan: nat, c: Cut)
    requires scan <= |s| && p != ""
    ensures c.from == scan <= c.upto <= c.next <= |s| && UpTo(s, p, c) <==> c == Found(s, p, scan)
  {
    var r := FirstAt(s, p, scan);
    FirstMeans(s, p, scan);
    match r
    case Some(i) =>
      assert OccursAt(s, p, i);
      OccursInside(s, p, i);
      assert forall k :: scan <= k < i ==> !OccursAt(s, p, k);
      hide FirstAt, OccursAt;
      if c.from == scan <= c.upto && UpTo(s, p, c) {
        assert !(i < c.upto);
      }
    case None =>
      assert forall k :: scan <= k ==> !OccursAt(s, p, k);
      hide FirstAt, OccursAt;
  }

  lemma OccursInside(s: string, p: string, i: int)
    ensures OccursAt(s, p, i) ==> 0 <= i && i + |p| <= |s|
  {
  }

  /** The cuts a run makes, in order. */
  function Trail(f: Frame, ops: seq<Op>): seq<Cut>
    requires Fits(f)
    decreases |ops|
  {
    if ops == [] then []
    else
      (if ops[0].Fire? && ops[0].trigger != Lit("") then [CutOf(f.source, f.scan, ops[0].trigger, f.pools)] else [])
      + (match Step(f, ops[0]) case Going(g) => Trail(g, ops[1..]) case TooLong => [])
  }

  /** One step of the trail. */
  lemma TrailStep(f: Frame, ops: seq<Op>)
    requires Fits(f) && ops != []
    ensures Step(f, ops[0]).TooLong? ==> Trail(f, ops) == []
    ensures Step(f, ops[0]).Going? ==>
              var g := Step(f, ops[0]).f;
              && g.source == f.source
              && Steps(f, ops) == Steps(g, ops[1..])
              && if ops[0].Fire? && ops[0].trigger != Lit("") then
                   Trail(f, ops) == [CutOf(f.source, f.scan, ops[0].trigger, f.pools)] + Trail(g, ops[1..])
                   && g.scan == CutOf(f.source, f.scan, ops[0].trigger, f.pools).next
                 else Trail(f, ops) == Trail(g, ops[1..]) && g.scan == f.scan
  {
    hide CutOf, Set, Tailed;
  }

  lemma Onward(s: string, scan: nat, g: Trigger, pools: Pools)
    requires scan <= |s| && OnlyForward(g) && g != Lit("")
    ensures var c := CutOf(s, scan, g, pools); scan <= c.from <= c.upto <= c.next <= |s|
  {
    CutIsExact(s, scan, g, pools, CutOf(s, scan, g, pools));
  }

  /** The cuts follow each other from a position on and lie within the text. */
  predicate InOrder(s: string, scan: nat, cuts: seq<Cut>)
    decreases |cuts|
  {
    && scan <= |s|
    && (cuts != [] ==>
          var c := cuts[0];
          scan <= c.from <= c.upto <= c.next <= |s| && InOrder(s, c.next, cuts[1..]))
  }

  /** Blanks skipped, slice and delimiter of every cut, one after another. */
  function Glued(s: string, scan: nat, cuts: seq<Cut>): string
    requires InOrder(s, scan, cuts)
    decreases |cuts|
  {
    if cuts == [] then ""
    else
      var c := cuts[0];
      s[scan..c.from] + s[c.from..c.upto] + s[c.upto..c.next] + Glued(s, c.next, cuts[1..])
  }

  /** In order: no two slices overlap. */
  lemma {:induction false} InOrderApart(s: string, scan: nat, cuts: seq<Cut>, i: nat, j: nat)
    requires InOrder(s, scan, cuts) && i < j < |cuts|
    ensures cuts[i].upto <= cuts[i].next <= cuts[j].from
    decreases |cuts|
  {
    if i > 0 {
      InOrderApart(s, cuts[0].next, cuts[1..], i - 1, j - 1);
    } else if j > 1 {
      InOrderApart(s, cuts[0].next, cuts[1..], 0, j - 1);
      assert cuts[1..][0] == cuts[1] && cuts[1..][j - 1] == cuts[j];
    }
  }

  /**
   * Without column triggers the slices follow each other and never overlap, the pointer never
   * goes back, and the part of the source that was scanned is rebuilt from the pieces.
   */
  lemma {:induction false} SourceIsRebuilt(f: Frame, ops: seq<Op>)
    requires Fits(f) && NoColumns(ops)
    ensures InOrder(f.source, f.scan, Trail(f, ops))
    ensures Steps(f, ops).Going? ==>
              var end := Steps(f, ops).f.scan;
              f.scan <= end && Glued(f.source, f.scan, Trail(f, ops)) == f.source[f.scan..end]
    decreases |ops|
  {
    if ops != [] {
      TrailStep(f, ops);
      if Step(f, ops[0]).Going? {
        var g := Step(f, ops[0]).f;
        assert forall i :: 0 <= i < |ops| - 1 ==> ops[1..][i] == ops[i + 1];
        SourceIsRebuilt(g, ops[1..]);
        hide CutOf, Step, Steps, Trail;
        if ops[0].Fire? && ops[0].trigger != Lit("") {
          Onward(f.source, f.scan, ops[0].trigger, f.pools);
          var c := CutOf(f.source, f.scan, ops[0].trigger, f.pools);
          assert Trail(f, ops)[1..] == Trail(g, ops[1..]);
          if Steps(f, ops).Going? {
            Abut(f.source, f.scan, c, Steps(f, ops).f.scan);
          }
        }
      }
    }
  }

  /** No character of the source goes to two targets. */
  lemma SlicesApart(f: Frame, ops: seq<Op>, i: nat, j: nat)
    requires Fits(f) && NoColumns(ops) && i < j < |Trail(f, ops)|
    ensures Trail(f, ops)[i].from <= Trail(f, ops)[i].upto <= Trail(f, ops)[j].from
  {
    hide Trail, NoColumns, InOrder;
    SourceIsRebuilt(f, ops);
    InOrderApart(f.source, f.scan, Trail(f, ops), i, j);
    InOrderWithin(f.source, f.scan, Trail(f, ops), i);
  }

  lemma {:induction false} InOrderWithin(s: string, scan: nat, cuts: seq<Cut>, i: nat)
    requires InOrder(s, scan, cuts) && i < |cuts|
    ensures scan <= cuts[i].from <= cuts[i].upto <= |s|
    decreases |cuts|
  {
    if i > 0 { InOrderWithin(s, cuts[0].next, cuts[1..], i - 1); }
  }

  lemma Abut(s: string, scan: nat, c: Cut, end: nat)
    requires scan <= c.from <= c.upto <= c.next <= end <= |s|
    ensures s[scan..c.from] + s[c.from..c.upto] + s[c.upto..c.next] + s[c.next..end] == s[scan..end]
  {
  }

  // ----- variables ------------------------------------------------------------

  datatype Write = Write(name: string, text: string)

  /** The assignments a run makes, in order. */
  function Writes(f: Frame, ops: seq<Op>): seq<Write>
    requires Fits(f)
    decreases |ops|
  {
    if ops == [] then []
    else
      (if ops[0].Fire? && ops[0].trigger != Lit("") && Pending(f).Some? then
         var c := CutOf(f.source, f.scan, ops[0].trigger, f.pools);
         [Write(Pending(f).value, f.source[c.from..c.upto])]
       else [])
      + (match Step(f, ops[0]) case Going(g) => Writes(g, ops[1..]) case TooLong => [])
  }

  function LastOf(ws: seq<Write>, name: string): Option<string> {
    if ws == [] then None
    else if ws[|ws| - 1].name == name then Some(ws[|ws| - 1].text)
    else LastOf(ws[..|ws| - 1], name)
  }

  lemma LastOfFront(w: Write, ws: seq<Write>, name: string)
    ensures LastOf([w] + ws, name) ==
              if LastOf(ws, name).Some? then LastOf(ws, name) else if w.name == name then Some(w.text) else None
    decreases |ws|
  {
    if ws != [] {
      assert ([w] + ws)[..|ws|] == [w] + ws[..|ws| - 1];
      LastOfFront(w, ws[..|ws| - 1], name);
    } else {
      assert ([w] + ws)[..0] == [];
    }
  }

  /** A variable ends with the last slice it was a target of; the others keep their values. */
  lemma {:induction false} TargetsGetTheirSlices(f: Frame, ops: seq<Op>, name: string)
    requires Fits(f) && Steps(f, ops).Going?
    ensures Get(Steps(f, ops).f.pools, name) ==
              match LastOf(Writes(f, ops), name)
              case Some(t) => Some(Cell(t, None))
              case None => Get(f.pools, name)
    decreases |ops|
  {
    hide Get, Set, CutOf, Tailed, Owner;
    if ops != [] {
      var g := Step(f, ops[0]).f;
      TargetsGetTheirSlices(g, ops[1..], name);
      if ops[0].Fire? && ops[0].trigger != Lit("") && Pending(f).Some? {
        var c := CutOf(f.source, f.scan, ops[0].trigger, f.pools);
        var w := Write(Pending(f).value, f.source[c.from..c.upto]);
        LastOfFront(w, Writes(g, ops[1..]), name);
        GetSet(f.pools, w.name, Cell(w.text, None), name);
      } else {
        assert Writes(f, ops) == Writes(g, ops[1..]);
      }
    }
  }

  // ----- compound names and capitals --------------------------------------------

  /** What the tails come to: text as it stands, a variable's value or its name without one, all in capitals. */
  function TailTexts(tails: seq<Tail>, pools: Pools): (r: seq<string>)
    ensures |r| == |tails|
  {
    seq(|tails|, i requires 0 <= i < |tails| => UpperText(TailText(tails[i], pools)))
  }

  /** A compound target's name: the tails with periods between them. */
  lemma {:induction false} CompoundName(stem: string, tails: seq<Tail>, pools: Pools)
    ensures Tailed(stem, tails, pools) == stem + Joined(TailTexts(tails, pools), ".")
  {
    hide Joined, TailTexts;
    if tails == [] {
      NoTails(pools);
    } else {
      var n := |tails| - 1;
      CompoundName(stem, tails[..n], pools);
      OneTailMore(tails, pools);
      JoinedEnd(TailTexts(tails[..n], pools), UpperText(TailText(tails[n], pools)), ".");
    }
  }

  lemma NoTails(pools: Pools)
    ensures Joined(TailTexts([], pools), ".") == ""
  {
  }

  lemma OneTailMore(tails: seq<Tail>, pools: Pools)
    requires tails != []
    ensures TailTexts(tails, pools) == TailTexts(tails[..|tails| - 1], pools) + [UpperText(TailText(tails[|tails| - 1], pools))]
  {
    hide UpperText, TailText;
  }

  lemma {:induction false} JoinedEnd(front: seq<string>, last: string, d: string)
    ensures Joined(front + [last], d) == Joined(front, d) + (if front == [] then "" else d) + last
  {
    if front != [] {
      assert (front + [last])[0] == front[0] && (front + [last])[1..] == front[1..] + [last];
      JoinedEnd(front[1..], last, d);
    }
  }

  /** a.i.j with 3 in I and nothing in J. */
  lemma NameOfElement(pools: Pools)
    requires Get(pools, "I") == Some(Cell("3", Some(3))) && Get(pools, "J") == None
    ensures Tailed("A.", [Value("I"), Value("J")], pools) == "A.3.J"
    ensures Tailed("A.", [Text("x"), Value("I")], pools) == "A.X.3"
  {
    hide Tailed;
    var t, u := [Value("I"), Value("J")], [Text("x"), Value("I")];
    CompoundName("A.", t, pools);
    CompoundName("A.", u, pools);
    InCapitals("3");
    InCapitals("J");
    InCapitals("x");
    assert TailTexts(t, pools) == ["3", "J"] && TailTexts(u, pools) == ["X", "3"];
    assert ["3", "J"][1..] == ["J"] && ["X", "3"][1..] == ["3"];
  }

  lemma InCapitals(s: string)
    requires |s| == 1
    ensures UpperText(s) == [Upper(s[0])]
  {
    assert s[1..] == "";
  }

  const SMALL := "abcdefghijklmnopqrstuvwxyz"
  const CAPITAL := "ABCDEFGHIJKLMNOPQRSTUVWXYZ"

  lemma Letter(k: nat)
    requires k < 26
    ensures SMALL[k] as int == 'a' as int + k && CAPITAL[k] as int == 'A' as int + k
  {
  }

  /** PARSE UPPER: the 26 letters, and nothing else. */
  lemma Capitals(s: string, i: nat, k: nat)
    requires i < |s| && k < 26
    ensures s[i] == SMALL[k] ==> UpperText(s)[i] == CAPITAL[k]
    ensures s[i] !in SMALL ==> UpperText(s)[i] == s[i]
  {
    hide UpperText;
    Letter(k);
    if 'a' <= s[i] <= 'z' {
      Letter(s[i] as int - 'a' as int);
      assert s[i] == SMALL[s[i] as int - 'a' as int];
    }
  }

  // ----- splitting at a delimiter undoes joining -------------------------------

  function Joined(parts: seq<string>, d: string): string {
    if parts == [] then "" else if |parts| == 1 then parts[0] else parts[0] + d + Joined(parts[1..], d)
  }

  /** v1 'd' v2 'd' ... vn */
  function SplitAt(names: seq<string>, d: string): seq<Op> {
    if names == [] then []
    else if |names| == 1 then [Aim(Name(names[0])), Fire(End)]
    else [Aim(Name(names[0])), Fire(Lit(d))] + SplitAt(names[1..], d)
  }

  function Paired(names: seq<string>, texts: seq<string>): seq<Write>
    requires |names| == |texts|
  {
    seq(|names|, i requires 0 <= i < |names| => Write(names[i], texts[i]))
  }

  lemma PairedFront(names: seq<string>, texts: seq<string>)
    requires |names| == |texts| > 0
    ensures Paired(names, texts) == [Write(names[0], texts[0])] + Paired(names[1..], texts[1..])
  {
  }

  /** The delimiter is first met where it was put. */
  predicate Apart(part: string, d: string) {
    FirstAt(part + d, d, 0) == Some(|part|)
  }

  lemma {:induction false} FirstIs(s: string, p: string, i: nat, j: nat)
    requires i <= j && OccursAt(s, p, j)
    requires forall k :: i <= k < j ==> !OccursAt(s, p, k)
    ensures FirstAt(s, p, i) == Some(j)
    decreases j - i
  {
    if i < j {
      assert !OccursAt(s, p, i);
      FirstIs(s, p, i + 1, j);
    }
  }

  /** Whether the first piece of what is left is the whole of the part. */
  lemma FirstPart(pre: string, part: string, d: string, rest: string)
    requires d != ""
    ensures var s := pre + (part + d + rest);
            && FirstAt(s, d, |pre|).Some?
            && FirstAt(s, d, |pre|).value <= |pre| + |part|
            && (FirstAt(s, d, |pre|).value == |pre| + |part| <==> Apart(part, d))
  {
    hide FirstAt;
    var s := pre + (part + d + rest);
    var t := part + d;
    FirstMeans(t, d, 0);
    SamePlaces(pre, part, d, rest);
    assert OccursAt(t, d, |part|) by {
      assert t[|part|..|part| + |d|] == d;
    }
    hide OccursAt;
    assert FirstAt(t, d, 0).Some?;
    var first := FirstAt(t, d, 0).value;
    assert OccursAt(s, d, |pre| + first) && first <= |part|;
    assert forall k :: |pre| <= k < |pre| + first ==> !OccursAt(s, d, k);
    FirstIs(s, d, |pre|, |pre| + first);
  }

  lemma SamePlaces(pre: string, part: string, d: string, rest: string)
    ensures forall k {:trigger OccursAt(pre + (part + d + rest), d, k)} :: |pre| <= k <= |pre| + |part| ==>
              (OccursAt(pre + (part + d + rest), d, k) <==> OccursAt(part + d, d, k - |pre|))
  {
    var s := pre + (part + d + rest);
    var t := part + d;
    forall k | |pre| <= k <= |pre| + |part|
      ensures OccursAt(s, d, k) <==> OccursAt(t, d, k - |pre|)
    {
      assert s[k..k + |d|] == t[k - |pre|..k - |pre| + |d|];
    }
  }

  /** Splitting gives back what was joined, exactly when no part meets the delimiter early. */
  lemma SplitUndoesJoin(parts: seq<string>, names: seq<string>, d: string, pools: Pools)
    requires |parts| == |names| > 0 && d != ""
    ensures (Writes(Opened(Joined(parts, d), false, pools), SplitAt(names, d)) == Paired(names, parts))
            <==> forall i :: 0 <= i < |parts| - 1 ==> Apart(parts[i], d)
  {
    var f := Opened(Joined(parts, d), false, pools);
    assert f.source == "" + Joined(parts, d);
    SplitFrom(f, "", parts, names, d);
  }

  lemma {:induction false} SplitFrom(f: Frame, pre: string, parts: seq<string>, names: seq<string>, d: string)
    requires |parts| == |names| > 0 && d != ""
    requires f.source == pre + Joined(parts, d) && f.scan == |pre|
    ensures (Writes(f, SplitAt(names, d)) == Paired(names, parts))
            <==> forall i :: 0 <= i < |parts| - 1 ==> Apart(parts[i], d)
    decreases |parts|
  {
    PairedFront(names, parts);
    SplitAtIs(names, d);
    if |parts| == 1 {
      SplitLast(f, pre, names[0], parts[0]);
      assert Paired(names[1..], parts[1..]) == [];
    } else {
      var rest := SplitAt(names[1..], d);
      var tail := Joined(parts[1..], d);
      assert Joined(parts, d) == parts[0] + d + tail;
      hide *;
      var h, slice := SplitFirst(f, pre, names[0], parts[0], d, tail, rest);
      if Apart(parts[0], d) {
        SplitFrom(h, pre + (parts[0] + d), parts[1..], names[1..], d);
        SameFront(Write(names[0], parts[0]), Writes(h, rest), Paired(names[1..], parts[1..]));
        Shifted(parts, d);
      } else {
        assert Writes(f, SplitAt(names, d))[0].text != Paired(names, parts)[0].text;
      }
    }
  }

  lemma SameFront(w: Write, a: seq<Write>, b: seq<Write>)
    ensures [w] + a == [w] + b <==> a == b
  {
    assert ([w] + a)[1..] == a && ([w] + b)[1..] == b;
  }

  lemma SplitAtIs(names: seq<string>, d: string)
    requires names != []
    ensures |names| == 1 ==> SplitAt(names, d) == [Aim(Name(names[0])), Fire(End)]
    ensures |names| > 1 ==> SplitAt(names, d) == [Aim(Name(names[0])), Fire(Lit(d))] + SplitAt(names[1..], d)
  {
  }

  lemma SplitLast(f: Frame, pre: string, name: string, part: string)
    requires f.source == pre + part && f.scan == |pre|
    ensures Writes(f, [Aim(Name(name)), Fire(End)]) == [Write(name, part)]
  {
    assert f.source[f.scan..] == part;
    hide Writes;
    LastWrite(f, name);
  }

  /** The first piece is the part, or shorter when the delimiter is met early. */
  lemma SplitFirst(f: Frame, pre: string, name: string, part: string, d: string, tail: string, rest: seq<Op>)
      returns (h: Frame, slice: string)
    requires d != "" && f.source == pre + (part + d + tail) && f.scan == |pre|
    ensures Fits(f) && Fits(h)
    ensures Writes(f, [Aim(Name(name)), Fire(Lit(d))] + rest) == [Write(name, slice)] + Writes(h, rest)
    ensures Apart(part, d) ==> slice == part && h.source == pre + (part + d) + tail && h.scan == |pre + (part + d)|
    ensures !Apart(part, d) ==> slice != part
  {
    hide Apart, Writes, Trail, Steps, Step, Set;
    FirstPart(pre, part, d, tail);
    var c := CutOf(f.source, f.scan, Lit(d), f.pools);
    hide FirstAt;
    WritesTwo(f, name, Lit(d), rest);
    h := Fired(Aimed(f, Name(name)).f, Lit(d));
    slice := f.source[c.from..c.upto];
    if Apart(part, d) {
      assert f.source == pre + (part + d) + tail;
      assert f.source[|pre|..|pre| + |part|] == part;
    }
  }

  lemma Shifted(parts: seq<string>, d: string)
    requires |parts| > 1 && Apart(parts[0], d)
    ensures (forall i :: 0 <= i < |parts| - 1 ==> Apart(parts[i], d))
              <==> forall i :: 0 <= i < |parts[1..]| - 1 ==> Apart(parts[1..][i], d)
  {
    if forall i :: 0 <= i < |parts[1..]| - 1 ==> Apart(parts[1..][i], d) {
      forall i | 0 <= i < |parts| - 1
        ensures Apart(parts[i], d)
      {
        if i > 0 {
          assert Apart(parts[1..][i - 1], d);
        }
      }
    }
  }

  /** Naming a variable and cutting. */
  lemma WritesTwo(f: Frame, name: string, g: Trigger, rest: seq<Op>)
    requires Fits(f) && g != Lit("")
    ensures var ops := [Aim(Name(name)), Fire(g)] + rest;
            var c := CutOf(f.source, f.scan, g, f.pools);
            var h := Fired(Aimed(f, Name(name)).f, g);
            && Writes(f, ops) == [Write(name, f.source[c.from..c.upto])] + Writes(h, rest)
            && Trail(f, ops) == [c] + Trail(h, rest)
            && Steps(f, ops) == Steps(h, rest)
            && h.source == f.source && h.scan == c.next
  {
    hide CutOf, Set;
    var ops := [Aim(Name(name)), Fire(g)] + rest;
    assert ops[0] == Aim(Name(name)) && ops[1..] == [Fire(g)] + rest && ops[1..][1..] == rest;
  }

  // ----- words ----------------------------------------------------------------

  /** The words of a text from a position on. */
  function Words(s: string, i: nat): seq<string>
    requires i <= |s|
    decreases |s| - i
  {
    var j := SkipSpaces(s, i);
    if j == |s| then [] else
      var k := WordEnd(s, j);
      [s[j..k]] + Words(s, k)
  }

  /** Six characters stand between words, the blank and those from 9 to 13. */
  lemma SixBlanks(c: char)
    ensures Words(['a', c, 'b'], 0) == if c as int in {9, 10, 11, 12, 13, 32} then ["a", "b"] else [['a', c, 'b']]
  {
    var s := ['a', c, 'b'];
    assert SkipSpaces(s, 0) == 0 && WordEnd(s, 2) == 3 && SkipSpaces(s, 3) == 3 && Words(s, 3) == [];
    assert s[0..1] == "a" && s[2..3] == "b" && s[0..3] == s;
    if IsSpace(c) {
      assert WordEnd(s, 0) == WordEnd(s, 1) == 1 && SkipSpaces(s, 1) == SkipSpaces(s, 2) == 2;
    } else {
      assert WordEnd(s, 1) == WordEnd(s, 2) == 3;
    }
  }

  /** v1 v2 ... vn */
  function ByWords(names: seq<string>): seq<Op> {
    if names == [] then []
    else if |names| == 1 then [Aim(Name(names[0])), Fire(End)]
    else [Aim(Name(names[0])), Fire(Space)] + ByWords(names[1..])
  }

  /** t is s without its first i characters. */
  ghost predicate Tail(s: string, i: nat, t: string) {
    i + |t| == |s| && forall k :: 0 <= k < |t| ==> t[k] == s[i + k]
  }

  lemma {:induction false} SkipShift(s: string, i: nat, t: string, k: nat)
    requires Tail(s, i, t) && k <= |t|
    ensures SkipSpaces(t, k) + i == SkipSpaces(s, i + k)
    decreases |t| - k
  {
    if k < |t| {
      SkipShift(s, i, t, k + 1);
    }
  }

  lemma {:induction false} WordShift(s: string, i: nat, t: string, k: nat)
    requires Tail(s, i, t) && k <= |t|
    ensures WordEnd(t, k) + i == WordEnd(s, i + k)
    decreases |t| - k
  {
    if k < |t| {
      WordShift(s, i, t, k + 1);
    }
  }

  lemma {:induction false} WordsShift(s: string, i: nat, t: string, k: nat)
    requires Tail(s, i, t) && k <= |t|
    ensures Words(t, k) == Words(s, i + k)
    decreases |t| - k
  {
    SkipShift(s, i, t, k);
    WordsAre(s, i + k);
    WordsAre(t, k);
    var j := SkipSpaces(t, k);
    hide SkipSpaces, WordEnd, Words;
    if j < |t| {
      WordShift(s, i, t, j);
      var e := WordEnd(t, j);
      SameSlice(s, i, t, j, e);
      WordsShift(s, i, t, e);
    }
  }

  lemma SameSlice(s: string, i: nat, t: string, j: nat, e: nat)
    requires Tail(s, i, t) && j <= e <= |t|
    ensures t[j..e] == s[i + j..i + e]
  {
  }

  lemma WordsAre(s: string, i: nat)
    requires i <= |s|
    ensures var j := SkipSpaces(s, i);
            if j == |s| then Words(s, i) == []
            else Words(s, i) == [s[j..WordEnd(s, j)]] + Words(s, WordEnd(s, j)) && WordEnd(s, j) > i
  {
  }

  /** The word that is cut off is the first, and the others are found behind it. */
  lemma WordsNext(s: string, scan: nat, c: Cut, pools: Pools)
    requires scan <= |s| && c == CutOf(s, scan, Space, pools)
    ensures var words := Words(s, scan);
            && (s[c.from..c.upto] == if words == [] then "" else words[0])
            && (Words(s, c.next) == if words == [] then [] else words[1..])
  {
    var j := SkipSpaces(s, scan);
    var k := WordEnd(s, j);
    WordsAre(s, scan);
    WordsAre(s, k);
    WordsAre(s, c.next);
    if k < |s| {
      WordMeans(s, j);
      assert SkipSpaces(s, k) == SkipSpaces(s, k + 1);
    }
    hide SkipSpaces, WordEnd, Words;
  }

  /** Every target but the last gets the next word, or nothing when there are no more; the last gets what is left. */
  ghost predicate Dealt(names: seq<string>, words: seq<string>, ws: seq<Write>)
    requires names != []
  {
    && |ws| == |names|
    && (forall i :: 0 <= i < |names| ==> ws[i].name == names[i])
    && (forall i :: 0 <= i < |names| - 1 ==> ws[i].text == if i < |words| then words[i] else "")
    && Words(ws[|names| - 1].text, 0) == if |names| - 1 <= |words| then words[|names| - 1..] else []
  }

  lemma {:induction false} WordsAreDealt(f: Frame, names: seq<string>)
    requires Fits(f) && names != []
    ensures Dealt(names, Words(f.source, f.scan), Writes(f, ByWords(names)))
    decreases |names|
  {
    ByWordsAre(names);
    if |names| == 1 {
      DealtLast(f, names[0]);
      assert Dealt(names, Words(f.source, f.scan), [Write(names[0], f.source[f.scan..])]);
      hide *;
    } else {
      hide *;
      var h, c := DealtFirst(f, names[0], ByWords(names[1..]));
      WordsAreDealt(h, names[1..]);
      DealtOn(names, Words(f.source, f.scan), f.source[c.from..c.upto], Words(f.source, c.next), Writes(h, ByWords(names[1..])));
    }
  }

  lemma ByWordsAre(names: seq<string>)
    requires names != []
    ensures |names| == 1 ==> ByWords(names) == [Aim(Name(names[0])), Fire(End)]
    ensures |names| > 1 ==> ByWords(names) == [Aim(Name(names[0])), Fire(Space)] + ByWords(names[1..])
  {
  }

  lemma DealtLast(f: Frame, name: string)
    requires Fits(f)
    ensures Writes(f, [Aim(Name(name)), Fire(End)]) == [Write(name, f.source[f.scan..])]
    ensures Words(f.source[f.scan..], 0) == Words(f.source, f.scan)
  {
    LastWrite(f, name);
    assert Tail(f.source, f.scan, f.source[f.scan..]);
    hide *;
    WordsShift(f.source, f.scan, f.source[f.scan..], 0);
  }

  lemma LastWrite(f: Frame, name: string)
    requires Fits(f)
    ensures Writes(f, [Aim(Name(name)), Fire(End)]) == [Write(name, f.source[f.scan..])]
  {
    assert [Aim(Name(name)), Fire(End)] == [Aim(Name(name)), Fire(End)] + [];
    var c := CutOf(f.source, f.scan, End, f.pools);
    assert f.source[c.from..c.upto] == f.source[f.scan..];
    hide CutOf, Set;
    WritesTwo(f, name, End, []);
  }

  lemma DealtFirst(f: Frame, name: string, rest: seq<Op>) returns (h: Frame, c: Cut)
    requires Fits(f)
    ensures Fits(h) && f.scan <= c.from <= c.upto <= |f.source| && c.next <= |f.source|
    ensures h.source == f.source && h.scan == c.next
    ensures Writes(f, [Aim(Name(name)), Fire(Space)] + rest) == [Write(name, f.source[c.from..c.upto])] + Writes(h, rest)
    ensures Trail(f, [Aim(Name(name)), Fire(Space)] + rest) == [c] + Trail(h, rest)
    ensures c == CutOf(f.source, f.scan, Space, f.pools)
    ensures var words := Words(f.source, f.scan);
            && (f.source[c.from..c.upto] == if words == [] then "" else words[0])
            && (Words(f.source, c.next) == if words == [] then [] else words[1..])
  {
    hide CutOf, Words, Writes, Trail;
    c := CutOf(f.source, f.scan, Space, f.pools);
    WordsNext(f.source, f.scan, c, f.pools);
    WritesTwo(f, name, Space, rest);
    h := Fired(Aimed(f, Name(name)).f, Space);
  }

  lemma DealtOn(names: seq<string>, words: seq<string>, text: string, more: seq<string>, rs: seq<Write>)
    requires |names| > 1
    requires text == (if words == [] then "" else words[0]) && more == (if words == [] then [] else words[1..])
    requires Dealt(names[1..], more, rs)
    ensures Dealt(names, words, [Write(names[0], text)] + rs)
  {
    var ws := [Write(names[0], text)] + rs;
    assert forall i :: 1 <= i < |names| ==> ws[i] == rs[i - 1] && names[i] == names[1..][i - 1];
    forall i | 1 <= i < |names| - 1
      ensures ws[i].text == if i < |words| then words[i] else ""
    {
      assert rs[i - 1].text == if i - 1 < |more| then more[i - 1] else "";
    }
    assert ws[|names| - 1] == rs[|names| - 2];
    assert (if |names| - 2 <= |more| then more[|names| - 2..] else []) ==
           if |names| - 1 <= |words| then words[|names| - 1..] else [];
  }

  // ----- several words before a pattern ------------------------------------------

  /** The cuts of n words, and the place behind them. */
  function WordCuts(s: string, scan: nat, n: nat): seq<Cut>
    requires scan <= |s|
    decreases n
  {
    if n == 0 then [] else
      var j := SkipSpaces(s, scan);
      var k := WordEnd(s, j);
      var next := if k < |s| then k + 1 else k;
      [Cut(j, k, next)] + WordCuts(s, next, n - 1)
  }

  function BehindWords(s: string, scan: nat, n: nat): (e: nat)
    requires scan <= |s|
    ensures scan <= e <= |s|
    decreases n
  {
    if n == 0 then scan else
      var k := WordEnd(s, SkipSpaces(s, scan));
      BehindWords(s, if k < |s| then k + 1 else k, n - 1)
  }

  /** n targets for words and one more before a pattern. */
  function WordsThen(names: seq<string>, last: string, p: string): seq<Op> {
    if names == [] then [Aim(Name(last)), Fire(Lit(p))]
    else [Aim(Name(names[0])), Fire(Space)] + WordsThen(names[1..], last, p)
  }

  /** The pattern is looked for only behind the words. */
  lemma {:induction false} WordsComeFirst(f: Frame, names: seq<string>, last: string, p: string)
    requires Fits(f) && p != ""
    ensures Trail(f, WordsThen(names, last, p)) ==
              WordCuts(f.source, f.scan, |names|) + [Found(f.source, p, BehindWords(f.source, f.scan, |names|))]
    decreases |names|
  {
    WordsThenIs(names, last, p);
    hide *;
    if names == [] {
      TrailLast(f, last, p);
    } else {
      var h, c := DealtFirst(f, names[0], WordsThen(names[1..], last, p));
      WordCutsNext(f.source, f.scan, |names|, f.pools);
      WordsComeFirst(h, names[1..], last, p);
    }
  }

  lemma WordsThenIs(names: seq<string>, last: string, p: string)
    ensures names == [] ==> WordsThen(names, last, p) == [Aim(Name(last)), Fire(Lit(p))]
    ensures names != [] ==> WordsThen(names, last, p) == [Aim(Name(names[0])), Fire(Space)] + WordsThen(names[1..], last, p)
  {
  }

  lemma TrailLast(f: Frame, last: string, p: string)
    requires Fits(f) && p != ""
    ensures Trail(f, [Aim(Name(last)), Fire(Lit(p))]) ==
              WordCuts(f.source, f.scan, 0) + [Found(f.source, p, BehindWords(f.source, f.scan, 0))]
  {
    hide Found, Set;
    assert [Aim(Name(last)), Fire(Lit(p))] == [Aim(Name(last)), Fire(Lit(p))] + [];
    WritesTwo(f, last, Lit(p), []);
    assert WordCuts(f.source, f.scan, 0) == [];
  }

  lemma WordCutsNext(s: string, scan: nat, n: nat, pools: Pools)
    requires scan <= |s| && n > 0
    ensures var c := CutOf(s, scan, Space, pools);
            && WordCuts(s, scan, n) == [c] + WordCuts(s, c.next, n - 1)
            && BehindWords(s, scan, n) == BehindWords(s, c.next, n - 1)
  {
  }

  /** The language's rule: the pattern first, then the words of what stands before it. */
  function Before(s: string, p: string, scan: nat): (t: string)
    requires scan <= |s|
    ensures scan <= |t| <= |s| && t == s[..|t|]
  {
    match FirstAt(s, p, scan) case Some(i) => s[..i] case None => s[..|s|]
  }

  function ByTheRule(s: string, scan: nat, n: nat, p: string): seq<Cut>
    requires scan <= |s|
  {
    var t := Before(s, p, scan);
    WordCuts(t, scan, n) + [Cut(BehindWords(t, scan, n), |t|, Found(s, p, scan).next)]
  }

  lemma {:induction false} ShorterText(s: string, t: string, scan: nat, n: nat)
    requires scan <= |t| <= |s| && t == s[..|t|]
    requires BehindWords(s, scan, n) <= |t| && (|t| < |s| || t == s)
    ensures WordCuts(t, scan, n) == WordCuts(s, scan, n) || BehindWords(s, scan, n) == |s|
    ensures |t| < |s| ==> WordCuts(t, scan, n) == WordCuts(s, scan, n) && BehindWords(t, scan, n) == BehindWords(s, scan, n)
    decreases n
  {
    if n > 0 && |t| < |s| {
      var j := SkipSpaces(s, scan);
      var k := WordEnd(s, j);
      assert k + 1 <= |t|;
      SkipIn(s, t, scan, j);
      WordIn(s, t, j, k);
      hide SkipSpaces, WordEnd;
      ShorterText(s, t, k + 1, n - 1);
    }
  }

  lemma {:induction false} SkipIn(s: string, t: string, i: nat, j: nat)
    requires i <= j < |t| <= |s| && t == s[..|t|]
    requires SkipSpaces(s, i) == j
    ensures SkipSpaces(t, i) == j
    decreases |t| - i
  {
    if i < j {
      SkipIn(s, t, i + 1, j);
    }
  }

  lemma {:induction false} WordIn(s: string, t: string, i: nat, j: nat)
    requires i <= j < |t| <= |s| && t == s[..|t|]
    requires WordEnd(s, i) == j
    ensures WordEnd(t, i) == j
    decreases |t| - i
  {
    if i < j {
      WordIn(s, t, i + 1, j);
    }
  }

  /**
   * Several words before a pattern follow the language's rule exactly when the words,
   * each with the blank behind it, end before the pattern's first occurrence or the
   * pattern does not occur.
   */
  lemma WordsBeforePattern(f: Frame, names: seq<string>, last: string, p: string)
    requires Fits(f) && p != ""
    ensures (Trail(f, WordsThen(names, last, p)) == ByTheRule(f.source, f.scan, |names|, p))
            <==> (FirstAt(f.source, p, f.scan).None?
                  || BehindWords(f.source, f.scan, |names|) <= FirstAt(f.source, p, f.scan).value)
  {
    WordsComeFirst(f, names, last, p);
    hide *;
    RuleAgrees(f.source, f.scan, |names|, p);
  }

  lemma RuleAgrees(s: string, scan: nat, n: nat, p: string)
    requires scan <= |s| && p != ""
    ensures (WordCuts(s, scan, n) + [Found(s, p, BehindWords(s, scan, n))] == ByTheRule(s, scan, n, p))
            <==> (FirstAt(s, p, scan).None? || BehindWords(s, scan, n) <= FirstAt(s, p, scan).value)
  {
    match FirstAt(s, p, scan)
    case None => RuleNone(s, scan, n, p);
    case Some(i) =>
      if BehindWords(s, scan, n) <= i {
        RuleWords(s, scan, n, p, i);
      } else {
        RuleFails(s, scan, n, p, i);
      }
  }

  lemma RuleNone(s: string, scan: nat, n: nat, p: string)
    requires scan <= |s| && p != "" && FirstAt(s, p, scan) == None
    ensures WordCuts(s, scan, n) + [Found(s, p, BehindWords(s, scan, n))] == ByTheRule(s, scan, n, p)
  {
    hide WordCuts, BehindWords;
    var e := BehindWords(s, scan, n);
    assert s[..|s|] == s;
    FirstMeans(s, p, scan);
    FirstMeans(s, p, e);
    hide FirstAt, OccursAt;
    assert FirstAt(s, p, e).None?;
  }

  lemma RuleWords(s: string, scan: nat, n: nat, p: string, i: nat)
    requires scan <= |s| && p != "" && FirstAt(s, p, scan) == Some(i)
    requires BehindWords(s, scan, n) <= i
    ensures WordCuts(s, scan, n) + [Found(s, p, BehindWords(s, scan, n))] == ByTheRule(s, scan, n, p)
  {
    hide WordCuts, BehindWords, FirstAt, SkipSpaces, WordEnd;
    var t := Before(s, p, scan);
    var e := BehindWords(s, scan, n);
    FirstLater(s, p, scan, e, i);
    hide OccursAt;
    ShorterText(s, t, scan, n);
  }

  lemma FirstLater(s: string, p: string, scan: nat, e: nat, i: nat)
    requires p != "" && FirstAt(s, p, scan) == Some(i) && scan <= e <= i
    ensures FirstAt(s, p, e) == Some(i) && i < |s|
  {
    FirstMeans(s, p, scan);
    FirstIs(s, p, e, i);
  }

  lemma RuleFails(s: string, scan: nat, n: nat, p: string, i: nat)
    requires scan <= |s| && p != "" && FirstAt(s, p, scan) == Some(i)
    requires i < BehindWords(s, scan, n)
    ensures WordCuts(s, scan, n) + [Found(s, p, BehindWords(s, scan, n))] != ByTheRule(s, scan, n, p)
  {
    WordCutsCount(s, scan, n);
    WordCutsCount(Before(s, p, scan), scan, n);
    hide WordCuts, BehindWords, FirstAt;
    assert Found(s, p, BehindWords(s, scan, n)).upto >= BehindWords(s, scan, n);
    assert ByTheRule(s, scan, n, p)[n].upto == i;
  }

  lemma {:induction false} WordCutsCount(s: string, scan: nat, n: nat)
    requires scan <= |s|
    ensures |WordCuts(s, scan, n)| == n
    decreases n
  {
    if n > 0 {
      var k := WordEnd(s, SkipSpaces(s, scan));
      WordCutsCount(s, if k < |s| then k + 1 else k, n - 1);
    }
  }
}
