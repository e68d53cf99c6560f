/** PARSE at run time: a scan pointer over the source, one pending target, and triggers that cut. */
module ParseMachine {
  import opened Options
  import opened NumberText
  import opened IntegerFastPath
  import opened VarPool

  const STR_MAX := 63

  predicate IsSpace(c: char) {
    c == ' ' || c == '\t' || c == '\n' || c as int == 11 || c as int == 12 || c == '\r'
  }

  datatype Tail = Text(text: string) | Value(name: string)

  datatype Target = Name(name: string) | Dot | Compound(stem: string, tails: seq<Tail>)

  datatype Trigger =
    | Space
    | Lit(pattern: string)
    | Indirect(name: string)
    | Column(col: nat)
    | Relative(off: int)
    | End

  /** Instructions of the sub-machine: name the next target, or cut and assign to it. */
  datatype Op = Aim(target: Target) | Fire(trigger: Trigger)

  /** What the sub-machine keeps between instructions, and the variables it assigns. */
  datatype Frame = Frame(source: string, scan: nat, name: Option<string>, dot: bool, compound: string, pools: Pools)

  /** source[from..upto] goes to the target and scanning goes on at next. */
  datatype Cut = Cut(from: nat, upto: nat, next: nat)

  function SkipSpaces(s: string, i: nat): (j: nat)
    requires i <= |s|
    ensures i <= j <= |s|
    decreases |s| - i
  {
    if i < |s| && IsSpace(s[i]) then SkipSpaces(s, i + 1) else i
  }

  function WordEnd(s: string, i: nat): (j: nat)
    requires i <= |s|
    ensures i <= j <= |s|
    decreases |s| - i
  {
    if i < |s| && !IsSpace(s[i]) then WordEnd(s, i + 1) else i
  }

  predicate OccursAt(s: string, p: string, i: int) {
    0 <= i && i + |p| <= |s| && s[i..i + |p|] == p
  }

  /** The first occurrence of a pattern at or after a position. */
  function FirstAt(s: string, p: string, i: nat): (r: Option<nat>)
    ensures r.Some? ==> i <= r.value && r.value + |p| <= |s|
    decreases |s| - i
  {
    if i + |p| > |s| then None else if s[i..i + |p|] == p then Some(i) else FirstAt(s, p, i + 1)
  }

  function Found(s: string, p: string, scan: nat): Cut
    requires scan <= |s|
  {
    match FirstAt(s, p, scan)
    case Some(i) => Cut(scan, i, i + |p|)
    case None => Cut(scan, |s|, |s|)
  }

  function CutOf(s: string, scan: nat, g: Trigger, pools: Pools): (c: Cut)
    requires scan <= |s|
    ensures scan <= c.from <= c.upto <= |s| && c.next <= |s|
  {
    match g
    case Space =>
      var j := SkipSpaces(s, scan);
      var k := WordEnd(s, j);
      Cut(j, k, if k < |s| then k + 1 else k)
    case Lit(p) => Found(s, p, scan)
    case Indirect(n) =>
      var v := Get(pools, n);
      if v.None? || v.value.text == "" then Cut(scan, scan, scan) else Found(s, v.value.text, scan)
    case Column(col) =>
      var to := if col < 1 then 0 else if col - 1 > |s| then |s| else col - 1;
      Cut(scan, if to > scan then to else scan, to)
    case Relative(off) =>
      if off >= 0 then
        var to := if scan + off > |s| then |s| else scan + off;
        Cut(scan, to, to)
      else
        Cut(scan, scan, if scan + off >= 0 then scan + off else 0)
    case End => Cut(scan, |s|, |s|)
  }

  // ----- targets --------------------------------------------------------------

  function Upper(c: char): char { if 'a' <= c <= 'z' then c - 32 as char else c }

  function UpperText(s: string): (r: string)
    ensures |r| == |s| && forall i :: 0 <= i < |s| ==> r[i] == Upper(s[i])
  {
    if s == "" then "" else [Upper(s[0])] + UpperText(s[1..])
  }

  function TailText(t: Tail, pools: Pools): string {
    match t
    case Text(s) => s
    case Value(n) => match Get(pools, n) case Some(c) => c.text case None => n
  }

  /** Tails joined with periods behind the stem. */
  function Tailed(stem: string, tails: seq<Tail>, pools: Pools): string {
    if tails == [] then stem
    else
      var last := |tails| - 1;
      (Tailed(stem, tails[..last], pools) + if last > 0 then "." else "") + UpperText(TailText(tails[last], pools))
  }

  datatype Run = Going(f: Frame) | TooLong

  function Aimed(f: Frame, t: Target): Run {
    match t
    case Name(n) => Going(f.(name := Some(n), dot := false, compound := ""))
    case Dot => Going(f.(name := None, dot := true))
    case Compound(stem, tails) =>
      var n := Tailed(stem, tails, f.pools);
      if |n| > STR_MAX then TooLong else Going(f.(name := None, dot := false, compound := n))
  }

  /** Where the next slice goes, if anywhere. */
  function Pending(f: Frame): Option<string> {
    if f.dot then None else if f.name.Some? then f.name else if f.compound != "" then Some(f.compound) else None
  }

  function Assigned(f: Frame, c: Cut): Frame
    requires c.from <= c.upto <= |f.source|
  {
    var pools := match Pending(f)
                 case Some(n) => Set(f.pools, n, Cell(f.source[c.from..c.upto], None))
                 case None => f.pools;
    Frame(f.source, c.next, None, false, "", pools)
  }

  predicate Fits(f: Frame) { f.scan <= |f.source| }

  /** An empty literal pattern cuts nothing: the target named before it is forgotten. */
  function Fired(f: Frame, g: Trigger): (r: Frame)
    requires Fits(f)
    ensures Fits(r) && r.source == f.source
  {
    if g == Lit("") then f.(name := None, dot := false)
    else Assigned(f, CutOf(f.source, f.scan, g, f.pools))
  }

  function Step(f: Frame, op: Op): (r: Run)
    requires Fits(f)
    ensures r.Going? ==> Fits(r.f) && r.f.source == f.source
  {
    match op
    case Aim(t) => Aimed(f, t)
    case Fire(g) => Going(Fired(f, g))
  }

  function Steps(f: Frame, ops: seq<Op>): (r: Run)
    requires Fits(f)
    ensures r.Going? ==> Fits(r.f) && r.f.source == f.source
    decreases |ops|
  {
    if ops == [] then Going(f)
    else match Step(f, ops[0])
         case TooLong => TooLong
         case Going(g) => Steps(g, ops[1..])
  }

  function Opened(text: string, upper: bool, pools: Pools): (f: Frame)
    ensures Fits(f)
  {
    Frame(if upper then UpperText(text) else text, 0, None, false, "", pools)
  }

  // ----- the machine ----------------------------------------------------------

  lemma UpperSplit(s: string, k: nat)
    requires k < |s|
    ensures UpperText(s[..k + 1]) == UpperText(s[..k]) + [Upper(s[k])]
  {
    if k > 0 {
      UpperSplit(s[1..], k - 1);
      assert s[1..][..k] == s[..k + 1][1..] && s[1..][..k - 1] == s[..k][1..];
    } else {
      assert s[..1] == [s[0]];
    }
  }

  /** The name with its first k tails. */
  function Part(stem: string, tails: seq<Tail>, k: nat, pools: Pools): string
    requires k <= |tails|
  {
    Tailed(stem, tails[..k], pools)
  }

  /** One tail more; a longer list of tails gives a longer name. */
  lemma {:induction false} PartNext(stem: string, tails: seq<Tail>, k: nat, pools: Pools)
    requires k < |tails|
    ensures Part(stem, tails, k + 1, pools) ==
              (Part(stem, tails, k, pools) + if k > 0 then "." else "") + UpperText(TailText(tails[k], pools))
    ensures |Part(stem, tails, k + 1, pools)| <= |Tailed(stem, tails, pools)|
    decreases |tails| - k
  {
    assert tails[..k + 1][..k] == tails[..k];
    if k + 1 < |tails| {
      PartNext(stem, tails, k + 1, pools);
    } else {
      assert tails[..k + 1] == tails;
    }
  }

  lemma PartEnds(stem: string, tails: seq<Tail>, pools: Pools)
    ensures Part(stem, tails, 0, pools) == stem
    ensures Part(stem, tails, |tails|, pools) == Tailed(stem, tails, pools)
  {
    assert tails[..|tails|] == tails;
  }

  class ParseFrame {
    var source: string
    var scan: nat
    var upper: bool
    var curName: Option<string>
    var curDot: bool
    var curCompound: string
    var active: bool
    var pools: Pools

    ghost function View(): Frame
      reads this
    {
      Frame(source, scan, curName, curDot, curCompound, pools)
    }

    ghost predicate Valid()
      reads this
    {
      Fits(View())
    }

    constructor (p: Pools)
      ensures Valid() && View() == Opened("", false, p)
    {
      source, scan, upper, curName, curDot, curCompound, active, pools := "", 0, false, None, false, "", false, p;
    }

    method Begin(text: string, up: bool)
      requires curCompound == ""
      modifies this
      ensures Valid() && active && View() == Opened(text, up, old(pools))
    {
      upper, scan, curName, curDot, source := up, 0, None, false, text;
      if upper {
        var ui := 0;
        while ui < |source|
          invariant 0 <= ui <= |source| == |text|
          invariant scan == 0 && curName == None && !curDot && curCompound == "" && pools == old(pools)
          invariant forall i :: 0 <= i < |text| ==> source[i] == if i < ui then Upper(text[i]) else text[i]
        {
          source := source[ui := Upper(source[ui])];
          ui := ui + 1;
        }
        assert source == UpperText(text);
      }
      active := true;
    }

    method Finish()
      modifies this
      ensures Valid() && !active && source == "" && scan == 0 && curCompound == "" && pools == old(pools)
    {
      source, active, scan, curCompound := "", false, 0, "";
    }

    /** The slice goes to the pending target; only a blank trigger looks for a word. */
    method Assign(end: nat, newScan: nat, lastReal: bool)
      requires Valid() && newScan <= |source|
      modifies this
      ensures Valid()
      ensures lastReal && old(scan) <= end <= |old(source)| ==> View() == Assigned(old(View()), Cut(old(scan), end, newScan))
      ensures !lastReal && end == |old(source)| ==> View() == Fired(old(View()), Space)
    {
      var segEnd := if end > |source| then |source| else end;
      segEnd := if segEnd < scan then scan else segEnd;
      var start := scan;
      var valueEnd := segEnd;
      if lastReal {
        scan := newScan;
      } else {
        while start < segEnd && IsSpace(source[start])
          invariant scan <= start <= segEnd <= |source|
          invariant segEnd == |source| ==> SkipSpaces(source, scan) == SkipSpaces(source, start)
        {
          start := start + 1;
        }
        valueEnd := start;
        while valueEnd < segEnd && !IsSpace(source[valueEnd])
          invariant start <= valueEnd <= segEnd
          invariant segEnd == |source| ==> WordEnd(source, start) == WordEnd(source, valueEnd)
        {
          valueEnd := valueEnd + 1;
        }
        scan := if valueEnd < segEnd then valueEnd + 1 else valueEnd;
      }
      if !curDot {
        if curName.Some? {
          pools := Set(pools, curName.value, Cell(source[start..valueEnd], None));
        } else if |curCompound| > 0 {
          pools := Set(pools, curCompound, Cell(source[start..valueEnd], None));
        }
      }
      curName, curDot, curCompound := None, false, "";
    }

    method PVar(n: string)
      requires Valid()
      modifies this
      ensures Valid() && Going(View()) == Step(old(View()), Aim(Name(n)))
    {
      curName, curDot, curCompound := Some(n), false, "";
    }

    method PDot()
      requires Valid()
      modifies this
      ensures Valid() && Going(View()) == Step(old(View()), Aim(Dot))
    {
      curName, curDot := None, true;
    }

    /** The text in upper case behind the name, unless there is no room for it. */
    method AppendUpper(name: string, text: string) returns (ok: bool, longer: string)
      requires |name| <= STR_MAX
      ensures ok <==> |name| + |text| <= STR_MAX
      ensures ok ==> longer == name + UpperText(text)
    {
      longer := name;
      var m := 0;
      while m < |text|
        invariant 0 <= m <= |text|
        invariant longer == name + UpperText(text[..m]) && |longer| <= STR_MAX
      {
        if |longer| >= STR_MAX {
          return false, longer;
        }
        UpperSplit(text, m);
        longer := longer + [Upper(text[m])];
        m := m + 1;
      }
      assert text[..m] == text;
      ok := true;
    }

    /** Stem and tails put together, as long as there is room. */
    method BuildName(stem: string, tails: seq<Tail>) returns (ok: bool, name: string)
      requires |stem| <= STR_MAX
      ensures ok <==> |Tailed(stem, tails, pools)| <= STR_MAX
      ensures ok ==> name == Tailed(stem, tails, pools)
    {
      PartEnds(stem, tails, pools);
      hide *;
      name := stem;
      var k := 0;
      while k < |tails|
        invariant 0 <= k <= |tails|
        invariant name == Part(stem, tails, k, pools) && |name| <= STR_MAX
      {
        PartNext(stem, tails, k, pools);
        if k > 0 {
          if |name| >= STR_MAX {
            return false, name;
          }
          name := name + ".";
        }
        var fits;
        fits, name := AppendUpper(name, TailText(tails[k], pools));
        if !fits {
          return false, name;
        }
        k := k + 1;
      }
      ok := true;
    }

    method PVarStem(stem: string, tails: seq<Tail>) returns (ok: bool)
      requires Valid() && |stem| <= STR_MAX
      modifies this
      ensures Valid()
      ensures (if ok then Going(View()) else TooLong) == Step(old(View()), Aim(Compound(stem, tails)))
      ensures !ok ==> View() == old(View())
    {
      var name;
      ok, name := BuildName(stem, tails);
      if ok {
        curCompound, curName, curDot := name, None, false;
      }
    }

    /** The first place from the scan pointer on where the pattern stands. */
    method Search(p: string) returns (found: int)
      requires Valid()
      ensures found == match FirstAt(source, p, scan) case Some(i) => i as int case None => -1
    {
      found := -1;
      var si := scan;
      while si + |p| <= |source|
        invariant scan <= si && FirstAt(source, p, scan) == FirstAt(source, p, si)
        decreases |source| - si
      {
        if source[si..si + |p|] == p {
          return si;
        }
        si := si + 1;
      }
    }

    method TrLit(p: string)
      requires Valid()
      modifies this
      ensures Valid() && View() == Fired(old(View()), Lit(p))
    {
      if |p| <= 0 {
        curName, curDot := None, false;
        return;
      }
      var found := Search(p);
      if found >= 0 {
        Assign(found, found + |p|, true);
      } else {
        Assign(|source|, |source|, true);
      }
    }

    method TrVar(n: string)
      requires Valid()
      modifies this
      ensures Valid() && View() == Fired(old(View()), Indirect(n))
    {
      var v := Get(pools, n);
      if v.None? || |v.value.text| <= 0 {
        Assign(scan, scan, true);
        return;
      }
      var found := Search(v.value.text);
      if found >= 0 {
        Assign(found, found + |v.value.text|, true);
      } else {
        Assign(|source|, |source|, true);
      }
    }

    method TrAbs(col: nat)
      requires Valid()
      modifies this
      ensures Valid() && View() == Fired(old(View()), Column(col))
    {
      var npos := if col >= 1 then col - 1 else 0;
      if npos > |source| {
        npos := |source|;
      }
      Assign(if npos > scan then npos else scan, npos, true);
    }

    method TrRel(off: int)
      requires Valid()
      modifies this
      ensures Valid() && View() == Fired(old(View()), Relative(off))
    {
      if off >= 0 {
        var newScan := scan + off;
        if newScan > |source| {
          newScan := |source|;
        }
        Assign(newScan, newScan, true);
      } else {
        var n := -off;
        Assign(scan, if scan >= n then scan - n else 0, true);
      }
    }

    /** One clause's template: every instruction in turn, until a name comes out too long. */
    method Execute(ops: seq<Op>) returns (ok: bool)
      requires Valid()
      requires forall i :: 0 <= i < |ops| && ops[i].Aim? && ops[i].target.Compound? ==> |ops[i].target.stem| <= STR_MAX
      modifies this
      ensures Valid()
      ensures (if ok then Going(View()) else TooLong) == Steps(old(View()), ops)
    {
      var i := 0;
      while i < |ops|
        invariant 0 <= i <= |ops| && Valid()
        invariant Steps(View(), ops[i..]) == Steps(old(View()), ops)
      {
        ghost var before := View();
        assert ops[i..][0] == ops[i] && ops[i..][1..] == ops[i + 1..];
        match ops[i] {
          case Aim(Name(n)) => PVar(n);
          case Aim(Dot) => PDot();
          case Aim(Compound(stem, tails)) =>
            var fine := PVarStem(stem, tails);
            if !fine {
              return false;
            }
          case Fire(Space) => Assign(|source|, 0, false);
          case Fire(Lit(p)) => TrLit(p);
          case Fire(Indirect(n)) => TrVar(n);
          case Fire(Column(col)) => TrAbs(col);
          case Fire(Relative(off)) => TrRel(off);
          case Fire(End) => Assign(|source|, |source|, true);
        }
        assert Step(before, ops[i]) == Going(View());
        i := i + 1;
      }
      ok := true;
    }
  }
}
