/** How each operator is written, and what stands between the quotes of a literal. */
module Spellings {
  import opened Options
  import opened Bytecode
  import opened Tokens
  import opened ExprSyntax
  import opened ExprGrammar

  /** Each operator with its level and every way to write it; \ is the not sign, whatever its character. */
  const TABLE: seq<(nat, BinOp, string)> :=
    [(0, Or, "|"), (0, Xor, "&&"), (1, And, "&"),
     (2, Eq, "="), (2, Ne, "\\="), (2, Ne, "<>"), (2, Ne, "><"),
     (2, Gt, ">"), (2, Lt, "<"), (2, Ge, ">="), (2, Ge, "\\<"), (2, Le, "<="), (2, Le, "\\>"),
     (2, Deq, "=="), (2, Dne, "\\=="), (2, Dgt, ">>"), (2, Dlt, "<<"), (2, Dge, ">>="), (2, Dle, "<<="),
     (3, Concat, "||"), (4, Add, "+"), (4, Sub, "-"), (5, Mul, "*"), (5, Div, "/"), (5, IDiv, "%"), (5, Mod, "//"), (6, Power, "**")]

  /** A token for each character. */
  predicate WrittenAs(sign: seq<Token>, w: string)
  {
    |sign| == |w| && forall i :: 0 <= i < |w| ==> StandsFor(sign[i], w[i])
  }

  predicate StandsFor(t: Token, c: char)
  {
    if c == '\\' then t.kind == NotSign
    else t.text != "" && t.text[0] == c
         && t.kind == (if c in "<=>" then Kind.Comparison else if c in "|&" then Kind.Logical else Operator)
  }

  ghost predicate InTable(sign: seq<Token>, k: nat, op: BinOp)
  {
    exists i :: 0 <= i < |TABLE| && TABLE[i].0 == k && TABLE[i].1 == op && WrittenAs(sign, TABLE[i].2)
  }

  /** Written so and in no other way. */
  lemma OperatorsAreSpelled(sign: seq<Token>, k: nat, op: BinOp)
    ensures Spells(sign, k, op) <==> InTable(sign, k, op)
  {
    hide Spells, InTable;
    if Spells(sign, k, op) { SpellingFound(sign, k, op); }
    if InTable(sign, k, op) {
      var i := RowOf(sign, k, op);
      RowSpells(sign, i);
    }
  }

  lemma RowOf(sign: seq<Token>, k: nat, op: BinOp) returns (i: nat)
    requires InTable(sign, k, op)
    ensures i < |TABLE| && TABLE[i].0 == k && TABLE[i].1 == op && WrittenAs(sign, TABLE[i].2)
  {
    hide WrittenAs;
    i :| 0 <= i < |TABLE| && TABLE[i].0 == k && TABLE[i].1 == op && WrittenAs(sign, TABLE[i].2);
  }

  lemma RowSpells(sign: seq<Token>, i: nat)
    requires i < |TABLE| && WrittenAs(sign, TABLE[i].2)
    ensures Spells(sign, TABLE[i].0, TABLE[i].1)
  {
    hide Spells, WrittenAs;
    if 3 <= i <= 12 { ComparisonSpells(sign, i); } else if 13 <= i <= 18 { StrictSpells(sign, i); } else { OtherSpells(sign, i); }
  }

  lemma ComparisonSpells(sign: seq<Token>, i: nat)
    requires 3 <= i <= 12 && WrittenAs(sign, TABLE[i].2)
    ensures Spells(sign, TABLE[i].0, TABLE[i].1)
  {
    hide Adjacent, IsBarrier, StartsValue;
    var s: Source := sign + [END];
    var w := TABLE[i].2;
    assert 1 <= |w| <= 2;
    assert s[0] == sign[0] && s[|w|] == END && StandsFor(sign[0], w[0]);
    if |w| >= 2 { assert s[1] == sign[1] && StandsFor(sign[1], w[1]); }
  }

  lemma StrictSpells(sign: seq<Token>, i: nat)
    requires 13 <= i <= 18 && WrittenAs(sign, TABLE[i].2)
    ensures Spells(sign, TABLE[i].0, TABLE[i].1)
  {
    hide Adjacent, IsBarrier, StartsValue;
    var s: Source := sign + [END];
    var w := TABLE[i].2;
    assert 2 <= |w| <= 3;
    assert s[0] == sign[0] && s[|w|] == END && StandsFor(sign[0], w[0]);
    if |w| >= 2 { assert s[1] == sign[1] && StandsFor(sign[1], w[1]); }
    if |w| >= 3 { assert s[2] == sign[2] && StandsFor(sign[2], w[2]); }
  }

  lemma OtherSpells(sign: seq<Token>, i: nat)
    requires (i < 3 || 18 < i < |TABLE|) && WrittenAs(sign, TABLE[i].2)
    ensures Spells(sign, TABLE[i].0, TABLE[i].1)
  {
    hide Adjacent, IsBarrier, StartsValue, CompareSign;
    var s: Source := sign + [END];
    var w := TABLE[i].2;
    assert 1 <= |w| <= 2;
    assert s[0] == sign[0] && s[|w|] == END && StandsFor(sign[0], w[0]);
    if |w| >= 2 { assert s[1] == sign[1] && StandsFor(sign[1], w[1]); }
  }

  lemma SpellingFound(sign: seq<Token>, k: nat, op: BinOp)
    requires Spells(sign, k, op)
    ensures InTable(sign, k, op)
  {
    hide OpAt, InTable, WrittenAs;
    var i := Place(sign, k, op);
    if k == 2 {
      if sign[0].kind == NotSign { InvertedFound(sign, op); }
      else if |sign| == 1 { SingleFound(sign, op); }
      else if |sign| == 2 { ComparisonFound(sign, op); }
      else { LongFound(sign, op); }
    }
    else if k == 5 { ProductFound(sign, op); }
    else if k <= 1 { LogicFound(sign, k, op); }
    else { OtherFound(sign, k, op); }
    InRow(sign, i);
  }

  lemma InRow(sign: seq<Token>, i: nat)
    requires i < |TABLE| && WrittenAs(sign, TABLE[i].2)
    ensures InTable(sign, TABLE[i].0, TABLE[i].1)
  {
  }

  /** The row of the table: where two spellings mean the same, the first token tells them apart. */
  function Place(sign: seq<Token>, k: nat, op: BinOp): (i: nat)
    requires sign != []
    ensures i < |TABLE|
  {
    if k == 0 then (if op.Or? then 0 else 1)
    else if k == 1 then 2
    else if k == 2 then
      var inverted := sign[0].kind == NotSign;
      match op
      case Eq => 3 case Ne => if inverted then 4 else if sign[0].text != "" && sign[0].text[0] == '<' then 5 else 6
      case Gt => 7 case Lt => 8 case Ge => if inverted then 10 else 9 case Le => if inverted then 12 else 11
      case Deq => 13 case Dne => 14 case Dgt => 15 case Dlt => 16 case Dge => 17 case _ => 18
    else if k == 3 then 19
    else if k == 4 then (if op.Add? then 20 else 21)
    else if k == 5 then (match op case Mul => 22 case Div => 23 case IDiv => 24 case _ => 25)
    else 26
  }

  lemma ComparisonFound(sign: seq<Token>, op: BinOp)
    requires Spells(sign, 2, op) && sign[0].kind != NotSign && |sign| == 2
    ensures var i := Place(sign, 2, op); TABLE[i].0 == 2 && TABLE[i].1 == op && WrittenAs(sign, TABLE[i].2)
  {
    hide Adjacent, IsBarrier, StartsValue;
    var s: Source := sign + [END];
    assert s[0] == sign[0] && s[|sign|] == END;
    assert s[1] == sign[1];
  }

  lemma LongFound(sign: seq<Token>, op: BinOp)
    requires Spells(sign, 2, op) && sign[0].kind != NotSign && |sign| >= 3
    ensures var i := Place(sign, 2, op); TABLE[i].0 == 2 && TABLE[i].1 == op && WrittenAs(sign, TABLE[i].2)
  {
    hide Adjacent, IsBarrier, StartsValue;
    var s: Source := sign + [END];
    assert s[0] == sign[0] && s[|sign|] == END;
    assert s[1] == sign[1] && s[2] == sign[2];
  }

  lemma SingleFound(sign: seq<Token>, op: BinOp)
    requires Spells(sign, 2, op) && sign[0].kind != NotSign && |sign| == 1
    ensures var i := Place(sign, 2, op); TABLE[i].0 == 2 && TABLE[i].1 == op && WrittenAs(sign, TABLE[i].2)
  {
    hide Adjacent, IsBarrier, StartsValue;
    var s: Source := sign + [END];
    assert s[0] == sign[0] && s[|sign|] == END;
  }

  lemma InvertedFound(sign: seq<Token>, op: BinOp)
    requires Spells(sign, 2, op) && sign[0].kind == NotSign
    ensures var i := Place(sign, 2, op); TABLE[i].0 == 2 && TABLE[i].1 == op && WrittenAs(sign, TABLE[i].2)
  {
    hide Adjacent, IsBarrier, StartsValue;
    var s: Source := sign + [END];
    assert s[0] == sign[0] && s[|sign|] == END;
    if |sign| >= 2 { assert s[1] == sign[1]; }
    if |sign| >= 3 { assert s[2] == sign[2]; }
  }

  lemma ProductFound(sign: seq<Token>, op: BinOp)
    requires Spells(sign, 5, op)
    ensures var i := Place(sign, 5, op); TABLE[i].0 == 5 && TABLE[i].1 == op && WrittenAs(sign, TABLE[i].2)
  {
    hide Adjacent, IsBarrier, StartsValue, CompareSign;
    var s: Source := sign + [END];
    assert s[0] == sign[0] && s[|sign|] == END;
    if |sign| >= 2 { assert s[1] == sign[1]; }
  }

  lemma LogicFound(sign: seq<Token>, k: nat, op: BinOp)
    requires Spells(sign, k, op) && k <= 1
    ensures var i := Place(sign, k, op); TABLE[i].0 == k && TABLE[i].1 == op && WrittenAs(sign, TABLE[i].2)
  {
    hide Adjacent, IsBarrier, CompareSign;
    var s: Source := sign + [END];
    assert s[0] == sign[0] && s[|sign|] == END;
    if |sign| >= 2 { assert s[1] == sign[1]; }
  }

  lemma OtherFound(sign: seq<Token>, k: nat, op: BinOp)
    requires Spells(sign, k, op) && k in {3, 4, 6}
    ensures var i := Place(sign, k, op); TABLE[i].0 == k && TABLE[i].1 == op && WrittenAs(sign, TABLE[i].2)
  {
    hide Adjacent, IsBarrier, CompareSign;
    var s: Source := sign + [END];
    assert s[0] == sign[0] && s[|sign|] == END;
    if |sign| >= 2 { assert s[1] == sign[1]; }
  }

  /** A token as it stands in the source, quotes and the letter behind them included. */
  function InSource(t: Token): string
  {
    if t.kind == String then ['"'] + t.text + ['"']
    else if t.kind == HexString then ['"'] + t.text + "\"x"
    else if t.kind == BinString then ['"'] + t.text + "\"b"
    else t.text
  }

  /** Two operands are joined without a blank if one starts in the column behind the other's last character. */
  lemma SideBySide(ts: Source, i: nat)
    requires 1 <= i < |ts| && CanFollow(ts[i])
    ensures var abut := ts[i - 1].line == ts[i].line && ts[i].col == ts[i - 1].col + |InSource(ts[i - 1])|;
            OpAt(ts, 3, i) == Some((if abut then Concat else BConcat, 0))
  {
    hide Adjacent, BarrierWord;
    ValueStands(ts, i);
    AbutsAt(ts[i - 1], ts[i]);
  }

  lemma AbutsAt(a: Token, b: Token)
    ensures Adjacent(a, b) <==> a.line == b.line && b.col == a.col + |InSource(a)|
  {
  }

  // ---- Literals ---------------------------------------------------------------------------------

  /** A text as a literal holds it: the quote around it doubled wherever it stands. */
  function Doubled(body: string, quote: char): string
  {
    if body == "" then "" else (if body[0] == quote then [quote, quote] else [body[0]]) + Doubled(body[1..], quote)
  }

  predicate IsLiteral(t: Token, body: string, quote: char)
  {
    t.text == Doubled(body, quote) && t.doubled == (quote in body)
  }

  lemma {:induction false} DoubledBack(body: string, quote: char)
    ensures Dedouble(Doubled(body, quote), quote) == body
  {
    if body != "" {
      DoubledBack(body[1..], quote);
      var rest := Doubled(body[1..], quote);
      if body[0] == quote { assert ([quote, quote] + rest)[2..] == rest; } else { assert ([body[0]] + rest)[1..] == rest; }
      assert body == [body[0]] + body[1..];
    }
  }

  lemma {:induction false} NothingDoubled(body: string, quote: char)
    requires quote !in body
    ensures Doubled(body, quote) == body
  {
    if body != "" { NothingDoubled(body[1..], quote); }
  }

  /** Doubling one quote neither makes nor breaks pairs of the other. */
  lemma {:induction false} PairsStay(body: string, quote: char, other: char)
    requires quote != other
    ensures HasPair(Doubled(body, quote), other) <==> HasPair(body, other)
  {
    if body != "" {
      PairsStay(body[1..], quote, other);
      PairAhead(body, other);
      var rest := Doubled(body[1..], quote);
      var t := Doubled(body, quote);
      PairAhead(t, other);
      if body[0] == quote { PairAhead(t[1..], other); assert t[1..][1..] == rest; } else { assert t[1..] == rest; }
      if |body| > 1 { assert rest[0] == body[1]; }
    }
  }

  lemma PairAhead(t: string, q: char)
    requires t != ""
    ensures HasPair(t, q) <==> HasPair(t[1..], q) || (|t| > 1 && t[0] == t[1] == q)
  {
    if HasPair(t, q) {
      var k :| 0 <= k < |t| - 1 && t[k] == q && t[k + 1] == q;
      if k > 0 { assert t[1..][k - 1] == q && t[1..][k] == q; }
    }
    if HasPair(t[1..], q) {
      var k :| 0 <= k < |t[1..]| - 1 && t[1..][k] == q && t[1..][k + 1] == q;
      assert t[k + 1] == q && t[k + 1 + 1] == q;
    }
  }

  lemma {:induction false} PairsMade(body: string, quote: char)
    requires quote in body
    ensures HasPair(Doubled(body, quote), quote)
  {
    var t := Doubled(body, quote);
    PairAhead(t, quote);
    if body[0] != quote {
      PairsMade(body[1..], quote);
      assert t[1..] == Doubled(body[1..], quote);
    }
  }

  /** A literal is read as what was written between its quotes, if the guess at the quote is right. */
  predicate Guessed(body: string, quote: char)
  {
    quote == '"' && quote in body ==> !HasPair(body, '\'')
  }

  lemma LiteralIsRead(t: Token, body: string, quote: char)
    requires IsLiteral(t, body, quote) && (quote == '\'' || quote == '"')
    ensures StringBody(t) == body <==> Guessed(body, quote)
  {
    hide Dedouble, Doubled, HasPair;
    if quote !in body { NothingDoubled(body, quote); }
    else {
      PairsMade(body, quote);
      DoubledBack(body, quote);
      if quote == '"' {
        PairsStay(body, '"', '\'');
        if HasPair(body, '\'') { WrongQuote(body); }
      }
    }
  }

  function Marks(t: string, q: char): nat
  {
    if t == "" then 0 else (if t[0] == q then 1 else 0) + Marks(t[1..], q)
  }

  lemma {:induction false} MarksDoubled(body: string, q: char)
    ensures Marks(Doubled(body, q), q) == 2 * Marks(body, q) && (q in body ==> Marks(body, q) > 0)
  {
    if body != "" {
      MarksDoubled(body[1..], q);
      var rest := Doubled(body[1..], q);
      if body[0] == q {
        assert ([q, q] + rest)[1..] == [q] + rest && ([q] + rest)[1..] == rest;
      } else {
        assert ([body[0]] + rest)[1..] == rest;
      }
    }
  }

  lemma {:induction false} MarksKept(t: string, q: char, other: char)
    requires q != other
    ensures Marks(Dedouble(t, other), q) == Marks(t, q)
    decreases |t|
  {
    if t == "" {
    } else if |t| >= 2 && t[0] == other && t[1] == other {
      MarksKept(t[2..], q, other);
      assert t[1..][1..] == t[2..];
      assert ([other] + Dedouble(t[2..], other))[1..] == Dedouble(t[2..], other);
    } else {
      MarksKept(t[1..], q, other);
      assert ([t[0]] + Dedouble(t[1..], other))[1..] == Dedouble(t[1..], other);
    }
  }

  /** Guessed wrong, the doubled quotes stay: there are twice as many of them. */
  lemma WrongQuote(body: string)
    requires '"' in body
    ensures Dedouble(Doubled(body, '"'), '\'') != body
  {
    MarksDoubled(body, '"');
    MarksKept(Doubled(body, '"'), '"', '\'');
  }

  /** For instance a"b''c, in double quotes. */
  lemma LiteralMisread(t: Token)
    requires t.kind == String && t.text == ['a', '"', '"', 'b', '\'', '\'', 'c'] && t.doubled
    ensures IsLiteral(t, ['a', '"', 'b', '\'', '\'', 'c'], '"')
    ensures StringBody(t) == ['a', '"', '"', 'b', '\'', 'c']
  {
    hide Dedouble;
    var body := ['a', '"', 'b', '\'', '\'', 'c'];
    assert t.text[4] == '\'' && t.text[4 + 1] == '\'';
    assert HasPair(t.text, '\'');
    DedoubleUp(t.text);
    DoubledUp(body);
    assert '"' == body[1];
  }

  lemma DoubledUp(body: string)
    requires body == ['a', '"', 'b', '\'', '\'', 'c']
    ensures Doubled(body, '"') == ['a', '"', '"', 'b', '\'', '\'', 'c']
  {
    hide Doubled;
    var u := ['b', '\'', '\'', 'c'];
    assert '"' !in u;
    NothingDoubled(u, '"');
    DoubledAhead('"', u, '"');
    DoubledAhead('a', ['"'] + u, '"');
    assert body == ['a'] + (['"'] + u);
  }

  lemma DoubledAhead(c: char, rest: string, q: char)
    ensures Doubled([c] + rest, q) == (if c == q then [q, q] else [c]) + Doubled(rest, q)
  {
    assert ([c] + rest)[1..] == rest;
  }

  lemma DedoubleUp(t: string)
    requires t == ['a', '"', '"', 'b', '\'', '\'', 'c']
    ensures Dedouble(t, '\'') == ['a', '"', '"', 'b', '\'', 'c']
  {
    var u := ['"', 'b', '\'', '\'', 'c'];
    assert t[1..] == ['"'] + u && t[1..][1..] == u;
    assert u[1..] == ['b', '\'', '\'', 'c'] && u[1..][1..] == ['\'', '\'', 'c'] && ['\'', '\'', 'c'][2..] == ['c'] && ['c'][1..] == "";
    assert Dedouble("", '\'') == "";
    assert Dedouble(['c'], '\'') == ['c'];
    assert Dedouble(['\'', '\'', 'c'], '\'') == ['\'', 'c'];
    assert Dedouble(u[1..], '\'') == ['b', '\'', 'c'];
    assert Dedouble(u, '\'') == ['"', 'b', '\'', 'c'];
    assert Dedouble(t[1..], '\'') == ['"', '"', 'b', '\'', 'c'];
  }
}
