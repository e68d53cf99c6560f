/** The one-pass compiler: tokens in, code, tables and trace map out, updated in place. */
module Compiler {
  import opened Options
  import opened NumberText
  import opened Bytecode
  import opened Tokens
  import opened ExprSyntax
  import opened ExprCode
  import opened ExprEmit
  import opened StmtSyntax
  import opened StmtCode
  import opened Patching
  import opened CompilerState
  import opened DoState
  import opened StmtEmit
  import opened SelectEmit
  import opened DoEmit
  import opened CallEmit
  import opened Depths
  import Placement
  import opened LoopParts
  import Programs
  import Simulation

  class Compiler {
    const ts: Source
    var pos: nat
    var code: seq<Byte>
    var consts: seq<string>
    var syms: seq<string>
    var rc: Rc
    var exprDepth: nat
    var loops: seq<Frame>
    var ifDepth: nat
    var lmap: seq<Mark>
    ghost var deep: seq<nat>

    function Tables(): Tabs
      reads this
    {
      Tabs(consts, syms)
    }

    ghost predicate Valid()
      reads this
    {
      pos < |ts| && Fits(code, Tables()) && exprDepth <= NEST_MAX
    }

    constructor (ts: Source)
      ensures Valid() && rc == OK && pos == 0 && code == [] && Tables() == Tabs([], []) && exprDepth == 0 && this.ts == ts
      ensures loops == [] && ifDepth == 0 && lmap == [] && deep == []
    {
      this.ts := ts;
      pos, code, consts, syms, rc, exprDepth := 0, [], [], [], OK, 0;
      loops, ifDepth, lmap, deep := [], 0, [], [];
    }

    // ---- Emitting --------------------------------------------------------------

    method EmitByte(b: Byte)
      requires |code| <= MAX_CODE
      modifies this`code, this`rc
      ensures if |old(code)| < MAX_CODE then code == old(code) + [b] && rc == old(rc) else code == old(code) && rc == CAPACITY
    {
      if |code| + 1 > MAX_CODE {
        rc := CAPACITY;
      } else {
        code := code + [b];
      }
    }

    method EmitWord(v: int)
      requires |code| <= MAX_CODE
      modifies this`code, this`rc
      ensures if |old(code)| + 2 <= MAX_CODE then code == old(code) + Word(v) && rc == old(rc)
              else code == old(code) && rc == CAPACITY
    {
      if |code| + 2 > MAX_CODE {
        rc := CAPACITY;
      } else {
        code := code + [Lo(v)];
        code := code + [Hi(v)];
      }
    }

    /** An opcode and its index operand. */
    method EmitIndexed(op: Byte, v: int)
      requires |code| <= MAX_CODE
      modifies this`code, this`rc
      ensures if |old(code)| + 3 <= MAX_CODE then code == old(code) + ([op] + Word(v)) && rc == old(rc)
              else old(code) <= code && |code| <= MAX_CODE && rc == CAPACITY
    {
      EmitByte(op);
      EmitWord(v);
    }

    /** Where s is in the table, -1 if it is not. */
    static method Search(t: seq<string>, s: string) returns (i: int)
      ensures i >= 0 ==> i == Find(t, s) < |t|
      ensures i < 0 ==> Find(t, s) == |t|
    {
      i := 0;
      while i < |t|
        invariant 0 <= i <= |t| && Find(t, s) == i + Find(t[i..], s)
      {
        if t[i] == s { return; }
        assert t[i..][1..] == t[i + 1..];
        i := i + 1;
      }
      assert t[|t|..] == [];
      i := -1;
    }

    method AddConst(s: string) returns (i: int)
      requires Fits(code, Tables())
      modifies this`consts, this`rc
      ensures i >= 0 ==> rc == old(rc) && i == Find(old(consts), s) && Tables() == ExprCode.AddConst(old(Tables()), s)
                         && TabsFit(Tables())
      ensures i < 0 ==> (rc == CAPACITY || rc == STRTOOLONG) && consts == old(consts)
                        && !TabsFit(ExprCode.AddConst(old(Tables()), s))
    {
      if |s| > STR_MAX {
        rc := STRTOOLONG;
        assert Intern(consts, s)[Find(consts, s)] == s;
        return -1;
      }
      i := Search(consts, s);
      if i >= 0 { return; }
      if |consts| + 1 > MAX_ENTRIES {
        rc := CAPACITY;
        return -1;
      }
      i := |consts|;
      consts := consts + [s];
    }

    method AddSym(s: string) returns (i: int)
      requires Fits(code, Tables())
      modifies this`syms, this`rc
      ensures i >= 0 ==> rc == old(rc) && i == Find(old(syms), s) && Tables() == ExprCode.AddSym(old(Tables()), s)
                         && TabsFit(Tables())
      ensures i < 0 ==> (rc == CAPACITY || rc == STRTOOLONG) && syms == old(syms)
                        && !TabsFit(ExprCode.AddSym(old(Tables()), s))
    {
      if |s| > STR_MAX {
        rc := STRTOOLONG;
        assert Intern(syms, s)[Find(syms, s)] == s;
        return -1;
      }
      i := Search(syms, s);
      if i >= 0 { return; }
      if |syms| + 1 > MAX_ENTRIES {
        rc := CAPACITY;
        return -1;
      }
      i := |syms|;
      syms := syms + [s];
    }

    // ---- Nesting ---------------------------------------------------------------

    /** To the parenthesis that closes the innermost one open here; none before the clause ends is unsupported. */
    method SkipToClose()
      requires Valid() && rc == OK
      modifies this`pos, this`rc
      ensures Valid()
      ensures SkipToParen(ts, old(pos), 0) == if rc == OK then Some(pos) else None
      ensures rc == OK || rc == UNSUP
    {
      var balance := 0;
      while true
        invariant Valid() && rc == OK && balance >= 0 && SkipToParen(ts, pos, balance) == SkipToParen(ts, old(pos), 0)
        decreases |ts| - pos
      {
        if EndsClause(ts, pos) {
          rc := UNSUP;
          return;
        }
        if ts[pos].kind == RParen && balance == 0 { return; }
        if ts[pos].kind == LParen {
          balance := balance + 1;
        } else if ts[pos].kind == RParen {
          balance := balance - 1;
        }
        pos := pos + 1;
      }
    }

    method EmitRaise(k: Byte)
      requires Valid() && rc == OK
      modifies this`code, this`rc
      ensures Valid()
      ensures if rc == OK then code == old(code) + [OP_RAISE, k] else rc == CAPACITY && |old(code)| + 2 > MAX_CODE
      ensures |code| >= |old(code)|
    {
      EmitByte(OP_RAISE);
      EmitByte(k);
    }

    method NestEnter(cost: nat) returns (entered: bool)
      requires Valid() && rc == OK && cost >= 1
      modifies this`pos, this`code, this`rc, this`exprDepth
      ensures Valid() && |code| >= |old(code)|
      ensures entered == (old(exprDepth) + cost <= NEST_MAX)
      ensures entered ==> exprDepth == old(exprDepth) + cost && pos == old(pos) && code == old(code) && rc == OK
      ensures !entered ==> exprDepth == old(exprDepth)
                           && ExprDone(rc, Refuse(ts, old(pos)), old(code), old(Tables()), pos, code, Tables())
    {
      if exprDepth + cost <= NEST_MAX {
        exprDepth := exprDepth + cost;
        return true;
      }
      SkipToClose();
      if rc == OK { EmitRaise(SYNTAX_EVAL_STACK); }
      return false;
    }

    method NestLeave(cost: nat)
      requires exprDepth >= cost
      modifies this`exprDepth
      ensures exprDepth == old(exprDepth) - cost
    {
      exprDepth := exprDepth - cost;
    }

    // ---- Operands ----------------------------------------------------------------

    /** A piece of a literal: pushed, and joined to what is there unless it is the first. */
    method EmitLitChunk(s: string, first: bool)
      requires Valid() && rc == OK
      modifies this`code, this`consts, this`rc
      ensures Valid() && |code| >= |old(code)|
      ensures var c := old(code) + PushCode(old(Tables()), s) + (if first then [] else [OP_CONCAT]);
              var t := ExprCode.AddConst(old(Tables()), s);
              if rc == OK then code == c && Tables() == t else rc in {CAPACITY, STRTOOLONG} && !Fits(c, t)
    {
      var i := AddConst(s);
      if i < 0 { return; }
      EmitIndexed(OP_PUSH_LIT, i);
      if !first { EmitByte(OP_CONCAT); }
    }

    method EmitPushStr(text: string)
      requires Valid() && rc == OK
      modifies this`code, this`consts, this`rc
      ensures Valid() && |code| >= |old(code)|
      ensures var c := old(code) + StrCode(text, old(Tables()), true);
              var t := StrTabs(text, old(Tables()));
              if rc == OK then code == c && Tables() == t else rc in {CAPACITY, STRTOOLONG} && !Fits(c, t)
    {
      hide Fits, Find, StrCode, StrTabs, PushCode;
      ghost var c0, t0 := code, Tables();
      var off, first := 0, true;
      assert text[0..] == text;
      while true
        invariant 0 <= off <= |text| && Valid() && rc == OK && (off == |text| ==> text == "") && |code| >= |c0|
        invariant c0 + StrCode(text, t0, true) == code + StrCode(text[off..], Tables(), first)
        invariant StrTabs(text, t0) == StrTabs(text[off..], Tables())
        decreases |text| - off
      {
        ghost var rest, t, c := text[off..], Tables(), code;
        var chunk := if |text| - off > STR_MAX then STR_MAX else |text| - off;
        assert text[off..off + chunk] == Chunk(rest);
        StrStep(rest, t, first);
        assert rest[chunk..] == text[off + chunk..];
        EmitLitChunk(text[off..off + chunk], first);
        if rc != OK {
          ChunkTooBig(rest, t, first, c);
          return;
        }
        off := off + chunk;
        if off >= |text| { break; }
        Regroup(c, PushCode(t, Chunk(rest)) + (if first then [] else [OP_CONCAT]), StrCode(text[off..], Tables(), false));
        first := false;
      }
    }

    static lemma Regroup(a: seq<Byte>, b: seq<Byte>, c: seq<Byte>)
      ensures a + (b + c) == a + b + c
    {
    }

    static lemma StrStep(s: string, t: Tabs, first: bool)
      ensures var a := PushCode(t, Chunk(s)) + (if first then [] else [OP_CONCAT]);
              var u := ExprCode.AddConst(t, Chunk(s));
              if |Chunk(s)| < |s| then
                StrCode(s, t, first) == a + StrCode(s[|Chunk(s)|..], u, false)
                && StrTabs(s, t) == StrTabs(s[|Chunk(s)|..], u)
              else StrCode(s, t, first) == a && StrTabs(s, t) == u
    {
      var a := PushCode(t, Chunk(s)) + (if first then [] else [OP_CONCAT]);
      assert a + [] == a;
    }

    static lemma ChunkTooBig(s: string, t: Tabs, first: bool, c: seq<Byte>)
      requires !Fits(c + PushCode(t, Chunk(s)) + (if first then [] else [OP_CONCAT]), ExprCode.AddConst(t, Chunk(s)))
      ensures !Fits(c + StrCode(s, t, first), StrTabs(s, t))
    {
      hide Fits, PushCode;
      var a := c + PushCode(t, Chunk(s)) + (if first then [] else [OP_CONCAT]);
      ChunkTabs(s, t, StrTabs(s, t));
      if Fits(c + StrCode(s, t, first), StrTabs(s, t)) {
        FitsSmaller(a, ExprCode.AddConst(t, Chunk(s)), c + StrCode(s, t, first), StrTabs(s, t));
      }
    }

    method EmitPush(s: string)
      requires Valid() && rc == OK
      modifies this`code, this`consts, this`rc
      ensures Valid() && |code| >= |old(code)|
      ensures var c, t := old(code) + PushCode(old(Tables()), s), ExprCode.AddConst(old(Tables()), s);
              if rc == OK then code == c && Tables() == t else rc in {CAPACITY, STRTOOLONG} && !Fits(c, t)
    {
      var i := AddConst(s);
      if i < 0 { return; }
      EmitIndexed(OP_PUSH_LIT, i);
    }

    method EmitLoad(s: string)
      requires Valid() && rc == OK
      modifies this`code, this`syms, this`rc
      ensures Valid() && |code| >= |old(code)|
      ensures var c, t := old(code) + LoadCode(old(Tables()), s), ExprCode.AddSym(old(Tables()), s);
              if rc == OK then code == c && Tables() == t else rc in {CAPACITY, STRTOOLONG} && !Fits(c, t)
    {
      var i := AddSym(s);
      if i < 0 { return; }
      EmitIndexed(OP_LOAD, i);
    }

    // ---- The nine levels -----------------------------------------------------------

    method ExpAt(k: nat)
      requires Valid() && rc == OK && k <= 7
      modifies this`pos, this`code, this`consts, this`syms, this`rc, this`exprDepth
      ensures Valid() && (rc == OK ==> exprDepth == old(exprDepth) && pos > old(pos)) && |code| >= |old(code)|
      ensures ExprDone(rc, ParseLevel(ts, k, old(pos), old(exprDepth)), old(code), old(Tables()), pos, code, Tables())
      decreases |ts| - pos, 4 * (9 - k) + 1
    {
      hide ExprDone, ParseLevel, Fits;
      match k {
        case 0 => Exp0();
        case 1 => Exp1();
        case 2 => Exp2();
        case 3 => Exp3();
        case 4 => Exp4();
        case 5 => Exp5();
        case 6 => Exp6();
        case _ => Exp7();
      }
    }

    /** The right operand of an operator of level k; the operator waits on the evaluation stack. */
    method Operand(k: nat)
      requires Valid() && rc == OK && k <= 6
      modifies this`pos, this`code, this`consts, this`syms, this`rc, this`exprDepth
      ensures Valid() && (rc == OK ==> exprDepth == old(exprDepth)) && |code| >= |old(code)|
      ensures ExprDone(rc, ParseOperand(ts, k, old(pos), old(exprDepth)), old(code), old(Tables()), pos, code, Tables())
      decreases |ts| - pos, 4 * (9 - k) - 1
    {
      hide ExprDone, ParseLevel, Fits, Refuse;
      var entered := NestEnter(COST_OPERATOR);
      if !entered {
        return;
      }
      ExpAt(k + 1);
      if rc == OK { NestLeave(COST_OPERATOR); }
    }

    /** One operator of level k, n tokens long, and its right operand; l is the left operand so far. */
    method Combine(k: nat, n: nat, op: BinOp, ghost l: Expr, ghost c0: seq<Byte>, ghost t0: Tabs) returns (ghost l': Expr)
      requires Valid() && rc == OK && k <= 6 && OpAt(ts, k, pos) == Some((op, n))
      requires code == c0 + CodeE(l, t0) && Tables() == TabE(l, t0)
      modifies this`pos, this`code, this`consts, this`syms, this`rc, this`exprDepth
      ensures Valid() && |code| >= |old(code)|
      ensures rc == OK ==> exprDepth == old(exprDepth) && pos > old(pos)
      ensures rc == OK ==> code == c0 + CodeE(l', t0) && Tables() == TabE(l', t0)
      ensures rc == OK ==> ParseRest(ts, k, old(pos), exprDepth, l)
                           == if k == 2 then Tree(l', pos) else ParseRest(ts, k, pos, exprDepth, l')
      ensures rc != OK ==> ExprDone(rc, ParseRest(ts, k, old(pos), old(exprDepth), l), c0, t0, pos, code, Tables())
      decreases |ts| - pos, 4 * (9 - k)
    {
      hide OpAt, CodeOf, TabsFit, ParseOperand, ParseRest, CodeE, TabE;
      ghost var i, d, c1 := pos, exprDepth, code;
      Progress(ts, k, pos, exprDepth);
      pos := pos + n;
      Operand(k);
      ghost var x := ParseOperand(ts, k, i + n, d);
      if rc != OK {
        OperandFailed(rc, ts, k, i, d, l, op, n, c0, t0, pos, code, Tables());
        return l;
      }
      l' := Bin(op, l, x.e);
      BinCode(op, l, x.e, t0, c0);
      RestFolds(ts, k, i, d, l, op, n);
      assert |code| + 1 == |c0 + CodeE(l', t0)|;
      EmitByte(CodeOf(op));
      if rc != OK { OperatorFailed(rc, ts, k, i, d, l, op, n, c0, t0, pos, code, Tables()); }
    }

    /** The first operand of level k has been compiled. */
    ghost method Started(k: nat, i0: nat, d: nat, c0: seq<Byte>, t0: Tabs) returns (l: Expr)
      requires i0 < |ts| && k <= 6 && pos < |ts| && (rc == OK ==> exprDepth == d)
      requires ExprDone(rc, ParseLevel(ts, k + 1, i0, d), c0, t0, pos, code, Tables())
      ensures rc != OK ==> ExprDone(rc, ParseLevel(ts, k, i0, d), c0, t0, pos, code, Tables())
      ensures rc == OK ==> ParseLevel(ts, k, i0, d) == ParseRest(ts, k, pos, d, l)
      ensures rc == OK ==> code == c0 + CodeE(l, t0) && Tables() == TabE(l, t0) && |code| >= |c0|
    {
      hide ParseRest, CodeE, TabE, Fits, OpAt;
      if rc != OK { FirstFailed(rc, ts, k, i0, d, c0, t0, pos, code, Tables()); return TooDeep; }
      l := ParseLevel(ts, k + 1, i0, d).e;
    }

    lemma Finished(k: nat, i0: nat, d: nat, l: Expr, c0: seq<Byte>, t0: Tabs)
      requires i0 < |ts| && k <= 6 && pos < |ts| && rc == OK && OpAt(ts, k, pos).None?
      requires ParseLevel(ts, k, i0, d) == ParseRest(ts, k, pos, d, l)
      requires code == c0 + CodeE(l, t0) && Tables() == TabE(l, t0)
      ensures ExprDone(rc, ParseLevel(ts, k, i0, d), c0, t0, pos, code, Tables())
    {
      hide OpAt, ParseLevel;
    }

    /** Exclusive or, or. */
    method Exp0()
      requires Valid() && rc == OK
      modifies this`pos, this`code, this`consts, this`syms, this`rc, this`exprDepth
      ensures Valid() && (rc == OK ==> exprDepth == old(exprDepth) && pos > old(pos)) && |code| >= |old(code)|
      ensures ExprDone(rc, ParseLevel(ts, 0, old(pos), old(exprDepth)), old(code), old(Tables()), pos, code, Tables())
      decreases |ts| - pos, 36
    {
      hide ExprDone, CodeE, TabE, CodeOf, Fits, ParseLevel, ParseRest, BarrierWord, Adjacent;
      ghost var i0, d, c0, t0 := pos, exprDepth, code, Tables();
      Exp1();
      ghost var l := Started(0, i0, d, c0, t0);
      if rc != OK { return; }
      while true
        invariant Valid() && rc == OK && exprDepth == d && pos > i0 && |code| >= |c0|
        invariant ParseLevel(ts, 0, i0, d) == ParseRest(ts, 0, pos, d, l)
        invariant code == c0 + CodeE(l, t0) && Tables() == TabE(l, t0)
        decreases |ts| - pos
      {
        if Is(ts, pos, Logical, '&') && Is(ts, pos + 1, Logical, '&') {
          l := Combine(0, 2, Xor, l, c0, t0);
        } else if Is(ts, pos, Logical, '|') && !Is(ts, pos + 1, Logical, '|') {
          l := Combine(0, 1, Or, l, c0, t0);
        } else {
          break;
        }
        if rc != OK { return; }
      }
      Finished(0, i0, d, l, c0, t0);
    }

    /** And. */
    method Exp1()
      requires Valid() && rc == OK
      modifies this`pos, this`code, this`consts, this`syms, this`rc, this`exprDepth
      ensures Valid() && (rc == OK ==> exprDepth == old(exprDepth) && pos > old(pos)) && |code| >= |old(code)|
      ensures ExprDone(rc, ParseLevel(ts, 1, old(pos), old(exprDepth)), old(code), old(Tables()), pos, code, Tables())
      decreases |ts| - pos, 32
    {
      hide ExprDone, CodeE, TabE, CodeOf, Fits, ParseLevel, ParseRest, BarrierWord, Adjacent;
      ghost var i0, d, c0, t0 := pos, exprDepth, code, Tables();
      Exp2();
      ghost var l := Started(1, i0, d, c0, t0);
      if rc != OK { return; }
      while true
        invariant Valid() && rc == OK && exprDepth == d && pos > i0 && |code| >= |c0|
        invariant ParseLevel(ts, 1, i0, d) == ParseRest(ts, 1, pos, d, l)
        invariant code == c0 + CodeE(l, t0) && Tables() == TabE(l, t0)
        decreases |ts| - pos
      {
        if Is(ts, pos, Logical, '&') && !Is(ts, pos + 1, Logical, '&') {
          l := Combine(1, 1, And, l, c0, t0);
        } else {
          break;
        }
        if rc != OK { return; }
      }
      Finished(1, i0, d, l, c0, t0);
    }

    /** At most one comparison. */
    method Exp2()
      requires Valid() && rc == OK
      modifies this`pos, this`code, this`consts, this`syms, this`rc, this`exprDepth
      ensures Valid() && (rc == OK ==> exprDepth == old(exprDepth) && pos > old(pos)) && |code| >= |old(code)|
      ensures ExprDone(rc, ParseLevel(ts, 2, old(pos), old(exprDepth)), old(code), old(Tables()), pos, code, Tables())
      decreases |ts| - pos, 28
    {
      hide ExprDone, CodeE, TabE, CodeOf, Fits, ParseLevel, ParseRest, BarrierWord, Adjacent;
      ghost var i0, d, c0, t0 := pos, exprDepth, code, Tables();
      Exp3();
      ghost var l := Started(2, i0, d, c0, t0);
      if rc != OK { return; }
      var op: Option<BinOp>, n := None, 0;
      if Is(ts, pos, Comparison, '=') && Is(ts, pos + 1, Comparison, '=') {
        op, n := Some(Deq), 2;
      } else if Is(ts, pos, Comparison, '>') && Is(ts, pos + 1, Comparison, '>') && Is(ts, pos + 2, Comparison, '=') {
        op, n := Some(Dge), 3;
      } else if Is(ts, pos, Comparison, '<') && Is(ts, pos + 1, Comparison, '<') && Is(ts, pos + 2, Comparison, '=') {
        op, n := Some(Dle), 3;
      } else if Is(ts, pos, Comparison, '>') && Is(ts, pos + 1, Comparison, '>') {
        op, n := Some(Dgt), 2;
      } else if Is(ts, pos, Comparison, '<') && Is(ts, pos + 1, Comparison, '<') {
        op, n := Some(Dlt), 2;
      } else if Is(ts, pos, Comparison, '>') && Is(ts, pos + 1, Comparison, '=') {
        op, n := Some(Ge), 2;
      } else if Is(ts, pos, Comparison, '<') && Is(ts, pos + 1, Comparison, '=') {
        op, n := Some(Le), 2;
      } else if Is(ts, pos, Comparison, '>') && Is(ts, pos + 1, Comparison, '<') {
        op, n := Some(Ne), 2;
      } else if Is(ts, pos, Comparison, '<') && Is(ts, pos + 1, Comparison, '>') {
        op, n := Some(Ne), 2;
      } else if ts[pos].kind == NotSign && Is(ts, pos + 1, Comparison, '=') && Is(ts, pos + 2, Comparison, '=') {
        op, n := Some(Dne), 3;
      } else if ts[pos].kind == NotSign && Is(ts, pos + 1, Comparison, '=') {
        op, n := Some(Ne), 2;
      } else if ts[pos].kind == NotSign && Is(ts, pos + 1, Comparison, '>') {
        op, n := Some(Le), 2;
      } else if ts[pos].kind == NotSign && Is(ts, pos + 1, Comparison, '<') {
        op, n := Some(Ge), 2;
      } else if Is(ts, pos, Comparison, '=') {
        op, n := Some(Eq), 1;
      } else if Is(ts, pos, Comparison, '>') {
        op, n := Some(Gt), 1;
      } else if Is(ts, pos, Comparison, '<') {
        op, n := Some(Lt), 1;
      }
      CompareFound(op, n);
      if op.Some? {
        l := Combine(2, n, op.value, l, c0, t0);
        if rc == OK { OneCompared(i0, d, l, c0, t0); }
      } else {
        Finished(2, i0, d, l, c0, t0);
      }
    }

    /** The chain of tests finds the comparison the table says. */
    lemma CompareFound(op: Option<BinOp>, n: nat)
      requires pos < |ts|
      requires op == match OpAt(ts, 2, pos) case None => None case Some(x) => Some(x.0)
      requires op.Some? ==> n == OpAt(ts, 2, pos).value.1
      ensures OpAt(ts, 2, pos) == match op case None => None case Some(o) => Some((o, n))
    {
    }

    lemma OneCompared(i0: nat, d: nat, l: Expr, c0: seq<Byte>, t0: Tabs)
      requires i0 < |ts| && pos < |ts| && rc == OK && ParseLevel(ts, 2, i0, d) == Tree(l, pos)
      requires code == c0 + CodeE(l, t0) && Tables() == TabE(l, t0)
      ensures ExprDone(rc, ParseLevel(ts, 2, i0, d), c0, t0, pos, code, Tables())
    {
    }

    /** Concatenation: || or two values side by side. */
    method Exp3()
      requires Valid() && rc == OK
      modifies this`pos, this`code, this`consts, this`syms, this`rc, this`exprDepth
      ensures Valid() && (rc == OK ==> exprDepth == old(exprDepth) && pos > old(pos)) && |code| >= |old(code)|
      ensures ExprDone(rc, ParseLevel(ts, 3, old(pos), old(exprDepth)), old(code), old(Tables()), pos, code, Tables())
      decreases |ts| - pos, 24
    {
      hide ExprDone, CodeE, TabE, CodeOf, Fits, ParseLevel, ParseRest, BarrierWord, Adjacent;
      ghost var i0, d, c0, t0 := pos, exprDepth, code, Tables();
      Exp4();
      ghost var l := Started(3, i0, d, c0, t0);
      if rc != OK { return; }
      while true
        invariant Valid() && rc == OK && exprDepth == d && pos > i0 && |code| >= |c0|
        invariant ParseLevel(ts, 3, i0, d) == ParseRest(ts, 3, pos, d, l)
        invariant code == c0 + CodeE(l, t0) && Tables() == TabE(l, t0)
        decreases |ts| - pos
      {
        if Is(ts, pos, Logical, '|') && Is(ts, pos + 1, Logical, '|') {
          l := Combine(3, 2, Concat, l, c0, t0);
        } else if StartsValue(ts, pos) {
          l := Combine(3, 0, if Adjacent(Tok(ts, pos - 1), Tok(ts, pos)) then Concat else BConcat, l, c0, t0);
        } else {
          break;
        }
        if rc != OK { return; }
      }
      Finished(3, i0, d, l, c0, t0);
    }

    /** Addition and subtraction. */
    method Exp4()
      requires Valid() && rc == OK
      modifies this`pos, this`code, this`consts, this`syms, this`rc, this`exprDepth
      ensures Valid() && (rc == OK ==> exprDepth == old(exprDepth) && pos > old(pos)) && |code| >= |old(code)|
      ensures ExprDone(rc, ParseLevel(ts, 4, old(pos), old(exprDepth)), old(code), old(Tables()), pos, code, Tables())
      decreases |ts| - pos, 20, 0
    {
      hide ExprDone, CodeE, TabE, CodeOf, Fits, ParseLevel, ParseRest, BarrierWord, Adjacent;
      ghost var i0, d, c0, t0 := pos, exprDepth, code, Tables();
      Exp5();
      ghost var l := Started(4, i0, d, c0, t0);
      if rc != OK { return; }
      while true
        invariant Valid() && rc == OK && exprDepth == d && pos > i0 && |code| >= |c0|
        invariant ParseLevel(ts, 4, i0, d) == ParseRest(ts, 4, pos, d, l)
        invariant code == c0 + CodeE(l, t0) && Tables() == TabE(l, t0)
        decreases |ts| - pos
      {
        if Is(ts, pos, Operator, '+') {
          l := Combine(4, 1, Add, l, c0, t0);
        } else if Is(ts, pos, Operator, '-') {
          l := Combine(4, 1, Sub, l, c0, t0);
        } else {
          break;
        }
        if rc != OK { return; }
      }
      Finished(4, i0, d, l, c0, t0);
    }

    /** Multiplication and the divisions. */
    method Exp5()
      requires Valid() && rc == OK
      modifies this`pos, this`code, this`consts, this`syms, this`rc, this`exprDepth
      ensures Valid() && (rc == OK ==> exprDepth == old(exprDepth) && pos > old(pos)) && |code| >= |old(code)|
      ensures ExprDone(rc, ParseLevel(ts, 5, old(pos), old(exprDepth)), old(code), old(Tables()), pos, code, Tables())
      decreases |ts| - pos, 16
    {
      hide ExprDone, CodeE, TabE, CodeOf, Fits, ParseLevel, ParseRest, BarrierWord, Adjacent;
      ghost var i0, d, c0, t0 := pos, exprDepth, code, Tables();
      Exp6();
      ghost var l := Started(5, i0, d, c0, t0);
      if rc != OK { return; }
      while true
        invariant Valid() && rc == OK && exprDepth == d && pos > i0 && |code| >= |c0|
        invariant ParseLevel(ts, 5, i0, d) == ParseRest(ts, 5, pos, d, l)
        invariant code == c0 + CodeE(l, t0) && Tables() == TabE(l, t0)
        decreases |ts| - pos
      {
        if Is(ts, pos, Operator, '/') && Is(ts, pos + 1, Operator, '/') {
          l := Combine(5, 2, Mod, l, c0, t0);
        } else if Is(ts, pos, Operator, '*') && !Is(ts, pos + 1, Operator, '*') {
          l := Combine(5, 1, Mul, l, c0, t0);
        } else if Is(ts, pos, Operator, '/') && !Is(ts, pos + 1, Operator, '/') {
          l := Combine(5, 1, Div, l, c0, t0);
        } else if Is(ts, pos, Operator, '%') {
          l := Combine(5, 1, IDiv, l, c0, t0);
        } else {
          break;
        }
        if rc != OK { return; }
      }
      Finished(5, i0, d, l, c0, t0);
    }

    /** Powers, from left to right. */
    method Exp6()
      requires Valid() && rc == OK
      modifies this`pos, this`code, this`consts, this`syms, this`rc, this`exprDepth
      ensures Valid() && (rc == OK ==> exprDepth == old(exprDepth) && pos > old(pos)) && |code| >= |old(code)|
      ensures ExprDone(rc, ParseLevel(ts, 6, old(pos), old(exprDepth)), old(code), old(Tables()), pos, code, Tables())
      decreases |ts| - pos, 12
    {
      hide ExprDone, CodeE, TabE, CodeOf, Fits, ParseLevel, ParseRest, BarrierWord, Adjacent;
      ghost var i0, d, c0, t0 := pos, exprDepth, code, Tables();
      Exp7();
      ghost var l := Started(6, i0, d, c0, t0);
      if rc != OK { return; }
      while true
        invariant Valid() && rc == OK && exprDepth == d && pos > i0 && |code| >= |c0|
        invariant ParseLevel(ts, 6, i0, d) == ParseRest(ts, 6, pos, d, l)
        invariant code == c0 + CodeE(l, t0) && Tables() == TabE(l, t0)
        decreases |ts| - pos
      {
        if Is(ts, pos, Operator, '*') && Is(ts, pos + 1, Operator, '*') {
          l := Combine(6, 2, Power, l, c0, t0);
        } else {
          break;
        }
        if rc != OK { return; }
      }
      Finished(6, i0, d, l, c0, t0);
    }

    /** Prefix operators; + computes nothing. */
    method Exp7()
      requires Valid() && rc == OK
      modifies this`pos, this`code, this`consts, this`syms, this`rc, this`exprDepth
      ensures Valid() && (rc == OK ==> exprDepth == old(exprDepth) && pos > old(pos)) && |code| >= |old(code)|
      ensures ExprDone(rc, ParseLevel(ts, 7, old(pos), old(exprDepth)), old(code), old(Tables()), pos, code, Tables())
      decreases |ts| - pos, 8
    {
      hide TabsFit, Refuse, ParsePrimary;
      if Is(ts, pos, Operator, '-') {
        Prefix(OP_NEG, true);
      } else if Is(ts, pos, Operator, '+') {
        Prefix(OP_NOP, false);
        NoCode(old(pos) + 1, old(exprDepth) + COST_PREFIX, old(code), old(Tables()));
      } else if ts[pos].kind == NotSign {
        Prefix(OP_NOT, true);
      } else {
        Exp8();
      }
    }

    lemma NoCode(i: nat, d: nat, c0: seq<Byte>, t0: Tabs)
      requires i < |ts|
      ensures PrefixDone(rc, ParseLevel(ts, 7, i, d), [], c0, t0, pos, code, Tables())
          ==> ExprDone(rc, ParseLevel(ts, 7, i, d), c0, t0, pos, code, Tables())
    {
      hide ParseLevel, TabsFit;
      var e := ParseLevel(ts, 7, i, d);
      if e.Tree? { assert CodeE(e.e, t0) + [] == CodeE(e.e, t0); }
    }

    /** A prefix operator, its operand and, if it has one, its instruction. */
    method Prefix(op: Byte, emit: bool)
      requires Valid() && rc == OK && pos + 1 < |ts|
      modifies this`pos, this`code, this`consts, this`syms, this`rc, this`exprDepth
      ensures Valid() && (rc == OK ==> exprDepth == old(exprDepth)) && |code| >= |old(code)|
      ensures old(exprDepth) + COST_PREFIX > NEST_MAX ==>
        ExprDone(rc, Refuse(ts, old(pos)), old(code), old(Tables()), pos, code, Tables())
      ensures old(exprDepth) + COST_PREFIX <= NEST_MAX ==>
        PrefixDone(rc, ParseLevel(ts, 7, old(pos) + 1, old(exprDepth) + COST_PREFIX), if emit then [op] else [],
                   old(code), old(Tables()), pos, code, Tables())
      decreases |ts| - pos, 7
    {
      hide TabsFit, Refuse, ParseLevel;
      var entered := NestEnter(COST_PREFIX);
      if !entered {
        return;
      }
      pos := pos + 1;
      Exp7();
      if rc != OK {
        NotFitting(ParseLevel(ts, 7, old(pos) + 1, old(exprDepth) + COST_PREFIX), old(code), old(Tables()), if emit then [op] else []);
        return;
      }
      NestLeave(COST_PREFIX);
      assert !emit ==> code == code + [];
      if emit {
        assert code + [op] == old(code) + (CodeE(ParseLevel(ts, 7, old(pos) + 1, old(exprDepth) + COST_PREFIX).e, old(Tables())) + [op]);
        EmitByte(op);
        if rc != OK { LongIsUnfit(old(code), ParseLevel(ts, 7, old(pos) + 1, old(exprDepth) + COST_PREFIX).e, old(Tables()), [op]); }
      }
    }

    static lemma LongIsUnfit(c: seq<Byte>, e: Expr, t: Tabs, s: seq<Byte>)
      requires |c + CodeE(e, t)| + |s| > MAX_CODE
      ensures !Fits(c + (CodeE(e, t) + s), TabE(e, t))
    {
    }

    /** A compiled operand and its instruction s. */
    static ghost predicate PrefixDone(rc: Rc, p: Parsed, s: seq<Byte>, c0: seq<Byte>, t0: Tabs, pos: nat, code: seq<Byte>, t: Tabs)
    {
      match rc
      case OK => p.Tree? && pos == p.next && code == c0 + (CodeE(p.e, t0) + s) && t == TabE(p.e, t0)
      case UNSUP => p.Unsup?
      case BEYOND => p.Beyond?
      case PATCH => false
      case _ => p.Tree? ==> !Fits(c0 + (CodeE(p.e, t0) + s), TabE(p.e, t0))
    }

    lemma NotFitting(p: Parsed, c0: seq<Byte>, t0: Tabs, s: seq<Byte>)
      requires rc != OK && ExprDone(rc, p, c0, t0, pos, code, Tables())
      ensures PrefixDone(rc, p, s, c0, t0, pos, code, Tables())
    {
      hide TabsFit;
    }

    /** A parenthesis, literal, number, constant symbol or variable. */
    method Exp8()
      requires Valid() && rc == OK
      modifies this`pos, this`code, this`consts, this`syms, this`rc, this`exprDepth
      ensures Valid() && (rc == OK ==> exprDepth == old(exprDepth) && pos > old(pos)) && |code| >= |old(code)|
      ensures ExprDone(rc, ParsePrimary(ts, old(pos), old(exprDepth)), old(code), old(Tables()), pos, code, Tables())
      decreases |ts| - pos, 4
    {
      hide ExprDone, TabsFit;
      while IsContinuation(ts, pos)
        invariant Valid() && pos >= old(pos) && SkipContinuations(ts, pos) == SkipContinuations(ts, old(pos))
        modifies this`pos
        decreases |ts| - pos
      {
        pos := pos + 1;
      }
      SkippedSame(old(pos), exprDepth);
      if ts[pos].kind == LParen {
        Parenthesized();
      } else if Called(ts, pos) {
        CallIsNext(pos, exprDepth);
        FunctionCall();
      } else {
        Leaf();
      }
    }

    /** A name directly in front of an opening parenthesis. */
    static predicate Called(ts: Source, i: nat)
      requires i < |ts|
    {
      ts[i].kind == Symbol && !ts[i].constant && !ts[i].compound && Tok(ts, i + 1).kind == LParen && Adjacent(ts[i], Tok(ts, i + 1))
    }

    lemma CallIsNext(i: nat, d: nat)
      requires i < |ts| && Called(ts, i)
      ensures ParsePrimary(ts, i, d) == ParseCall(ts, i, d) && i + 2 < |ts|
    {
      hide ParseCall, Adjacent;
    }

    method FunctionCall()
      requires Valid() && rc == OK && Called(ts, pos)
      modifies this`pos, this`code, this`consts, this`syms, this`rc, this`exprDepth
      ensures Valid() && (rc == OK ==> exprDepth == old(exprDepth) && pos > old(pos)) && |code| >= |old(code)|
      ensures ExprDone(rc, ParseCall(ts, old(pos), old(exprDepth)), old(code), old(Tables()), pos, code, Tables())
      decreases |ts| - pos, 3
    {
      hide TabsFit, Refuse, ParseArgs, ParseCall, CodeA, TabA, ExprDone, ArgsDone, Adjacent, Find;
      ghost var i, d, c0, t0, name := pos, exprDepth, code, Tables(), ts[pos].upper;
      var si := AddSym(ts[pos].upper);
      if si < 0 {
        NameFailed(rc, ts, i, d, c0, t0, pos, code, Tables());
        return;
      }
      var entered := NestEnter(COST_GROUP);
      if !entered {
        CallRefused(rc, ts, i, d, c0, t0, pos, code, Tables());
        return;
      }
      pos := pos + 2;
      ghost var a;
      var nargs;
      nargs, a := ArgumentList();
      if rc != OK {
        ArgsFailed(rc, ts, i, d, c0, t0, pos, code, Tables());
        return;
      }
      ghost var c1 := code;
      EmitIndexed(OP_CALL_BIF, si);
      EmitByte(Lo(nargs));
      CallEnds(i, d, a, c0, t0, c1, nargs);
      if rc == OK { NestLeave(COST_GROUP); }
    }

    /** What stands behind an opening parenthesis, up to the closing one. */
    method ArgumentList() returns (nargs: nat, ghost a: Args)
      requires Valid() && rc == OK
      modifies this`pos, this`code, this`consts, this`syms, this`rc, this`exprDepth
      ensures Valid() && |code| >= |old(code)|
      ensures var p := ParseArgs(ts, old(pos), old(exprDepth), NoArgs);
              && (rc == OK ==>
                   && exprDepth == old(exprDepth) && pos > old(pos) && nargs == CountA(a)
                   && code == old(code) + CodeA(a, old(Tables())) && Tables() == TabA(a, old(Tables()))
                   && if ts[old(pos)].kind == RParen then a == NoArgs && pos == old(pos) + 1 else p == List(a, pos))
              && (rc != OK ==> ts[old(pos)].kind != RParen && ArgsDone(rc, p, old(code), old(Tables()), pos, code, Tables()))
      decreases |ts| - pos, 60
    {
      hide TabsFit, ParseArgs, CodeA, TabA, ArgsDone;
      ghost var i, d, c0, t0 := pos, exprDepth, code, Tables();
      nargs, a := 0, NoArgs;
      if ts[pos].kind == RParen {
        pos := pos + 1;
        NoArgsCode(c0, t0);
      } else {
        nargs := Arguments();
        if rc == OK { a := ArgsAre(ParseArgs(ts, i, d, NoArgs), c0, t0, nargs); }
      }
    }

    lemma NoArgsCode(c0: seq<Byte>, t: Tabs)
      ensures c0 == c0 + CodeA(NoArgs, t) && t == TabA(NoArgs, t) && CountA(NoArgs) == 0
    {
    }

    lemma ArgsAre(p: ParsedArgs, c0: seq<Byte>, t0: Tabs, nargs: nat) returns (a: Args)
      requires rc == OK && ArgsDone(rc, p, c0, t0, pos, code, Tables()) && (p.List? ==> nargs == CountA(p.a))
      ensures p == List(a, pos) && code == c0 + CodeA(a, t0) && Tables() == TabA(a, t0) && nargs == CountA(a)
    {
      hide CodeA, TabA;
      a := p.a;
    }

    lemma CallEnds(i: nat, d: nat, a: Args, c0: seq<Byte>, t0: Tabs, c1: seq<Byte>, nargs: nat)
      requires Valid() && i + 2 < |ts| && Called(ts, i) && d + COST_GROUP <= NEST_MAX && nargs == CountA(a)
      requires ts[i + 2].kind == RParen ==> a == NoArgs && pos == i + 3
      requires ts[i + 2].kind != RParen ==> ParseArgs(ts, i + 2, d + COST_GROUP, NoArgs) == List(a, pos)
      requires c1 == c0 + CodeA(a, ExprCode.AddSym(t0, ts[i].upper)) && Tables() == TabA(a, ExprCode.AddSym(t0, ts[i].upper))
      requires if rc == OK then code == c1 + ([OP_CALL_BIF] + Word(Find(t0.syms, ts[i].upper))) + [Lo(nargs)]
               else rc == CAPACITY && |c1| + 4 > MAX_CODE
      ensures ExprDone(rc, ParseCall(ts, i, d), c0, t0, pos, code, Tables())
    {
      hide TabsFit, ParseArgs, CodeA, TabA, Adjacent, Find, Word;
    }

    /** The arguments from here up to the closing parenthesis. */
    method Arguments() returns (nargs: nat)
      requires Valid() && rc == OK
      modifies this`pos, this`code, this`consts, this`syms, this`rc, this`exprDepth
      ensures Valid() && (rc == OK ==> exprDepth == old(exprDepth) && pos > old(pos)) && |code| >= |old(code)|
      ensures ArgsDone(rc, ParseArgs(ts, old(pos), old(exprDepth), NoArgs), old(code), old(Tables()), pos, code, Tables())
      ensures rc == OK && ParseArgs(ts, old(pos), old(exprDepth), NoArgs).List? ==>
                nargs == CountA(ParseArgs(ts, old(pos), old(exprDepth), NoArgs).a)
      decreases |ts| - pos, 50
    {
      hide TabsFit, ParseArgs, ParseSeparator, ParseLevel, CodeA, TabA, CodeE, TabE, ExprDone, ArgsDone;
      ghost var i0, d, c0, t0, acc := pos, exprDepth, code, Tables(), NoArgs;
      NoArgsCode(c0, t0);
      nargs := 0;
      while true
        invariant Valid() && rc == OK && exprDepth == d && pos >= i0 && |code| >= |c0| && nargs == CountA(acc)
        invariant ParseArgs(ts, i0, d, NoArgs) == ParseArgs(ts, pos, d, acc)
        invariant code == c0 + CodeA(acc, t0) && Tables() == TabA(acc, t0)
        decreases |ts| - pos
      {
        ghost var i := pos;
        if nargs >= MAX_ARGS {
          rc := UNSUP;
          TooManyArgs(i, d, acc, c0, t0);
          return;
        }
        ArgFolds(ts, i, d, acc);
        if ts[pos].kind == Comma || ts[pos].kind == RParen {
          EmitByte(OP_PUSH_OMITTED);
          if rc != OK {
            OmittedFailed(ts, i, d, acc, c0, t0, pos, code, Tables());
            return;
          }
          ArgCode(acc, TooDeep, t0, c0);
          acc := CountMore(acc, None);
          OmittedTabs(acc, t0);
        } else {
          Exp0();
          if rc != OK {
            ArgFailed(rc, ts, i, d, acc, c0, t0, pos, code, Tables());
            return;
          }
          ghost var x := ParseLevel(ts, 0, i, d);
          DoneIs(x, c0 + CodeA(acc, t0), TabA(acc, t0));
          ArgCode(acc, x.e, t0, c0);
          ArgTabs(acc, x.e, t0);
          acc := CountMore(acc, Some(x.e));
        }
        nargs := nargs + 1;
        SeparatorIs(ts, pos, d, acc);
        if ts[pos].kind == RParen {
          pos := pos + 1;
          ArgsEnd(i0, d, acc, c0, t0);
          return;
        }
        if ts[pos].kind != Comma {
          rc := UNSUP;
          NoSeparator(ParseArgs(ts, i0, d, NoArgs), c0, t0);
          return;
        }
        pos := pos + 1;
      }
    }

    static ghost function CountMore(acc: Args, e: Option<Expr>): (r: Args)
      ensures CountA(r) == CountA(acc) + 1
    {
      match e case None => Omitted(acc) case Some(x) => Arg(acc, x)
    }

    static lemma ArgTabs(acc: Args, e: Expr, t: Tabs)
      ensures TabA(Arg(acc, e), t) == TabE(e, TabA(acc, t))
    {
    }

    static lemma OmittedTabs(acc: Args, t: Tabs)
      requires acc.Omitted?
      ensures TabA(acc, t) == TabA(acc.before, t)
    {
    }

    lemma TooManyArgs(i: nat, d: nat, acc: Args, c0: seq<Byte>, t0: Tabs)
      requires i < |ts| && CountA(acc) >= MAX_ARGS && rc == UNSUP
      ensures ArgsDone(rc, ParseArgs(ts, i, d, acc), c0, t0, pos, code, Tables())
    {
    }

    lemma NoSeparator(p: ParsedArgs, c0: seq<Byte>, t0: Tabs)
      requires p == ListUnsup && rc == UNSUP
      ensures ArgsDone(rc, p, c0, t0, pos, code, Tables())
    {
    }

    lemma ArgsEnd(i: nat, d: nat, acc: Args, c0: seq<Byte>, t0: Tabs)
      requires i < |ts| && rc == OK && ParseArgs(ts, i, d, NoArgs) == List(acc, pos)
      requires code == c0 + CodeA(acc, t0) && Tables() == TabA(acc, t0)
      ensures ArgsDone(rc, ParseArgs(ts, i, d, NoArgs), c0, t0, pos, code, Tables())
    {
      hide ParseArgs, CodeA, TabA;
    }

    lemma SkippedSame(i: nat, d: nat)
      requires i < |ts| && pos < |ts| && SkipContinuations(ts, pos) == SkipContinuations(ts, i) == pos
      ensures ParsePrimary(ts, pos, d) == ParsePrimary(ts, i, d)
    {
      hide ParseLevel, Refuse, StringBody;
    }

    method Parenthesized()
      requires Valid() && rc == OK && ts[pos].kind == LParen
      modifies this`pos, this`code, this`consts, this`syms, this`rc, this`exprDepth
      ensures Valid() && (rc == OK ==> exprDepth == old(exprDepth) && pos > old(pos)) && |code| >= |old(code)|
      ensures ExprDone(rc, ParsePrimary(ts, old(pos), old(exprDepth)), old(code), old(Tables()), pos, code, Tables())
      decreases |ts| - pos, 3
    {
      hide TabsFit, Refuse, ParseLevel, CodeE, TabE;
      var entered := NestEnter(COST_GROUP);
      if !entered { return; }
      pos := pos + 1;
      Exp0();
      if rc != OK { return; }
      NestLeave(COST_GROUP);
      if ts[pos].kind != RParen {
        rc := UNSUP;
        return;
      }
      pos := pos + 1;
    }

    method Leaf()
      requires Valid() && rc == OK && ts[pos].kind != LParen && !IsContinuation(ts, pos) && !Called(ts, pos)
      modifies this`pos, this`code, this`consts, this`syms, this`rc
      ensures Valid() && |code| >= |old(code)| && (rc == OK ==> pos > old(pos))
      ensures ExprDone(rc, ParsePrimary(ts, old(pos), exprDepth), old(code), old(Tables()), pos, code, Tables())
    {
      hide TabsFit, StringBody, Adjacent, StrCode, StrTabs, PushCode, LoadCode;
      var t := ts[pos];
      if t.kind == String {
        EmitPushStr(StringBody(t));
        if rc != OK { return; }
        pos := pos + 1;
      } else if t.kind == Number {
        EmitPush(t.text);
        if rc != OK { return; }
        pos := pos + 1;
      } else if t.kind == Symbol {
        LeafSymbol();
      } else {
        rc := UNSUP;
      }
    }

    method LeafSymbol()
      requires Valid() && rc == OK && ts[pos].kind == Symbol && !Called(ts, pos)
      modifies this`pos, this`code, this`consts, this`syms, this`rc
      ensures Valid() && |code| >= |old(code)| && (rc == OK ==> pos > old(pos))
      ensures ExprDone(rc, ParsePrimary(ts, old(pos), exprDepth), old(code), old(Tables()), pos, code, Tables())
    {
      hide TabsFit, Adjacent, PushCode, LoadCode;
      var t := ts[pos];
      if t.constant {
        EmitPush(t.text);
      } else if t.compound {
        rc := BEYOND;
      } else {
        EmitLoad(t.upper);
      }
      if rc != OK { return; }
      pos := pos + 1;
    }

    // ---- Whole expressions ---------------------------------------------------------------

    /** bc_expr: a comma that continues a line joins two expressions with a blank. */
    method WholeExpr()
      requires Valid() && rc == OK && exprDepth == 0
      modifies this`pos, this`code, this`consts, this`syms, this`rc, this`exprDepth
      ensures Valid() && (rc == OK ==> exprDepth == 0 && pos > old(pos)) && |code| >= |old(code)|
      ensures ExprDone(rc, ParseExpr(ts, old(pos)), old(code), old(Tables()), pos, code, Tables())
    {
      hide TabsFit, ParseLevel, ParseJoined, CodeE, TabE, CodeOf, BarrierWord, ExprDone, EndsClause;
      ghost var i0, c0, t0 := pos, code, Tables();
      Exp0();
      if rc != OK {
        JoinFailed(rc, ts, i0, c0, t0, pos, code, Tables());
        return;
      }
      DoneIs(ParseLevel(ts, 0, i0, 0), c0, t0);
      ghost var l := ParseLevel(ts, 0, i0, 0).e;
      while IsContinuation(ts, pos)
        invariant Valid() && rc == OK && exprDepth == 0 && pos > i0 && |code| >= |c0|
        invariant ParseExpr(ts, i0) == ParseJoined(ts, pos, l)
        invariant code == c0 + CodeE(l, t0) && Tables() == TabE(l, t0)
        decreases |ts| - pos
      {
        ghost var i := pos;
        JoinFolds(ts, i, l);
        pos := pos + 1;
        if EndsClause(ts, pos) || IsBarrier(ts, pos) { break; }
        Exp0();
        if rc != OK {
          JoinedFailed(rc, ts, i, l, c0, t0, pos, code, Tables());
          return;
        }
        DoneIs(ParseLevel(ts, 0, i + 1, 0), c0 + CodeE(l, t0), TabE(l, t0));
        ghost var r := ParseLevel(ts, 0, i + 1, 0).e;
        BinCode(BConcat, l, r, t0, c0);
        assert CodeOf(BConcat) == OP_BCONCAT by { BlankJoin(); }
        EmitByte(OP_BCONCAT);
        if rc != OK {
          JoinTooLong(ts, i, l, c0, t0, pos, code, Tables());
          return;
        }
        l := Bin(BConcat, l, r);
      }
      JoinFolds(ts, pos, l);
      JoinEnds(i0, l, c0, t0);
    }

    lemma DoneIs(p: Parsed, c0: seq<Byte>, t0: Tabs)
      requires rc == OK && ExprDone(rc, p, c0, t0, pos, code, Tables())
      ensures p.Tree? && pos == p.next && code == c0 + CodeE(p.e, t0) && Tables() == TabE(p.e, t0)
    {
    }

    lemma JoinEnds(i0: nat, l: Expr, c0: seq<Byte>, t0: Tabs)
      requires i0 < |ts| && rc == OK && ParseExpr(ts, i0) == Tree(l, pos)
      requires code == c0 + CodeE(l, t0) && Tables() == TabE(l, t0)
      ensures ExprDone(rc, ParseExpr(ts, i0), c0, t0, pos, code, Tables())
    {
    }

    // ---- The whole state -----------------------------------------------------------------

    ghost function Cur(): State
      reads this
    {
      State(code, Tables(), loops)
    }

    ghost function Here(): Ctl
      reads this
    {
      CtlOf(loops, ifDepth)
    }

    ghost predicate Open()
      reads this
    {
      Valid() && rc == OK && exprDepth == 0 && |loops| + ifDepth <= CTL_MAX
    }

    /** Whatever happens, the trace map stays in order, and tells no byte to lie less deep than noted. */
    ghost predicate Mapped()
      reads this
    {
      Valid() && Charted(lmap, |code|, deep)
    }

    /** The trace map now. */
    ghost function Now(): Chart
      reads this
    {
      Chart(lmap, |code|, deep)
    }

    /** The depths of all code are noted. */
    ghost predicate Noted()
      reads this
    {
      |deep| == |code|
    }

    method FullExpression()
      requires Open()
      modifies this`pos, this`code, this`consts, this`syms, this`rc, this`exprDepth
      ensures Valid() && |code| >= |old(code)| && (rc == OK ==> Open() && pos > old(pos)) && rc != PATCH
      ensures PieceDone(rc, FullExpr(ts, old(pos)), old(Cur()), pos, Cur())
    {
      hide Fits, PieceDone, ExprDone, ParseExpr;
      WholeExpr();
      PieceFromExpr(rc, ParseExpr(ts, old(pos)), old(Cur()), pos, code, Tables());
    }

    method FirstLevel()
      requires Open()
      modifies this`pos, this`code, this`consts, this`syms, this`rc, this`exprDepth
      ensures Valid() && |code| >= |old(code)| && (rc == OK ==> Open() && pos > old(pos)) && rc != PATCH
      ensures PieceDone(rc, Level0(ts, old(pos)), old(Cur()), pos, Cur())
    {
      hide Fits, PieceDone, ExprDone, ParseLevel;
      Exp0();
      PieceFromExpr(rc, ParseLevel(ts, 0, old(pos), 0), old(Cur()), pos, code, Tables());
    }

    // ---- Trace map -------------------------------------------------------------------------

    /** Record m at the current code offset; an entry for the same offset is replaced. */
    method PutMark(line: nat, depth: nat)
      requires Charted(lmap, |code|, deep) && Noted()
      modifies this`lmap
      ensures Traced(old(Now()), Now(), [], depth) && Charted(lmap, |code|, deep) && LastDepth(lmap) == depth && |lmap| >= 1
      ensures lmap == OldMarks(old(lmap), |code|) + [Mark(|code|, line, depth)]
    {
      MarkPut(Now(), line, depth);
      if |lmap| > 0 && lmap[|lmap| - 1].pc == |code| {
        assert lmap[|lmap| - 1 := Mark(|code|, line, depth)] == OldMarks(lmap, |code|) + [Mark(|code|, line, depth)];
        lmap := lmap[|lmap| - 1 := Mark(|code|, line, depth)];
      } else {
        lmap := lmap + [Mark(|code|, line, depth)];
      }
    }

    method MarkClause()
      requires Mapped() && Noted()
      modifies this`lmap
      ensures Mapped() && Traced(old(Now()), Now(), [], |loops|) && LastDepth(lmap) == |loops| && |lmap| >= 1
      ensures lmap[|lmap| - 1].pc == |code|
    {
      hide Charted, Traced;
      PutMark(ts[pos].line, |loops|);
    }

    /** Code of clause idx that stands elsewhere belongs to it again. */
    method RemarkClause(idx: int)
      requires Mapped() && Noted() && 0 <= idx < |lmap|
      modifies this`lmap
      ensures Mapped() && Traced(old(Now()), Now(), [], old(lmap)[idx].depth) && LastDepth(lmap) == old(lmap)[idx].depth
    {
      hide Charted, Traced;
      if 0 <= idx < |lmap| { PutMark(lmap[idx].line, lmap[idx].depth); }
    }

    /** The code since a lies at depth v or deeper. */
    ghost method Note(a: Chart, v: nat)
      requires a == Chart(lmap, a.n, deep) && Charted(lmap, a.n, deep) && |deep| == a.n <= |code| && LastDepth(lmap) >= v
      modifies this`deep
      ensures Traced(a, Now(), Rep(|code| - a.n, v), v) && Charted(lmap, |code|, deep) && Noted()
    {
      CodeNoted(a, |code|, v);
      deep := deep + Rep(|code| - a.n, v);
    }

    // ---- Jumps -----------------------------------------------------------------------------

    /** A jump whose displacement is still 0; -1 if there is no room. */
    method EmitJump(op: Byte) returns (p: int)
      requires Valid() && rc == OK
      modifies this`code, this`rc
      ensures Valid() && |code| >= |old(code)|
      ensures p >= 0 ==> rc == OK && p == |old(code)| && code == old(code) + [op, 0, 0]
      ensures p >= 0 ==> Cur() == After(old(Cur()), Jump(op, 0), Tables())
      ensures p < 0 ==> rc == CAPACITY && |old(code)| + 3 > MAX_CODE
    {
      hide TabsFit;
      p := |code|;
      EmitByte(op);
      if rc != OK { return -1; }
      EmitWord(0);
      if rc != OK { return -1; }
      ZeroWord();
      AfterBytes(old(Cur()), [op] + Word(0), Tables());
    }

    method PatchTo(p: int, target: int)
      requires p >= 0 ==> p + 2 < |code|
      modifies this`code
      ensures |code| == |old(code)|
      ensures code == if rc == OK then PatchAt(old(code), p, target) else old(code)
    {
      if p < 0 || rc != OK { return; }
      var off := target - (p + 3);
      code := code[p + 1 := Lo(off)];
      code := code[p + 2 := Hi(off)];
    }

    /** A jump to a place already known. */
    method EmitBack(op: Byte, target: int)
      requires Valid() && rc == OK
      modifies this`code, this`rc
      ensures Valid() && |code| >= |old(code)|
      ensures rc == OK ==> code == old(code) + ([op] + Word(target - (|old(code)| + 3)))
      ensures rc == OK ==> Cur() == After(old(Cur()), Jump(op, target - (|old(code)| + 3)), Tables())
      ensures rc != OK ==> rc == CAPACITY && |old(code)| + 3 > MAX_CODE
    {
      hide TabsFit;
      var p := EmitJump(op);
      if p < 0 { return; }
      PatchTo(p, target);
      PatchOver(old(code), op, [], target);
      assert old(code) + [op, 0, 0] + [] == old(code) + [op, 0, 0];
      var w := [op] + Word(target - (|old(code)| + 3));
      assert old(code) + w + [] == old(code) + w;
      AfterBytes(old(Cur()), w, Tables());
    }

    /** Record a jump that waits for the end of block f. */
    method AddLeave(f: nat, p: int)
      requires f < |loops|
      modifies this`loops, this`rc
      ensures if |old(loops)[f].leaves| >= MAX_PATCHES then rc == PATCH && loops == old(loops)
              else rc == old(rc) && loops == old(loops)[f := old(loops)[f].(leaves := old(loops)[f].leaves + [p])]
    {
      if |loops[f].leaves| >= MAX_PATCHES {
        rc := PATCH;
      } else {
        loops := loops[f := loops[f].(leaves := loops[f].leaves + [p])];
      }
    }

    method AddIterate(f: nat, p: int)
      requires f < |loops|
      modifies this`loops, this`rc
      ensures if |old(loops)[f].iterates| >= MAX_PATCHES then rc == PATCH && loops == old(loops)
              else rc == old(rc) && loops == old(loops)[f := old(loops)[f].(iterates := old(loops)[f].iterates + [p])]
    {
      if |loops[f].iterates| >= MAX_PATCHES {
        rc := PATCH;
      } else {
        loops := loops[f := loops[f].(iterates := loops[f].iterates + [p])];
      }
    }

    static predicate Inside(ps: seq<int>, n: int) { forall i :: 0 <= i < |ps| ==> 0 <= ps[i] && ps[i] + 2 < n }

    /** Every jump in ps goes to target. */
    method PatchEach(ps: seq<int>, target: int)
      requires rc == OK && Inside(ps, |code|)
      modifies this`code
      ensures |code| == |old(code)| && code == PatchAll(old(code), ps, target)
    {
      hide PatchAt;
      var i := 0;
      assert ps[0..] == ps;
      while i < |ps|
        invariant 0 <= i <= |ps| && |code| == |old(code)|
        invariant PatchAll(code, ps[i..], target) == PatchAll(old(code), ps, target)
      {
        assert ps[i..][1..] == ps[i + 1..];
        PatchTo(ps[i], target);
        i := i + 1;
      }
    }

    // ---- Simple statements -----------------------------------------------------------------

    method CompileSay()
      requires Open() && IsKeyword(ts, pos, "SAY")
      modifies this`pos, this`code, this`consts, this`syms, this`rc, this`exprDepth
      ensures Valid() && |code| >= |old(code)| && (rc == OK ==> Open())
      ensures InnerDone(rc, ParseSay(ts, old(pos) + 1), |loops|, old(Cur()), pos, Cur())
    {
      hide TabsFit, FullExpr, CodeE, TabE, CompilerState.After, MostJumps, PieceDone, EndsClause, InnerDone;
      pos := pos + 1;
      ghost var st, i := Cur(), pos;
      ghost var g := if EndsClause(ts, pos) then Got(Expr.Lit(""), pos) else FullExpr(ts, pos);
      if EndsClause(ts, pos) {
        EmitPush("");
        PushIsPiece(st, "");
      } else {
        FullExpression();
      }
      PieceBytes(rc, g, st, pos, Cur());
      if rc == OK { EmitByte(OP_SAY); }
      SayDone(i, g, st);
    }

    lemma SayDone(i: nat, g: Got<Expr>, st: State)
      requires i < |ts| && g == if EndsClause(ts, i) then Got(Expr.Lit(""), i) else FullExpr(ts, i)
      requires loops == st.fs && rc != PATCH
      requires rc == OK ==> g.Got? && pos == g.next && code == st.code + CodeE(g.v, st.t) + [OP_SAY] && Tables() == TabE(g.v, st.t)
      requires rc == UNSUP ==> g == Failed(false)
      requires rc == BEYOND ==> g == Failed(true)
      requires (rc == CAPACITY || rc == STRTOOLONG) && g.Got? ==>
        |st.code| + |CodeE(g.v, st.t)| + 1 > MAX_CODE || !TabsFit(TabE(g.v, st.t))
      ensures InnerDone(rc, ParseSay(ts, i), |loops|, st, pos, Cur())
    {
      hide TabsFit, FullExpr, CodeE, TabE, CompilerState.After, MostJumps;
      if g.Got? { BytesDone(rc, Stmt.Say(g.v), CodeE(g.v, st.t), [OP_SAY], g.next, st, pos, Cur()); }
    }

    lemma PushIsPiece(st: State, s: string)
      requires loops == st.fs
      requires var c, t := st.code + PushCode(st.t, s), ExprCode.AddConst(st.t, s);
               if rc == OK then code == c && Tables() == t else rc in {CAPACITY, STRTOOLONG} && !Fits(c, t)
      ensures PieceDone(rc, Got(Expr.Lit(s), pos), st, pos, Cur())
    {
      hide TabsFit;
      AfterBytes(st, CodeE(Expr.Lit(s), st.t), TabE(Expr.Lit(s), st.t));
    }

    method CompileExit()
      requires Open() && IsKeyword(ts, pos, "EXIT")
      modifies this`pos, this`code, this`consts, this`syms, this`rc, this`exprDepth
      ensures Valid() && |code| >= |old(code)| && (rc == OK ==> Open())
      ensures InnerDone(rc, ParseExit(ts, old(pos) + 1), |loops|, old(Cur()), pos, Cur())
    {
      hide TabsFit, FullExpr, CodeE, TabE, CompilerState.After, MostJumps, PieceDone, EndsClause;
      pos := pos + 1;
      ghost var st, i := Cur(), pos;
      if EndsClause(ts, pos) {
        EmitByte(OP_EXIT);
        assert [] + [OP_EXIT] == [OP_EXIT] && st.code + [] + [OP_EXIT] == st.code + [OP_EXIT];
        BytesDone(rc, Stmt.Exit, [], [OP_EXIT], i, st, pos, Cur());
        return;
      }
      FullExpression();
      ghost var g := FullExpr(ts, i);
      PieceBytes(rc, g, st, pos, Cur());
      if rc == OK { EmitByte(OP_EXIT_RC); }
      if g.Got? { BytesDone(rc, Stmt.ExitWith(g.v), CodeE(g.v, st.t), [OP_EXIT_RC], g.next, st, pos, Cur()); }
    }

    method CompileReturn()
      requires Open() && IsKeyword(ts, pos, "RETURN")
      modifies this`pos, this`code, this`consts, this`syms, this`rc, this`exprDepth
      ensures Valid() && |code| >= |old(code)| && (rc == OK ==> Open())
      ensures InnerDone(rc, ParseReturn(ts, old(pos) + 1), |loops|, old(Cur()), pos, Cur())
    {
      hide TabsFit, FullExpr, CodeE, TabE, CompilerState.After, MostJumps, PieceDone, EndsClause;
      pos := pos + 1;
      ghost var st, i := Cur(), pos;
      if EndsClause(ts, pos) {
        EmitByte(OP_RETURN);
        assert [] + [OP_RETURN] == [OP_RETURN] && st.code + [] + [OP_RETURN] == st.code + [OP_RETURN];
        BytesDone(rc, Stmt.Return, [], [OP_RETURN], i, st, pos, Cur());
        return;
      }
      FullExpression();
      ghost var g := FullExpr(ts, i);
      PieceBytes(rc, g, st, pos, Cur());
      if rc == OK { EmitByte(OP_RETURNV); }
      if g.Got? { BytesDone(rc, Stmt.ReturnWith(g.v), CodeE(g.v, st.t), [OP_RETURNV], g.next, st, pos, Cur()); }
    }

    method CompileCallTo()
      requires Open() && IsKeyword(ts, pos, "CALL")
      modifies this`pos, this`code, this`consts, this`syms, this`rc, this`exprDepth
      ensures Valid() && |code| >= |old(code)| && (rc == OK ==> Open())
      ensures InnerDone(rc, ParseCallTo(ts, old(pos) + 1), |loops|, old(Cur()), pos, Cur())
    {
      hide TabsFit, CodeA, TabA, CompilerState.After, CallArgsDone, EndsClause, ParseCallTo, ParseCallArgs, InnerDone, Find, Word,
           ExprCode.AddSym, MostJumps;
      pos := pos + 1;
      ghost var st, i := Cur(), pos;
      if ts[pos].kind != Symbol || ts[pos].constant {
        rc := UNSUP;
        NoCallee(i, st);
        return;
      }
      ghost var name := ts[pos].upper;
      var si := AddSym(ts[pos].upper);
      if si < 0 {
        CalleeFailed(i, st);
        return;
      }
      pos := pos + 1;
      ghost var t1 := ExprCode.AddSym(st.t, name);
      var nargs;
      ghost var g;
      nargs, g := CallArgumentsIfAny();
      if rc != OK {
        CallFailed(i, g, st);
        return;
      }
      ghost var a := CallArgsAre(g, st.code, t1, nargs);
      ghost var c1 := code;
      EmitIndexed(OP_CALL, si);
      EmitByte(Lo(nargs));
      CallDone(i, a, st, c1);
    }

    method CallArgumentsIfAny() returns (nargs: nat, ghost g: Got<Args>)
      requires Open()
      modifies this`pos, this`code, this`consts, this`syms, this`rc, this`exprDepth
      ensures Valid() && (rc == OK ==> Open() && pos >= old(pos)) && |code| >= |old(code)|
      ensures g == if EndsClause(ts, old(pos)) then Got(NoArgs, old(pos)) else ParseCallArgs(ts, old(pos), NoArgs)
      ensures CallArgsDone(rc, g, old(code), old(Tables()), pos, code, Tables())
      ensures rc == OK && g.Got? ==> nargs == CountA(g.v)
    {
      hide TabsFit, CodeA, TabA, CallArgsDone, EndsClause, ParseCallArgs;
      nargs := 0;
      if EndsClause(ts, pos) {
        g := Got(NoArgs, pos);
        NoCallArgs(code, Tables());
      } else {
        g := ParseCallArgs(ts, pos, NoArgs);
        nargs := CallArguments();
      }
    }

    lemma NoCallee(i: nat, st: State)
      requires i < |ts| && (ts[i].kind != Symbol || ts[i].constant) && rc == UNSUP
      ensures InnerDone(rc, ParseCallTo(ts, i), |loops|, st, pos, Cur())
    {
      Unparsed(ParseCallTo(ts, i), |loops|, st);
    }

    lemma CalleeFailed(i: nat, st: State)
      requires i < |ts| && ts[i].kind == Symbol && !ts[i].constant && loops == st.fs
      requires (rc == CAPACITY || rc == STRTOOLONG) && !TabsFit(ExprCode.AddSym(st.t, ts[i].upper))
      ensures InnerDone(rc, ParseCallTo(ts, i), |loops|, st, pos, Cur())
    {
      hide TabsFit, CodeA, TabA, CompilerState.After, MostJumps, EndsClause, ParseCallArgs, CallCode;
      var r := ParseCallTo(ts, i);
      if r.Got? { CalleeTooMuch(st.t, ts[i].upper, r.v.args); }
    }

    lemma NoCallArgs(c0: seq<Byte>, t: Tabs)
      requires rc == OK && code == c0 && Tables() == t
      ensures CallArgsDone(rc, Got(NoArgs, pos), c0, t, pos, code, Tables()) && CountA(NoArgs) == 0
    {
    }

    lemma CallFailed(i: nat, g: Got<Args>, st: State)
      requires i + 1 < |ts| && ts[i].kind == Symbol && !ts[i].constant && loops == st.fs && rc != OK
      requires g == if EndsClause(ts, i + 1) then Got(NoArgs, i + 1) else ParseCallArgs(ts, i + 1, NoArgs)
      requires CallArgsDone(rc, g, st.code, ExprCode.AddSym(st.t, ts[i].upper), pos, code, Tables())
      ensures InnerDone(rc, ParseCallTo(ts, i), |loops|, st, pos, Cur())
    {
      hide TabsFit, CodeA, TabA, CompilerState.After, MostJumps, EndsClause, ParseCallArgs, CallCode;
    }

    lemma CallArgsAre(g: Got<Args>, c0: seq<Byte>, t0: Tabs, nargs: nat) returns (a: Args)
      requires rc == OK && CallArgsDone(rc, g, c0, t0, pos, code, Tables()) && (g.Got? ==> nargs == CountA(g.v))
      ensures g == Got(a, pos) && code == c0 + CodeA(a, t0) && Tables() == TabA(a, t0) && nargs == CountA(a)
    {
      hide CodeA, TabA;
      a := g.v;
    }

    lemma CallDone(i: nat, a: Args, st: State, c1: seq<Byte>)
      requires Valid() && i + 1 < |ts| && ts[i].kind == Symbol && !ts[i].constant && loops == st.fs
      requires Got(a, pos) == if EndsClause(ts, i + 1) then Got(NoArgs, i + 1) else ParseCallArgs(ts, i + 1, NoArgs)
      requires c1 == st.code + CodeA(a, ExprCode.AddSym(st.t, ts[i].upper)) && Tables() == TabA(a, ExprCode.AddSym(st.t, ts[i].upper))
      requires if rc == OK then code == c1 + ([OP_CALL] + Word(Find(st.t.syms, ts[i].upper))) + [Lo(CountA(a))]
               else rc == CAPACITY && |c1| + 4 > MAX_CODE
      ensures InnerDone(rc, ParseCallTo(ts, i), |loops|, st, pos, Cur())
    {
      hide TabsFit, CodeA, TabA, CompilerState.After, MostJumps, EndsClause, ParseCallArgs, Word, Find, InnerDone;
      var name := ts[i].upper;
      var x, y := CodeA(a, ExprCode.AddSym(st.t, name)), CallCode(OP_CALL, st.t, name, CountA(a));
      assert ParseCallTo(ts, i) == Got(Stmt.CallTo(name, a), pos);
      BytesDone(rc, Stmt.CallTo(name, a), x, y, pos, st, pos, Cur());
    }

    /** The arguments of CALL up to the end of the clause. */
    method CallArguments() returns (nargs: nat)
      requires Open() && !EndsClause(ts, pos)
      modifies this`pos, this`code, this`consts, this`syms, this`rc, this`exprDepth
      ensures Valid() && (rc == OK ==> Open() && pos > old(pos)) && |code| >= |old(code)|
      ensures CallArgsDone(rc, ParseCallArgs(ts, old(pos), NoArgs), old(code), old(Tables()), pos, code, Tables())
      ensures rc == OK && ParseCallArgs(ts, old(pos), NoArgs).Got? ==> nargs == CountA(ParseCallArgs(ts, old(pos), NoArgs).v)
    {
      hide TabsFit, ParseCallArgs, ParseLevel, CodeA, TabA, CodeE, TabE, ExprDone, CallArgsDone, EndsClause, BehindArg;
      ghost var i0, c0, t0, acc := pos, code, Tables(), NoArgs;
      NoArgsCode(c0, t0);
      var afterComma := false;
      nargs := 0;
      while true
        invariant Open() && pos >= i0 && |code| >= |c0| && nargs == CountA(acc)
        invariant ParseCallArgs(ts, i0, NoArgs) == ParseCallArgs(ts, pos, acc)
        invariant code == c0 + CodeA(acc, t0) && Tables() == TabA(acc, t0)
        invariant if afterComma then pos > i0 else !EndsClause(ts, pos)
        decreases |ts| - pos
      {
        ghost var i := pos;
        if nargs >= MAX_ARGS {
          rc := UNSUP;
          TooManyCallArgs(i, acc, c0, t0);
          return;
        }
        CallArgFolds(ts, i, acc);
        if ts[pos].kind == Comma || EndsClause(ts, pos) {
          EmitByte(OP_PUSH_OMITTED);
          if rc != OK {
            CallOmittedFailed(ts, i, acc, c0, t0, pos, code, Tables());
            return;
          }
          ArgCode(acc, TooDeep, t0, c0);
          acc := CountMore(acc, None);
          OmittedTabs(acc, t0);
          nargs := nargs + 1;
          if ts[pos].kind != Comma {
            CallArgsEnd(i0, acc, c0, t0);
            return;
          }
        } else {
          Exp0();
          if rc != OK {
            CallArgFailed(rc, ts, i, acc, c0, t0, pos, code, Tables());
            return;
          }
          ghost var x := ParseLevel(ts, 0, i, 0);
          DoneIs(x, c0 + CodeA(acc, t0), TabA(acc, t0));
          ArgCode(acc, x.e, t0, c0);
          ArgTabs(acc, x.e, t0);
          acc := CountMore(acc, Some(x.e));
          nargs := nargs + 1;
          BehindIs(ts, pos, acc);
          if ts[pos].kind != Comma {
            if EndsClause(ts, pos) {
              CallArgsEnd(i0, acc, c0, t0);
            } else {
              rc := UNSUP;
              NoCallSeparator(ParseCallArgs(ts, i0, NoArgs), c0, t0);
            }
            return;
          }
        }
        pos := pos + 1;
        afterComma := true;
      }
    }

    lemma TooManyCallArgs(i: nat, acc: Args, c0: seq<Byte>, t0: Tabs)
      requires i < |ts| && CountA(acc) >= MAX_ARGS && rc == UNSUP
      ensures CallArgsDone(rc, ParseCallArgs(ts, i, acc), c0, t0, pos, code, Tables())
    {
    }

    lemma NoCallSeparator(g: Got<Args>, c0: seq<Byte>, t0: Tabs)
      requires g == Failed(false) && rc == UNSUP
      ensures CallArgsDone(rc, g, c0, t0, pos, code, Tables())
    {
    }

    lemma CallArgsEnd(i: nat, acc: Args, c0: seq<Byte>, t0: Tabs)
      requires i < |ts| && rc == OK && ParseCallArgs(ts, i, NoArgs) == Got(acc, pos)
      requires code == c0 + CodeA(acc, t0) && Tables() == TabA(acc, t0)
      ensures CallArgsDone(rc, ParseCallArgs(ts, i, NoArgs), c0, t0, pos, code, Tables())
    {
      hide ParseCallArgs, CodeA, TabA;
    }

    method CompileAssign()
      requires Open() && IsAssign(ts, pos)
      modifies this`pos, this`code, this`consts, this`syms, this`rc, this`exprDepth
      ensures Valid() && |code| >= |old(code)| && (rc == OK ==> Open())
      ensures InnerDone(rc, ParseAssign(ts, old(pos) + 2, ts[old(pos)].upper), |loops|, old(Cur()), pos, Cur())
    {
      hide TabsFit, FullExpr, CodeE, TabE, CompilerState.After, MostJumps, PieceDone, StoreCode, Find;
      ghost var st, i, name := Cur(), pos, ts[pos].upper;
      ghost var g := FullExpr(ts, i + 2);
      var si := AddSym(ts[pos].upper);
      ghost var t1 := ExprCode.AddSym(st.t, name);
      if si < 0 {
        VariableFailed(i, st);
        return;
      }
      pos := pos + 2;
      ghost var st1 := Cur();
      FullExpression();
      PieceBytes(rc, g, st1, pos, Cur());
      if rc == OK { EmitIndexed(OP_STORE, si); }
      if g.Got? {
        StoreIndex(st.t, name);
        hide Word;
        assert SetCode(name, g.v, t1) == CodeE(g.v, t1) + StoreCode(t1, name);
        BytesDone(rc, Stmt.Assign(name, g.v), CodeE(g.v, t1), StoreCode(t1, name), g.next, st, pos, Cur());
      }
    }

    lemma VariableFailed(i: nat, st: State)
      requires i + 2 < |ts| && loops == st.fs && (rc == CAPACITY || rc == STRTOOLONG)
      requires !TabsFit(ExprCode.AddSym(st.t, ts[i].upper))
      ensures InnerDone(rc, ParseAssign(ts, i + 2, ts[i].upper), |loops|, st, pos, Cur())
    {
      hide TabsFit, FullExpr, CodeE, TabE, CompilerState.After, MostJumps, StoreCode;
      var g, name := FullExpr(ts, i + 2), ts[i].upper;
      if g.Got? {
        NameTooMuch(st.t, name, g.v);
        BytesDone(rc, Stmt.Assign(name, g.v), SetCode(name, g.v, ExprCode.AddSym(st.t, name)), [], g.next, st, pos, Cur());
      }
    }

    static lemma StoreIndex(t: Tabs, name: string)
      ensures StoreCode(ExprCode.AddSym(t, name), name) == [OP_STORE] + Word(Find(t.syms, name))
    {
      hide Word;
      SymStays(t, name);
    }

    static lemma SymStays(t: Tabs, name: string)
      ensures Find(ExprCode.AddSym(t, name).syms, name) == Find(t.syms, name)
    {
      if Find(t.syms, name) == |t.syms| { AppendFound(t.syms, name); }
    }

    static lemma {:induction false} AppendFound(t: seq<string>, s: string)
      requires Find(t, s) == |t|
      ensures Find(t + [s], s) == |t|
    {
      if t != [] {
        assert (t + [s])[1..] == t[1..] + [s];
        AppendFound(t[1..], s);
      }
    }

    static lemma NameTooMuch(t: Tabs, name: string, e: Expr)
      requires !TabsFit(ExprCode.AddSym(t, name))
      ensures !TabsFit(TabE(e, ExprCode.AddSym(t, name)))
    {
      TabEGrows(e, ExprCode.AddSym(t, name));
      if TabsFit(TabE(e, ExprCode.AddSym(t, name))) { FitsSmaller([], ExprCode.AddSym(t, name), [], TabE(e, ExprCode.AddSym(t, name))); }
    }

    // ---- LEAVE and ITERATE -------------------------------------------------------------------

    /** Past the keyword and a name behind it. */
    method SkipName() returns (named: bool)
      requires Valid() && ts[pos].kind == Symbol
      modifies this`pos
      ensures Valid() && named == Named(ts, old(pos)) && pos == if named then old(pos) + 2 else old(pos) + 1
    {
      pos := pos + 1;
      named := Tok(ts, pos).kind == Symbol && !EndsClause(ts, pos);
      if named { pos := pos + 1; }
    }

    /** A jump to be recorded in block f. */
    method EmitHole(op: Byte, k: HoleKind, f: nat)
      requires Open() && f == HoleFrame(loops, k) && !(k.IterateHole? && loops[f].known)
      modifies this`code, this`rc, this`loops
      ensures Valid() && |code| >= |old(code)| && |loops| == |old(loops)| && (rc == OK ==> Open())
      ensures Compiled(rc, true, false, pos, HoleJump(op, k), Tables(), 1, old(Cur()), pos, Cur())
    {
      hide TabsFit, CompilerState.After, MostJumps, InnerLoop, InnerSelect;
      AfterHole(Cur(), op, k);
      MostAtLeast(loops, f);
      var p := EmitJump(op);
      if p < 0 { return; }
      if k.IterateHole? { AddIterate(f, p); } else { AddLeave(f, p); }
    }

    method CompileIterate()
      requires Open() && ts[pos].kind == Symbol
      modifies this`pos, this`code, this`rc, this`loops
      ensures Valid() && |code| >= |old(code)| && |loops| == |old(loops)| && (rc == OK ==> Open())
      ensures InnerDone(rc, ParseIterate(ts, old(pos), old(Here())), |loops|, old(Cur()), pos, Cur())
    {
      hide TabsFit, CompilerState.After, MostJumps, InnerLoop, InnerSelect, Named;
      var named := SkipName();
      var f := InnerLoop(loops);
      if named || f < 0 {
        rc := UNSUP;
        return;
      }
      if loops[f].known {
        AfterHole(Cur(), OP_ITERATE, IterateHole);
        EmitBack(OP_ITERATE, loops[f].target);
      } else {
        EmitHole(OP_ITERATE, IterateHole, f);
      }
    }

    method CompileLeave()
      requires Open() && ts[pos].kind == Symbol
      modifies this`pos, this`code, this`rc, this`loops
      ensures Valid() && |code| >= |old(code)| && |loops| == |old(loops)| && (rc == OK ==> Open())
      ensures InnerDone(rc, ParseLeave(ts, old(pos), old(Here())), |loops|, old(Cur()), pos, Cur())
    {
      hide TabsFit, CompilerState.After, MostJumps, InnerLoop, InnerSelect, Named;
      var named := SkipName();
      var f := if named then -1 else InnerLoop(loops);
      if f >= 0 {
        EmitHole(OP_LEAVE, LeaveHole, f);
      } else {
        f := InnerSelect(loops);
        if f < 0 {
          rc := UNSUP;
          return;
        }
        EmitHole(OP_LEAVE, SelectHole, f);
      }
    }

    // ---- Blocks past the control stack ---------------------------------------------------------

    method CompileRefused()
      requires Open() && !IsKeyword(ts, pos, "END")
      modifies this`pos, this`code, this`rc
      ensures Valid() && |code| >= |old(code)| && (rc == OK ==> Open())
      ensures InnerDone(rc, ParseRefused(ts, old(pos)), |loops|, old(Cur()), pos, Cur())
    {
      hide TabsFit, CompilerState.After, MostJumps, SkipToEnd, IsKeyword;
      ghost var i := pos;
      SkipRefused();
      if ts[pos].kind == Eof {
        rc := UNSUP;
        return;
      }
      ghost var st := Cur();
      EmitRaise(SYNTAX_CTL_STACK);
      var x := [OP_RAISE, SYNTAX_CTL_STACK];
      assert x + [] == x && st.code + x + [] == st.code + x;
      BytesDone(rc, Stmt.Refused, x, [], pos, st, pos, Cur());
    }

    /** On to the END that closes what is skipped, or to the end of the source. */
    method SkipRefused()
      requires Valid() && !IsKeyword(ts, pos, "END")
      modifies this`pos
      ensures Valid() && pos >= old(pos)
      ensures if SkipToEnd(ts, old(pos), 0, true).Some? then pos == SkipToEnd(ts, old(pos), 0, true).value > old(pos) && ts[pos].kind != Eof
              else ts[pos].kind == Eof
    {
      var balance, atStart := 0, true;
      while true
        invariant Valid() && balance >= 0 && SkipToEnd(ts, pos, balance, atStart) == SkipToEnd(ts, old(pos), 0, true)
        invariant pos > old(pos) || (balance == 0 && atStart && pos == old(pos))
        modifies this`pos
        decreases |ts| - pos
      {
        if ts[pos].kind == Eof { break; }
        var key := atStart && ts[pos].kind == Symbol && !IsAssign(ts, pos);
        if key && IsKeyword(ts, pos, "END") {
          if balance == 0 { break; }
          balance := balance - 1;
        } else if key && (IsKeyword(ts, pos, "DO") || IsKeyword(ts, pos, "SELECT")) {
          balance := balance + 1;
        }
        atStart := ts[pos].kind == Eoc || ts[pos].kind == Semicolon
          || IsKeyword(ts, pos, "THEN") || IsKeyword(ts, pos, "ELSE") || IsKeyword(ts, pos, "OTHERWISE");
        pos := pos + 1;
      }
    }

    // ---- IF ----------------------------------------------------------------------------------

    /** The condition of IF or WHEN, THEN, and the jump past the branch, which is returned. */
    method CompileGuard() returns (jf: int, ghost g: Got<Expr>)
      requires Open() && Mapped()
      modifies this`pos, this`code, this`consts, this`syms, this`rc, this`exprDepth
      ensures Mapped() && |code| >= |old(code)| && g == FullExpr(ts, old(pos))
      ensures rc == OK ==> Open() && g.Got? && IsKeyword(ts, g.next, "THEN") && pos == ConsumeNewline(ts, g.next + 1)
      ensures rc == OK ==> jf == |old(code)| + |CodeE(g.v, old(Tables()))|
      ensures rc == OK ==> Cur() == After(old(Cur()), IfFront(g.v, old(Tables()), 0), TabE(g.v, old(Tables())))
      ensures rc == UNSUP ==> g == Failed(false) || (g.Got? && !IsKeyword(ts, g.next, "THEN"))
      ensures rc == BEYOND ==> g == Failed(true)
      ensures rc == CAPACITY || rc == STRTOOLONG ==>
        (g.Got? ==> |old(code)| + |CodeE(g.v, old(Tables()))| + 3 > MAX_CODE || !TabsFit(TabE(g.v, old(Tables()))))
      ensures rc != PATCH
    {
      hide TabsFit, FullExpr, CodeE, TabE, CompilerState.After, PieceDone, Charted, Traced;
      ghost var st, i := Cur(), pos;
      FullExpression();
      MarksGrow(|st.code|);
      g := FullExpr(ts, i);
      PieceBytes(rc, g, st, pos, Cur());
      if rc != OK { return -1, g; }
      if !IsKeyword(ts, pos, "THEN") {
        rc := UNSUP;
        return -1, g;
      }
      pos := pos + 1;
      NewlineNext();
      if ts[pos].kind == Eoc { pos := pos + 1; }
      ghost var mid := Cur();
      jf := EmitJump(OP_JF);
      MarksGrow(|mid.code|);
      if jf < 0 { return; }
      GuardState(st, g.v, mid, Cur());
    }

    lemma MarksGrow(n: nat)
      requires Charted(lmap, n, deep) && n <= |code|
      ensures Charted(lmap, |code|, deep)
    {
    }

    lemma NewlineNext()
      requires Valid()
      ensures ts[pos].kind == Eoc ==> pos + 1 < |ts|
    {
    }

    static lemma GuardState(st: State, c: Expr, mid: State, cur: State)
      requires mid == State(st.code + CodeE(c, st.t), TabE(c, st.t), st.fs)
      requires cur == After(mid, Jump(OP_JF, 0), mid.t)
      ensures cur == After(st, IfFront(c, st.t, 0), TabE(c, st.t))
    {
      hide CodeE, TabE, CompilerState.After, Word, Paired;
      AfterBytes(st, CodeE(c, st.t), TabE(c, st.t));
      BytesArePaired(CodeE(c, st.t));
      AfterJoin(st, Bytes(CodeE(c, st.t)), TabE(c, st.t), Jump(OP_JF, 0), TabE(c, st.t));
    }

    method CompileIf()
      requires Open() && Mapped() && ts[pos].kind != Eof && Noted() && LastDepth(lmap) >= |loops|
      modifies this
      ensures Mapped() && |code| >= |old(code)|
      ensures ifDepth == old(ifDepth) && (rc == OK ==> Open() && Here() == old(Here()))
      ensures InnerDone(rc, ParseIf(ts, old(pos) + 1, old(Here())), |old(loops)|, old(Cur()), pos, Cur())
      ensures TracedInner(rc, ParseIf(ts, old(pos) + 1, old(Here())), old(Tables()), |old(loops)|, old(Now()), Now())
      decreases |ts| - pos, 9, 0
    {
      hide JumpsS, DepthOk, KnownOf, AddHoles, Jump, IsEoc, IsKeyword, TabsFit, FullExpr, CodeE, TabE, TabS,
           CellsS, CompilerState.After, Charted, Traced, InnerDone, StmtDone, IfFront, ParseStmt, ParseIf,
           InnerLoop, InnerSelect, PatchAt, Paired, Few, Compiled;
      ghost var st, i, x, d := Cur(), pos + 1, Here(), |loops|;
      ghost var r, ch := ParseIf(ts, i, x), Now();
      pos := pos + 1;
      var jf; ghost var g;
      jf, g := CompileGuard();
      IfParsed(i, x, g);
      if rc != OK {
        if rc == CAPACITY || rc == STRTOOLONG { IfStopped(rc, r, g, d, st, pos, Cur()); } else { Unparsed(r, d, st); }
        return;
      }
      Settled(st, IfFront(g.v, st.t, 0), TabE(g.v, st.t), Cur());
      FrontLengths(g.v, st.t, 0);
      Note(ch, d);
      CompileThen(jf, st, r, g.v, x, ch);
    }

    static lemma FrontLengths(c: Expr, t: Tabs, skip: int)
      ensures |IfFront(c, t, skip)| == |CodeE(c, t)| + 3
    {
      hide CodeE;
    }

    method CompileThen(jf: int, ghost st: State, ghost r: Got<Stmt>, ghost c: Expr, ghost x: Ctl, ghost ch: Chart)
      requires Open() && Mapped() && x == Here() && |loops| == |st.fs|
      requires Traced(ch, Now(), Rep(|CodeE(c, st.t)| + 3, |loops|), |loops|) && Noted() && LastDepth(lmap) >= |loops|
      requires jf == |st.code| + |CodeE(c, st.t)| && Cur() == CompilerState.After(st, IfFront(c, st.t, 0), TabE(c, st.t))
      requires r.Got? ==> r.v.If? && DepthOk(r.v, |loops|) && r.v.c == c
      requires IfBehind(r, c, pos, x)
      modifies this
      ensures Mapped() && |code| >= |old(code)|
      ensures ifDepth == old(ifDepth) && (rc == OK ==> Open() && Here() == old(Here()))
      ensures InnerDone(rc, r, |st.fs|, st, pos, Cur())
      ensures TracedInner(rc, r, st.t, |st.fs|, ch, Now())
      decreases |ts| - pos, 11, 0
    {
      hide IsKeyword, JumpsS, DepthOk, KnownOf, AddHoles, Jump, IsEoc, TabsFit, FullExpr, CodeE, TabE, TabS,
           CellsS, CompilerState.After, Charted, Traced, InnerDone, StmtDone, IfFront, ParseStmt, InnerLoop,
           InnerSelect, PatchAt, Paired, Few, Compiled;
      ghost var d, t1, st1 := |loops|, TabE(c, st.t), Cur();
      FrontIsGood(c, st.t, 0);
      TabsOfAfter(st, IfFront(c, st.t, 0), t1);
      ghost var a, ch1 := ParseStmt(ts, pos, x), Now();
      CompileStmt();
      if rc != OK {
        ThenStopped(rc, r, c, a, d, st, pos, Cur());
        return;
      }
      StmtCells(a, d, st1);
      StmtIsTraced(a, t1, d, ch1);
      ThenTraced(c, a.v, st.t, d, ch, ch1, Now());
      ghost var cs, t2 := CellsS(a.v, t1, d), TabS(a.v, t1, d);
      AfterJoin(st, IfFront(c, st.t, 0), t1, cs, t2);
      CompilePastEoc();
      if IsKeyword(ts, pos, "ELSE") {
        CompileElse(jf, st, r, c, a, x, ch);
      } else {
        ghost var was := Cur();
        AfterLength(st, IfFront(c, st.t, 0) + cs, t2);
        PatchTo(jf, |code|);
        GuardPatched(st, c, cs, t2, was, Cur());
        Settled(st, IfFront(c, st.t, |cs|) + cs, t2, Cur());
        IfDone(r, d, st, pos, Cur());
        TracedNext(OK, r.v, r.next, 0, st.t, d, ch, Now());
      }
    }

    /** What the tokens behind THEN amount to, i being the first. */
    ghost predicate IfBehind(r: Got<Stmt>, c: Expr, i: nat, x: Ctl)
      requires i < |ts|
    {
      var a := ParseStmt(ts, i, x);
      (!a.Got? ==> r == Failed(a.beyond))
      && (a.Got? ==>
          var m := ConsumeEoc(ts, a.next);
          if !IsKeyword(ts, m, "ELSE") then r == Got(If(c, a.v, false, Null), m)
          else
            m + 1 < |ts| &&
            var f := ParseStmt(ts, ConsumeNewline(ts, m + 1), x);
            if f.Got? then r == Got(If(c, a.v, true, f.v), ConsumeEoc(ts, f.next)) else r == Failed(f.beyond))
    }

    /** What IF's tokens amount to, piece by piece. */
    lemma IfParsed(i: nat, x: Ctl, g: Got<Expr>)
      requires i < |ts| && g == FullExpr(ts, i)
      ensures var r := ParseIf(ts, i, x);
              (r.Got? ==> r.v.If? && DepthOk(r.v, x.loops))
              && (!g.Got? ==> r == Failed(g.beyond))
              && (g.Got? && !IsKeyword(ts, g.next, "THEN") ==> r == Failed(false))
              && (r.Got? ==> g.Got? && g.v == r.v.c)
              && (g.Got? && IsKeyword(ts, g.next, "THEN") ==>
                  g.next + 1 < |ts| && IfBehind(r, g.v, ConsumeNewline(ts, g.next + 1), x))
    {
      hide IsKeyword, FullExpr, ParseStmt, Programs.ClosedS;
      if ParseIf(ts, i, x).Got? { Programs.IfIsGood(ts, i, x); }
    }

    lemma StmtIsTraced(a: Got<Stmt>, t: Tabs, d: nat, c: Chart)
      requires rc == OK && a.Got? && DepthOk(a.v, d) && TracedS(rc, a, t, d, c, Now())
      ensures Traced(c, Now(), DeepS(a.v, t, d), d) && Noted() && (LastDepth(c.marks) >= d ==> LastDepth(lmap) >= d)
    {
      hide DeepS;
    }

    lemma Unparsed(r: Got<Stmt>, d: nat, st: State)
      requires (rc == UNSUP && r == Failed(false)) || (rc == BEYOND && r == Failed(true))
      ensures InnerDone(rc, r, d, st, pos, Cur())
    {
    }

    lemma StmtCells(a: Got<Stmt>, d: nat, st: State)
      requires rc == OK && StmtDone(rc, a, d, st, pos, Cur())
      ensures a.Got? && DepthOk(a.v, d) && pos == a.next && Cur() == CompilerState.After(st, CellsS(a.v, st.t, d), TabS(a.v, st.t, d))
    {
      hide CellsS, TabS, CompilerState.After, TabsFit;
    }

    /** consume_eoc: a single clause end. */
    method CompilePastEoc()
      requires Valid()
      modifies this`pos
      ensures Valid() && pos == ConsumeEoc(ts, old(pos))
    {
      if IsEoc(ts, pos) { pos := pos + 1; }
    }

    method CompileElse(jf: int, ghost st: State, ghost r: Got<Stmt>, ghost c: Expr, ghost a: Got<Stmt>, ghost x: Ctl, ghost ch: Chart)
      requires Open() && Mapped() && IsKeyword(ts, pos, "ELSE") && x == Here() && |loops| == |st.fs| && Noted() && LastDepth(lmap) >= |loops|
      requires a.Got? && DepthOk(a.v, |loops|) && Traced(ch, Now(), Rep(|CodeE(c, st.t)| + 3, |loops|) + DeepS(a.v, TabE(c, st.t), |loops|), |loops|)
      requires jf == |st.code| + |CodeE(c, st.t)|
      requires Cur() == CompilerState.After(st, IfFront(c, st.t, 0) + CellsS(a.v, TabE(c, st.t), |loops|), TabS(a.v, TabE(c, st.t), |loops|))
      requires r.Got? ==> DepthOk(r.v, |loops|)
      requires var f := ParseStmt(ts, ConsumeNewline(ts, pos + 1), x);
               if f.Got? then r == Got(If(c, a.v, true, f.v), ConsumeEoc(ts, f.next)) else r == Failed(f.beyond)
      modifies this
      ensures Mapped() && |code| >= |old(code)|
      ensures ifDepth == old(ifDepth) && (rc == OK ==> Open() && Here() == old(Here()))
      ensures InnerDone(rc, r, |old(loops)|, st, pos, Cur())
      ensures TracedInner(rc, r, st.t, |st.fs|, ch, Now())
      decreases |ts| - pos, 10, 9
    {
      hide JumpsS, DepthOk, IsEoc, IsKeyword, TabsFit, CodeE, TabE, TabS, CellsS, CompilerState.After, Charted, Traced,
           InnerDone, IfFront, ParseStmt, InnerLoop, InnerSelect, Jump;
      var jmp := CompileOver(jf, st, r, c, a.v, ch);
      if rc != OK { return; }
      KeywordNext(ts, pos, "ELSE");
      pos := pos + 1;
      NewlineNext();
      if ts[pos].kind == Eoc { pos := pos + 1; }
      CompileSecond(jmp, st, r, c, a.v, x, ch);
    }

    /** The jump over the second branch, which is returned; the guard's jump now leads behind it. */
    method CompileOver(jf: int, ghost st: State, ghost r: Got<Stmt>, ghost c: Expr, ghost a: Stmt, ghost ch: Chart) returns (jmp: int)
      requires Open() && Mapped() && |loops| == |st.fs| && Noted() && LastDepth(lmap) >= |loops|
      requires DepthOk(a, |loops|) && Traced(ch, Now(), Rep(|CodeE(c, st.t)| + 3, |loops|) + DeepS(a, TabE(c, st.t), |loops|), |loops|)
      requires jf == |st.code| + |CodeE(c, st.t)|
      requires Cur() == CompilerState.After(st, IfFront(c, st.t, 0) + CellsS(a, TabE(c, st.t), |loops|), TabS(a, TabE(c, st.t), |loops|))
      requires r.Got? ==> r.v.If? && r.v.hasElse && r.v.c == c && r.v.t == a && DepthOk(r.v, |loops|)
      modifies this`code, this`rc, this`deep
      ensures Mapped() && |code| >= |old(code)|
      ensures rc != OK ==> InnerDone(rc, r, |loops|, st, pos, Cur())
      ensures rc == OK ==> Open() && Noted()
      ensures rc == OK ==>
        Traced(ch, Now(), Rep(|CodeE(c, st.t)| + 3, |loops|) + DeepS(a, TabE(c, st.t), |loops|) + Rep(3, |loops|), |loops|)
      ensures rc == OK ==> jmp == |st.code| + |CodeE(c, st.t)| + 3 + |CellsS(a, TabE(c, st.t), |loops|)|
      ensures rc == OK ==>
        var cs := CellsS(a, TabE(c, st.t), |loops|);
        Cur() == CompilerState.After(st, IfFront(c, st.t, |cs| + 3) + cs + Jump(OP_JMP, 0), TabS(a, TabE(c, st.t), |loops|))
    {
      hide JumpsS, DepthOk, KnownOf, AddHoles, Jump, TabsFit, CodeE, TabE, TabS, CellsS, CompilerState.After, Charted,
           Traced, InnerDone, IfFront, PatchAt, Paired, Few, Word;
      ghost var d, t1 := |loops|, TabE(c, st.t);
      ghost var t2, cs := TabS(a, t1, d), CellsS(a, t1, d);
      ghost var st1 := Cur();
      FrontIsGood(c, st.t, 0);
      CellsPaired(a, t1, d);
      FewS(a, t1, d);
      PairedJoin(IfFront(c, st.t, 0), cs);
      AfterLength(st, IfFront(c, st.t, 0) + cs, t2);
      TabsOfAfter(st, IfFront(c, st.t, 0) + cs, t2);
      ghost var ch1 := Now();
      jmp := EmitJump(OP_JMP);
      MarksGrow(|st1.code|);
      if jmp < 0 {
        OverStopped(r, c, cs, t2, d, st, pos, Cur());
        return;
      }
      Note(ch1, d);
      TracedThen(ch, ch1, Now(), Rep(|CodeE(c, st.t)| + 3, d) + DeepS(a, t1, d), Rep(3, d), d);
      AfterJoin(st, IfFront(c, st.t, 0) + cs, t2, Jump(OP_JMP, 0), t2);
      GuardLeadsOver(jf, st, c, cs, t2, JumpsS(a));
    }

    /** Pointing the guard's jump behind the jump over the second branch. */
    method GuardLeadsOver(jf: int, ghost st: State, ghost c: Expr, ghost cs: seq<Code>, ghost t2: Tabs, ghost jumps: nat)
      requires Open() && jf == |st.code| + |CodeE(c, st.t)| && Paired(cs) && Few(cs, jumps)
      requires Cur() == CompilerState.After(st, IfFront(c, st.t, 0) + cs + Jump(OP_JMP, 0), t2)
      modifies this`code
      ensures Open() && |code| == |old(code)| && jf + 2 < |code|
      ensures Cur() == CompilerState.After(st, IfFront(c, st.t, |cs| + 3) + cs + Jump(OP_JMP, 0), t2)
    {
      hide Jump, TabsFit, CodeE, CompilerState.After, IfFront, PatchAt, Paired, Few;
      ghost var was, y := Cur(), cs + Jump(OP_JMP, 0);
      FrontIsGood(c, st.t, 0);
      FrontIsGood(c, st.t, |cs| + 3);
      assert IfFront(c, st.t, 0) + cs + Jump(OP_JMP, 0) == IfFront(c, st.t, 0) + y;
      AfterLength(st, IfFront(c, st.t, 0) + y, t2);
      PatchTo(jf, |code|);
      ElseFrontIsGood(c, cs, jumps, st.t);
      GuardPatched(st, c, y, t2, was, Cur());
      assert IfFront(c, st.t, |y|) + y == IfFront(c, st.t, |cs| + 3) + cs + Jump(OP_JMP, 0);
      Settled(st, IfFront(c, st.t, |cs| + 3) + cs + Jump(OP_JMP, 0), t2, Cur());
    }

    /** The second branch, and the end of the IF. */
    method CompileSecond(jmp: int, ghost st: State, ghost r: Got<Stmt>, ghost c: Expr, ghost a: Stmt, ghost x: Ctl, ghost ch: Chart)
      requires Open() && Mapped() && x == Here() && |loops| == |st.fs| && DepthOk(a, |loops|) && Noted()
      requires Traced(ch, Now(), Rep(|CodeE(c, st.t)| + 3, |loops|) + DeepS(a, TabE(c, st.t), |loops|) + Rep(3, |loops|), |loops|)
      requires jmp == |st.code| + |CodeE(c, st.t)| + 3 + |CellsS(a, TabE(c, st.t), |loops|)|
      requires var cs := CellsS(a, TabE(c, st.t), |loops|);
               Cur() == CompilerState.After(st, IfFront(c, st.t, |cs| + 3) + cs + Jump(OP_JMP, 0), TabS(a, TabE(c, st.t), |loops|))
      requires r.Got? ==> DepthOk(r.v, |loops|)
      requires var f := ParseStmt(ts, pos, x);
               if f.Got? then r == Got(If(c, a, true, f.v), ConsumeEoc(ts, f.next)) else r == Failed(f.beyond)
      modifies this
      ensures Mapped() && |code| >= |old(code)|
      ensures ifDepth == old(ifDepth) && (rc == OK ==> Open() && Here() == old(Here()))
      ensures InnerDone(rc, r, |st.fs|, st, pos, Cur())
      ensures TracedInner(rc, r, st.t, |st.fs|, ch, Now())
      decreases |ts| - pos, 11, 0
    {
      hide JumpsS, DepthOk, KnownOf, AddHoles, Jump, IsEoc, TabsFit, FullExpr, CodeE, TabE, TabS, CellsS,
           CompilerState.After, Charted, Traced, InnerDone, StmtDone, IfFront, ParseStmt, InnerLoop, InnerSelect,
           PatchAt, Paired, Few, Compiled;
      ghost var d, t1, st2 := |loops|, TabE(c, st.t), Cur();
      ghost var t2, cs := TabS(a, t1, d), CellsS(a, t1, d);
      ghost var front := IfFront(c, st.t, |cs| + 3) + cs + Jump(OP_JMP, 0);
      FrontIsGood(c, st.t, |cs| + 3);
      CellsPaired(a, t1, d);
      FewS(a, t1, d);
      ElseFrontIsGood(c, cs, JumpsS(a), st.t);
      TabsOfAfter(st, front, t2);
      ghost var f, ch1 := ParseStmt(ts, pos, x), Now();
      CompileStmt();
      if rc != OK {
        ElseStopped(rc, r, c, a, f, d, st, pos, Cur());
        return;
      }
      StmtCells(f, d, st2);
      StmtIsTraced(f, t2, d, ch1);
      ElseTraced(c, a, f.v, st.t, d, ch, ch1, Now());
      ghost var b := CellsS(f.v, t2, d);
      AfterJoin(st, front, t2, b, TabS(f.v, t2, d));
      CompilePastEoc();
      ghost var was := Cur();
      AfterLength(st, front + b, TabS(f.v, t2, d));
      PatchTo(jmp, |code|);
      OverPatched(st, IfFront(c, st.t, |cs| + 3) + cs, b, TabS(f.v, t2, d), was, Cur());
      Settled(st, IfFront(c, st.t, |cs| + 3) + cs + Jump(OP_JMP, |b|) + b, TabS(f.v, t2, d), Cur());
      IfDone(r, d, st, pos, Cur());
      TracedNext(OK, r.v, r.next, 0, st.t, d, ch, Now());
    }

    // ---- Statements --------------------------------------------------------------------------

    method CompileStmt()
      requires Open() && Mapped() && Noted()
      modifies this
      ensures Mapped() && |code| >= |old(code)|
      ensures ifDepth == old(ifDepth) && (rc == OK ==> Open() && Here() == old(Here()))
      ensures StmtDone(rc, ParseStmt(ts, old(pos), old(Here())), |old(loops)|, old(Cur()), pos, Cur())
      ensures TracedS(rc, ParseStmt(ts, old(pos), old(Here())), old(Tables()), |old(loops)|, old(Now()), Now())
      decreases |ts| - pos, 10, 0
    {
      hide TabsFit, CompilerState.After, Charted, Traced, InnerDone, StmtDone, ParseStmt, InnerLoop, InnerSelect, EndsClause;
      ghost var st, i, x, d, ch := Cur(), pos, Here(), |loops|, Now();
      if EndsClause(ts, pos) {
        NullDone(st, x);
        TracedNone(ch, d);
        return;
      }
      MarkClause();
      ghost var ch1 := Now();
      EmitByte(OP_NEWCLAUSE);
      MarksGrow(|st.code|);
      if rc != OK {
        NoRoom(i, x, d, st);
        return;
      }
      MarkState(st);
      Note(ch1, d);
      ghost var ch2 := Now();
      CompileInner();
      InnerKind(i, x);
      Marked(rc, ParseStmt(ts, i, x), d, st, pos, Cur());
      StmtTraced(rc, ParseStmt(ts, i, x), st.t, d, ch, ch1, ch2, Now());
    }

    lemma NullDone(st: State, x: Ctl)
      requires Valid() && rc == OK && EndsClause(ts, pos) && st == Cur()
      ensures ParseStmt(ts, pos, x) == Got(Null, pos)
      ensures StmtDone(rc, ParseStmt(ts, pos, x), |loops|, st, pos, Cur())
    {
      hide EndsClause;
      AfterNothing(st);
    }

    /** The clause mark does not fit. */
    lemma NoRoom(i: nat, x: Ctl, d: nat, st: State)
      requires i < |ts| && !EndsClause(ts, i) && d == x.loops && |st.code| + 1 > MAX_CODE && rc == CAPACITY
      ensures StmtDone(rc, ParseStmt(ts, i, x), d, st, pos, Cur())
    {
      hide EndsClause, ParseStmt, InnerS, TabS, TabsFit, MostJumps;
      var r := ParseStmt(ts, i, x);
      InnerKind(i, x);
      if r.Got? { Programs.StmtIsGood(ts, i, x); }
    }

    lemma InnerKind(i: nat, x: Ctl)
      requires i < |ts| && !EndsClause(ts, i)
      ensures var r := ParseStmt(ts, i, x); r.Got? ==> !r.v.Null? && !r.v.Label?
    {
      hide EndsClause, FullExpr, ParseWhens, ParseHeader, ParseBlock, SkipToEnd, Level0;
    }

    lemma MarkState(st: State)
      requires Valid() && code == st.code + [OP_NEWCLAUSE] && Tables() == st.t && loops == st.fs
      ensures Cur() == CompilerState.After(st, [B(OP_NEWCLAUSE)], st.t)
    {
      assert Bytes([OP_NEWCLAUSE]) == [B(OP_NEWCLAUSE)];
      AfterBytes(st, [OP_NEWCLAUSE], st.t);
    }

    /** The statement at a clause mark that has just been written. */
    method CompileInner()
      requires Open() && Mapped() && !EndsClause(ts, pos) && |code| >= 1 && MarkedBefore() && Noted() && LastDepth(lmap) >= |loops|
      modifies this
      ensures Mapped() && |code| >= |old(code)|
      ensures ifDepth == old(ifDepth) && (rc == OK ==> Open() && Here() == old(Here()))
      ensures InnerDone(rc, ParseStmt(ts, old(pos), old(Here())), |old(loops)|, old(Cur()), pos, Cur())
      ensures TracedInner(rc, ParseStmt(ts, old(pos), old(Here())), old(Tables()), |old(loops)|, old(Now()), Now())
      decreases |ts| - pos, 9, 9
    {
      hide TabsFit, CompilerState.After, InnerDone, InnerLoop, InnerSelect, EndsClause, Charted, Traced, ParseStmt,
           ParseNested, ParseTransfer, ParsePlain, IsKeyword;
      NotEnd();
      ByKeyword(pos, Here());
      if IsKeyword(ts, pos, "IF") || IsKeyword(ts, pos, "SELECT") || IsKeyword(ts, pos, "DO") {
        CompileNested();
      } else {
        ghost var ch, st, i := Now(), Cur(), pos;
        ghost var r := ParseStmt(ts, i, Here());
        if IsKeyword(ts, pos, "ITERATE") || IsKeyword(ts, pos, "LEAVE") {
          NotNested(ParseTransfer(pos, Here()), true, pos, Here());
          CompileTransfer();
        } else {
          NotNested(ParsePlain(pos), false, pos, Here());
          CompilePlain();
          MarksGrow(|st.code|);
        }
        NotePlain(r, st, ch);
      }
    }

    /** The last mark is behind. */
    ghost predicate MarkedBefore()
      reads this
    {
      |lmap| >= 1 && lmap[|lmap| - 1].pc < |code|
    }

    lemma NotNested(r: Got<Stmt>, transfer: bool, i: nat, x: Ctl)
      requires i + 1 < |ts| && (IsAssign(ts, i) ==> i + 2 < |ts|) && r == if transfer then ParseTransfer(i, x) else ParsePlain(i)
      ensures r.Got? ==> !r.v.If? && !r.v.Select? && !r.v.Do?
    {
      hide FullExpr, Level0, ParseCallArgs, EndsClause, IsAssign, Unmodelled, Named, IsKeyword;
    }

    /** The code of a statement that holds no other lies as deep as the statement. */
    ghost method NotePlain(r: Got<Stmt>, st: State, ch: Chart)
      requires InnerDone(rc, r, |st.fs|, st, pos, Cur()) && (r.Got? ==> !r.v.If? && !r.v.Select? && !r.v.Do?)
      requires ch == Chart(lmap, |st.code|, deep) && |deep| == |st.code| <= |code|
      requires Charted(lmap, |st.code|, deep) && Charted(lmap, |code|, deep) && LastDepth(lmap) >= |st.fs|
      modifies this`deep
      ensures Charted(lmap, |code|, deep) && TracedInner(rc, r, st.t, |st.fs|, ch, Now())
    {
      hide Charted, Traced, CompilerState.After, TabsFit, MostJumps, InnerS, TabS;
      if rc == OK {
        Settled(st, InnerS(r.v, st.t, |st.fs|), TabS(r.v, st.t, |st.fs|), Cur());
        Note(ch, |st.fs|);
        PlainTraced(r.v, st.t, |st.fs|, ch, Now());
        TracedNext(OK, r.v, r.next, 0, st.t, |st.fs|, ch, Now());
      }
    }

    /** ParseStmt by the kind of statement. */
    ghost function ParseNested(i: nat, x: Ctl): Got<Stmt>
      requires i + 1 < |ts| && (IsKeyword(ts, i, "IF") || IsKeyword(ts, i, "SELECT") || IsKeyword(ts, i, "DO"))
    {
      if Full(x) then ParseRefused(ts, i)
      else if IsKeyword(ts, i, "IF") then ParseIf(ts, i + 1, x.(ifs := x.ifs + 1))
      else if IsKeyword(ts, i, "SELECT") then ParseSelect(ts, i + 1, x)
      else ParseDo(ts, i + 1, x)
    }

    ghost function ParseTransfer(i: nat, x: Ctl): Got<Stmt>
      requires i + 1 < |ts|
    {
      if IsKeyword(ts, i, "ITERATE") then ParseIterate(ts, i, x) else ParseLeave(ts, i, x)
    }

    ghost function ParsePlain(i: nat): Got<Stmt>
      requires i + 1 < |ts| && (IsAssign(ts, i) ==> i + 2 < |ts|)
    {
      if IsKeyword(ts, i, "EXIT") then ParseExit(ts, i + 1)
      else if IsKeyword(ts, i, "SAY") then ParseSay(ts, i + 1)
      else if IsKeyword(ts, i, "NOP") then Got(Nop, i + 1)
      else if IsKeyword(ts, i, "CALL") then ParseCallTo(ts, i + 1)
      else if IsKeyword(ts, i, "RETURN") then ParseReturn(ts, i + 1)
      else if Unmodelled(ts, i) then Failed(true)
      else if ts[i].kind == Symbol && !ts[i].constant && IsAssign(ts, i) then
        if ts[i].compound then Failed(true) else ParseAssign(ts, i + 2, ts[i].upper)
      else Failed(false)
    }

    lemma ByKeyword(i: nat, x: Ctl)
      requires i + 1 < |ts| && !EndsClause(ts, i) && (IsAssign(ts, i) ==> i + 2 < |ts|)
      ensures ParseStmt(ts, i, x) ==
                if IsKeyword(ts, i, "IF") || IsKeyword(ts, i, "SELECT") || IsKeyword(ts, i, "DO") then ParseNested(i, x)
                else if IsKeyword(ts, i, "ITERATE") || IsKeyword(ts, i, "LEAVE") then ParseTransfer(i, x)
                else ParsePlain(i)
    {
      hide EndsClause, ParseExit, ParseSay, ParseAssign, ParseIf, ParseSelect, ParseDo, ParseRefused, ParseLeave, ParseIterate,
           ParseCallTo, ParseReturn, IsAssign, Unmodelled, Full;
    }

    /** IF, SELECT and DO, unless the control stack is full. */
    method CompileNested()
      requires Open() && Mapped() && |code| >= 1 && MarkedBefore() && pos + 1 < |ts| && Noted() && LastDepth(lmap) >= |loops|
      requires IsKeyword(ts, pos, "IF") || IsKeyword(ts, pos, "SELECT") || IsKeyword(ts, pos, "DO")
      modifies this
      ensures Mapped() && |code| >= |old(code)|
      ensures ifDepth == old(ifDepth) && (rc == OK ==> Open() && Here() == old(Here()))
      ensures InnerDone(rc, ParseNested(old(pos), old(Here())), |old(loops)|, old(Cur()), pos, Cur())
      ensures TracedInner(rc, ParseNested(old(pos), old(Here())), old(Tables()), |old(loops)|, old(Now()), Now())
      decreases |ts| - pos, 9, 8
    {
      hide TabsFit, CompilerState.After, InnerDone, InnerLoop, InnerSelect, ParseIf, ParseSelect, ParseDo,
           ParseRefused, Charted, Traced;
      if |loops| + ifDepth >= CTL_MAX {
        ghost var ch, st, r := Now(), Cur(), ParseNested(pos, Here());
        RefusedKind(pos);
        CompileRefused();
        MarksGrow(|st.code|);
        NotePlain(r, st, ch);
      } else if IsKeyword(ts, pos, "IF") {
        ifDepth := ifDepth + 1;
        CompileIf();
        ifDepth := ifDepth - 1;
      } else if IsKeyword(ts, pos, "SELECT") {
        CompileSelect();
      } else {
        CompileDo();
      }
    }

    lemma RefusedKind(i: nat)
      requires i < |ts| && !IsKeyword(ts, i, "END")
      ensures ParseRefused(ts, i).Got? ==> ParseRefused(ts, i).v.Refused?
    {
    }

    method CompileTransfer()
      requires Open() && Mapped() && (IsKeyword(ts, pos, "ITERATE") || IsKeyword(ts, pos, "LEAVE")) && pos + 1 < |ts|
      modifies this`pos, this`code, this`rc, this`loops
      ensures Mapped() && |code| >= |old(code)|
      ensures rc == OK ==> Open() && Here() == old(Here())
      ensures InnerDone(rc, ParseTransfer(old(pos), old(Here())), |old(loops)|, old(Cur()), pos, Cur())
    {
      hide TabsFit, CompilerState.After, InnerDone, InnerLoop, InnerSelect, ParseLeave, ParseIterate, Charted, Traced;
      ghost var st := Cur();
      if IsKeyword(ts, pos, "ITERATE") { CompileIterate(); } else { CompileLeave(); }
      MarksGrow(|st.code|);
      KindsKept(ParseTransfer(old(pos), old(Here())), st);
    }

    /** The statements that open no block and leave none. */
    method CompilePlain()
      requires Open() && pos + 1 < |ts| && (IsAssign(ts, pos) ==> pos + 2 < |ts|)
      modifies this`pos, this`code, this`consts, this`syms, this`rc, this`exprDepth
      ensures Valid() && |code| >= |old(code)| && (rc == OK ==> Open())
      ensures InnerDone(rc, ParsePlain(old(pos)), |loops|, old(Cur()), pos, Cur())
    {
      hide TabsFit, InnerDone, ParseExit, ParseSay, ParseAssign, ParseCallTo, ParseReturn, IsAssign, Unmodelled;
      ghost var st := Cur();
      if IsKeyword(ts, pos, "EXIT") {
        CompileExit();
      } else if IsKeyword(ts, pos, "SAY") {
        CompileSay();
      } else if IsKeyword(ts, pos, "NOP") {
        pos := pos + 1;
        NopDone(st);
      } else if IsKeyword(ts, pos, "CALL") {
        CompileCallTo();
      } else if IsKeyword(ts, pos, "RETURN") {
        CompileReturn();
      } else if Unmodelled(ts, pos) {
        rc := BEYOND;
        Unparsed(Failed(true), |loops|, st);
      } else if ts[pos].kind == Symbol && !ts[pos].constant && IsAssign(ts, pos) {
        if ts[pos].compound {
          rc := BEYOND;
          Unparsed(Failed(true), |loops|, st);
        } else {
          CompileAssign();
        }
      } else {
        rc := UNSUP;
        Unparsed(Failed(false), |loops|, st);
      }
    }

    lemma NotEnd()
      requires Valid() && !EndsClause(ts, pos)
      ensures ts[pos].kind != Eof && pos + 1 < |ts| && (IsAssign(ts, pos) ==> pos + 2 < |ts|)
    {
    }

    lemma NopDone(st: State)
      requires rc == OK && Cur() == st
      ensures InnerDone(rc, Got(Nop, pos), |loops|, st, pos, Cur())
    {
      AfterNothing(st);
    }

    lemma KindsKept(r: Got<Stmt>, st: State)
      requires InnerDone(rc, r, |st.fs|, st, pos, Cur())
      ensures rc == OK ==> forall ifs :: CtlOf(loops, ifs) == CtlOf(st.fs, ifs)
    {
      hide CompilerState.After, InnerLoop, InnerSelect, TabsFit, MostJumps;
      if rc == OK { Settled(st, InnerS(r.v, st.t, |st.fs|), TabS(r.v, st.t, |st.fs|), Cur()); }
    }

    /** bc_stmts_until END. */
    method CompileBlock()
      requires Open() && Mapped() && Noted()
      modifies this
      ensures Mapped() && |code| >= |old(code)|
      ensures ifDepth == old(ifDepth) && (rc == OK ==> Open() && Here() == old(Here()))
      ensures BlockDone(rc, ParseBlock(ts, old(pos), old(Here())), |old(loops)|, old(Cur()), pos, Cur())
      ensures TracedBlock(rc, ParseBlock(ts, old(pos), old(Here())), old(Tables()), |old(loops)|, old(Now()), Now())
      decreases |ts| - pos, 20, 0
    {
      hide TabsFit, CompilerState.After, Charted, Traced, StmtDone, BlockDone, ParseStmt, ParseBlock, InnerLoop,
           InnerSelect, CellsB, TabB, DepthOkB, EndsClause, IsEoc;
      ghost var st, i, x, d, ch := Cur(), pos, Here(), |loops|, Now();
      ghost var p: seq<Stmt> := [];
      EmptyList(st, d);
      TracedNone(ch, d);
      assert DeepB(Onto(p, Done), st.t, d) == [];
      while true
        invariant Open() && Mapped() && pos >= i && ifDepth == old(ifDepth) && Here() == x && |code| >= |st.code|
        invariant Noted() && (DepthOkB(Onto(p, Done), d) ==> Traced(ch, Now(), DeepB(Onto(p, Done), st.t, d), d))
        invariant DepthOkB(Onto(p, Done), d) && ParseBlock(ts, i, x) == GotOnto(p, ParseBlock(ts, pos, x))
        invariant Cur() == CompilerState.After(st, CellsB(Onto(p, Done), st.t, d), TabB(Onto(p, Done), st.t, d))
        invariant p != [] ==> pos > i
        decreases |ts| - pos
      {
        ghost var j := pos;
        CompileSkipEoc();
        BlockSkips(j, x);
        if ts[pos].kind == Eof || IsKeyword(ts, pos, "END") {
          BlockEnded(i, x, p, d, st);
          BlockIsTraced(ParseBlock(ts, i, x), Onto(p, Done), st, d, ch);
          return;
        }
        ghost var k, ch1 := pos, Now();
        ghost var s := ParseStmt(ts, k, x);
        BlockSteps(k, x, p);
        ghost var st1 := Cur();
        TabsOfAfter(st, CellsB(Onto(p, Done), st.t, d), TabB(Onto(p, Done), st.t, d));
        CompileStmt();
        if rc != OK {
          ghost var rest := if s.Got? then ParseBlock(ts, ConsumeEoc(ts, s.next), x) else Failed(false);
          GoodBlock(i, x);
          BlockStopped(rc, p, s, rest, ParseBlock(ts, i, x), d, st, pos, Cur());
          return;
        }
        OneMore(p, s, d, st, pos, Cur());
        MoreTraced(p, s, st.t, d, ch, ch1);
        CompilePastEoc();
        p := p + [s.v];
      }
    }

    lemma BlockIsTraced(r: Got<Block>, b: Block, st: State, d: nat, ch: Chart)
      requires r.Got? && r.v == b && DepthOkB(b, d) && Traced(ch, Now(), DeepB(b, st.t, d), d)
      ensures TracedBlock(rc, r, st.t, d, ch, Now())
    {
      hide Traced, DeepB;
    }

    /** The list so far and one statement more. */
    lemma MoreTraced(p: seq<Stmt>, s: Got<Stmt>, t: Tabs, d: nat, ch: Chart, ch1: Chart)
      requires rc == OK && s.Got? && DepthOkB(Onto(p, Done), d) && DepthOkB(Onto(p + [s.v], Done), d)
      requires Traced(ch, ch1, DeepB(Onto(p, Done), t, d), d) && TracedS(rc, s, TabB(Onto(p, Done), t, d), d, ch1, Now())
      ensures Noted() && Traced(ch, Now(), DeepB(Onto(p + [s.v], Done), t, d), d)
    {
      hide DeepB, DeepS, TabB, Charted;
      LastOk(p, s.v, d);
      DeepOnto(p, s.v, t, d);
      TracedThen(ch, ch1, Now(), DeepB(Onto(p, Done), t, d), DeepS(s.v, TabB(Onto(p, Done), t, d), d), d);
    }

    static lemma LastOk(p: seq<Stmt>, s: Stmt, d: nat)
      requires DepthOkB(Onto(p + [s], Done), d)
      ensures DepthOk(s, d)
      decreases p
    {
      hide DepthOk;
      if p == [] {
        assert [] + [s] == [s];
      } else {
        assert (p + [s])[1..] == p[1..] + [s];
        LastOk(p[1..], s, d);
      }
    }

    method CompileSkipEoc()
      requires Valid()
      modifies this`pos
      ensures Valid() && pos == SkipEoc(ts, old(pos))
    {
      while IsEoc(ts, pos)
        invariant Valid() && SkipEoc(ts, pos) == SkipEoc(ts, old(pos))
        decreases |ts| - pos
      {
        pos := pos + 1;
      }
    }

    static lemma EmptyList(st: State, d: nat)
      ensures DepthOkB(Onto([], Done), d)
      ensures st == CompilerState.After(st, CellsB(Onto([], Done), st.t, d), TabB(Onto([], Done), st.t, d))
    {
      AfterNothing(st);
    }

    lemma BlockSkips(j: nat, x: Ctl)
      requires j < |ts| && pos == SkipEoc(ts, j)
      ensures ParseBlock(ts, j, x) == ParseBlock(ts, pos, x) && SkipEoc(ts, pos) == pos && !IsEoc(ts, pos)
    {
      hide ParseStmt;
    }

    /** A block goes on with the statement at k. */
    lemma BlockSteps(k: nat, x: Ctl, p: seq<Stmt>)
      requires k < |ts| && SkipEoc(ts, k) == k && ts[k].kind != Eof && !IsKeyword(ts, k, "END") && !IsEoc(ts, k)
      ensures var s := ParseStmt(ts, k, x);
              !EndsClause(ts, k) && (s.Got? ==> k < s.next)
              && (!s.Got? ==> ParseBlock(ts, k, x) == Failed(s.beyond))
              && (s.Got? ==>
                  var rest := ParseBlock(ts, ConsumeEoc(ts, s.next), x);
                  ParseBlock(ts, k, x) == (if rest.Got? then Got(Step(s.v, rest.v), rest.next) else Failed(rest.beyond))
                  && GotOnto(p, ParseBlock(ts, k, x)) == GotOnto(p + [s.v], rest))
    {
      hide ParseStmt;
      var s := ParseStmt(ts, k, x);
      if s.Got? {
        var rest := ParseBlock(ts, ConsumeEoc(ts, s.next), x);
        if rest.Got? { OntoSnoc(p, s.v, rest.v); }
      }
    }

    lemma GoodBlock(i: nat, x: Ctl)
      requires i < |ts|
      ensures ParseBlock(ts, i, x).Got? ==> DepthOkB(ParseBlock(ts, i, x).v, x.loops)
    {
      hide ParseBlock;
      if ParseBlock(ts, i, x).Got? { Programs.BlockIsGood(ts, i, x); }
    }

    lemma BlockEnded(i: nat, x: Ctl, p: seq<Stmt>, d: nat, st: State)
      requires i < |ts| && pos < |ts| && rc == OK && SkipEoc(ts, pos) == pos && DepthOkB(Onto(p, Done), d)
      requires ts[pos].kind == Eof || IsKeyword(ts, pos, "END")
      requires ParseBlock(ts, i, x) == GotOnto(p, ParseBlock(ts, pos, x))
      requires Cur() == CompilerState.After(st, CellsB(Onto(p, Done), st.t, d), TabB(Onto(p, Done), st.t, d))
      ensures ParseBlock(ts, i, x) == Got(Onto(p, Done), pos)
      ensures BlockDone(rc, ParseBlock(ts, i, x), d, st, pos, Cur())
    {
      hide ParseStmt, CompilerState.After, CellsB, TabB, DepthOkB, TabsFit, MostJumps;
      assert ParseBlock(ts, pos, x) == Got(Done, pos);
    }

    // ---- SELECT ------------------------------------------------------------------------------

    method CompileWhen()
      requires Open() && Mapped() && Noted() && IsKeyword(ts, pos, "WHEN") && 0 <= InnerSelect(loops) == |loops| - 1
      modifies this
      ensures Mapped() && |code| >= |old(code)|
      ensures ifDepth == old(ifDepth) && (rc == OK ==> Open() && Here() == old(Here()) && InnerSelect(loops) == |loops| - 1)
      ensures WhenDone(rc, ParseWhen(ts, old(pos), old(Here())), |old(loops)|, old(Cur()), pos, Cur())
      ensures TracedWhen(rc, ParseWhen(ts, old(pos), old(Here())), old(Tables()), |old(loops)|, old(Now()), Now())
      decreases |ts| - pos, 9, 0
    {
      hide JumpsS, DepthOk, KnownOf, AddHoles, Jump, IsEoc, IsKeyword, TabsFit, FullExpr, CodeE, TabE, TabS,
           CellsS, CompilerState.After, Charted, Traced, WhenDone, StmtDone, IfFront, ParseStmt, ParseWhen,
           InnerLoop, InnerSelect, PatchAt, Paired, Few, Compiled;
      ghost var st, i, x, d := Cur(), pos, Here(), |loops|;
      KeywordNext(ts, pos, "WHEN");
      ghost var r, ch := ParseWhen(ts, i, x), Now();
      MarkClause();
      ghost var ch1 := Now();
      pos := pos + 1;
      var jf; ghost var g;
      jf, g := CompileGuard();
      WhenParsed(i, x, g);
      if rc != OK {
        if rc == CAPACITY || rc == STRTOOLONG { WhenTooMuch(rc, r, g, d, st, pos, Cur()); } else { UnparsedWhen(r, d, st); }
        return;
      }
      CompileWhenBody(jf, st, r, g.v, ch, ch1);
    }

    /** What the tokens behind THEN amount to. */
    ghost predicate WhenBehind(r: Got<(Expr, Stmt)>, c: Expr, a: Got<Stmt>)
      requires a.Got? ==> a.next < |ts|
    {
      if a.Got? then r == Got((c, a.v), ConsumeEoc(ts, a.next)) else r == Failed(a.beyond)
    }

    method CompileWhenBody(jf: int, ghost st: State, ghost r: Got<(Expr, Stmt)>, ghost c: Expr, ghost ch: Chart, ghost ch1: Chart)
      requires Open() && Mapped() && |loops| == |st.fs| && 0 <= InnerSelect(loops) == |loops| - 1
      requires jf == |st.code| + |CodeE(c, st.t)| && Cur() == CompilerState.After(st, IfFront(c, st.t, 0), TabE(c, st.t))
      requires CtlOf(st.fs, ifDepth) == Here() && InnerSelect(st.fs) == |st.fs| - 1
      requires WhenBehind(r, c, ParseStmt(ts, pos, Here())) && (r.Got? ==> DepthOk(r.v.1, |loops|))
      requires ch1 == Chart(lmap, |st.code|, deep) && Traced(ch, ch1, [], |loops|) && |deep| == |st.code| && LastDepth(lmap) >= |loops|
      requires Charted(lmap, |st.code|, deep)
      modifies this
      ensures Mapped() && |code| >= |old(code)|
      ensures ifDepth == old(ifDepth) && (rc == OK ==> Open() && Here() == old(Here()) && InnerSelect(loops) == |loops| - 1)
      ensures WhenDone(rc, r, |st.fs|, st, pos, Cur())
      ensures TracedWhen(rc, r, st.t, |st.fs|, ch, Now())
      decreases |ts| - pos, 11, 0
    {
      hide JumpsS, DepthOk, KnownOf, AddHoles, Jump, IsEoc, IsKeyword, TabsFit, CodeE, TabE, TabS, CellsS, CompilerState.After,
           Charted, Traced, WhenDone, StmtDone, IfFront, ParseStmt, InnerLoop, InnerSelect, PatchAt, Paired, Few, Compiled, DeepS,
           DeepWhen, TracedWhen, TracedS;
      ghost var d, t1, st1 := |loops|, TabE(c, st.t), Cur();
      FrontIsGood(c, st.t, 0);
      Settled(st, IfFront(c, st.t, 0), t1, st1);
      FrontLengths(c, st.t, 0);
      Note(ch1, d);
      ghost var a, ch2 := ParseStmt(ts, pos, Here()), Now();
      CompileStmt();
      if rc != OK {
        WhenStopped(rc, r, c, a, d, st, pos, Cur());
        WhenNotTraced(r, st.t, d, ch);
        return;
      }
      StmtCells(a, d, st1);
      StmtIsTraced(a, t1, d, ch2);
      ghost var ch3 := Now();
      ghost var t2, cs := TabS(a.v, t1, d), CellsS(a.v, t1, d);
      AfterJoin(st, IfFront(c, st.t, 0), t1, cs, t2);
      CompilePastEoc();
      CompileWhenEnd(jf, st, r, c, a.v);
      if rc == OK {
        Note(ch3, d);
        WhenTraced(r.v, st.t, d, ch, ch1, ch2, ch3, Now());
      }
      WhenIsTraced(r, st.t, d, ch);
    }

    lemma WhenNotTraced(r: Got<(Expr, Stmt)>, t: Tabs, d: nat, ch: Chart)
      requires rc != OK
      ensures TracedWhen(rc, r, t, d, ch, Now())
    {
    }

    lemma WhenIsTraced(r: Got<(Expr, Stmt)>, t: Tabs, d: nat, ch: Chart)
      requires rc == OK && r.Got? && DepthOk(r.v.1, d) ==> Traced(ch, Now(), DeepWhen(r.v, t, d), d)
      ensures TracedWhen(rc, r, t, d, ch, Now())
    {
      hide Traced, DeepWhen;
    }

    /** Behind the statement of a WHEN: the jump to the end of the SELECT. */
    method CompileWhenEnd(jf: int, ghost st: State, ghost r: Got<(Expr, Stmt)>, ghost c: Expr, ghost s: Stmt)
      requires Open() && Mapped() && DepthOk(s, |st.fs|) && |loops| >= 1
      requires InnerSelect(st.fs) == |st.fs| - 1
      requires jf == |st.code| + |CodeE(c, st.t)| && r == Got((c, s), pos)
      requires Cur() == CompilerState.After(st, IfFront(c, st.t, 0) + CellsS(s, TabE(c, st.t), |st.fs|), WhenTabs((c, s), st.t, |st.fs|))
      modifies this`code, this`rc, this`loops
      ensures Mapped() && |code| >= |old(code)|
      ensures rc == OK ==> Open() && Here() == old(Here()) && InnerSelect(loops) == |loops| - 1 && |code| == |old(code)| + 3
      ensures WhenDone(rc, r, |st.fs|, st, pos, Cur())
    {
      hide TabsFit, CodeE, TabE, TabS, CellsS, CompilerState.After, Charted, Traced, WhenDone, IfFront,
           InnerLoop, InnerSelect, PatchAt, Paired, Few, Compiled;
      ghost var d, t2, cs := |st.fs|, WhenTabs((c, s), st.t, |st.fs|), CellsS(s, TabE(c, st.t), |st.fs|);
      ghost var x := IfFront(c, st.t, 0) + cs;
      FrontIsGood(c, st.t, 0);
      CellsPaired(s, TabE(c, st.t), d);
      PairedJoin(IfFront(c, st.t, 0), cs);
      Settled(st, x, t2, Cur());
      EmitHole(OP_JMP, SelectHole, |loops| - 1);
      MarksGrow(|old(code)|);
      if rc != OK {
        WhenEndStopped(rc, r, d, pos, st, pos, Cur());
        return;
      }
      HoleWritten(OP_JMP, SelectHole, t2, old(Cur()));
      AfterJoin(st, x, t2, HoleJump(OP_JMP, SelectHole), t2);
      ghost var y, was := cs + HoleJump(OP_JMP, SelectHole), Cur();
      assert x + HoleJump(OP_JMP, SelectHole) == IfFront(c, st.t, 0) + y;
      AfterLength(st, IfFront(c, st.t, 0) + y, t2);
      FrontIsGood(c, st.t, |y|);
      PatchTo(jf, |code|);
      GuardPatched(st, c, y, t2, was, Cur());
      Settled(st, IfFront(c, st.t, |y|) + y, t2, Cur());
      FrontLengths(c, st.t, 0);
      WhenFinished(r, d, st);
    }

    lemma HoleWritten(op: Byte, k: HoleKind, t: Tabs, st: State)
      requires rc == OK && Compiled(rc, true, false, pos, HoleJump(op, k), t, 1, st, pos, Cur())
      ensures Cur() == CompilerState.After(st, HoleJump(op, k), t)
    {
      hide CompilerState.After;
    }

    lemma WhenFinished(r: Got<(Expr, Stmt)>, d: nat, st: State)
      requires rc == OK && r.Got? && pos == r.next && DepthOk(r.v.1, d)
      requires Cur() == CompilerState.After(st, WhenCells(r.v, st.t, d), WhenTabs(r.v, st.t, d))
      ensures WhenDone(rc, r, d, st, pos, Cur())
    {
      hide CompilerState.After, WhenCells, WhenTabs;
    }

    /** What the tokens of a WHEN amount to, piece by piece. */
    lemma WhenParsed(i: nat, x: Ctl, g: Got<Expr>)
      requires i + 1 < |ts| && g == FullExpr(ts, i + 1)
      ensures var r := ParseWhen(ts, i, x);
              (r.Got? ==> DepthOk(r.v.1, x.loops) && g.Got? && g.v == r.v.0)
              && (!g.Got? ==> r == Failed(g.beyond))
              && (g.Got? && !IsKeyword(ts, g.next, "THEN") ==> r == Failed(false))
              && (g.Got? && IsKeyword(ts, g.next, "THEN") ==>
                  var a := ParseStmt(ts, ConsumeNewline(ts, g.next + 1), x);
                  if a.Got? then r == Got((g.v, a.v), ConsumeEoc(ts, a.next)) else r == Failed(a.beyond))
    {
      hide IsKeyword, FullExpr, ParseStmt, Programs.ClosedS;
      if ParseWhen(ts, i, x).Got? { Programs.StmtIsGood(ts, ConsumeNewline(ts, g.next + 1), x); }
    }

    lemma UnparsedWhen(r: Got<(Expr, Stmt)>, d: nat, st: State)
      requires (rc == UNSUP && r == Failed(false)) || (rc == BEYOND && r == Failed(true))
      ensures WhenDone(rc, r, d, st, pos, Cur())
    {
    }

    /** The WHEN clauses and OTHERWISE of the innermost open block, which is a SELECT. */
    static lemma EmptyDeep(t: Tabs, d: nat)
      ensures OntoW([], NoOtherwise) == NoOtherwise && (forall r: Got<Whens> :: GotOntoW([], r) == r)
      ensures DepthOkW(NoOtherwise, d) && DeepW(NoOtherwise, t, d) == []
    {
    }

    method CompileWhens()
      requires Open() && Mapped() && Noted() && 0 <= InnerSelect(loops) == |loops| - 1
      modifies this
      ensures Mapped() && |code| >= |old(code)|
      ensures ifDepth == old(ifDepth) && (rc == OK ==> Open() && Here() == old(Here()))
      ensures WhensDone(rc, ParseWhens(ts, old(pos), old(Here())), |old(loops)|, old(Cur()), pos, Cur())
      ensures TracedWhens(rc, ParseWhens(ts, old(pos), old(Here())), old(Tables()), |old(loops)|, old(Now()), Now())
      decreases |ts| - pos, 20, 0
    {
      hide IsKeyword, TabsFit, CompilerState.After, Charted, Traced, WhenDone, WhensDone, BlockDone, ParseWhen,
           ParseWhens, ParseBlock, InnerLoop, InnerSelect, CellsW, TabW, DepthOkW, DeepW, OntoW, EndsClause, IsEoc, SkipEoc;
      EmptyDeep(Tables(), |loops|);
      ghost var st, i, x, d, ch := Cur(), pos, Here(), |loops|, Now();
      ghost var p: seq<(Expr, Stmt)> := [];
      EmptyWhens(st, d);
      TracedNone(ch, d);
      while true
        invariant Noted() && (DepthOkW(OntoW(p, NoOtherwise), d) ==> Traced(ch, Now(), DeepW(OntoW(p, NoOtherwise), st.t, d), d))
        invariant Open() && Mapped() && pos >= i && ifDepth == old(ifDepth) && Here() == x && |code| >= |st.code|
        invariant 0 <= InnerSelect(loops) == |loops| - 1
        invariant DepthOkW(OntoW(p, NoOtherwise), d) && ParseWhens(ts, i, x) == GotOntoW(p, ParseWhens(ts, pos, x))
        invariant Cur() == CompilerState.After(st, CellsW(OntoW(p, NoOtherwise), st.t, d), TabW(OntoW(p, NoOtherwise), st.t, d))
        invariant p != [] ==> pos > i
        decreases |ts| - pos
      {
        ghost var j := pos;
        CompileSkipEoc();
        WhensSkip(j, x);
        ghost var k, ch1 := pos, Now();
        TabsOfAfter(st, CellsW(OntoW(p, NoOtherwise), st.t, d), TabW(OntoW(p, NoOtherwise), st.t, d));
        if IsKeyword(ts, pos, "WHEN") {
          KeywordNext(ts, pos, "WHEN");
          ghost var w := ParseWhen(ts, k, x);
          WhensStep(k, x, p);
          CompileWhen();
          if rc != OK {
            ghost var rest := if w.Got? then ParseWhens(ts, w.next, x) else Failed(false);
            GoodWhens(i, x);
            WhensStopped(rc, p, w, rest, ParseWhens(ts, i, x), d, st, pos, Cur());
            return;
          }
          OneMoreWhen(p, w, d, st, pos, Cur());
          MoreWhensTraced(p, w, st.t, d, ch, ch1);
          p := p + [w.v];
        } else if IsKeyword(ts, pos, "OTHERWISE") {
          OtherwiseParsed(k, x);
          CompileOtherwise(p, ParseWhens(ts, i, x), st, ch);
          return;
        } else if IsKeyword(ts, pos, "END") {
          WhensEnded(i, x, p, d, st);
          WhensAreTraced(ParseWhens(ts, i, x), OntoW(p, NoOtherwise), st.t, d, ch);
          return;
        } else {
          rc := UNSUP;
          NotWhens(k, x);
          UnparsedWhens(ParseWhens(ts, i, x), d, st);
          return;
        }
      }
    }

    /** OTHERWISE behind the clauses p. */
    method CompileOtherwise(ghost p: seq<(Expr, Stmt)>, ghost r: Got<Whens>, ghost st: State, ghost ch: Chart)
      requires Open() && Mapped() && Noted() && pos + 1 < |ts| && |loops| == |st.fs|
      requires DepthOkW(OntoW(p, NoOtherwise), |st.fs|)
      requires Cur() == CompilerState.After(st, CellsW(OntoW(p, NoOtherwise), st.t, |st.fs|), TabW(OntoW(p, NoOtherwise), st.t, |st.fs|))
      requires Traced(ch, Now(), DeepW(OntoW(p, NoOtherwise), st.t, |st.fs|), |st.fs|)
      requires var b := ParseBlock(ts, ConsumeEoc(ts, pos + 1), Here());
               r == if b.Got? then Got(OntoW(p, Otherwise(b.v)), b.next) else Failed(b.beyond)
      modifies this
      ensures Mapped() && |code| >= |old(code)|
      ensures ifDepth == old(ifDepth) && (rc == OK ==> Open() && Here() == old(Here()))
      ensures WhensDone(rc, r, |st.fs|, st, pos, Cur())
      ensures TracedWhens(rc, r, st.t, |st.fs|, ch, Now())
      decreases |ts| - pos, 19, 0
    {
      hide TabsFit, CompilerState.After, Charted, Traced, WhensDone, BlockDone, ParseBlock, InnerLoop, InnerSelect, CellsW, TabW,
           DepthOkW, IsEoc, OntoW, DeepW, TracedWhens, TracedBlock;
      ghost var d, ta := |st.fs|, TabW(OntoW(p, NoOtherwise), st.t, |st.fs|);
      TabsOfAfter(st, CellsW(OntoW(p, NoOtherwise), st.t, d), ta);
      pos := pos + 1;
      CompilePastEoc();
      ghost var b, st1, ch1 := ParseBlock(ts, pos, Here()), Cur(), Now();
      CompileBlock();
      OtherwiseDone(rc, p, b, r, d, st, pos, Cur());
      OtherwiseTraced(p, b, r, st.t, d, ch, ch1, st1);
    }

    lemma WhensAreTraced(r: Got<Whens>, ws: Whens, t: Tabs, d: nat, ch: Chart)
      requires r.Got? && r.v == ws && DepthOkW(ws, d) && Traced(ch, Now(), DeepW(ws, t, d), d)
      ensures TracedWhens(rc, r, t, d, ch, Now())
    {
      hide Traced, DeepW;
    }

    lemma MoreWhensTraced(p: seq<(Expr, Stmt)>, w: Got<(Expr, Stmt)>, t: Tabs, d: nat, ch: Chart, ch1: Chart)
      requires rc == OK && w.Got? && DepthOkW(OntoW(p, NoOtherwise), d) && DepthOkW(OntoW(p + [w.v], NoOtherwise), d)
      requires Traced(ch, ch1, DeepW(OntoW(p, NoOtherwise), t, d), d) && TracedWhen(rc, w, TabW(OntoW(p, NoOtherwise), t, d), d, ch1, Now())
      ensures Noted() && Traced(ch, Now(), DeepW(OntoW(p + [w.v], NoOtherwise), t, d), d)
    {
      hide DeepW, DeepWhen, TabW, Charted;
      LastWhenOk(p, w.v, d);
      DeepOntoW(p, w.v, t, d);
      TracedThen(ch, ch1, Now(), DeepW(OntoW(p, NoOtherwise), t, d), DeepWhen(w.v, TabW(OntoW(p, NoOtherwise), t, d), d), d);
    }

    static lemma LastWhenOk(p: seq<(Expr, Stmt)>, w: (Expr, Stmt), d: nat)
      requires DepthOkW(OntoW(p + [w], NoOtherwise), d)
      ensures DepthOk(w.1, d)
      decreases p
    {
      hide DepthOk;
      if p == [] {
        assert [] + [w] == [w];
      } else {
        assert (p + [w])[1..] == p[1..] + [w];
        LastWhenOk(p[1..], w, d);
      }
    }

    lemma OtherwiseTraced(p: seq<(Expr, Stmt)>, b: Got<Block>, r: Got<Whens>, t: Tabs, d: nat, ch: Chart, ch1: Chart, st1: State)
      requires DepthOkW(OntoW(p, NoOtherwise), d) && BlockDone(rc, b, d, st1, pos, Cur())
      requires r == if b.Got? then Got(OntoW(p, Otherwise(b.v)), b.next) else Failed(b.beyond)
      requires Traced(ch, ch1, DeepW(OntoW(p, NoOtherwise), t, d), d) && TracedBlock(rc, b, TabW(OntoW(p, NoOtherwise), t, d), d, ch1, Now())
      ensures TracedWhens(rc, r, t, d, ch, Now())
    {
      hide DeepW, DeepB, TabW, Charted, Traced, TabsFit, MostJumps;
      if rc == OK {
        DeepOtherwise(p, b.v, t, d);
        TracedThen(ch, ch1, Now(), DeepW(OntoW(p, NoOtherwise), t, d), DeepB(b.v, TabW(OntoW(p, NoOtherwise), t, d), d), d);
      }
    }

    static lemma EmptyWhens(st: State, d: nat)
      ensures DepthOkW(OntoW([], NoOtherwise), d)
      ensures st == CompilerState.After(st, CellsW(OntoW([], NoOtherwise), st.t, d), TabW(OntoW([], NoOtherwise), st.t, d))
    {
      AfterNothing(st);
    }

    lemma WhensSkip(j: nat, x: Ctl)
      requires j < |ts| && pos == SkipEoc(ts, j)
      ensures ParseWhens(ts, j, x) == ParseWhens(ts, pos, x) && SkipEoc(ts, pos) == pos
    {
      hide ParseStmt, ParseBlock, FullExpr;
    }

    /** The list goes on with the WHEN at k. */
    lemma WhensStep(k: nat, x: Ctl, p: seq<(Expr, Stmt)>)
      requires k < |ts| && SkipEoc(ts, k) == k && IsKeyword(ts, k, "WHEN")
      ensures k + 1 < |ts|
      ensures var w := ParseWhen(ts, k, x);
              (!w.Got? ==> ParseWhens(ts, k, x) == Failed(w.beyond))
              && (w.Got? ==>
                  var rest := ParseWhens(ts, w.next, x);
                  ParseWhens(ts, k, x) == (if rest.Got? then Got(When(w.v.0, w.v.1, rest.v), rest.next) else Failed(rest.beyond))
                  && GotOntoW(p, ParseWhens(ts, k, x)) == GotOntoW(p + [w.v], rest))
    {
      hide ParseStmt, FullExpr, ParseBlock;
      var w := ParseWhen(ts, k, x);
      if w.Got? {
        var rest := ParseWhens(ts, w.next, x);
        if rest.Got? { OntoWSnoc(p, w.v, rest.v); }
      }
    }

    lemma OtherwiseParsed(k: nat, x: Ctl)
      requires k < |ts| && SkipEoc(ts, k) == k && IsKeyword(ts, k, "OTHERWISE")
      ensures k + 1 < |ts|
      ensures var b := ParseBlock(ts, ConsumeEoc(ts, k + 1), x);
              ParseWhens(ts, k, x) == if b.Got? then Got(Otherwise(b.v), b.next) else Failed(b.beyond)
    {
      hide ParseStmt, FullExpr, ParseBlock;
    }

    lemma NotWhens(k: nat, x: Ctl)
      requires k < |ts| && SkipEoc(ts, k) == k
      requires !IsKeyword(ts, k, "WHEN") && !IsKeyword(ts, k, "OTHERWISE") && !IsKeyword(ts, k, "END")
      ensures ParseWhens(ts, k, x) == Failed(false)
    {
    }

    lemma GoodWhens(i: nat, x: Ctl)
      requires i < |ts|
      ensures ParseWhens(ts, i, x).Got? ==> DepthOkW(ParseWhens(ts, i, x).v, x.loops)
    {
      hide ParseWhens;
      if ParseWhens(ts, i, x).Got? { Programs.WhensAreGood(ts, i, x); }
    }

    lemma UnparsedWhens(r: Got<Whens>, d: nat, st: State)
      requires rc == UNSUP && r == Failed(false)
      ensures WhensDone(rc, r, d, st, pos, Cur())
    {
    }

    lemma WhensEnded(i: nat, x: Ctl, p: seq<(Expr, Stmt)>, d: nat, st: State)
      requires i < |ts| && pos < |ts| && rc == OK && SkipEoc(ts, pos) == pos && DepthOkW(OntoW(p, NoOtherwise), d)
      requires IsKeyword(ts, pos, "END") && ParseWhens(ts, i, x) == GotOntoW(p, ParseWhens(ts, pos, x))
      requires Cur() == CompilerState.After(st, CellsW(OntoW(p, NoOtherwise), st.t, d), TabW(OntoW(p, NoOtherwise), st.t, d))
      ensures ParseWhens(ts, i, x) == Got(OntoW(p, NoOtherwise), pos)
      ensures WhensDone(rc, ParseWhens(ts, i, x), d, st, pos, Cur())
    {
      hide ParseStmt, CompilerState.After, CellsW, TabW, DepthOkW, TabsFit, MostJumps;
      assert ParseWhens(ts, pos, x) == Got(NoOtherwise, pos);
    }

    method CompileSelect()
      requires Open() && Mapped() && Noted() && |loops| + ifDepth < CTL_MAX && ts[pos].kind != Eof && |code| >= 1
      modifies this
      ensures Mapped() && |code| >= |old(code)|
      ensures ifDepth == old(ifDepth) && (rc == OK ==> Open() && Here() == old(Here()))
      ensures InnerDone(rc, ParseSelect(ts, old(pos) + 1, old(Here())), |old(loops)|, old(Cur()), pos, Cur())
      ensures TracedInner(rc, ParseSelect(ts, old(pos) + 1, old(Here())), old(Tables()), |old(loops)|, old(Now()), Now())
      decreases |ts| - pos, 9, 0
    {
      hide TabsFit, CompilerState.After, Charted, Traced, WhensDone, InnerDone, ParseWhens, InnerLoop, InnerSelect,
           ParseSelect, Positions, PatchAll, Fill, KnownOf, AddHoles, IsEoc, CellsW, TabW, DepthOkW,
           SkipEoc, Paired;
      ghost var st, i, x, d := Cur(), pos + 1, Here(), |loops|;
      pos := pos + 1;
      CompilePastEoc();
      CompileSkipEoc();
      SkipTwice(i);
      loops := loops + [Frame(true, false, 0, [], [])];
      InnerPush(st.fs, SelectFrame());
      ghost var w, ch := ParseWhens(ts, pos, Here()), Now();
      SelectParsed(i, x);
      CompileWhens();
      if rc != OK {
        ghost var failed := Cur();
        if |loops| > 0 { loops := loops[..|loops| - 1]; }
        SelectStopped(rc, w, ParseSelect(ts, i, x), d, st, failed, pos, Cur());
        return;
      }
      WhensAre(w, d + 1, Opened(st));
      SelectIsTraced(w, st.t, d, ch);
      WhensPaired(w.v, st.t, d + 1);
      CompileEnd();
      CloseSelect(st, CellsW(w.v, st.t, d + 1), TabW(w.v, st.t, d + 1));
      SelectFinished(w.v, pos, d, st, pos, Cur());
      TracedNext(OK, Select(w.v), pos, 0, st.t, d, ch, Now());
    }

    /** The jumps out of a SELECT now lead behind it, and its frame goes. */
    method CloseSelect(ghost st: State, ghost cs: seq<Code>, ghost t: Tabs)
      requires Open() && Mapped() && |st.code| >= 1 && Paired(cs) && |st.fs| + ifDepth < CTL_MAX
      requires Cur() == CompilerState.After(Opened(st), cs, t)
      modifies this`code, this`loops
      ensures Open() && Mapped() && |code| == |old(code)| && |loops| == |st.fs| && Here() == CtlOf(st.fs, ifDepth)
      ensures Cur() == CompilerState.After(st, Fill(cs, SelectHole, 0, |cs|), t)
    {
      hide TabsFit, CompilerState.After, Charted, Positions, PatchAll, Fill, Paired;
      ghost var d, was := |st.fs|, Cur();
      Settled(Opened(st), cs, t, was);
      forall i | 0 <= i < |loops[d].leaves| ensures 0 <= loops[d].leaves[i] && loops[d].leaves[i] + 2 < |code| {
        SelectJumps(st, cs, t, was, i);
      }
      var end := |code|;
      PatchEach(loops[|loops| - 1].leaves, end);
      MarksGrow(end);
      loops := loops[..|loops| - 1];
      SelectDone(st, cs, t, was, Cur());
      Settled(st, Fill(cs, SelectHole, 0, |cs|), t, Cur());
    }

    lemma SelectIsTraced(w: Got<Whens>, t: Tabs, d: nat, ch: Chart)
      requires rc == OK && d < CTL_MAX && w.Got? && DepthOkW(w.v, d + 1) && TracedWhens(rc, w, t, d + 1, ch, Now())
      ensures TracedInner(OK, Got(Select(w.v), 0), t, d, ch, Now()) && Noted()
    {
      hide Traced, DeepW;
      SelectTraced(w.v, t, d, ch, Now());
      TracedLength(ch, Now(), DeepW(w.v, t, d + 1), d + 1);
    }

    /** END and the name that may follow. */
    method CompileEnd()
      requires Valid()
      modifies this`pos
      ensures Valid() && pos == ConsumeEnd(ts, old(pos))
    {
      if IsKeyword(ts, pos, "END") {
        pos := pos + 1;
        if Tok(ts, pos).kind == Symbol && !EndsClause(ts, pos) { pos := pos + 1; }
      }
    }

    lemma SkipTwice(i: nat)
      requires i < |ts|
      ensures SkipEoc(ts, ConsumeEoc(ts, i)) == SkipEoc(ts, i)
    {
    }

    lemma SelectParsed(i: nat, x: Ctl)
      requires i < |ts|
      ensures var w := ParseWhens(ts, SkipEoc(ts, i), x.(loops := x.loops + 1, inSelect := true));
              ParseSelect(ts, i, x) == if w.Got? then Got(Select(w.v), ConsumeEnd(ts, w.next)) else Failed(w.beyond)
    {
      hide ParseWhens, SkipEoc, ConsumeEnd;
    }

    lemma WhensAre(w: Got<Whens>, d: nat, st: State)
      requires rc == OK && WhensDone(rc, w, d, st, pos, Cur())
      ensures w.Got? && DepthOkW(w.v, d) && pos == w.next && Cur() == CompilerState.After(st, CellsW(w.v, st.t, d), TabW(w.v, st.t, d))
    {
      hide CellsW, TabW, CompilerState.After, TabsFit;
    }

    // ---- DO: straight code --------------------------------------------------------------------

    method EmitLoadAt(si: int, ghost name: string)
      requires Valid() && rc == OK && SlotOk(si, syms, name)
      modifies this`code, this`rc
      ensures Valid() && |code| >= |old(code)| && Wrote(rc, Var(name), old(code), old(Tables()), code, Tables())
    {
      Placement.Known(Tables(), name, Tables());
      EmitIndexed(OP_LOAD, si);
    }

    method EmitNumber(n: string)
      requires Valid() && rc == OK
      modifies this`code, this`consts, this`rc
      ensures Valid() && |code| >= |old(code)| && Wrote(rc, Expr.Lit(n), old(code), old(Tables()), code, Tables())
    {
      EmitPush(n);
    }

    /** The operator behind both operands. */
    method EmitOperator(op: BinOp, ghost l: Expr, ghost r: Expr, ghost c0: seq<Byte>, ghost t0: Tabs)
      requires Valid() && rc == OK
      requires code == c0 + CodeE(l, t0) + CodeE(r, TabE(l, t0)) && Tables() == TabE(r, TabE(l, t0))
      modifies this`code, this`rc
      ensures Valid() && |code| >= |old(code)| && Wrote(rc, Bin(op, l, r), c0, t0, code, Tables())
    {
      hide TabsFit, CodeE, TabE, CodeOf;
      BinCode(op, l, r, t0, c0);
      EmitByte(CodeOf(op));
    }

    /** step > 0 */
    method EmitStepTest(slots: Slots, ghost k: DoKind, ghost d: nat)
      requires Valid() && rc == OK && k.To? && SlotsOk(slots, syms, k, d)
      modifies this`code, this`consts, this`rc
      ensures Valid() && |code| >= |old(code)|
      ensures Wrote(rc, Bin(Gt, Stride(d), Expr.Lit("0")), old(code), old(Tables()), code, Tables()) && syms == old(syms)
    {
      hide TabsFit, CodeE, TabE, CodeOf, DoSym, Wrote;
      ghost var c0, t0, l, r := code, Tables(), Stride(d), Expr.Lit("0");
      EmitLoadAt(slots.stp, DoSym(d, "STP"));
      if rc != OK { LeftStopped(rc, Gt, l, r, c0, t0, code, Tables()); return; }
      Written(l, c0, t0);
      EmitNumber("0");
      if rc != OK { RightStopped(rc, Gt, l, r, c0, t0, code, Tables()); return; }
      Written(r, c0 + CodeE(l, t0), TabE(l, t0));
      EmitOperator(Gt, l, r, c0, t0);
    }

    lemma Written(e: Expr, c0: seq<Byte>, t0: Tabs)
      requires Wrote(OK, e, c0, t0, code, Tables())
      ensures code == c0 + CodeE(e, t0) && Tables() == TabE(e, t0)
    {
    }

    /** var op limit */
    method EmitBound(slots: Slots, op: BinOp, ghost k: DoKind, ghost d: nat)
      requires Valid() && rc == OK && k.To? && SlotsOk(slots, syms, k, d)
      modifies this`code, this`rc
      ensures Valid() && |code| >= |old(code)|
      ensures Wrote(rc, Bin(op, Var(k.v), Limit(d)), old(code), old(Tables()), code, Tables())
    {
      hide TabsFit, CodeE, TabE, CodeOf, DoSym, Wrote;
      ghost var c0, t0, l, r := code, Tables(), Var(k.v), Limit(d);
      EmitLoadAt(slots.v, k.v);
      if rc != OK { LeftStopped(rc, op, l, r, c0, t0, code, Tables()); return; }
      Written(l, c0, t0);
      EmitLoadAt(slots.lim, DoSym(d, "LIM"));
      if rc != OK { RightStopped(rc, op, l, r, c0, t0, code, Tables()); return; }
      Written(r, c0 + CodeE(l, t0), TabE(l, t0));
      EmitOperator(op, l, r, c0, t0);
    }

    /** emit_do_to_cond without its jump. */
    method EmitToTest(slots: Slots, ghost k: DoKind, ghost d: nat)
      requires Valid() && rc == OK && k.To? && SlotsOk(slots, syms, k, d)
      modifies this`code, this`consts, this`rc
      ensures Valid() && |code| >= |old(code)| && syms == old(syms)
      ensures Wrote(rc, ToTest(k.v, d), old(code), old(Tables()), code, Tables())
    {
      hide TabsFit, CodeE, TabE, CodeOf, DoSym, Wrote;
      ghost var c0, t0 := code, Tables();
      ghost var pos', up := Bin(Gt, Stride(d), Expr.Lit("0")), Bin(Le, Var(k.v), Limit(d));
      ghost var l, r := Bin(And, pos', up), Bin(And, Not(pos'), Bin(Ge, Var(k.v), Limit(d)));
      EmitStepTest(slots, k, d);
      if rc != OK {
        LeftStopped(rc, And, pos', up, c0, t0, code, Tables());
        LeftStopped(rc, Or, l, r, c0, t0, code, Tables());
        return;
      }
      Written(pos', c0, t0);
      EmitBound(slots, Le, k, d);
      if rc != OK {
        RightStopped(rc, And, pos', up, c0, t0, code, Tables());
        LeftStopped(rc, Or, l, r, c0, t0, code, Tables());
        return;
      }
      Written(up, c0 + CodeE(pos', t0), TabE(pos', t0));
      EmitOperator(And, pos', up, c0, t0);
      if rc != OK { LeftStopped(rc, Or, l, r, c0, t0, code, Tables()); return; }
      Written(l, c0, t0);
      EmitDownTest(slots, k, d);
      if rc != OK { RightStopped(rc, Or, l, r, c0, t0, code, Tables()); return; }
      Written(r, c0 + CodeE(l, t0), TabE(l, t0));
      EmitOperator(Or, l, r, c0, t0);
    }

    /** not step > 0, and var >= limit */
    method EmitDownTest(slots: Slots, ghost k: DoKind, ghost d: nat)
      requires Valid() && rc == OK && k.To? && SlotsOk(slots, syms, k, d)
      modifies this`code, this`consts, this`rc
      ensures Valid() && |code| >= |old(code)| && syms == old(syms)
      ensures Wrote(rc, Bin(And, Not(Bin(Gt, Stride(d), Expr.Lit("0"))), Bin(Ge, Var(k.v), Limit(d))), old(code), old(Tables()), code, Tables())
    {
      hide TabsFit, CodeE, TabE, CodeOf, DoSym, Wrote;
      ghost var c0, t0, p := code, Tables(), Bin(Gt, Stride(d), Expr.Lit("0"));
      ghost var l, r := Not(p), Bin(Ge, Var(k.v), Limit(d));
      EmitStepTest(slots, k, d);
      if rc == OK {
        Written(p, c0, t0);
        EmitByte(OP_NOT);
      }
      Negated(p, c0, t0);
      if rc != OK { LeftStopped(rc, And, l, r, c0, t0, code, Tables()); return; }
      Written(l, c0, t0);
      EmitBound(slots, Ge, k, d);
      if rc != OK { RightStopped(rc, And, l, r, c0, t0, code, Tables()); return; }
      Written(r, c0 + CodeE(l, t0), TabE(l, t0));
      EmitOperator(And, l, r, c0, t0);
    }

    lemma Negated(p: Expr, c0: seq<Byte>, t0: Tabs)
      requires Fits(code, Tables())
      requires if rc == OK then code == c0 + CodeE(p, t0) + [OP_NOT] && Tables() == TabE(p, t0)
               else Wrote(rc, p, c0, t0, code, Tables()) || (rc == CAPACITY && |c0| + |CodeE(p, t0)| + 1 > MAX_CODE)
      ensures Wrote(rc, Not(p), c0, t0, code, Tables())
    {
      hide TabsFit;
      var w := Not(p);
      assert c0 + CodeE(w, t0) == c0 + CodeE(p, t0) + [OP_NOT];
      if rc != OK && Fits(c0 + CodeE(w, t0), TabE(w, t0)) { FitsSmaller(c0 + CodeE(p, t0), TabE(p, t0), c0 + CodeE(w, t0), TabE(w, t0)); }
    }

    /** remaining > 0 */
    method EmitForTest(slots: Slots, ghost k: DoKind, ghost d: nat)
      requires Valid() && rc == OK && k.To? && k.hasFor && SlotsOk(slots, syms, k, d)
      modifies this`code, this`consts, this`rc
      ensures Valid() && |code| >= |old(code)| && Wrote(rc, ForTest(d), old(code), old(Tables()), code, Tables())
    {
      hide TabsFit, CodeE, TabE, CodeOf, DoSym, Wrote;
      ghost var c0, t0, l, r := code, Tables(), Remaining(d), Expr.Lit("0");
      EmitLoadAt(slots.times, DoSym(d, "FOR"));
      if rc != OK { LeftStopped(rc, Gt, l, r, c0, t0, code, Tables()); return; }
      Written(l, c0, t0);
      EmitNumber("0");
      if rc != OK { RightStopped(rc, Gt, l, r, c0, t0, code, Tables()); return; }
      Written(r, c0 + CodeE(l, t0), TabE(l, t0));
      EmitOperator(Gt, l, r, c0, t0);
    }

    // ---- DO: header ------------------------------------------------------------------------------

    /** An expression, stored in a variable. */
    method CompileSet(si: int, ghost name: string)
      requires Open() && SlotOk(si, syms, name)
      modifies this`pos, this`code, this`consts, this`syms, this`rc, this`exprDepth
      ensures Valid() && |code| >= |old(code)| && (rc == OK ==> Open() && pos > old(pos))
      ensures SetEnd(rc, Level0(ts, old(pos)), name, old(code), old(Tables()), pos, code, Tables())
    {
      hide TabsFit, Level0, CodeE, TabE, PieceDone;
      ghost var st, g := Cur(), Level0(ts, pos);
      FirstLevel();
      PieceBytes(rc, g, st, pos, Cur());
      if rc != OK { return; }
      EmitIndexed(OP_STORE, si);
      assert st.code + CodeE(g.v, st.t) + StoreCode(st.t, name) == st.code + SetCode(name, g.v, st.t);
    }

    /** The loop's variable and the names made up for its limit and step. */
    method AddNames(name: string, d: nat) returns (slots: Slots)
      requires Open() && d < CTL_MAX
      modifies this`syms, this`rc
      ensures Valid() && (rc == OK ==> Open() && Tables() == ToTabs(name, old(Tables()), d) && slots.times < 0)
      ensures rc == OK ==> SlotOk(slots.v, syms, name) && SlotOk(slots.lim, syms, DoSym(d, "LIM")) && SlotOk(slots.stp, syms, DoSym(d, "STP"))
      ensures rc != OK ==> (rc == CAPACITY || rc == STRTOOLONG) && !TabsFit(ToTabs(name, old(Tables()), d))
    {
      hide TabsFit, DoSym, Find, ExprCode.AddSym;
      slots := Slots(-1, -1, -1, -1);
      ghost var t := Tables();
      ghost var a := ExprCode.AddSym(t, name);
      ghost var b := ExprCode.AddSym(a, DoSym(d, "LIM"));
      MoreNames(a, DoSym(d, "LIM"));
      MoreNames(b, DoSym(d, "STP"));
      var v := AddSym(name);
      if v < 0 { return; }
      var lim := AddSym(DoSym(d, "LIM"));
      if lim < 0 { return; }
      var stp := AddSym(DoSym(d, "STP"));
      if stp < 0 { return; }
      slots := Slots(v, lim, stp, -1);
      ThreeSlots(t, name, d);
    }

    static lemma MoreNames(t: Tabs, name: string)
      ensures TabsFit(ExprCode.AddSym(t, name)) ==> TabsFit(t)
    {
      hide TabsFit;
      if TabsFit(ExprCode.AddSym(t, name)) { FitsSmaller([], t, [], ExprCode.AddSym(t, name)); }
    }

    /** The header of a controlled loop, from its variable on. */
    method CompileTo(d: nat) returns (slots: Slots)
      requires Open() && d < CTL_MAX && IsControlled(ts, pos)
      modifies this`pos, this`code, this`consts, this`syms, this`rc, this`exprDepth
      ensures Valid() && |code| >= |old(code)| && (rc == OK ==> Open())
      ensures HeaderDone(rc, ParseTo(ts, old(pos) + 2, ts[old(pos)].upper), d, old(code), old(Tables()), pos, code, Tables())
      ensures rc == OK ==> SlotsOk(slots, syms, ParseTo(ts, old(pos) + 2, ts[old(pos)].upper).v, d)
    {
      hide IsKeyword, TabsFit, Level0, CodeE, TabE, DoSym, HeaderDone, SlotsOk, SetEnd, ParseTo, Find,
           ExprCode.AddSym, Extends, SetCode, HeaderCode, TopTabs, ToTabs;
      var name := ts[pos].upper;
      ghost var i, c0, t := pos + 2, code, Tables();
      ghost var h := ParseTo(ts, i, name);
      ghost var s := Level0(ts, i);
      ToParsed(i, name, s);
      if h.Got? { ToTotals(h.v, t, d); }
      ghost var t0 := ToTabs(name, t, d);
      slots := AddNames(name, d);
      if rc != OK { ToStopped(rc, h, 0, t0, d, c0, t, pos, code, Tables()); return; }
      pos := pos + 2;
      CompileSet(slots.v, name);
      if rc != OK { SetStopped(h, s, name, 0, t0, c0, d, c0, t); return; }
      SetDone(s, name, c0, t0);
      ghost var c1, t1 := code, TabE(s.v, t0);
      TabEGrows(s.v, t0);
      if !IsKeyword(ts, pos, "TO") {
        rc := UNSUP;
        NoHeader(h, d, c0, t);
        return;
      }
      KeywordNext(ts, pos, "TO");
      pos := pos + 1;
      ghost var l := Level0(ts, pos);
      SlotStays(slots.lim, t0.syms, t1.syms, DoSym(d, "LIM"));
      CompileSet(slots.lim, DoSym(d, "LIM"));
      if rc != OK { SetStopped(h, l, DoSym(d, "LIM"), |SetCode(name, s.v, t0)|, t1, c1, d, c0, t); return; }
      SetDone(l, DoSym(d, "LIM"), c1, t1);
      TabEGrows(l.v, t1);
      SlotStays(slots.stp, t0.syms, t1.syms, DoSym(d, "STP"));
      SlotStays(slots.stp, t1.syms, syms, DoSym(d, "STP"));
      SlotStays(slots.lim, t1.syms, syms, DoSym(d, "LIM"));
      SlotStays(slots.v, t0.syms, t1.syms, name);
      SlotStays(slots.v, t1.syms, syms, name);
      slots := CompileBy(slots, d, h, name, s.v, l.v, c0, t);
    }

    /** BY and FOR. */
    method CompileBy(was: Slots, d: nat, ghost h: Got<DoKind>, ghost name: string, ghost s: Expr, ghost l: Expr,
                     ghost c0: seq<Byte>, ghost t: Tabs) returns (slots: Slots)
      requires Open() && d < CTL_MAX && was.times < 0
      requires SlotOk(was.v, syms, name) && SlotOk(was.lim, syms, DoSym(d, "LIM")) && SlotOk(was.stp, syms, DoSym(d, "STP"))
      requires var t0 := ToTabs(name, t, d);
               var t1 := TabE(s, t0);
               code == c0 + SetCode(name, s, t0) + SetCode(DoSym(d, "LIM"), l, t1) && Tables() == TabE(l, t1)
      requires h == StepFrom(pos, name, s, l)
      modifies this`pos, this`code, this`consts, this`syms, this`rc, this`exprDepth
      ensures Valid() && |code| >= |old(code)| && (rc == OK ==> Open())
      ensures HeaderDone(rc, h, d, c0, t, pos, code, Tables())
      ensures rc == OK ==> h.Got? && h.v.To? && SlotsOk(slots, syms, h.v, d)
    {
      hide TabsFit, Level0, CodeE, TabE, DoSym, HeaderDone, SetEnd, Find, ExprCode.AddSym, Extends, SetCode,
           HeaderCode, TopTabs, ParseFor;
      slots := was;
      ghost var t0 := ToTabs(name, t, d);
      ghost var t1 := TabE(s, t0);
      ghost var a, b, t2, c2 := SetCode(name, s, t0), SetCode(DoSym(d, "LIM"), l, t1), TabE(l, t1), code;
      StepParts(h, pos, name, s, l, d, t);
      ghost var g: Got<Expr>;
      if IsKeyword(ts, pos, "BY") {
        pos := pos + 1;
        g := Level0(ts, pos);
        CompileSet(slots.stp, DoSym(d, "STP"));
      } else {
        g := Got(Expr.Lit("1"), pos);
        SetOne(slots.stp, DoSym(d, "STP"));
      }
      if rc != OK { SetStopped(h, g, DoSym(d, "STP"), |a| + |b|, t2, c2, d, c0, t); return; }
      SetDone(g, DoSym(d, "STP"), c2, t2);
      TabEGrows(g.v, t2);
      SlotStays(slots.v, t2.syms, syms, name);
      SlotStays(slots.lim, t2.syms, syms, DoSym(d, "LIM"));
      SlotStays(slots.stp, t2.syms, syms, DoSym(d, "STP"));
      slots := CompileFor(slots, d, h, name, s, l, g.v, c0, t);
    }

    method CompileFor(was: Slots, d: nat, ghost h: Got<DoKind>, ghost name: string, ghost s: Expr, ghost l: Expr, ghost p: Expr,
                      ghost c0: seq<Byte>, ghost t: Tabs) returns (slots: Slots)
      requires Open() && d < CTL_MAX && was.times < 0
      requires SlotOk(was.v, syms, name) && SlotOk(was.lim, syms, DoSym(d, "LIM")) && SlotOk(was.stp, syms, DoSym(d, "STP"))
      requires var t0 := ToTabs(name, t, d);
               var t1 := TabE(s, t0);
               var t2 := TabE(l, t1);
               code == c0 + SetCode(name, s, t0) + SetCode(DoSym(d, "LIM"), l, t1) + SetCode(DoSym(d, "STP"), p, t2)
               && Tables() == TabE(p, t2)
      requires h == ParseFor(ts, pos, name, s, l, p)
      modifies this`pos, this`code, this`consts, this`syms, this`rc, this`exprDepth
      ensures Valid() && |code| >= |old(code)| && (rc == OK ==> Open())
      ensures HeaderDone(rc, h, d, c0, t, pos, code, Tables())
      ensures rc == OK ==> h.Got? && h.v.To? && SlotsOk(slots, syms, h.v, d)
    {
      hide TabsFit, Level0, CodeE, TabE, DoSym, HeaderDone, SetEnd, Find, ExprCode.AddSym, Extends, SetCode,
           HeaderCode, TopTabs, ToTabs, ParseFor;
      slots := was;
      ghost var t0 := ToTabs(name, t, d);
      ghost var t1 := TabE(s, t0);
      ghost var t2 := TabE(l, t1);
      ghost var t3, c3 := TabE(p, t2), code;
      ghost var n := |SetCode(name, s, t0)| + |SetCode(DoSym(d, "LIM"), l, t1)| + |SetCode(DoSym(d, "STP"), p, t2)|;
      ForParsed(h, pos, name, s, l, p);
      ToSums(h, name, s, l, p, t, d, c0);
      if !IsKeyword(ts, pos, "FOR") {
        HeaderIs(h, d, c0, t);
        PlainSlots(slots, syms, h.v, d);
        return;
      }
      pos := pos + 1;
      var times := AddSym(DoSym(d, "FOR"));
      ghost var t4 := ExprCode.AddSym(t3, DoSym(d, "FOR"));
      if times < 0 { ToStopped(rc, h, n, t4, d, c0, t, pos, code, Tables()); return; }
      slots := slots.(times := times);
      OneSlot(t3, DoSym(d, "FOR"));
      SlotStays(slots.v, t3.syms, syms, name);
      SlotStays(slots.lim, t3.syms, syms, DoSym(d, "LIM"));
      SlotStays(slots.stp, t3.syms, syms, DoSym(d, "STP"));
      ghost var g := Level0(ts, pos);
      CompileSet(times, DoSym(d, "FOR"));
      if rc != OK { SetStopped(h, g, DoSym(d, "FOR"), n, t4, c3, d, c0, t); return; }
      SetDone(g, DoSym(d, "FOR"), c3, t4);
      TabEGrows(g.v, t4);
      PlainSlots(slots, t4.syms, h.v, d);
      SlotsStay(slots, t4.syms, syms, h.v, d);
      HeaderIs(h, d, c0, t);
    }

    lemma ForParsed(h: Got<DoKind>, i: nat, name: string, s: Expr, l: Expr, p: Expr)
      requires i < |ts| && h == ParseFor(ts, i, name, s, l, p)
      ensures h.Got? ==> h.v.To? && h.v.v == name && h.v.start == s && h.v.limit == l && h.v.step == p
                         && h.v.hasFor == IsKeyword(ts, i, "FOR")
      ensures if IsKeyword(ts, i, "FOR") then
                i + 1 < |ts| && var g := Level0(ts, i + 1);
                if g.Got? then h.Got? && h.next == g.next && h.v.times == g.v else h == Failed(g.beyond)
              else h.Got? && h.next == i
    {
      hide IsKeyword, Level0;
      if IsKeyword(ts, i, "FOR") { KeywordNext(ts, i, "FOR"); }
    }

    static lemma PlainSlots(slots: Slots, names: seq<string>, k: DoKind, d: nat)
      requires k.To? && SlotOk(slots.v, names, k.v) && SlotOk(slots.lim, names, DoSym(d, "LIM")) && SlotOk(slots.stp, names, DoSym(d, "STP"))
      requires if k.hasFor then SlotOk(slots.times, names, DoSym(d, "FOR")) else slots.times < 0
      ensures SlotsOk(slots, names, k, d)
    {
    }

    /** What a controlled header adds up to, its assignments being known. */
    static lemma ToSums(h: Got<DoKind>, name: string, s: Expr, l: Expr, p: Expr, t: Tabs, d: nat, c0: seq<Byte>)
      requires d < CTL_MAX
      requires h.Got? ==> h.v.To? && h.v.v == name && h.v.start == s && h.v.limit == l && h.v.step == p
      ensures h.Got? ==>
                var t0 := ToTabs(name, t, d);
                var t1 := TabE(s, t0);
                var t2 := TabE(l, t1);
                var t3 := TabE(p, t2);
                var t4 := ExprCode.AddSym(t3, DoSym(d, "FOR"));
                var a, b, c := SetCode(name, s, t0), SetCode(DoSym(d, "LIM"), l, t1), SetCode(DoSym(d, "STP"), p, t2);
                Extends(t3, TopTabs(h.v, t, d)) && Extends(TopTabs(h.v, t, d), TopTabs(h.v, t, d))
                && (if h.v.hasFor then
                      var f := SetCode(DoSym(d, "FOR"), h.v.times, t4);
                      Extends(t4, TopTabs(h.v, t, d)) && TopTabs(h.v, t, d) == TabE(h.v.times, t4)
                      && |HeaderCode(h.v, t, d)| == |a| + |b| + |c| + |f|
                      && c0 + HeaderCode(h.v, t, d) == c0 + a + b + c + f
                    else
                      TopTabs(h.v, t, d) == t3 && |HeaderCode(h.v, t, d)| == |a| + |b| + |c|
                      && c0 + HeaderCode(h.v, t, d) == c0 + a + b + c)
    {
      hide CodeE, TabE, DoSym, ExprCode.AddSym, Extends, SetCode, HeaderCode, TopTabs, ToTabs;
      if h.Got? {
        ToTotals(h.v, t, d);
        Same(TopTabs(h.v, t, d));
      }
    }

    method SetOne(si: int, ghost name: string)
      requires Open() && SlotOk(si, syms, name)
      modifies this`code, this`consts, this`rc
      ensures Valid() && |code| >= |old(code)| && (rc == OK ==> Open())
      ensures SetEnd(rc, Got(Expr.Lit("1"), pos), name, old(code), old(Tables()), pos, code, Tables())
    {
      hide TabsFit;
      ghost var c, t, e := code, Tables(), Expr.Lit("1");
      EmitPush("1");
      if rc != OK { return; }
      EmitIndexed(OP_STORE, si);
      assert c + CodeE(e, t) + StoreCode(t, name) == c + SetCode(name, e, t);
    }

    /** BY and FOR, as the parser sees them. */
    ghost function StepFrom(i: nat, name: string, s: Expr, l: Expr): Got<DoKind>
      requires i < |ts|
    {
      if IsKeyword(ts, i, "BY") then
        var g := Level0(ts, i + 1);
        if g.Got? then ParseFor(ts, g.next, name, s, l, g.v) else Failed(g.beyond)
      else ParseFor(ts, i, name, s, l, Expr.Lit("1"))
    }

    lemma ToParsed(i: nat, name: string, s: Got<Expr>)
      requires i < |ts| && s == Level0(ts, i)
      ensures var h := ParseTo(ts, i, name);
              (!s.Got? ==> h == Failed(s.beyond))
              && (s.Got? && !IsKeyword(ts, s.next, "TO") ==> h == Failed(false))
              && (s.Got? && IsKeyword(ts, s.next, "TO") ==>
                  var l := Level0(ts, s.next + 1);
                  (if l.Got? then h == StepFrom(l.next, name, s.v, l.v) else h == Failed(l.beyond))
                  && (h.Got? ==> l.Got? && h.v.limit == l.v))
              && (h.Got? ==> h.v.v == name && s.Got? && h.v.start == s.v)
    {
      hide Level0;
    }

    lemma StepParts(h: Got<DoKind>, i: nat, name: string, s: Expr, l: Expr, d: nat, t: Tabs)
      requires i < |ts| && h == StepFrom(i, name, s, l) && d < CTL_MAX
      ensures var g := if IsKeyword(ts, i, "BY") then Level0(ts, i + 1) else Got(Expr.Lit("1"), i);
              (!g.Got? ==> h == Failed(g.beyond))
              && (g.Got? ==> h == ParseFor(ts, g.next, name, s, l, g.v))
              && (h.Got? ==>
                  var t0 := ToTabs(name, t, d);
                  var t1 := TabE(s, t0);
                  var t2 := TabE(l, t1);
                  g.Got? && Extends(TabE(g.v, t2), TopTabs(h.v, t, d))
                  && |SetCode(name, s, t0)| + |SetCode(DoSym(d, "LIM"), l, t1)| + |SetCode(DoSym(d, "STP"), g.v, t2)|
                     <= |HeaderCode(h.v, t, d)|)
    {
      hide Level0, CodeE, TabE, DoSym, Find, ExprCode.AddSym, Extends, SetCode, HeaderCode, TopTabs, ToTabs, ParseFor;
      var g := if IsKeyword(ts, i, "BY") then Level0(ts, i + 1) else Got(Expr.Lit("1"), i);
      if h.Got? {
        ForParsed(h, g.next, name, s, l, g.v);
        ToSums(h, name, s, l, g.v, t, d, []);
      }
    }

    lemma ThreeSlots(t: Tabs, name: string, d: nat)
      requires d < CTL_MAX && Tables() == ToTabs(name, t, d)
      ensures var a := ExprCode.AddSym(t, name);
              var b := ExprCode.AddSym(a, DoSym(d, "LIM"));
              SlotOk(Find(t.syms, name), syms, name) && SlotOk(Find(a.syms, DoSym(d, "LIM")), syms, DoSym(d, "LIM"))
              && SlotOk(Find(b.syms, DoSym(d, "STP")), syms, DoSym(d, "STP"))
    {
      hide Find, DoSym;
      var a := ExprCode.AddSym(t, name);
      var b := ExprCode.AddSym(a, DoSym(d, "LIM"));
      OneSlot(t, name);
      OneSlot(a, DoSym(d, "LIM"));
      OneSlot(b, DoSym(d, "STP"));
      SlotStays(Find(t.syms, name), a.syms, b.syms, name);
      SlotStays(Find(t.syms, name), b.syms, syms, name);
      SlotStays(Find(a.syms, DoSym(d, "LIM")), b.syms, syms, DoSym(d, "LIM"));
    }

    static lemma OneSlot(t: Tabs, name: string)
      ensures SlotOk(Find(t.syms, name), ExprCode.AddSym(t, name).syms, name) && t.syms <= ExprCode.AddSym(t, name).syms
    {
      SymStays(t, name);
    }

    /** A header that stopped in one of its assignments, n bytes of it being written. */
    lemma SetStopped(h: Got<DoKind>, g: Got<Expr>, name: string, n: nat, tg: Tabs, c: seq<Byte>, d: nat, c0: seq<Byte>, t: Tabs)
      requires rc != OK && d < CTL_MAX && SetEnd(rc, g, name, c, tg, pos, code, Tables()) && |c| == |c0| + n
      requires !g.Got? ==> h == Failed(g.beyond)
      requires h.Got? ==> g.Got? && n + |SetCode(name, g.v, tg)| <= |HeaderCode(h.v, t, d)| && Extends(TabE(g.v, tg), TopTabs(h.v, t, d))
      ensures HeaderDone(rc, h, d, c0, t, pos, code, Tables())
    {
      hide TabsFit, SetCode, HeaderCode, TabE, TopTabs, Extends;
      if h.Got? { ToStopped(rc, h, n + |SetCode(name, g.v, tg)|, TabE(g.v, tg), d, c0, t, pos, code, Tables()); }
    }

    lemma SetDone(g: Got<Expr>, name: string, c: seq<Byte>, tg: Tabs)
      requires SetEnd(OK, g, name, c, tg, pos, code, Tables())
      ensures g.Got? && pos == g.next && code == c + SetCode(name, g.v, tg) && Tables() == TabE(g.v, tg)
    {
    }

    lemma NoHeader(h: Got<DoKind>, d: nat, c0: seq<Byte>, t: Tabs)
      requires d < CTL_MAX && rc == UNSUP && h == Failed(false)
      ensures HeaderDone(rc, h, d, c0, t, pos, code, Tables())
    {
    }

    lemma HeaderIs(h: Got<DoKind>, d: nat, c0: seq<Byte>, t: Tabs)
      requires d < CTL_MAX && rc == OK && h.Got? && pos == h.next && code == c0 + HeaderCode(h.v, t, d) && Tables() == TopTabs(h.v, t, d)
      ensures HeaderDone(rc, h, d, c0, t, pos, code, Tables())
    {
    }

    /** Everything behind DO up to the loop; the condition of WHILE stays for the loop's top, that of UNTIL for its end. */
    method CompileHeader(d: nat) returns (ty: LoopType, until: nat, slots: Slots)
      requires Open() && d < CTL_MAX
      modifies this`pos, this`code, this`consts, this`syms, this`rc, this`exprDepth
      ensures Valid() && |code| >= |old(code)| && (rc == OK ==> Open() && pos >= old(pos))
      ensures var h := ParseHeader(ts, old(pos));
              if rc == OK && ty.WhileLoop? then
                pos == old(pos) && code == old(code) && Tables() == old(Tables()) && pos + 1 < |ts|
                && h == WhileFrom(Level0(ts, pos + 1))
              else
                HeaderDone(rc, h, d, old(code), old(Tables()), pos, code, Tables())
                && (rc == OK ==> h.Got? && ty == TypeOf(h.v) && (ty.UntilLoop? ==> until == old(pos) + 1 < |ts|)
                                 && (ty.ToLoop? ==> SlotsOk(slots, syms, h.v, d)))
    {
      hide IsKeyword, TabsFit, Level0, PieceDone, SlotsOk, ParseTo, IsControlled, EndsClause, TabE, CodeE,
           HeadCode, SetCode, DoSym, ToTabs, TestTabs, Find, Charted, Traced, KnownOf, AddHoles, CompilerState.After;
      until, slots := 0, Slots(-1, -1, -1, -1);
      if IsKeyword(ts, pos, "FOREVER") || EndsClause(ts, pos) || IsKeyword(ts, pos, "UNTIL") {
        ty, until := CompileEndless(d);
      } else if IsKeyword(ts, pos, "WHILE") {
        ty := WhileLoop;
        NotEnd();
        return;
      } else {
        ty, slots := CompileBounded(d);
        if rc != OK { return; }
      }
      CompilePastEoc();
    }

    /** A header without code: FOREVER, none at all, and UNTIL, whose condition is gone over. */
    method CompileEndless(d: nat) returns (ty: LoopType, until: nat)
      requires Open() && d < CTL_MAX && (IsKeyword(ts, pos, "FOREVER") || EndsClause(ts, pos) || IsKeyword(ts, pos, "UNTIL"))
      modifies this`pos
      ensures Open() && pos >= old(pos) && !ty.ToLoop? && !ty.WhileLoop?
      ensures var h := ParseHeader(ts, old(pos));
              h.Got? && ty == TypeOf(h.v) && (ty.UntilLoop? ==> until == old(pos) + 1 < |ts|)
              && HeaderDone(OK, h, d, old(code), old(Tables()), ConsumeEoc(ts, pos), code, Tables())
    {
      hide TabsFit, Level0, ParseTo, IsControlled, EndsClause, CodeE, HeadCode;
      until := 0;
      NoHeadCode(d, Tables());
      assert code + [] == code;
      if IsKeyword(ts, pos, "FOREVER") {
        ty := ForeverLoop;
        pos := pos + 1;
      } else if EndsClause(ts, pos) {
        ty := GroupLoop;
      } else {
        ty := UntilLoop;
        NotEnd();
        pos := pos + 1;
        until := pos;
        CompileSkipClause();
      }
    }

    /** A header that says how often: a control variable with its phrases, or a count. */
    method CompileBounded(d: nat) returns (ty: LoopType, slots: Slots)
      requires Open() && d < CTL_MAX && !IsKeyword(ts, pos, "FOREVER") && !EndsClause(ts, pos)
      requires !IsKeyword(ts, pos, "WHILE") && !IsKeyword(ts, pos, "UNTIL")
      modifies this`pos, this`code, this`consts, this`syms, this`rc, this`exprDepth
      ensures Valid() && |code| >= |old(code)| && (ty.ToLoop? || ty.CountLoop?)
      ensures var h := ParseHeader(ts, old(pos));
              if rc == OK then
                Open() && pos >= old(pos) && h.Got? && ty == TypeOf(h.v) && (ty.ToLoop? ==> SlotsOk(slots, syms, h.v, d))
                && HeaderDone(rc, h, d, old(code), old(Tables()), ConsumeEoc(ts, pos), code, Tables())
              else HeaderDone(rc, h, d, old(code), old(Tables()), pos, code, Tables())
    {
      hide IsKeyword, TabsFit, Level0, PieceDone, SlotsOk, ParseTo, EndsClause, TabE, CodeE, SetCode, DoSym, ToTabs, TestTabs,
           Find, CompilerState.After;
      ghost var st, i := Cur(), pos;
      slots := Slots(-1, -1, -1, -1);
      if IsControlled(ts, pos) {
        ty := ToLoop;
        ControlledNext(i);
        slots := CompileTo(d);
        hide IsControlled, HeaderDone;
        ToHeader(i, d, st.code, st.t);
      } else {
        ty := CountLoop;
        FirstLevel();
        hide IsControlled;
        PieceBytes(rc, Level0(ts, i), st, pos, Cur());
      }
    }

    ghost function WhileFrom(g: Got<Expr>): Got<DoKind>
      requires g.Got? ==> g.next < |ts|
    {
      if g.Got? then Got(While(g.v), ConsumeEoc(ts, g.next)) else Failed(g.beyond)
    }

    static lemma NoHeadCode(d: nat, t: Tabs)
      requires d < CTL_MAX
      ensures HeadCode(Forever, t, d) == [] && HeadCode(Group, t, d) == [] && HeadCode(Until(TooDeep), t, d) == []
    {
    }

    method CompileSkipClause()
      requires Valid()
      modifies this`pos
      ensures Valid() && pos == SkipClause(ts, old(pos))
    {
      while !EndsClause(ts, pos)
        invariant Valid() && SkipClause(ts, pos) == SkipClause(ts, old(pos))
        decreases |ts| - pos
      {
        pos := pos + 1;
      }
    }

    /** The header of a controlled loop and the clause end behind it. */
    lemma ControlledNext(i: nat)
      requires i < |ts| && IsControlled(ts, i)
      ensures i + 2 < |ts|
    {
    }

    lemma ToHeader(i: nat, d: nat, c0: seq<Byte>, t: Tabs)
      requires i + 2 < |ts| && pos < |ts| && d < CTL_MAX && IsControlled(ts, i)
      requires !IsKeyword(ts, i, "FOREVER") && !EndsClause(ts, i) && !IsKeyword(ts, i, "WHILE") && !IsKeyword(ts, i, "UNTIL")
      requires HeaderDone(rc, ParseTo(ts, i + 2, ts[i].upper), d, c0, t, pos, code, Tables())
      ensures var k, h := ParseTo(ts, i + 2, ts[i].upper), ParseHeader(ts, i);
              if rc == OK then
                k.Got? && h == Got(k.v, ConsumeEoc(ts, pos)) && HeaderDone(rc, h, d, c0, t, ConsumeEoc(ts, pos), code, Tables())
              else HeaderDone(rc, h, d, c0, t, pos, code, Tables())
    {
      hide ParseTo, IsControlled, EndsClause, HeaderCode, TopTabs, TabsFit;
    }

    // ---- DO: the loop ------------------------------------------------------------------------------

    /** The loop's frame; a counted loop also gets its counter and a jump past the loop, which is returned. */
    method CompileGate(ty: LoopType, d: Byte) returns (jf: int)
      requires Open() && |loops| + ifDepth < CTL_MAX
      modifies this`code, this`rc, this`loops
      ensures Valid() && |code| >= |old(code)| && loops == old(loops) + [Frame(false, false, 0, [], [])]
      ensures rc == OK ==> Open() && code == old(code) + (if ty.CountLoop? then [OP_FORINIT, d] + ([OP_JF] + Word(0)) else [])
      ensures rc == OK ==> jf == if ty.CountLoop? then |old(code)| + 2 else -1
      ensures rc != OK ==> rc == CAPACITY && ty.CountLoop? && |old(code)| + 5 > MAX_CODE
    {
      hide TabsFit;
      loops := loops + [Frame(false, false, 0, [], [])];
      jf := -1;
      if ty.CountLoop? {
        EmitByte(OP_FORINIT);
        if rc != OK { return; }
        EmitByte(d);
        if rc != OK { return; }
        jf := EmitJump(OP_JF);
        ZeroWord();
        assert old(code) + [OP_FORINIT] + [d] + [OP_JF, 0, 0] == old(code) + ([OP_FORINIT, d] + ([OP_JF] + Word(0)));
      } else {
        assert old(code) + [] == old(code);
      }
    }

    /** loop_set_iterate for the innermost block. */
    method SetIterate(target: int)
      requires Valid() && rc == OK && |loops| >= 1 && Inside(loops[|loops| - 1].iterates, |code|)
      modifies this`code, this`loops
      ensures Valid() && |code| == |old(code)|
      ensures code == PatchAll(old(code), old(loops)[|old(loops)| - 1].iterates, target)
      ensures loops == old(loops)[|old(loops)| - 1 := old(loops)[|old(loops)| - 1].(known := true, target := target, iterates := [])]
    {
      hide TabsFit;
      var f := |loops| - 1;
      PatchEach(loops[f].iterates, target);
      loops := loops[f := loops[f].(known := true, target := target, iterates := [])];
    }

    /** Clause mark and test at the top of the loop; the jump past the loop is returned. */
    method CompileTop(ty: LoopType, slots: Slots, d: nat, ghost h: Got<DoKind>, ghost t: Tabs) returns (jf: int)
      requires Open() && 0 <= InnerLoop(loops) == |loops| - 1 && loops[|loops| - 1] == Frame(false, false, 0, [], [])
      requires if ty.WhileLoop? then pos + 1 < |ts| && h == WhileFrom(Level0(ts, pos + 1)) && Tables() == t
               else h.Got? && pos == h.next && ty == TypeOf(h.v) && Tables() == TopTabs(h.v, t, d)
                    && (ty.ToLoop? ==> SlotsOk(slots, syms, h.v, d))
      modifies this`pos, this`code, this`consts, this`syms, this`rc, this`exprDepth, this`loops
      ensures Valid() && |code| >= |old(code)| && (rc == OK ==> Open() && pos >= old(pos))
      ensures TopDone(rc, h, t, d, State(old(code), old(Tables()), FrameAt(old(loops), ty, |old(code)|)), pos, Cur())
      ensures rc == OK ==> h.Got? && jf == if h.v.While? || h.v.To? then |old(code)| + 1 + |TestFront(h.v, t, d)| else -1
    {
      hide TabsFit, CompilerState.After, InnerLoop, InnerSelect, TopDone, TestDone, TopTabs, HeadTabs, TestFront, SlotsOk, Level0;
      ghost var op := State(code, Tables(), FrameAt(loops, ty, |code|));
      var f, top := |loops| - 1, |code|;
      jf := -1;
      EmitByte(OP_NEWCLAUSE);
      if EarlyPoint(ty) { loops := loops[f := loops[f].(known := true, target := top)]; }
      if rc != OK {
        TopTooMuch(h, t, d, op, pos, Cur());
        return;
      }
      MarkState(op);
      if ty.WhileLoop? {
        jf := CompileWhileTest(h, t, d);
        TestMarked(rc, h, t, d, op, pos, Cur());
      } else if ty.ToLoop? {
        SetFrameKinds(old(loops), ty, top);
        jf := CompileToTest(slots, h, t, d);
        TestMarked(rc, h, t, d, op, pos, Cur());
      } else {
        TopMarked(rc, h, t, d, op, pos, Cur());
      }
    }

    static lemma SetFrameKinds(fs: seq<Frame>, ty: LoopType, top: int)
      requires 0 <= InnerLoop(fs) == |fs| - 1
      ensures SameKinds(fs, FrameAt(fs, ty, top)) && InnerLoop(FrameAt(fs, ty, top)) == |fs| - 1
      ensures InnerSelect(FrameAt(fs, ty, top)) == InnerSelect(fs)
    {
      hide InnerLoop, InnerSelect;
      InnerSame(fs, FrameAt(fs, ty, top));
    }

    method CompileWhileTest(ghost h: Got<DoKind>, ghost t: Tabs, ghost d: nat) returns (jf: int)
      requires Open() && pos + 1 < |ts| && h == WhileFrom(Level0(ts, pos + 1)) && Tables() == t
      modifies this`pos, this`code, this`consts, this`syms, this`rc, this`exprDepth
      ensures Valid() && |code| >= |old(code)| && (rc == OK ==> Open() && pos >= old(pos))
      ensures TestDone(rc, h, t, d, old(Cur()), pos, Cur())
      ensures rc == OK ==> h.Got? && jf == |old(code)| + |TestFront(h.v, t, d)|
    {
      hide TabsFit, CompilerState.After, Level0, CodeE, TabE, PieceDone, IfFront, TestDone, TestPart, HeadTabs;
      ghost var st := Cur();
      pos := pos + 1;
      ghost var g := Level0(ts, pos);
      FirstLevel();
      PieceBytes(rc, g, st, pos, Cur());
      jf := -1;
      if g.Got? {
        WhileTest(g.v, t, d);
        FrontIsGood(g.v, t, 0);
        Same(TabE(g.v, t));
      }
      if rc != OK {
        if g.Got? { TestTooMuch(rc, h, |CodeE(g.v, t)|, TabE(g.v, t), t, d, st, pos, Cur()); } else { NoTest(h, t, d, st); }
        return;
      }
      CompilePastEoc();
      ghost var mid := Cur();
      jf := EmitJump(OP_JF);
      if jf < 0 {
        TestTooMuch(rc, h, |CodeE(g.v, t)| + 3, TabE(g.v, t), t, d, st, pos, Cur());
        return;
      }
      GuardState(st, g.v, mid, Cur());
      TestIs(h, t, d, st);
    }

    lemma NoTest(h: Got<DoKind>, t: Tabs, d: nat, st: State)
      requires !h.Got? && (rc == UNSUP ==> h == Failed(false)) && (rc == BEYOND ==> h == Failed(true)) && rc != OK
      ensures TestDone(rc, h, t, d, st, pos, Cur())
    {
    }

    lemma TestIs(h: Got<DoKind>, t: Tabs, d: nat, st: State)
      requires rc == OK && h.Got? && (h.v.While? || h.v.To?) && pos == h.next
      requires Cur() == CompilerState.After(st, TestPart(h.v, t, d), HeadTabs(h.v, t, d))
      ensures TestDone(rc, h, t, d, st, pos, Cur())
    {
      hide CompilerState.After, TestPart, HeadTabs;
    }

    /** emit_do_to_cond, and the test of FOR behind it. */
    method CompileToTest(slots: Slots, ghost h: Got<DoKind>, ghost t: Tabs, ghost d: nat) returns (jf: int)
      requires Open() && h.Got? && h.v.To? && pos == h.next && Tables() == TopTabs(h.v, t, d) && SlotsOk(slots, syms, h.v, d)
      requires 0 <= InnerLoop(loops) == |loops| - 1
      modifies this`code, this`consts, this`syms, this`rc, this`loops
      ensures Valid() && |code| >= |old(code)| && (rc == OK ==> Open())
      ensures TestDone(rc, h, t, d, old(Cur()), pos, Cur())
      ensures rc == OK ==> jf == |old(code)| + |TestFront(h.v, t, d)|
    {
      hide TabsFit, CompilerState.After, CodeE, TabE, IfFront, TestDone, TestPart, HeadTabs, ToTest,
           ForTest, TopTabs, Paired, Few, DoSym, InnerLoop, InnerSelect, TestFront;
      ghost var st, k, c := Cur(), h.v, ToTest(h.v.v, d);
      ghost var t1 := TabE(c, st.t);
      jf := -1;
      ToTestParts(k, t, d);
      FrontIsGood(c, st.t, 0);
      EmitToTest(slots, k, d);
      if rc != OK {
        TestTooMuch(rc, h, |CodeE(c, st.t)|, t1, t, d, st, pos, Cur());
        return;
      }
      ghost var mid := Cur();
      jf := EmitJump(OP_JF);
      if jf < 0 {
        TestTooMuch(rc, h, |CodeE(c, st.t)| + 3, t1, t, d, st, pos, Cur());
        return;
      }
      GuardState(st, c, mid, Cur());
      if slots.times >= 0 {
        CompileForTest(slots, h, t, d, st);
      } else {
        TestIs(h, t, d, st);
      }
    }

    method CompileForTest(slots: Slots, ghost h: Got<DoKind>, ghost t: Tabs, ghost d: nat, ghost st: State)
      requires Open() && h.Got? && h.v.To? && h.v.hasFor && pos == h.next && st.t == TopTabs(h.v, t, d) && SlotsOk(slots, syms, h.v, d)
      requires 0 <= InnerLoop(loops) == |loops| - 1
      requires Cur() == CompilerState.After(st, IfFront(ToTest(h.v.v, d), st.t, 0), TabE(ToTest(h.v.v, d), st.t))
      modifies this`code, this`consts, this`syms, this`rc, this`loops
      ensures Valid() && |code| >= |old(code)| && (rc == OK ==> Open())
      ensures TestDone(rc, h, t, d, st, pos, Cur())
    {
      hide TabsFit, CompilerState.After, CodeE, TabE, IfFront, TestDone, TestPart, HeadTabs, ToTest,
           ForTest, TopTabs, Paired, Few, DoSym, InnerLoop, InnerSelect, TestFront, SlotsOk;
      ghost var k, c := h.v, ToTest(h.v.v, d);
      ghost var t1, x, w := TabE(c, st.t), IfFront(c, st.t, 0), ForTest(d);
      ghost var y, t2, st1 := CodeE(w, t1), TabE(w, t1), Cur();
      ToTestParts(k, t, d);
      FrontIsGood(c, st.t, 0);
      Same(t2);
      AfterLength(st, x, t1);
      TabsOfAfter(st, x, t1);
      EmitForTest(slots, k, d);
      if rc != OK {
        TestTooMuch(rc, h, |x| + |y|, t2, t, d, st, pos, Cur());
        return;
      }
      AfterBytes(st1, y, t2);
      AfterJoin(st, x, t1, Bytes(y), t2);
      BytesArePaired(y);
      PairedJoin(x, Bytes(y));
      FewBytes(y);
      FewJoin(x, 0, Bytes(y), 0);
      ghost var st2 := Cur();
      EmitHole(OP_JF, LeaveHole, |loops| - 1);
      assert x + Bytes(y) + HoleJump(OP_JF, LeaveHole) == TestPart(k, t, d);
      if rc != OK {
        ForStopped(h, x + Bytes(y), t2, t, d, st);
        return;
      }
      HoleWritten(OP_JF, LeaveHole, t2, st2);
      AfterJoin(st, x + Bytes(y), t2, HoleJump(OP_JF, LeaveHole), t2);
      TestIs(h, t, d, st);
    }

    lemma ForStopped(h: Got<DoKind>, x: seq<Code>, t2: Tabs, t: Tabs, d: nat, st: State)
      requires rc != OK && h.Got? && h.v.To? && h.v.hasFor && Paired(x) && Few(x, 0) && t2 == HeadTabs(h.v, t, d)
      requires x + HoleJump(OP_JF, LeaveHole) == TestPart(h.v, t, d)
      requires Compiled(rc, true, false, pos, HoleJump(OP_JF, LeaveHole), t2, 1, CompilerState.After(st, x, t2), pos, Cur())
      ensures TestDone(rc, h, t, d, st, pos, Cur())
    {
      hide TabsFit, CompilerState.After, TestPart, HeadTabs, Paired, Few, MostJumps;
      Same(t2);
      FailedBehind(rc, x, t2, 0, HoleJump(OP_JF, LeaveHole), t2, 1, true, false, h.next, TestPart(h.v, t, d), t2, TopJumps(h.v), st, pos, Cur());
    }

    /** The innermost frame once the top of its loop is at top. */
    static ghost function FrameAt(fs: seq<Frame>, ty: LoopType, top: int): seq<Frame>
      requires |fs| >= 1
    {
      if EarlyPoint(ty) then fs[|fs| - 1 := Frame(false, true, top, [], [])] else fs
    }

    // ---- DO: behind the body -----------------------------------------------------------------------

    /** A value stored where the slot says. */
    method EmitStoreAt(si: int, ghost name: string, ghost e: Expr, ghost c0: seq<Byte>, ghost t0: Tabs)
      requires Valid() && rc == OK && SlotOk(si, t0.syms, name) && code == c0 + CodeE(e, t0)
      modifies this`code, this`rc
      ensures Valid() && |code| >= |old(code)|
      ensures if rc == OK then code == c0 + SetCode(name, e, t0) else rc == CAPACITY && |c0| + |SetCode(name, e, t0)| > MAX_CODE
    {
      hide TabsFit, CodeE;
      EmitIndexed(OP_STORE, si);
      assert c0 + CodeE(e, t0) + StoreCode(t0, name) == c0 + SetCode(name, e, t0);
    }

    /** var = var + step */
    method EmitAdvance(slots: Slots, ghost k: DoKind, ghost d: nat)
      requires Valid() && rc == OK && k.To? && SlotsOk(slots, syms, k, d)
      modifies this`code, this`rc
      ensures Valid() && |code| >= |old(code)|
      ensures var e := Bin(Add, Var(k.v), Stride(d));
              if rc == OK then code == old(code) + SetCode(k.v, e, old(Tables())) && Tables() == TabE(e, old(Tables()))
              else (rc == CAPACITY || rc == STRTOOLONG)
                   && (|old(code)| + |SetCode(k.v, e, old(Tables()))| > MAX_CODE || !TabsFit(TabE(e, old(Tables()))))
    {
      hide TabsFit, CodeE, TabE, CodeOf, DoSym, Wrote;
      ghost var c0, t0, l, r := code, Tables(), Var(k.v), Stride(d);
      ghost var e := Bin(Add, l, r);
      EmitLoadAt(slots.v, k.v);
      if rc != OK { LeftStopped(rc, Add, l, r, c0, t0, code, Tables()); Unwritten(e, c0, t0); return; }
      Written(l, c0, t0);
      EmitLoadAt(slots.stp, DoSym(d, "STP"));
      if rc != OK { RightStopped(rc, Add, l, r, c0, t0, code, Tables()); Unwritten(e, c0, t0); return; }
      Written(r, c0 + CodeE(l, t0), TabE(l, t0));
      EmitOperator(Add, l, r, c0, t0);
      if rc != OK { Unwritten(e, c0, t0); return; }
      Written(e, c0, t0);
      EmitStoreAt(slots.v, k.v, e, c0, t0);
    }

    lemma Unwritten(e: Expr, c0: seq<Byte>, t0: Tabs)
      requires rc != OK && Wrote(rc, e, c0, t0, code, Tables())
      ensures (rc == CAPACITY || rc == STRTOOLONG) && (|c0| + |CodeE(e, t0)| > MAX_CODE || !TabsFit(TabE(e, t0)))
    {
      hide TabsFit;
    }

    /** remaining = remaining - 1 */
    method EmitCountDown(slots: Slots, ghost k: DoKind, ghost d: nat)
      requires Valid() && rc == OK && k.To? && k.hasFor && SlotsOk(slots, syms, k, d)
      modifies this`code, this`consts, this`rc
      ensures Valid() && |code| >= |old(code)|
      ensures var e := Bin(Sub, Remaining(d), Expr.Lit("1"));
              if rc == OK then code == old(code) + SetCode(DoSym(d, "FOR"), e, old(Tables())) && Tables() == TabE(e, old(Tables()))
              else (rc == CAPACITY || rc == STRTOOLONG)
                   && (|old(code)| + |SetCode(DoSym(d, "FOR"), e, old(Tables()))| > MAX_CODE || !TabsFit(TabE(e, old(Tables()))))
    {
      hide TabsFit, CodeE, TabE, CodeOf, DoSym, Wrote;
      ghost var c0, t0, l, r := code, Tables(), Remaining(d), Expr.Lit("1");
      ghost var e := Bin(Sub, l, r);
      EmitLoadAt(slots.times, DoSym(d, "FOR"));
      if rc != OK { LeftStopped(rc, Sub, l, r, c0, t0, code, Tables()); Unwritten(e, c0, t0); return; }
      Written(l, c0, t0);
      EmitNumber("1");
      if rc != OK { RightStopped(rc, Sub, l, r, c0, t0, code, Tables()); Unwritten(e, c0, t0); return; }
      Written(r, c0 + CodeE(l, t0), TabE(l, t0));
      EmitOperator(Sub, l, r, c0, t0);
      if rc != OK { Unwritten(e, c0, t0); return; }
      Written(e, c0, t0);
      EmitStoreAt(slots.times, DoSym(d, "FOR"), e, c0, t0);
    }

    method CompileToTail(slots: Slots, ghost k: DoKind, ghost d: nat)
      requires Open() && d < CTL_MAX && k.To? && SlotsOk(slots, syms, k, d)
      modifies this`code, this`consts, this`rc
      ensures Valid() && |code| >= |old(code)| && (rc == OK ==> Open())
      ensures TailPart(rc, Got(k, pos), d, old(Cur()), pos, Cur())
    {
      hide TabsFit, CodeE, TabE, DoSym, TailPart, SlotsOk, CompilerState.After, SetCode;
      ghost var st, e := Cur(), Bin(Add, Var(k.v), Stride(d));
      ghost var t1, a := TabE(e, st.t), SetCode(k.v, e, st.t);
      ToTail(k, st.t, d);
      TabEGrows(e, st.t);
      EmitAdvance(slots, k, d);
      if rc != OK {
        TailTooMuch(rc, k, |a|, t1, d, pos, st, pos, Cur());
        return;
      }
      SlotsStay(slots, st.t.syms, t1.syms, k, d);
      TimesPresent(slots, k, d);
      if slots.times >= 0 {
        ghost var f := Bin(Sub, Remaining(d), Expr.Lit("1"));
        ghost var b, t2 := SetCode(DoSym(d, "FOR"), f, t1), TabE(f, t1);
        Same(t2);
        EmitCountDown(slots, k, d);
        if rc != OK {
          TailTooMuch(rc, k, |a| + |b|, t2, d, pos, st, pos, Cur());
          return;
        }
        assert st.code + a + b == st.code + (a + b);
        AfterBytes(st, a + b, t2);
      } else {
        assert a + [] == a;
        AfterBytes(st, a, t1);
      }
      TailIs(k, d, st);
    }

    lemma TimesPresent(slots: Slots, k: DoKind, d: nat)
      requires k.To? && SlotsOk(slots, syms, k, d)
      ensures slots.times >= 0 <==> k.hasFor
    {
    }

    lemma TailIs(k: DoKind, d: nat, st: State)
      requires rc == OK && d < CTL_MAX && Cur() == CompilerState.After(st, TailCells(k, st.t, d), TailTabs(k, st.t, d))
      ensures TailPart(rc, Got(k, pos), d, st, pos, Cur())
    {
      hide TailCells, TailTabs, CompilerState.After;
    }

    /** UNTIL's condition, compiled from where it stands in the header, and the jump past the loop. */
    method CompileUntilTail(until: nat, ghost d: nat)
      requires Open() && d < CTL_MAX && until < |ts| && 0 <= InnerLoop(loops) == |loops| - 1
      modifies this`pos, this`code, this`consts, this`syms, this`rc, this`exprDepth, this`loops
      ensures Valid() && |code| >= |old(code)| && (rc == OK ==> Open())
      ensures TailPart(rc, UntilFrom(Level0(ts, until), old(pos)), d, old(Cur()), pos, Cur())
    {
      hide TabsFit, CodeE, TabE, TailPart, Level0, PieceDone, CompilerState.After, InnerLoop, InnerSelect;
      ghost var st, g := Cur(), Level0(ts, until);
      var saved := pos;
      pos := until;
      FirstLevel();
      PieceBytes(rc, g, st, pos, Cur());
      if rc != OK {
        UntilStopped(g, saved, d, st);
        return;
      }
      pos := saved;
      ghost var x, t1, mid := CodeE(g.v, st.t), TabE(g.v, st.t), Cur();
      AfterBytes(st, x, t1);
      BytesArePaired(x);
      EmitHole(OP_JT, LeaveHole, |loops| - 1);
      UntilJumped(g.v, d, st, mid);
    }

    ghost function UntilFrom(g: Got<Expr>, next: nat): Got<DoKind>
    {
      if g.Got? then Got(Until(g.v), next) else Failed(g.beyond)
    }

    lemma UntilStopped(g: Got<Expr>, next: nat, d: nat, st: State)
      requires d < CTL_MAX && rc != OK && rc != PATCH && (rc == UNSUP ==> g == Failed(false)) && (rc == BEYOND ==> g == Failed(true))
      requires g.Got? ==> |st.code| + |CodeE(g.v, st.t)| > MAX_CODE || !TabsFit(TabE(g.v, st.t))
      ensures TailPart(rc, UntilFrom(g, next), d, st, pos, Cur())
    {
      hide TabsFit, CodeE, TabE;
    }

    lemma UntilJumped(c: Expr, d: nat, st: State, mid: State)
      requires d < CTL_MAX && mid == CompilerState.After(st, Bytes(CodeE(c, st.t)), TabE(c, st.t))
      requires Compiled(rc, true, false, pos, HoleJump(OP_JT, LeaveHole), TabE(c, st.t), 1, mid, pos, Cur())
      ensures TailPart(rc, Got(Until(c), pos), d, st, pos, Cur())
    {
      hide TabsFit, CodeE, TabE, CompilerState.After, MostJumps, Paired, Few;
      var x, t1 := Bytes(CodeE(c, st.t)), TabE(c, st.t);
      BytesArePaired(CodeE(c, st.t));
      FewBytes(CodeE(c, st.t));
      HolesAdd(st.fs, x, |st.code|, 0);
      Chain(rc, true, false, pos, x, t1, 0, HoleJump(OP_JT, LeaveHole), t1, 1, st, pos, Cur());
    }

    /** The counter and the jump back. */
    method CompileCountTail(d: Byte, top: int)
      requires Valid() && rc == OK
      modifies this`code, this`rc
      ensures Valid() && |code| >= |old(code)|
      ensures if rc == OK then code == old(code) + ([OP_DECFOR, d] + Word(3) + ([OP_JMP] + Word(top - (|old(code)| + 7))))
              else rc == CAPACITY && |old(code)| + 7 > MAX_CODE
    {
      hide TabsFit, Lo, Hi;
      ghost var c := code;
      var p := |code|;
      EmitByte(OP_DECFOR);
      if rc != OK { return; }
      EmitByte(d);
      if rc != OK { return; }
      EmitWord(0);
      if rc != OK { return; }
      EmitBack(OP_JMP, top);
      if rc != OK { return; }
      var off := |code| - (p + 4);
      ghost var back := [OP_JMP] + Word(top - (|c| + 7));
      assert code == c + [OP_DECFOR] + [d] + Word(0) + back;
      code := code[p + 2 := Lo(off)][p + 3 := Hi(off)];
      assert code == c + ([OP_DECFOR, d] + Word(3) + back);
    }

    /** All behind the body: the counter, increment or condition, and the jump back to the top. */
    method CompileTail(ty: LoopType, d: Byte, top: int, until: nat, slots: Slots, ghost h: Got<DoKind>)
      requires Open() && d < CTL_MAX && h.Got? && ty == TypeOf(h.v) && 0 <= InnerLoop(loops) == |loops| - 1
      requires (ty.UntilLoop? ==> until < |ts|) && (ty.ToLoop? ==> SlotsOk(slots, syms, h.v, d))
      modifies this`pos, this`code, this`consts, this`syms, this`rc, this`exprDepth, this`loops
      ensures Valid() && |code| >= |old(code)| && (rc == OK ==> Open())
      ensures TailDone(rc, TailFrom(h.v, old(pos), until), d, top, old(Cur()), pos, Cur())
    {
      hide TabsFit, TailDone, TailPart, SlotsOk, CompilerState.After, InnerLoop, InnerSelect, Level0;
      ghost var st, k := Cur(), TailFrom(h.v, pos, until);
      if ty.CountLoop? {
        CompileCountTail(d, top);
        CountTail(rc, h.v, d, top, st, pos, Cur());
        return;
      } else if ty.ToLoop? {
        CompileToTail(slots, h.v, d);
      } else if ty.UntilLoop? {
        CompileUntilTail(until, d);
      } else {
        NoTail(h.v, d, st);
      }
      if rc != OK {
        TailStopped(rc, k, d, top, st, pos, Cur());
        return;
      }
      TailWritten(k, d, st);
      ghost var mid := Cur();
      if !ty.GroupLoop? { EmitBack(OP_JMP, top); }
      TailJumped(rc, k.v, d, top, st, mid, pos, Cur());
    }

    /** The kind of the loop once UNTIL's condition is known. */
    ghost function TailFrom(k: DoKind, next: nat, until: nat): Got<DoKind>
      requires k.Until? ==> until < |ts|
    {
      if k.Until? then UntilFrom(Level0(ts, until), next) else Got(k, next)
    }

    lemma NoTail(k: DoKind, d: nat, st: State)
      requires rc == OK && Cur() == st && d < CTL_MAX && !k.Count? && !k.To? && !k.Until?
      ensures TailPart(rc, Got(k, pos), d, st, pos, Cur())
    {
      AfterNothing(st);
    }

    lemma TailWritten(k: Got<DoKind>, d: nat, st: State)
      requires rc == OK && d < CTL_MAX && TailPart(rc, k, d, st, pos, Cur())
      ensures k.Got? && pos == k.next && Cur() == CompilerState.After(st, TailCells(k.v, st.t, d), TailTabs(k.v, st.t, d))
    {
      hide TailCells, TailTabs, CompilerState.After;
    }

    // ---- DO ----------------------------------------------------------------------------------------

    method CompileDo()
      requires Open() && Mapped() && |loops| + ifDepth < CTL_MAX && ts[pos].kind != Eof && |code| >= 1 && MarkedBefore()
      requires Noted() && LastDepth(lmap) >= |loops|
      modifies this
      ensures Mapped() && |code| >= |old(code)|
      ensures ifDepth == old(ifDepth) && (rc == OK ==> Open() && Here() == old(Here()))
      ensures InnerDone(rc, ParseDo(ts, old(pos) + 1, old(Here())), |old(loops)|, old(Cur()), pos, Cur())
      ensures TracedInner(rc, ParseDo(ts, old(pos) + 1, old(Here())), old(Tables()), |old(loops)|, old(Now()), Now())
      decreases |ts| - pos, 9, 0
    {
      hide TabsFit, CompilerState.After, Charted, Traced, InnerDone, ParseDo, ParseHeader, HeaderDone, InnerLoop,
           InnerSelect, SlotsOk, Level0, GateCode, HeaderCode, TopTabs, HeaderOf, AtTop, Word, LastDepth, KnownOf, AddHoles;
      ghost var st, i, x, ch := Cur(), pos + 1, Here(), Now();
      var doClause, depth := |lmap| - 1, |loops|;
      pos := pos + 1;
      HeaderParsed(i, x);
      var ty, until, slots, jf := CompileOpening(depth, st, i, x);
      MarksGrow(|st.code|);
      if rc != OK { return; }
      CompileLoop(ty, until, slots, jf, depth, doClause, st, i, x, ch);
    }

    /** Everything before the top of a loop: its header, its frame and the gate of a counted one. */
    method CompileOpening(d: Byte, ghost st: State, ghost i: nat, ghost x: Ctl)
      returns (ty: LoopType, until: nat, slots: Slots, jf: int)
      requires Open() && pos == i && d == |loops| && d + ifDepth < CTL_MAX && st == Cur() && x == Here()
      requires HeaderOf(ParseDo(ts, i, x), ParseHeader(ts, i), d)
      modifies this`pos, this`code, this`consts, this`syms, this`rc, this`exprDepth, this`loops
      ensures Valid() && |code| >= |old(code)|
      ensures rc != OK ==> InnerDone(rc, ParseDo(ts, i, x), d, st, pos, Cur())
      ensures rc == OK ==> Open() && pos >= i && loops == st.fs + [Frame(false, false, 0, [], [])]
      ensures rc == OK ==>
        var h := ParseHeader(ts, i);
        AtTop(Cur(), h, d, st) && |code| >= |st.code|
        && (if ty.WhileLoop? then pos + 1 < |ts| && h == WhileFrom(Level0(ts, pos + 1)) && Tables() == st.t
            else h.Got? && pos == h.next && ty == TypeOf(h.v) && Tables() == TopTabs(h.v, st.t, d)
                 && (ty.ToLoop? ==> SlotsOk(slots, syms, h.v, d)))
        && (ty.UntilLoop? ==> until == i + 1 < |ts|)
        && jf == if ty.CountLoop? then |code| - 3 else -1
    {
      hide TabsFit, InnerDone, ParseDo, ParseHeader, HeaderDone, InnerLoop, InnerSelect, SlotsOk, Level0, GateCode,
           HeaderCode, TopTabs, HeaderOf, AtTop, Word;
      ghost var h, r := ParseHeader(ts, i), ParseDo(ts, i, x);
      ty, until, slots := CompileHeader(d);
      jf := -1;
      if rc != OK {
        HeaderStopped(rc, h, r, d, st, pos, code, Tables(), Cur());
        return;
      }
      ghost var head := Cur();
      HeaderWas(h, ty, d, st, pos);
      jf := CompileGate(ty, d);
      if rc != OK {
        loops := loops[..|loops| - 1];
        GateStopped(h, r, d, st, pos, Cur());
        return;
      }
      GateWas(h, ty, d, st, head);
    }

    lemma HeaderParsed(i: nat, x: Ctl)
      requires i < |ts| && x.loops < CTL_MAX
      ensures HeaderOf(ParseDo(ts, i, x), ParseHeader(ts, i), x.loops)
    {
      hide ParseHeader, ParseBlock, Level0, Programs.ClosedB, DepthOkB;
      if ParseDo(ts, i, x).Got? { Programs.DoIsGood(ts, i, x); }
    }

    /** After the header: the code of h, or nothing yet for WHILE. */
    lemma HeaderWas(h: Got<DoKind>, ty: LoopType, d: nat, st: State, next: nat)
      requires d < CTL_MAX && rc == OK
      requires if ty.WhileLoop? then (h.Got? ==> h.v.While?) && code == st.code && Tables() == st.t
               else HeaderDone(rc, h, d, st.code, st.t, next, code, Tables()) && h.Got? && ty == TypeOf(h.v)
      ensures h.Got? ==> code == st.code + HeaderCode(h.v, st.t, d) && Tables() == TopTabs(h.v, st.t, d) && ty == TypeOf(h.v)
      ensures !h.Got? ==> code == st.code && Tables() == st.t && ty.WhileLoop?
      ensures !ty.WhileLoop? ==> h.Got? && next == h.next
    {
      hide CodeE, TabE, SetCode, TestTabs;
      if h.Got? && h.v.While? { assert HeaderCode(h.v, st.t, d) == [] && st.code + [] == st.code; }
    }

    lemma GateWas(h: Got<DoKind>, ty: LoopType, d: nat, st: State, head: State)
      requires d < CTL_MAX && d == |st.fs| && loops == st.fs + [Frame(false, false, 0, [], [])] && Tables() == head.t
      requires code == head.code + (if ty.CountLoop? then [OP_FORINIT, d] + ([OP_JF] + Word(0)) else [])
      requires h.Got? ==> head.code == st.code + HeaderCode(h.v, st.t, d) && head.t == TopTabs(h.v, st.t, d) && ty == TypeOf(h.v)
      requires !h.Got? ==> head.code == st.code && head.t == st.t && ty.WhileLoop?
      ensures AtTop(Cur(), h, d, st) && |code| >= |st.code|
    {
      hide HeaderCode, TopTabs, Word;
      assert loops[..|st.fs|] == st.fs;
      if h.Got? { assert code == st.code + (HeaderCode(h.v, st.t, d) + GateCode(h.v, d, 0)); }
    }

    /** From the top of the loop to END; doClause is the trace map entry of the DO. */
    method CompileLoop(ty: LoopType, until: nat, slots: Slots, gate: int, d: Byte, doClause: int,
                       ghost st: State, ghost i: nat, ghost x: Ctl, ghost ch: Chart)
      requires AtClause(ch, doClause, st, d)
      requires Open() && Mapped() && i <= pos && d < CTL_MAX && d == |st.fs| && |st.code| >= 1 && |st.fs| + ifDepth < CTL_MAX
      requires loops == st.fs + [Frame(false, false, 0, [], [])] && x == CtlOf(st.fs, ifDepth)
      requires var h := ParseHeader(ts, i);
               AtTop(Cur(), h, d, st) && |code| >= |st.code|
               && HeaderOf(ParseDo(ts, i, x), h, d)
               && (if ty.WhileLoop? then pos + 1 < |ts| && h == WhileFrom(Level0(ts, pos + 1)) && Tables() == st.t
                   else h.Got? && pos == h.next && ty == TypeOf(h.v) && Tables() == TopTabs(h.v, st.t, d)
                        && (ty.ToLoop? ==> SlotsOk(slots, syms, h.v, d)))
               && (ty.UntilLoop? ==> until == i + 1 < |ts|)
               && gate == if ty.CountLoop? then |code| - 3 else -1
      modifies this
      ensures Mapped() && |code| >= |old(code)|
      ensures ifDepth == old(ifDepth) && (rc == OK ==> Open() && Here() == x)
      ensures InnerDone(rc, ParseDo(ts, i, x), d, st, pos, Cur())
      ensures TracedInner(rc, ParseDo(ts, i, x), st.t, d, ch, Now())
      decreases |ts| - pos, 21, 0
    {
      hide IsKeyword, TabsFit, CompilerState.After, Charted, Traced, InnerDone, ParseDo, ParseHeader, ParseBlock,
           InnerLoop, InnerSelect, SlotsOk, Level0, GateCode, HeaderCode, TopTabs, HeaderOf, TopDone,
           BlockDone, CellsB, TabB, HeadTabs, TopCells, AtTop, TestFront, TailFrom, KnownOf, AddHoles, Few,
           Paired, IsEoc, EndsClause, DepthOkB, JumpsB;
      var top := |code|;
      ghost var n := |st.code|;
      var jf;
      ghost var op;
      jf, op := CompileToBody(ty, until, slots, gate, d, st, i, x);
      MarksGrow(n);
      if rc != OK { return; }
      CompileBody(ty, until, slots, jf, top, d, doClause, st, op, ParseHeader(ts, i).v, ParseDo(ts, i, x), x, ch);
    }

    /** The top of the loop: its frame filled in, the clause byte and the test in front of the body. */
    method CompileToBody(ty: LoopType, until: nat, slots: Slots, gate: int, d: Byte, ghost st: State, ghost i: nat, ghost x: Ctl)
      returns (jf: int, ghost op: State)
      requires Open() && i <= pos && d < CTL_MAX && d == |st.fs| && |st.code| >= 1 && |st.fs| + ifDepth < CTL_MAX
      requires loops == st.fs + [Frame(false, false, 0, [], [])] && x == CtlOf(st.fs, ifDepth)
      requires var h := ParseHeader(ts, i);
               AtTop(Cur(), h, d, st) && |code| >= |st.code|
               && HeaderOf(ParseDo(ts, i, x), h, d)
               && (if ty.WhileLoop? then pos + 1 < |ts| && h == WhileFrom(Level0(ts, pos + 1)) && Tables() == st.t
                   else h.Got? && pos == h.next && ty == TypeOf(h.v) && Tables() == TopTabs(h.v, st.t, d)
                        && (ty.ToLoop? ==> SlotsOk(slots, syms, h.v, d)))
               && (ty.UntilLoop? ==> until == i + 1 < |ts|)
               && gate == if ty.CountLoop? then |code| - 3 else -1
      modifies this`pos, this`code, this`consts, this`syms, this`rc, this`exprDepth, this`loops
      ensures Valid() && |code| >= |old(code)|
      ensures rc != OK ==> InnerDone(rc, ParseDo(ts, i, x), d, st, pos, Cur())
      ensures rc == OK ==>
        var h, r, top := ParseHeader(ts, i), ParseDo(ts, i, x), |old(code)|;
        && Open() && h.Got? && pos >= old(pos) && ty == TypeOf(h.v) && top == |op.code|
        && AtTop(op, Got(h.v, 0), d, st) && op.fs == st.fs + [LoopFrame(ty, top)] && InnerLoop(op.fs) == |op.fs| - 1
        && CtlOf(op.fs, ifDepth) == x.(loops := x.loops + 1, inLoop := true)
        && Cur() == CompilerState.After(op, TopCells(h.v, st.t, d, 0), HeadTabs(h.v, st.t, d))
        && (ty.UntilLoop? ==> until < |ts|) && (ty.ToLoop? ==> op.t == TopTabs(h.v, st.t, d) && SlotsOk(slots, op.t.syms, h.v, d))
        && HeaderOf(r, Got(h.v, 0), d) && BodyBehind(r, ParseBlock(ts, pos, x.(loops := x.loops + 1, inLoop := true)), h.v, until, d)
        && jf == if h.v.Count? then top - 3 else if h.v.While? || h.v.To? then top + 1 + |TestFront(h.v, st.t, d)| else -1
    {
      hide IsKeyword, TabsFit, CompilerState.After, InnerDone, ParseDo, ParseHeader, ParseBlock, InnerLoop, InnerSelect, SlotsOk,
           Level0, GateCode, HeaderCode, TopTabs, HeaderOf, TopDone, HeadTabs, TopCells, AtTop, TestFront, TailFrom,
           IsEoc, EndsClause;
      ghost var h, r, op0 := ParseHeader(ts, i), ParseDo(ts, i, x), Cur();
      ghost var top := |code|;
      jf := gate;
      InnerPush(st.fs, Frame(false, false, 0, [], []));
      var cond := CompileTop(ty, slots, d, h, st.t);
      op := State(op0.code, op0.t, FrameAt(op0.fs, ty, top));
      FrameSet(op0, h, d, st, ty);
      if rc != OK {
        ghost var failed := Cur();
        if |loops| > 0 { loops := loops[..|loops| - 1]; }
        TopStopped(rc, h, r, d, op, st, pos, failed, Cur());
        return;
      }
      if cond >= 0 { jf := cond; }
      TopWas(h, d, st, op);
      SetFrameKinds(op0.fs, ty, top);
      AtTopSame(op, h, d, st);
      HeaderSame(r, h, d);
      LoopParsed(i, x, h, until);
    }

    /** The body, and everything behind it. */
    method CompileBody(ty: LoopType, until: nat, slots: Slots, jf: int, top: nat, d: Byte, doClause: int,
                       ghost st: State, ghost op: State, ghost h: DoKind, ghost r: Got<Stmt>, ghost x: Ctl, ghost ch: Chart)
      requires Open() && Mapped() && d < CTL_MAX && d == |st.fs| && |st.code| >= 1 && |st.fs| + ifDepth < CTL_MAX && x == CtlOf(st.fs, ifDepth)
      requires AtClause(ch, doClause, st, d) && ty == TypeOf(h) && top == |op.code| >= |st.code|
      requires AtTop(op, Got(h, 0), d, st) && op.fs == st.fs + [LoopFrame(ty, top)] && InnerLoop(op.fs) == |op.fs| - 1
      requires CtlOf(op.fs, ifDepth) == x.(loops := x.loops + 1, inLoop := true)
      requires Cur() == CompilerState.After(op, TopCells(h, st.t, d, 0), HeadTabs(h, st.t, d))
      requires (ty.UntilLoop? ==> until < |ts|) && (ty.ToLoop? ==> op.t == TopTabs(h, st.t, d) && SlotsOk(slots, op.t.syms, h, d))
      requires HeaderOf(r, Got(h, 0), d) && BodyBehind(r, ParseBlock(ts, pos, x.(loops := x.loops + 1, inLoop := true)), h, until, d)
      requires jf == if h.Count? then top - 3 else if h.While? || h.To? then top + 1 + |TestFront(h, st.t, d)| else -1
      modifies this
      ensures Mapped() && |code| >= |old(code)|
      ensures ifDepth == old(ifDepth) && (rc == OK ==> Open() && Here() == x)
      ensures InnerDone(rc, r, d, st, pos, Cur())
      ensures TracedInner(rc, r, st.t, d, ch, Now())
      decreases |ts| - pos, 20, 9
    {
      hide IsKeyword, TabsFit, CompilerState.After, Charted, Traced, InnerDone, ParseBlock,
           InnerLoop, InnerSelect, SlotsOk, Level0, GateCode, HeaderCode, TopTabs, BlockDone, CellsB, TabB, HeadTabs, TopCells,
           AtTop, TestFront, TailFrom, KnownOf, AddHoles, Few, Paired, IsEoc, EndsClause, DepthOkB, JumpsB, BodyAt, TracedInner, HeaderOf,
           TracedBlock, DeepB;
      ghost var front, t1, op1 := TopCells(h, st.t, d, 0), HeadTabs(h, st.t, d), Cur();
      Settled(op, front, t1, op1);
      TopLength(op, h, d, st);
      BodyStart(h, st.t, d);
      Note(ch, d);
      ghost var b, ch1 := ParseBlock(ts, pos, Here()), Now();
      CompileBlock();
      if rc != OK {
        ghost var failed := Cur();
        if |loops| > 0 { loops := loops[..|loops| - 1]; }
        BodyStopped(rc, Got(h, 0), b, r, d, op, st, pos, failed, Cur());
        NotTraced(r, st.t, d, ch);
        return;
      }
      BlockWas(b, d + 1, op1);
      TopIsGood(h, st.t, d, 0);
      ghost var body, t2 := CellsB(b.v, t1, d + 1), TabB(b.v, t1, d + 1);
      AfterJoin(op, front, t1, body, t2);
      TabsOfAfter(op, front + body, t2);
      BodyIsTraced(b, t1, d, BodyAt(h, st.t, d), ch, ch1, doClause);
      SlotsKept(slots, ty, h, b.v, st.t, d, op.t);
      CompileBehind(ty, until, slots, jf, top, d, doClause, st, op, h, b.v, r, ch);
    }

    static lemma HeaderSame(r: Got<Stmt>, h: Got<DoKind>, d: nat)
      requires h.Got? && HeaderOf(r, h, d)
      ensures HeaderOf(r, Got(h.v, 0), d)
    {
      hide DepthOk;
    }

    lemma NotTraced(r: Got<Stmt>, t: Tabs, d: nat, ch: Chart)
      requires rc != OK
      ensures TracedInner(rc, r, t, d, ch, Now())
    {
    }

    /** What the tokens from the body on amount to. */
    ghost predicate BodyBehind(r: Got<Stmt>, b: Got<Block>, h: DoKind, until: nat, d: nat)
      requires (h.Until? ==> until < |ts|) && (b.Got? ==> b.next < |ts|)
    {
      if b.Got? then
        var k := TailFrom(h, b.next, until);
        (r.Got? ==> r.v.Do? && r.v.body == b.v)
        && if k.Got? then r == Got(Do(k.v, b.v), ConsumeEnd(ts, b.next)) && DepthOk(r.v, d) else r == Failed(k.beyond)
      else r == Failed(b.beyond)
    }

    /** The trace map as it was at the clause of the DO, whose mark is its last entry. */
    ghost predicate AtClause(ch: Chart, doClause: int, st: State, d: nat)
      reads this
    {
      ch == Chart(lmap, |st.code|, deep) && |deep| == ch.n && Charted(lmap, ch.n, deep)
      && 0 <= doClause == |lmap| - 1 && lmap[doClause].pc < ch.n && LastDepth(lmap) >= d
    }

    static lemma BodyStart(h: DoKind, t: Tabs, d: nat)
      requires d < CTL_MAX
      ensures |HeaderCode(h, t, d)| + (if h.Count? then 5 else 0) + |TopCells(h, t, d, 0)| == BodyAt(h, t, d)
    {
      hide CodeE, TabE, SetCode, ToTest, ForCells, TestTabs, ForTabs, ToTabs;
    }

    lemma BodyIsTraced(b: Got<Block>, t1: Tabs, d: nat, n: nat, ch: Chart, ch1: Chart, doClause: nat)
      requires rc == OK && b.Got? && DepthOkB(b.v, d + 1) && TracedBlock(rc, b, t1, d + 1, ch1, Now())
      requires Traced(ch, ch1, Rep(n, d), d)
      requires doClause == |ch.marks| - 1 && ch.marks[doClause].pc < ch.n && LastDepth(ch.marks) >= d
      ensures Traced(ch, Now(), Rep(n, d) + DeepB(b.v, t1, d + 1), d) && Noted()
      ensures doClause < |lmap| && lmap[doClause].depth >= d
    {
      hide DeepB, Charted, Traced;
      var x := DeepB(b.v, t1, d + 1);
      TracedInside(ch1, Now(), x, d);
      TracedThen(ch, ch1, Now(), Rep(n, d), x, d);
      TracedLength(ch, Now(), Rep(n, d) + x, d);
      MarkStays(ch, Now(), Rep(n, d) + x, d, doClause);
    }

    /** The depths behind the body. */
    ghost method NoteDo(k: DoKind, b: Block, next: nat, st: State, d: nat, ch: Chart, c: Chart)
      requires rc == OK && d < CTL_MAX && DepthOkB(b, d + 1) && InnerDone(OK, Got(Do(k, b), next), d, st, pos, Cur()) && d == |st.fs|
      requires Traced(ch, c, Rep(BodyAt(k, st.t, d), d) + DeepB(b, HeadTabs(k, st.t, d), d + 1), d) && ch.n == |st.code|
      requires c == Chart(lmap, c.n, deep) && c.n <= |code| && LastDepth(lmap) >= d
      modifies this`deep
      ensures Charted(lmap, |code|, deep) && TracedInner(rc, Got(Do(k, b), next), st.t, d, ch, Now())
    {
      hide Charted, Traced, CompilerState.After, TabsFit, MostJumps, InnerS, TabS, DeepB, HeadTabs, BodyAt;
      Settled(st, InnerS(Do(k, b), st.t, d), TabS(Do(k, b), st.t, d), Cur());
      TracedLength(ch, c, Rep(BodyAt(k, st.t, d), d) + DeepB(b, HeadTabs(k, st.t, d), d + 1), d);
      DoTraced(k, b, st.t, d, ch, c, |code|);
      Note(c, d);
      TracedNext(OK, Do(k, b), next, 0, st.t, d, ch, Now());
    }

    static lemma AtTopSame(op: State, h: Got<DoKind>, d: nat, st: State)
      requires d < CTL_MAX && h.Got? && AtTop(op, h, d, st)
      ensures AtTop(op, Got(h.v, 0), d, st)
    {
      hide HeaderCode, GateCode, TopTabs;
    }

    lemma SlotsKept(slots: Slots, ty: LoopType, h: DoKind, b: Block, t: Tabs, d: nat, was: Tabs)
      requires ty == TypeOf(h) && Tables() == TabB(b, HeadTabs(h, t, d), d + 1)
      requires ty.ToLoop? ==> was == TopTabs(h, t, d) && SlotsOk(slots, was.syms, h, d)
      ensures ty.ToLoop? ==> SlotsOk(slots, syms, h, d)
    {
      hide SlotsOk, TopTabs, HeadTabs, TabB;
      if ty.ToLoop? {
        TopExtends(h, t, d);
        Simulation.TabBGrows(b, HeadTabs(h, t, d), d + 1);
        SlotsStay(slots, was.syms, syms, h, d);
      }
    }

    static lemma NoPatch(c: seq<Byte>, target: int)
      ensures PatchAt(c, -1, target) == c
    {
    }

    static lemma FrameSet(op: State, h: Got<DoKind>, d: nat, st: State, ty: LoopType)
      requires d < CTL_MAX && op.fs == st.fs + [Frame(false, false, 0, [], [])] && AtTop(op, h, d, st)
      ensures var fs := FrameAt(op.fs, ty, |op.code|);
              AtTop(op.(fs := fs), h, d, st) && fs == st.fs + [LoopFrame(ty, |op.code|)]
    {
      hide HeaderCode, GateCode, TopTabs;
    }

    lemma TopWas(h: Got<DoKind>, d: nat, st: State, op: State)
      requires rc == OK && TopDone(rc, h, st.t, d, op, pos, Cur())
      ensures h.Got? && pos == h.next && Cur() == CompilerState.After(op, TopCells(h.v, st.t, d, 0), HeadTabs(h.v, st.t, d))
    {
      hide TopCells, HeadTabs, CompilerState.After;
    }

    lemma BlockWas(b: Got<Block>, d: nat, st: State)
      requires rc == OK && BlockDone(rc, b, d, st, pos, Cur())
      ensures b.Got? && DepthOkB(b.v, d) && pos == b.next && Cur() == CompilerState.After(st, CellsB(b.v, st.t, d), TabB(b.v, st.t, d))
    {
      hide CellsB, TabB, CompilerState.After;
    }

    /** What the tokens behind a header amount to. */
    lemma LoopParsed(i: nat, x: Ctl, h: Got<DoKind>, until: nat)
      requires i < |ts| && h == ParseHeader(ts, i) && h.Got? && (h.v.Until? ==> until == i + 1 < |ts|) && x.loops < CTL_MAX
      ensures var b, r := ParseBlock(ts, h.next, x.(loops := x.loops + 1, inLoop := true)), ParseDo(ts, i, x);
              if b.Got? then
                var k := TailFrom(h.v, b.next, until);
                (r.Got? ==> r.v.Do? && r.v.body == b.v)
                && if k.Got? then r == Got(Do(k.v, b.v), ConsumeEnd(ts, b.next)) && DepthOk(r.v, x.loops) else r == Failed(k.beyond)
              else r == Failed(b.beyond)
    {
      hide ParseHeader, ParseBlock, Level0, DepthOk;
      HeaderParsed(i, x);
    }

    lemma ShapeOfTail(h: DoKind, next: nat, until: nat)
      requires h.Until? ==> until < |ts|
      ensures var k := TailFrom(h, next, until); k.Got? ==> SameShape(h, k.v) && k.next == next
    {
      hide Level0;
    }

    static lemma TopLength(op: State, h: DoKind, d: nat, st: State)
      requires d < CTL_MAX && AtTop(op, Got(h, 0), d, st)
      ensures op.code == st.code + HeaderCode(h, st.t, d) + GateCode(h, d, 0)
      ensures |op.code| == |st.code| + |HeaderCode(h, st.t, d)| + (if h.Count? then 5 else 0)
    {
      hide HeaderCode, GateCode, TopTabs;
      GateLength(h, d, 0);
    }

    lemma TailWas(k: Got<DoKind>, d: nat, top: int, was: State)
      requires rc == OK && d < CTL_MAX && TailDone(rc, k, d, top, was, pos, Cur())
      ensures k.Got? && pos == k.next
      ensures Cur() == CompilerState.After(was, BackCells(k.v, was.t, d, |was.code|, top), TailTabs(k.v, was.t, d))
    {
      hide BackCells, TailTabs, CompilerState.After;
    }

    static lemma FrontFits(h: DoKind, t: Tabs, d: nat)
      ensures h.While? || h.To? ==> |TopCells(h, t, d, 0)| >= |TestFront(h, t, d)| + 4
    {
      hide TopCells, TestFront, TestBack;
      if h.While? || h.To? { FrontLength(h, t, d); }
    }

    /** The iterate point behind the body, unless it is the top. */
    method PlacePoint(ty: LoopType, ghost op: State, ghost fs: seq<Frame>, ghost x: seq<Code>, ghost t: Tabs)
      requires Valid() && rc == OK && Paired(x) && |op.code| >= 1 && op.fs == fs + [LoopFrame(ty, |op.code|)] && |loops| == |fs| + 1
      requires Cur() == CompilerState.After(op, x, t)
      modifies this`code, this`loops
      ensures Valid() && |code| == |old(code)| && |loops| == |old(loops)|
      ensures var it := if EarlyPoint(ty) then 0 else |x|;
              LoopState(Cur(), op.code, fs, |op.code| + it, Fill(x, IterateHole, 0, it), t)
    {
      hide TabsFit, CompilerState.After, Paired, LoopState, Fill, PatchAll, KnownOf, AddHoles;
      ghost var was := Cur();
      AfterLength(op, x, t);
      TabsOfAfter(op, x, t);
      if !EarlyPoint(ty) {
        forall i | 0 <= i < |loops[|fs|].iterates| ensures 0 <= loops[|fs|].iterates[i] && loops[|fs|].iterates[i] + 2 < |code| {
          IteratesInside(ty, op, fs, x, t, was, i);
        }
        SetIterate(|code|);
      }
      PointKnown(ty, op, fs, x, t, was, Cur());
    }

    /** The mark, the iterate point, the tail, the patches, and END. */
    method CompileBehind(ty: LoopType, until: nat, slots: Slots, jf: int, top: nat, d: Byte, doClause: int,
                         ghost st: State, ghost op: State, ghost h: DoKind, ghost b: Block, ghost r: Got<Stmt>, ghost ch: Chart)
      requires DepthOkB(b, d + 1) && Noted() && 0 <= doClause < |lmap| && lmap[doClause].depth >= d == |st.fs| && ch.n == |st.code|
      requires d < CTL_MAX && Traced(ch, Now(), Rep(BodyAt(h, st.t, d), d) + DeepB(b, HeadTabs(h, st.t, d), d + 1), d)
      requires Open() && Mapped() && d < CTL_MAX && d == |st.fs| && |st.code| >= 1 && |st.fs| + ifDepth < CTL_MAX
      requires DepthOkB(b, d + 1) && ty == TypeOf(h) && top == |op.code| >= |st.code|
      requires AtTop(op, Got(h, 0), d, st) && op.fs == st.fs + [LoopFrame(ty, top)]
      requires Cur() == CompilerState.After(op, TopCells(h, st.t, d, 0) + CellsB(b, HeadTabs(h, st.t, d), d + 1), TabB(b, HeadTabs(h, st.t, d), d + 1))
      requires (ty.UntilLoop? ==> until < |ts|) && (ty.ToLoop? ==> SlotsOk(slots, syms, h, d))
      requires var k := TailFrom(h, pos, until);
               if k.Got? then r == Got(Do(k.v, b), ConsumeEnd(ts, pos)) && DepthOk(Do(k.v, b), d) else r == Failed(k.beyond)
      requires jf == if h.Count? then top - 3 else if h.While? || h.To? then top + 1 + |TestFront(h, st.t, d)| else -1
      modifies this
      ensures Mapped() && |code| >= |old(code)|
      ensures ifDepth == old(ifDepth) && (rc == OK ==> Open() && Here() == CtlOf(st.fs, ifDepth))
      ensures InnerDone(rc, r, d, st, pos, Cur())
      ensures TracedInner(rc, r, st.t, d, ch, Now())
    {
      hide TabsFit, CompilerState.After, Charted, Traced, InnerDone, InnerLoop, InnerSelect, SlotsOk, CellsB, TabB, HeadTabs,
           TopCells, AtTop, TestFront, Paired, LoopState, Fill, Few, DepthOkB, DepthOk, TailFrom, KnownOf, AddHoles,
           JumpsB, BodyAt, DeepB, TracedInner, IteratePoint, TopTabs, HeaderCode, GateCode, Level0, UntilFrom, IsEoc, IsKeyword, EndsClause,
           SameShape, Jump, CodeE, TabE;
      ghost var ch1 := Now();
      RemarkClause(doClause);
      ghost var ch2, k := Now(), TailFrom(h, pos, until);
      ShapeOfTail(h, pos, until);
      RemarkTraced(Rep(BodyAt(h, st.t, d), d) + DeepB(b, HeadTabs(h, st.t, d), d + 1), d, ch, ch1, ch2);
      ghost var n := |code|;
      CompileTailAndEnd(ty, until, slots, jf, top, d, st, op, h, b, r);
      MarksGrow(n);
      if rc == OK {
        DoneIsDo(k, b, r, d, st);
        SameStart(h, k.v, st.t, d);
        NoteDo(k.v, b, r.next, st, d, ch, ch2);
      } else {
        NotTraced(r, st.t, d, ch);
      }
    }

    static lemma BodyPaired(h: DoKind, b: Block, t: Tabs, d: nat)
      requires d < CTL_MAX && DepthOkB(b, d + 1)
      ensures Paired(TopCells(h, t, d, 0) + CellsB(b, HeadTabs(h, t, d), d + 1))
    {
      hide CellsB, HeadTabs, TopCells, Paired, DepthOkB;
      TopIsGood(h, t, d, 0);
      BlockPaired(b, HeadTabs(h, t, d), d + 1);
      PairedJoin(TopCells(h, t, d, 0), CellsB(b, HeadTabs(h, t, d), d + 1));
    }

    method CompileTailAndEnd(ty: LoopType, until: nat, slots: Slots, jf: int, top: nat, d: Byte,
                             ghost st: State, ghost op: State, ghost h: DoKind, ghost b: Block, ghost r: Got<Stmt>)
      requires Open() && d < CTL_MAX && d == |st.fs| && |st.code| >= 1 && |st.fs| + ifDepth < CTL_MAX
      requires DepthOkB(b, d + 1) && ty == TypeOf(h) && top == |op.code| >= |st.code| && AtTop(op, Got(h, 0), d, st)
      requires op.fs == st.fs + [LoopFrame(ty, top)]
      requires Cur() == CompilerState.After(op, TopCells(h, st.t, d, 0) + CellsB(b, HeadTabs(h, st.t, d), d + 1), TabB(b, HeadTabs(h, st.t, d), d + 1))
      requires (ty.UntilLoop? ==> until < |ts|) && (ty.ToLoop? ==> SlotsOk(slots, syms, h, d))
      requires var k := TailFrom(h, pos, until);
               if k.Got? then r == Got(Do(k.v, b), ConsumeEnd(ts, pos)) && DepthOk(Do(k.v, b), d) else r == Failed(k.beyond)
      requires jf == if h.Count? then top - 3 else if h.While? || h.To? then top + 1 + |TestFront(h, st.t, d)| else -1
      modifies this`pos, this`code, this`consts, this`syms, this`rc, this`exprDepth, this`loops
      ensures Valid() && |code| >= |old(code)|
      ensures rc == OK ==> Open() && Here() == CtlOf(st.fs, ifDepth)
      ensures InnerDone(rc, r, d, st, pos, Cur())
    {
      hide TabsFit, CompilerState.After, InnerDone, InnerLoop, InnerSelect, SlotsOk, CellsB, TabB, HeadTabs, TopCells, AtTop,
           TestFront, Paired, LoopState, Fill, Few, DepthOkB, DepthOk, TailFrom, KnownOf, AddHoles, ConsumeEnd, CtlOf;
      ghost var t1 := HeadTabs(h, st.t, d);
      ghost var x, t2 := TopCells(h, st.t, d, 0) + CellsB(b, t1, d + 1), TabB(b, t1, d + 1);
      BodyPaired(h, b, st.t, d);
      Settled(op, x, t2, Cur());
      PlacePoint(ty, op, st.fs, x, t2);
      CompileBack(ty, until, slots, jf, top, d, st, op, h, b, r);
    }

    lemma DoneIsDo(k: Got<DoKind>, b: Block, r: Got<Stmt>, d: nat, st: State)
      requires rc == OK && InnerDone(rc, r, d, st, pos, Cur())
      requires if k.Got? then r.Got? && r.v == Do(k.v, b) else r == Failed(k.beyond)
      ensures k.Got? && r == Got(Do(k.v, b), r.next)
    {
      hide InnerS, TabS, CompilerState.After, TabsFit, MostJumps;
    }

    /** The tail, the patches, and END. */
    method CompileBack(ty: LoopType, until: nat, slots: Slots, jf: int, top: nat, d: Byte,
                       ghost st: State, ghost op: State, ghost h: DoKind, ghost b: Block, ghost r: Got<Stmt>)
      requires Open() && d < CTL_MAX && d == |st.fs| && |st.code| >= 1 && |st.fs| + ifDepth < CTL_MAX
      requires DepthOkB(b, d + 1) && ty == TypeOf(h) && top == |op.code| >= |st.code| && AtTop(op, Got(h, 0), d, st)
      requires var t1 := HeadTabs(h, st.t, d);
               var x := TopCells(h, st.t, d, 0) + CellsB(b, t1, d + 1);
               var it := if EarlyPoint(ty) then 0 else |x|;
               LoopState(Cur(), op.code, st.fs, top + it, Fill(x, IterateHole, 0, it), TabB(b, t1, d + 1))
      requires (ty.UntilLoop? ==> until < |ts|) && (ty.ToLoop? ==> SlotsOk(slots, syms, h, d))
      requires var k := TailFrom(h, pos, until);
               if k.Got? then r == Got(Do(k.v, b), ConsumeEnd(ts, pos)) && DepthOk(Do(k.v, b), d) else r == Failed(k.beyond)
      requires jf == if h.Count? then top - 3 else if h.While? || h.To? then top + 1 + |TestFront(h, st.t, d)| else -1
      modifies this`pos, this`code, this`consts, this`syms, this`rc, this`exprDepth, this`loops
      ensures Valid() && |code| >= |old(code)|
      ensures rc == OK ==> Open() && Here() == CtlOf(st.fs, ifDepth)
      ensures InnerDone(rc, r, d, st, pos, Cur())
    {
      hide IsKeyword, TabsFit, CompilerState.After, InnerDone, InnerLoop, InnerSelect, SlotsOk, Level0, GateCode, HeaderCode,
           TopTabs, CellsB, TabB, HeadTabs, TopCells, AtTop, TestFront, Paired, LoopState, Fill, TailDone, BackCells, TailTabs,
           Few, DepthOkB, DepthOk, TailFrom, UntilFrom, KnownOf, AddHoles, JumpsB, IsEoc, EndsClause;
      ghost var t1 := HeadTabs(h, st.t, d);
      ghost var x, t2, was := TopCells(h, st.t, d, 0) + CellsB(b, t1, d + 1), TabB(b, t1, d + 1), Cur();
      ghost var it := if EarlyPoint(ty) then 0 else |x|;
      InLoop(was, op.code, st.fs, top + it, Fill(x, IterateHole, 0, it), t2);
      ghost var k, next := TailFrom(h, pos, until), pos;
      CompileTail(ty, d, top, until, slots, Got(h, 0));
      ShapeOfTail(h, next, until);
      if rc != OK {
        ghost var failed := Cur();
        if |loops| > 0 { loops := loops[..|loops| - 1]; }
        TopLength(op, h, d, st);
        BackStopped(rc, h, b, k, r, d, op.code, top + it, it, st, was, pos, failed, Cur());
        return;
      }
      TailWas(k, d, top, was);
      ghost var y, tt := BackCells(k.v, t2, d, |x|, 0), TailTabs(k.v, t2, d);
      BackMoves(k.v, t2, d, |x|, 0, top);
      TailIsGood(k.v, t2, d, |x|, 0);
      LoopGrows(op.code, st.fs, top + it, Fill(x, IterateHole, 0, it), t2, y, tt, was, Cur());
      CompileEndLoop(jf, d, st, op, h, k.v, b, top + it);
    }

    static lemma RemarkTraced(x: seq<nat>, d: nat, ch: Chart, ch1: Chart, ch2: Chart)
      requires Traced(ch, ch1, x, d) && Traced(ch1, ch2, [], LastDepth(ch2.marks)) && LastDepth(ch2.marks) >= d
      ensures Traced(ch, ch2, x, d)
    {
      hide Traced;
      TracedLess(ch1, ch2, [], LastDepth(ch2.marks), d);
      TracedThen(ch, ch1, ch2, x, [], d);
      assert x + [] == x;
    }

    static lemma SameStart(h: DoKind, k: DoKind, t: Tabs, d: nat)
      requires d < CTL_MAX && SameShape(h, k)
      ensures BodyAt(h, t, d) == BodyAt(k, t, d) && HeadTabs(h, t, d) == HeadTabs(k, t, d)
    {
      hide CodeE, TabE, SetCode, ToTest, ForCells, TestTabs, ForTabs, ToTabs;
    }

    /** Patch the jumps to the end of the loop, drop its frame, consume END. */
    method CompileEndLoop(jf: int, ghost d: Byte, ghost st: State, ghost op: State, ghost h: DoKind, ghost k: DoKind, ghost b: Block, ghost target: int)
      requires Open() && d < CTL_MAX && d == |st.fs| && |st.code| >= 1 && |st.fs| + ifDepth < CTL_MAX
      requires DepthOkB(b, d + 1) && SameShape(h, k) && DepthOk(Do(k, b), d)
      requires AtTop(op, Got(h, 0), d, st) && |op.code| >= |st.code|
      requires var t1 := HeadTabs(h, st.t, d);
               var t2 := TabB(b, t1, d + 1);
               var x := TopCells(h, st.t, d, 0) + CellsB(b, t1, d + 1);
               var it := if EarlyPoint(TypeOf(h)) then 0 else |x|;
               LoopState(Cur(), op.code, st.fs, target, Fill(x, IterateHole, 0, it) + BackCells(k, t2, d, |x|, 0), TailTabs(k, t2, d))
      requires jf == if h.Count? then |op.code| - 3 else if h.While? || h.To? then |op.code| + 1 + |TestFront(h, st.t, d)| else -1
      modifies this`pos, this`code, this`loops
      ensures |code| >= |old(code)| && Open() && Here() == CtlOf(st.fs, ifDepth)
      ensures InnerDone(rc, Got(Do(k, b), ConsumeEnd(ts, old(pos))), d, st, pos, Cur())
    {
      hide TabsFit, CompilerState.After, Charted, Traced, InnerDone, InnerLoop, InnerSelect, GateCode, HeaderCode,
           TopTabs, JumpsS, MostJumps, CellsB, TabB, HeadTabs, TopCells, AtTop, TestFront, Paired,
           LoopState, Fill, BackCells, TailTabs, PatchAll, PatchAt, DepthOkB, TestBack, DepthOk, Positions,
           KnownOf, AddHoles, JumpsB, IsEoc, EndsClause;
      ghost var t1 := HeadTabs(h, st.t, d);
      ghost var t2 := TabB(b, t1, d + 1);
      ghost var body, tt := CellsB(b, t1, d + 1), TailTabs(k, t2, d);
      ghost var x := TopCells(h, st.t, d, 0) + body;
      ghost var it := if EarlyPoint(TypeOf(h)) then 0 else |x|;
      ghost var y, whole, was := BackCells(k, t2, d, |x|, 0), Fill(x, IterateHole, 0, it) + BackCells(k, t2, d, |x|, 0), Cur();
      InLoop(was, op.code, st.fs, target, whole, tt);
      TopLength(op, h, d, st);
      FrontFits(h, st.t, d);
      var end := |code|;
      PatchTo(jf, end);
      NoPatch(was.code, end);
      ghost var c, over := st.code + HeaderCode(h, st.t, d), |TestBack(h, st.t, d)| + |body| + |y|;
      LoopPatched(h, st.t, d, c, st.fs, target, body, it, y, tt, was, Cur());
      ghost var ct, all := c + GateCode(h, d, |x| + |y|), Fill(TopCells(h, st.t, d, over) + body, IterateHole, 0, it) + y;
      ghost var ready := Cur();
      InLoop(ready, ct, st.fs, target, all, tt);
      forall i | 0 <= i < |loops[d].leaves| ensures 0 <= loops[d].leaves[i] && loops[d].leaves[i] + 2 < |code| {
        LeavesInside(ready, ct, st.fs, target, all, tt, i);
      }
      PatchEach(loops[|loops| - 1].leaves, end);
      loops := loops[..|loops| - 1];
      CompileEnd();
      LoopClosed(h, k, b, d, target, pos, st, ready, pos, Cur());
      KindsKept(Got(Do(k, b), pos), st);
    }

    // ---- The program -------------------------------------------------------------------------------

    /** A label at the top level: its name and a LABEL instruction. */
    method CompileLabel()
      requires Open() && IsLabel(ts, pos) && pos + 2 < |ts| && |loops| == 0
      modifies this`pos, this`code, this`syms, this`rc
      ensures Valid() && |code| >= |old(code)| && (rc == OK ==> Open())
      ensures StmtDone(rc, Got(Label(ts[old(pos)].upper), old(pos) + 2), 0, old(Cur()), pos, Cur())
    {
      hide TabsFit, MostJumps, CompilerState.After, Find, ExprCode.AddSym;
      ghost var st, name, next := Cur(), ts[pos].upper, pos + 2;
      ghost var t1 := ExprCode.AddSym(st.t, name);
      ghost var x := [OP_LABEL] + Word(Find(st.t.syms, name));
      AfterBytes(st, x, t1);
      var si := AddSym(ts[pos].upper);
      if si < 0 { return; }
      EmitIndexed(OP_LABEL, si);
      if rc != OK { return; }
      pos := pos + 2;
    }

    method CompileProgram()
      requires Open() && pos == 0 && code == [] && Tables() == Programs.NO_TABS && loops == [] && ifDepth == 0 && lmap == [] && deep == []
      modifies this
      ensures Mapped() && ProgramDone(rc, ParseProgram(ts, 0), code, Tables())
      ensures rc == OK ==> ParseProgram(ts, 0).Got? && DepthOkB(ParseProgram(ts, 0).v, 0)
                           && deep == DeepB(ParseProgram(ts, 0).v, Programs.NO_TABS, 0)
    {
      hide TabsFit, CompilerState.After, Charted, Traced, StmtDone, ParseStmt, ParseProgram, InnerLoop, InnerSelect,
           CellsB, TabB, KnownOf, AddHoles, DepthOkB, DeepB, DeepS, EndsClause, IsEoc, IsLabel, ProgramDone, IsSemi;
      ghost var st, p: seq<Stmt> := Cur(), [];
      EmptyList(st, 0);
      AtFirst();
      NoMarks(st);
      ghost var ch := Now();
      while ts[pos].kind != Eof
        invariant Open() && Mapped() && ifDepth == 0 && Here() == TOP && |loops| == 0
        invariant Noted() && (DepthOkB(Onto(p, Done), 0) ==> Traced(ch, Now(), DeepB(Onto(p, Done), st.t, 0), 0))
        invariant DepthOkB(Onto(p, Done), 0) && ParseProgram(ts, 0) == GotOnto(p, ParseProgram(ts, pos))
        invariant Cur() == CompilerState.After(st, CellsB(Onto(p, Done), st.t, 0), TabB(Onto(p, Done), st.t, 0))
        decreases |ts| - pos
      {
        ghost var k := pos;
        if IsEoc(ts, pos) {
          ProgramSkips(k);
          pos := pos + 1;
          continue;
        }
        ghost var s := if IsLabel(ts, k) then LabelAt(k) else ParseStmt(ts, k, TOP);
        ghost var was, ch1 := Cur(), Now();
        ProgramSteps(k, p);
        TabsOfAfter(st, CellsB(Onto(p, Done), st.t, 0), TabB(Onto(p, Done), st.t, 0));
        ghost var rest := if s.Got? then ParseProgram(ts, if IsLabel(ts, k) then k + 2 else ConsumeEoc(ts, s.next)) else Failed(false);
        var labelled := IsLabel(ts, pos);
        if labelled {
          CompileLabel();
          MarksGrow(|was.code|);
          NoteLabel(s, was, ch1);
          LabelKinds(s, was);
        } else {
          CompileStmt();
        }
        if rc != OK {
          GoodProgram();
          BlockStopped(rc, p, s, rest, ParseProgram(ts, 0), 0, st, pos, Cur());
          ProgramStopped(st);
          return;
        }
        OneMore(p, s, 0, st, pos, Cur());
        MoreTraced(p, s, st.t, 0, ch, ch1);
        if !labelled { CompilePastEoc(); }
        p := p + [s.v];
      }
      ProgramEnds(p);
      ghost var was := Cur();
      EmitByte(OP_EXIT);
      MarksGrow(|was.code|);
      ProgramFinished(Onto(p, Done), st, was);
      FromNothing(ch, DeepB(Onto(p, Done), st.t, 0), was);
    }

    /** A LABEL instruction lies at the top. */
    ghost method NoteLabel(s: Got<Stmt>, st: State, ch: Chart)
      requires StmtDone(rc, s, 0, st, pos, Cur()) && s.Got? && s.v.Label?
      requires ch == Chart(lmap, |st.code|, deep) && |deep| == |st.code| <= |code|
      requires Charted(lmap, |st.code|, deep) && Charted(lmap, |code|, deep)
      modifies this`deep
      ensures Charted(lmap, |code|, deep) && TracedS(rc, s, st.t, 0, ch, Now())
    {
      hide Charted, Traced, CompilerState.After, TabsFit, MostJumps, TabS;
      if rc == OK {
        Settled(st, CellsS(s.v, st.t, 0), TabS(s.v, st.t, 0), Cur());
        Note(ch, 0);
      }
    }

    lemma FromNothing(ch: Chart, x: seq<nat>, was: State)
      requires ch.deep == [] && Traced(ch, Chart(lmap, |was.code|, deep), x, 0)
      ensures deep == x
    {
    }

    lemma AtFirst()
      requires loops == [] && ifDepth == 0
      ensures Here() == TOP
    {
    }

    ghost function LabelAt(k: nat): Got<Stmt>
      requires k < |ts|
    {
      Got(Label(ts[k].upper), k + 2)
    }

    lemma ProgramSkips(k: nat)
      requires k < |ts| && ts[k].kind != Eof && IsEoc(ts, k)
      ensures k + 1 < |ts| && ParseProgram(ts, k) == ParseProgram(ts, k + 1)
    {
    }

    /** A program goes on with a label or a statement at k. */
    lemma ProgramSteps(k: nat, p: seq<Stmt>)
      requires k < |ts| && ts[k].kind != Eof && !IsEoc(ts, k)
      ensures IsLabel(ts, k) ==> k + 2 < |ts|
      ensures var s := if IsLabel(ts, k) then LabelAt(k) else ParseStmt(ts, k, TOP);
              (s.Got? ==> k < s.next < |ts|)
              && (!s.Got? ==> ParseProgram(ts, k) == Failed(s.beyond))
              && (s.Got? ==>
                  var rest := ParseProgram(ts, if IsLabel(ts, k) then k + 2 else ConsumeEoc(ts, s.next));
                  ParseProgram(ts, k) == (if rest.Got? then Got(Step(s.v, rest.v), rest.next) else Failed(rest.beyond))
                  && GotOnto(p, ParseProgram(ts, k)) == GotOnto(p + [s.v], rest))
    {
      hide ParseStmt;
      Programs.IsLabelBound(ts, k);
      var s := if IsLabel(ts, k) then LabelAt(k) else ParseStmt(ts, k, TOP);
      if s.Got? {
        var rest := ParseProgram(ts, if IsLabel(ts, k) then k + 2 else ConsumeEoc(ts, s.next));
        if rest.Got? { OntoSnoc(p, s.v, rest.v); }
      }
    }

    lemma GoodProgram()
      ensures ParseProgram(ts, 0).Got? ==> DepthOkB(ParseProgram(ts, 0).v, 0)
    {
      hide ParseProgram;
      if ParseProgram(ts, 0).Got? { Programs.ProgramIsGood(ts, 0); }
    }

    lemma LabelKinds(s: Got<Stmt>, was: State)
      requires StmtDone(rc, s, 0, was, pos, Cur()) && was.fs == [] && ifDepth == 0
      ensures rc == OK ==> Here() == TOP && loops == []
    {
      hide CompilerState.After, InnerLoop, InnerSelect, TabsFit, MostJumps, CellsS, TabS, DepthOk;
      if rc == OK { Settled(was, CellsS(s.v, was.t, 0), TabS(s.v, was.t, 0), Cur()); AtFirst(); }
    }

    lemma ProgramEnds(p: seq<Stmt>)
      requires pos < |ts| && ts[pos].kind == Eof && ParseProgram(ts, 0) == GotOnto(p, ParseProgram(ts, pos))
      ensures ParseProgram(ts, 0) == Got(Onto(p, Done), pos)
    {
      assert ParseProgram(ts, pos) == Got(Done, pos);
    }

    lemma ProgramStopped(st: State)
      requires rc != OK && st == State([], Programs.NO_TABS, []) && BlockDone(rc, ParseProgram(ts, 0), 0, st, pos, Cur())
      ensures ProgramDone(rc, ParseProgram(ts, 0), code, Tables())
    {
      hide ParseProgram, CellsB, TabB, DepthOkB, TabsFit, JumpsB;
    }

    lemma ProgramFinished(b: Block, st: State, was: State)
      requires st == State([], Programs.NO_TABS, []) && ParseProgram(ts, 0) == Got(b, pos) && DepthOkB(b, 0)
      requires was == CompilerState.After(st, CellsB(b, st.t, 0), TabB(b, st.t, 0)) && Fits(was.code, was.t) && Tables() == was.t
      requires if |was.code| < MAX_CODE then code == was.code + [OP_EXIT] && rc == OK else code == was.code && rc == CAPACITY
      ensures ProgramDone(rc, ParseProgram(ts, 0), code, Tables())
    {
      hide ParseProgram, CellsB, TabB, DepthOkB, TabsFit;
      EmittedWritten(CellsB(b, st.t, 0));
      assert [] + Emitted(CellsB(b, st.t, 0), 0, UNKNOWN) == Emitted(CellsB(b, st.t, 0), 0, UNKNOWN);
    }

    lemma NoMarks(st: State)
      requires lmap == [] && deep == [] && code == [] && st.code == []
      ensures Charted(lmap, |code|, deep) && Noted() && Traced(Now(), Now(), DeepB(Onto([], Done), st.t, 0), 0)
    {
      TracedNone(Now(), 0);
    }

    static lemma EmittedWritten(cs: seq<Code>)
      ensures Emitted(cs, 0, UNKNOWN) == Programs.Written(cs)
    {
    }
  }

  /** The end of compiling a program: the image its tree calls for, or why there is none. */
  predicate ProgramDone(rc: Rc, r: Got<Block>, code: seq<Byte>, t: Tabs)
  {
    (r.Got? ==> DepthOkB(r.v, 0))
    && match rc
       case OK => r.Got? && Image(code, t) == Programs.ImageOf(r.v) && ImageOk(Programs.ImageOf(r.v))
       case UNSUP => r == Failed(false)
       case BEYOND => r == Failed(true)
       case PATCH => r.Got? ==> JumpsB(r.v) > MAX_PATCHES
       case _ => r.Got? ==> !ImageOk(Programs.ImageOf(r.v))
  }
}
