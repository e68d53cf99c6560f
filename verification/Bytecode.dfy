/** The instruction set: opcodes, instruction sizes, operands, and the image a compile produces. */
module Bytecode {
  import opened Options
  import opened NumberText

  type Byte = x: int | 0 <= x < 256

  const OP_NOP: Byte := 0x00
  const OP_EXIT: Byte := 0x01
  const OP_NEWCLAUSE: Byte := 0x02
  const OP_EXIT_RC: Byte := 0x03
  const OP_JMP: Byte := 0x04
  const OP_JF: Byte := 0x05
  const OP_JT: Byte := 0x06
  const OP_PUSH_LIT: Byte := 0x10
  const OP_POP: Byte := 0x12
  const OP_DUP: Byte := 0x13
  const OP_LOAD: Byte := 0x20
  const OP_STORE: Byte := 0x21
  const OP_DROP: Byte := 0x22
  const OP_ADD: Byte := 0x30
  const OP_NEG: Byte := 0x37
  const OP_EQ: Byte := 0x40
  const OP_AND: Byte := 0x50
  const OP_NOT: Byte := 0x53
  const OP_CONCAT: Byte := 0x60
  const OP_BCONCAT: Byte := 0x61
  const OP_SAY: Byte := 0x70
  const OP_TOINT: Byte := 0x71
  const OP_FORINIT: Byte := 0x72
  const OP_BYINIT: Byte := 0x73
  const OP_DECFOR: Byte := 0x74
  const OP_DOTEST: Byte := 0x75
  const OP_ITERATE: Byte := 0x76
  const OP_LEAVE: Byte := 0x77
  const OP_LABEL: Byte := 0x78
  const OP_CALL: Byte := 0x79
  const OP_CALL_BIF: Byte := 0x7A
  const OP_RETURN: Byte := 0x7B
  const OP_RETURNV: Byte := 0x7C
  const OP_PARSE_BEGIN: Byte := 0x80
  const OP_PARSE_END: Byte := 0x81
  const OP_PVAR: Byte := 0x82
  const OP_PDOT: Byte := 0x83
  const OP_TR_SPACE: Byte := 0x84
  const OP_TR_LIT: Byte := 0x85
  const OP_TR_ABS: Byte := 0x86
  const OP_TR_REL: Byte := 0x87
  const OP_TR_END: Byte := 0x88
  const OP_PROC: Byte := 0x8B
  const OP_EXPOSE: Byte := 0x8C
  const OP_EXPOSE_INDIRECT: Byte := 0x8D
  const OP_LOAD_STEM: Byte := 0x8E
  const OP_STORE_STEM: Byte := 0x8F
  const OP_DROP_STEM: Byte := 0x90
  const OP_PVAR_STEM: Byte := 0x91
  const OP_SIGNAL: Byte := 0x93
  const OP_SIGNAL_VALUE: Byte := 0x94
  const OP_SIGNAL_ON: Byte := 0x95
  const OP_SIGNAL_OFF: Byte := 0x96
  const OP_TRACE_SET: Byte := 0x98
  const OP_ADDRESS_SET: Byte := 0x9B
  const OP_TR_VAR: Byte := 0x9D
  const OP_PUSH_OMITTED: Byte := 0x9E
  const OP_SET_NUMERIC: Byte := 0x9F
  const OP_RAISE: Byte := 0xA0

  const SYNTAX_CTL_STACK: Byte := 11
  const SYNTAX_BAD_BOOL: nat := 34
  const SYNTAX_EVAL_STACK: Byte := 39
  const SYNTAX_BAD_ARITH: nat := 41
  const SYNTAX_OVERFLOW: nat := 42

  /** OP_SIZE: bytes of an instruction, opcode included. */
  function OpSize(op: Byte): (n: nat)
    ensures 1 <= n <= 4
  {
    if op == OP_PUSH_LIT || op == OP_LOAD || op == OP_STORE || op == OP_DROP
        || op == OP_JMP || op == OP_JF || op == OP_JT || op == OP_ITERATE
        || op == OP_LEAVE || op == OP_LABEL || op == OP_PVAR || op == OP_TR_LIT
        || op == OP_TR_ABS || op == OP_TR_REL || op == OP_TR_VAR || op == OP_EXPOSE
        || op == OP_EXPOSE_INDIRECT || op == OP_SIGNAL || op == OP_ADDRESS_SET then 3
    else if op == OP_POP || op == OP_FORINIT || op == OP_BYINIT || op == OP_PARSE_BEGIN
        || op == OP_PROC || op == OP_SIGNAL_OFF || op == OP_TRACE_SET || op == OP_SET_NUMERIC
        || op == OP_RAISE then 2
    else if op == OP_DECFOR || op == OP_CALL || op == OP_CALL_BIF || op == OP_LOAD_STEM
        || op == OP_STORE_STEM || op == OP_DROP_STEM || op == OP_PVAR_STEM || op == OP_SIGNAL_ON then 4
    else 1
  }

  /** The operators that take two values off the stack and leave one. */
  datatype BinOp = Add | Sub | Mul | Div | IDiv | Mod | Power
                 | Eq | Ne | Lt | Le | Gt | Ge | Deq | Dne | Dlt | Dle | Dgt | Dge
                 | And | Or | Xor | Concat | BConcat

  function CodeOf(op: BinOp): (b: Byte)
    ensures OpSize(b) == 1
  {
    match op
    case Add => 0x30 case Sub => 0x31 case Mul => 0x32 case Div => 0x33
    case IDiv => 0x34 case Mod => 0x35 case Power => 0x36
    case Eq => 0x40 case Ne => 0x41 case Lt => 0x42 case Le => 0x43 case Gt => 0x44 case Ge => 0x45
    case Deq => 0x46 case Dne => 0x47 case Dlt => 0x48 case Dle => 0x49 case Dgt => 0x4A case Dge => 0x4B
    case And => 0x50 case Or => 0x51 case Xor => 0x52
    case Concat => 0x60 case BConcat => 0x61
  }

  function BinaryAt(b: Byte): Option<BinOp>
  {
    if b == 0x30 then Some(Add) else if b == 0x31 then Some(Sub) else if b == 0x32 then Some(Mul)
    else if b == 0x33 then Some(Div) else if b == 0x34 then Some(IDiv) else if b == 0x35 then Some(Mod)
    else if b == 0x36 then Some(Power) else if b == 0x40 then Some(Eq) else if b == 0x41 then Some(Ne)
    else if b == 0x42 then Some(Lt) else if b == 0x43 then Some(Le) else if b == 0x44 then Some(Gt)
    else if b == 0x45 then Some(Ge) else if b == 0x46 then Some(Deq) else if b == 0x47 then Some(Dne)
    else if b == 0x48 then Some(Dlt) else if b == 0x49 then Some(Dle) else if b == 0x4A then Some(Dgt)
    else if b == 0x4B then Some(Dge) else if b == 0x50 then Some(And) else if b == 0x51 then Some(Or)
    else if b == 0x52 then Some(Xor) else if b == 0x60 then Some(Concat) else if b == 0x61 then Some(BConcat)
    else None
  }

  // ---- Operands ----------------------------------------------------------

  function Lo(v: int): Byte { v % 256 }

  function Hi(v: int): Byte { v / 256 % 256 }

  function Word(v: int): (w: seq<Byte>)
    ensures |w| == 2
  {
    [Lo(v), Hi(v)]
  }

  function At(code: seq<Byte>, i: int): Byte
  {
    if 0 <= i < |code| then code[i] else OP_NOP
  }

  function ReadU16(code: seq<Byte>, i: int): int
  {
    At(code, i) + 256 * At(code, i + 1)
  }

  function ReadI16(code: seq<Byte>, i: int): int
  {
    var u := ReadU16(code, i);
    if u >= 0x8000 then u - 0x1_0000 else u
  }

  /** A displacement that fits 16 bits is read back as it was written. */
  lemma DisplacementReadBack(code: seq<Byte>, i: nat, v: int)
    requires -0x8000 <= v < 0x8000 && i + 1 < |code| && code[i] == Lo(v) && code[i + 1] == Hi(v)
    ensures ReadI16(code, i) == v
  {
    assert v == 256 * (v / 256) + v % 256;
  }

  lemma IndexReadBack(code: seq<Byte>, i: nat, v: nat)
    requires v < 0x1_0000 && i + 1 < |code| && code[i] == Lo(v) && code[i + 1] == Hi(v)
    ensures ReadU16(code, i) == v
  {
    assert v == 256 * (v / 256) + v % 256;
  }

  // ---- Instructions ------------------------------------------------------

  datatype Instr =
    | INop(b: Byte) | INewClause | ILabel(s: int)
    | IExit | IExitRc
    | IPush(k: int) | IPop(n: int) | IDup
    | ILoad(s: int) | IStore(s: int) | IDrop(s: int)
    | IBin(op: BinOp) | INeg | INot
    | IJump(b: Byte, off: int) | IJumpIf(on: bool, off: int)
    | ISay | IForInit(n: int) | IDecFor(n: int, off: int) | IRaise(n: int)
    | ICall(s: int, nargs: int, inExpr: bool) | IReturn | IReturnV
    | ISignal(s: int) | ISignalValue | ISignalOn(c: int, s: int) | ISignalOff(c: int)
    | IProc | IExpose(s: int) | IOmitted
    | IOther(b: Byte)

  function Encode(i: Instr): seq<Byte>
    requires Encodable(i)
  {
    match i
    case INop(b) => [b]
    case INewClause => [OP_NEWCLAUSE]
    case ILabel(s) => [OP_LABEL] + Word(s)
    case IExit => [OP_EXIT]
    case IExitRc => [OP_EXIT_RC]
    case IPush(k) => [OP_PUSH_LIT] + Word(k)
    case IPop(n) => [OP_POP, n]
    case IDup => [OP_DUP]
    case ILoad(s) => [OP_LOAD] + Word(s)
    case IStore(s) => [OP_STORE] + Word(s)
    case IDrop(s) => [OP_DROP] + Word(s)
    case IBin(op) => [CodeOf(op)]
    case INeg => [OP_NEG]
    case INot => [OP_NOT]
    case IJump(b, off) => [b] + Word(off)
    case IJumpIf(on, off) => [if on then OP_JT else OP_JF] + Word(off)
    case ISay => [OP_SAY]
    case IForInit(n) => [OP_FORINIT, n]
    case IDecFor(n, off) => [OP_DECFOR, n] + Word(off)
    case IRaise(n) => [OP_RAISE, n]
    case ICall(s, n, e) => [if e then OP_CALL_BIF else OP_CALL] + Word(s) + [n]
    case IReturn => [OP_RETURN]
    case IReturnV => [OP_RETURNV]
    case ISignal(s) => [OP_SIGNAL] + Word(s)
    case ISignalValue => [OP_SIGNAL_VALUE]
    case ISignalOn(c, s) => [OP_SIGNAL_ON, c] + Word(s)
    case ISignalOff(c) => [OP_SIGNAL_OFF, c]
    case IProc => [OP_PROC, 0]
    case IExpose(s) => [OP_EXPOSE] + Word(s)
    case IOmitted => [OP_PUSH_OMITTED]
    case IOther(b) => [b]
  }

  predicate Index(s: int) { 0 <= s < 0x1_0000 }

  predicate Displacement(off: int) { -0x8000 <= off < 0x8000 }

  predicate InByte(n: int) { 0 <= n < 256 }

  predicate Encodable(i: Instr)
  {
    match i
    case INop(b) => b == OP_NOP || b == OP_TOINT || b == OP_DOTEST
    case ILabel(s) => Index(s)
    case IPush(k) => Index(k)
    case IPop(n) => InByte(n)
    case ILoad(s) => Index(s)
    case IStore(s) => Index(s)
    case IDrop(s) => Index(s)
    case IJump(b, off) => (b == OP_JMP || b == OP_ITERATE || b == OP_LEAVE) && Displacement(off)
    case IJumpIf(_, off) => Displacement(off)
    case IForInit(n) => InByte(n)
    case IDecFor(n, off) => InByte(n) && Displacement(off)
    case IRaise(n) => InByte(n)
    case ICall(s, n, _) => Index(s) && InByte(n)
    case ISignal(s) => Index(s)
    case ISignalOn(c, s) => InByte(c) && Index(s)
    case ISignalOff(c) => InByte(c)
    case IExpose(s) => Index(s)
    case IOther(_) => false
    case _ => true
  }

  /** The instruction the VM executes at pc. */
  function Decode(code: seq<Byte>, pc: int): Instr
  {
    var op := At(code, pc);
    if BinaryAt(op).Some? then IBin(BinaryAt(op).value)
    else if op < 0x70 then DecodeBasic(code, pc, op)
    else if op < 0x78 then DecodeLoop(code, pc, op)
    else DecodeCall(code, pc, op)
  }

  function DecodeBasic(code: seq<Byte>, pc: int, op: Byte): Instr
  {
    if op == OP_NOP then INop(op)
    else if op == OP_EXIT then IExit
    else if op == OP_NEWCLAUSE then INewClause
    else if op == OP_EXIT_RC then IExitRc
    else if op == OP_JMP then IJump(op, ReadI16(code, pc + 1))
    else if op == OP_JF then IJumpIf(false, ReadI16(code, pc + 1))
    else if op == OP_JT then IJumpIf(true, ReadI16(code, pc + 1))
    else if op == OP_PUSH_LIT then IPush(ReadU16(code, pc + 1))
    else if op == OP_POP then IPop(At(code, pc + 1))
    else if op == OP_DUP then IDup
    else if op == OP_LOAD then ILoad(ReadU16(code, pc + 1))
    else if op == OP_STORE then IStore(ReadU16(code, pc + 1))
    else if op == OP_DROP then IDrop(ReadU16(code, pc + 1))
    else if op == OP_NEG then INeg
    else if op == OP_NOT then INot
    else IOther(op)
  }

  function DecodeLoop(code: seq<Byte>, pc: int, op: Byte): Instr
  {
    if op == OP_SAY then ISay
    else if op == OP_TOINT || op == OP_DOTEST then INop(op)
    else if op == OP_FORINIT then IForInit(At(code, pc + 1))
    else if op == OP_DECFOR then IDecFor(At(code, pc + 1), ReadI16(code, pc + 2))
    else if op == OP_ITERATE || op == OP_LEAVE then IJump(op, ReadI16(code, pc + 1))
    else IOther(op)
  }

  function DecodeCall(code: seq<Byte>, pc: int, op: Byte): Instr
  {
    if op == OP_LABEL then ILabel(ReadU16(code, pc + 1))
    else if op == OP_CALL || op == OP_CALL_BIF then ICall(ReadU16(code, pc + 1), At(code, pc + 3), op == OP_CALL_BIF)
    else if op == OP_RETURN then IReturn
    else if op == OP_RETURNV then IReturnV
    else if op == OP_PROC then IProc
    else if op == OP_EXPOSE then IExpose(ReadU16(code, pc + 1))
    else if op == OP_SIGNAL then ISignal(ReadU16(code, pc + 1))
    else if op == OP_SIGNAL_VALUE then ISignalValue
    else if op == OP_SIGNAL_ON then ISignalOn(At(code, pc + 1), ReadU16(code, pc + 2))
    else if op == OP_SIGNAL_OFF then ISignalOff(At(code, pc + 1))
    else if op == OP_RAISE then IRaise(At(code, pc + 1))
    else if op == OP_PUSH_OMITTED then IOmitted
    else IOther(op)
  }

  /** code has bytes s at position i. */
  ghost predicate Has(code: seq<Byte>, i: nat, s: seq<Byte>)
  {
    i + |s| <= |code| && code[i..i + |s|] == s
  }

  lemma HasAt(code: seq<Byte>, i: nat, s: seq<Byte>, j: nat)
    requires Has(code, i, s) && j < |s|
    ensures i + |s| <= |code| && code[i + j] == s[j]
  {
    assert code[i..i + |s|][j] == s[j];
  }

  lemma HasSplit(code: seq<Byte>, i: nat, s: seq<Byte>, t: seq<Byte>)
    ensures Has(code, i, s + t) <==> Has(code, i, s) && Has(code, i + |s|, t)
  {
    var n := |s| + |t|;
    if Has(code, i, s + t) {
      assert code[i..i + |s|] == code[i..i + n][..|s|] == s;
      assert code[i + |s|..i + n] == code[i..i + n][|s|..] == t;
    }
    if Has(code, i, s) && Has(code, i + |s|, t) {
      assert code[i..i + n] == code[i..i + |s|] + code[i + |s|..i + n];
    }
  }

  lemma BinaryCodes(op: BinOp)
    ensures BinaryAt(CodeOf(op)) == Some(op)
  {
  }

  lemma DecodedBasic(code: seq<Byte>, pc: nat, i: Instr)
    requires Encodable(i) && pc + |Encode(i)| <= |code| && code[pc] == Encode(i)[0] && code[pc] < 0x70 && !i.IBin?
    requires forall j :: 0 <= j < |Encode(i)| ==> code[pc + j] == Encode(i)[j]
    ensures BinaryAt(code[pc]).None? && DecodeBasic(code, pc, code[pc]) == i && OpSize(code[pc]) == |Encode(i)|
  {
    hide Lo, Hi, ReadU16, ReadI16;
    if |Encode(i)| == 3 {
      assert code[pc + 1] == Encode(i)[1] && code[pc + 2] == Encode(i)[2];
      if i.IJump? { DisplacementReadBack(code, pc + 1, i.off); }
      else if i.IJumpIf? { DisplacementReadBack(code, pc + 1, i.off); }
      else if i.IPush? { IndexReadBack(code, pc + 1, i.k); }
      else { IndexReadBack(code, pc + 1, i.s); }
    } else if |Encode(i)| == 2 {
      assert code[pc + 1] == Encode(i)[1];
    }
  }

  lemma DecodedLoop(code: seq<Byte>, pc: nat, i: Instr)
    requires Encodable(i) && pc + |Encode(i)| <= |code| && code[pc] == Encode(i)[0] && 0x70 <= code[pc] < 0x78
    requires forall j :: 0 <= j < |Encode(i)| ==> code[pc + j] == Encode(i)[j]
    ensures BinaryAt(code[pc]).None? && DecodeLoop(code, pc, code[pc]) == i && OpSize(code[pc]) == |Encode(i)|
  {
    hide Lo, Hi, ReadU16, ReadI16;
    if i.IJump? {
      assert code[pc + 1] == Encode(i)[1] && code[pc + 2] == Encode(i)[2];
      DisplacementReadBack(code, pc + 1, i.off);
    } else if i.IDecFor? {
      assert code[pc + 1] == Encode(i)[1] && code[pc + 2] == Encode(i)[2] && code[pc + 3] == Encode(i)[3];
      DisplacementReadBack(code, pc + 2, i.off);
    } else if i.IForInit? {
      assert code[pc + 1] == Encode(i)[1];
    }
  }

  lemma DecodedCall(code: seq<Byte>, pc: nat, i: Instr)
    requires Encodable(i) && pc + |Encode(i)| <= |code| && code[pc] == Encode(i)[0] && 0x78 <= code[pc]
    requires forall j :: 0 <= j < |Encode(i)| ==> code[pc + j] == Encode(i)[j]
    ensures BinaryAt(code[pc]).None? && DecodeCall(code, pc, code[pc]) == i && OpSize(code[pc]) == |Encode(i)|
  {
    hide Lo, Hi, ReadU16, ReadI16;
    if |Encode(i)| >= 3 {
      assert code[pc + 1] == Encode(i)[1] && code[pc + 2] == Encode(i)[2];
      if i.ISignalOn? {
        assert code[pc + 3] == Encode(i)[3];
        IndexReadBack(code, pc + 2, i.s);
      } else {
        if i.ICall? { assert code[pc + 3] == Encode(i)[3]; }
        IndexReadBack(code, pc + 1, i.s);
      }
    } else if |Encode(i)| == 2 {
      assert code[pc + 1] == Encode(i)[1];
    }
  }

  /** What was encoded is decoded, and the opcode alone tells its length. */
  lemma EncodedIsDecoded(code: seq<Byte>, pc: nat, i: Instr)
    requires Encodable(i) && Has(code, pc, Encode(i))
    ensures Decode(code, pc) == i && OpSize(code[pc]) == |Encode(i)|
  {
    hide Encode, Encodable, DecodeBasic, DecodeLoop, DecodeCall;
    var s := Encode(i);
    EncodeNonEmpty(i);
    forall j | 0 <= j < |s| ensures code[pc + j] == s[j] { HasAt(code, pc, s, j); }
    assert code[pc + 0] == s[0];
    if i.IBin? {
      BinaryCodes(i.op);
    } else if code[pc] < 0x70 {
      DecodedBasic(code, pc, i);
    } else if code[pc] < 0x78 {
      DecodedLoop(code, pc, i);
    } else {
      DecodedCall(code, pc, i);
    }
  }

  lemma EncodeNonEmpty(i: Instr)
    requires Encodable(i)
    ensures 1 <= |Encode(i)| <= 4
    ensures i.IBin? ==> Encode(i) == [CodeOf(i.op)]
  {
  }

  // ---- The compiled program ----------------------------------------------

  /** Constant and symbol tables. */
  datatype Tabs = Tabs(consts: seq<string>, syms: seq<string>)

  datatype Image = Image(code: seq<Byte>, tabs: Tabs)
}
