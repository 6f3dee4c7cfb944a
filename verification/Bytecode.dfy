/** The instructions the fragment compiles to and their 32-bit encoding. */
module Bytecode {
  import opened Options
  import opened Syntax
  import opened Division

  datatype Guard = IfFalse | IfTrue | IfNullish

  /** Operands are unbounded here; `Encode` truncates them to their bit fields. */
  datatype Instr =
    | LoadConst(a: int, bx: int)
    | LoadInt(a: int, s: int)
    | LoadBool(a: int, b: int)
    | LoadNull(a: int)
    | LoadUndefined(a: int)
    | LoadGlobal(a: int, bx: int)
    | StoreGlobal(a: int, bx: int)
    | Move(a: int, b: int)
    | BinaryOp(op: BinOp, a: int, b: int, c: int)
    | UnaryOp(unop: UnOp, a: int, b: int)
    | Jump(s: int)
    | JumpIf(guard: Guard, a: int, s: int)
    | Return(a: int)
    | ThrowReg(a: int)
    | TryBegin(s: int)
    | TryEnd
    | CatchBegin(a: int)
    | Illegal(w: int)

  function BinOpcode(op: BinOp): (r: int)
    ensures 0 <= r < 256
  {
    match op
    case Add => 13 case Sub => 14 case Mul => 15 case Div => 16 case Mod => 17 case Pow => 18
    case Lt => 20 case Le => 21 case Gt => 22 case Ge => 23
    case Eq => 24 case Ne => 25 case EqLoose => 26 case NeLoose => 27
    case In => 28 case InstanceOf => 29
    case BitAnd => 34 case BitOr => 35 case BitXor => 36
    case Shl => 38 case Shr => 39 case Ushr => 40
  }

  function UnOpcode(op: UnOp): int {
    match op
    case Not => 30 case Neg => 31 case TypeOf => 32 case Void => 33 case BitNot => 37
  }

  function MakeABC(op: int, a: int, b: int, c: int): int {
    op + 0x100 * (a % 0x100) + 0x1_0000 * (b % 0x100) + 0x100_0000 * (c % 0x100)
  }

  function MakeABx(op: int, a: int, bx: int): int {
    op + 0x100 * (a % 0x100) + 0x1_0000 * (bx % 0x1_0000)
  }

  /** Serves both the unsigned and the signed 16-bit layout. */
  function MakeAsBx(op: int, a: int, s: int): int {
    MakeABx(op, a, s)
  }

  function InstOp(w: int): int { w % 0x100 }
  function InstA(w: int): int { w / 0x100 % 0x100 }
  function InstB(w: int): int { w / 0x1_0000 % 0x100 }
  function InstC(w: int): int { w / 0x100_0000 % 0x100 }
  function InstBx(w: int): int { w / 0x1_0000 % 0x1_0000 }
  function InstSBx(w: int): int {
    if InstBx(w) >= 0x8000 then InstBx(w) - 0x1_0000 else InstBx(w)
  }

  function Encode(i: Instr): int {
    match i
    case LoadConst(a, bx) => MakeABx(0, a, bx)
    case LoadInt(a, s) => MakeAsBx(1, a, s)
    case LoadBool(a, b) => MakeABC(2, a, b, 0)
    case LoadNull(a) => MakeABC(3, a, 0, 0)
    case LoadUndefined(a) => MakeABC(4, a, 0, 0)
    case LoadGlobal(a, bx) => MakeABx(5, a, bx)
    case StoreGlobal(a, bx) => MakeABx(6, a, bx)
    case Move(a, b) => MakeABC(12, a, b, 0)
    case BinaryOp(op, a, b, c) => MakeABC(BinOpcode(op), a, b, c)
    case UnaryOp(op, a, b) => MakeABC(UnOpcode(op), a, b, 0)
    case Jump(s) => MakeAsBx(43, 0, s)
    case JumpIf(IfFalse, a, s) => MakeAsBx(44, a, s)
    case JumpIf(IfTrue, a, s) => MakeAsBx(45, a, s)
    case JumpIf(IfNullish, a, s) => MakeAsBx(46, a, s)
    case Return(a) => MakeABC(49, a, 0, 0)
    case ThrowReg(a) => MakeABC(50, a, 0, 0)
    case TryBegin(s) => MakeAsBx(51, 0, s)
    case TryEnd => MakeABC(52, 0, 0, 0)
    case CatchBegin(a) => MakeABC(53, a, 0, 0)
    case Illegal(w) => w
  }

  function DecodeBinOp(op: int): Option<BinOp> {
    match op
    case 13 => Some(Add) case 14 => Some(Sub) case 15 => Some(Mul) case 16 => Some(Div)
    case 17 => Some(Mod) case 18 => Some(Pow)
    case 20 => Some(Lt) case 21 => Some(Le) case 22 => Some(Gt) case 23 => Some(Ge)
    case 24 => Some(Eq) case 25 => Some(Ne) case 26 => Some(EqLoose) case 27 => Some(NeLoose)
    case 28 => Some(In) case 29 => Some(InstanceOf)
    case 34 => Some(BitAnd) case 35 => Some(BitOr) case 36 => Some(BitXor)
    case 38 => Some(Shl) case 39 => Some(Shr) case 40 => Some(Ushr)
    case _ => None
  }

  function DecodeUnOp(op: int): Option<UnOp> {
    match op
    case 30 => Some(Not) case 31 => Some(Neg) case 32 => Some(TypeOf) case 33 => Some(Void)
    case 37 => Some(BitNot)
    case _ => None
  }

  /** The instruction with the given opcode and fields. */
  function Assemble(op: int, a: int, b: int, c: int, bx: int, s: int): Instr {
    match op
    case 0 => LoadConst(a, bx)
    case 1 => LoadInt(a, s)
    case 2 => LoadBool(a, b)
    case 3 => LoadNull(a)
    case 4 => LoadUndefined(a)
    case 5 => LoadGlobal(a, bx)
    case 6 => StoreGlobal(a, bx)
    case 12 => Move(a, b)
    case 43 => Jump(s)
    case 44 => JumpIf(IfFalse, a, s)
    case 45 => JumpIf(IfTrue, a, s)
    case 46 => JumpIf(IfNullish, a, s)
    case 49 => Return(a)
    case 50 => ThrowReg(a)
    case 51 => TryBegin(s)
    case 52 => TryEnd
    case 53 => CatchBegin(a)
    case _ =>
      if DecodeBinOp(op).Some? then BinaryOp(DecodeBinOp(op).value, a, b, c)
      else if DecodeUnOp(op).Some? then UnaryOp(DecodeUnOp(op).value, a, b)
      else Illegal(op)
  }

  /** The instruction the dispatch loop of the machine sees in a word. */
  function Decode(w: int): Instr {
    Assemble(InstOp(w), InstA(w), InstB(w), InstC(w), InstBx(w), InstSBx(w))
  }

  /** The instructions of the machine in the order of their opcodes. */
  const LOADS: seq<string> := [
    "LOAD_CONST", "LOAD_INT", "LOAD_BOOL", "LOAD_NULL", "LOAD_UNDEFINED", "LOAD_GLOBAL", "STORE_GLOBAL",
    "LOAD_ENV", "STORE_ENV", "LOAD_PROP", "STORE_PROP", "DELETE_PROP", "MOVE"]
  const ARITHMETIC: seq<string> := ["ADD", "SUB", "MUL", "DIV", "MOD", "POW", "CONCAT"]
  const COMPARISONS: seq<string> := [
    "LT", "LE", "GT", "GE", "EQ", "NE", "EQ_LOOSE", "NE_LOOSE", "IN", "INSTANCEOF"]
  const OTHERS: seq<string> := [
    "NOT", "NEG", "TYPEOF", "VOID", "BITAND", "BITOR", "BITXOR", "BITNOT", "SHL", "SHR", "USHR", "INC", "DEC"]
  const CONTROL: seq<string> := [
    "JUMP", "JUMP_IF_FALSE", "JUMP_IF_TRUE", "JUMP_IF_NULLISH", "CALL", "NEW_CALL", "RETURN",
    "THROW", "TRY_BEGIN", "TRY_END", "CATCH_BEGIN"]
  const OPCODES: seq<string> := LOADS + ARITHMETIC + COMPARISONS + OTHERS + CONTROL

  function BinName(op: BinOp): string {
    match op
    case Add => "ADD" case Sub => "SUB" case Mul => "MUL" case Div => "DIV" case Mod => "MOD" case Pow => "POW"
    case Lt => "LT" case Le => "LE" case Gt => "GT" case Ge => "GE"
    case Eq => "EQ" case Ne => "NE" case EqLoose => "EQ_LOOSE" case NeLoose => "NE_LOOSE"
    case In => "IN" case InstanceOf => "INSTANCEOF"
    case BitAnd => "BITAND" case BitOr => "BITOR" case BitXor => "BITXOR"
    case Shl => "SHL" case Shr => "SHR" case Ushr => "USHR"
  }

  function UnName(op: UnOp): string {
    match op
    case Not => "NOT" case Neg => "NEG" case TypeOf => "TYPEOF" case Void => "VOID" case BitNot => "BITNOT"
  }

  function Name(i: Instr): string
    requires !i.Illegal?
  {
    match i
    case LoadConst(_, _) => "LOAD_CONST"
    case LoadInt(_, _) => "LOAD_INT"
    case LoadBool(_, _) => "LOAD_BOOL"
    case LoadNull(_) => "LOAD_NULL"
    case LoadUndefined(_) => "LOAD_UNDEFINED"
    case LoadGlobal(_, _) => "LOAD_GLOBAL"
    case StoreGlobal(_, _) => "STORE_GLOBAL"
    case Move(_, _) => "MOVE"
    case BinaryOp(op, _, _, _) => BinName(op)
    case UnaryOp(op, _, _) => UnName(op)
    case Jump(_) => "JUMP"
    case JumpIf(IfFalse, _, _) => "JUMP_IF_FALSE"
    case JumpIf(IfTrue, _, _) => "JUMP_IF_TRUE"
    case JumpIf(IfNullish, _, _) => "JUMP_IF_NULLISH"
    case Return(_) => "RETURN"
    case ThrowReg(_) => "THROW"
    case TryBegin(_) => "TRY_BEGIN"
    case TryEnd => "TRY_END"
    case CatchBegin(_) => "CATCH_BEGIN"
  }

  lemma OpField(op: int, a: int, b: int, c: int)
    requires 0 <= op < 256
    ensures InstOp(MakeABC(op, a, b, c)) == op && InstOp(MakeABx(op, a, b)) == op
  {
    Quotient(MakeABC(op, a, b, c), 0x100, a % 0x100 + 0x100 * (b % 0x100) + 0x1_0000 * (c % 0x100), op);
    Quotient(MakeABx(op, a, b), 0x100, a % 0x100 + 0x100 * (b % 0x1_0000), op);
  }

  function Opcode(i: Instr): (op: int)
    requires !i.Illegal?
    ensures 0 <= op < 256
  {
    match i
    case LoadConst(_, _) => 0
    case LoadInt(_, _) => 1
    case LoadBool(_, _) => 2
    case LoadNull(_) => 3
    case LoadUndefined(_) => 4
    case LoadGlobal(_, _) => 5
    case StoreGlobal(_, _) => 6
    case Move(_, _) => 12
    case BinaryOp(op, _, _, _) => BinOpcode(op)
    case UnaryOp(op, _, _) => UnOpcode(op)
    case Jump(_) => 43
    case JumpIf(IfFalse, _, _) => 44
    case JumpIf(IfTrue, _, _) => 45
    case JumpIf(IfNullish, _, _) => 46
    case Return(_) => 49
    case ThrowReg(_) => 50
    case TryBegin(_) => 51
    case TryEnd => 52
    case CatchBegin(_) => 53
  }

  lemma EncodedOpcode(i: Instr)
    requires !i.Illegal?
    ensures InstOp(Encode(i)) == Opcode(i)
  {
    hide InstOp, MakeABC, MakeABx;
    var op := Opcode(i);
    match i
    case LoadConst(a, bx) => OpField(op, a, bx, 0);
    case LoadInt(a, s) => OpField(op, a, s, 0);
    case LoadBool(a, b) => OpField(op, a, b, 0);
    case LoadNull(a) => OpField(op, a, 0, 0);
    case LoadUndefined(a) => OpField(op, a, 0, 0);
    case LoadGlobal(a, bx) => OpField(op, a, bx, 0);
    case StoreGlobal(a, bx) => OpField(op, a, bx, 0);
    case Move(a, b) => OpField(op, a, b, 0);
    case BinaryOp(_, a, b, c) => OpField(op, a, b, c);
    case UnaryOp(_, a, b) => OpField(op, a, b, 0);
    case Jump(s) => OpField(op, 0, s, 0);
    case JumpIf(_, a, s) => OpField(op, a, s, 0);
    case Return(a) => OpField(op, a, 0, 0);
    case ThrowReg(a) => OpField(op, a, 0, 0);
    case TryBegin(s) => OpField(op, 0, s, 0);
    case TryEnd => OpField(op, 0, 0, 0);
    case CatchBegin(a) => OpField(op, a, 0, 0);
  }

  /** The opcode in an encoded instruction is the position of its name in the list. */
  lemma OpcodePosition(i: Instr)
    requires !i.Illegal?
    ensures var op := InstOp(Encode(i)); 0 <= op < |OPCODES| && OPCODES[op] == Name(i)
  {
    hide InstOp, Encode;
    EncodedOpcode(i);
    hide Name, Opcode;
    if i.BinaryOp? || i.UnaryOp? {
      OperatorPosition(i);
    } else {
      OtherPosition(i);
    }
  }

  lemma ListParts()
    ensures |LOADS| == 13 && |ARITHMETIC| == 7 && |COMPARISONS| == 10 && |OTHERS| == 13 && |CONTROL| == 11
    ensures |OPCODES| == 54
    ensures forall k :: 0 <= k < 13 ==> OPCODES[k] == LOADS[k]
    ensures forall k :: 13 <= k < 20 ==> OPCODES[k] == ARITHMETIC[k - 13]
    ensures forall k :: 20 <= k < 30 ==> OPCODES[k] == COMPARISONS[k - 20]
    ensures forall k :: 30 <= k < 43 ==> OPCODES[k] == OTHERS[k - 30]
    ensures forall k :: 43 <= k < 54 ==> OPCODES[k] == CONTROL[k - 43]
  {
  }

  lemma OperatorPosition(i: Instr)
    requires i.BinaryOp? || i.UnaryOp?
    ensures 0 <= Opcode(i) < |OPCODES| && OPCODES[Opcode(i)] == Name(i)
  {
    hide OPCODES;
    ListParts();
  }

  lemma OtherPosition(i: Instr)
    requires !i.BinaryOp? && !i.UnaryOp? && !i.Illegal?
    ensures 0 <= Opcode(i) < |OPCODES| && OPCODES[Opcode(i)] == Name(i)
  {
    hide OPCODES;
    ListParts();
  }

  /** Byte `k` of a word, the lowest first. */
  function ByteOf(w: int, k: nat): int
    decreases k
  {
    if k == 0 then w % 256 else ByteOf(w / 256, k - 1)
  }

  /** The opcode is the lowest byte, the operands follow; a wide operand takes the upper two. */
  lemma WordLayout(op: int, a: int, b: int, c: int, bx: int)
    requires 0 <= op < 256 && 0 <= a < 256 && 0 <= b < 256 && 0 <= c < 256 && 0 <= bx < 0x1_0000
    ensures var w := MakeABC(op, a, b, c);
            ByteOf(w, 0) == op && ByteOf(w, 1) == a && ByteOf(w, 2) == b && ByteOf(w, 3) == c
    ensures var w := MakeABx(op, a, bx);
            ByteOf(w, 0) == op && ByteOf(w, 1) == a && ByteOf(w, 2) + 256 * ByteOf(w, 3) == bx
  {
    Quotient(a, 256, 0, a);
    Quotient(b, 256, 0, b);
    Quotient(c, 256, 0, c);
    Quotient(bx, 0x1_0000, 0, bx);
    FourBytes(MakeABC(op, a, b, c), op, a, b, c);
    FourBytes(MakeABx(op, a, bx), op, a, bx % 256, bx / 256);
  }

  lemma FourBytes(w: int, b0: int, b1: int, b2: int, b3: int)
    requires 0 <= b0 < 256 && 0 <= b1 < 256 && 0 <= b2 < 256 && 0 <= b3 < 256
    requires w == b0 + 0x100 * b1 + 0x1_0000 * b2 + 0x100_0000 * b3
    ensures ByteOf(w, 0) == b0 && ByteOf(w, 1) == b1 && ByteOf(w, 2) == b2 && ByteOf(w, 3) == b3
  {
    var w1, w2 := b1 + 0x100 * b2 + 0x1_0000 * b3, b2 + 0x100 * b3;
    Quotient(w, 256, w1, b0);
    Quotient(w1, 256, w2, b1);
    Quotient(w2, 256, b3, b2);
    Quotient(b3, 256, 0, b3);
    assert ByteOf(w, 1) == ByteOf(w1, 0) && ByteOf(w, 2) == ByteOf(w1, 1) == ByteOf(w2, 0);
    assert ByteOf(w, 3) == ByteOf(w1, 2) == ByteOf(w2, 1) == ByteOf(b3, 0);
  }

  function EncodeAll(code: seq<Instr>): (words: seq<int>)
    ensures |words| == |code|
  {
    seq(|code|, i requires 0 <= i < |code| => Encode(code[i]))
  }

  function DecodeAll(words: seq<int>): seq<Instr> {
    seq(|words|, i requires 0 <= i < |words| => Decode(words[i]))
  }

  predicate IsReg(r: int, regs: int) { 0 <= r < regs }

  predicate IsOffset(s: int, span: int) { -span <= s <= span }

  /** All operands lie below the given register count, pool size and jump span. */
  predicate Fits(i: Instr, regs: int, pool: int, span: int) {
    match i
    case LoadConst(a, bx) => IsReg(a, regs) && 0 <= bx < pool
    case LoadInt(a, s) => IsReg(a, regs) && -0x8000 <= s < 0x8000
    case LoadBool(a, b) => IsReg(a, regs) && 0 <= b <= 1
    case LoadNull(a) => IsReg(a, regs)
    case LoadUndefined(a) => IsReg(a, regs)
    case LoadGlobal(a, bx) => IsReg(a, regs) && 0 <= bx < pool
    case StoreGlobal(a, bx) => IsReg(a, regs) && 0 <= bx < pool
    case Move(a, b) => IsReg(a, regs) && IsReg(b, regs)
    case BinaryOp(_, a, b, c) => IsReg(a, regs) && IsReg(b, regs) && IsReg(c, regs)
    case UnaryOp(_, a, b) => IsReg(a, regs) && IsReg(b, regs)
    case Jump(s) => IsOffset(s, span)
    case JumpIf(_, a, s) => IsReg(a, regs) && IsOffset(s, span)
    case Return(a) => IsReg(a, regs)
    case ThrowReg(a) => IsReg(a, regs)
    case TryBegin(s) => IsOffset(s, span)
    case TryEnd => true
    case CatchBegin(a) => IsReg(a, regs)
    case Illegal(_) => false
  }

  predicate AllFit(code: seq<Instr>, regs: int, pool: int, span: int) {
    forall i :: 0 <= i < |code| ==> Fits(code[i], regs, pool, span)
  }

  lemma FieldsABC(op: int, a: int, b: int, c: int, w: int)
    requires 0 <= op < 256 && 0 <= a < 256 && 0 <= b < 256 && 0 <= c < 256
    requires w == op + 0x100 * a + 0x1_0000 * b + 0x100_0000 * c
    ensures InstOp(w) == op && InstA(w) == a && InstB(w) == b && InstC(w) == c
  {
    Quotient(w, 0x100, a + 0x100 * b + 0x1_0000 * c, op);
    Quotient(a + 0x100 * b + 0x1_0000 * c, 0x100, b + 0x100 * c, a);
    Quotient(w, 0x1_0000, b + 0x100 * c, op + 0x100 * a);
    Quotient(b + 0x100 * c, 0x100, c, b);
    Quotient(w, 0x100_0000, c, op + 0x100 * a + 0x1_0000 * b);
    Quotient(c, 0x100, 0, c);
  }

  lemma FieldsABx(op: int, a: int, bx: int, w: int)
    requires 0 <= op < 256 && 0 <= a < 256 && 0 <= bx < 0x1_0000
    requires w == op + 0x100 * a + 0x1_0000 * bx
    ensures InstOp(w) == op && InstA(w) == a && InstBx(w) == bx
  {
    Quotient(w, 0x100, a + 0x100 * bx, op);
    Quotient(a + 0x100 * bx, 0x100, bx, a);
    Quotient(w, 0x1_0000, bx, op + 0x100 * a);
    Quotient(bx, 0x1_0000, 0, bx);
  }

  lemma SignedField(op: int, a: int, s: int, w: int)
    requires 0 <= op < 256 && 0 <= a < 256 && -0x8000 <= s < 0x8000
    requires w == op + 0x100 * a + 0x1_0000 * (s % 0x1_0000)
    ensures InstOp(w) == op && InstA(w) == a && InstSBx(w) == s
  {
    hide InstOp, InstA;
    FieldsABx(op, a, s % 0x1_0000, w);
    Quotient(s, 0x1_0000, if s < 0 then -1 else 0, if s < 0 then s + 0x1_0000 else s);
  }

  lemma DecodeABC(op: int, a: int, b: int, c: int)
    requires 0 <= op < 256 && 0 <= a < 256 && 0 <= b < 256 && 0 <= c < 256
    ensures var w := MakeABC(op, a, b, c);
            Decode(w) == Assemble(op, a, b, c, InstBx(w), InstSBx(w))
  {
    hide InstOp, InstA, InstB, InstC, InstBx, InstSBx, Assemble;
    FieldsABC(op, a, b, c, MakeABC(op, a, b, c));
  }

  lemma DecodeABx(op: int, a: int, bx: int)
    requires 0 <= op < 256 && 0 <= a < 256 && 0 <= bx < 0x1_0000
    ensures var w := MakeABx(op, a, bx);
            Decode(w) == Assemble(op, a, InstB(w), InstC(w), bx, InstSBx(w))
  {
    hide InstOp, InstA, InstB, InstC, InstBx, InstSBx, Assemble;
    FieldsABx(op, a, bx, MakeABx(op, a, bx));
  }

  lemma DecodeAsBx(op: int, a: int, s: int)
    requires 0 <= op < 256 && 0 <= a < 256 && -0x8000 <= s < 0x8000
    ensures var w := MakeAsBx(op, a, s);
            Decode(w) == Assemble(op, a, InstB(w), InstC(w), InstBx(w), s)
  {
    hide InstOp, InstA, InstB, InstC, InstBx, InstSBx, Assemble;
    SignedField(op, a, s, MakeAsBx(op, a, s));
  }

  lemma DecodeLoads(i: Instr)
    requires Fits(i, 0x100, 0x1_0000, 0x7FFF)
    requires || i.LoadConst? || i.LoadInt? || i.LoadBool? || i.LoadNull? || i.LoadUndefined?
             || i.LoadGlobal? || i.StoreGlobal? || i.Move?
    ensures Decode(Encode(i)) == i
  {
    hide Decode;
    match i
    case LoadConst(a, bx) => DecodeABx(0, a, bx);
    case LoadInt(a, s) => DecodeAsBx(1, a, s);
    case LoadBool(a, b) => DecodeABC(2, a, b, 0);
    case LoadNull(a) => DecodeABC(3, a, 0, 0);
    case LoadUndefined(a) => DecodeABC(4, a, 0, 0);
    case LoadGlobal(a, bx) => DecodeABx(5, a, bx);
    case StoreGlobal(a, bx) => DecodeABx(6, a, bx);
    case Move(a, b) => DecodeABC(12, a, b, 0);
  }

  lemma DecodeControl(i: Instr)
    requires Fits(i, 0x100, 0x1_0000, 0x7FFF)
    requires i.Jump? || i.JumpIf? || i.Return? || i.ThrowReg? || i.TryBegin? || i.TryEnd? || i.CatchBegin?
    ensures Decode(Encode(i)) == i
  {
    hide Decode;
    match i
    case Jump(s) => DecodeAsBx(43, 0, s);
    case JumpIf(IfFalse, a, s) => DecodeAsBx(44, a, s);
    case JumpIf(IfTrue, a, s) => DecodeAsBx(45, a, s);
    case JumpIf(IfNullish, a, s) => DecodeAsBx(46, a, s);
    case Return(a) => DecodeABC(49, a, 0, 0);
    case ThrowReg(a) => DecodeABC(50, a, 0, 0);
    case TryBegin(s) => DecodeAsBx(51, 0, s);
    case TryEnd => DecodeABC(52, 0, 0, 0);
    case CatchBegin(a) => DecodeABC(53, a, 0, 0);
  }

  lemma DecodeOperators(i: Instr)
    requires Fits(i, 0x100, 0x1_0000, 0x7FFF) && (i.BinaryOp? || i.UnaryOp?)
    ensures Decode(Encode(i)) == i
  {
    hide Decode;
    match i
    case BinaryOp(op, a, b, c) => DecodeABC(BinOpcode(op), a, b, c);
    case UnaryOp(op, a, b) => DecodeABC(UnOpcode(op), a, b, 0);
  }

  /** Decoding undoes encoding for every instruction whose operands fit their fields. */
  lemma DecodeEncode(i: Instr)
    requires Fits(i, 0x100, 0x1_0000, 0x7FFF)
    ensures Decode(Encode(i)) == i
  {
    hide Decode, Encode;
    if i.BinaryOp? || i.UnaryOp? {
      DecodeOperators(i);
    } else if i.Jump? || i.JumpIf? || i.Return? || i.ThrowReg? || i.TryBegin? || i.TryEnd? || i.CatchBegin? {
      DecodeControl(i);
    } else {
      DecodeLoads(i);
    }
  }

  lemma DecodeEncodeAll(code: seq<Instr>)
    requires AllFit(code, 0x100, 0x1_0000, 0x7FFF)
    ensures DecodeAll(EncodeAll(code)) == code
  {
    forall i | 0 <= i < |code|
      ensures DecodeAll(EncodeAll(code))[i] == code[i]
    {
      DecodeEncode(code[i]);
    }
  }
}
