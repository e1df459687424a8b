/** Bytecode instructions, and their bytes. */
module IrCode {
  import opened Options

  type Byte = b: nat | b < 256

  type Code = seq<Byte>

  /** Operators of two operands that are one instruction. */
  datatype BinaryOp =
    | Add | Sub | Mul | Div | IntDiv | Mod | Concat | Comma
    | Eq | Ne | Lt | Le | Gt | Ge | GenEq | GenNe | GenLt | GenLe | GenGt | GenGe
    | Is | Precedes | Follows | Union | Intersect | Except | Range | Lookup

  datatype UnaryOp = Plus | Minus | CurlyArray | WildcardLookup | Deduplicate

  datatype Instruction =
    | Operate2(op2: BinaryOp)
    | Operate1(op1: UnaryOp)
    | Const(index: nat) | Var(index: nat) | Set(index: nat) | ClosureVar(index: nat)
    | Jump(displacement: int) | JumpIfTrue(displacement: int) | JumpIfFalse(displacement: int)
    | Dup | Pop | LetDone | Return
    | SequenceLen | SequenceGet | BuildNew | BuildPush | BuildComplete | IsNumeric

  const MAX_INDEX := 0xFFFF
  const MAX_JUMP := 0x7FFF

  // ----- opcodes -----

  function Opcode2(op: BinaryOp): Byte {
    match op
    case Add => 0 case Sub => 1 case Mul => 2 case Div => 3 case IntDiv => 4 case Mod => 5
    case Concat => 8 case Comma => 15
    case Eq => 19 case Ne => 20 case Lt => 21 case Le => 22 case Gt => 23 case Ge => 24
    case GenEq => 25 case GenNe => 26 case GenLt => 27 case GenLe => 28 case GenGt => 29 case GenGe => 30
    case Is => 31 case Precedes => 32 case Follows => 33 case Union => 34 case Intersect => 35 case Except => 36
    case Lookup => 41 case Range => 54
  }

  function Operator2(b: Byte): Option<BinaryOp> {
    match b
    case 0 => Some(Add) case 1 => Some(Sub) case 2 => Some(Mul) case 3 => Some(Div) case 4 => Some(IntDiv) case 5 => Some(Mod)
    case 8 => Some(Concat) case 15 => Some(Comma)
    case 19 => Some(Eq) case 20 => Some(Ne) case 21 => Some(Lt) case 22 => Some(Le) case 23 => Some(Gt) case 24 => Some(Ge)
    case 25 => Some(GenEq) case 26 => Some(GenNe) case 27 => Some(GenLt) case 28 => Some(GenLe) case 29 => Some(GenGt)
    case 30 => Some(GenGe) case 31 => Some(Is) case 32 => Some(Precedes) case 33 => Some(Follows) case 34 => Some(Union)
    case 35 => Some(Intersect) case 36 => Some(Except) case 41 => Some(Lookup) case 54 => Some(Range)
    case _ => None
  }

  function Opcode1(op: UnaryOp): Byte {
    match op
    case Plus => 6 case Minus => 7 case CurlyArray => 16 case WildcardLookup => 42 case Deduplicate => 44
  }

  function Operator1(b: Byte): Option<UnaryOp> {
    match b
    case 6 => Some(Plus) case 7 => Some(Minus) case 16 => Some(CurlyArray) case 42 => Some(WildcardLookup)
    case 44 => Some(Deduplicate)
    case _ => None
  }

  /** Instructions of one byte that are not operators. */
  function Plain(b: Byte): Option<Instruction> {
    match b
    case 45 => Some(Return) case 47 => Some(Dup) case 48 => Some(Pop) case 49 => Some(LetDone)
    case 55 => Some(SequenceLen) case 56 => Some(SequenceGet) case 57 => Some(BuildNew) case 58 => Some(BuildPush)
    case 59 => Some(BuildComplete) case 60 => Some(IsNumeric)
    case _ => None
  }

  // ----- encoding -----

  /** Sixteen bits, the low byte first. */
  function LittleEndian(n: nat): Code
    requires n < 0x10000
  {
    [n % 256, n / 256]
  }

  /** A signed displacement as sixteen bits. */
  function Signed(d: int): nat
    requires -0x8000 <= d <= MAX_JUMP
    ensures Signed(d) < 0x10000
  {
    if d < 0 then d + 0x10000 else d
  }

  function FromSigned(n: nat): int {
    if n >= 0x8000 then n - 0x10000 else n
  }

  /** The field of an instruction holds its operand. */
  predicate Fits(i: Instruction) {
    match i
    case Const(k) => k <= MAX_INDEX
    case Var(k) => k <= MAX_INDEX
    case Set(k) => k <= MAX_INDEX
    case ClosureVar(k) => k <= MAX_INDEX
    case Jump(d) => -0x8000 <= d <= MAX_JUMP
    case JumpIfTrue(d) => -0x8000 <= d <= MAX_JUMP
    case JumpIfFalse(d) => -0x8000 <= d <= MAX_JUMP
    case _ => true
  }

  function Encode(i: Instruction): Code
    requires Fits(i)
  {
    match i
    case Operate2(op) => [Opcode2(op)]
    case Operate1(op) => [Opcode1(op)]
    case Const(k) => [9] + LittleEndian(k)
    case Var(k) => [12] + LittleEndian(k)
    case Set(k) => [13] + LittleEndian(k)
    case ClosureVar(k) => [14] + LittleEndian(k)
    case Jump(d) => [37] + LittleEndian(Signed(d))
    case JumpIfTrue(d) => [38] + LittleEndian(Signed(d))
    case JumpIfFalse(d) => [39] + LittleEndian(Signed(d))
    case Return => [45]
    case Dup => [47]
    case Pop => [48]
    case LetDone => [49]
    case SequenceLen => [55]
    case SequenceGet => [56]
    case BuildNew => [57]
    case BuildPush => [58]
    case BuildComplete => [59]
    case IsNumeric => [60]
  }

  function Size(i: Instruction): nat {
    if i.Const? || i.Var? || i.Set? || i.ClosureVar? || i.Jump? || i.JumpIfTrue? || i.JumpIfFalse? then 3 else 1
  }

  function Wide(opcode: Byte, n: nat): Option<Instruction> {
    match opcode
    case 9 => Some(Const(n)) case 12 => Some(Var(n)) case 13 => Some(Set(n)) case 14 => Some(ClosureVar(n))
    case 37 => Some(Jump(FromSigned(n))) case 38 => Some(JumpIfTrue(FromSigned(n))) case 39 => Some(JumpIfFalse(FromSigned(n)))
    case _ => None
  }

  /** The instruction at `ip`. */
  function Decode(code: Code, ip: nat): Option<Instruction> {
    if ip >= |code| then None
    else if Operator2(code[ip]).Some? then Some(Operate2(Operator2(code[ip]).value))
    else if Operator1(code[ip]).Some? then Some(Operate1(Operator1(code[ip]).value))
    else if Plain(code[ip]).Some? then Plain(code[ip])
    else if ip + 2 < |code| then Wide(code[ip], code[ip + 1] as int + 256 * code[ip + 2] as int)
    else None
  }

  // ----- code in a program -----

  predicate Holds(code: Code, at: nat, c: Code) {
    at + |c| <= |code| && code[at..at + |c|] == c
  }

  lemma HoldsParts(code: Code, at: nat, a: Code, b: Code)
    ensures Holds(code, at, a + b) <==> Holds(code, at, a) && Holds(code, at + |a|, b)
  {
    if Holds(code, at, a + b) {
      assert code[at..at + |a|] == code[at..at + |a + b|][..|a|];
      assert code[at + |a|..at + |a| + |b|] == code[at..at + |a + b|][|a|..];
    }
    if Holds(code, at, a) && Holds(code, at + |a|, b) {
      assert code[at..at + |a + b|] == code[at..at + |a|] + code[at + |a|..at + |a| + |b|];
    }
  }

  lemma HoldsByte(code: Code, at: nat, c: Code, k: nat)
    requires Holds(code, at, c) && k < |c|
    ensures at + k < |code| && code[at + k] == c[k]
  {
    assert code[at..at + |c|][k] == code[at + k];
  }

  lemma EncodeSize(i: Instruction)
    requires Fits(i)
    ensures |Encode(i)| == Size(i)
  {
  }

  /** An opcode names its instruction only. */
  lemma Opcodes(i: Instruction)
    requires Fits(i)
    ensures var b := Encode(i)[0];
            if Size(i) == 3 then
              Operator2(b).None? && Operator1(b).None? && Plain(b).None?
              && |Encode(i)| == 3 && Wide(b, Encode(i)[1] as int + 256 * Encode(i)[2] as int) == Some(i)
            else if i.Operate2? then Operator2(b) == Some(i.op2)
            else if i.Operate1? then Operator2(b).None? && Operator1(b) == Some(i.op1)
            else Operator2(b).None? && Operator1(b).None? && Plain(b) == Some(i)
  {
    match i
    case Const(k) =>
    case Var(k) =>
    case Set(k) =>
    case ClosureVar(k) =>
    case Jump(d) =>
    case JumpIfTrue(d) =>
    case JumpIfFalse(d) =>
    case _ =>
  }

  /** What is encoded is decoded, wherever it stands. */
  lemma DecodesEncoded(code: Code, at: nat, i: Instruction)
    requires Fits(i) && Holds(code, at, Encode(i))
    ensures Decode(code, at) == Some(i)
  {
    hide Holds, Encode, Operator2, Operator1, Plain, Wide, Fits;
    var c := Encode(i);
    EncodeSize(i);
    Opcodes(i);
    HoldsByte(code, at, c, 0);
    if Size(i) == 3 {
      HoldsByte(code, at, c, 1);
      HoldsByte(code, at, c, 2);
    }
  }
}
