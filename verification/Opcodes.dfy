/** The numeric encoding of instructions, and the interpreter's reading of it. */
module Opcodes {
  import opened Words
  import opened Ir

  type Code = c: int | 0 <= c < 0x1_0000

  /** An instruction of a finished filter program. */
  datatype Insn = Insn(code: Code, jt: Octet, jf: Octet, k: Word)

  // Instruction classes
  const LD: Code := 0x00
  const LDX: Code := 0x01
  const ST: Code := 0x02
  const STX: Code := 0x03
  const ALU: Code := 0x04
  const JMP: Code := 0x05
  const RET: Code := 0x06
  const MISC: Code := 0x07

  // Addressing modes
  const IMM: Code := 0x00
  const ABS: Code := 0x20
  const IND: Code := 0x40
  const MEM: Code := 0x60
  const LEN: Code := 0x80
  const MSH: Code := 0xa0

  // The fields of a code
  function Class(c: Code): Code { c % 8 }
  function Mode(c: Code): Code { (c / 0x20) % 8 * 0x20 }
  function OpField(c: Code): Code { (c / 0x10) % 16 * 0x10 }
  function RVal(c: Code): Code { (c / 8) % 4 * 8 }

  function SizeField(s: Size): Code { match s case W => 0x00 case H => 0x08 case B => 0x10 }

  function SrcField(o: Operand): Code { match o case K => 0x00 case X => 0x08 }

  function AluField(op: AluOp): Code {
    match op
    case Add => 0x00 case Sub => 0x10 case Mul => 0x20 case Div => 0x30
    case Or => 0x40 case And => 0x50 case Lsh => 0x60 case Rsh => 0x70
  }

  function TestField(t: Test): Code {
    match t case JEQ => 0x10 case JGT => 0x20 case JGE => 0x30 case JSET => 0x40
  }

  /** The code of a statement; a deleted statement is never emitted. */
  function OpCode(op: Op): Code
    requires !op.Nop?
  {
    match op
    case LdAbs(s) => LD + ABS + SizeField(s)
    case LdInd(s) => LD + IND + SizeField(s)
    case LdLen => LD + LEN
    case LdImm => LD + IMM
    case LdMem => LD + MEM
    case LdxMsh => LDX + MSH + SizeField(B)
    case LdxLen => LDX + LEN
    case LdxImm => LDX + IMM
    case LdxMem => LDX + MEM
    case St => ST
    case Stx => STX
    case Alu(op, src) => ALU + AluField(op) + SrcField(src)
    case Neg => ALU + 0x80
    case Tax => MISC
    case Txa => MISC + 0x80
  }

  function TestCode(t: Test, src: Operand): Code { JMP + TestField(t) + SrcField(src) }

  /** What the interpreter's switch makes of a code. */
  datatype Instr = Do(op: Op) | Cond(test: Test, src: Operand) | Ja | RetK | RetA | Unhandled

  function Decode(code: Code): (i: Instr)
    ensures i != Do(Nop)
  {
    match code
    case 0x06 => RetK
    case 0x16 => RetA
    case 0x20 => Do(LdAbs(W))
    case 0x28 => Do(LdAbs(H))
    case 0x30 => Do(LdAbs(B))
    case 0x80 => Do(LdLen)
    case 0x81 => Do(LdxLen)
    case 0x40 => Do(LdInd(W))
    case 0x48 => Do(LdInd(H))
    case 0x50 => Do(LdInd(B))
    case 0xb1 => Do(LdxMsh)
    case 0x00 => Do(LdImm)
    case 0x01 => Do(LdxImm)
    case 0x60 => Do(LdMem)
    case 0x61 => Do(LdxMem)
    case 0x02 => Do(Op.St)
    case 0x03 => Do(Op.Stx)
    case 0x05 => Ja
    case 0x25 => Cond(JGT, K)
    case 0x35 => Cond(JGE, K)
    case 0x15 => Cond(JEQ, K)
    case 0x45 => Cond(JSET, K)
    case 0x2d => Cond(JGT, X)
    case 0x3d => Cond(JGE, X)
    case 0x1d => Cond(JEQ, X)
    case 0x4d => Cond(JSET, X)
    case 0x0c => Do(Alu(Add, X))
    case 0x1c => Do(Alu(Sub, X))
    case 0x2c => Do(Alu(Mul, X))
    case 0x3c => Do(Alu(Div, X))
    case 0x5c => Do(Alu(And, X))
    case 0x4c => Do(Alu(Or, X))
    case 0x6c => Do(Alu(Lsh, X))
    case 0x7c => Do(Alu(Rsh, X))
    case 0x04 => Do(Alu(Add, K))
    case 0x14 => Do(Alu(Sub, K))
    case 0x24 => Do(Alu(Mul, K))
    case 0x34 => Do(Alu(Div, K))
    case 0x54 => Do(Alu(And, K))
    case 0x44 => Do(Alu(Or, K))
    case 0x64 => Do(Alu(Lsh, K))
    case 0x74 => Do(Alu(Rsh, K))
    case 0x84 => Do(Neg)
    case 0x07 => Do(Tax)
    case 0x87 => Do(Txa)
    case _ => Unhandled
  }

  /** The interpreter reads back exactly the statement, or test, that was encoded. */
  lemma DecodeOpCode(op: Op)
    requires !op.Nop?
    ensures Decode(OpCode(op)) == Do(op)
  {
    match op
    case LdAbs(s) => match s { case W => case H => case B => }
    case LdInd(s) => match s { case W => case H => case B => }
    case Alu(a, src) =>
      match a {
        case Add => case Sub => case Mul => case Div =>
        case Or => case And => case Lsh => case Rsh =>
      }
    case _ =>
  }

  lemma DecodeTestCode(t: Test, src: Operand)
    ensures Decode(TestCode(t, src)) == Cond(t, src)
  {
    match t { case JEQ => case JGT => case JGE => case JSET => }
  }
}
