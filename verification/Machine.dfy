/** The interpreter (bpf_filter) and the validator (bpf_validate) of finished filter programs. */
module Machine {
  import opened Words
  import opened Ir
  import opened Opcodes

  type Program = seq<Insn>

  // ----- The interpreter -----

  /** One instruction: where control goes next, the value returned, or nothing C defines. */
  datatype Move = Goto(pc: nat, st: State) | Stop(v: Word) | Stuck

  /** Offsets are never negative, so control only moves forward. */
  function Advance(insn: Insn, pc: nat, st: State, pkt: Packet): (m: Move)
    ensures m.Goto? ==> m.pc > pc
  {
    Perform(Decode(insn.code), insn, pc, st, pkt)
  }

  function Perform(instr: Instr, insn: Insn, pc: nat, st: State, pkt: Packet): (m: Move)
    ensures m.Goto? ==> m.pc > pc
  {
    match instr
    case RetK => Stop(insn.k)
    case RetA => Stop(st[A_ATOM])
    case Ja => Goto(pc + 1 + insn.k, st)
    case Cond(test, src) => Goto(pc + 1 + (if Decide(Jmp(test, src, insn.k), st) then insn.jt else insn.jf), st)
    case Do(op) =>
      (match Exec(Stmt(op, insn.k), st, pkt)
       case Next(st') => Goto(pc + 1, st')
       case Reject => Stop(0)
       case Fault => Stuck)
    case Unhandled => Stuck
  }

  function Run(prog: Program, pc: nat, st: State, pkt: Packet): Outcome
    decreases |prog| - pc
  {
    if pc >= |prog| then Undefined
    else
      match Advance(prog[pc], pc, st, pkt)
      case Goto(pc', st') => Run(prog, pc', st', pkt)
      case Stop(v) => Returned(v)
      case Stuck => Undefined
  }

  function Registers(mem: seq<Word>, a: Word, x: Word): State
    requires |mem| == MEM_WORDS
  {
    mem + [a, x]
  }

  /** The interpreter's cases that are neither a jump nor a return, on its own registers. */
  method Statement(op: Op, k: Word, pkt: Packet, a: Word, x: Word, mem: array<Word>)
    returns (rejected: bool, a': Word, x': Word)
    requires mem.Length == MEM_WORDS && !op.Nop?
    requires Exec(Stmt(op, k), Registers(mem[..], a, x), pkt) != Fault
    modifies mem
    ensures Exec(Stmt(op, k), old(Registers(mem[..], a, x)), pkt) ==
            if rejected then Reject else Next(Registers(mem[..], a', x'))
  {
    ghost var st := Registers(mem[..], a, x);
    rejected, a', x' := false, a, x;
    var b := x;
    match op {
      case LdAbs(size) => rejected, a' := Fetch(pkt, k, size, a);
      case LdInd(size) => rejected, a' := Fetch(pkt, Wrap(x + k), size, a);
      case LdxMsh =>
        rejected, x' := Fetch(pkt, k, B, x);
        if !rejected { x' := 4 * (x' % 16); }
      case LdLen => a' := pkt.wirelen;
      case LdxLen => x' := pkt.wirelen;
      case LdImm => a' := k;
      case LdxImm => x' := k;
      case LdMem => a' := mem[k];
      case LdxMem => x' := mem[k];
      case St => mem[k] := a;
      case Stx => mem[k] := x;
      case Alu(f, src) =>
        if src.K? { b := k; }
        if f.Div? && b == 0 { rejected := true; } else { a' := Compute(f, a, b); }
      case Neg => a' := Wrap(-(a as int));
      case Tax => x' := a;
      case Txa => a' := x;
    }
    assert !rejected ==>
      st[AtomDef(Stmt(op, k)) := ValueOf(Stmt(op, k), st, pkt).w] == Registers(mem[..], a', x');
  }

  /** The test of the range is made in 32 bits. */
  method Fetch(pkt: Packet, off: Word, size: Size, was: Word) returns (rejected: bool, w: Word)
    requires !Overruns(off, size, |pkt.data|)
    ensures Load(pkt, off, size) == if rejected then Rejected else Val(w)
  {
    rejected, w := if size.B? then off >= |pkt.data| else Wrap(off + Bytes(size)) > |pkt.data|, was;
    if !rejected {
      w := match size
        case B => pkt.data[off]
        case H => BigEndian(pkt.data[off..off + 2])
        case W => BigEndian(pkt.data[off..off + 4]);
    }
  }

  /** One turn of the interpreter's loop. */
  method Instruction(instr: Instr, insn: Insn, pc: nat, pkt: Packet, a: Word, x: Word, mem: array<Word>)
    returns (done: bool, v: Word, pc': nat, a': Word, x': Word)
    requires mem.Length == MEM_WORDS && instr != Do(Nop)
    requires !Perform(instr, insn, pc, Registers(mem[..], a, x), pkt).Stuck?
    modifies mem
    ensures Perform(instr, insn, pc, old(Registers(mem[..], a, x)), pkt) ==
            if done then Stop(v) else Goto(pc', Registers(mem[..], a', x'))
  {
    done, v, pc', a', x' := false, 0, pc + 1, a, x;
    match instr {
      case RetK => done, v := true, insn.k;
      case RetA => done, v := true, a;
      case Ja => pc' := pc' + insn.k;
      case Cond(test, src) =>
        var b := if src.K? then insn.k else x;
        pc' := pc' + if Compare(test, a, b) then insn.jt else insn.jf;
      case Do(op) => done, a', x' := Statement(op, insn.k, pkt, a, x, mem);
    }
  }

  /** The interpreter's loop, on the programs its caller may hand it. */
  method BpfFilter(prog: Program, pkt: Packet, scratch: seq<Word>) returns (v: Word)
    requires |scratch| == MEM_WORDS
    requires Run(prog, 0, Registers(scratch, 0, 0), pkt).Returned?
    ensures Run(prog, 0, Registers(scratch, 0, 0), pkt) == Returned(v)
  {
    var pc: nat, a: Word, x: Word := 0, 0, 0;
    var mem := new Word[MEM_WORDS](i requires 0 <= i < MEM_WORDS => scratch[i]);
    assert mem[..] == scratch;
    while true
      invariant fresh(mem) && mem.Length == MEM_WORDS
      invariant Run(prog, pc, Registers(mem[..], a, x), pkt) == Run(prog, 0, Registers(scratch, 0, 0), pkt)
      decreases |prog| - pc
    {
      var done;
      done, v, pc, a, x := Instruction(Decode(prog[pc].code), prog[pc], pc, pkt, a, x, mem);
      if done { return; }
    }
  }

  // ----- The validator -----

  predicate InsnOk(insn: Insn, i: nat, len: nat) {
    var c := Class(insn.code);
    if c == LD || c == LDX then
      (Mode(insn.code) == MEM ==> insn.k < MEM_WORDS) && Mode(insn.code) <= MSH
    else if c == ST || c == STX then insn.k < MEM_WORDS
    else if c == ALU then
      OpField(insn.code) <= 0x80 &&
      (OpField(insn.code) == AluField(Div) ==> !(RVal(insn.code) == 0 && insn.k == 0))
    else if c == JMP then
      if OpField(insn.code) == 0 then Wrap(i + 1 + insn.k) < len
      else OpField(insn.code) <= 0x40 && i + 1 + insn.jt < len && i + 1 + insn.jf < len
    else true
  }

  predicate Accepts(prog: Program) {
    |prog| >= 1 &&
    (forall i | 0 <= i < |prog| :: InsnOk(prog[i], i, |prog|)) &&
    Class(prog[|prog| - 1].code) == RET
  }

  method BpfValidate(prog: Program) returns (ok: bool)
    ensures ok == Accepts(prog)
  {
    if |prog| < 1 {
      return false;
    }
    for i := 0 to |prog|
      invariant forall j | 0 <= j < i :: InsnOk(prog[j], j, |prog|)
    {
      var insn := prog[i];
      var c := Class(insn.code);
      if c == LD || c == LDX {
        var mode := Mode(insn.code);
        if mode == IMM || mode == ABS || mode == IND || mode == MSH || mode == LEN {
        } else if mode == MEM {
          if insn.k >= MEM_WORDS { return false; }
        } else {
          return false;
        }
      } else if c == ST || c == STX {
        if insn.k >= MEM_WORDS { return false; }
      } else if c == ALU {
        var op := OpField(insn.code);
        if op == AluField(Div) {
          if RVal(insn.code) == 0 && insn.k == 0 { return false; }
        } else if op > 0x80 {
          return false;
        }
      } else if c == JMP {
        var from := i + 1;
        var op := OpField(insn.code);
        if op == 0 {
          if Wrap(from + insn.k) >= |prog| { return false; }
        } else if op == 0x10 || op == 0x20 || op == 0x30 || op == 0x40 {
          if from + insn.jt >= |prog| || from + insn.jf >= |prog| { return false; }
        } else {
          return false;
        }
      }
    }
    return Class(prog[|prog| - 1].code) == RET;
  }

  // ----- Which codes are accepted -----

  /** An instruction the interpreter has a case for is accepted exactly when what it refers to is there. */
  lemma HandledAccepted(insn: Insn, i: nat, len: nat)
    requires Decode(insn.code) != Unhandled
    ensures InsnOk(insn, i, len) <==>
      match Decode(insn.code)
      case Do(op) => InScratch(Stmt(op, insn.k))
      case Cond(_, _) => i + 1 + insn.jt < len && i + 1 + insn.jf < len
      case Ja => Wrap(i + 1 + insn.k) < len
      case _ => true
  {
    hide Wrap;
  }

  /** With some operands and at some place, the code is accepted. */
  ghost predicate Acceptable(c: Code) {
    exists k: Word, jt: Octet, jf: Octet, i: nat, len: nat :: InsnOk(Insn(c, jt, jf, k), i, len)
  }

  /** What the validator looks at in a code: its class, and the mode of a load or the operation of arithmetic and jumps. */
  function Looked(c: Code): (Code, Code) {
    if Class(c) == LD || Class(c) == LDX then (LD, Mode(c))
    else if Class(c) == ALU || Class(c) == JMP then (Class(c), OpField(c))
    else (Class(c), 0)
  }

  lemma OperandsIn(c: Code)
    ensures InsnOk(Insn(c, 0, 0, 0), 0, 2) || InsnOk(Insn(c, 0, 0, 1), 0, 3) <==> Acceptable(c)
  {
    if k: Word, jt: Octet, jf: Octet, i: nat, len: nat :| InsnOk(Insn(c, jt, jf, k), i, len) {
      assert Wrap(1) == 1 && Wrap(2) == 2;
    }
  }

  /** A handled code that looks the same, where there is one. */
  function Handles(c: Code): Code {
    var mode, op := Mode(c), OpField(c);
    if Class(c) == LD || Class(c) == LDX then
      if mode == MSH then 0xb1 else mode
    else if Class(c) == ALU || Class(c) == JMP then op + Class(c)
    else Class(c)
  }

  lemma LoadHandled(mode: Code)
    requires mode in {0x00, 0x20, 0x40, 0x60, 0x80, 0xa0}
    ensures var c' := if mode == MSH then 0xb1 else mode; Decode(c') != Unhandled && Looked(c') == (LD, mode)
  {
  }

  lemma OperationHandled(family: Code, op: Code)
    requires family == ALU || family == JMP
    requires op in {0x00, 0x10, 0x20, 0x30, 0x40} || (family == ALU && op in {0x50, 0x60, 0x70, 0x80})
    ensures Decode(op + family) != Unhandled && Looked(op + family) == (family, op)
  {
  }

  lemma HandlesLooksAlike(c: Code)
    requires Acceptable(c)
    ensures Decode(Handles(c)) != Unhandled && Looked(Handles(c)) == Looked(c)
  {
    OperandsIn(c);
    var mode, op := Mode(c), OpField(c);
    assert mode in {0x00, 0x20, 0x40, 0x60, 0x80, 0xa0, 0xc0, 0xe0};
    assert op % 0x10 == 0 && op <= 0xf0;
    hide Decode, Mode, OpField, Acceptable;
    if Class(c) == LD || Class(c) == LDX {
      LoadHandled(mode);
    } else if Class(c) == ALU || Class(c) == JMP {
      OperationHandled(Class(c), op);
    } else {
      OtherHandled(Class(c));
    }
  }

  lemma OtherHandled(family: Code)
    requires family in {ST, STX, RET, MISC}
    ensures Decode(family) != Unhandled && Looked(family) == (family, 0)
  {
  }

  lemma HandledAcceptable(c: Code, c': Code)
    requires Decode(c') != Unhandled && Looked(c') == Looked(c)
    ensures Acceptable(c)
  {
    OperandsIn(c);
    assert Wrap(1) == 1 && Wrap(2) == 2;
  }

  /**
   * The codes the validator can accept are exactly those that agree, in what it looks at, with a code the interpreter
   * handles. The others of their bits are not looked at, so some of them are not handled.
   */
  lemma AcceptedCodes(c: Code)
    ensures Acceptable(c) <==> exists c' :: Decode(c') != Unhandled && Looked(c') == Looked(c)
  {
    if Acceptable(c) {
      HandlesLooksAlike(c);
    }
    if c' :| Decode(c') != Unhandled && Looked(c') == Looked(c) {
      HandledAcceptable(c, c');
    }
  }

  // ----- What acceptance guarantees -----

  /** Only codes the interpreter's switch has a case for. */
  predicate Handled(prog: Program) {
    forall i | 0 <= i < |prog| :: Decode(prog[i].code) != Unhandled
  }

  /** No jump offset so large that the validator's 32-bit sum wraps. */
  predicate NoWrap(prog: Program) {
    |prog| < TWO_TO_THE_32 &&
    forall i | 0 <= i < |prog| :: Decode(prog[i].code) == Ja ==> i + 1 + prog[i].k < TWO_TO_THE_32
  }

  predicate DividesByZero(insn: Insn) {
    Decode(insn.code) == Do(Alu(Div, K)) && insn.k == 0
  }

  /** A load whose test of the range wraps. */
  predicate Overreads(insn: Insn, st: State, pkt: Packet) {
    match Decode(insn.code)
    case Do(LdAbs(size)) => Overruns(insn.k, size, |pkt.data|)
    case Do(LdInd(size)) => Overruns(Wrap(st[X_ATOM] + insn.k), size, |pkt.data|)
    case _ => false
  }

  /** Control at an instruction, and the machine state there. */
  datatype Point = Point(pc: nat, st: State)

  /** The points an execution goes through. */
  function Trace(prog: Program, pc: nat, st: State, pkt: Packet): (t: seq<Point>)
    ensures t != [] && t[0] == Point(pc, st)
    decreases |prog| - pc
  {
    if pc >= |prog| then [Point(pc, st)]
    else
      match Advance(prog[pc], pc, st, pkt)
      case Goto(pc', st') => [Point(pc, st)] + Trace(prog, pc', st', pkt)
      case _ => [Point(pc, st)]
  }

  ghost predicate InRangeAndRising(t: seq<Point>, lo: nat, hi: nat) {
    (forall i | 0 <= i < |t| :: lo <= t[i].pc < hi) && forall i, j | 0 <= i < j < |t| :: t[i].pc < t[j].pc
  }

  /**
   * An accepted program never leaves its code or its scratch memory and stops within |prog| steps;
   * it returns a value unless the step it stops at divides by a constant zero, or is a load whose range test wraps.
   */
  lemma {:induction false} AcceptedRuns(prog: Program, pc: nat, st: State, pkt: Packet)
    requires Accepts(prog) && Handled(prog) && NoWrap(prog) && pc < |prog|
    ensures var t := Trace(prog, pc, st, pkt);
            && InRangeAndRising(t, pc, |prog|)
            && |t| <= |prog| - pc
            && var last := t[|t| - 1];
               Run(prog, pc, st, pkt).Returned? <==> !DividesByZero(prog[last.pc]) && !Overreads(prog[last.pc], last.st, pkt)
    decreases |prog| - pc
  {
    AcceptedStep(prog, pc, st, pkt);
    match Advance(prog[pc], pc, st, pkt)
    case Goto(pc', st') => AcceptedRuns(prog, pc', st', pkt);
    case _ =>
  }

  /** One step of an accepted program: control stays in range, and it is only stuck on a division or a load. */
  lemma AcceptedStep(prog: Program, pc: nat, st: State, pkt: Packet)
    requires Accepts(prog) && Handled(prog) && NoWrap(prog) && pc < |prog|
    ensures var m := Advance(prog[pc], pc, st, pkt);
            && (m.Goto? ==> m.pc < |prog|)
            && (m.Stuck? <==> DividesByZero(prog[pc]) || Overreads(prog[pc], st, pkt))
  {
    assert InsnOk(prog[pc], pc, |prog|);
    assert pc == |prog| - 1 ==> Class(prog[pc].code) == RET;
    DecodeClass(prog[pc].code);
  }

  /** The classes and fields the validator looks at agree with the interpreter's cases. */
  lemma DecodeClass(code: Code)
    ensures match Decode(code) {
              case Ja => Class(code) == JMP && OpField(code) == 0
              case Cond(_, _) => Class(code) == JMP && OpField(code) != 0
              case Do(op) => Class(code) != RET &&
                ((op.LdMem? || op.LdxMem?) ==> (Class(code) == LD || Class(code) == LDX) && Mode(code) == MEM) &&
                ((op.St? || op.Stx?) ==> Class(code) == ST || Class(code) == STX)
              case _ => true
            }
  {
  }

  /** Without a constant division by zero, only a load whose range test wraps keeps a program from returning. */
  lemma AcceptedReturns(prog: Program, st: State, pkt: Packet)
    requires Accepts(prog) && Handled(prog) && NoWrap(prog)
    requires forall i | 0 <= i < |prog| :: !DividesByZero(prog[i])
    ensures var t := Trace(prog, 0, st, pkt);
            var last := t[|t| - 1];
            last.pc < |prog| && (Run(prog, 0, st, pkt).Returned? <==> !Overreads(prog[last.pc], last.st, pkt))
  {
    AcceptedRuns(prog, 0, st, pkt);
  }

  /**
   * The validator's test for a constant division by zero never fires: the field it
   * compares with the K source overlaps the divide operation, so it is never zero.
   */
  lemma ValidatorIgnoresDivisor(insn: Insn, k: Word, i: nat, len: nat)
    requires Decode(insn.code) == Do(Alu(Div, K))
    ensures InsnOk(insn, i, len) && InsnOk(insn.(k := k), i, len)
  {
    assert insn.code == 0x34;
  }

  lemma ValidatorMissesDivisionByZero(st: State, pkt: Packet)
    ensures var prog := [Insn(0x34, 0, 0, 0), Insn(0x06, 0, 0, 1)];
            Accepts(prog) && Run(prog, 0, st, pkt) == Undefined
  {
    var prog := [Insn(0x34, 0, 0, 0), Insn(0x06, 0, 0, 1)];
    ValidatorIgnoresDivisor(prog[0], 0, 0, 2);
    assert Decode(prog[0].code) == Do(Alu(Div, K));
  }
}
