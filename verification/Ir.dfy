/**
 * The statements of the filter compiler's intermediate code and their meaning.
 *
 * The accumulator, the index register and the sixteen scratch words are the
 * eighteen atoms of a machine state, numbered as the flow analysis numbers them.
 */
module Ir {
  import opened Words

  const MEM_WORDS: nat := 16
  const A_ATOM: nat := 16
  const X_ATOM: nat := 17
  const N_ATOMS: nat := 18

  type State = s: seq<Word> | |s| == 18 witness seq(18, _ => 0)

  /** The captured bytes of a packet, and its length on the wire. */
  datatype Packet = Packet(data: seq<Octet>, wirelen: Word)

  datatype Size = W | H | B
  datatype Operand = K | X
  datatype AluOp = Add | Sub | Mul | Div | Or | And | Lsh | Rsh

  datatype Op =
    | Nop  // a deleted statement
    | LdAbs(size: Size) | LdInd(size: Size) | LdLen | LdImm | LdMem
    | LdxMsh | LdxLen | LdxImm | LdxMem
    | St | Stx
    | Alu(alu: AluOp, src: Operand) | Neg
    | Tax | Txa

  datatype Stmt = Stmt(op: Op, k: Word)

  const NOP := Stmt(Nop, 0)

  datatype Test = JEQ | JGT | JGE | JSET

  /** The last statement of a block. */
  datatype Branch = Jmp(test: Test, src: Operand, k: Word) | Ret(k: Word)

  /** A statement deleted in place. */
  function Gone(s: Stmt): Stmt { s.(op := Nop) }

  // ----- Meaning -----

  /** What a statement computes; Faulted where the C program has no defined meaning. */
  datatype Read = Val(w: Word) | Rejected | Faulted

  datatype Step = Next(st: State) | Reject | Fault

  /** What a filter does with a packet. */
  datatype Outcome = Returned(v: Word) | Undefined

  function Bytes(size: Size): nat {
    match size case W => 4 case H => 2 case B => 1
  }

  function BigEndian(bytes: seq<Octet>): (n: nat)
    ensures |bytes| <= 1 ==> n < 0x100
    ensures |bytes| <= 2 ==> n < 0x1_0000
    ensures |bytes| <= 3 ==> n < 0x100_0000
    ensures |bytes| <= 4 ==> n < TWO_TO_THE_32
  {
    if bytes == [] then 0
    else 0x100 * BigEndian(bytes[..|bytes| - 1]) + bytes[|bytes| - 1]
  }

  /**
   * The interpreter adds the size of a half word or a word to the offset before it compares with the
   * length of the packet. For the last few offsets the sum wraps, and the load is made before the packet.
   */
  predicate Overruns(off: Word, size: Size, len: nat) {
    !size.B? && off + Bytes(size) >= TWO_TO_THE_32 && Wrap(off + Bytes(size)) <= len
  }

  /** Big-endian load from the packet; out of range rejects the packet, unless the test of the range wraps. */
  function Load(pkt: Packet, off: Word, size: Size): Read {
    var d := pkt.data;
    if Overruns(off, size, |d|) then Faulted
    else if off + Bytes(size) > |d| then Rejected
    else
      match size
      case B => Val(d[off])
      case H => Val(BigEndian(d[off..off + 2]))
      case W => Val(BigEndian(d[off..off + 4]))
  }

  function Compute(op: AluOp, a: Word, b: Word): Word
    requires op.Div? ==> b != 0
  {
    match op
    case Add => Wrap(a + b)
    case Sub => Wrap(a - b)
    case Mul => Wrap(a * b)
    case Div => Quotient(a, b)
    case Or => OrWord(a, b)
    case And => Words.And(a, b)
    case Lsh => ShiftLeft(a, b)
    case Rsh => ShiftRight(a, b)
  }

  /** Arithmetic with the divide check: by X the interpreter rejects, by a constant it does not look. */
  function Arith(op: AluOp, src: Operand, a: Word, b: Word): Read {
    if op.Div? && b == 0 then (if src.X? then Rejected else Faulted)
    else Val(Compute(op, a, b))
  }

  function ValueOf(s: Stmt, st: State, pkt: Packet): Read {
    match s.op
    case Nop => Val(0)
    case LdAbs(size) => Load(pkt, s.k, size)
    case LdInd(size) => Load(pkt, Wrap(st[X_ATOM] + s.k), size)
    case LdLen => Val(pkt.wirelen)
    case LdxLen => Val(pkt.wirelen)
    case LdImm => Val(s.k)
    case LdxImm => Val(s.k)
    case LdMem => if s.k < MEM_WORDS then Val(st[s.k]) else Faulted
    case LdxMem => if s.k < MEM_WORDS then Val(st[s.k]) else Faulted
    case LdxMsh =>
      (match Load(pkt, s.k, B)
       case Val(o) => Val(4 * (o % 16))
       case r => r)
    case St => if s.k < MEM_WORDS then Val(st[A_ATOM]) else Faulted
    case Stx => if s.k < MEM_WORDS then Val(st[X_ATOM]) else Faulted
    case Alu(op, src) => Arith(op, src, st[A_ATOM], if src.K? then s.k else st[X_ATOM])
    case Neg => Val(Wrap(-(st[A_ATOM] as int)))
    case Tax => Val(st[A_ATOM])
    case Txa => Val(st[X_ATOM])
  }

  /** The atom a statement defines; -1 for a deleted statement. */
  function AtomDef(s: Stmt): int {
    match s.op
    case Nop => -1
    case LdAbs(_) => A_ATOM
    case LdInd(_) => A_ATOM
    case LdLen => A_ATOM
    case LdImm => A_ATOM
    case LdMem => A_ATOM
    case LdxMsh => X_ATOM
    case LdxLen => X_ATOM
    case LdxImm => X_ATOM
    case LdxMem => X_ATOM
    case St => s.k
    case Stx => s.k
    case Alu(_, _) => A_ATOM
    case Neg => A_ATOM
    case Tax => X_ATOM
    case Txa => A_ATOM
  }

  /** The atoms a statement reads. */
  function AtomUse(s: Stmt): set<int> {
    match s.op
    case LdInd(_) => {X_ATOM}
    case LdMem => {s.k}
    case LdxMem => {s.k}
    case St => {A_ATOM}
    case Stx => {X_ATOM}
    case Alu(_, src) => if src.X? then {A_ATOM, X_ATOM} else {A_ATOM}
    case Neg => {A_ATOM}
    case Tax => {A_ATOM}
    case Txa => {X_ATOM}
    case _ => {}
  }

  /** The scratch index of a statement that has one is in range. */
  predicate InScratch(s: Stmt) {
    s.op.LdMem? || s.op.LdxMem? || s.op.St? || s.op.Stx? ==> s.k < MEM_WORDS
  }

  predicate Tame(ss: seq<Stmt>) {
    forall s | s in ss :: InScratch(s)
  }

  function Exec(s: Stmt, st: State, pkt: Packet): Step {
    if s.op.Nop? then Next(st)
    else
      match ValueOf(s, st, pkt)
      case Val(w) => Next(st[AtomDef(s) := w])
      case Rejected => Reject
      case Faulted => Fault
  }

  function ExecAll(ss: seq<Stmt>, st: State, pkt: Packet): Step {
    if ss == [] then Next(st)
    else
      match Exec(ss[0], st, pkt)
      case Next(st') => ExecAll(ss[1..], st', pkt)
      case r => r
  }

  function Compare(test: Test, a: Word, b: Word): bool {
    match test
    case JEQ => a == b
    case JGT => a > b
    case JGE => a >= b
    case JSET => Words.And(a, b) != 0
  }

  function Decide(s: Branch, st: State): bool
    requires s.Jmp?
  {
    Compare(s.test, st[A_ATOM], if s.src.K? then s.k else st[X_ATOM])
  }

  function BranchUse(s: Branch): set<int> {
    match s
    case Jmp(_, src, _) => if src.X? then {A_ATOM, X_ATOM} else {A_ATOM}
    case Ret(_) => {}
  }

  function Zeroed(): State { [0, 0, 0, 0, 0, 0, 0, 0, 0, 0, 0, 0, 0, 0, 0, 0, 0, 0] }

  // ----- Bits -----

  /** The test for common bits succeeds if and only if some bit is one in both words. */
  lemma JsetTests(a: Word, b: Word)
    ensures Compare(JSET, a, b) <==> exists i: nat :: Bit(a, i) && Bit(b, i)
  {
    AndMeets(a, b);
    hide Bit, Words.And;
  }

  /** The bitwise operations and the shifts, digit by digit. */
  lemma ComputeBits(a: Word, b: Word, i: nat)
    requires i < 32
    ensures Bit(Compute(And, a, b), i) <==> Bit(a, i) && Bit(b, i)
    ensures Bit(Compute(Or, a, b), i) <==> Bit(a, i) || Bit(b, i)
    ensures b < 32 ==> (Bit(Compute(Lsh, a, b), i) <==> i >= b && Bit(a, i - b)) && (Bit(Compute(Rsh, a, b), i) <==> Bit(a, i + b))
  {
    AndBits(a, b, i);
    OrBits(a, b, i);
    if b < 32 {
      ShiftLeftBits(a, b, i);
      ShiftRightBits(a, b, i);
    }
    hide Bit, Words.And, Words.Or, ShiftLeft, ShiftRight;
  }

  // ----- Arithmetic -----

  /** Addition counts on, with zero after the largest word. */
  lemma CountingOn(a: Word, b: Word)
    ensures Compute(Add, a, 0) == a && Compute(Add, a, 1) == if a == 0xffff_ffff then 0 else a + 1
    ensures b < 0xffff_ffff ==> Compute(Add, a, b + 1) == Compute(Add, Compute(Add, a, b), 1)
  {
    WrapTwice(a + b, 1);
  }

  lemma SubtractionUndoes(a: Word, b: Word)
    ensures Compute(Sub, Compute(Add, a, b), b) == a && Compute(Add, Compute(Sub, a, b), b) == a
  {
    assert Wrap(a) == a;
    hide Wrap;
    WrapTwice(a + b, -(b as int));
    WrapTwice(a - b, b);
  }

  /** Multiplication is repeated addition. */
  lemma RepeatedAddition(a: Word, b: Word)
    ensures Compute(Mul, a, 0) == 0
    ensures b < 0xffff_ffff ==> Compute(Mul, a, b + 1) == Compute(Add, Compute(Mul, a, b), a)
  {
    assert Compute(Mul, a, 0) == 0;
    hide Wrap;
    var p := a * b;
    assert a * (b + 1) == p + a;
    WrapTwice(p, a);
  }

  /** A quotient is how often the divisor fits. */
  lemma HowOften(a: Word, b: Word)
    requires b > 0
    ensures var q: int := Compute(Div, a, b); q * b <= a < (q + 1) * b
  {
    assert a == (a / b) * b + a % b;
  }

  // ----- Byte order -----

  lemma {:induction false} BigEndianInjective(x: seq<Octet>, y: seq<Octet>)
    requires |x| == |y| && BigEndian(x) == BigEndian(y)
    ensures x == y
  {
    if x != [] {
      var n := |x| - 1;
      BigEndianInjective(x[..n], y[..n]);
      assert x == x[..n] + [x[n]] && y == y[..n] + [y[n]];
    }
  }

  /** Where the strings first differ, x has the smaller octet. */
  ghost predicate Precedes(x: seq<Octet>, y: seq<Octet>)
    requires |x| == |y|
  {
    exists k | 0 <= k < |x| :: x[..k] == y[..k] && x[k] < y[k]
  }

  lemma PrecedesLast(x: seq<Octet>, y: seq<Octet>)
    requires |x| == |y| > 0
    ensures var n := |x| - 1; Precedes(x, y) <==> Precedes(x[..n], y[..n]) || (x[..n] == y[..n] && x[n] < y[n])
  {
    var n := |x| - 1;
    if k :| 0 <= k < |x| && x[..k] == y[..k] && x[k] < y[k] {
      if k < n {
        assert x[..n][..k] == x[..k] && y[..n][..k] == y[..k];
      }
    }
    if k :| 0 <= k < n && x[..n][..k] == y[..n][..k] && x[..n][k] < y[..n][k] {
      assert x[..n][..k] == x[..k] && y[..n][..k] == y[..k];
    }
  }

  /** Of two fields of the same length, the one that is smaller as a number comes first octet by octet from the start. */
  lemma {:induction false} BigEndianOrder(x: seq<Octet>, y: seq<Octet>)
    requires |x| == |y|
    ensures BigEndian(x) < BigEndian(y) <==> Precedes(x, y)
  {
    if x != [] {
      var n := |x| - 1;
      PrecedesLast(x, y);
      BigEndianOrder(x[..n], y[..n]);
      BigEndianInjective(if BigEndian(x[..n]) == BigEndian(y[..n]) then x[..n] else [], if BigEndian(x[..n]) == BigEndian(y[..n]) then y[..n] else []);
      hide Precedes;
    }
  }

  /** The first octet of a loaded half word or word is the most significant. */
  lemma LoadHalf(pkt: Packet, off: Word)
    requires off + 2 <= |pkt.data| && off + 2 < TWO_TO_THE_32
    ensures Load(pkt, off, H) == Val(0x100 * (pkt.data[off] as int) + pkt.data[off + 1])
  {
    BigEndianTwo(pkt.data[off], pkt.data[off + 1]);
    assert pkt.data[off..off + 2] == [pkt.data[off], pkt.data[off + 1]];
  }

  lemma LoadWord(pkt: Packet, off: Word)
    requires off + 4 <= |pkt.data| && off + 4 < TWO_TO_THE_32
    ensures var d: seq<int> := pkt.data;
      Load(pkt, off, W) == Val(0x100_0000 * d[off] + 0x1_0000 * d[off + 1] + 0x100 * d[off + 2] + d[off + 3])
  {
    var d := pkt.data;
    BigEndianFour(d[off], d[off + 1], d[off + 2], d[off + 3]);
    assert d[off..off + 4] == [d[off], d[off + 1], d[off + 2], d[off + 3]];
  }

  lemma BigEndianTwo(a: Octet, b: Octet)
    ensures BigEndian([a, b]) == 0x100 * a + b
  {
    assert [a, b][..1] == [a] && [a][..0] == [];
    assert BigEndian([]) == 0 && BigEndian([a]) == a;
  }

  lemma BigEndianFour(a: Octet, b: Octet, c: Octet, d: Octet)
    ensures BigEndian([a, b, c, d]) == 0x100_0000 * a + 0x1_0000 * b + 0x100 * c + d
  {
    BigEndianTwo(a, b);
    assert [a, b, c][..2] == [a, b] && [a, b, c, d][..3] == [a, b, c];
    assert BigEndian([a, b, c]) == 0x100 * BigEndian([a, b]) + c;
  }

  /** The header length that ldx 4*([k]&0xf) loads: the low four bits of the octet, two places up. */
  lemma HeaderLength(s: Stmt, st: State, pkt: Packet)
    requires s.op.LdxMsh? && Load(pkt, s.k, B).Val?
    ensures ValueOf(s, st, pkt) == Val(ShiftLeft(Words.And(Load(pkt, s.k, B).w, 0xf), 2))
  {
    var o := Load(pkt, s.k, B).w;
    LowFour(o);
  }

  lemma LowFour(o: Word)
    ensures Words.And(o, 0xf) == o % 16 && ShiftLeft(o % 16, 2) == 4 * (o % 16)
  {
    LowDigits(o, 4);
    assert Pow2(4) == 16 && Pow2(2) == 4;
  }

  lemma {:induction false} LowDigits(o: nat, n: nat)
    ensures Words.And(o, Pow2(n) - 1) == o % Pow2(n)
  {
    if n > 0 {
      LowDigits(o / 2, n - 1);
      RestOfHalf(o, Pow2(n - 1));
      LowDigitsStep(o, Pow2(n - 1), o % (2 * Pow2(n - 1)), o / 2 % Pow2(n - 1));
      hide Words.And;
    } else {
      assert Pow2(0) == 1;
    }
  }

  lemma LowDigitsStep(o: nat, p: nat, r: nat, h: nat)
    requires p > 0 && Words.And(o / 2, p - 1) == h && r / 2 == h && r % 2 == o % 2
    ensures Words.And(o, 2 * p - 1) == r
  {
    hide Words.And;
    AllOnesHalf(p);
    AndStep(o, 2 * p - 1);
    Halves(Words.And(o, 2 * p - 1), r);
  }

  lemma AllOnesHalf(p: nat)
    requires p > 0
    ensures (2 * p - 1) / 2 == p - 1 && (2 * p - 1) % 2 == 1
  {
  }

  lemma Halves(a: nat, b: nat)
    ensures a == b <==> a / 2 == b / 2 && a % 2 == b % 2
  {
  }

  // ----- Properties of straight-line code -----

  ghost predicate Agree(atoms: set<int>, s: State, t: State) {
    forall i | i in atoms && 0 <= i < N_ATOMS :: s[i] == t[i]
  }

  /** A statement's value depends on the atoms it reads and on nothing else. */
  lemma ValueDependsOnUse(s: Stmt, st: State, st': State, pkt: Packet)
    requires Agree(AtomUse(s), st, st')
    ensures ValueOf(s, st, pkt) == ValueOf(s, st', pkt)
  {
    if 0 <= AtomDef(s) {
      assert A_ATOM in AtomUse(s) ==> st[A_ATOM] == st'[A_ATOM];
      assert X_ATOM in AtomUse(s) ==> st[X_ATOM] == st'[X_ATOM];
    }
  }

  lemma BranchDependsOnUse(s: Branch, st: State, st': State)
    requires s.Jmp? && Agree(BranchUse(s), st, st')
    ensures Decide(s, st) == Decide(s, st')
  {
    assert A_ATOM in BranchUse(s);
    assert s.src.X? ==> X_ATOM in BranchUse(s);
  }

  lemma {:induction false} ExecAllConcat(ss: seq<Stmt>, tt: seq<Stmt>, st: State, pkt: Packet)
    ensures ExecAll(ss + tt, st, pkt) ==
            match ExecAll(ss, st, pkt) { case Next(st') => ExecAll(tt, st', pkt) case r => r }
  {
    if ss == [] {
      assert ss + tt == tt;
    } else {
      assert (ss + tt)[1..] == ss[1..] + tt;
      if Exec(ss[0], st, pkt).Next? {
        ExecAllConcat(ss[1..], tt, Exec(ss[0], st, pkt).st, pkt);
      }
    }
  }

  lemma ExecOne(s: Stmt, st: State, pkt: Packet)
    ensures ExecAll([s], st, pkt) == Exec(s, st, pkt)
  {
    assert forall st' :: ExecAll([s][1..], st', pkt) == Next(st');
  }

  lemma ExecTwo(s: Stmt, t: Stmt, st: State, pkt: Packet)
    ensures ExecAll([s, t], st, pkt) ==
            match Exec(s, st, pkt) { case Next(st') => Exec(t, st', pkt) case r => r }
  {
    assert [s, t][1..] == [t];
    assert forall st' :: ExecAll([t], st', pkt) == Exec(t, st', pkt);
  }

  /** The statements of a list that are not deleted. */
  function Live(ss: seq<Stmt>): (r: seq<Stmt>)
    ensures |r| <= |ss|
    ensures forall s | s in r :: s in ss && !s.op.Nop?
  {
    if ss == [] then []
    else if ss[0].op.Nop? then Live(ss[1..])
    else [ss[0]] + Live(ss[1..])
  }

  /** The last statement, if it is arithmetic. */
  function LastAlu(ss: seq<Stmt>): seq<Stmt> {
    if ss != [] && ss[|ss| - 1].op.Alu? then [ss[|ss| - 1]] else []
  }

  lemma {:induction false} ExecLive(ss: seq<Stmt>, st: State, pkt: Packet)
    ensures ExecAll(Live(ss), st, pkt) == ExecAll(ss, st, pkt)
  {
    if ss != [] {
      if ss[0].op.Nop? {
        ExecLive(ss[1..], st, pkt);
      } else {
        assert Live(ss)[1..] == Live(ss[1..]);
        if Exec(ss[0], st, pkt).Next? {
          ExecLive(ss[1..], Exec(ss[0], st, pkt).st, pkt);
        }
      }
    }
  }
}
