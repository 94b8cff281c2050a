/**
 * The primitive tests of a filter expression, for Ethernet's constant header offsets,
 * and the compilation of whole boolean expressions to fragments.
 */
module Tests {
  import opened Words
  import opened Ir
  import opened Flowgraph
  import opened Liveness
  import opened Backpatch
  import opened Arithmetic

  /** What a field's offset is relative to. */
  datatype OffRel = OrPacket | OrLink | OrMacPayload | OrNet | OrNetNoSnap | OrTranIpv4 | OrTranIpv6

  const OFF_MACPL: Word := 14
  const OFF_NL: Word := 0
  const OFF_NL_NOSNAP: Word := 3
  const ALL_ONES: Word := 0xffff_ffff

  datatype Filter =
    | Ncmp(rel: OffRel, offset: Word, size: Size, mask: Word, test: Test, reverse: bool, v: Word)
    | Bcmp(rel: OffRel, offset: Word, bytes: seq<Octet>)
    | Relation(test: Test, l: Expr, r: Expr, reversed: bool)
    | Conj(f0: Filter, f1: Filter)
    | Disj(f0: Filter, f1: Filter)
    | Neg(f0: Filter)

  datatype Truth = True | False | Rejects | Faults

  // ----- What a filter expression means -----

  /** Where a header starts when nothing before it varies in length. */
  function FixedBase(rel: OffRel): Word
    requires !rel.OrTranIpv4?
  {
    match rel
    case OrPacket => 0
    case OrLink => OFF_LL
    case OrMacPayload => OFF_MACPL
    case OrNet => OFF_MACPL + OFF_NL
    case OrNetNoSnap => OFF_MACPL + OFF_NL_NOSNAP
    case OrTranIpv6 => OFF_MACPL + OFF_NL + 40
  }

  /** Where a header starts; the transport header of IPv4 follows a header of 4*IHL bytes. */
  function Base(pkt: Packet, rel: OffRel): (r: Read)
    ensures r.Val? ==> r.w < 100
  {
    if rel.OrTranIpv4? then
      match Load(pkt, OFF_MACPL + OFF_NL, B)
      case Val(o) => Val(OFF_MACPL + OFF_NL + 4 * (o % 16))
      case r => r
    else Val(FixedBase(rel))
  }

  lemma BaseDoesNotFault(pkt: Packet, rel: OffRel)
    ensures !Base(pkt, rel).Faulted?
  {
  }

  function Field(pkt: Packet, rel: OffRel, offset: Word, size: Size): Read {
    match Base(pkt, rel)
    case Val(base) => Load(pkt, Wrap(base + offset), size)
    case r => r
  }

  function ToTruth(b: bool): Truth { if b then True else False }

  function Failed(v: Read): Truth { if v.Faulted? then Faults else Rejects }

  function BytesAt(data: seq<Octet>, at: nat, bytes: seq<Octet>): Truth {
    if at + |bytes| > |data| then Rejects
    else ToTruth(data[at..at + |bytes|] == bytes)
  }

  /** The bytes of a field, compared as a whole. */
  function EvalBytes(pkt: Packet, rel: OffRel, offset: nat, bytes: seq<Octet>): Truth {
    match Base(pkt, rel)
    case Val(base) => BytesAt(pkt.data, base + offset, bytes)
    case _ => Rejects
  }

  /**
   * Left to right, short-circuit; an evaluated test that cannot load its operands rejects the packet,
   * and one whose load wraps has no meaning in C.
   */
  function Evaluate(f: Filter, pkt: Packet): Truth {
    match f
    case Ncmp(rel, offset, size, mask, test, reverse, v) =>
      (match Field(pkt, rel, offset, size)
       case Val(w) => ToTruth(Compare(test, Words.And(w, mask), v) != (reverse && (test.JGT? || test.JGE?)))
       case r => Failed(r))
    case Bcmp(rel, offset, bytes) => EvalBytes(pkt, rel, offset, bytes)
    case Relation(test, l, r, reversed) =>
      (match Arithmetic.Eval(l, pkt)
       case Val(a) =>
         (match Arithmetic.Eval(r, pkt)
          case Val(b) => ToTruth(Compare(test, a, b) != reversed)
          case v => Failed(v))
       case v => Failed(v))
    case Conj(f0, f1) => (match Evaluate(f0, pkt) case True => Evaluate(f1, pkt) case t => t)
    case Disj(f0, f1) => (match Evaluate(f0, pkt) case False => Evaluate(f1, pkt) case t => t)
    case Neg(f0) => (match Evaluate(f0, pkt) case True => False case False => True case t => t)
  }

  /** The scratch registers a filter takes at once. */
  function NeedOf(f: Filter): nat {
    match f
    case Ncmp(_, _, _, _, _, _, _) => 0
    case Bcmp(_, _, _) => 0
    case Relation(_, l, r, _) => Max(Need(l), 1 + Need(r))
    case Conj(f0, f1) => Max(NeedOf(f0), NeedOf(f1))
    case Disj(f0, f1) => Max(NeedOf(f0), NeedOf(f1))
    case Neg(f0) => NeedOf(f0)
  }

  /** With the registers of used taken, there are enough left for the filter. */
  ghost predicate Enough(used: set<nat>, f: Filter) {
    NeedOf(f) == 0 || |used| + NeedOf(f) <= MEM_WORDS
  }

  /** Byte strings to compare are not empty and do not run past offset 2^31. */
  predicate WellFormed(f: Filter) {
    match f
    case Bcmp(_, offset, bytes) => bytes != [] && offset + |bytes| <= 0x8000_0000
    case Conj(f0, f1) => WellFormed(f0) && WellFormed(f1)
    case Disj(f0, f1) => WellFormed(f0) && WellFormed(f1)
    case Neg(f0) => WellFormed(f0)
    case _ => true
  }

  // ----- Fragments that decide a question -----

  ghost predicate Agrees(v: Verdict, t: Truth) {
    match t
    case True => v.Yes?
    case False => v.No?
    case Rejects => v == Dead(Returned(0))
    case Faults => v == Dead(Undefined)
  }

  /** From any machine state, control leaves f as t says. */
  ghost predicate Decides(f: Fragment, t: Packet -> Truth) {
    f.Acyclic() && f.head in f.nodes && Sound(f) && forall st, pkt :: Agrees(Follow(f, f.head, st, pkt), t(pkt))
  }

  /** Every block keeps to the scratch registers, and defines all that it and its branch use. */
  ghost predicate Sound(f: Fragment) {
    forall b | b in f.nodes :: Tame(f.nodes[b].stmts) && Yields(f.nodes[b].stmts, BranchUse(f.nodes[b].s))
  }

  /** The statements decide t from any machine state: the block's branch comes out as t says. */
  ghost predicate BlockDecides(stmts: seq<Stmt>, s: Branch, t: Packet -> Truth) {
    s.Jmp? && Tame(stmts) && Yields(stmts, BranchUse(s)) && forall st, pkt :: BlockAgrees(ExecAll(stmts, st, pkt), s, t(pkt))
  }

  ghost predicate BlockAgrees(r: Step, s: Branch, t: Truth)
    requires s.Jmp?
  {
    match r
    case Next(st') => t == ToTruth(Decide(s, st'))
    case Reject => t == Rejects
    case Fault => t == Faults
  }

  /** new_block: a fragment of one block, both of whose exits are open. */
  method GenBlock(stmts: seq<Stmt>, s: Branch, ghost t: Packet -> Truth) returns (b: Block, ghost f: Fragment)
    requires BlockDecides(stmts, s, t)
    ensures fresh(b) && f.nodes.Keys == {b}
    ensures Built(b, f, t)
  {
    assert s.Jmp?;
    hide Decides, BlockDecides;
    b := new Block(s);
    b.stmts := stmts;
    f := Single(b, stmts, s);
    SingleDecides(b, stmts, s, t);
    SingleHolds(b, stmts, s, Memory({b}));
    hide Holds, Memory, Single;
  }

  ghost function Single(b: Block, stmts: seq<Stmt>, s: Branch): Fragment {
    Fragment(map[b := FragNode(stmts, s, ExitTrue, ExitFalse)], map[b := 0], 1, b, b, [], [])
  }

  lemma SingleHolds(b: Block, stmts: seq<Stmt>, s: Branch, m: Mem)
    requires m == map[b := Cell(stmts, s, null, null, false, b)] && s.Jmp?
    ensures Holds(m, Single(b, stmts, s))
  {
  }

  lemma SingleDecides(b: Block, stmts: seq<Stmt>, s: Branch, t: Packet -> Truth)
    requires BlockDecides(stmts, s, t)
    ensures Decides(Single(b, stmts, s), t)
  {
    hide Yields, Tame;
    var f := Single(b, stmts, s);
    forall st, pkt
      ensures Agrees(Follow(f, f.head, st, pkt), t(pkt))
    {
      assert BlockAgrees(ExecAll(stmts, st, pkt), s, t(pkt));
    }
  }

  function Both(t0: Packet -> Truth, t1: Packet -> Truth): Packet -> Truth {
    pkt => match t0(pkt) case True => t1(pkt) case t => t
  }

  function Either(t0: Packet -> Truth, t1: Packet -> Truth): Packet -> Truth {
    pkt => match t0(pkt) case False => t1(pkt) case t => t
  }

  function Opposite(t: Packet -> Truth): Packet -> Truth {
    pkt => match t(pkt) case True => False case False => True case r => r
  }

  lemma JoinedDecides(f0: Fragment, f1: Fragment, from: Exit, t0: Packet -> Truth, t1: Packet -> Truth)
    requires Decides(f0, t0) && Decides(f1, t1) && Disjoint(f0, f1) && !from.To?
    ensures Decides(Joined(f0, f1, from), if from.ExitTrue? then Both(t0, t1) else Either(t0, t1))
  {
    var f, t := Joined(f0, f1, from), if from.ExitTrue? then Both(t0, t1) else Either(t0, t1);
    JoinedAcyclic(f0, f1, from);
    forall st, pkt
      ensures Agrees(Follow(f, f.head, st, pkt), t(pkt))
    {
      FollowJoined(f0, f1, from, f0.head, st, pkt);
      assert Agrees(Follow(f0, f0.head, st, pkt), t0(pkt));
      assert forall st' :: Agrees(Follow(f1, f1.head, st', pkt), t1(pkt));
    }
  }

  lemma NegatedDecides(f: Fragment, t: Packet -> Truth)
    requires Decides(f, t)
    ensures Decides(Negated(f), Opposite(t))
  {
    forall st, pkt
      ensures Negated(f).Acyclic() && Agrees(Follow(Negated(f), f.head, st, pkt), Opposite(t)(pkt))
    {
      FollowNegated(f, f.head, st, pkt);
      assert Agrees(Follow(f, f.head, st, pkt), t(pkt));
    }
    FollowNegated(f, f.head, seq(18, _ => 0), Packet([], 0));
  }

  ghost function Meaning(f: Filter): Packet -> Truth { pkt => Evaluate(f, pkt) }

  ghost function BytesMeaning(rel: OffRel, offset: nat, bytes: seq<Octet>): Packet -> Truth {
    pkt => EvalBytes(pkt, rel, offset, bytes)
  }

  // ----- Primitive tests -----

  /** gen_load_a: code that loads a field into the accumulator. */
  function GenLoadA(rel: OffRel, offset: Word, size: Size): seq<Stmt> {
    if rel.OrTranIpv4? then
      [Stmt(LdxMsh, OFF_MACPL + OFF_NL), Stmt(LdInd(size), Wrap(OFF_MACPL + OFF_NL + offset))]
    else
      [Stmt(LdAbs(size), Wrap(FixedBase(rel) + offset))]
  }

  ghost predicate Loaded(r: Step, v: Read) {
    match v
    case Val(w) => r.Next? && r.st[A_ATOM] == w
    case r' => r == Halt(r')
  }

  lemma GenLoadALoads(rel: OffRel, offset: Word, size: Size, st: State, pkt: Packet)
    ensures Loaded(ExecAll(GenLoadA(rel, offset, size), st, pkt), Field(pkt, rel, offset, size))
  {
    var code := GenLoadA(rel, offset, size);
    if rel.OrTranIpv4? {
      var base := OFF_MACPL + OFF_NL;
      ExecTwo(code[0], code[1], st, pkt);
      if Load(pkt, base, B).Val? {
        var x := 4 * (Load(pkt, base, B).w % 16);
        WrapTwice(base + offset, x);
        assert Exec(code[0], st, pkt) == Next(st[X_ATOM := x]);
      }
    } else {
      ExecOne(code[0], st, pkt);
    }
  }

  /** Loading and masking; a mask of all ones is not emitted. */
  function MaskedLoad(rel: OffRel, offset: Word, size: Size, mask: Word): seq<Stmt> {
    GenLoadA(rel, offset, size) + if mask != ALL_ONES then [Stmt(Alu(AluOp.And, K), mask)] else []
  }

  lemma MaskedLoadDecides(rel: OffRel, offset: Word, size: Size, mask: Word, test: Test, v: Word)
    ensures BlockDecides(MaskedLoad(rel, offset, size, mask), Jmp(test, K, v),
                         Meaning(Ncmp(rel, offset, size, mask, test, false, v)))
  {
    var code, t := MaskedLoad(rel, offset, size, mask), Meaning(Ncmp(rel, offset, size, mask, test, false, v));
    forall st, pkt
      ensures BlockAgrees(ExecAll(code, st, pkt), Jmp(test, K, v), t(pkt))
    {
      GenLoadALoads(rel, offset, size, st, pkt);
      MaskAgrees(GenLoadA(rel, offset, size), mask, test, v, Field(pkt, rel, offset, size), st, pkt);
    }
    MaskedLoadYields(rel, offset, size, mask);
  }

  /** Masking what some code has loaded, unless the mask is all ones. */
  lemma MaskAgrees(code: seq<Stmt>, mask: Word, test: Test, v: Word, field: Read, st: State, pkt: Packet)
    requires Loaded(ExecAll(code, st, pkt), field)
    ensures var t := if field.Val? then ToTruth(Compare(test, Words.And(field.w, mask), v)) else Failed(field);
      BlockAgrees(ExecAll(code + if mask != ALL_ONES then [Stmt(Alu(AluOp.And, K), mask)] else [], st, pkt), Jmp(test, K, v), t)
  {
    if mask == ALL_ONES {
      assert code + [] == code;
      if field.Val? {
        Pow2Is32();
        AndAllOnes(field.w, 32);
      }
    } else {
      var and := Stmt(Alu(AluOp.And, K), mask);
      ExecAllConcat(code, [and], st, pkt);
      if field.Val? {
        ExecOne(and, ExecAll(code, st, pkt).st, pkt);
      }
    }
  }

  lemma MaskedLoadYields(rel: OffRel, offset: Word, size: Size, mask: Word)
    ensures Yields(MaskedLoad(rel, offset, size, mask), {A_ATOM})
  {
    var code, tail := GenLoadA(rel, offset, size), if mask != ALL_ONES then [Stmt(Alu(AluOp.And, K), mask)] else [];
    if rel.OrTranIpv4? {
      YieldsOne(code[0]);
      YieldsSnoc([code[0]], {X_ATOM}, code[1]);
      assert code == [code[0]] + [code[1]];
    } else {
      YieldsOne(code[0]);
    }
    if tail == [] {
      assert code + tail == code;
    } else {
      YieldsSnoc(code, {A_ATOM}, tail[0]);
    }
  }

  lemma DecidesSame(f: Fragment, t: Packet -> Truth, t': Packet -> Truth)
    requires Decides(f, t) && forall pkt :: t(pkt) == t'(pkt)
    ensures Decides(f, t')
  {
    forall st, pkt
      ensures Agrees(Follow(f, f.head, st, pkt), t'(pkt))
    {
      assert Agrees(Follow(f, f.head, st, pkt), t(pkt));
    }
  }

  /** b is the last block of a fragment in memory that decides t. */
  ghost predicate Built(b: Block, f: Fragment, t: Packet -> Truth)
    reads f.nodes.Keys
  {
    b == f.last && Holds(Memory(f.nodes.Keys), f) && Blank(f.nodes.Keys) && Decides(f, t)
  }

  lemma BuiltSame(b: Block, f: Fragment, t: Packet -> Truth, t': Packet -> Truth)
    requires Built(b, f, t) && forall pkt :: t(pkt) == t'(pkt)
    ensures Built(b, f, t')
  {
    DecidesSame(f, t, t');
  }

  /** gen_not. */
  method Invert(b: Block, ghost f: Fragment, ghost t: Packet -> Truth) returns (ghost f': Fragment)
    requires Built(b, f, t)
    modifies f.nodes.Keys
    ensures f'.nodes.Keys == f.nodes.Keys && Built(b, f', Opposite(t))
  {
    hide Decides;
    NegatedDecides(f, t);
    f' := GenNot(b, f);
  }

  /** gen_ncmp. A reversed test other than "greater" is not reversed. */
  method GenNcmp(rel: OffRel, offset: Word, size: Size, mask: Word, test: Test, reverse: bool, v: Word)
    returns (b: Block, ghost f: Fragment)
    ensures fresh(f.nodes.Keys) && Built(b, f, Meaning(Ncmp(rel, offset, size, mask, test, reverse, v)))
  {
    hide Built;
    MaskedLoadDecides(rel, offset, size, mask, test, v);
    var s := GenLoadA(rel, offset, size);
    if mask != ALL_ONES {
      s := s + [Stmt(Alu(AluOp.And, K), mask)];
    }
    assert s == MaskedLoad(rel, offset, size, mask);
    ghost var t := Meaning(Ncmp(rel, offset, size, mask, test, false, v));
    b, f := GenBlock(s, Jmp(test, K, v), t);
    ghost var t' := Meaning(Ncmp(rel, offset, size, mask, test, reverse, v));
    if reverse && (test.JGT? || test.JGE?) {
      f := Invert(b, f, t);
      BuiltSame(b, f, Opposite(t), t');
    } else {
      BuiltSame(b, f, t, t');
    }
  }

  // ----- Byte strings -----

  lemma LoadBytes(pkt: Packet, at: Word, size: Size)
    requires at + Bytes(size) <= |pkt.data| && at + Bytes(size) < TWO_TO_THE_32
    ensures Load(pkt, at, size) == Val(BigEndian(pkt.data[at..at + Bytes(size)]))
  {
    if size.B? {
      var d := pkt.data[at..at + 1];
      assert d[..0] == [];
      assert BigEndian(d) == d[0];
    }
  }

  lemma SameBytes(d: seq<Octet>, bytes: seq<Octet>)
    requires |d| == |bytes| <= 4
    ensures Words.And(BigEndian(d), ALL_ONES) == BigEndian(bytes) <==> d == bytes
  {
    Pow2Is32();
    AndAllOnes(BigEndian(d), 32);
    if BigEndian(d) == BigEndian(bytes) {
      BigEndianInjective(d, bytes);
    }
  }

  /** Comparing one machine word of the packet compares its bytes. */
  lemma ChunkMeaning(pkt: Packet, rel: OffRel, offset: Word, size: Size, bytes: seq<Octet>)
    requires |bytes| == Bytes(size) && offset + |bytes| <= 0x8000_0000
    ensures Evaluate(Ncmp(rel, offset, size, ALL_ONES, JEQ, false, BigEndian(bytes)), pkt) ==
            EvalBytes(pkt, rel, offset, bytes)
  {
    hide Base, BigEndian, Words.And;
    BaseDoesNotFault(pkt, rel);
    if Base(pkt, rel).Val? {
      var at := Base(pkt, rel).w + offset;
      assert Wrap(at) == at;
      if at + |bytes| <= |pkt.data| {
        LoadBytes(pkt, at, size);
        SameBytes(pkt.data[at..at + |bytes|], bytes);
      }
    }
  }

  /** The end of a field is compared first, so only its first test can run off the packet. */
  lemma BytesAtSplit(data: seq<Octet>, at: nat, x: seq<Octet>, y: seq<Octet>)
    ensures BytesAt(data, at, x + y) ==
            match BytesAt(data, at + |x|, y) { case True => BytesAt(data, at, x) case t => t }
  {
    if at + |x + y| <= |data| {
      var d := data[at..at + |x + y|];
      assert d[..|x|] == data[at..at + |x|] && d[|x|..] == data[at + |x|..at + |x| + |y|];
      assert d == d[..|x|] + d[|x|..];
      assert (x + y)[..|x|] == x && (x + y)[|x|..] == y;
    }
  }

  lemma BytesSplit(rel: OffRel, offset: nat, x: seq<Octet>, y: seq<Octet>, f: Fragment)
    requires Decides(f, Both(BytesMeaning(rel, offset + |x|, y), BytesMeaning(rel, offset, x)))
    ensures Decides(f, BytesMeaning(rel, offset, x + y))
  {
    hide Decides, BytesAt, Base;
    var t, t' := Both(BytesMeaning(rel, offset + |x|, y), BytesMeaning(rel, offset, x)), BytesMeaning(rel, offset, x + y);
    forall pkt
      ensures t(pkt) == t'(pkt)
    {
      if Base(pkt, rel).Val? {
        BytesAtSplit(pkt.data, Base(pkt, rel).w + offset, x, y);
      }
    }
    DecidesSame(f, t, t');
  }

  lemma Unpack(b: Block, f: Fragment, t: Packet -> Truth)
    requires Built(b, f, t)
    ensures b == f.last && Holds(Memory(f.nodes.Keys), f) && Blank(f.nodes.Keys) && Decides(f, t)
  {
  }

  lemma Pack(b: Block, f: Fragment, t: Packet -> Truth)
    requires b == f.last && Holds(Memory(f.nodes.Keys), f) && Blank(f.nodes.Keys) && Decides(f, t)
    ensures Built(b, f, t)
  {
  }

  lemma WiderMemory(f0: Fragment, f1: Fragment)
    requires Holds(Memory(f0.nodes.Keys), f0) && Holds(Memory(f1.nodes.Keys), f1)
    requires Blank(f0.nodes.Keys) && Blank(f1.nodes.Keys)
    ensures Holds(Memory(FragmentBlocks(f0, f1)), f0) && Holds(Memory(FragmentBlocks(f0, f1)), f1)
    ensures Blank(FragmentBlocks(f0, f1))
  {
    var m := Memory(FragmentBlocks(f0, f1));
    HoldsWider(Memory(f0.nodes.Keys), m, f0);
    HoldsWider(Memory(f1.nodes.Keys), m, f1);
  }

  /** gen_and on two fragments built separately. */
  method Conjoin(b0: Block, b1: Block, ghost f0: Fragment, ghost f1: Fragment, ghost t0: Packet -> Truth, ghost t1: Packet -> Truth)
    returns (ghost f: Fragment)
    requires Built(b0, f0, t0) && Built(b1, f1, t1) && Disjoint(f0, f1)
    modifies f0.nodes.Keys, f1.nodes.Keys
    ensures f.nodes.Keys == f0.nodes.Keys + f1.nodes.Keys && Built(b1, f, Both(t0, t1))
  {
    hide Decides, Holds, Built, Memory, Blank;
    Unpack(b0, f0, t0);
    Unpack(b1, f1, t1);
    WiderMemory(f0, f1);
    JoinedDecides(f0, f1, ExitTrue, t0, t1);
    f := GenAnd(b0, b1, f0, f1);
    assert f.nodes.Keys == FragmentBlocks(f0, f1);
    Pack(b1, f, Both(t0, t1));
  }

  method Disjoin(b0: Block, b1: Block, ghost f0: Fragment, ghost f1: Fragment, ghost t0: Packet -> Truth, ghost t1: Packet -> Truth)
    returns (ghost f: Fragment)
    requires Built(b0, f0, t0) && Built(b1, f1, t1) && Disjoint(f0, f1)
    modifies f0.nodes.Keys, f1.nodes.Keys
    ensures f.nodes.Keys == f0.nodes.Keys + f1.nodes.Keys && Built(b1, f, Either(t0, t1))
  {
    hide Decides, Holds, Built, Memory, Blank;
    Unpack(b0, f0, t0);
    Unpack(b1, f1, t1);
    WiderMemory(f0, f1);
    JoinedDecides(f0, f1, ExitFalse, t0, t1);
    f := GenOr(b0, b1, f0, f1);
    assert f.nodes.Keys == FragmentBlocks(f0, f1);
    Pack(b1, f, Either(t0, t1));
  }

  lemma HoldsWider(m: Mem, m': Mem, f: Fragment)
    requires Holds(m, f) && m.Keys <= m'.Keys && forall b | b in m :: m'[b] == m[b]
    ensures Holds(m', f)
  {
    assert ListHolds(m, f, ExitTrue) && ListHolds(m, f, ExitFalse);
    LinkedSame(m, m', m[f.last].At(Side(m, f, ExitTrue)), f.trues);
    LinkedSame(m, m', m[f.last].At(Side(m, f, ExitFalse)), f.falses);
  }

  /** The bytes gen_bcmp compares with one test when `size` of them are left. */
  function ChunkSize(size: nat): (n: nat)
    requires size > 0
    ensures 0 < n <= size
  {
    if size >= 4 then 4 else if size >= 2 then 2 else 1
  }

  /** gen_bcmp: compare from the end of the field, four bytes at a time, then two, then one. */
  method GenBcmp(rel: OffRel, offset: Word, bytes: seq<Octet>) returns (b: Block, ghost f: Fragment)
    requires bytes != [] && offset + |bytes| <= 0x8000_0000
    ensures fresh(f.nodes.Keys) && Built(b, f, BytesMeaning(rel, offset, bytes))
  {
    hide *;
    var size;
    b, f, size := EndChunk(rel, offset, bytes);
    while size > 0
      invariant 0 <= size < |bytes|
      invariant fresh(f.nodes.Keys) && Built(b, f, BytesMeaning(rel, offset + size, bytes[size..]))
    {
      var n;
      b, f, n := AndChunk(rel, offset, bytes, size, b, f);
      size := size - n;
    }
    assert bytes[0..] == bytes;
  }

  /** The comparison of the bytes at the end. */
  method EndChunk(rel: OffRel, offset: Word, bytes: seq<Octet>) returns (b: Block, ghost f: Fragment, size: nat)
    requires bytes != [] && offset + |bytes| <= 0x8000_0000
    ensures size == |bytes| - ChunkSize(|bytes|)
    ensures fresh(f.nodes.Keys) && Built(b, f, BytesMeaning(rel, offset + size, bytes[size..]))
  {
    hide Built, BytesMeaning;
    size := |bytes| - ChunkSize(|bytes|);
    var chunk := bytes[size..];
    b, f := GenChunk(rel, offset + size, chunk);
  }

  /** One more comparison, of the bytes before `size`, made only after those from `size` on have succeeded. */
  method AndChunk(rel: OffRel, offset: Word, bytes: seq<Octet>, size: nat, b: Block, ghost f: Fragment)
    returns (b': Block, ghost f': Fragment, n: nat)
    requires 0 < size <= |bytes| && offset + |bytes| <= 0x8000_0000
    requires Built(b, f, BytesMeaning(rel, offset + size, bytes[size..]))
    modifies f.nodes.Keys
    ensures n == ChunkSize(size) && fresh(f'.nodes.Keys - f.nodes.Keys)
    ensures Built(b', f', BytesMeaning(rel, offset + (size - n), bytes[size - n..]))
  {
    hide Built, BytesMeaning;
    n := ChunkSize(size);
    SplitAt(bytes, size - n, size);
    b', f' := AndBefore(rel, offset + (size - n), bytes[size - n..size], b, f, bytes[size..]);
  }

  method AndBefore(rel: OffRel, offset: Word, chunk: seq<Octet>, b: Block, ghost f: Fragment, ghost rest: seq<Octet>)
    returns (b': Block, ghost f': Fragment)
    requires |chunk| == 4 || |chunk| == 2 || |chunk| == 1
    requires offset + |chunk| <= 0x8000_0000 && Built(b, f, BytesMeaning(rel, offset + |chunk|, rest))
    modifies f.nodes.Keys
    ensures fresh(f'.nodes.Keys - f.nodes.Keys) && Built(b', f', BytesMeaning(rel, offset, chunk + rest))
  {
    ghost var g;
    b', g := GenChunk(rel, offset, chunk);
    f' := Conjoin(b, b', f, g, BytesMeaning(rel, offset + |chunk|, rest), BytesMeaning(rel, offset, chunk));
    BytesSplit(rel, offset, chunk, rest, f');
  }

  lemma SplitAt(bytes: seq<Octet>, i: nat, j: nat)
    requires i <= j <= |bytes|
    ensures bytes[i..] == bytes[i..j] + bytes[j..] && |bytes[i..j]| == j - i
  {
  }

  method GenChunk(rel: OffRel, offset: Word, chunk: seq<Octet>) returns (b: Block, ghost f: Fragment)
    requires |chunk| == 4 || |chunk| == 2 || |chunk| == 1
    requires offset + |chunk| <= 0x8000_0000
    ensures fresh(f.nodes.Keys) && Built(b, f, BytesMeaning(rel, offset, chunk))
  {
    var size := if |chunk| == 4 then W else if |chunk| == 2 then H else B;
    var w := BigEndian(chunk);
    b, f := GenNcmp(rel, offset, size, ALL_ONES, JEQ, false, w);
    ghost var t, t' := Meaning(Ncmp(rel, offset, size, ALL_ONES, JEQ, false, w)), BytesMeaning(rel, offset, chunk);
    forall pkt
      ensures t(pkt) == t'(pkt)
    {
      ChunkMeaning(pkt, rel, offset, size, chunk);
    }
    BuiltSame(b, f, t, t');
  }

  // ----- Relations between arithmetic expressions -----

  function RelationCode(test: Test, s0: seq<Stmt>, r0: nat, s1: seq<Stmt>, r1: nat): seq<Stmt>
    requires r0 < MEM_WORDS && r1 < MEM_WORDS
  {
    s0 + s1 + [XferToX(r1), XferToA(r0)] + if test.JEQ? then [Stmt(Alu(Sub, X), 0)] else []
  }

  function RelationBranch(test: Test): Branch {
    if test.JEQ? then Jmp(JEQ, K, 0) else Jmp(test, X, 0)
  }

  lemma RelationDecides(test: Test, s0: seq<Stmt>, r0: nat, l: Expr, s1: seq<Stmt>, r1: nat, r: Expr, keep: set<nat>)
    requires Computes(s0, r0, l, keep) && Computes(s1, r1, r, keep + {r0})
    ensures BlockDecides(RelationCode(test, s0, r0, s1, r1), RelationBranch(test), Meaning(Relation(test, l, r, false)))
  {
    var code, t := RelationCode(test, s0, r0, s1, r1), Meaning(Relation(test, l, r, false));
    var loads := s0 + s1 + [XferToX(r1), XferToA(r0)];
    OperandsLoaded(s0, r0, l, s1, r1, r, keep);
    forall st, pkt
      ensures BlockAgrees(ExecAll(code, st, pkt), RelationBranch(test), t(pkt))
    {
      assert LeavesBoth(ExecAll(loads, st, pkt), Arithmetic.Eval(l, pkt), Arithmetic.Eval(r, pkt), keep, st);
      RelationDecidesOne(test, loads, l, r, keep, st, pkt);
      assert code == loads + if test.JEQ? then [Stmt(Alu(Sub, X), 0)] else [];
    }
    if test.JEQ? {
      YieldsSnoc(loads, {A_ATOM, X_ATOM}, Stmt(Alu(Sub, X), 0));
    } else {
      assert code == loads;
    }
  }

  lemma RelationDecidesOne(test: Test, loads: seq<Stmt>, l: Expr, r: Expr, keep: set<nat>, st: State, pkt: Packet)
    requires LeavesBoth(ExecAll(loads, st, pkt), Arithmetic.Eval(l, pkt), Arithmetic.Eval(r, pkt), keep, st)
    ensures BlockAgrees(ExecAll(loads + if test.JEQ? then [Stmt(Alu(Sub, X), 0)] else [], st, pkt),
                        RelationBranch(test), Evaluate(Relation(test, l, r, false), pkt))
  {
    if test.JEQ? {
      DifferenceDecides(loads, l, r, keep, st, pkt);
    } else {
      assert loads + [] == loads;
    }
  }

  /** Equality is decided by comparing the difference with zero. */
  lemma DifferenceDecides(loads: seq<Stmt>, l: Expr, r: Expr, keep: set<nat>, st: State, pkt: Packet)
    requires LeavesBoth(ExecAll(loads, st, pkt), Arithmetic.Eval(l, pkt), Arithmetic.Eval(r, pkt), keep, st)
    ensures BlockAgrees(ExecAll(loads + [Stmt(Alu(Sub, X), 0)], st, pkt), RelationBranch(JEQ), Evaluate(Relation(JEQ, l, r, false), pkt))
  {
    var sub := Stmt(Alu(Sub, X), 0);
    ExecAllConcat(loads, [sub], st, pkt);
    hide ExecAll, Eval;
    if ExecAll(loads, st, pkt).Next? {
      ExecOne(sub, ExecAll(loads, st, pkt).st, pkt);
      DifferenceZero(ExecAll(loads, st, pkt).st, pkt);
      hide Exec;
    }
  }

  lemma DifferenceZero(st: State, pkt: Packet)
    ensures var r := Exec(Stmt(Alu(Sub, X), 0), st, pkt); r.Next? && (r.st[A_ATOM] == 0 <==> st[A_ATOM] == st[X_ATOM])
  {
  }

  datatype Option<T> = None | Some(value: T)

  method RelationBlock(code: seq<Stmt>, test: Test, reversed: bool, ghost l: Expr, ghost r: Expr) returns (b: Block, ghost f: Fragment)
    requires BlockDecides(code, RelationBranch(test), Meaning(Relation(test, l, r, false)))
    ensures fresh(f.nodes.Keys) && Built(b, f, Meaning(Relation(test, l, r, reversed)))
  {
    hide Built, BlockDecides;
    ghost var t := Meaning(Relation(test, l, r, false));
    b, f := GenBlock(code, RelationBranch(test), t);
    if reversed {
      f := Invert(b, f, t);
      BuiltSame(b, f, Opposite(t), Meaning(Relation(test, l, r, reversed)));
    }
  }

  /** The operands of a relation, left one first. Null exactly when the scratch registers run out. */
  method GenOperands(regs: Registers, l: Expr, r: Expr) returns (a0: Arth?, a1: Arth?)
    requires regs.Valid()
    modifies regs`curreg, regs.regused
    ensures regs.Valid() && (a0 != null <==> a1 != null)
    ensures a0 != null <==> |old(regs.Used())| + Max(Need(l), 1 + Need(r)) <= MEM_WORDS
    ensures a0 != null ==>
      && a0.regno !in old(regs.Used()) && a1.regno !in old(regs.Used()) + {a0.regno}
      && regs.Used() == old(regs.Used()) + {a0.regno} + {a1.regno}
      && Computes(a0.s, a0.regno, l, old(regs.Used())) && Computes(a1.s, a1.regno, r, old(regs.Used()) + {a0.regno})
  {
    hide Computes;
    a1 := null;
    a0 := GenExpr(regs, l);
    if a0 == null { return; }
    a1 := GenExpr(regs, r);
    if a1 == null { a0 := null; }
  }

  /** gen_relation. Null exactly when the scratch registers run out. */
  method GenRelation(regs: Registers, test: Test, l: Expr, r: Expr, reversed: bool)
    returns (b: Block?, ghost f: Option<Fragment>)
    requires regs.Valid()
    modifies regs`curreg, regs.regused
    ensures regs.Valid()
    ensures b != null ==> f.Some? && fresh(f.value.nodes.Keys) && Built(b, f.value, Meaning(Relation(test, l, r, reversed)))
    ensures b != null ==> regs.Used() == old(regs.Used())
    ensures b != null <==> Enough(old(regs.Used()), Relation(test, l, r, reversed))
  {
    hide Built, RelationCode, RelationBranch, BlockDecides, Need, Yields, Leaves, Tame;
    b, f := null, None;
    var a0, a1 := GenOperands(regs, l, r);
    if a0 == null { return; }
    RelationDecides(test, a0.s, a0.regno, l, a1.s, a1.regno, r, old(regs.Used()));
    hide Computes;
    ghost var g;
    b, g := RelationBlock(RelationCode(test, a0.s, a0.regno, a1.s, a1.regno), test, reversed, l, r);
    regs.Free(a0.regno);
    regs.Free(a1.regno);
    f := Some(g);
  }

  // ----- Whole expressions -----

  /** The parser's actions for an expression. Null exactly when the scratch registers run out. */
  method Generate(regs: Registers, e: Filter) returns (b: Block?, ghost f: Option<Fragment>)
    requires regs.Valid() && WellFormed(e)
    modifies regs`curreg, regs.regused
    ensures regs.Valid()
    ensures b != null ==> f.Some? && fresh(f.value.nodes.Keys) && Built(b, f.value, Meaning(e))
    ensures b != null ==> regs.Used() == old(regs.Used())
    ensures b != null <==> Enough(old(regs.Used()), e)
    decreases e
  {
    hide Built;
    b, f := null, None;
    ghost var g;
    match e {
      case Ncmp(rel, offset, size, mask, test, reverse, v) =>
        b, g := GenNcmp(rel, offset, size, mask, test, reverse, v);
        f := Some(g);
      case Bcmp(rel, offset, bytes) =>
        b, g := GenBcmp(rel, offset, bytes);
        BuiltSame(b, g, BytesMeaning(rel, offset, bytes), Meaning(e));
        f := Some(g);
      case Relation(test, l, r, reversed) =>
        b, f := GenRelation(regs, test, l, r, reversed);
      case Neg(e0) =>
        b, f := Generate(regs, e0);
        if b == null { return; }
        g := Invert(b, f.value, Meaning(e0));
        BuiltSame(b, g, Opposite(Meaning(e0)), Meaning(e));
        f := Some(g);
      case _ =>
        b, f := GeneratePair(regs, e);
    }
  }

  method GeneratePair(regs: Registers, e: Filter) returns (b: Block?, ghost f: Option<Fragment>)
    requires regs.Valid() && WellFormed(e) && (e.Conj? || e.Disj?)
    modifies regs`curreg, regs.regused
    ensures regs.Valid()
    ensures b != null ==> f.Some? && fresh(f.value.nodes.Keys) && Built(b, f.value, Meaning(e))
    ensures b != null ==> regs.Used() == old(regs.Used())
    ensures b != null <==> Enough(old(regs.Used()), e)
    decreases e, 0
  {
    hide Built;
    b, f := null, None;
    ghost var g, f1;
    var b0, b1;
    b0, f := Generate(regs, e.f0);
    if b0 == null { return; }
    b1, f1 := Generate(regs, e.f1);
    if b1 == null { return; }
    ghost var t0, t1 := Meaning(e.f0), Meaning(e.f1);
    if e.Conj? {
      g := Conjoin(b0, b1, f.value, f1.value, t0, t1);
      BuiltSame(b1, g, Both(t0, t1), Meaning(e));
    } else {
      g := Disjoin(b0, b1, f.value, f1.value, t0, t1);
      BuiltSame(b1, g, Either(t0, t1), Meaning(e));
    }
    b, f := b1, Some(g);
  }
}
