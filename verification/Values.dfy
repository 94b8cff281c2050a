/** Value numbering: the hash-consed table of values, and the rewriting of statements it allows. */
module Values {
  import opened Words
  import opened Ir
  import opened Opcodes
  import opened Flowgraph
  import opened Liveness

  // ----- What value numbers stand for -----

  /** An operation on constants or on other value numbers. Number n belongs to the n-th entry of the table. */
  datatype Triple = Triple(code: Code, v0: nat, v1: nat)

  /** What an operation computes from its constants, or from the words its operand numbers stand for. */
  function Apply(op: Op, v0: nat, x0: Read, x1: Read, pkt: Packet): Read {
    match op
    case LdAbs(size) => if v0 < TWO_TO_THE_32 then Load(pkt, v0, size) else Faulted
    case LdInd(size) => if v0 < TWO_TO_THE_32 && x1.Val? then Load(pkt, Wrap(x1.w + v0), size) else Faulted
    case LdLen => Val(pkt.wirelen)
    case LdImm => if v0 < TWO_TO_THE_32 then Val(v0) else Faulted
    case LdxMsh => if v0 < TWO_TO_THE_32 then ValueOf(Stmt(LdxMsh, v0), Zeroed(), pkt) else Faulted
    case Neg => if x0.Val? then Val(Wrap(-(x0.w as int))) else Faulted
    case Alu(f, _) => if x0.Val? && x1.Val? then Arith(f, X, x0.w, x1.w) else Faulted
    case _ => Faulted
  }

  /** The word a number stands for on a packet; zero stands for nothing. */
  function Nu(es: seq<Triple>, n: nat, pkt: Packet): Read
    decreases n
  {
    if n == 0 || n > |es| then Faulted
    else
      var e := es[n - 1];
      if !Decode(e.code).Do? then Faulted
      else Apply(Decode(e.code).op, e.v0, if e.v0 < n then Nu(es, e.v0, pkt) else Faulted, if e.v1 < n then Nu(es, e.v1, pkt) else Faulted, pkt)
  }

  /** A longer table gives the numbers of a shorter one the same meaning. */
  lemma {:induction false} NuExtends(es: seq<Triple>, es': seq<Triple>, n: nat, pkt: Packet)
    requires es <= es' && n <= |es|
    ensures Nu(es', n, pkt) == Nu(es, n, pkt)
    decreases n
  {
    hide Apply;
    if n > 0 {
      var e := es[n - 1];
      assert es'[n - 1] == e;
      if e.v0 < n { NuExtends(es, es', e.v0, pkt); }
      if e.v1 < n { NuExtends(es, es', e.v1, pkt); }
    }
  }

  /** The known numbers of some atoms stand for the words the atoms hold. */
  ghost predicate MatchesOn(es: seq<Triple>, val: seq<nat>, atoms: set<int>, st: State, pkt: Packet)
    requires |val| == N_ATOMS
  {
    forall i | 0 <= i < N_ATOMS && i in atoms && val[i] != 0 :: Nu(es, val[i], pkt) == Val(st[i])
  }

  ghost predicate InTable(es: seq<Triple>, val: seq<nat>) {
    |val| == N_ATOMS && forall i | 0 <= i < N_ATOMS :: val[i] <= |es|
  }

  lemma MatchesExtends(es: seq<Triple>, es': seq<Triple>, val: seq<nat>, atoms: set<int>, st: State, pkt: Packet)
    requires es <= es' && InTable(es, val)
    ensures MatchesOn(es', val, atoms, st, pkt) <==> MatchesOn(es, val, atoms, st, pkt)
  {
    forall i | 0 <= i < N_ATOMS
      ensures Nu(es', val[i], pkt) == Nu(es, val[i], pkt)
    {
      NuExtends(es, es', val[i], pkt);
    }
  }

  predicate Known(val: seq<nat>, s: Stmt)
    requires |val| == N_ATOMS
  {
    !s.op.LdxLen? && forall i | 0 <= i < N_ATOMS && i in AtomUse(s) :: val[i] != 0
  }

  /**
   * Number v is right for what s defines, and s1 does what s does, wherever the numbers of what s
   * reads are right and s does not fail.
   */
  ghost predicate Sound(es: seq<Triple>, val: seq<nat>, s: Stmt, s1: Stmt, v: nat)
    requires |val| == N_ATOMS
  {
    Known(val, s) ==>
      && 0 < v <= |es|
      && forall st, pkt | MatchesOn(es, val, AtomUse(s), st, pkt) && Exec(s, st, pkt).Next? ::
           Nu(es, v, pkt) == ValueOf(s, st, pkt) && Exec(s1, st, pkt) == Exec(s, st, pkt)
  }

  // ----- The table -----

  const MODULUS: nat := 213

  function Hash(t: Triple): (h: nat)
    ensures h < MODULUS
  {
    Xor(Xor(t.code, Wrap(t.v0 * 16)), Wrap(t.v1 * 256)) % MODULUS
  }

  datatype Valnode = Valnode(t: Triple, val: nat)
  datatype VmapInfo = VmapInfo(isConst: bool, constVal: nat)

  predicate IsImmediate(code: Code) { Mode(code) == IMM && (Class(code) == LD || Class(code) == LDX) }

  ghost predicate DistinctEntries(es: seq<Triple>) {
    forall i, j | 0 <= i < j < |es| :: es[i] != es[j]
  }

  /** The switch of fold_op. */
  method FoldWords(op: AluOp, a: Word, b: Word) returns (ok: bool, k: Word)
    ensures ok <==> !(op.Div? && b == 0)
    ensures ok ==> k == Compute(op, a, b)
  {
    hide Wrap, Quotient, Words.And, OrWord, ShiftLeft, ShiftRight;
    ok, k := true, 0;
    match op {
      case Add => k := Wrap(a + b);
      case Sub => k := Wrap(a - b);
      case Mul => k := Wrap(a * b);
      case Div =>
        if b == 0 { return false, 0; }
        k := Quotient(a, b);
      case And => k := Words.And(a, b);
      case Or => k := OrWord(a, b);
      case Lsh => k := ShiftLeft(a, b);
      case Rsh => k := ShiftRight(a, b);
    }
  }

  class ValueTable {
    const hashtbl: array<seq<Valnode>>
    const vmap: array<VmapInfo>
    var curval: nat
    ghost var entries: seq<Triple>

    ghost predicate Valid()
      reads this, hashtbl, vmap
    {
      && curval == |entries| < vmap.Length && DistinctEntries(entries) && hashtbl.Length == MODULUS && AllProper(entries)
      && Chained(hashtbl[..], entries) && Mapped(vmap[..], entries)
    }

    /** init_val, and the allocation of its tables. */
    constructor (maxval: nat)
      requires maxval > 0
      ensures Valid() && entries == [] && vmap.Length == maxval && fresh(hashtbl) && fresh(vmap)
    {
      hashtbl := new seq<Valnode>[MODULUS](_ => []);
      vmap := new VmapInfo[maxval](_ => VmapInfo(false, 0));
      curval, entries := 0, [];
    }

    /** F: equal triples get equal numbers, a new triple gets the next number. */
    method F(code: Code, v0: nat, v1: nat) returns (val: nat)
      requires Valid() && curval + 1 < vmap.Length && Proper(Triple(code, v0, v1), curval)
      modifies this, hashtbl, vmap
      ensures Valid() && old(entries) <= entries
      ensures 0 < val <= |entries| && entries[val - 1] == Triple(code, v0, v1)
      ensures entries == if Triple(code, v0, v1) in old(entries) then old(entries) else old(entries) + [Triple(code, v0, v1)]
    {
      hide Hash, IsImmediate, Mapped, DistinctEntries, Proper;
      var t := Triple(code, v0, v1);
      var hash := Hash(t);
      for i := 0 to |hashtbl[hash]|
        invariant forall k | 0 <= k < i :: hashtbl[hash][k].t != t
      {
        if hashtbl[hash][i].t == t {
          ChainedAt(hashtbl[..], entries, hash, i);
          return hashtbl[hash][i].val;
        }
      }
      NotEntered(hashtbl[..], entries, t);
      Entered(hashtbl[..], vmap[..], entries, t);
      val := curval + 1;
      curval := val;
      vmap[val] := if IsImmediate(code) then VmapInfo(true, v0) else VmapInfo(false, 0);
      hashtbl[hash] := [Valnode(t, val)] + hashtbl[hash];
      entries := entries + [t];
    }

    /** Number an operation. */
    method Number(op: Op, v0: nat, v1: nat) returns (v: nat)
      requires Valid() && |entries| + 1 < vmap.Length && !op.Nop?
      requires match op
        case LdImm => v0 < TWO_TO_THE_32 && v1 == 0
        case LdxImm => false
        case LdInd(_) => v1 <= |entries|
        case Neg => v0 <= |entries|
        case Alu(_, _) => v0 <= |entries| && v1 <= |entries|
        case _ => true
      modifies this, hashtbl, vmap
      ensures Valid() && old(entries) <= entries && |entries| <= |old(entries)| + 1 && Is(entries, v, op, v0, v1)
      ensures op.LdImm? ==> IsConst(entries, v)
    {
      Immediates(op);
      v := F(OpCode(op), v0, v1);
    }

    /** K: number a constant. */
    method K(k: Word) returns (v: nat)
      requires Valid() && |entries| + 1 < vmap.Length
      modifies this, hashtbl, vmap
      ensures Valid() && old(entries) <= entries && |entries| <= |old(entries)| + 1
      ensures Is(entries, v, LdImm, k, 0) && IsConst(entries, v) && entries[v - 1].v0 == k
    {
      v := Number(LdImm, k, 0);
    }

    /** Whether a number is known to be a constant, and which. */
    method Constant(v: nat) returns (isConst: bool, k: Word)
      requires Valid() && v <= |entries|
      ensures isConst <==> IsConst(entries, v)
      ensures isConst ==> k == entries[v - 1].v0
    {
      isConst, k := vmap[v].isConst, 0;
      if v > 0 {
        assert vmap[..][v - 1 + 1].isConst == IsImmediate(entries[v - 1].code);
        Immediates(LdImm);
      }
      if isConst { k := vmap[v].constVal; }
    }

    /** fold_op; dividing by a constant zero is an error. */
    method FoldOp(op: AluOp, v0: nat, v1: nat) returns (ok: bool, k: Word)
      requires Valid() && IsConst(entries, v0) && IsConst(entries, v1)
      ensures ok <==> !(op.Div? && entries[v1 - 1].v0 == 0)
      ensures ok ==> k == Compute(op, entries[v0 - 1].v0, entries[v1 - 1].v0)
    {
      var _, a := Constant(v0);
      var _, b := Constant(v1);
      ok, k := FoldWords(op, a, b);
    }

    /** opt_stmt on arithmetic with an immediate operand. */
    method OptAluK(s: Stmt, val: seq<nat>, alter: bool) returns (ok: bool, s1: Stmt, v: nat)
      requires Valid() && InTable(entries, val) && s.op.Alu? && s.op.src.K? && |entries| + 2 < vmap.Length
      modifies this, hashtbl, vmap
      ensures Valid() && old(entries) <= entries && |entries| <= |old(entries)| + 2 && InTable(entries, val)
      ensures ok ==> v <= |entries| && Sound(entries, val, s, s1, v)
      ensures ok <==> !Refused(entries, val, s, alter)
      ensures ok ==> Picked(entries, val, s, alter, s1, v)
    {
      hide Sound, Valid, Is, Compute;
      ok, s1, v := true, s, val[A_ATOM];
      var op := s.op.alu;
      if alter {
        if s.k == 0 {
          if op.Add? || op.Lsh? || op.Rsh? || op.Or? {
            s1 := s.(op := Nop);
            SoundNothing(entries, val, s);
            return;
          }
          if op.Mul? || op.And? {
            s1 := s.(op := LdImm);
            v := K(s.k);
            SoundZero(entries, val, s, v);
            return;
          }
        }
        var isConst, _ := Constant(val[A_ATOM]);
        if isConst {
          var kv := K(s.k);
          var k;
          ok, k := FoldOp(op, val[A_ATOM], kv);
          if !ok { return; }
          s1 := Stmt(LdImm, k);
          v := K(k);
          SoundFold(entries, val, s, kv, v, k);
          return;
        }
      }
      var kv := K(s.k);
      v := Number(s.op, val[A_ATOM], kv);
      SoundAlu(entries, val, s, s, kv, v);
    }

    /** opt_stmt on arithmetic with the index register. Where it uses vstore, vanish is set. */
    method OptAluX(s: Stmt, val: seq<nat>, alter: bool) returns (ok: bool, s1: Stmt, v: nat, vanish: bool)
      requires Valid() && InTable(entries, val) && s.op.Alu? && s.op.src.X? && |entries| + 2 < vmap.Length
      modifies this, hashtbl, vmap
      ensures Valid() && old(entries) <= entries && |entries| <= |old(entries)| + 2 && InTable(entries, val)
      ensures ok ==> v <= |entries| && Sound(entries, val, s, s1, v)
      ensures ok <==> !Refused(entries, val, s, alter)
      ensures ok ==> Picked(entries, val, s, alter, s1, v) && (vanish <==> alter && Vanishes(entries, val, s))
    {
      hide Sound, Valid, Is, Compute;
      ok, s1, v, vanish := true, s, val[A_ATOM], false;
      var op := s.op.alu;
      var xConst, x := Constant(val[X_ATOM]);
      var aConst, a := Constant(val[A_ATOM]);
      if alter && xConst {
        if aConst {
          var k;
          ok, k := FoldOp(op, val[A_ATOM], val[X_ATOM]);
          if !ok { return; }
          s1 := Stmt(LdImm, k);
          v := K(k);
          SoundFold(entries, val, s, val[X_ATOM], v, k);
        } else {
          s1 := Stmt(Alu(op, Operand.K), x);
          var kv := K(x);
          v := Number(s1.op, val[A_ATOM], kv);
          SoundAluImmediate(entries, val, s, s1, kv, v);
        }
        return;
      }
      if alter && aConst && a == 0 {
        if op.Add? || op.Or? {
          s1, v, vanish := s.(op := Txa), val[X_ATOM], true;
          SoundTxa(entries, val, s, s1);
          return;
        } else if !op.Sub? {
          s1, vanish := Stmt(LdImm, 0), true;
          v := K(0);
          SoundZero(entries, val, s, v);
          return;
        }
      }
      v := Number(s.op, val[A_ATOM], val[X_ATOM]);
      SoundAlu(entries, val, s, s, val[X_ATOM], v);
    }

    /** opt_stmt on loads from the packet and of constants. */
    method OptLoad(s: Stmt, val: seq<nat>, alter: bool) returns (s1: Stmt, v: nat)
      requires Valid() && InTable(entries, val) && |entries| + 2 < vmap.Length
      requires s.op.LdAbs? || s.op.LdInd? || s.op.LdLen? || s.op.LdImm? || s.op.LdxImm? || s.op.LdxMsh?
      modifies this, hashtbl, vmap
      ensures Valid() && old(entries) <= entries && |entries| <= |old(entries)| + 2 && InTable(entries, val)
      ensures Picked(entries, val, s, alter, s1, v)
      ensures v <= |entries| && Sound(entries, val, s, s1, v)
    {
      hide Sound, Valid, Picked;
      s1 := s;
      match s.op {
        case LdInd(size) =>
          var isConst, x := Constant(val[X_ATOM]);
          if alter && isConst {
            s1 := Stmt(LdAbs(size), Wrap(s.k + x));
            v := Number(s1.op, s1.k, 0);
          } else {
            v := Number(s.op, s.k, val[X_ATOM]);
          }
          SoundInd(entries, val, s, s1, v);
        case LdLen =>
          v := Number(s.op, 0, 0);
          SoundLoad(entries, val, s, v);
        case LdImm =>
          v := K(s.k);
          SoundLoad(entries, val, s, v);
        case LdxImm =>
          v := K(s.k);
          SoundLoad(entries, val, s, v);
        case LdAbs(_) =>
          v := Number(s.op, s.k, 0);
          SoundLoad(entries, val, s, v);
        case LdxMsh =>
          v := Number(s.op, s.k, 0);
          SoundLoad(entries, val, s, v);
      }
      PickedLoad(entries, val, s, alter, s1, v);
    }

    /** opt_stmt on copies between registers and scratch memory. */
    method OptCopy(s: Stmt, val: seq<nat>, alter: bool) returns (s1: Stmt, v: nat)
      requires Valid() && InTable(entries, val) && InScratch(s)
      requires IsCopy(s)
      ensures Picked(entries, val, s, alter, s1, v)
      ensures v <= |entries| && Sound(entries, val, s, s1, v)
      ensures v == val[CopySource(s)] && MayCopy(entries, v, s, s1)
    {
      hide Sound, Valid;
      s1 := s;
      var from := CopySource(s);
      v := val[from];
      if s.op.LdMem? || s.op.LdxMem? {
        var isConst, k := Constant(v);
        if alter && isConst {
          s1 := Stmt(if s.op.LdMem? then LdImm else LdxImm, k);
        }
      }
      SoundCopy(entries, val, s, s1, from);
    }

    method OptNeg(s: Stmt, val: seq<nat>, alter: bool) returns (s1: Stmt, v: nat)
      requires Valid() && InTable(entries, val) && s.op.Neg? && |entries| + 2 < vmap.Length
      modifies this, hashtbl, vmap
      ensures Valid() && old(entries) <= entries && |entries| <= |old(entries)| + 2 && InTable(entries, val)
      ensures Picked(entries, val, s, alter, s1, v)
      ensures v <= |entries| && Sound(entries, val, s, s1, v)
    {
      hide Sound, Valid;
      s1 := s;
      var isConst, a := Constant(val[A_ATOM]);
      if alter && isConst {
        s1 := Stmt(LdImm, Wrap(-(a as int)));
        v := K(s1.k);
      } else {
        v := Number(s.op, val[A_ATOM], 0);
      }
      SoundNeg(entries, val, s, s1, v);
    }

    /**
     * opt_stmt: number what a statement computes, and with alter simplify it. Fails on a constant
     * division by zero. It has no case for the packet length loaded into the index register.
     */
    method OptStmt(s: Stmt, val: seq<nat>, alter: bool) returns (ok: bool, s': Stmt, val': seq<nat>)
      requires Valid() && InTable(entries, val) && InScratch(s) && (!s.op.Nop? ==> |entries| + 2 < vmap.Length)
      modifies this, hashtbl, vmap
      ensures Valid() && old(entries) <= entries && |entries| <= |old(entries)| + if s.op.Nop? then 0 else 2
      ensures ok ==> InTable(entries, val') && StmtStep(entries, val, s, s', val', alter)
      ensures ok <==> !Refused(entries, val, s, alter)
    {
      hide Sound, Valid, Picked, Refused, Vanishes, IsConst;
      ok, s', val' := true, s, val;
      NeverRefused(entries, val, s, alter);
      if s.op.Nop? || s.op.LdxLen? { return; }
      var s1, v, vanish := s, 0, alter;
      match s.op {
        case Alu(_, K) => ok, s1, v := OptAluK(s, val, alter); vanish := false;
        case Alu(_, X) => ok, s1, v, vanish := OptAluX(s, val, alter);
        case Neg => s1, v := OptNeg(s, val, alter); vanish := false;
        case LdMem => s1, v := OptCopy(s, val, alter);
        case LdxMem => s1, v := OptCopy(s, val, alter);
        case St => s1, v := OptCopy(s, val, alter);
        case Stx => s1, v := OptCopy(s, val, alter);
        case Tax => s1, v := OptCopy(s, val, alter);
        case Txa => s1, v := OptCopy(s, val, alter);
        case LdAbs(_) => s1, v := OptLoad(s, val, alter);
        case LdInd(_) => s1, v := OptLoad(s, val, alter);
        case LdLen => s1, v := OptLoad(s, val, alter);
        case LdImm => s1, v := OptLoad(s, val, alter);
        case LdxImm => s1, v := OptLoad(s, val, alter);
        case LdxMsh => s1, v := OptLoad(s, val, alter);
      }
      if !ok { return; }
      NeverRefused(entries, val, s, alter);
      PickedAsIs(entries, val, s, alter, s1, v);
      var r := Stored(s1, val, AtomDef(s), v, vanish);
      s', val' := r.0, r.1;
      assert StmtStepBy(entries, val, s, s', val', alter, s1, v, vanish);
    }
  }

  /** Operands are older than the entry, and the only immediate operation is the load of a constant into the accumulator. */
  ghost predicate Proper(e: Triple, n: nat) {
    && (IsImmediate(e.code) ==> e.code == OpCode(LdImm) && e.v0 < TWO_TO_THE_32 && e.v1 == 0)
    && match Decode(e.code)
       case Do(LdInd(_)) => e.v1 <= n
       case Do(Neg) => e.v0 <= n
       case Do(Alu(_, _)) => e.v0 <= n && e.v1 <= n
       case _ => true
  }

  ghost predicate AllProper(es: seq<Triple>) {
    forall n | 0 <= n < |es| :: Proper(es[n], n)
  }

  /** Every chain holds entries with that hash, and every entry is in the chain of its hash. */
  ghost predicate Chained(tbl: seq<seq<Valnode>>, es: seq<Triple>) {
    |tbl| == MODULUS && (forall h | 0 <= h < MODULUS :: NodesRight(tbl[h], es)) && AllChained(tbl, es)
  }

  ghost predicate NodesRight(chain: seq<Valnode>, es: seq<Triple>) {
    forall k | 0 <= k < |chain| :: 0 < chain[k].val <= |es| && es[chain[k].val - 1] == chain[k].t
  }

  ghost predicate AllChained(tbl: seq<seq<Valnode>>, es: seq<Triple>)
    requires |tbl| == MODULUS
  {
    forall n | 0 <= n < |es| :: Valnode(es[n], n + 1) in tbl[Hash(es[n])]
  }

  /** The map of numbers knows just the constants. */
  ghost predicate Mapped(vmap: seq<VmapInfo>, es: seq<Triple>) {
    && |es| < |vmap| && !vmap[0].isConst
    && forall n | 0 <= n < |es| ::
         vmap[n + 1].isConst == IsImmediate(es[n].code) && (vmap[n + 1].isConst ==> vmap[n + 1].constVal == es[n].v0)
  }

  lemma ChainedAt(tbl: seq<seq<Valnode>>, es: seq<Triple>, h: nat, k: nat)
    requires Chained(tbl, es) && h < MODULUS && k < |tbl[h]|
    ensures 0 < tbl[h][k].val <= |es| && es[tbl[h][k].val - 1] == tbl[h][k].t && tbl[h][k].t in es
  {
    assert NodesRight(tbl[h], es);
  }

  lemma NotEntered(tbl: seq<seq<Valnode>>, es: seq<Triple>, t: Triple)
    requires Chained(tbl, es) && forall k | 0 <= k < |tbl[Hash(t)]| :: tbl[Hash(t)][k].t != t
    ensures t !in es
  {
    forall n | 0 <= n < |es|
      ensures es[n] != t
    {
      assert Valnode(es[n], n + 1) in tbl[Hash(es[n])];
    }
  }

  lemma Entered(tbl: seq<seq<Valnode>>, vmap: seq<VmapInfo>, es: seq<Triple>, t: Triple)
    requires Chained(tbl, es) && Mapped(vmap, es) && DistinctEntries(es) && t !in es && |es| + 1 < |vmap|
    ensures var info := if IsImmediate(t.code) then VmapInfo(true, t.v0) else VmapInfo(false, 0);
      Mapped(vmap[|es| + 1 := info], es + [t])
    ensures DistinctEntries(es + [t])
    ensures Chained(tbl[Hash(t) := [Valnode(t, |es| + 1)] + tbl[Hash(t)]], es + [t])
  {
    EnteredChain(tbl, es, t, Hash(t));
    hide Chained, Hash;
  }

  lemma EnteredChain(tbl: seq<seq<Valnode>>, es: seq<Triple>, t: Triple, h: nat)
    requires Chained(tbl, es) && h == Hash(t)
    ensures Chained(tbl[h := [Valnode(t, |es| + 1)] + tbl[h]], es + [t])
  {
    hide Hash;
    var tbl': seq<seq<Valnode>> := tbl[h := [Valnode(t, |es| + 1)] + tbl[h]];
    var es' := es + [t];
    forall g | 0 <= g < MODULUS
      ensures NodesRight(tbl'[g], es')
    {
      assert NodesRight(tbl[g], es);
    }
    forall n | 0 <= n < |es'|
      ensures Valnode(es'[n], n + 1) in tbl'[Hash(es'[n])]
    {
      if n < |es| {
        assert Valnode(es[n], n + 1) in tbl[Hash(es[n])];
        InTail(Valnode(t, |es| + 1), tbl[h], Valnode(es[n], n + 1));
      } else {
        assert tbl'[h][0] == Valnode(t, n + 1);
      }
    }
  }

  lemma InTail(x: Valnode, s: seq<Valnode>, y: Valnode)
    ensures y in s ==> y in [x] + s
  {
  }

  // ----- What opt_stmt does to a statement -----

  ghost predicate HasConst(es: seq<Triple>, v: nat, k: Word) { IsConst(es, v) && es[v - 1].v0 == k }

  /** A division of a constant accumulator by a constant zero, which is an error when statements are rewritten. */
  ghost predicate Refused(es: seq<Triple>, val: seq<nat>, s: Stmt, alter: bool)
    requires |val| == N_ATOMS
  {
    && alter && s.op.Alu? && s.op.alu.Div? && IsConst(es, val[A_ATOM])
    && (if s.op.src.K? then s.k == 0 else HasConst(es, val[X_ATOM], 0))
  }

  lemma NeverRefused(es: seq<Triple>, val: seq<nat>, s: Stmt, alter: bool)
    requires |val| == N_ATOMS
    ensures !s.op.Alu? ==> !Refused(es, val, s, alter)
    ensures (s.op.Alu? && s.op.src.K?) || s.op.Neg? ==> !Vanishes(es, val, s)
    ensures !s.op.Alu? && !s.op.Neg? ==> Vanishes(es, val, s)
  {
  }

  /** The statement a statement is rewritten to, given which atoms hold constants. */
  ghost function Simplified(es: seq<Triple>, val: seq<nat>, s: Stmt): Stmt
    requires |val| == N_ATOMS && InScratch(s) && !Refused(es, val, s, true)
  {
    var a, x := val[A_ATOM], val[X_ATOM];
    match s.op
    case Alu(op, src) =>
      if src.K? then
        if s.k == 0 && (op.Add? || op.Lsh? || op.Rsh? || op.Or?) then s.(op := Nop)
        else if s.k == 0 && (op.Mul? || op.And?) then s.(op := LdImm)
        else if IsConst(es, a) then Stmt(LdImm, Compute(op, es[a - 1].v0, s.k))
        else s
      else if IsConst(es, x) then
        if IsConst(es, a) then Stmt(LdImm, Compute(op, es[a - 1].v0, es[x - 1].v0)) else Stmt(Alu(op, Operand.K), es[x - 1].v0)
      else if HasConst(es, a, 0) && (op.Add? || op.Or?) then s.(op := Txa)
      else if HasConst(es, a, 0) && !op.Sub? then Stmt(LdImm, 0)
      else s
    case Neg => if IsConst(es, a) then Stmt(LdImm, Wrap(-(es[a - 1].v0 as int))) else s
    case LdInd(size) => if IsConst(es, x) then Stmt(LdAbs(size), Wrap(s.k + es[x - 1].v0)) else s
    case LdMem => if IsConst(es, val[s.k]) then Stmt(LdImm, es[val[s.k] - 1].v0) else s
    case LdxMem => if IsConst(es, val[s.k]) then Stmt(LdxImm, es[val[s.k] - 1].v0) else s
    case _ => s
  }

  /** Whether the number is stored with vstore, which deletes a statement that stores the number already there. */
  ghost predicate Vanishes(es: seq<Triple>, val: seq<nat>, s: Stmt)
    requires |val| == N_ATOMS
  {
    match s.op
    case Alu(op, src) => src.X? && !IsConst(es, val[X_ATOM]) && HasConst(es, val[A_ATOM], 0) && !op.Sub?
    case Neg => false
    case _ => true
  }

  /** The number of what the statement s, rewritten to s1, defines. */
  ghost predicate NumberOf(es: seq<Triple>, val: seq<nat>, s: Stmt, s1: Stmt, v: nat)
    requires |val| == N_ATOMS && InScratch(s)
  {
    if IsCopy(s) then v == val[CopySource(s)]
    else
      match s1.op
      case Nop => v == val[A_ATOM]
      case Txa => v == val[X_ATOM]
      case LdImm => HasConst(es, v, s1.k)
      case LdxImm => HasConst(es, v, s1.k)
      case LdAbs(_) => Is(es, v, s1.op, s1.k, 0)
      case LdInd(_) => Is(es, v, s1.op, s1.k, val[X_ATOM])
      case LdLen => Is(es, v, s1.op, 0, 0)
      case LdxMsh => Is(es, v, s1.op, s1.k, 0)
      case Neg => Is(es, v, s1.op, val[A_ATOM], 0)
      case Alu(_, X) => Is(es, v, s1.op, val[A_ATOM], val[X_ATOM])
      case Alu(_, K) => exists kv :: HasConst(es, kv, s1.k) && Is(es, v, s1.op, val[A_ATOM], kv)
      case _ => false
  }

  /** What opt_stmt chooses for a statement, and the number of what that defines. */
  ghost predicate Picked(es: seq<Triple>, val: seq<nat>, s: Stmt, alter: bool, s1: Stmt, v: nat)
    requires |val| == N_ATOMS && InScratch(s) && !Refused(es, val, s, alter)
  {
    s1 == (if alter then Simplified(es, val, s) else s) && NumberOf(es, val, s, s1, v)
  }

  /** vstore: with vanish, a statement that would store the number already there is deleted. */
  function Stored(s1: Stmt, val: seq<nat>, d: int, v: nat, vanish: bool): (Stmt, seq<nat>)
    requires 0 <= d < |val|
  {
    if vanish && val[d] == v then (s1.(op := Nop), val) else (s1, val[d := v])
  }

  /**
   * Arithmetic that is left does not have a constant result, what is deleted leaves the number there was, and
   * scratch operations stay within the sixteen words.
   */
  ghost predicate Left(es: seq<Triple>, val: seq<nat>, s: Stmt, s1: Stmt, v: nat)
    requires |val| == N_ATOMS
  {
    && (s1.op.Alu? ==> AtomDef(s) == A_ATOM && !IsConst(es, v))
    && (s1.op.Nop? ==> 0 <= AtomDef(s) < N_ATOMS && v == val[AtomDef(s)])
    && (InScratch(s) ==> InScratch(s1))
  }

  lemma PickedLoad(es: seq<Triple>, val: seq<nat>, s: Stmt, alter: bool, s1: Stmt, v: nat)
    requires |val| == N_ATOMS && (s.op.LdAbs? || s.op.LdInd? || s.op.LdLen? || s.op.LdImm? || s.op.LdxImm? || s.op.LdxMsh?)
    requires s1 == if s.op.LdInd? && alter && IsConst(es, val[X_ATOM]) then Stmt(LdAbs(s.op.size), Wrap(s.k + es[val[X_ATOM] - 1].v0)) else s
    requires match s1.op
      case LdImm => HasConst(es, v, s1.k)
      case LdxImm => HasConst(es, v, s1.k)
      case LdInd(_) => Is(es, v, s1.op, s1.k, val[X_ATOM])
      case LdLen => Is(es, v, s1.op, 0, 0)
      case LdAbs(_) => Is(es, v, s1.op, s1.k, 0)
      case LdxMsh => Is(es, v, s1.op, s1.k, 0)
      case _ => false
    ensures !Refused(es, val, s, alter) && Picked(es, val, s, alter, s1, v)
  {
    hide Wrap, Is, HasConst;
  }

  lemma PickedAsIs(es: seq<Triple>, val: seq<nat>, s: Stmt, alter: bool, s1: Stmt, v: nat)
    requires |val| == N_ATOMS && InScratch(s) && !Refused(es, val, s, alter) && Picked(es, val, s, alter, s1, v)
    ensures !alter ==> s1 == s
  {
  }

  lemma PickedLeft(es: seq<Triple>, val: seq<nat>, s: Stmt, alter: bool, s1: Stmt, v: nat)
    requires |val| == N_ATOMS && InScratch(s) && AtomDef(s) >= 0 && !s.op.LdxLen? && !Refused(es, val, s, alter) && Picked(es, val, s, alter, s1, v)
    ensures Left(es, val, s, s1, v)
  {
    if s1.op.Alu? {
      if s1.op.src.K? {
        var kv :| HasConst(es, kv, s1.k) && Is(es, v, s1.op, val[A_ATOM], kv);
        AluIsNotConst(es, v, s1.op, val[A_ATOM], kv);
      } else {
        AluIsNotConst(es, v, s1.op, val[A_ATOM], val[X_ATOM]);
      }
    }
    hide Is, HasConst, IsConst, Compute;
  }

  lemma AluIsNotConst(es: seq<Triple>, v: nat, op: Op, v0: nat, v1: nat)
    requires op.Alu? && Is(es, v, op, v0, v1)
    ensures !IsConst(es, v)
  {
    DecodeOpCode(op);
    DecodeOpCode(LdImm);
  }

  /** The statement and the table after opt_stmt, when it was sound. */
  ghost predicate StmtStep(es: seq<Triple>, val: seq<nat>, s: Stmt, s': Stmt, val': seq<nat>, alter: bool)
    requires |val| == N_ATOMS
  {
    && |val'| == N_ATOMS && (!alter ==> s' == s)
    && if AtomDef(s) < 0 || s.op.LdxLen? then s' == s && val' == val
       else exists s1, v, vanish :: StmtStepBy(es, val, s, s', val', alter, s1, v, vanish)
  }

  ghost predicate StmtStepBy(es: seq<Triple>, val: seq<nat>, s: Stmt, s': Stmt, val': seq<nat>, alter: bool, s1: Stmt, v: nat, vanish: bool)
    requires |val| == N_ATOMS
  {
    && 0 <= AtomDef(s) < N_ATOMS && Sound(es, val, s, s1, v)
    && (s', val') == Stored(s1, val, AtomDef(s), v, vanish) && (vanish <==> alter && Vanishes(es, val, s))
    && InScratch(s) && !Refused(es, val, s, alter) && Picked(es, val, s, alter, s1, v)
  }

  /** One statement numbered: which statement it becomes, and the number it stores. */
  ghost predicate StepAt(es: seq<Triple>, val: seq<nat>, s: Stmt, s': Stmt, val': seq<nat>, alter: bool)
    requires |val| == N_ATOMS
  {
    && |val'| == N_ATOMS && !Refused(es, val, s, alter)
    && if AtomDef(s) < 0 || s.op.LdxLen? then s' == s && val' == val
       else InScratch(s) && exists s1, v :: PickedBy(es, val, s, s', val', alter, s1, v)
  }

  ghost predicate PickedBy(es: seq<Triple>, val: seq<nat>, s: Stmt, s': Stmt, val': seq<nat>, alter: bool, s1: Stmt, v: nat)
    requires |val| == N_ATOMS && InScratch(s) && !Refused(es, val, s, alter)
  {
    && 0 <= AtomDef(s) < N_ATOMS && Picked(es, val, s, alter, s1, v)
    && (s', val') == Stored(s1, val, AtomDef(s), v, alter && Vanishes(es, val, s))
  }

  lemma StepIsAt(es: seq<Triple>, val: seq<nat>, s: Stmt, s': Stmt, val': seq<nat>, alter: bool)
    requires |val| == N_ATOMS && StmtStep(es, val, s, s', val', alter)
    ensures StepAt(es, val, s, s', val', alter)
  {
    hide Picked, Vanishes, Sound, Stored;
    NeverRefused(es, val, s, alter);
    if AtomDef(s) >= 0 && !s.op.LdxLen? {
      var s1, v, vanish :| StmtStepBy(es, val, s, s', val', alter, s1, v, vanish);
      assert PickedBy(es, val, s, s', val', alter, s1, v);
    }
  }

  lemma SameConsts(es: seq<Triple>, es': seq<Triple>, val: seq<nat>, s: Stmt, alter: bool)
    requires es <= es' && InTable(es, val)
    ensures forall i | 0 <= i < N_ATOMS :: IsConst(es', val[i]) == IsConst(es, val[i])
    ensures forall i, k: Word | 0 <= i < N_ATOMS :: HasConst(es', val[i], k) == HasConst(es, val[i], k)
    ensures Refused(es', val, s, alter) <==> Refused(es, val, s, alter)
    ensures Vanishes(es', val, s) <==> Vanishes(es, val, s)
    ensures InScratch(s) && !Refused(es, val, s, true) ==> Simplified(es', val, s) == Simplified(es, val, s)
  {
    hide Compute, Wrap;
  }

  lemma NumberOfExtends(es: seq<Triple>, es': seq<Triple>, val: seq<nat>, s: Stmt, s1: Stmt, v: nat)
    requires es <= es' && |val| == N_ATOMS && InScratch(s) && NumberOf(es, val, s, s1, v)
    ensures NumberOf(es', val, s, s1, v)
  {
    if !IsCopy(s) && s1.op.Alu? && s1.op.src.K? {
      var kv :| HasConst(es, kv, s1.k) && Is(es, v, s1.op, val[A_ATOM], kv);
      assert HasConst(es', kv, s1.k) && Is(es', v, s1.op, val[A_ATOM], kv);
    }
  }

  lemma StepAtExtends(es: seq<Triple>, es': seq<Triple>, val: seq<nat>, s: Stmt, s': Stmt, val': seq<nat>, alter: bool)
    requires es <= es' && InTable(es, val) && StepAt(es, val, s, s', val', alter)
    ensures StepAt(es', val, s, s', val', alter)
  {
    SameConsts(es, es', val, s, alter);
    if AtomDef(s) >= 0 && !s.op.LdxLen? {
      var s1, v :| PickedBy(es, val, s, s', val', alter, s1, v);
      NumberOfExtends(es, es', val, s, s1, v);
      hide NumberOf, Simplified, Refused, Vanishes, Stored, HasConst, IsConst;
      assert PickedBy(es', val, s, s', val', alter, s1, v);
    }
  }

  /** In a table without repetitions, a statement is numbered in one way only. */
  lemma NumberOfUnique(es: seq<Triple>, val: seq<nat>, s: Stmt, s1: Stmt, v: nat, v': nat)
    requires |val| == N_ATOMS && InScratch(s) && DistinctEntries(es) && NumberOf(es, val, s, s1, v) && NumberOf(es, val, s, s1, v')
    ensures v == v'
  {
    if !IsCopy(s) && s1.op.Alu? && s1.op.src.K? {
      var kv :| HasConst(es, kv, s1.k) && Is(es, v, s1.op, val[A_ATOM], kv);
      var kv' :| HasConst(es, kv', s1.k) && Is(es, v', s1.op, val[A_ATOM], kv');
      assert kv == kv';
    }
  }

  lemma StepAtUnique(es: seq<Triple>, val: seq<nat>, s: Stmt, s': Stmt, val': seq<nat>, s'': Stmt, val'': seq<nat>, alter: bool)
    requires |val| == N_ATOMS && DistinctEntries(es) && StepAt(es, val, s, s', val', alter) && StepAt(es, val, s, s'', val'', alter)
    ensures s' == s'' && val' == val''
  {
    if AtomDef(s) >= 0 && !s.op.LdxLen? {
      var s1, v :| PickedBy(es, val, s, s', val', alter, s1, v);
      var s2, w :| PickedBy(es, val, s, s'', val'', alter, s2, w);
      NumberOfUnique(es, val, s, s1, v, w);
      hide NumberOf, Simplified, Vanishes;
    }
  }

  /** Where vstore is used, storing the number that is already there deletes the statement. */
  lemma StoredAgain(es: seq<Triple>, val: seq<nat>, s: Stmt, s': Stmt, val': seq<nat>, v: nat)
    requires |val| == N_ATOMS && DistinctEntries(es) && 0 <= AtomDef(s) < N_ATOMS && !s.op.LdxLen? && InScratch(s) && StepAt(es, val, s, s', val', true)
    requires Vanishes(es, val, s) && Picked(es, val, s, true, Simplified(es, val, s), v)
    ensures v == val[AtomDef(s)] <==> s'.op.Nop?
    ensures val' == val[AtomDef(s) := v]
  {
    var s1, w :| PickedBy(es, val, s, s', val', true, s1, w);
    NumberOfUnique(es, val, s, s1, v, w);
    hide NumberOf, Refused, Compute;
  }

  /** Arithmetic on constants, unless it is refused, is replaced by its result. */
  lemma FoldsConstants(es: seq<Triple>, val: seq<nat>, s: Stmt)
    requires |val| == N_ATOMS && s.op.Alu? && IsConst(es, val[A_ATOM]) && (s.op.src.X? ==> IsConst(es, val[X_ATOM])) && !Refused(es, val, s, true)
    ensures var a, b, s1 := es[val[A_ATOM] - 1].v0, if s.op.src.K? then s.k else es[val[X_ATOM] - 1].v0, Simplified(es, val, s);
      && !(s.op.alu.Div? && b == 0)
      && if s1.op.Nop? then Compute(s.op.alu, a, b) == a else s1 == Stmt(LdImm, Compute(s.op.alu, a, b))
  {
    var op, a := s.op.alu, es[val[A_ATOM] - 1].v0;
    if s.op.src.K? && s.k == 0 {
      ZeroOperand(op, a);
    }
    hide Compute;
  }

  lemma ZeroOperand(op: AluOp, a: Word)
    ensures op.Add? || op.Or? || op.Lsh? || op.Rsh? ==> Compute(op, a, 0) == a
    ensures op.Mul? || op.And? ==> Compute(op, a, 0) == 0
  {
  }

  /** A sound step: the new statement does the same, and the table is right about what has been defined. */
  lemma StepMatches(es: seq<Triple>, val: seq<nat>, s: Stmt, s': Stmt, val': seq<nat>, alter: bool,
                    atoms: set<int>, st: State, pkt: Packet)
    requires |val| == N_ATOMS && StmtStep(es, val, s, s', val', alter) && Known(val, s)
    requires MatchesOn(es, val, atoms, st, pkt) && (forall a | a in AtomUse(s) && 0 <= a < N_ATOMS :: a in atoms)
    requires alter ==> AtomDef(s) in atoms
    requires Exec(s, st, pkt).Next?
    ensures Exec(s', st, pkt) == Exec(s, st, pkt)
    ensures MatchesOn(es, val', atoms + {AtomDef(s)}, Exec(s, st, pkt).st, pkt)
    ensures forall i | 0 <= i < N_ATOMS && (i == AtomDef(s) || val[i] != 0) :: val'[i] != 0
  {
    if AtomDef(s) >= 0 {
      var s1, v, vanish :| StmtStepBy(es, val, s, s', val', alter, s1, v, vanish);
      assert MatchesOn(es, val, AtomUse(s), st, pkt);
      assert Nu(es, v, pkt) == ValueOf(s, st, pkt);
      var d := AtomDef(s);
      var w := ValueOf(s, st, pkt).w;
      assert Exec(s, st, pkt) == Next(st[d := w]);
      if vanish && val[d] == v {
        assert Nu(es, v, pkt) == Val(st[d]);
        assert st[d := w] == st;
      }
    }
  }

  // ----- Copies -----

  predicate IsCopy(s: Stmt) {
    s.op.LdMem? || s.op.LdxMem? || s.op.St? || s.op.Stx? || s.op.Tax? || s.op.Txa?
  }

  /** The atom a copy takes its value from. */
  function CopySource(s: Stmt): (a: nat)
    requires IsCopy(s) && InScratch(s)
    ensures a < N_ATOMS
  {
    match s.op
    case LdMem => s.k
    case LdxMem => s.k
    case St => A_ATOM
    case Tax => A_ATOM
    case Stx => X_ATOM
    case Txa => X_ATOM
  }

  /** What a copy may become: itself, or the load of the constant its source is known to hold. */
  ghost predicate MayCopy(es: seq<Triple>, v: nat, s: Stmt, s1: Stmt) {
    s1 == s || (IsConst(es, v) && s1 == Stmt(if s.op.LdMem? then LdImm else LdxImm, es[v - 1].v0) && (s.op.LdMem? || s.op.LdxMem?))
  }

  /** The numbers of the atoms a copy reads and defines are right, where they are known. */
  ghost predicate CopyMatches(es: seq<Triple>, val: seq<nat>, s: Stmt, st: State, pkt: Packet)
    requires |val| == N_ATOMS && IsCopy(s) && InScratch(s)
  {
    MatchesOn(es, val, {CopySource(s), AtomDef(s)}, st, pkt)
  }

  /**
   * What vstore makes of a copy is right exactly when it does not delete a copy between two unknown
   * atoms that differ.
   */
  lemma CopyExactly(es: seq<Triple>, val: seq<nat>, s: Stmt, s1: Stmt, st: State, pkt: Packet)
    requires |val| == N_ATOMS && IsCopy(s) && InScratch(s) && CopyMatches(es, val, s, st, pkt)
    requires MayCopy(es, val[CopySource(s)], s, s1)
    ensures var f, d := CopySource(s), AtomDef(s);
      Exec(Stored(s1, val, d, val[f], true).0, st, pkt) == Exec(s, st, pkt) <==>
      (val[f] == 0 && val[d] == 0 ==> st[f] == st[d])
  {
    var f, d := CopySource(s), AtomDef(s);
    assert Exec(s, st, pkt) == Next(st[d := st[f]]);
    assert val[f] != 0 ==> Nu(es, val[f], pkt) == Val(st[f]);
    assert val[d] != 0 ==> Nu(es, val[d], pkt) == Val(st[d]);
    if IsConst(es, val[f]) {
      NuConst(es, val[f], pkt);
    }
    assert st[d := st[f]] == st <==> st[d] == st[f] by {
      assert st[d := st[f]][d] == st[f];
    }
    hide Nu;
  }

  // ----- Where Known is needed -----

  function Zeros(): (v: seq<nat>)
    ensures |v| == N_ATOMS && forall i | 0 <= i < N_ATOMS :: v[i] == 0
  {
    [0, 0, 0, 0, 0, 0, 0, 0, 0, 0, 0, 0, 0, 0, 0, 0, 0, 0]
  }

  /** Two unknown numbers count as equal: a transfer between different registers is deleted. */
  lemma UnknownsTakenEqual(st: State, pkt: Packet)
    requires st[A_ATOM] != st[X_ATOM]
    ensures var s := Stmt(Txa, 0);
      var s' := Stored(s, Zeros(), AtomDef(s), Zeros()[X_ATOM], true).0;
      !Known(Zeros(), s) && s'.op.Nop? && Exec(s', st, pkt) != Exec(s, st, pkt)
  {
    var s := Stmt(Txa, 0);
    assert X_ATOM in AtomUse(s) && Zeros()[X_ATOM] == 0;
    assert Exec(s, st, pkt).st[A_ATOM] == st[X_ATOM];
  }

  /** Loading the packet length into the index register leaves its old number, which is right only if it is unknown or stands for the length. */
  lemma LengthExactly(es: seq<Triple>, val: seq<nat>, s: Stmt, st: State, pkt: Packet)
    requires |val| == N_ATOMS && s.op.LdxLen?
    ensures Exec(s, st, pkt).Next?
    ensures MatchesOn(es, val, {X_ATOM}, Exec(s, st, pkt).st, pkt) <==>
      val[X_ATOM] == 0 || Nu(es, val[X_ATOM], pkt) == Val(pkt.wirelen)
  {
    hide Nu;
    var st' := Exec(s, st, pkt).st;
    assert st'[X_ATOM] == pkt.wirelen;
    assert MatchesOn(es, val, {X_ATOM}, st', pkt) <==> (val[X_ATOM] != 0 ==> Nu(es, val[X_ATOM], pkt) == Val(st'[X_ATOM]));
  }

  /** An input for which it is wrong. */
  lemma LengthLeavesStale(pkt: Packet)
    requires pkt.wirelen != 5
    ensures var es, val := [Triple(OpCode(LdImm), 5, 0)], Zeros()[X_ATOM := 1];
      var s, st := Stmt(LdxLen, 0), Zeroed()[X_ATOM := 5];
      && StmtStep(es, val, s, s, val, false) && MatchesOn(es, val, {X_ATOM}, st, pkt)
      && Exec(s, st, pkt).Next? && !MatchesOn(es, val, {X_ATOM}, Exec(s, st, pkt).st, pkt)
  {
    var es := [Triple(OpCode(LdImm), 5, 0)];
    NuConst(es, 1, pkt);
    var val, st' := Zeros()[X_ATOM := 1], Exec(Stmt(LdxLen, 0), Zeroed()[X_ATOM := 5], pkt).st;
    assert val[X_ATOM] == 1 && st'[X_ATOM] == pkt.wirelen;
  }

  // ----- Numbers that are right -----

  lemma Immediates(op: Op)
    requires !op.Nop?
    ensures Decode(OpCode(op)) == Do(op) && (IsImmediate(OpCode(op)) <==> op.LdImm? || op.LdxImm?)
  {
    DecodeOpCode(op);
    match op
    case LdAbs(s) => match s { case W => case H => case B => }
    case LdInd(s) => match s { case W => case H => case B => }
    case Alu(a, src) =>
      match a {
        case Add => case Sub => case Mul => case Div =>
        case Or => case And => case Lsh => case Rsh =>
      }
    case _ =>
  }

  ghost predicate IsConst(es: seq<Triple>, n: nat) { 0 < n <= |es| && es[n - 1] == Triple(OpCode(LdImm), es[n - 1].v0, 0) && es[n - 1].v0 < TWO_TO_THE_32 }

  lemma NuConst(es: seq<Triple>, n: nat, pkt: Packet)
    requires IsConst(es, n)
    ensures Nu(es, n, pkt) == Val(es[n - 1].v0)
  {
    Immediates(LdImm);
  }

  /** Number v is the entry of an operation on the given operands. */
  ghost predicate Is(es: seq<Triple>, v: nat, op: Op, v0: nat, v1: nat)
    requires !op.Nop?
  {
    0 < v <= |es| && es[v - 1] == Triple(OpCode(op), v0, v1) && Proper(es[v - 1], v - 1)
  }

  lemma NuOf(es: seq<Triple>, v: nat, op: Op, v0: nat, v1: nat, pkt: Packet)
    requires !op.Nop? && Is(es, v, op, v0, v1)
    ensures Nu(es, v, pkt) ==
      Apply(op, v0, if v0 < v then Nu(es, v0, pkt) else Faulted, if v1 < v then Nu(es, v1, pkt) else Faulted, pkt)
    ensures match op case LdInd(_) => v1 < v case Neg => v0 < v case Alu(_, _) => v0 < v && v1 < v case _ => true
  {
    Immediates(op);
    hide Apply, OpCode, Decode, IsImmediate;
  }

  lemma SoundLoad(es: seq<Triple>, val: seq<nat>, s: Stmt, v: nat)
    requires |val| == N_ATOMS
    requires match s.op
      case LdAbs(_) => Is(es, v, s.op, s.k, 0)
      case LdxMsh => Is(es, v, s.op, s.k, 0)
      case LdLen => Is(es, v, s.op, 0, 0)
      case LdImm => Is(es, v, LdImm, s.k, 0)
      case LdxImm => Is(es, v, LdImm, s.k, 0)
      case _ => false
    ensures Sound(es, val, s, s, v)
  {
    Immediates(s.op);
    Immediates(LdImm);
  }

  /** A copy carries the number over. */
  lemma SoundCopy(es: seq<Triple>, val: seq<nat>, s: Stmt, s1: Stmt, from: int)
    requires InTable(es, val) && 0 <= from < N_ATOMS && from in AtomUse(s)
    requires match s.op
      case LdMem => from == s.k < MEM_WORDS
      case LdxMem => from == s.k < MEM_WORDS
      case St => from == A_ATOM
      case Stx => from == X_ATOM
      case Tax => from == A_ATOM
      case Txa => from == X_ATOM
      case _ => false
    requires s1 == s || (IsConst(es, val[from]) && s1.k == es[val[from] - 1].v0 &&
                         ((s.op.LdMem? && s1.op.LdImm?) || (s.op.LdxMem? && s1.op.LdxImm?)))
    ensures Sound(es, val, s, s1, val[from])
  {
    if Known(val, s) {
      forall st, pkt | MatchesOn(es, val, AtomUse(s), st, pkt) && Exec(s, st, pkt).Next?
        ensures Nu(es, val[from], pkt) == ValueOf(s, st, pkt) && Exec(s1, st, pkt) == Exec(s, st, pkt)
      {
        if s1 != s {
          NuConst(es, val[from], pkt);
        }
      }
    }
  }

  lemma NuInd(es: seq<Triple>, v: nat, size: Size, k: Word, x: nat, pkt: Packet)
    requires Is(es, v, LdInd(size), k, x) && Nu(es, x, pkt).Val?
    ensures Nu(es, v, pkt) == Load(pkt, Wrap(Nu(es, x, pkt).w + k), size)
  {
    hide Nu, Is, Load, Arith, Wrap;
    NuOf(es, v, LdInd(size), k, x, pkt);
  }

  lemma NuAbs(es: seq<Triple>, v: nat, size: Size, k: Word, pkt: Packet)
    requires Is(es, v, LdAbs(size), k, 0)
    ensures Nu(es, v, pkt) == Load(pkt, k, size)
  {
    hide Nu, Is, Load;
    NuOf(es, v, LdAbs(size), k, 0, pkt);
  }

  lemma SoundInd(es: seq<Triple>, val: seq<nat>, s: Stmt, s1: Stmt, v: nat)
    requires |val| == N_ATOMS && s.op.LdInd?
    requires (s1 == s && Is(es, v, s.op, s.k, val[X_ATOM])) ||
             (IsConst(es, val[X_ATOM]) && s1 == Stmt(LdAbs(s.op.size), Wrap(s.k + es[val[X_ATOM] - 1].v0)) && Is(es, v, s1.op, s1.k, 0))
    ensures Sound(es, val, s, s1, v)
  {
    if Known(val, s) {
      forall st, pkt | MatchesOn(es, val, AtomUse(s), st, pkt) && Exec(s, st, pkt).Next?
        ensures Nu(es, v, pkt) == ValueOf(s, st, pkt) && Exec(s1, st, pkt) == Exec(s, st, pkt)
      {
        SoundIndAt(es, val, s, s1, v, st, pkt);
      }
    }
  }

  lemma IndRight(es: seq<Triple>, x: nat, w: Word, v: nat, size: Size, k: Word, pkt: Packet)
    requires Nu(es, x, pkt) == Val(w)
    requires Is(es, v, LdInd(size), k, x) || (IsConst(es, x) && Is(es, v, LdAbs(size), Wrap(k + es[x - 1].v0), 0))
    ensures Nu(es, v, pkt) == Load(pkt, Wrap(w + k), size) && (IsConst(es, x) ==> es[x - 1].v0 == w)
  {
    hide Nu, Load;
    if IsConst(es, x) {
      NuConst(es, x, pkt);
    }
    if Is(es, v, LdInd(size), k, x) {
      NuInd(es, v, size, k, x, pkt);
    } else {
      NuAbs(es, v, size, Wrap(k + es[x - 1].v0), pkt);
    }
  }

  lemma UseMatches(es: seq<Triple>, val: seq<nat>, s: Stmt, i: nat, st: State, pkt: Packet)
    requires |val| == N_ATOMS && i < N_ATOMS && i in AtomUse(s) && Known(val, s) && MatchesOn(es, val, AtomUse(s), st, pkt)
    ensures val[i] != 0 && Nu(es, val[i], pkt) == Val(st[i])
  {
  }

  lemma SoundIndAt(es: seq<Triple>, val: seq<nat>, s: Stmt, s1: Stmt, v: nat, st: State, pkt: Packet)
    requires |val| == N_ATOMS && s.op.LdInd?
    requires (s1 == s && Is(es, v, s.op, s.k, val[X_ATOM])) ||
             (IsConst(es, val[X_ATOM]) && s1 == Stmt(LdAbs(s.op.size), Wrap(s.k + es[val[X_ATOM] - 1].v0)) && Is(es, v, s1.op, s1.k, 0))
    requires Known(val, s) && MatchesOn(es, val, AtomUse(s), st, pkt) && Exec(s, st, pkt).Next?
    ensures Nu(es, v, pkt) == ValueOf(s, st, pkt) && Exec(s1, st, pkt) == Exec(s, st, pkt)
  {
    hide Nu, MatchesOn, Known, Is, IsConst, AtomUse, AtomDef, ValueOf, Exec, Load, Wrap;
    ValueInd(s, st, pkt);
    UseMatches(es, val, s, X_ATOM, st, pkt);
    IndRight(es, val[X_ATOM], st[X_ATOM], v, s.op.size, s.k, pkt);
    if s1 != s {
      ExecInd(s, s1, st, pkt);
    }
  }

  lemma ExecInd(s: Stmt, s1: Stmt, st: State, pkt: Packet)
    requires s.op.LdInd? && s1 == Stmt(LdAbs(s.op.size), Wrap(s.k + st[X_ATOM]))
    ensures Exec(s1, st, pkt) == Exec(s, st, pkt)
  {
    hide Load;
  }

  lemma ValueInd(s: Stmt, st: State, pkt: Packet)
    requires s.op.LdInd?
    ensures X_ATOM in AtomUse(s) && ValueOf(s, st, pkt) == Load(pkt, Wrap(st[X_ATOM] + s.k), s.op.size)
  {
  }

  lemma NuNeg(es: seq<Triple>, v: nat, a: nat, pkt: Packet)
    requires Is(es, v, Neg, a, 0) && Nu(es, a, pkt).Val?
    ensures Nu(es, v, pkt) == Val(Wrap(-(Nu(es, a, pkt).w as int)))
  {
    hide Nu, Is, Load, Arith, Wrap;
    NuOf(es, v, Neg, a, 0, pkt);
  }

  lemma SoundNeg(es: seq<Triple>, val: seq<nat>, s: Stmt, s1: Stmt, v: nat)
    requires |val| == N_ATOMS && s.op.Neg?
    requires (s1 == s && Is(es, v, Neg, val[A_ATOM], 0)) ||
             (IsConst(es, val[A_ATOM]) && s1 == Stmt(LdImm, Wrap(-(es[val[A_ATOM] - 1].v0 as int))) && Is(es, v, LdImm, s1.k, 0))
    ensures Sound(es, val, s, s1, v)
  {
    if Known(val, s) {
      forall st, pkt | MatchesOn(es, val, AtomUse(s), st, pkt) && Exec(s, st, pkt).Next?
        ensures Nu(es, v, pkt) == ValueOf(s, st, pkt) && Exec(s1, st, pkt) == Exec(s, st, pkt)
      {
        SoundNegAt(es, val, s, s1, v, st, pkt);
      }
    }
  }

  lemma NegRight(es: seq<Triple>, a: nat, w: Word, v: nat, pkt: Packet)
    requires Nu(es, a, pkt) == Val(w)
    requires Is(es, v, Neg, a, 0) || (IsConst(es, a) && Is(es, v, LdImm, Wrap(-(es[a - 1].v0 as int)), 0))
    ensures Nu(es, v, pkt) == Val(Wrap(-(w as int))) && (IsConst(es, a) ==> es[a - 1].v0 == w)
  {
    hide Nu, Wrap;
    if IsConst(es, a) {
      NuConst(es, a, pkt);
    }
    if Is(es, v, Neg, a, 0) {
      NuNeg(es, v, a, pkt);
    } else {
      NuConst(es, v, pkt);
    }
  }

  lemma ExecNeg(s: Stmt, st: State, pkt: Packet)
    requires s.op.Neg?
    ensures A_ATOM in AtomUse(s)
    ensures var w := Wrap(-(st[A_ATOM] as int));
      ValueOf(s, st, pkt) == Val(w) && Exec(Stmt(LdImm, w), st, pkt) == Exec(s, st, pkt)
  {
  }

  lemma SoundNegAt(es: seq<Triple>, val: seq<nat>, s: Stmt, s1: Stmt, v: nat, st: State, pkt: Packet)
    requires |val| == N_ATOMS && s.op.Neg?
    requires (s1 == s && Is(es, v, Neg, val[A_ATOM], 0)) ||
             (IsConst(es, val[A_ATOM]) && s1 == Stmt(LdImm, Wrap(-(es[val[A_ATOM] - 1].v0 as int))) && Is(es, v, LdImm, s1.k, 0))
    requires Known(val, s) && MatchesOn(es, val, AtomUse(s), st, pkt) && Exec(s, st, pkt).Next?
    ensures Nu(es, v, pkt) == ValueOf(s, st, pkt) && Exec(s1, st, pkt) == Exec(s, st, pkt)
  {
    hide Nu, MatchesOn, Known, Is, IsConst, AtomUse, AtomDef, ValueOf, Exec, Load, Wrap;
    ExecNeg(s, st, pkt);
    UseMatches(es, val, s, A_ATOM, st, pkt);
    NegRight(es, val[A_ATOM], st[A_ATOM], v, pkt);
  }

  lemma NuAlu(es: seq<Triple>, v: nat, op: AluOp, src: Operand, a: nat, b: nat, pkt: Packet)
    requires Is(es, v, Alu(op, src), a, b) && Nu(es, a, pkt).Val? && Nu(es, b, pkt).Val?
    ensures Nu(es, v, pkt) == Arith(op, X, Nu(es, a, pkt).w, Nu(es, b, pkt).w)
  {
    hide Nu, Is, Load, Arith, Wrap;
    NuOf(es, v, Alu(op, src), a, b, pkt);
  }

  /** The second operand of an arithmetic statement has number b. */
  ghost predicate OperandIs(es: seq<Triple>, val: seq<nat>, s: Stmt, b: nat)
    requires |val| == N_ATOMS && s.op.Alu?
  {
    if s.op.src.X? then b == val[X_ATOM] else IsConst(es, b) && es[b - 1].v0 == s.k
  }

  lemma OperandMeans(es: seq<Triple>, val: seq<nat>, s: Stmt, b: nat, st: State, pkt: Packet)
    requires |val| == N_ATOMS && s.op.Alu? && OperandIs(es, val, s, b) && Known(val, s)
    requires MatchesOn(es, val, AtomUse(s), st, pkt)
    ensures Nu(es, val[A_ATOM], pkt) == Val(st[A_ATOM])
    ensures Nu(es, b, pkt) == Val(if s.op.src.X? then st[X_ATOM] else s.k)
  {
    assert A_ATOM in AtomUse(s);
    if s.op.src.X? {
      assert X_ATOM in AtomUse(s);
    } else {
      NuConst(es, b, pkt);
    }
  }

  /** Arithmetic on two numbers; an index register known to be constant may become an immediate operand. */
  lemma SoundAlu(es: seq<Triple>, val: seq<nat>, s: Stmt, s1: Stmt, b: nat, v: nat)
    requires |val| == N_ATOMS && s.op.Alu? && OperandIs(es, val, s, b)
    requires s1.op.Alu? && Is(es, v, s1.op, val[A_ATOM], b)
    requires s1 == s || (IsConst(es, b) && s1 == Stmt(Alu(s.op.alu, K), es[b - 1].v0))
    ensures Sound(es, val, s, s1, v)
  {
    if Known(val, s) {
      forall st, pkt | MatchesOn(es, val, AtomUse(s), st, pkt) && Exec(s, st, pkt).Next?
        ensures Nu(es, v, pkt) == ValueOf(s, st, pkt) && Exec(s1, st, pkt) == Exec(s, st, pkt)
      {
        OperandMeans(es, val, s, b, st, pkt);
        NuAlu(es, v, s1.op.alu, s1.op.src, val[A_ATOM], b, pkt);
        if s1 != s {
          NuConst(es, b, pkt);
        }
        hide Compute, Nu;
      }
    }
  }

  lemma SoundAluImmediate(es: seq<Triple>, val: seq<nat>, s: Stmt, s1: Stmt, kv: nat, v: nat)
    requires |val| == N_ATOMS && s.op.Alu? && s.op.src.X? && IsConst(es, val[X_ATOM]) && IsConst(es, kv)
    requires es[kv - 1].v0 == es[val[X_ATOM] - 1].v0 && s1 == Stmt(Alu(s.op.alu, K), es[kv - 1].v0)
    requires Is(es, v, s1.op, val[A_ATOM], kv)
    ensures Sound(es, val, s, s1, v)
  {
    if Known(val, s) {
      forall st, pkt | MatchesOn(es, val, AtomUse(s), st, pkt) && Exec(s, st, pkt).Next?
        ensures Nu(es, v, pkt) == ValueOf(s, st, pkt) && Exec(s1, st, pkt) == Exec(s, st, pkt)
      {
        OperandMeans(es, val, s, val[X_ATOM], st, pkt);
        NuConst(es, val[X_ATOM], pkt);
        NuConst(es, kv, pkt);
        NuAlu(es, v, s.op.alu, K, val[A_ATOM], kv, pkt);
        hide Compute, Nu;
      }
    }
  }

  /** fold_op: arithmetic on two constants is a constant. */
  lemma SoundFold(es: seq<Triple>, val: seq<nat>, s: Stmt, b: nat, v: nat, k: Word)
    requires |val| == N_ATOMS && s.op.Alu? && OperandIs(es, val, s, b)
    requires IsConst(es, val[A_ATOM]) && IsConst(es, b) && Is(es, v, LdImm, k, 0)
    requires s.op.alu.Div? ==> es[b - 1].v0 != 0
    requires k == Compute(s.op.alu, es[val[A_ATOM] - 1].v0, es[b - 1].v0)
    ensures Sound(es, val, s, Stmt(LdImm, k), v)
  {
    if Known(val, s) {
      forall st, pkt | MatchesOn(es, val, AtomUse(s), st, pkt) && Exec(s, st, pkt).Next?
        ensures Nu(es, v, pkt) == ValueOf(s, st, pkt) && Exec(Stmt(LdImm, k), st, pkt) == Exec(s, st, pkt)
      {
        OperandMeans(es, val, s, b, st, pkt);
        NuConst(es, val[A_ATOM], pkt);
        NuConst(es, b, pkt);
        NuConst(es, v, pkt);
        hide Compute, Nu;
      }
    }
  }

  /** Adding, oring or shifting by the constant zero changes nothing. */
  lemma SoundNothing(es: seq<Triple>, val: seq<nat>, s: Stmt)
    requires InTable(es, val) && s.op.Alu? && s.op.src.K? && s.k == 0
    requires s.op.alu.Add? || s.op.alu.Lsh? || s.op.alu.Rsh? || s.op.alu.Or?
    ensures Sound(es, val, s, s.(op := Nop), val[A_ATOM])
  {
    if Known(val, s) {
      assert A_ATOM in AtomUse(s);
      forall st, pkt | MatchesOn(es, val, AtomUse(s), st, pkt) && Exec(s, st, pkt).Next?
        ensures Nu(es, val[A_ATOM], pkt) == ValueOf(s, st, pkt) && Exec(s.(op := Nop), st, pkt) == Exec(s, st, pkt)
      {
        IdentityZero(s.op.alu, st[A_ATOM]);
        assert st[A_ATOM := st[A_ATOM]] == st;
      }
    }
  }

  lemma IdentityZero(op: AluOp, a: Word)
    requires op.Add? || op.Lsh? || op.Rsh? || op.Or?
    ensures Compute(op, a, 0) == a
  {
  }

  lemma AnnihilatesZero(op: AluOp, a: Word)
    ensures op.Mul? || op.And? ==> Compute(op, a, 0) == 0
    ensures (op.Add? || op.Or?) ==> Compute(op, 0, a) == a
    ensures (op.Mul? || op.And? || op.Lsh? || op.Rsh?) ==> Compute(op, 0, a) == 0
    ensures op.Div? && a != 0 ==> Compute(op, 0, a) == 0
  {
  }

  /** Multiplying by, or anding with, the constant zero gives zero. */
  lemma SoundZero(es: seq<Triple>, val: seq<nat>, s: Stmt, v: nat)
    requires |val| == N_ATOMS && s.op.Alu? && Is(es, v, LdImm, 0, 0)
    requires (s.op.src.K? && s.k == 0 && (s.op.alu.Mul? || s.op.alu.And?)) ||
             (s.op.src.X? && IsConst(es, val[A_ATOM]) && es[val[A_ATOM] - 1].v0 == 0 && !s.op.alu.Add? && !s.op.alu.Or? && !s.op.alu.Sub?)
    ensures Sound(es, val, s, Stmt(LdImm, 0), v)
  {
    if Known(val, s) {
      assert A_ATOM in AtomUse(s);
      forall st, pkt | MatchesOn(es, val, AtomUse(s), st, pkt) && Exec(s, st, pkt).Next?
        ensures Nu(es, v, pkt) == ValueOf(s, st, pkt) && Exec(Stmt(LdImm, 0), st, pkt) == Exec(s, st, pkt)
      {
        NuConst(es, v, pkt);
        AnnihilatesZero(s.op.alu, st[A_ATOM]);
        AnnihilatesZero(s.op.alu, st[X_ATOM]);
        if s.op.src.X? {
          NuConst(es, val[A_ATOM], pkt);
        }
        hide Compute;
      }
    }
  }

  /** Adding to, or oring with, an accumulator of zero copies the index register. */
  lemma SoundTxa(es: seq<Triple>, val: seq<nat>, s: Stmt, s1: Stmt)
    requires InTable(es, val) && s.op.Alu? && s.op.src.X? && (s.op.alu.Add? || s.op.alu.Or?) && s1.op.Txa?
    requires IsConst(es, val[A_ATOM]) && es[val[A_ATOM] - 1].v0 == 0
    ensures Sound(es, val, s, s1, val[X_ATOM])
  {
    if Known(val, s) {
      assert A_ATOM in AtomUse(s) && X_ATOM in AtomUse(s);
      forall st, pkt | MatchesOn(es, val, AtomUse(s), st, pkt) && Exec(s, st, pkt).Next?
        ensures Nu(es, val[X_ATOM], pkt) == ValueOf(s, st, pkt) && Exec(s1, st, pkt) == Exec(s, st, pkt)
      {
        NuConst(es, val[A_ATOM], pkt);
        AnnihilatesZero(s.op.alu, st[X_ATOM]);
        hide Compute;
      }
    }
  }
}
