/** Arithmetic code generation over the sixteen scratch registers. */
module Arithmetic {
  import opened Words
  import opened Ir
  import opened Liveness

  /** Arithmetic of a filter expression: link[index : size], len, constants, and operators. */
  datatype Expr =
    | Const(k: Word)
    | Len
    | LinkLoad(index: Expr, size: Size)
    | Negate(e: Expr)
    | Binary(op: AluOp, l: Expr, r: Expr)

  /** The link-layer header of Ethernet starts at the beginning of the packet. */
  const OFF_LL: Word := 0

  /** The value of an expression; the packet is rejected by a load out of range or a division by zero. */
  function Eval(e: Expr, pkt: Packet): Read {
    match e
    case Const(k) => Val(k)
    case Len => Val(pkt.wirelen)
    case LinkLoad(index, size) =>
      (match Eval(index, pkt)
       case Val(i) => Load(pkt, Wrap(i + OFF_LL), size)
       case r => r)
    case Negate(e1) =>
      (match Eval(e1, pkt)
       case Val(w) => Val(Wrap(-(w as int)))
       case r => r)
    case Binary(op, l, r) =>
      match Eval(l, pkt)
      case Val(a) =>
        (match Eval(r, pkt)
         case Val(b) => Arith(op, X, a, b)
         case x => x)
      case x => x
  }

  /** How code stops when a value cannot be had. */
  function Halt(v: Read): Step {
    if v.Faulted? then Fault else Reject
  }

  /**
   * The code leaves e's value in register regno and every register of keep as it was,
   * from any machine state; or it stops exactly as e does.
   */
  ghost predicate Computes(code: seq<Stmt>, regno: nat, e: Expr, keep: set<nat>) {
    regno < MEM_WORDS && Tame(code) && Yields(code, {regno}) && forall st, pkt :: Leaves(ExecAll(code, st, pkt), regno, Eval(e, pkt), keep, st)
  }

  ghost predicate Leaves(r: Step, regno: nat, v: Read, keep: set<nat>, st: State)
    requires regno < MEM_WORDS
  {
    match v
    case Val(w) => r.Next? && r.st[regno] == w && forall i | i in keep && i < MEM_WORDS :: r.st[i] == st[i]
    case v => r == Halt(v)
  }

  function XferToX(regno: nat): Stmt
    requires regno < MEM_WORDS
  {
    Stmt(LdxMem, regno)
  }

  function XferToA(regno: nat): Stmt
    requires regno < MEM_WORDS
  {
    Stmt(LdMem, regno)
  }

  // ----- Register allocation -----

  /** A set of numbers below n has at most n elements, and n only if it holds them all. */
  lemma {:induction false} Crowded(s: set<nat>, n: nat)
    requires forall i | i in s :: i < n
    ensures |s| <= n && (|s| == n <==> forall i: nat | i < n :: i in s)
  {
    if n > 0 {
      var t := s - {n - 1};
      Crowded(t, n - 1);
      assert s == if n - 1 in s then t + {n - 1} else t;
    }
  }

  /** The registers an expression takes at once: a load holds its index's register while it takes its own. */
  function Need(e: Expr): nat {
    match e
    case Const(_) => 1
    case Len => 1
    case LinkLoad(index, _) => Max(Need(index), 2)
    case Negate(e1) => Need(e1)
    case Binary(_, l, r) => Max(Need(l), 1 + Need(r))
  }

  class Registers {
    const regused: array<bool>
    var curreg: nat

    ghost predicate Valid()
      reads this, regused
    {
      regused.Length == MEM_WORDS && curreg < MEM_WORDS
    }

    ghost function Used(): set<nat>
      reads this, regused
      requires Valid()
    {
      set i: nat | i < MEM_WORDS && regused[i]
    }

    constructor ()
      ensures Valid() && Used() == {} && fresh(regused)
    {
      regused := new bool[MEM_WORDS](_ => false);
      curreg := 0;
    }

    static function Slot(start: nat, j: nat): (i: nat)
      ensures i < MEM_WORDS
    {
      (start + j) % MEM_WORDS
    }

    /** Every register is one of the sixteen from start on. */
    static lemma SlotsCover(start: nat, i: nat)
      requires start < MEM_WORDS && i < MEM_WORDS
      ensures exists j | 0 <= j < MEM_WORDS :: Slot(start, j) == i
    {
      assert Slot(start, (i + MEM_WORDS - start) % MEM_WORDS) == i;
    }

    /** All registers seen from start on are in use. */
    lemma AllUsed(start: nat)
      requires Valid() && start < MEM_WORDS && forall j | 0 <= j < MEM_WORDS :: regused[Slot(start, j)]
      ensures |Used()| == MEM_WORDS
    {
      forall i: nat | i < MEM_WORDS
        ensures regused[i]
      {
        SlotsCover(start, i);
      }
      Crowded(Used(), MEM_WORDS);
    }

    lemma OneFree(i: nat)
      requires Valid() && i < MEM_WORDS && !regused[i]
      ensures |Used()| < MEM_WORDS
    {
      assert i !in Used();
      Crowded(Used(), MEM_WORDS);
    }

    /** From `start` on, round robin, the register is the first that is not in use. */
    static ghost predicate FirstFree(used: set<nat>, start: nat, regno: nat) {
      exists j | 0 <= j < MEM_WORDS :: Slot(start, j) == regno && regno !in used && forall i | 0 <= i < j :: Slot(start, i) in used
    }

    /** alloc_reg: the next free register, round robin. Fails only when all sixteen are in use. */
    method Alloc() returns (ok: bool, regno: nat)
      requires Valid()
      modifies this`curreg, regused
      ensures Valid()
      ensures ok ==> regno < MEM_WORDS && regno !in old(Used()) && Used() == old(Used()) + {regno}
      ensures !ok ==> Used() == old(Used())
      ensures ok <==> |old(Used())| < MEM_WORDS
      ensures ok ==> curreg == regno && FirstFree(old(Used()), old(curreg), regno)
    {
      var n := MEM_WORDS;
      ghost var start := curreg;
      while n > 0
        invariant 0 <= n <= MEM_WORDS && Valid()
        invariant curreg == Slot(start, MEM_WORDS - n)
        invariant regused[..] == old(regused[..]) && Used() == old(Used())
        invariant forall j | 0 <= j < MEM_WORDS - n :: regused[Slot(start, j)]
      {
        n := n - 1;
        if regused[curreg] {
          curreg := (curreg + 1) % MEM_WORDS;
        } else {
          OneFree(curreg);
          regused[curreg] := true;
          return true, curreg;
        }
      }
      AllUsed(start);
      return false, 0;
    }

    method Free(regno: nat)
      requires Valid() && regno < MEM_WORDS
      modifies regused
      ensures Valid() && Used() == old(Used()) - {regno}
    {
      regused[regno] := false;
    }
  }

  // ----- Code generation -----

  /** struct arth: the code of an expression, and the register its result is left in. */
  class Arth {
    var s: seq<Stmt>
    var regno: nat

    constructor (s: seq<Stmt>, regno: nat)
      ensures this.s == s && this.regno == regno
    {
      this.s, this.regno := s, regno;
    }
  }

  /** a holds code for e; its register is the one newly taken; no register in use before is overwritten. */
  ghost predicate Pending(a: Arth, e: Expr, before: set<nat>, after: set<nat>)
    reads a
  {
    a.regno !in before && after == before + {a.regno} && Computes(a.s, a.regno, e, before)
  }

  method GenLoadI(regs: Registers, k: Word) returns (a: Arth?)
    requires regs.Valid()
    modifies regs`curreg, regs.regused
    ensures regs.Valid()
    ensures a != null <==> |old(regs.Used())| < MEM_WORDS
    ensures a != null ==> fresh(a) && Pending(a, Const(k), old(regs.Used()), regs.Used())
  {
    var ok, reg := regs.Alloc();
    if !ok { return null; }
    a := new Arth([Stmt(LdImm, k)] + [Stmt(St, reg)], reg);
    YieldsOne(Stmt(LdImm, k));
    StoreComputes([Stmt(LdImm, k)], reg, Const(k), old(regs.Used()));
  }

  method GenLoadLen(regs: Registers) returns (a: Arth?)
    requires regs.Valid()
    modifies regs`curreg, regs.regused
    ensures regs.Valid()
    ensures a != null <==> |old(regs.Used())| < MEM_WORDS
    ensures a != null ==> fresh(a) && Pending(a, Len, old(regs.Used()), regs.Used())
  {
    var ok, reg := regs.Alloc();
    if !ok { return null; }
    a := new Arth([Stmt(LdLen, 0)] + [Stmt(St, reg)], reg);
    YieldsOne(Stmt(LdLen, 0));
    StoreComputes([Stmt(LdLen, 0)], reg, Len, old(regs.Used()));
  }

  /** gen_load for the link layer. It takes its result register before it frees the index's. */
  method GenLoad(regs: Registers, inst: Arth, size: Size, ghost e: Expr, ghost keep: set<nat>) returns (a: Arth?)
    requires regs.Valid() && Pending(inst, e, keep, regs.Used())
    modifies regs`curreg, regs.regused, inst
    ensures regs.Valid() && (a == inst || a == null)
    ensures a != null <==> |old(regs.Used())| < MEM_WORDS
    ensures a != null ==> Pending(inst, LinkLoad(e, size), keep, regs.Used())
  {
    var ok, reg := regs.Alloc();
    if !ok { return null; }
    regs.Free(inst.regno);
    var s := inst.s + [XferToX(inst.regno), Stmt(LdInd(size), OFF_LL)];
    LoadLoads(inst.s, inst.regno, e, size, keep);
    StoreComputes(s, reg, LinkLoad(e, size), keep);
    inst.regno := reg;
    inst.s := s + [Stmt(St, reg)];
    return inst;
  }

  method GenNeg(regs: Registers, a: Arth, ghost e: Expr, ghost keep: set<nat>)
    requires regs.Valid() && Pending(a, e, keep, regs.Used())
    modifies a
    ensures Pending(a, Negate(e), keep, regs.Used())
  {
    var s := a.s + [XferToA(a.regno), Stmt(Neg, 0)];
    NegLoads(a.s, a.regno, e, keep);
    StoreComputes(s, a.regno, Negate(e), keep);
    a.s := s + [Stmt(St, a.regno)];
  }

  method GenArth(regs: Registers, op: AluOp, a0: Arth, a1: Arth, ghost l: Expr, ghost r: Expr, ghost keep: set<nat>)
    requires regs.Valid() && a0 != a1
    requires Pending(a0, l, keep, keep + {a0.regno}) && Pending(a1, r, keep + {a0.regno}, regs.Used())
    modifies regs`curreg, regs.regused, a0
    ensures regs.Valid() && Pending(a0, Binary(op, l, r), keep, regs.Used())
  {
    hide Computes;
    InRange(a0.s, a0.regno, l, keep);
    InRange(a1.s, a1.regno, r, keep + {a0.regno});
    var s := a0.s + a1.s + [XferToX(a1.regno), XferToA(a0.regno)] + [Stmt(Alu(op, X), 0)];
    var reg := Swap(regs, a0.regno, a1.regno, keep);
    BinaryComputes(op, a0.s, a0.regno, l, a1.s, a1.regno, r, reg, keep);
    a0.regno, a0.s := reg, s + [Stmt(St, reg)];
  }

  lemma InRange(code: seq<Stmt>, regno: nat, e: Expr, keep: set<nat>)
    requires Computes(code, regno, e, keep)
    ensures regno < MEM_WORDS
  {
  }

  /** The registers of two operands are given up and one is taken, which is always to be had. */
  method Swap(regs: Registers, r0: nat, r1: nat, ghost keep: set<nat>) returns (reg: nat)
    requires regs.Valid() && r0 < MEM_WORDS && r1 < MEM_WORDS && r0 !in keep && r1 !in keep && regs.Used() == keep + {r0} + {r1}
    modifies regs`curreg, regs.regused
    ensures regs.Valid() && reg < MEM_WORDS && reg !in keep && regs.Used() == keep + {reg}
  {
    regs.Free(r0);
    regs.Free(r1);
    assert r0 !in regs.Used() && regs.Used() == keep;
    Crowded(regs.Used(), MEM_WORDS);
    var ok;
    ok, reg := regs.Alloc();
  }

  /** An expression tree, operands first. The result is null exactly when it needs more registers than are free. */
  method GenExpr(regs: Registers, e: Expr) returns (a: Arth?)
    requires regs.Valid()
    modifies regs`curreg, regs.regused
    ensures regs.Valid()
    ensures a != null ==> fresh(a) && Pending(a, e, old(regs.Used()), regs.Used())
    ensures a != null <==> |old(regs.Used())| + Need(e) <= MEM_WORDS
    decreases e, 1
  {
    hide Computes;
    ghost var keep := regs.Used();
    match e {
      case Const(k) => a := GenLoadI(regs, k);
      case Len => a := GenLoadLen(regs);
      case LinkLoad(index, size) =>
        a := GenExpr(regs, index);
        if a != null {
          a := GenLoad(regs, a, size, index, keep);
        }
      case Negate(e1) =>
        a := GenExpr(regs, e1);
        if a != null {
          GenNeg(regs, a, e1, keep);
        }
      case Binary(op, l, r) =>
        a := GenBinary(regs, op, l, r);
    }
  }

  method GenBinary(regs: Registers, op: AluOp, l: Expr, r: Expr) returns (a: Arth?)
    requires regs.Valid()
    modifies regs`curreg, regs.regused
    ensures regs.Valid()
    ensures a != null ==> fresh(a) && Pending(a, Binary(op, l, r), old(regs.Used()), regs.Used())
    ensures a != null <==> |old(regs.Used())| + Max(Need(l), 1 + Need(r)) <= MEM_WORDS
    decreases Binary(op, l, r), 0
  {
    hide Computes;
    ghost var keep := regs.Used();
    a := GenExpr(regs, l);
    if a != null {
      var a1 := GenExpr(regs, r);
      if a1 == null { return null; }
      GenArth(regs, op, a, a1, l, r, keep);
    }
  }

  // ----- What the emitted sequences compute -----

  /** The code leaves e's value in the accumulator. */
  ghost predicate Loads(code: seq<Stmt>, e: Expr, keep: set<nat>) {
    Tame(code) && Yields(code, {A_ATOM}) && forall st, pkt :: LeavesA(ExecAll(code, st, pkt), Eval(e, pkt), keep, st)
  }

  ghost predicate LeavesA(r: Step, v: Read, keep: set<nat>, st: State) {
    match v
    case Val(w) => r.Next? && r.st[A_ATOM] == w && forall i | i in keep && i < MEM_WORDS :: r.st[i] == st[i]
    case v => r == Halt(v)
  }

  lemma StoreComputes(code: seq<Stmt>, reg: nat, e: Expr, keep: set<nat>)
    requires Loads(code, e, keep) && reg < MEM_WORDS && reg !in keep
    ensures Computes(code + [Stmt(St, reg)], reg, e, keep)
  {
    forall st, pkt
      ensures Leaves(ExecAll(code + [Stmt(St, reg)], st, pkt), reg, Eval(e, pkt), keep, st)
    {
      assert LeavesA(ExecAll(code, st, pkt), Eval(e, pkt), keep, st);
      ExecAllConcat(code, [Stmt(St, reg)], st, pkt);
    }
    YieldsSnoc(code, {A_ATOM}, Stmt(St, reg));
  }

  lemma LoadLoads(code: seq<Stmt>, reg: nat, e: Expr, size: Size, keep: set<nat>)
    requires Computes(code, reg, e, keep)
    ensures Loads(code + [XferToX(reg), Stmt(LdInd(size), OFF_LL)], LinkLoad(e, size), keep)
  {
    var tail := [XferToX(reg), Stmt(LdInd(size), OFF_LL)];
    forall st, pkt
      ensures LeavesA(ExecAll(code + tail, st, pkt), Eval(LinkLoad(e, size), pkt), keep, st)
    {
      assert Leaves(ExecAll(code, st, pkt), reg, Eval(e, pkt), keep, st);
      ExecAllConcat(code, tail, st, pkt);
      if Eval(e, pkt).Val? {
        ExecTwo(tail[0], tail[1], ExecAll(code, st, pkt).st, pkt);
      }
    }
    YieldsTwo(code, {reg as int}, tail[0], tail[1]);
  }

  lemma YieldsTwo(code: seq<Stmt>, atoms: set<int>, a: Stmt, b: Stmt)
    requires Yields(code, atoms) && AtomUse(a) <= atoms && AtomUse(b) <= atoms + {AtomDef(a)}
    requires !a.op.LdxLen? && !b.op.LdxLen? && AtomDef(a) >= 0 && AtomDef(b) >= 0
    ensures Yields(code + [a, b], atoms + {AtomDef(a)} + {AtomDef(b)})
  {
    YieldsSnoc(code, atoms, a);
    YieldsSnoc(code + [a], atoms + {AtomDef(a)}, b);
    assert code + [a] + [b] == code + [a, b];
  }

  lemma NegLoads(code: seq<Stmt>, reg: nat, e: Expr, keep: set<nat>)
    requires Computes(code, reg, e, keep)
    ensures Loads(code + [XferToA(reg), Stmt(Neg, 0)], Negate(e), keep)
  {
    var tail := [XferToA(reg), Stmt(Neg, 0)];
    forall st, pkt
      ensures LeavesA(ExecAll(code + tail, st, pkt), Eval(Negate(e), pkt), keep, st)
    {
      assert Leaves(ExecAll(code, st, pkt), reg, Eval(e, pkt), keep, st);
      ExecAllConcat(code, tail, st, pkt);
      if Eval(e, pkt).Val? {
        ExecTwo(tail[0], tail[1], ExecAll(code, st, pkt).st, pkt);
      }
    }
    YieldsTwo(code, {reg as int}, tail[0], tail[1]);
  }

  /** The code leaves l's value in the accumulator and r's in the index register. */
  ghost predicate LoadsBoth(code: seq<Stmt>, l: Expr, r: Expr, keep: set<nat>) {
    Tame(code) && Yields(code, {A_ATOM, X_ATOM}) && forall st, pkt :: LeavesBoth(ExecAll(code, st, pkt), Eval(l, pkt), Eval(r, pkt), keep, st)
  }

  ghost predicate LeavesBoth(x: Step, l: Read, r: Read, keep: set<nat>, st: State) {
    if l.Val? && r.Val? then
      && x.Next? && x.st[A_ATOM] == l.w && x.st[X_ATOM] == r.w
      && forall i | i in keep && i < MEM_WORDS :: x.st[i] == st[i]
    else x == Halt(if l.Val? then r else l)
  }

  lemma OperandsLoaded(s0: seq<Stmt>, r0: nat, l: Expr, s1: seq<Stmt>, r1: nat, r: Expr, keep: set<nat>)
    requires Computes(s0, r0, l, keep) && Computes(s1, r1, r, keep + {r0})
    ensures LoadsBoth(s0 + s1 + [XferToX(r1), XferToA(r0)], l, r, keep)
  {
    var tail := [XferToX(r1), XferToA(r0)];
    forall st, pkt
      ensures LeavesBoth(ExecAll(s0 + s1 + tail, st, pkt), Eval(l, pkt), Eval(r, pkt), keep, st)
    {
      assert Leaves(ExecAll(s0, st, pkt), r0, Eval(l, pkt), keep, st);
      ExecAllConcat(s0, s1, st, pkt);
      ExecAllConcat(s0 + s1, tail, st, pkt);
      if Eval(l, pkt).Val? {
        var st0 := ExecAll(s0, st, pkt).st;
        assert Leaves(ExecAll(s1, st0, pkt), r1, Eval(r, pkt), keep + {r0}, st0);
        assert r0 in keep + {r0};
        if Eval(r, pkt).Val? {
          ExecTwo(tail[0], tail[1], ExecAll(s1, st0, pkt).st, pkt);
        }
      }
    }
    YieldsConcat(s0, {r0 as int}, s1, {r1 as int});
    YieldsTwo(s0 + s1, {r0 as int} + {r1 as int}, tail[0], tail[1]);
  }

  lemma BinaryComputes(op: AluOp, s0: seq<Stmt>, r0: nat, l: Expr, s1: seq<Stmt>, r1: nat, r: Expr, reg: nat, keep: set<nat>)
    requires Computes(s0, r0, l, keep) && Computes(s1, r1, r, keep + {r0}) && reg < MEM_WORDS && reg !in keep
    ensures Computes(s0 + s1 + [XferToX(r1), XferToA(r0)] + [Stmt(Alu(op, X), 0)] + [Stmt(St, reg)], reg, Binary(op, l, r), keep)
  {
    var s := s0 + s1 + [XferToX(r1), XferToA(r0)];
    OperandsLoaded(s0, r0, l, s1, r1, r, keep);
    BinaryLoads(s, op, l, r, keep);
    hide Computes, Loads, LoadsBoth;
    StoreComputes(s + [Stmt(Alu(op, X), 0)], reg, Binary(op, l, r), keep);
  }

  lemma BinaryLoads(code: seq<Stmt>, op: AluOp, l: Expr, r: Expr, keep: set<nat>)
    requires LoadsBoth(code, l, r, keep)
    ensures Loads(code + [Stmt(Alu(op, X), 0)], Binary(op, l, r), keep)
  {
    var tail := [Stmt(Alu(op, X), 0)];
    forall st, pkt
      ensures LeavesA(ExecAll(code + tail, st, pkt), Eval(Binary(op, l, r), pkt), keep, st)
    {
      assert LeavesBoth(ExecAll(code, st, pkt), Eval(l, pkt), Eval(r, pkt), keep, st);
      ExecAllConcat(code, tail, st, pkt);
    }
    YieldsSnoc(code, {A_ATOM, X_ATOM}, tail[0]);
  }
}
