/** opt_blk: the numbering of a block, and the rewritings that follow it. */
module BlockPass {
  import opened Ir
  import opened Flowgraph
  import opened Values
  import opened Numbering
  import Deadstores
  import Peep

  /** The statements are all deleted: a return, or registers that end as they began with nothing used later. */
  predicate Cleared(alter: bool, s: Branch, out: set<int>, v0: seq<nat>, v1: seq<nat>)
    requires |v0| == N_ATOMS && |v1| == N_ATOMS
  {
    && alter
    && (s.Ret? || (out == {} && v0[A_ATOM] != 0 && v1[A_ATOM] == v0[A_ATOM] && v0[X_ATOM] != 0 && v1[X_ATOM] == v0[X_ATOM]))
  }

  /** What the numbering promises opt_peep: arithmetic at the end of the list has no constant result. */
  lemma NumberedUnfolded(es: seq<Triple>, ss: seq<Stmt>, mid: seq<Stmt>, v0: seq<nat>, v1: seq<nat>, alter: bool)
    requires BlockDone(es, ss, mid, v0, v1, alter)
    ensures Tame(mid) && |v1| == N_ATOMS && Peep.Unfolded(mid, Peep.ContentOf(es, v1[A_ATOM]))
  {
  }

  /** The numbered list's test for all bits, which opt_peep gets wrong. */
  ghost predicate Trap(mid: seq<Stmt>, t: Peep.Tail, out: set<int>, st: State) {
    mid != [] && Peep.AllOnes(Peep.LastSeen(mid), t.s, A_ATOM in out) && st[A_ATOM] == 0 && t.jt != t.jf
  }

  /**
   * From a state the block is entered in, its rewritten form leaves the atoms that are used later as they were left, and
   * goes to the same successor, except exactly where opt_peep ran and the block tests an accumulator of zero for all bits.
   */
  ghost predicate KeepsFrom(ss: seq<Stmt>, t: Peep.Tail, mid: seq<Stmt>, tt: seq<Stmt>, t': Peep.Tail, out: set<int>, cleared: bool, st: State, pkt: Packet)
    requires t.s.Jmp?
  {
    var r, r' := ExecAll(ss, st, pkt), ExecAll(tt, st, pkt);
    r.Next? ==>
      && r'.Next? && t'.s.Jmp? && Agree(out, r.st, r'.st)
      && (Peep.Target(t', r'.st) == Peep.Target(t, r.st) <==> cleared || !Trap(mid, t, out, r.st))
  }

  /** opt_blk keeps what an informed block does, wherever the entry table is right and no fusion loses the index register. */
  ghost predicate BlockKeeps(es: seq<Triple>, ss: seq<Stmt>, t: Peep.Tail, v0: seq<nat>, mid: seq<Stmt>, tt: seq<Stmt>, t': Peep.Tail,
                             out: set<int>, cleared: bool)
    requires t.s.Jmp? && |v0| == N_ATOMS
  {
    Informed(ss, v0) && (cleared || Peep.Fusible(mid, t.s, out)) ==>
      forall st, pkt | MatchesOn(es, v0, ALL, st, pkt) :: KeepsFrom(ss, t, mid, tt, t', out, cleared, st, pkt)
  }

  /** Registers whose numbers are what they were hold what they held. */
  lemma ClearedKeeps(es: seq<Triple>, ss: seq<Stmt>, t: Peep.Tail, v0: seq<nat>, mid: seq<Stmt>, v1: seq<nat>, alter: bool, out: set<int>)
    requires t.s.Jmp? && BlockDone(es, ss, mid, v0, v1, alter) && Cleared(alter, t.s, out, v0, v1)
    ensures BlockKeeps(es, ss, t, v0, mid, [], t, out, true)
  {
    if Informed(ss, v0) {
      forall st, pkt | MatchesOn(es, v0, ALL, st, pkt)
        ensures KeepsFrom(ss, t, mid, [], t, out, true, st, pkt)
      {
        if ExecAll(ss, st, pkt).Next? {
          var end := ExecAll(ss, st, pkt).st;
          NumberedAt(es, ss, mid, v0, v1, st, pkt);
          hide ExecAll, Nu;
          assert A_ATOM in ALL && X_ATOM in ALL;
          assert end[A_ATOM] == st[A_ATOM] && end[X_ATOM] == st[X_ATOM];
          BranchDependsOnUse(t.s, end, st);
        }
      }
    }
  }

  lemma NumberedAt(es: seq<Triple>, ss: seq<Stmt>, mid: seq<Stmt>, v0: seq<nat>, v1: seq<nat>, st: State, pkt: Packet)
    requires |v0| == N_ATOMS && |v1| == N_ATOMS && Numbered(es, ss, mid, v0, v1, ALL)
    requires MatchesOn(es, v0, ALL, st, pkt) && ExecAll(ss, st, pkt).Next?
    ensures ExecAll(mid, st, pkt) == ExecAll(ss, st, pkt) && MatchesOn(es, v1, ALL, ExecAll(ss, st, pkt).st, pkt)
  {
  }

  /** A number that is a constant's is right about the register that has it. */
  lemma ContentHolds(es: seq<Triple>, v: seq<nat>, a: int, st: State, pkt: Packet)
    requires |v| == N_ATOMS && 0 <= a < N_ATOMS && MatchesOn(es, v, ALL, st, pkt)
    ensures Peep.Holds(Peep.ContentOf(es, v[a]), st[a])
  {
    assert a in ALL;
    if IsConst(es, v[a]) {
      NuConst(es, v[a], pkt);
    }
    hide Nu;
  }

  /** The list after opt_peep, and after the dead stores are gone, leave the same for what comes later. */
  ghost predicate ThinnedKeeps(ss: seq<Stmt>, tt: seq<Stmt>, s: Branch, out: set<int>, st: State, pkt: Packet) {
    var r, r' := ExecAll(ss, st, pkt), ExecAll(tt, st, pkt);
    r.Next? ==> r'.Next? && Agree(out, r.st, r'.st) && (s.Jmp? ==> Decide(s, r.st) == Decide(s, r'.st))
  }

  lemma ThinnedAlways(ss: seq<Stmt>, tt: seq<Stmt>, s: Branch, out: set<int>)
    requires Tame(ss) && Deadstores.AllDead(ss, tt, out + BranchUse(s))
    requires forall st, pkt | ExecAll(ss, st, pkt).Next? ::
      var r, r' := ExecAll(ss, st, pkt), ExecAll(tt, st, pkt);
      && r'.Next? && Agree(out, r.st, r'.st) && (s.Jmp? ==> Decide(s, r.st) == Decide(s, r'.st))
    ensures Tame(tt) && forall st, pkt :: ThinnedKeeps(ss, tt, s, out, st, pkt)
  {
    hide ExecAll, Decide, Agree;
    forall x | x in tt
      ensures InScratch(x)
    {
      var j :| 0 <= j < |tt| && tt[j] == x;
      assert ss[j] in ss;
    }
  }

  lemma RewrittenKeeps(es: seq<Triple>, ss: seq<Stmt>, t: Peep.Tail, v0: seq<nat>, mid: seq<Stmt>, v1: seq<nat>, alter: bool,
                       peeped: seq<Stmt>, t': Peep.Tail, tt: seq<Stmt>, out: set<int>, st: State, pkt: Packet)
    requires t.s.Jmp? && BlockDone(es, ss, mid, v0, v1, alter) && Informed(ss, v0) && MatchesOn(es, v0, ALL, st, pkt) && |v1| == N_ATOMS
    requires mid != [] ==>
      Peep.PeepKeeps(mid, t, peeped, t', out, Peep.ContentOf(es, v1[A_ATOM]), Peep.ContentOf(es, v1[X_ATOM]), st, pkt)
    requires mid == [] ==> peeped == [] && t' == t
    requires ThinnedKeeps(peeped, tt, t'.s, out, st, pkt)
    ensures KeepsFrom(ss, t, mid, tt, t', out, false, st, pkt)
  {
    if ExecAll(ss, st, pkt).Next? {
      NumberedAt(es, ss, mid, v0, v1, st, pkt);
      var end := ExecAll(ss, st, pkt).st;
      ContentHolds(es, v1, A_ATOM, end, pkt);
      ContentHolds(es, v1, X_ATOM, end, pkt);
      hide ExecAll, Nu, Peep.Holds, Peep.ContentOf, Decide, Peep.AllOnes, Peep.LastSeen, MatchesOn, Informed, BlockDone;
      assert ExecAll(peeped, st, pkt).Next? && Agree(out, end, ExecAll(peeped, st, pkt).st);
    }
  }

  lemma RewrittenAlways(es: seq<Triple>, ss: seq<Stmt>, t: Peep.Tail, v0: seq<nat>, mid: seq<Stmt>, v1: seq<nat>, alter: bool,
                        peeped: seq<Stmt>, t': Peep.Tail, tt: seq<Stmt>, out: set<int>)
    requires t.s.Jmp? && BlockDone(es, ss, mid, v0, v1, alter) && |v0| == N_ATOMS && |v1| == N_ATOMS
    requires mid != [] && Peep.Fusible(mid, t.s, out) ==> forall st, pkt ::
      Peep.PeepKeeps(mid, t, peeped, t', out, Peep.ContentOf(es, v1[A_ATOM]), Peep.ContentOf(es, v1[X_ATOM]), st, pkt)
    requires mid == [] ==> peeped == [] && t' == t
    requires forall st, pkt :: ThinnedKeeps(peeped, tt, t'.s, out, st, pkt)
    ensures BlockKeeps(es, ss, t, v0, mid, tt, t', out, false)
  {
    hide BlockDone, Peep.PeepKeeps, ThinnedKeeps, KeepsFrom, Informed, MatchesOn, Peep.Fusible, Peep.ContentOf;
    if Informed(ss, v0) && Peep.Fusible(mid, t.s, out) {
      forall st, pkt | MatchesOn(es, v0, ALL, st, pkt)
        ensures KeepsFrom(ss, t, mid, tt, t', out, false, st, pkt)
      {
        RewrittenKeeps(es, ss, t, v0, mid, v1, alter, peeped, t', tt, out, st, pkt);
      }
    }
  }

  lemma KeepsExtends(es: seq<Triple>, es': seq<Triple>, ss: seq<Stmt>, t: Peep.Tail, v0: seq<nat>, mid: seq<Stmt>, tt: seq<Stmt>, t': Peep.Tail,
                     out: set<int>, cleared: bool)
    requires t.s.Jmp? && es <= es' && InTable(es, v0) && BlockKeeps(es, ss, t, v0, mid, tt, t', out, cleared)
    ensures BlockKeeps(es', ss, t, v0, mid, tt, t', out, cleared)
  {
    hide KeepsFrom, Informed, MatchesOn, Peep.Fusible;
    if Informed(ss, v0) && (cleared || Peep.Fusible(mid, t.s, out)) {
      forall st, pkt | MatchesOn(es', v0, ALL, st, pkt)
        ensures KeepsFrom(ss, t, mid, tt, t', out, cleared, st, pkt)
      {
        MatchesExtends(es, es', v0, ALL, st, pkt);
      }
    }
  }

  /** Which list and which branch opt_peep and opt_deadstores leave. */
  ghost predicate Reduced(es: seq<Triple>, v1: seq<nat>, mid: seq<Stmt>, t: Peep.Tail, tt: seq<Stmt>, t': Peep.Tail, out: set<int>)
    requires t.s.Jmp? && |v1| == N_ATOMS
  {
    var p := Peep.PeepedBlock(mid, t, out, Peep.ContentOf(es, v1[A_ATOM]), Peep.ContentOf(es, v1[X_ATOM]));
    t' == p.1 && Deadstores.AllDead(p.0, tt, out + BranchUse(t'.s))
  }

  lemma IsReduced(es: seq<Triple>, v1: seq<nat>, mid: seq<Stmt>, t: Peep.Tail, peeped: seq<Stmt>, tt: seq<Stmt>, t': Peep.Tail, out: set<int>)
    requires t.s.Jmp? && |v1| == N_ATOMS && Deadstores.AllDead(peeped, tt, out + BranchUse(t'.s))
    requires (peeped, t') == Peep.PeepedBlock(mid, t, out, Peep.ContentOf(es, v1[A_ATOM]), Peep.ContentOf(es, v1[X_ATOM]))
    ensures Reduced(es, v1, mid, t, tt, t', out)
    ensures mid == [] ==> peeped == [] && t' == t
  {
  }

  lemma ReducedExtends(es: seq<Triple>, es': seq<Triple>, v1: seq<nat>, mid: seq<Stmt>, t: Peep.Tail, tt: seq<Stmt>, t': Peep.Tail, out: set<int>)
    requires es <= es' && InTable(es, v1) && t.s.Jmp? && Reduced(es, v1, mid, t, tt, t', out)
    ensures Reduced(es', v1, mid, t, tt, t', out)
  {
    hide Peep.PeepedBlock, Deadstores.AllDead;
    assert forall i | 0 <= i < N_ATOMS :: Peep.ContentOf(es', v1[i]) == Peep.ContentOf(es, v1[i]);
  }

  /** opt_peep and then opt_deadstores, on a block whose statements have been numbered. */
  method Rewrite(b: Block, table: ValueTable, alter: bool, ghost ss: seq<Stmt>, ghost v0: seq<nat>)
    requires b.s.Jmp? && table.Valid() && InTable(table.entries, b.val) && |v0| == N_ATOMS
    requires BlockDone(table.entries, ss, b.stmts, v0, b.val, alter)
    modifies b`stmts, b`s, b`jt, b`jf
    ensures b.s.Jmp? && Tame(b.stmts) && |b.val| == N_ATOMS
    ensures Reduced(table.entries, b.val, old(b.stmts), old(Peep.Tail(b.s, b.jt, b.jf)), b.stmts, Peep.Tail(b.s, b.jt, b.jf), b.outUse)
    ensures BlockKeeps(table.entries, ss, old(Peep.Tail(b.s, b.jt, b.jf)), v0, old(b.stmts), b.stmts, Peep.Tail(b.s, b.jt, b.jf), b.outUse, false)
  {
    hide *;
    ghost var t, mid, es, v1, out := Peep.Tail(b.s, b.jt, b.jf), b.stmts, table.entries, b.val, b.outUse;
    NumberedUnfolded(es, ss, mid, v0, v1, alter);
    Peep.OptPeep(b, table);
    ghost var peeped, t' := b.stmts, Peep.Tail(b.s, b.jt, b.jf);
    Deadstores.OptDeadstores(b);
    ThinnedAlways(peeped, b.stmts, t'.s, out);
    IsReduced(es, v1, mid, t, peeped, b.stmts, t', out);
    RewrittenAlways(es, ss, t, v0, mid, v1, alter, peeped, t', b.stmts, out);
  }

  /** What the rewritings of a numbered block leave: nothing, where all statements are deleted. */
  ghost predicate Outcome(es: seq<Triple>, v1: seq<nat>, mid: seq<Stmt>, t: Peep.Tail, tt: seq<Stmt>, t': Peep.Tail, out: set<int>, cleared: bool)
    requires t.s.Jmp? && |v1| == N_ATOMS
  {
    if cleared then tt == [] && t' == t else Reduced(es, v1, mid, t, tt, t', out)
  }

  /** The special case, or the rewritings. */
  method ClearOrRewrite(b: Block, table: ValueTable, alter: bool, ghost ss: seq<Stmt>, start: seq<nat>)
    requires table.Valid() && InTable(table.entries, b.val) && |start| == N_ATOMS && (b.s.Ret? ==> b.stmts == [])
    requires BlockDone(table.entries, ss, b.stmts, start, b.val, alter)
    modifies b`stmts, b`s, b`jt, b`jf
    ensures Tame(b.stmts) && (old(b.s).Ret? ==> b.s == old(b.s) && b.stmts == []) && |b.val| == N_ATOMS
    ensures old(b.s).Jmp? ==> Outcome(table.entries, b.val, old(b.stmts), old(Peep.Tail(b.s, b.jt, b.jf)), b.stmts, Peep.Tail(b.s, b.jt, b.jf), b.outUse,
                                      Cleared(alter, old(b.s), b.outUse, start, b.val))
    ensures old(b.s).Jmp? ==>
      BlockKeeps(table.entries, ss, old(Peep.Tail(b.s, b.jt, b.jf)), start, old(b.stmts), b.stmts, Peep.Tail(b.s, b.jt, b.jf), b.outUse,
                 Cleared(alter, old(b.s), b.outUse, start, b.val))
  {
    assert Tame([]);
    hide BlockDone, BlockKeeps, Tame, Reduced;
    if Cleared(alter, b.s, b.outUse, start, b.val) {
      if b.s.Jmp? { ClearedKeeps(table.entries, ss, Peep.Tail(b.s, b.jt, b.jf), start, b.stmts, b.val, alter, b.outUse); }
      b.stmts := [];
    } else if b.s.Jmp? {
      Rewrite(b, table, alter, ss, start);
    }
  }

  /**
   * opt_blk: the numbers its predecessors agree on, its statements, the rewritings, and the operand of its branch.
   * It fails only where an operator divides by a constant zero.
   */
  method OptBlk(b: Block, table: ValueTable, alter: bool) returns (ok: bool, ghost v0: seq<nat>, ghost mid: seq<Stmt>)
    requires table.Valid() && Tame(b.stmts) && (b.s.Ret? ==> b.stmts == [])
    requires |table.entries| + 2 * |Live(b.stmts)| + 1 < table.vmap.Length
    requires forall e | e in b.inEdges :: InTable(table.entries, e.pred.val)
    modifies b`stmts, b`s, b`jt, b`jf, b`val, b`oval, table, table.hashtbl, table.vmap
    ensures table.Valid() && old(table.entries) <= table.entries
    ensures |table.entries| <= |old(table.entries)| + 2 * |Live(old(b.stmts))| + 1
    ensures InTable(old(table.entries), v0) && (b.inEdges == [] ==> v0 == Zeros()) && forall e | e in b.inEdges :: Below(v0, old(e.pred.val))
    ensures b.inEdges != [] ==> Keeps(v0, old(ValSet(b.inEdges)))
    ensures ok <==> !RefusedIn(table.entries, old(b.stmts), v0, alter)
    ensures ok ==> BlockDone(table.entries, old(b.stmts), mid, v0, b.val, alter) && |b.val| == N_ATOMS
    ensures ok ==> OvalRight(table.entries, b.s, b.val, b.oval) && Tame(b.stmts)
    ensures ok && old(b.s).Ret? ==> b.s == old(b.s) && b.stmts == []
    ensures ok && old(b.s).Jmp? ==> Outcome(table.entries, b.val, mid, old(Peep.Tail(b.s, b.jt, b.jf)), b.stmts, Peep.Tail(b.s, b.jt, b.jf), b.outUse,
                                            Cleared(alter, old(b.s), b.outUse, v0, b.val))
    ensures ok && old(b.s).Jmp? ==>
      BlockKeeps(table.entries, old(b.stmts), old(Peep.Tail(b.s, b.jt, b.jf)), v0, mid, b.stmts, Peep.Tail(b.s, b.jt, b.jf), b.outUse,
                 Cleared(alter, old(b.s), b.outUse, v0, b.val))
  {
    hide BlockDone, BlockKeeps, Live, Below, InTable, OvalRight, Keeps, ValSet, RefusedIn, Tame, Zeros, ValueTable.Valid, Cleared, Reduced;
    ghost var ss, t := b.stmts, Peep.Tail(b.s, b.jt, b.jf);
    var start := MergeValues(b, table.entries);
    v0 := start;
    assert forall e | e in b.inEdges :: Below(v0, old(e.pred.val));
    var stmts', val;
    ok, stmts', val := NumberStmts(table, b.stmts, start, alter);
    mid := stmts';
    if !ok { return; }
    ghost var es := table.entries;
    BlockDoneTable(es, ss, mid, v0, val, alter);
    b.stmts, b.val := stmts', val;
    ClearOrRewrite(b, table, alter, ss, start);
    b.oval := OvalOf(table, b.s, val);
    BlockDoneExtends(es, table.entries, ss, mid, v0, val, alter);
    DoneNotRefused(table, ss, mid, v0, val, alter);
    if t.s.Jmp? {
      if !Cleared(alter, t.s, b.outUse, v0, val) {
        ReducedExtends(es, table.entries, val, mid, t, b.stmts, Peep.Tail(b.s, b.jt, b.jf), b.outUse);
      }
      KeepsExtends(es, table.entries, ss, t, v0, mid, b.stmts, Peep.Tail(b.s, b.jt, b.jf), b.outUse, Cleared(alter, t.s, b.outUse, v0, val));
    }
  }
}
