/** opt_blk's use of the value table: a whole block, the merge of predecessors, and a sweep over the graph. */
module Numbering {
  import opened Words
  import opened Ir
  import opened Flowgraph
  import opened Levels
  import opened Liveness
  import opened Values
  import Layout
  import Interning
  import Threading

  const ALL: set<int> := set i: int | 0 <= i < 18

  // ----- One block -----

  /**
   * Every atom a statement reads has a number: it has one from the start, or a statement before defines it.
   * The packet length is not loaded into the index register.
   */
  predicate Informed(ss: seq<Stmt>, v0: seq<nat>) {
    |v0| == N_ATOMS && (forall a | a in UdAll(NONE, ss).use :: 0 <= a < N_ATOMS && v0[a] != 0)
    && forall s | s in ss :: !s.op.LdxLen?
  }

  /**
   * Where the table v0 is right about the atoms m and ss does not fail, tt does what ss does, and the
   * table v1 is then right about m and about all that ss defines.
   */
  ghost predicate Numbered(es: seq<Triple>, ss: seq<Stmt>, tt: seq<Stmt>, v0: seq<nat>, v1: seq<nat>, m: set<int>)
    requires |v0| == N_ATOMS && |v1| == N_ATOMS
  {
    forall st, pkt | MatchesOn(es, v0, m, st, pkt) && ExecAll(ss, st, pkt).Next? ::
      && ExecAll(tt, st, pkt) == ExecAll(ss, st, pkt)
      && MatchesOn(es, v1, m + UdAll(NONE, ss).def, ExecAll(ss, st, pkt).st, pkt)
  }

  /** What had a number, and what ss defines, has a number. */
  ghost predicate KnownAfter(v0: seq<nat>, ss: seq<Stmt>, v: seq<nat>)
    requires |v0| == N_ATOMS && |v| == N_ATOMS
  {
    forall a | 0 <= a < N_ATOMS && (v0[a] != 0 || a in UdAll(NONE, ss).def) :: v[a] != 0
  }

  lemma NumberedExtends(es: seq<Triple>, es': seq<Triple>, ss: seq<Stmt>, tt: seq<Stmt>, v0: seq<nat>, v1: seq<nat>, m: set<int>)
    requires es <= es' && InTable(es, v0) && InTable(es, v1) && Numbered(es, ss, tt, v0, v1, m)
    ensures Numbered(es', ss, tt, v0, v1, m)
  {
    forall st, pkt | MatchesOn(es', v0, m, st, pkt) && ExecAll(ss, st, pkt).Next?
      ensures ExecAll(tt, st, pkt) == ExecAll(ss, st, pkt)
      ensures MatchesOn(es', v1, m + UdAll(NONE, ss).def, ExecAll(ss, st, pkt).st, pkt)
    {
      MatchesExtends(es, es', v0, m, st, pkt);
      MatchesExtends(es, es', v1, m + UdAll(NONE, ss).def, ExecAll(ss, st, pkt).st, pkt);
    }
  }

  /** A statement reads what the statements before it have defined, or what the list uses of its entry state. */
  lemma ReadsOf(ss: seq<Stmt>, i: nat)
    requires i < |ss|
    ensures AtomUse(ss[i]) <= UdAll(NONE, ss[..i]).def + UdAll(NONE, ss).use && ss[..i + 1] == ss[..i] + [ss[i]]
    ensures UdAll(NONE, ss[..i + 1]).def == UdAll(NONE, ss[..i]).def + if AtomDef(ss[i]) < 0 then {} else {AtomDef(ss[i])}
  {
    hide UdAll, AtomUse, AtomDef;
    TakeOne(ss, i);
    ReadsOfSplit(ss[..i], ss[i], ss[i + 1..]);
  }

  lemma TakeOne(ss: seq<Stmt>, i: nat)
    requires i < |ss|
    ensures ss[..i + 1] == ss[..i] + [ss[i]] && ss[..i] + [ss[i]] + ss[i + 1..] == ss
  {
  }

  lemma ReadsOfSplit(p: seq<Stmt>, s: Stmt, q: seq<Stmt>)
    ensures AtomUse(s) <= UdAll(NONE, p).def + UdAll(NONE, p + [s] + q).use
    ensures UdAll(NONE, p + [s]).def == UdAll(NONE, p).def + if AtomDef(s) < 0 then {} else {AtomDef(s)}
  {
    hide UdAll;
    UdSnoc(NONE, p, s);
    UdConcat(NONE, p + [s], q);
    UdGrows(UdAll(NONE, p + [s]), q);
    var u := UdAll(NONE, p);
    assert UdAll(NONE, p + [s]).use == u.use + (AtomUse(s) - u.def);
    assert forall a | a in AtomUse(s) && a !in u.def :: a in UdAll(NONE, p + [s]).use;
  }

  lemma InformedKnows(ss: seq<Stmt>, i: nat, v0: seq<nat>, v: seq<nat>)
    requires Informed(ss, v0) && i < |ss| && |v| == N_ATOMS && KnownAfter(v0, ss[..i], v)
    ensures Known(v, ss[i])
  {
    ReadsOf(ss, i);
    hide UdAll;
  }

  /** One more statement numbered. Without rewriting, a quiet list needs nothing of its entry state. */
  lemma NumberedMore(es: seq<Triple>, ss: seq<Stmt>, tt: seq<Stmt>, i: nat, v0: seq<nat>, v: seq<nat>, v': seq<nat>, alter: bool, m: set<int>)
    requires Informed(ss, v0) && |tt| == |ss| && i < |ss| && |v| == N_ATOMS
    requires Numbered(es, ss[..i], tt[..i], v0, v, m) && KnownAfter(v0, ss[..i], v)
    requires StmtStep(es, v, ss[i], tt[i], v', alter) && (m == ALL || (Quiet(ss) && !alter)) && InScratch(ss[i])
    ensures Numbered(es, ss[..i + 1], tt[..i + 1], v0, v', m)
  {
    ReadsOf(ss, i);
    assert tt[..i + 1] == tt[..i] + [tt[i]];
    InformedKnows(ss, i, v0, v);
    hide UdAll, StmtStep, Informed;
    forall st, pkt | MatchesOn(es, v0, m, st, pkt) && ExecAll(ss[..i + 1], st, pkt).Next?
      ensures ExecAll(tt[..i + 1], st, pkt) == ExecAll(ss[..i + 1], st, pkt)
      ensures MatchesOn(es, v', m + UdAll(NONE, ss[..i + 1]).def, ExecAll(ss[..i + 1], st, pkt).st, pkt)
    {
      NumberedMoreAt(es, ss, tt, i, v0, v, v', alter, m, st, pkt);
    }
  }

  lemma NumberedMoreAt(es: seq<Triple>, ss: seq<Stmt>, tt: seq<Stmt>, i: nat, v0: seq<nat>, v: seq<nat>, v': seq<nat>, alter: bool, m: set<int>, st: State, pkt: Packet)
    requires |tt| == |ss| && i < |ss| && |v0| == N_ATOMS && |v| == N_ATOMS && Known(v, ss[i])
    requires ss[..i + 1] == ss[..i] + [ss[i]] && tt[..i + 1] == tt[..i] + [tt[i]]
    requires m == ALL || AtomUse(ss[i]) <= UdAll(NONE, ss[..i]).def
    requires UdAll(NONE, ss[..i + 1]).def == UdAll(NONE, ss[..i]).def + if AtomDef(ss[i]) < 0 then {} else {AtomDef(ss[i])}
    requires Numbered(es, ss[..i], tt[..i], v0, v, m)
    requires StmtStep(es, v, ss[i], tt[i], v', alter) && (alter ==> m == ALL) && InScratch(ss[i])
    requires MatchesOn(es, v0, m, st, pkt) && ExecAll(ss[..i + 1], st, pkt).Next?
    ensures ExecAll(tt[..i + 1], st, pkt) == ExecAll(ss[..i + 1], st, pkt)
    ensures MatchesOn(es, v', m + UdAll(NONE, ss[..i + 1]).def, ExecAll(ss[..i + 1], st, pkt).st, pkt)
  {
    ExecAllConcat(ss[..i], [ss[i]], st, pkt);
    ExecAllConcat(tt[..i], [tt[i]], st, pkt);
    var r := ExecAll(ss[..i], st, pkt);
    ExecOne(ss[i], r.st, pkt);
    ExecOne(tt[i], r.st, pkt);
    hide ExecAll, UdAll, Exec;
    var atoms := m + UdAll(NONE, ss[..i]).def;
    assert alter && AtomDef(ss[i]) >= 0 ==> AtomDef(ss[i]) in atoms;
    if AtomDef(ss[i]) < 0 {
      StmtNothing(es, v, ss[i], tt[i], v', alter, r.st, pkt);
    } else {
      StepMatches(es, v, ss[i], tt[i], v', alter, atoms, r.st, pkt);
    }
  }

  lemma StmtNothing(es: seq<Triple>, v: seq<nat>, s: Stmt, s': Stmt, v': seq<nat>, alter: bool, st: State, pkt: Packet)
    requires |v| == N_ATOMS && StmtStep(es, v, s, s', v', alter) && AtomDef(s) < 0 && InScratch(s)
    ensures s' == s && v' == v && Exec(s, st, pkt) == Next(st)
  {
  }

  lemma KnownMore(es: seq<Triple>, ss: seq<Stmt>, i: nat, v0: seq<nat>, v: seq<nat>, s': Stmt, v': seq<nat>, alter: bool)
    requires Informed(ss, v0) && i < |ss| && |v| == N_ATOMS && KnownAfter(v0, ss[..i], v)
    requires StmtStep(es, v, ss[i], s', v', alter) && InScratch(ss[i])
    ensures KnownAfter(v0, ss[..i + 1], v')
  {
    ReadsOf(ss, i);
    InformedKnows(ss, i, v0, v);
    hide UdAll;
    if AtomDef(ss[i]) >= 0 {
      var s1, n, vanish :| StmtStepBy(es, v, ss[i], s', v', alter, s1, n, vanish);
    }
  }

  /** The statements numbered one after the other, from the table v0 to the table v1, and what each becomes; none is refused. */
  ghost predicate Traced(es: seq<Triple>, ss: seq<Stmt>, tt: seq<Stmt>, v0: seq<nat>, v1: seq<nat>, alter: bool)
    decreases |ss|, 1
  {
    && |tt| == |ss|
    && if ss == [] then v1 == v0
       else exists v :: TracedBy(es, ss, tt, v0, v, v1, alter)
  }

  ghost predicate TracedBy(es: seq<Triple>, ss: seq<Stmt>, tt: seq<Stmt>, v0: seq<nat>, v: seq<nat>, v1: seq<nat>, alter: bool)
    requires |tt| == |ss| > 0
    decreases |ss|, 0
  {
    var n := |ss| - 1;
    InTable(es, v) && Traced(es, ss[..n], tt[..n], v0, v, alter) && StepAt(es, v, ss[n], tt[n], v1, alter)
  }

  lemma TracedMore(es: seq<Triple>, p: seq<Stmt>, p': seq<Stmt>, v0: seq<nat>, v: seq<nat>, s: Stmt, s': Stmt, v1: seq<nat>, alter: bool)
    requires InTable(es, v) && Traced(es, p, p', v0, v, alter) && StepAt(es, v, s, s', v1, alter)
    ensures Traced(es, p + [s], p' + [s'], v0, v1, alter)
  {
    assert (p + [s])[..|p|] == p && (p' + [s'])[..|p|] == p';
    hide StepAt;
    assert TracedBy(es, p + [s], p' + [s'], v0, v, v1, alter);
  }

  lemma {:induction false} TracedExtends(es: seq<Triple>, es': seq<Triple>, ss: seq<Stmt>, tt: seq<Stmt>, v0: seq<nat>, v1: seq<nat>, alter: bool)
    requires es <= es' && Traced(es, ss, tt, v0, v1, alter)
    ensures Traced(es', ss, tt, v0, v1, alter)
    decreases |ss|
  {
    if ss != [] {
      var n := |ss| - 1;
      var v :| TracedBy(es, ss, tt, v0, v, v1, alter);
      TracedExtends(es, es', ss[..n], tt[..n], v0, v, alter);
      StepAtExtends(es, es', v, ss[n], tt[n], v1, alter);
      hide StepAt;
      assert TracedBy(es', ss, tt, v0, v, v1, alter);
    }
  }

  /** In a table without repetitions, the statements are numbered in one way only. */
  lemma {:induction false} TracedUnique(es: seq<Triple>, ss: seq<Stmt>, tt: seq<Stmt>, v1: seq<nat>, tt': seq<Stmt>, v1': seq<nat>, v0: seq<nat>, alter: bool)
    requires DistinctEntries(es) && Traced(es, ss, tt, v0, v1, alter) && Traced(es, ss, tt', v0, v1', alter)
    ensures tt' == tt && v1' == v1
    decreases |ss|
  {
    if ss != [] {
      var n := |ss| - 1;
      var v :| TracedBy(es, ss, tt, v0, v, v1, alter);
      var v' :| TracedBy(es, ss, tt', v0, v', v1', alter);
      TracedUnique(es, ss[..n], tt[..n], v, tt'[..n], v', v0, alter);
      StepAtUnique(es, v, ss[n], tt[n], v1, tt'[n], v1', alter);
      hide StepAt, Traced;
      assert tt == tt[..n] + [tt[n]] && tt' == tt'[..n] + [tt'[n]];
    }
  }

  /** Numbered from the table v0, some statement turns out to divide a constant by the constant zero. */
  ghost predicate RefusedIn(es: seq<Triple>, ss: seq<Stmt>, v0: seq<nat>, alter: bool) {
    exists i, tt, v | 0 <= i < |ss| :: RefusedAt(es, ss, v0, alter, i, tt, v)
  }

  ghost predicate RefusedAt(es: seq<Triple>, ss: seq<Stmt>, v0: seq<nat>, alter: bool, i: nat, tt: seq<Stmt>, v: seq<nat>) {
    i < |ss| && InTable(es, v) && Traced(es, ss[..i], tt, v0, v, alter) && Refused(es, v, ss[i], alter)
  }

  lemma {:induction false} TracedTo(es: seq<Triple>, ss: seq<Stmt>, tt: seq<Stmt>, v0: seq<nat>, v1: seq<nat>, alter: bool, i: nat) returns (v: seq<nat>)
    requires Traced(es, ss, tt, v0, v1, alter) && i < |ss|
    ensures |tt| == |ss| && InTable(es, v) && Traced(es, ss[..i], tt[..i], v0, v, alter) && !Refused(es, v, ss[i], alter)
    decreases |ss|
  {
    var n := |ss| - 1;
    v :| TracedBy(es, ss, tt, v0, v, v1, alter);
    if i < n {
      assert ss[..n][..i] == ss[..i] && tt[..n][..i] == tt[..i];
      v := TracedTo(es, ss[..n], tt[..n], v0, v, alter, i);
    }
  }

  /** A list that has been numbered to its end has no statement that is refused. */
  lemma TracedNotRefused(es: seq<Triple>, ss: seq<Stmt>, tt: seq<Stmt>, v0: seq<nat>, v1: seq<nat>, alter: bool)
    requires DistinctEntries(es) && Traced(es, ss, tt, v0, v1, alter)
    ensures !RefusedIn(es, ss, v0, alter)
  {
    hide Traced, Refused;
    if i, tt', v' :| 0 <= i < |ss| && RefusedAt(es, ss, v0, alter, i, tt', v') {
      var v := TracedTo(es, ss, tt, v0, v1, alter, i);
      TracedUnique(es, ss[..i], tt[..i], v, tt', v', v0, alter);
    }
  }

  lemma RefusedExtends(es: seq<Triple>, es': seq<Triple>, ss: seq<Stmt>, v0: seq<nat>, alter: bool)
    requires es <= es' && RefusedIn(es, ss, v0, alter)
    ensures RefusedIn(es', ss, v0, alter)
  {
    var i, tt, v :| 0 <= i < |ss| && RefusedAt(es, ss, v0, alter, i, tt, v);
    TracedExtends(es, es', ss[..i], tt, v0, v, alter);
    SameConsts(es, es', v, ss[i], alter);
    hide Traced, Refused;
    assert RefusedAt(es', ss, v0, alter, i, tt, v);
  }

  /** Everything a finished block's numbering is known to satisfy. */
  ghost predicate BlockDone(es: seq<Triple>, ss: seq<Stmt>, tt: seq<Stmt>, v0: seq<nat>, v1: seq<nat>, alter: bool) {
    && InTable(es, v0) && InTable(es, v1) && |tt| == |ss| && (!alter ==> tt == ss)
    && (Informed(ss, v0) ==> KnownAfter(v0, ss, v1) && Numbered(es, ss, tt, v0, v1, ALL))
    && (Quiet(ss) && !alter ==> Numbered(es, ss, tt, v0, v1, {}))
    && Settled(es, tt, v1) && Traced(es, ss, tt, v0, v1, alter)
  }

  /** Scratch operations stay in range, and arithmetic at the end of the list has left the accumulator a number that is not a constant's. */
  ghost predicate Settled(es: seq<Triple>, tt: seq<Stmt>, v: seq<nat>)
    requires |v| == N_ATOMS
  {
    Tame(tt) && (LastAlu(Live(tt)) != [] ==> !IsConst(es, v[A_ATOM]))
  }

  /** The statements before the i-th have been numbered. */
  ghost predicate Partly(es: seq<Triple>, ss: seq<Stmt>, tt: seq<Stmt>, i: nat, v0: seq<nat>, v: seq<nat>, alter: bool) {
    && InTable(es, v0) && InTable(es, v) && i <= |ss| == |tt| && tt[i..] == ss[i..] && (!alter ==> tt == ss)
    && (Informed(ss, v0) ==> KnownAfter(v0, ss[..i], v) && Numbered(es, ss[..i], tt[..i], v0, v, ALL))
    && (Quiet(ss) && !alter ==> Numbered(es, ss[..i], tt[..i], v0, v, {}))
    && Settled(es, tt[..i], v) && Traced(es, ss[..i], tt[..i], v0, v, alter)
  }

  lemma SettledMore(es: seq<Triple>, es': seq<Triple>, p: seq<Stmt>, s: Stmt, s': Stmt, v: seq<nat>, v': seq<nat>, alter: bool)
    requires es <= es' && InTable(es, v) && Settled(es, p, v) && StmtStep(es', v, s, s', v', alter) && InScratch(s)
    ensures Settled(es', p + [s'], v')
  {
    LiveAppend(p, s');
    hide Live, Values.Sound;
    if 0 <= AtomDef(s) && !s.op.LdxLen? {
      var s1, n, vanish :| StmtStepBy(es', v, s, s', v', alter, s1, n, vanish);
      PickedLeft(es', v, s, alter, s1, n);
      hide Picked, Vanishes, Refused;
    }
  }

  lemma {:induction false} LiveAppend(p: seq<Stmt>, s: Stmt)
    ensures Live(p + [s]) == Live(p) + if s.op.Nop? then [] else [s]
  {
    if p == [] {
      assert p + [s] == [s] && [s][1..] == [];
    } else {
      assert (p + [s])[1..] == p[1..] + [s];
      LiveAppend(p[1..], s);
    }
  }

  lemma PartlyMore(es: seq<Triple>, es': seq<Triple>, ss: seq<Stmt>, tt: seq<Stmt>, i: nat, v0: seq<nat>, v: seq<nat>,
                   s': Stmt, v': seq<nat>, alter: bool)
    requires es <= es' && Partly(es, ss, tt, i, v0, v, alter) && i < |ss| && InScratch(ss[i])
    requires InTable(es', v') && StmtStep(es', v, ss[i], s', v', alter)
    ensures Partly(es', ss, tt[i := s'], i + 1, v0, v', alter)
  {
    var tt' := tt[i := s'];
    assert tt'[..i] == tt[..i] && tt'[i + 1..] == tt[i..][1..] == ss[i + 1..];
    assert tt[i] == tt[i..][0] == ss[i..][0] == ss[i];
    SettledMore(es, es', tt[..i], ss[i], s', v, v', alter);
    assert tt'[..i + 1] == tt[..i] + [s'] && ss[..i + 1] == ss[..i] + [ss[i]];
    StepIsAt(es', v, ss[i], s', v', alter);
    hide Numbered, KnownAfter, StmtStep, Settled, Traced, StepAt;
    TracedExtends(es, es', ss[..i], tt[..i], v0, v, alter);
    TracedMore(es', ss[..i], tt[..i], v0, v, ss[i], s', v', alter);
    if Informed(ss, v0) {
      NumberedExtends(es, es', ss[..i], tt[..i], v0, v, ALL);
      NumberedMore(es', ss, tt', i, v0, v, v', alter, ALL);
      KnownMore(es', ss, i, v0, v, s', v', alter);
      if Quiet(ss) && !alter {
        NumberedExtends(es, es', ss[..i], tt[..i], v0, v, {});
        NumberedMore(es', ss, tt', i, v0, v, v', alter, {});
      }
    }
  }

  lemma PartlyStarts(es: seq<Triple>, ss: seq<Stmt>, v0: seq<nat>, alter: bool)
    requires InTable(es, v0)
    ensures Partly(es, ss, ss, 0, v0, v0, alter)
  {
    assert ss[..0] == [];
    assert forall st, pkt :: ExecAll([], st, pkt) == Next(st);
  }

  lemma PartlyEnds(es: seq<Triple>, ss: seq<Stmt>, tt: seq<Stmt>, v0: seq<nat>, v: seq<nat>, alter: bool)
    requires Partly(es, ss, tt, |ss|, v0, v, alter)
    ensures BlockDone(es, ss, tt, v0, v, alter)
  {
    assert ss[..|ss|] == ss && tt[..|ss|] == tt;
  }

  /** Statements numbered cost at most two entries each, deleted ones none. */
  lemma LiveLeft(ss: seq<Stmt>, i: nat)
    requires i < |ss|
    ensures |Live(ss[i..])| == |Live(ss[i + 1..])| + if ss[i].op.Nop? then 0 else 1
  {
    Interning.LiveAt(ss, i);
  }

  /** opt_blk's loop over the statements of a block. */
  method NumberStmts(table: ValueTable, stmts: seq<Stmt>, v0: seq<nat>, alter: bool) returns (ok: bool, stmts': seq<Stmt>, val: seq<nat>)
    requires table.Valid() && InTable(table.entries, v0) && Tame(stmts)
    requires |table.entries| + 2 * |Live(stmts)| < table.vmap.Length
    modifies table, table.hashtbl, table.vmap
    ensures table.Valid() && old(table.entries) <= table.entries
    ensures |table.entries| <= |old(table.entries)| + 2 * |Live(stmts)|
    ensures ok ==> BlockDone(table.entries, stmts, stmts', v0, val, alter)
    ensures ok <==> !RefusedIn(table.entries, stmts, v0, alter)
  {
    hide Partly, Live, StmtStep;
    ok, stmts', val := true, stmts, v0;
    PartlyStarts(table.entries, stmts, v0, alter);
    assert stmts[0..] == stmts && stmts[|stmts|..] == [];
    for i := 0 to |stmts|
      invariant table.Valid() && old(table.entries) <= table.entries && |stmts'| == |stmts|
      invariant |table.entries| + 2 * |Live(stmts[i..])| <= |old(table.entries)| + 2 * |Live(stmts)|
      invariant Partly(table.entries, stmts, stmts', i, v0, val, alter)
    {
      LiveLeft(stmts, i);
      PartlyAt(table.entries, stmts, stmts', i, v0, val, alter);
      ghost var es, v := table.entries, val;
      var s';
      ok, s', val := table.OptStmt(stmts'[i], val, alter);
      if !ok {
        PartlyRefused(table.entries, es, stmts, stmts', i, v0, v, alter);
        return;
      }
      PartlyMore(es, table.entries, stmts, stmts', i, v0, v, s', val, alter);
      stmts' := stmts'[i := s'];
    }
    PartlyEnds(table.entries, stmts, stmts', v0, val, alter);
    DoneNotRefused(table, stmts, stmts', v0, val, alter);
  }

  lemma PartlyRefused(es': seq<Triple>, es: seq<Triple>, ss: seq<Stmt>, tt: seq<Stmt>, i: nat, v0: seq<nat>, v: seq<nat>, alter: bool)
    requires es <= es' && Partly(es, ss, tt, i, v0, v, alter) && i < |ss| && Refused(es', v, ss[i], alter)
    ensures RefusedIn(es', ss, v0, alter)
  {
    TracedExtends(es, es', ss[..i], tt[..i], v0, v, alter);
    hide Traced, Refused;
    assert RefusedAt(es', ss, v0, alter, i, tt[..i], v);
  }

  lemma DoneNotRefused(table: ValueTable, ss: seq<Stmt>, tt: seq<Stmt>, v0: seq<nat>, v1: seq<nat>, alter: bool)
    requires table.Valid() && BlockDone(table.entries, ss, tt, v0, v1, alter)
    ensures !RefusedIn(table.entries, ss, v0, alter)
  {
    hide Traced;
    TracedNotRefused(table.entries, ss, tt, v0, v1, alter);
  }

  lemma PartlyAt(es: seq<Triple>, ss: seq<Stmt>, tt: seq<Stmt>, i: nat, v0: seq<nat>, v: seq<nat>, alter: bool)
    requires Partly(es, ss, tt, i, v0, v, alter) && i < |ss|
    ensures InTable(es, v) && tt[i] == ss[i]
  {
    assert tt[i] == tt[i..][0] == ss[i..][0];
  }

  // ----- find_inedges -----

  /** The edges into b from the given blocks. */
  ghost predicate IntoExactly(g: Graph, met: set<Block>, b: Block, es: seq<Edge>) {
    && (forall e | e in es :: e.pred in met && e.pred in g && g[e.pred].s.Jmp? && g[e.pred].Succ(e.sense) == b)
    && (forall p, s | p in met && p in g && g[p].s.Jmp? && g[p].Succ(s) == b :: Edge(p, s) in es)
    && DistinctEdges(es)
  }

  ghost predicate DistinctEdges(es: seq<Edge>) {
    forall i, j | 0 <= i < j < |es| :: es[i] != es[j]
  }

  /** An edge put in front of a list it is not in, if it leads to the block. */
  lemma EdgeInFront(es: seq<Edge>, e: Edge, into: bool)
    requires DistinctEdges(es) && e !in es
    ensures DistinctEdges(if into then [e] + es else es)
    ensures forall x :: x in (if into then [e] + es else es) <==> x in es || (into && x == e)
  {
  }

  ghost predicate InedgesOf(g: Graph, met: set<Block>, ins: map<Block, seq<Edge>>) {
    forall b | b in ins :: IntoExactly(g, met, b, ins[b])
  }

  ghost function InsOf(blocks: set<Block>): (m: map<Block, seq<Edge>>)
    reads blocks`inEdges
    ensures m.Keys == blocks
  {
    map b | b in blocks :: b.inEdges
  }

  method LinkInedge(e: Edge, child: Block, ghost blocks: set<Block>)
    requires child in blocks
    modifies child`inEdges
    ensures InsOf(blocks) == old(InsOf(blocks))[child := [e] + old(child.inEdges)]
  {
    child.inEdges := [e] + child.inEdges;
  }

  ghost function Linked(g: Graph, ins: map<Block, seq<Edge>>, b: Block): map<Block, seq<Edge>>
    requires b in g && g[b].jt in ins && g[b].jf in ins
  {
    var ins1 := ins[g[b].jt := [Edge(b, true)] + ins[g[b].jt]];
    ins1[g[b].jf := [Edge(b, false)] + ins1[g[b].jf]]
  }

  lemma LinkedAt(g: Graph, ins: map<Block, seq<Edge>>, b: Block, c: Block)
    requires b in g && g[b].jt in ins && g[b].jf in ins && c in ins
    ensures Linked(g, ins, b).Keys == ins.Keys
    ensures var es1 := if g[b].jt == c then [Edge(b, true)] + ins[c] else ins[c];
      Linked(g, ins, b)[c] == if g[b].jf == c then [Edge(b, false)] + es1 else es1
  {
  }

  lemma LinkBoth(g: Graph, met: set<Block>, ins: map<Block, seq<Edge>>, b: Block)
    requires b in g && g[b].s.Jmp? && b !in met && g[b].jt in ins && g[b].jf in ins && InedgesOf(g, met, ins)
    ensures InedgesOf(g, met + {b}, Linked(g, ins, b))
  {
    hide IntoExactly;
    LinkedAt(g, ins, b, g[b].jt);
    forall c | c in Linked(g, ins, b)
      ensures IntoExactly(g, met + {b}, c, Linked(g, ins, b)[c])
    {
      assert IntoExactly(g, met, c, ins[c]);
      LinkedAt(g, ins, b, c);
      IntoMore(g, met, b, c, ins[c]);
      hide Linked;
    }
  }

  /** What block b adds to the edges into c. */
  /** The edges into c with those of b, if there are any, in front. */
  ghost function WithEdges(g: Graph, b: Block, c: Block, es: seq<Edge>): seq<Edge>
    requires b in g
  {
    var es1 := if g[b].jt == c then [Edge(b, true)] + es else es;
    if g[b].jf == c then [Edge(b, false)] + es1 else es1
  }

  lemma WithEdgesHolds(g: Graph, b: Block, c: Block, es: seq<Edge>, e: Edge)
    requires b in g
    ensures e in WithEdges(g, b, c, es) <==> e in es || (e.pred == b && g[b].Succ(e.sense) == c)
  {
    assert e == Edge(e.pred, e.sense);
  }

  lemma IntoMore(g: Graph, met: set<Block>, b: Block, c: Block, es: seq<Edge>)
    requires b in g && g[b].s.Jmp? && b !in met && IntoExactly(g, met, c, es)
    ensures IntoExactly(g, met + {b}, c, WithEdges(g, b, c, es))
  {
    EdgeInFront(es, Edge(b, true), g[b].jt == c);
    EdgeInFront(if g[b].jt == c then [Edge(b, true)] + es else es, Edge(b, false), g[b].jf == c);
    var es2 := WithEdges(g, b, c, es);
    assert DistinctEdges(es2);
    hide DistinctEdges, WithEdges;
    forall e | e in es2
      ensures e.pred in met + {b} && e.pred in g && g[e.pred].s.Jmp? && g[e.pred].Succ(e.sense) == c
    {
      WithEdgesHolds(g, b, c, es, e);
    }
    forall p, s | p in met + {b} && p in g && g[p].s.Jmp? && g[p].Succ(s) == c
      ensures Edge(p, s) in es2
    {
      WithEdgesHolds(g, b, c, es, Edge(p, s));
    }
  }

  /** find_inedges: the edges into every block from the blocks that can be reached. */
  method FindInedges(root: Block, blocks: seq<Block>, levels: array<seq<Block>>, ghost g: Graph, ghost rank: map<Block, nat>)
    requires g == Snap(g.Keys) && Dag(g, rank) && root in g && Levelled(g, rank, root, levels[..])
    requires root.level == Height(g, rank, root) && Interning.Numbered(g, blocks)
    modifies g.Keys`inEdges
    ensures InedgesOf(g, Reach(g, rank, root), InsOf(g.Keys))
  {
    hide Dag, Reach, Levelled, Met, Height, InedgesOf, Snap, Interning.Numbered;
    ghost var lv := levels[..];
    NoInedges(blocks, g);
    RootFits(g, rank, root, lv);
    MetSteps(g, rank, root, lv, root.level);
    var i := root.level;
    while i > 0
      invariant 0 <= i <= Height(g, rank, root) && g == Snap(g.Keys)
      invariant InedgesOf(g, Met(g, rank, root, lv, i, 0), InsOf(g.Keys))
    {
      InedgeLevel(root, levels, i, g, rank);
      i := i - 1;
    }
    LeavesAddNone(g, rank, root, lv, InsOf(g.Keys));
  }

  /** The two calls of link_inedge for a block. */
  method LinkChildren(b: Block, ghost g: Graph)
    requires b in g && g[b] == Node(b.stmts, b.s, b.jt, b.jf) && b.jt in g && b.jf in g
    modifies g.Keys`inEdges
    ensures InsOf(g.Keys) == Linked(g, old(InsOf(g.Keys)), b)
  {
    LinkInedge(Edge(b, true), b.jt, g.Keys);
    LinkInedge(Edge(b, false), b.jf, g.Keys);
  }

  lemma LeavesAddNone(g: Graph, rank: map<Block, nat>, root: Block, lv: Lists, ins: map<Block, seq<Edge>>)
    requires Dag(g, rank) && root in g && Levelled(g, rank, root, lv) && InedgesOf(g, Met(g, rank, root, lv, 0, 0), ins)
    ensures InedgesOf(g, Reach(g, rank, root), ins)
  {
    forall p | p in Reach(g, rank, root) && g[p].s.Jmp?
      ensures p in Met(g, rank, root, lv, 0, 0)
    {
    }
    forall b | b in ins
      ensures IntoExactly(g, Reach(g, rank, root), b, ins[b])
    {
      assert IntoExactly(g, Met(g, rank, root, lv, 0, 0), b, ins[b]);
    }
  }

  method NoInedges(blocks: seq<Block>, ghost g: Graph)
    requires Interning.Numbered(g, blocks)
    modifies g.Keys`inEdges
    ensures InedgesOf(g, {}, InsOf(g.Keys))
  {
    for i := 0 to |blocks|
      invariant forall k | 0 <= k < i :: blocks[k].inEdges == []
    {
      blocks[i].inEdges := [];
    }
    assert forall b | b in g :: b.inEdges == [];
  }

  method InedgeLevel(ghost root: Block, levels: array<seq<Block>>, i: nat, ghost g: Graph, ghost rank: map<Block, nat>)
    requires g == Snap(g.Keys) && Dag(g, rank) && root in g && Levelled(g, rank, root, levels[..]) && 0 < i < levels.Length
    requires InedgesOf(g, Met(g, rank, root, levels[..], i, 0), InsOf(g.Keys))
    modifies g.Keys`inEdges
    ensures InedgesOf(g, Met(g, rank, root, levels[..], i - 1, 0), InsOf(g.Keys))
  {
    hide Dag, Reach, Levelled, Met, Height, InedgesOf, Linked, InsOf;
    ghost var lv := levels[..];
    var k := 0;
    while k < |levels[i]|
      invariant 0 <= k <= |levels[i]| && g == Snap(g.Keys)
      invariant InedgesOf(g, Met(g, rank, root, lv, i, k), InsOf(g.Keys))
    {
      var b := levels[i][k];
      NextDown(g, rank, root, lv, i, k);
      Branches(g, rank, root, b);
      assert g[b] == Node(b.stmts, b.s, b.jt, b.jf);
      LinkBoth(g, Met(g, rank, root, lv, i, k), InsOf(g.Keys), b);
      LinkChildren(b, g);
      k := k + 1;
    }
    MetSteps(g, rank, root, lv, i);
  }

  // ----- The merge of predecessors -----

  /** Every number of v is also w's, or unknown. */
  ghost predicate Below(v: seq<nat>, w: seq<nat>) {
    |v| == N_ATOMS && |w| == N_ATOMS && forall i | 0 <= i < N_ATOMS && v[i] != 0 :: v[i] == w[i]
  }

  function Meet(v: seq<nat>, w: seq<nat>): (u: seq<nat>)
    requires |v| == N_ATOMS && |w| == N_ATOMS
    ensures Below(u, v) && Below(u, w)
    ensures forall i | 0 <= i < N_ATOMS && v[i] == w[i] :: u[i] == v[i]
  {
    seq(18, i requires 0 <= i < 18 => if v[i] == w[i] then v[i] else 0)
  }

  ghost predicate AgreeOn(ws: set<seq<nat>>, i: nat, n: nat) {
    i < N_ATOMS && forall w | w in ws :: |w| == N_ATOMS && w[i] == n
  }

  /** The number all of these tables have for an atom, if they agree on one, is v's. */
  ghost predicate Keeps(v: seq<nat>, ws: set<seq<nat>>) {
    |v| == N_ATOMS && forall i: nat, n: nat | AgreeOn(ws, i, n) :: v[i] == n
  }

  lemma MeetKeeps(v: seq<nat>, w: seq<nat>, ws: set<seq<nat>>)
    requires Keeps(v, ws) && w in ws && |w| == N_ATOMS
    ensures Keeps(Meet(v, w), ws)
  {
    forall i: nat, n: nat | AgreeOn(ws, i, n)
      ensures Meet(v, w)[i] == n
    {
      assert v[i] == n && w[i] == n;
    }
  }

  ghost function ValSet(es: seq<Edge>): set<seq<nat>>
    reads set e | e in es :: e.pred
  {
    set e | e in es :: e.pred.val
  }

  /** The start of opt_blk: what all predecessors agree on, and nothing without predecessors. */
  method MergeValues(b: Block, ghost es: seq<Triple>) returns (val: seq<nat>)
    requires forall e | e in b.inEdges :: InTable(es, e.pred.val)
    ensures |val| == N_ATOMS && InTable(es, val) && (b.inEdges == [] ==> val == Zeros())
    ensures forall e | e in b.inEdges :: Below(val, e.pred.val)
    ensures b.inEdges != [] ==> Keeps(val, ValSet(b.inEdges))
  {
    if b.inEdges == [] { return Zeros(); }
    assert b.inEdges[0] in b.inEdges && b.inEdges[0].pred.val in ValSet(b.inEdges);
    val := b.inEdges[0].pred.val;
    for i := 1 to |b.inEdges|
      invariant InTable(es, val)
      invariant forall k | 0 <= k < i :: Below(val, b.inEdges[k].pred.val)
      invariant Keeps(val, ValSet(b.inEdges))
    {
      assert b.inEdges[i] in b.inEdges && b.inEdges[i].pred.val in ValSet(b.inEdges);
      MeetKeeps(val, b.inEdges[i].pred.val, ValSet(b.inEdges));
      val := Meet(val, b.inEdges[i].pred.val);
    }
  }

  // ----- The sweep of opt_blks -----

  /** The value tables of a graph: what each block starts from, what it leaves, and what its branch compares with. */
  datatype Tables = Tables(vin: map<Block, seq<nat>>, vout: map<Block, seq<nat>>, oval: map<Block, nat>)

  ghost function ValsOf(blocks: set<Block>): (m: map<Block, seq<nat>>)
    reads blocks`val
    ensures m.Keys == blocks
  {
    map b | b in blocks :: b.val
  }

  ghost function OvalsOf(blocks: set<Block>): (m: map<Block, nat>)
    reads blocks`oval
    ensures m.Keys == blocks
  {
    map b | b in blocks :: b.oval
  }

  ghost function StmtsOf(blocks: set<Block>): (m: map<Block, seq<Stmt>>)
    reads blocks`stmts
    ensures m.Keys == blocks
  {
    map b | b in blocks :: b.stmts
  }

  /** The number of what the branch compares the accumulator with. */
  ghost predicate OvalRight(es: seq<Triple>, s: Branch, val: seq<nat>, oval: nat)
    requires |val| == N_ATOMS
  {
    if s.Jmp? && s.src.X? then oval == val[X_ATOM] else IsConst(es, oval) && es[oval - 1].v0 == s.k
  }

  /** The tables the predecessors of a block leave. */
  ghost function EnteringVals(g: Graph, reach: set<Block>, vout: map<Block, seq<nat>>, b: Block): set<seq<nat>>
    requires reach <= g.Keys
  {
    set p, s | p in reach && p in vout && s in {false, true} && g[p].s.Jmp? && g[p].Succ(s) == b :: vout[p]
  }

  /** A met block starts from what its predecessors, all met, agree on; the root starts from nothing. */
  ghost predicate Inherits(g: Graph, reach: set<Block>, met: set<Block>, root: Block, t: Tables, b: Block)
    requires met <= t.vin.Keys && met <= t.vout.Keys && b in met && reach <= g.Keys
  {
    && (b == root ==> t.vin[b] == Zeros()) && (b != root ==> Keeps(t.vin[b], EnteringVals(g, reach, t.vout, b)))
    && forall p, s | p in reach && g[p].s.Jmp? && g[p].Succ(s) == b :: p in met && Below(t.vin[b], t.vout[p])
  }

  /** The table v0 is what the predecessors of b, all met, agree on. */
  ghost predicate Entering(g: Graph, reach: set<Block>, met: set<Block>, root: Block, vout: map<Block, seq<nat>>, b: Block, v0: seq<nat>)
    requires met <= vout.Keys && reach <= g.Keys
  {
    && (b == root ==> v0 == Zeros()) && (b != root ==> Keeps(v0, EnteringVals(g, reach, vout, b)))
    && forall p, s | p in reach && g[p].s.Jmp? && g[p].Succ(s) == b :: p in met && Below(v0, vout[p])
  }

  /** The sweep has come to a block in which a statement is refused; the blocks before it have been numbered. */
  ghost predicate Halted(es: seq<Triple>, g: Graph, reach: set<Block>, root: Block, t: Tables, stmts: map<Block, seq<Stmt>>, alter: bool) {
    exists met, b | met <= reach && b in reach :: HaltedAt(es, g, reach, met, root, t, stmts, alter, b)
  }

  ghost predicate HaltedAt(es: seq<Triple>, g: Graph, reach: set<Block>, met: set<Block>, root: Block, t: Tables,
                           stmts: map<Block, seq<Stmt>>, alter: bool, b: Block)
  {
    && met <= reach <= g.Keys && met <= t.vout.Keys && b in reach && b !in met
    && exists es0, v0 :: HaltedBy(es, g, reach, met, root, t, stmts, alter, b, es0, v0)
  }

  ghost predicate HaltedBy(es: seq<Triple>, g: Graph, reach: set<Block>, met: set<Block>, root: Block, t: Tables,
                           stmts: map<Block, seq<Stmt>>, alter: bool, b: Block, es0: seq<Triple>, v0: seq<nat>)
    requires met <= reach <= g.Keys && met <= t.vout.Keys && b in reach
  {
    es0 <= es && Swept(es0, g, reach, met, root, t, stmts, alter) && Entering(g, reach, met, root, t.vout, b, v0) && RefusedIn(es, g[b].stmts, v0, alter)
  }

  ghost predicate Swept(es: seq<Triple>, g: Graph, reach: set<Block>, met: set<Block>, root: Block, t: Tables,
                        stmts: map<Block, seq<Stmt>>, alter: bool)
  {
    && met <= reach && reach <= g.Keys && g.Keys == t.vin.Keys == t.vout.Keys == t.oval.Keys == stmts.Keys
    && (forall b | b in met :: BlockDone(es, g[b].stmts, stmts[b], t.vin[b], t.vout[b], alter) && Inherits(g, reach, met, root, t, b))
    && (forall b | b in met :: |t.vout[b]| == N_ATOMS && OvalRight(es, g[b].s, t.vout[b], t.oval[b]))
    && forall b | b in g && b !in met :: stmts[b] == g[b].stmts
  }

  lemma BlockDoneExtends(es: seq<Triple>, es': seq<Triple>, ss: seq<Stmt>, tt: seq<Stmt>, v0: seq<nat>, v1: seq<nat>, alter: bool)
    requires es <= es' && BlockDone(es, ss, tt, v0, v1, alter)
    ensures BlockDone(es', ss, tt, v0, v1, alter)
  {
    if Informed(ss, v0) {
      NumberedExtends(es, es', ss, tt, v0, v1, ALL);
    }
    if Quiet(ss) && !alter {
      NumberedExtends(es, es', ss, tt, v0, v1, {});
    }
    assert IsConst(es', v1[A_ATOM]) <==> IsConst(es, v1[A_ATOM]);
    TracedExtends(es, es', ss, tt, v0, v1, alter);
  }

  /** One more block swept, after all its predecessors and before its successors. */
  lemma SweptMore(es: seq<Triple>, es': seq<Triple>, g: Graph, reach: set<Block>, met: set<Block>, root: Block, t: Tables,
                  stmts: map<Block, seq<Stmt>>, alter: bool, b: Block, v0: seq<nat>, v1: seq<nat>, oval: nat, tt: seq<Stmt>)
    requires es <= es' && Swept(es, g, reach, met, root, t, stmts, alter) && b in reach && b !in met
    requires BlockDone(es', g[b].stmts, tt, v0, v1, alter) && (b == root ==> v0 == Zeros())
    requires |v1| == N_ATOMS && OvalRight(es', g[b].s, v1, oval)
    requires forall p, s | p in reach && g[p].s.Jmp? && g[p].Succ(s) == b :: p in met && Below(v0, t.vout[p])
    requires b != root ==> Keeps(v0, EnteringVals(g, reach, t.vout, b))
    ensures Swept(es', g, reach, met + {b}, root, Tables(t.vin[b := v0], t.vout[b := v1], t.oval[b := oval]), stmts[b := tt], alter)
  {
    var t' := Tables(t.vin[b := v0], t.vout[b := v1], t.oval[b := oval]);
    hide BlockDone, Below, Inherits, Keeps, EnteringVals;
    forall x | x in met + {b}
      ensures BlockDone(es', g[x].stmts, stmts[b := tt][x], t'.vin[x], t'.vout[x], alter)
      ensures Inherits(g, reach, met + {b}, root, t', x)
      ensures |t'.vout[x]| == N_ATOMS && OvalRight(es', g[x].s, t'.vout[x], t'.oval[x])
    {
      if x != b {
        BlockDoneExtends(es, es', g[x].stmts, stmts[x], t.vin[x], t.vout[x], alter);
        InheritsMore(g, reach, met, root, t, b, v0, v1, oval, x);
      } else {
        InheritsNew(g, reach, met, root, t, b, v0, v1, oval);
      }
    }
  }

  lemma InheritsMore(g: Graph, reach: set<Block>, met: set<Block>, root: Block, t: Tables, b: Block, v0: seq<nat>, v1: seq<nat>, oval: nat, x: Block)
    requires met <= t.vin.Keys && met <= t.vout.Keys && x in met && reach <= g.Keys && b !in met
    requires Inherits(g, reach, met, root, t, x) && b in t.vout
    ensures Inherits(g, reach, met + {b}, root, Tables(t.vin[b := v0], t.vout[b := v1], t.oval[b := oval]), x)
  {
    hide Below, Keeps;
    assert EnteringVals(g, reach, t.vout[b := v1], x) == EnteringVals(g, reach, t.vout, x);
  }

  lemma InheritsNew(g: Graph, reach: set<Block>, met: set<Block>, root: Block, t: Tables, b: Block, v0: seq<nat>, v1: seq<nat>, oval: nat)
    requires met <= t.vin.Keys && met <= t.vout.Keys && reach <= g.Keys && b !in met && (b == root ==> v0 == Zeros())
    requires forall p, s | p in reach && g[p].s.Jmp? && g[p].Succ(s) == b :: p in met && Below(v0, t.vout[p])
    requires b in t.vout && (b != root ==> Keeps(v0, EnteringVals(g, reach, t.vout, b)))
    ensures Inherits(g, reach, met + {b}, root, Tables(t.vin[b := v0], t.vout[b := v1], t.oval[b := oval]), b)
  {
    hide Below, Keeps;
    assert EnteringVals(g, reach, t.vout[b := v1], b) == EnteringVals(g, reach, t.vout, b);
  }

  /** opt_blk without opt_peep and opt_deadstores. */
  method NumberBlock(b: Block, table: ValueTable, alter: bool, ghost blocks: set<Block>) returns (ok: bool, ghost v0: seq<nat>)
    requires table.Valid() && Tame(b.stmts) && b in blocks
    requires |table.entries| + 2 * |Live(b.stmts)| + 1 < table.vmap.Length
    requires forall e | e in b.inEdges :: InTable(table.entries, e.pred.val)
    modifies b`stmts, b`val, b`oval, table, table.hashtbl, table.vmap
    ensures table.Valid() && old(table.entries) <= table.entries
    ensures |table.entries| <= |old(table.entries)| + 2 * |Live(old(b.stmts))| + 1
    ensures ok ==> BlockDone(table.entries, old(b.stmts), b.stmts, v0, b.val, alter) && OvalRight(table.entries, b.s, b.val, b.oval)
    ensures |v0| == N_ATOMS && (b.inEdges == [] ==> v0 == Zeros()) && forall e | e in b.inEdges :: Below(v0, old(e.pred.val))
    ensures b.inEdges != [] ==> Keeps(v0, old(ValSet(b.inEdges)))
    ensures ok ==> StmtsOf(blocks) == old(StmtsOf(blocks))[b := b.stmts] && ValsOf(blocks) == old(ValsOf(blocks))[b := b.val]
    ensures ok ==> OvalsOf(blocks) == old(OvalsOf(blocks))[b := b.oval] && |b.val| == N_ATOMS
    ensures ok <==> !RefusedIn(table.entries, old(b.stmts), v0, alter)
    ensures !ok ==> StmtsOf(blocks) == old(StmtsOf(blocks)) && ValsOf(blocks) == old(ValsOf(blocks)) && OvalsOf(blocks) == old(OvalsOf(blocks))
  {
    hide BlockDone, Live, Below, InTable, StmtsOf, ValsOf, OvalsOf, OvalRight, Keeps, ValSet, RefusedIn, Tame, Zeros, ValueTable.Valid;
    var val := MergeValues(b, table.entries);
    v0 := val;
    assert forall e | e in b.inEdges :: Below(v0, old(e.pred.val));
    var stmts', oval;
    ok, stmts', val, oval := NumberContents(table, b.stmts, b.s, val, alter);
    if ok {
      Record(b, stmts', val, oval, blocks);
    }
  }

  /** The statements of a block, and then its branch. */
  method NumberContents(table: ValueTable, stmts: seq<Stmt>, s: Branch, v0: seq<nat>, alter: bool)
    returns (ok: bool, stmts': seq<Stmt>, val: seq<nat>, oval: nat)
    requires table.Valid() && InTable(table.entries, v0) && Tame(stmts)
    requires |table.entries| + 2 * |Live(stmts)| + 1 < table.vmap.Length
    modifies table, table.hashtbl, table.vmap
    ensures table.Valid() && old(table.entries) <= table.entries
    ensures |table.entries| <= |old(table.entries)| + 2 * |Live(stmts)| + 1
    ensures ok ==> BlockDone(table.entries, stmts, stmts', v0, val, alter) && |val| == N_ATOMS && OvalRight(table.entries, s, val, oval)
    ensures ok <==> !RefusedIn(table.entries, stmts, v0, alter)
  {
    hide BlockDone, Live, InTable, OvalRight, RefusedIn;
    oval := 0;
    ok, stmts', val := NumberStmts(table, stmts, v0, alter);
    if ok {
      ghost var es := table.entries;
      BlockDoneTable(es, stmts, stmts', v0, val, alter);
      oval := OvalOf(table, s, val);
      BlockDoneExtends(es, table.entries, stmts, stmts', v0, val, alter);
      DoneNotRefused(table, stmts, stmts', v0, val, alter);
    }
  }

  /** The number of what a branch compares with. */
  method OvalOf(table: ValueTable, s: Branch, val: seq<nat>) returns (oval: nat)
    requires table.Valid() && |val| == N_ATOMS && |table.entries| + 1 < table.vmap.Length
    modifies table, table.hashtbl, table.vmap
    ensures table.Valid() && old(table.entries) <= table.entries && |table.entries| <= |old(table.entries)| + 1
    ensures OvalRight(table.entries, s, val, oval)
  {
    if s.Ret? || s.src.K? {
      oval := table.K(s.k);
    } else {
      oval := val[X_ATOM];
    }
  }

  method Record(b: Block, stmts: seq<Stmt>, val: seq<nat>, oval: nat, ghost blocks: set<Block>)
    requires b in blocks
    modifies b`stmts, b`val, b`oval
    ensures b.stmts == stmts && b.val == val && b.oval == oval
    ensures StmtsOf(blocks) == old(StmtsOf(blocks))[b := stmts] && ValsOf(blocks) == old(ValsOf(blocks))[b := val]
    ensures OvalsOf(blocks) == old(OvalsOf(blocks))[b := oval]
  {
    b.stmts, b.val, b.oval := stmts, val, oval;
  }

  lemma BlockDoneTable(es: seq<Triple>, ss: seq<Stmt>, tt: seq<Stmt>, v0: seq<nat>, v1: seq<nat>, alter: bool)
    requires BlockDone(es, ss, tt, v0, v1, alter)
    ensures InTable(es, v0) && InTable(es, v1) && |v0| == N_ATOMS && |v1| == N_ATOMS && |tt| == |ss|
  {
  }

  // ----- Room in the tables -----

  const NO_LONGS := Layout.Longs({}, {})

  /** Counting fewer blocks counts no more. */
  lemma {:induction false} TotalAtMost(g: Graph, s: seq<Block>, t: seq<Block>)
    requires Distinct(s) && Distinct(t) && Elements(s) <= Elements(t)
    requires forall x | x in Elements(t) :: x in g
    ensures (forall x | x in s :: x in g) && forall x | x in t :: x in g
    ensures Layout.Total(g, NO_LONGS, s) <= Layout.Total(g, NO_LONGS, t)
  {
    assert forall x :: x in s <==> x in Elements(s);
    assert forall x :: x in t <==> x in Elements(t);
    if s != [] {
      var b, front := s[|s| - 1], s[..|s| - 1];
      Layout.ElementsFront(s);
      Layout.RemoveTotal(g, NO_LONGS, t, b);
      TotalAtMost(g, front, Layout.Remove(t, b));
    }
  }

  /** The allocation of opt_init: at least three numbers for every statement and every branch there are now. */
  ghost predicate Allocated(g: Graph, all: seq<Block>, maxval: nat) {
    && Distinct(all) && Elements(all) == g.Keys && (forall x | x in all :: x in g)
    && maxval >= 3 * Layout.Total(g, NO_LONGS, all)
  }

  /** The numbers used for the blocks of an order. */
  ghost predicate Within(g: Graph, done: seq<Block>, met: set<Block>, used: nat) {
    && Distinct(done) && Elements(done) == met && (forall x | x in done :: x in g)
    && used <= 2 * Layout.Total(g, NO_LONGS, done)
  }

  /** There is always room for the next block. */
  lemma RoomForNext(g: Graph, all: seq<Block>, maxval: nat, done: seq<Block>, met: set<Block>, used: nat, b: Block)
    requires Allocated(g, all, maxval) && Within(g, done, met, used) && b in g && b !in met
    ensures used + 2 * |Live(g[b].stmts)| + 1 < maxval
    ensures Within(g, done + [b], met + {b}, used + 2 * |Live(g[b].stmts)| + 1)
  {
    hide Live;
    var next := done + [b];
    assert next[..|done|] == done && b !in Elements(done);
    Layout.ElementsFront(next);
    assert Layout.Total(g, NO_LONGS, next) == Layout.Total(g, NO_LONGS, done) + |Live(g[b].stmts)| + 1;
    assert Elements(next) <= Elements(all) by {
      assert forall x | x in next :: x in g;
    }
    TotalAtMost(g, next, all);
  }

  // ----- opt_blks' top-down sweep -----

  /** What the sweep keeps between blocks. */
  ghost predicate Sweeping(es: seq<Triple>, g: Graph, reach: set<Block>, met: set<Block>, root: Block, t: Tables,
                           stmts: map<Block, seq<Stmt>>, alter: bool, all: seq<Block>, maxval: nat, done: seq<Block>)
  {
    && Swept(es, g, reach, met, root, t, stmts, alter)
    && Allocated(g, all, maxval) && Within(g, done, met, |es|) && GoodScratch(g)
  }

  /** What the next block of the sweep needs. */
  lemma SweepReady(es: seq<Triple>, g: Graph, rank: map<Block, nat>, met: set<Block>, root: Block, t: Tables,
                   stmts: map<Block, seq<Stmt>>, alter: bool, all: seq<Block>, maxval: nat, done: seq<Block>, b: Block, edges: seq<Edge>)
    requires Dag(g, rank) && root in g
    requires Sweeping(es, g, Reach(g, rank, root), met, root, t, stmts, alter, all, maxval, done)
    requires b in Reach(g, rank, root) && b !in met && IntoExactly(g, Reach(g, rank, root), b, edges)
    requires forall p, s | p in Reach(g, rank, root) && g[p].Succ(s) == b :: p in met
    ensures stmts[b] == g[b].stmts && Tame(g[b].stmts) && |es| + 2 * |Live(g[b].stmts)| + 1 < maxval
    ensures Within(g, done + [b], met + {b}, |es| + 2 * |Live(g[b].stmts)| + 1)
    ensures forall e | e in edges :: e.pred in met && e.pred in t.vout && InTable(es, t.vout[e.pred])
    ensures b == root ==> edges == []
  {
    hide Live, Allocated, Within, Dag, Reach, IntoExactly, BlockDone, Inherits, OvalRight, InTable;
    RoomForNext(g, all, maxval, done, met, |es|, b);
    hide Tame;
    EdgesHaveTables(es, g, Reach(g, rank, root), met, root, t, stmts, alter, b, edges);
    hide Swept;
    if b == root {
      NoPredecessor(g, rank, root, edges);
    }
  }

  lemma EdgesHaveTables(es: seq<Triple>, g: Graph, reach: set<Block>, met: set<Block>, root: Block, t: Tables,
                        stmts: map<Block, seq<Stmt>>, alter: bool, b: Block, edges: seq<Edge>)
    requires Swept(es, g, reach, met, root, t, stmts, alter) && IntoExactly(g, reach, b, edges)
    requires forall p, s | p in reach && g[p].Succ(s) == b :: p in met
    ensures forall e | e in edges :: e.pred in met && e.pred in t.vout && InTable(es, t.vout[e.pred])
  {
    hide Inherits, OvalRight, InTable;
    forall e | e in edges
      ensures e.pred in met && e.pred in t.vout && InTable(es, t.vout[e.pred])
    {
      assert BlockDone(es, g[e.pred].stmts, stmts[e.pred], t.vin[e.pred], t.vout[e.pred], alter);
    }
  }

  lemma NoPredecessor(g: Graph, rank: map<Block, nat>, root: Block, edges: seq<Edge>)
    requires Dag(g, rank) && root in g && IntoExactly(g, Reach(g, rank, root), root, edges)
    ensures edges == []
  {
    FirstIn(edges);
    RootHasNone(g, rank, root);
  }

  lemma FirstIn(edges: seq<Edge>)
    ensures edges == [] || edges[0] in edges
  {
  }

  lemma RootHasNone(g: Graph, rank: map<Block, nat>, root: Block)
    requires Dag(g, rank) && root in g
    ensures forall p, s | p in Reach(g, rank, root) && g[p].s.Jmp? :: g[p].Succ(s) != root
  {
    ReachRanks(g, rank, root);
    forall p, s | p in Reach(g, rank, root) && g[p].s.Jmp?
      ensures g[p].Succ(s) != root
    {
      assert g[p].Succ(s) == if s then g[p].jt else g[p].jf;
    }
  }

  lemma WithinLess(g: Graph, done: seq<Block>, met: set<Block>, used: nat, used': nat)
    requires Within(g, done, met, used') && used <= used'
    ensures Within(g, done, met, used)
  {
  }

  /** The graph but for its statements. */
  ghost predicate SameShape(g: Graph)
    reads g.Keys`s, g.Keys`jt, g.Keys`jf
  {
    forall b | b in g :: b.s == g[b].s && b.jt == g[b].jt && b.jf == g[b].jf
  }

  /** The heap during the sweep. */
  ghost predicate InSweep(table: ValueTable, g: Graph, rank: map<Block, nat>, root: Block, met: set<Block>,
                          vin: map<Block, seq<nat>>, alter: bool, all: seq<Block>, done: seq<Block>)
    requires Dag(g, rank) && root in g
    reads table, table.hashtbl, table.vmap
    reads g.Keys`s, g.Keys`jt, g.Keys`jf, g.Keys`inEdges, g.Keys`val, g.Keys`oval, g.Keys`stmts
  {
    && table.Valid() && SameShape(g) && Sized(g.Keys) && InedgesOf(g, Reach(g, rank, root), InsOf(g.Keys))
    && Sweeping(table.entries, g, Reach(g, rank, root), met, root, Tables(vin, ValsOf(g.Keys), OvalsOf(g.Keys)),
                StmtsOf(g.Keys), alter, all, table.vmap.Length, done)
  }

  /** A sweep that has come to block b, with these edges into it. */
  ghost predicate Awaits(es: seq<Triple>, g: Graph, rank: map<Block, nat>, root: Block, met: set<Block>, t: Tables, stmts: map<Block, seq<Stmt>>,
                         alter: bool, all: seq<Block>, maxval: nat, done: seq<Block>, b: Block, edges: seq<Edge>)
    requires Dag(g, rank) && root in g && b in g
  {
    && b in Reach(g, rank, root) && b !in met && Sweeping(es, g, Reach(g, rank, root), met, root, t, stmts, alter, all, maxval, done)
    && (forall p, s | p in Reach(g, rank, root) && g[p].Succ(s) == b :: p in met)
    && IntoExactly(g, Reach(g, rank, root), b, edges) && (b == root ==> edges == [])
    && Within(g, done + [b], met + {b}, |es| + 2 * |Live(g[b].stmts)| + 1)
    && t.vout.Keys == g.Keys && forall x | x in g :: |t.vout[x]| == N_ATOMS
  }

  /** What the next block of the sweep finds in the heap. */
  lemma BlockReady(b: Block, table: ValueTable, alter: bool, g: Graph, rank: map<Block, nat>, root: Block,
                   met: set<Block>, vin: map<Block, seq<nat>>, all: seq<Block>, done: seq<Block>)
    requires Dag(g, rank) && root in g && InSweep(table, g, rank, root, met, vin, alter, all, done)
    requires b in Reach(g, rank, root) && b !in met
    requires forall p, s | p in Reach(g, rank, root) && g[p].Succ(s) == b :: p in met
    ensures table.Valid() && b in g && b.s == g[b].s && b.stmts == g[b].stmts && Tame(b.stmts)
    ensures |table.entries| + 2 * |Live(b.stmts)| + 1 < table.vmap.Length
    ensures SameShape(g) && InedgesOf(g, Reach(g, rank, root), InsOf(g.Keys))
    ensures Awaits(table.entries, g, rank, root, met, Tables(vin, ValsOf(g.Keys), OvalsOf(g.Keys)), StmtsOf(g.Keys), alter, all,
                   table.vmap.Length, done, b, b.inEdges)
    ensures forall e | e in b.inEdges :: e.pred in g && ValsOf(g.Keys)[e.pred] == e.pred.val && InTable(table.entries, e.pred.val)
    ensures ValSet(b.inEdges) == set e | e in b.inEdges :: ValsOf(g.Keys)[e.pred]
  {
    hide Dag, Reach, Sweeping, SameShape, InedgesOf, InsOf, Live, StmtsOf, ValsOf, OvalsOf, InTable, IntoExactly, Within, Tame;
    InSweepParts(table, g, rank, root, met, vin, alter, all, done);
    EdgesInto(g, rank, root, b);
    SweepReady(table.entries, g, rank, met, root, Tables(vin, ValsOf(g.Keys), OvalsOf(g.Keys)), StmtsOf(g.Keys), alter, all,
               table.vmap.Length, done, b, b.inEdges);
    ShapeAt(g, b);
    MapsAt(g.Keys, b);
    ValsAt(g.Keys, b.inEdges);
  }

  /** The heap after the next block. */
  lemma BlockSwept(b: Block, table: ValueTable, alter: bool, g: Graph, rank: map<Block, nat>, root: Block, met: set<Block>,
                   es: seq<Triple>, t: Tables, stmts: map<Block, seq<Stmt>>, all: seq<Block>, done: seq<Block>,
                   ws: set<seq<nat>>, v0: seq<nat>)
    requires Dag(g, rank) && root in g && b in g && es <= table.entries && table.Valid() && SameShape(g)
    requires InedgesOf(g, Reach(g, rank, root), InsOf(g.Keys))
    requires Awaits(es, g, rank, root, met, t, stmts, alter, all, table.vmap.Length, done, b, b.inEdges)
    requires |table.entries| <= |es| + 2 * |Live(g[b].stmts)| + 1
    requires BlockDone(table.entries, g[b].stmts, b.stmts, v0, b.val, alter) && |b.val| == N_ATOMS && OvalRight(table.entries, g[b].s, b.val, b.oval)
    requires b.inEdges == [] ==> v0 == Zeros()
    requires forall e | e in b.inEdges :: e.pred in t.vout && Below(v0, t.vout[e.pred])
    requires ws == (set e | e in b.inEdges :: t.vout[e.pred]) && (b.inEdges != [] ==> Keeps(v0, ws))
    requires StmtsOf(g.Keys) == stmts[b := b.stmts] && ValsOf(g.Keys) == t.vout[b := b.val] && OvalsOf(g.Keys) == t.oval[b := b.oval]
    ensures InSweep(table, g, rank, root, met + {b}, t.vin[b := v0], alter, all, done + [b])
  {
    hide Dag, Reach, Sweeping, SameShape, InedgesOf, InsOf, BlockDone, Live, Below, StmtsOf, ValsOf, OvalsOf, OvalRight, Keeps;
    hide IntoExactly, Within, InSweep, Sized, ValueTable.Valid, Zeros;
    SweepNext(es, table.entries, g, rank, root, met, t, stmts, alter, all, table.vmap.Length, done, b, b.inEdges, ws, v0, b.val, b.oval, b.stmts);
    SizedMore(g.Keys, t.vout, b);
    InSweepFrom(table, g, rank, root, met + {b}, t.vin[b := v0], alter, all, done + [b]);
  }

  /** The next block of the sweep. */
  method SweepBlock(b: Block, table: ValueTable, alter: bool, ghost g: Graph, ghost rank: map<Block, nat>, ghost root: Block,
                    ghost met: set<Block>, ghost vin: map<Block, seq<nat>>, ghost all: seq<Block>, ghost done: seq<Block>)
    returns (ok: bool, ghost v0: seq<nat>)
    requires Dag(g, rank) && root in g && InSweep(table, g, rank, root, met, vin, alter, all, done)
    requires b in Reach(g, rank, root) && b !in met
    requires forall p, s | p in Reach(g, rank, root) && g[p].Succ(s) == b :: p in met
    modifies b`stmts, b`val, b`oval, table, table.hashtbl, table.vmap
    ensures ok ==> InSweep(table, g, rank, root, met + {b}, vin[b := v0], alter, all, done + [b])
    ensures !ok ==> Halted(table.entries, g, Reach(g, rank, root), root, Tables(vin, ValsOf(g.Keys), OvalsOf(g.Keys)), StmtsOf(g.Keys), alter)
  {
    hide *;
    ghost var es, t, stmts := table.entries, Tables(vin, ValsOf(g.Keys), OvalsOf(g.Keys)), StmtsOf(g.Keys);
    ghost var ws := ValSet(b.inEdges);
    BlockReady(b, table, alter, g, rank, root, met, vin, all, done);
    ok, v0 := NumberBlock(b, table, alter, g.Keys);
    if ok {
      BlockSwept(b, table, alter, g, rank, root, met, es, t, stmts, all, done, ws, v0);
    } else {
      assert Tables(vin, ValsOf(g.Keys), OvalsOf(g.Keys)) == t && StmtsOf(g.Keys) == stmts;
      HaltsHere(es, table.entries, g, rank, root, met, t, stmts, alter, all, table.vmap.Length, done, b, b.inEdges, ws, v0);
    }
  }

  /** The in-edges of a block are where the tables it merges come from. */
  lemma EnteringKeeps(g: Graph, rank: map<Block, nat>, root: Block, vout: map<Block, seq<nat>>, b: Block,
                      ws: set<seq<nat>>, edges: seq<Edge>, v0: seq<nat>)
    requires Dag(g, rank) && root in g && IntoExactly(g, Reach(g, rank, root), b, edges) && b in Reach(g, rank, root)
    requires forall e | e in edges :: e.pred in vout
    requires ws == set e | e in edges :: vout[e.pred]
    requires edges != [] ==> Keeps(v0, ws)
    ensures b != root ==> Keeps(v0, EnteringVals(g, Reach(g, rank, root), vout, b))
  {
    var reach := Reach(g, rank, root);
    if b != root {
      ReachRanks(g, rank, root);
      var p, s := PredecessorOf(g, rank, root, b);
      assert Edge(p, s) in edges;
      assert EnteringVals(g, reach, vout, b) == ws by {
        forall v | v in ws
          ensures v in EnteringVals(g, reach, vout, b)
        {
          var e :| e in edges && v == vout[e.pred];
          assert e.sense in {false, true};
        }
        forall v | v in EnteringVals(g, reach, vout, b)
          ensures v in ws
        {
          var p', s' :| p' in reach && p' in vout && g[p'].s.Jmp? && g[p'].Succ(s') == b && v == vout[p'];
          assert Edge(p', s') in edges;
        }
      }
    }
  }

  lemma HaltsHere(es: seq<Triple>, es': seq<Triple>, g: Graph, rank: map<Block, nat>, root: Block, met: set<Block>, t: Tables,
                  stmts: map<Block, seq<Stmt>>, alter: bool, all: seq<Block>, maxval: nat, done: seq<Block>, b: Block, edges: seq<Edge>,
                  ws: set<seq<nat>>, v0: seq<nat>)
    requires Dag(g, rank) && root in g && b in g && es <= es' && Awaits(es, g, rank, root, met, t, stmts, alter, all, maxval, done, b, edges)
    requires edges == [] ==> v0 == Zeros()
    requires forall e | e in edges :: e.pred in t.vout && Below(v0, t.vout[e.pred])
    requires ws == (set e | e in edges :: t.vout[e.pred]) && (edges != [] ==> Keeps(v0, ws))
    requires RefusedIn(es', g[b].stmts, v0, alter)
    ensures Halted(es', g, Reach(g, rank, root), root, t, stmts, alter)
  {
    var reach := Reach(g, rank, root);
    hide Dag, Reach, Below, Keeps, EnteringVals, Within, GoodScratch, Zeros, Swept, RefusedIn, Allocated;
    EnteringKeeps(g, rank, root, t.vout, b, ws, edges, v0);
    BelowAll(es, g, rank, root, met, t, stmts, alter, b, edges, v0);
    assert HaltedBy(es', g, reach, met, root, t, stmts, alter, b, es, v0);
    assert HaltedAt(es', g, reach, met, root, t, stmts, alter, b);
  }

  lemma BelowAll(es: seq<Triple>, g: Graph, rank: map<Block, nat>, root: Block, met: set<Block>, t: Tables,
                 stmts: map<Block, seq<Stmt>>, alter: bool, b: Block, edges: seq<Edge>, v0: seq<nat>)
    requires Dag(g, rank) && root in g && Swept(es, g, Reach(g, rank, root), met, root, t, stmts, alter)
    requires IntoExactly(g, Reach(g, rank, root), b, edges) && forall p, s | p in Reach(g, rank, root) && g[p].Succ(s) == b :: p in met
    requires forall e | e in edges :: e.pred in t.vout && Below(v0, t.vout[e.pred])
    ensures met <= t.vout.Keys && met <= Reach(g, rank, root) <= g.Keys
    ensures forall p, s | p in Reach(g, rank, root) && g[p].s.Jmp? && g[p].Succ(s) == b :: p in met && Below(v0, t.vout[p])
  {
    hide Dag, Reach, Below, BlockDone, Inherits;
    forall p, s | p in Reach(g, rank, root) && g[p].s.Jmp? && g[p].Succ(s) == b
      ensures p in met && Below(v0, t.vout[p])
    {
      assert Edge(p, s) in edges;
    }
  }

  /** What the predecessors agree on is one table. */
  lemma EnteringUnique(g: Graph, rank: map<Block, nat>, root: Block, met: set<Block>, met': set<Block>, vout: map<Block, seq<nat>>, b: Block, v: seq<nat>, v': seq<nat>)
    requires Dag(g, rank) && root in g && b in Reach(g, rank, root) && met <= vout.Keys && met' <= vout.Keys
    requires Entering(g, Reach(g, rank, root), met, root, vout, b, v) && Entering(g, Reach(g, rank, root), met', root, vout, b, v')
    ensures v == v'
  {
    if b != root {
      var p, s := PredecessorOf(g, rank, root, b);
      hide Dag, Reach;
      KeepsUnique(v, v', EnteringVals(g, Reach(g, rank, root), vout, b), vout[p]);
    }
  }

  lemma KeepsUnique(v: seq<nat>, v': seq<nat>, ws: set<seq<nat>>, w: seq<nat>)
    requires Keeps(v, ws) && Keeps(v', ws) && w in ws && (forall x | x in ws :: Below(v, x) && Below(v', x))
    ensures v == v'
  {
    forall i: nat | i < N_ATOMS
      ensures v[i] == v'[i]
    {
      if v[i] != 0 {
        assert AgreeOn(ws, i, v[i]);
      } else if v'[i] != 0 {
        assert AgreeOn(ws, i, v'[i]);
      }
    }
  }

  lemma SweptNotHalted(es: seq<Triple>, g: Graph, rank: map<Block, nat>, root: Block, t: Tables, stmts: map<Block, seq<Stmt>>, alter: bool)
    requires Dag(g, rank) && root in g && DistinctEntries(es)
    requires Swept(es, g, Reach(g, rank, root), Reach(g, rank, root), root, t, stmts, alter)
    ensures !Halted(es, g, Reach(g, rank, root), root, t, stmts, alter)
  {
    var reach := Reach(g, rank, root);
    hide Dag, Reach, RefusedIn, Traced, Entering, EnteringVals, Numbered, Settled, KnownAfter;
    if met, b :| met <= reach && b in reach && HaltedAt(es, g, reach, met, root, t, stmts, alter, b) {
      var es0, v0 :| HaltedBy(es, g, reach, met, root, t, stmts, alter, b, es0, v0);
      InheritsEnters(g, reach, root, t, b);
      EnteringUnique(g, rank, root, met, reach, t.vout, b, v0, t.vin[b]);
      TracedNotRefused(es, g[b].stmts, stmts[b], t.vin[b], t.vout[b], alter);
    }
  }

  lemma InheritsEnters(g: Graph, reach: set<Block>, root: Block, t: Tables, b: Block)
    requires reach <= t.vin.Keys && reach <= t.vout.Keys && b in reach && reach <= g.Keys && Inherits(g, reach, reach, root, t, b)
    ensures Entering(g, reach, reach, root, t.vout, b, t.vin[b])
  {
  }

  lemma InSweepParts(table: ValueTable, g: Graph, rank: map<Block, nat>, root: Block, met: set<Block>,
                     vin: map<Block, seq<nat>>, alter: bool, all: seq<Block>, done: seq<Block>)
    requires Dag(g, rank) && root in g && InSweep(table, g, rank, root, met, vin, alter, all, done)
    ensures table.Valid() && SameShape(g) && Sized(g.Keys) && InedgesOf(g, Reach(g, rank, root), InsOf(g.Keys))
    ensures forall x | x in g :: |ValsOf(g.Keys)[x]| == N_ATOMS
    ensures Sweeping(table.entries, g, Reach(g, rank, root), met, root, Tables(vin, ValsOf(g.Keys), OvalsOf(g.Keys)),
                     StmtsOf(g.Keys), alter, all, table.vmap.Length, done)
  {
    hide Sweeping, InedgesOf, SameShape, Reach;
  }

  lemma InSweepFrom(table: ValueTable, g: Graph, rank: map<Block, nat>, root: Block, met: set<Block>,
                    vin: map<Block, seq<nat>>, alter: bool, all: seq<Block>, done: seq<Block>)
    requires Dag(g, rank) && root in g
    requires table.Valid() && SameShape(g) && Sized(g.Keys) && InedgesOf(g, Reach(g, rank, root), InsOf(g.Keys))
    requires Sweeping(table.entries, g, Reach(g, rank, root), met, root, Tables(vin, ValsOf(g.Keys), OvalsOf(g.Keys)),
                      StmtsOf(g.Keys), alter, all, table.vmap.Length, done)
    ensures InSweep(table, g, rank, root, met, vin, alter, all, done)
  {
    hide Sweeping, InedgesOf, SameShape, Reach;
  }

  lemma SizedMore(blocks: set<Block>, vals: map<Block, seq<nat>>, b: Block)
    requires b in blocks && ValsOf(blocks) == vals[b := b.val] && |b.val| == N_ATOMS
    requires vals.Keys == blocks && forall x | x in blocks :: |vals[x]| == N_ATOMS
    ensures Sized(blocks)
  {
    forall x | x in blocks
      ensures |x.val| == N_ATOMS
    {
      assert ValsOf(blocks)[x] == x.val;
    }
  }

  lemma EdgesInto(g: Graph, rank: map<Block, nat>, root: Block, b: Block)
    requires Dag(g, rank) && root in g && b in Reach(g, rank, root) && InedgesOf(g, Reach(g, rank, root), InsOf(g.Keys))
    ensures b in g && IntoExactly(g, Reach(g, rank, root), b, b.inEdges)
    ensures forall e | e in b.inEdges :: e.pred in g
  {
    assert InsOf(g.Keys)[b] == b.inEdges;
  }

  lemma ShapeAt(g: Graph, b: Block)
    requires SameShape(g) && b in g
    ensures b.s == g[b].s
  {
  }

  lemma MapsAt(blocks: set<Block>, b: Block)
    requires b in blocks
    ensures StmtsOf(blocks)[b] == b.stmts && ValsOf(blocks)[b] == b.val
  {
  }

  lemma ValsAt(blocks: set<Block>, edges: seq<Edge>)
    requires forall e | e in edges :: e.pred in blocks
    ensures forall e | e in edges :: ValsOf(blocks)[e.pred] == e.pred.val
  {
  }

  lemma PredecessorsBelow(g: Graph, reach: set<Block>, met: set<Block>, t: Tables, b: Block, edges: seq<Edge>, v0: seq<nat>)
    requires reach <= g.Keys && IntoExactly(g, reach, b, edges)
    requires forall p, s | p in reach && g[p].Succ(s) == b :: p in met
    requires forall e | e in edges :: e.pred in t.vout && Below(v0, t.vout[e.pred])
    ensures forall p, s | p in reach && g[p].s.Jmp? && g[p].Succ(s) == b :: p in met && p in t.vout && Below(v0, t.vout[p])
  {
    hide Below;
    forall p, s | p in reach && g[p].s.Jmp? && g[p].Succ(s) == b
      ensures p in met && p in t.vout && Below(v0, t.vout[p])
    {
      assert Edge(p, s) in edges;
    }
  }

  lemma SweptNext(es: seq<Triple>, es': seq<Triple>, g: Graph, rank: map<Block, nat>, root: Block, met: set<Block>, t: Tables,
                  stmts: map<Block, seq<Stmt>>, alter: bool, b: Block, edges: seq<Edge>,
                  ws: set<seq<nat>>, v0: seq<nat>, v1: seq<nat>, oval: nat, tt: seq<Stmt>)
    requires Dag(g, rank) && root in g && es <= es' && b in Reach(g, rank, root) && b !in met
    requires Swept(es, g, Reach(g, rank, root), met, root, t, stmts, alter) && IntoExactly(g, Reach(g, rank, root), b, edges)
    requires forall p, s | p in Reach(g, rank, root) && g[p].Succ(s) == b :: p in met
    requires BlockDone(es', g[b].stmts, tt, v0, v1, alter) && |v1| == N_ATOMS && OvalRight(es', g[b].s, v1, oval)
    requires b == root ==> v0 == Zeros()
    requires forall e | e in edges :: e.pred in t.vout && Below(v0, t.vout[e.pred])
    requires ws == (set e | e in edges :: t.vout[e.pred]) && (edges != [] ==> Keeps(v0, ws))
    ensures Swept(es', g, Reach(g, rank, root), met + {b}, root,
                  Tables(t.vin[b := v0], t.vout[b := v1], t.oval[b := oval]), stmts[b := tt], alter)
  {
    var reach := Reach(g, rank, root);
    hide Dag, Reach, BlockDone, Live, Below, OvalRight, Keeps, EnteringVals, IntoExactly, Zeros;
    assert reach <= g.Keys;
    hide Swept;
    PredecessorsBelow(g, reach, met, t, b, edges, v0);
    EnteringKeeps(g, rank, root, t.vout, b, ws, edges, v0);
    SweptMore(es, es', g, reach, met, root, t, stmts, alter, b, v0, v1, oval, tt);
  }

  lemma SweepNext(es: seq<Triple>, es': seq<Triple>, g: Graph, rank: map<Block, nat>, root: Block, met: set<Block>, t: Tables,
                  stmts: map<Block, seq<Stmt>>, alter: bool, all: seq<Block>, maxval: nat, done: seq<Block>, b: Block, edges: seq<Edge>,
                  ws: set<seq<nat>>, v0: seq<nat>, v1: seq<nat>, oval: nat, tt: seq<Stmt>)
    requires Dag(g, rank) && root in g && es <= es' && b in Reach(g, rank, root) && b !in met
    requires Sweeping(es, g, Reach(g, rank, root), met, root, t, stmts, alter, all, maxval, done)
    requires IntoExactly(g, Reach(g, rank, root), b, edges)
    requires forall p, s | p in Reach(g, rank, root) && g[p].Succ(s) == b :: p in met
    requires |es'| <= |es| + 2 * |Live(g[b].stmts)| + 1
    requires Within(g, done + [b], met + {b}, |es| + 2 * |Live(g[b].stmts)| + 1)
    requires BlockDone(es', g[b].stmts, tt, v0, v1, alter) && |v1| == N_ATOMS && OvalRight(es', g[b].s, v1, oval)
    requires b == root ==> edges == []
    requires edges == [] ==> v0 == Zeros()
    requires forall e | e in edges :: e.pred in t.vout && Below(v0, t.vout[e.pred])
    requires ws == (set e | e in edges :: t.vout[e.pred]) && (edges != [] ==> Keeps(v0, ws))
    ensures Sweeping(es', g, Reach(g, rank, root), met + {b}, root,
                     Tables(t.vin[b := v0], t.vout[b := v1], t.oval[b := oval]), stmts[b := tt], alter, all, maxval, done + [b])
  {
    hide Dag, Reach, BlockDone, Live, Below, OvalRight, Allocated, Keeps, EnteringVals, IntoExactly, Within, GoodScratch, Zeros, Swept;
    WithinLess(g, done + [b], met + {b}, |es'|, |es| + 2 * |Live(g[b].stmts)| + 1);
    SweptNext(es, es', g, rank, root, met, t, stmts, alter, b, edges, ws, v0, v1, oval, tt);
  }

  /** The inner loop of the sweep. */
  method SweepLevel(levels: array<seq<Block>>, i: nat, table: ValueTable, alter: bool, ghost g: Graph, ghost rank: map<Block, nat>,
                    ghost root: Block, ghost vin: map<Block, seq<nat>>, ghost all: seq<Block>, ghost done: seq<Block>)
    returns (ok: bool, ghost vin': map<Block, seq<nat>>, ghost done': seq<Block>)
    requires Dag(g, rank) && root in g && Levelled(g, rank, root, levels[..]) && i < levels.Length
    requires InSweep(table, g, rank, root, Met(g, rank, root, levels[..], i, 0), vin, alter, all, done)
    modifies g.Keys`stmts, g.Keys`val, g.Keys`oval, table, table.hashtbl, table.vmap
    ensures ok ==> InSweep(table, g, rank, root, Met(g, rank, root, levels[..], i - 1, 0), vin', alter, all, done')
    ensures !ok ==> Halted(table.entries, g, Reach(g, rank, root), root, Tables(vin', ValsOf(g.Keys), OvalsOf(g.Keys)), StmtsOf(g.Keys), alter)
  {
    hide Dag, Reach, Levelled, Met, Height, InSweep;
    ghost var lv := levels[..];
    ok, vin', done' := true, vin, done;
    var k := 0;
    while k < |levels[i]|
      invariant 0 <= k <= |levels[i]| && levels[..] == lv
      invariant InSweep(table, g, rank, root, Met(g, rank, root, lv, i, k), vin', alter, all, done')
    {
      var b := levels[i][k];
      NextDown(g, rank, root, lv, i, k);
      ghost var v0;
      ok, v0 := SweepBlock(b, table, alter, g, rank, root, Met(g, rank, root, lv, i, k), vin', all, done');
      if !ok { return; }
      vin', done' := vin'[b := v0], done' + [b];
      k := k + 1;
    }
    MetSteps(g, rank, root, lv, i);
  }

  /**
   * The top-down sweep of opt_blks with opt_stmt alone, after init_val: number every block that can
   * be reached, and with alter rewrite its statements. Not ok when it met a division by a constant zero.
   */
  method NumberBlocks(root: Block, levels: array<seq<Block>>, table: ValueTable, alter: bool,
                      ghost g: Graph, ghost rank: map<Block, nat>, ghost all: seq<Block>)
    returns (ok: bool, ghost t: Tables)
    requires g == Snap(g.Keys) && Dag(g, rank) && root in g && Levelled(g, rank, root, levels[..])
    requires root.level == Height(g, rank, root) && InedgesOf(g, Reach(g, rank, root), InsOf(g.Keys)) && GoodScratch(g)
    requires table.Valid() && table.entries == [] && Allocated(g, all, table.vmap.Length) && Sized(g.Keys)
    modifies g.Keys`stmts, g.Keys`val, g.Keys`oval, table, table.hashtbl, table.vmap
    ensures ok ==>
      && table.Valid() && SameShape(g) && Sized(g.Keys) && t.vout == ValsOf(g.Keys) && t.oval == OvalsOf(g.Keys)
      && Swept(table.entries, g, Reach(g, rank, root), Reach(g, rank, root), root, t, StmtsOf(g.Keys), alter)
      && table.curval == |table.entries| <= 2 * Layout.Total(g, NO_LONGS, all) < table.vmap.Length
    ensures t.vout == ValsOf(g.Keys) && t.oval == OvalsOf(g.Keys)
    ensures ok <==> !Halted(table.entries, g, Reach(g, rank, root), root, t, StmtsOf(g.Keys), alter)
  {
    ghost var vin: map<Block, seq<nat>> := map b | b in g :: Zeros();
    ghost var done;
    InSweepStarts(table, g, rank, root, vin, alter, all);
    hide Dag, Reach, Levelled, Height, InSweep, Snap, InedgesOf, GoodScratch, Allocated, SameShape, Swept;
    ok, vin, done := SweepDown(root, levels, table, alter, g, rank, vin, all);
    t := Tables(vin, ValsOf(g.Keys), OvalsOf(g.Keys));
    if ok {
      InSweepEnds(table, g, rank, root, vin, alter, all, done);
      SweptNotHalted(table.entries, g, rank, root, t, StmtsOf(g.Keys), alter);
    }
  }

  /** The outer loop of the sweep. */
  method SweepDown(root: Block, levels: array<seq<Block>>, table: ValueTable, alter: bool,
                   ghost g: Graph, ghost rank: map<Block, nat>, ghost vin: map<Block, seq<nat>>, ghost all: seq<Block>)
    returns (ok: bool, ghost vin': map<Block, seq<nat>>, ghost done: seq<Block>)
    requires Dag(g, rank) && root in g && Levelled(g, rank, root, levels[..]) && root.level == Height(g, rank, root)
    requires InSweep(table, g, rank, root, {}, vin, alter, all, [])
    modifies g.Keys`stmts, g.Keys`val, g.Keys`oval, table, table.hashtbl, table.vmap
    ensures ok ==> InSweep(table, g, rank, root, Reach(g, rank, root), vin', alter, all, done)
    ensures !ok ==> Halted(table.entries, g, Reach(g, rank, root), root, Tables(vin', ValsOf(g.Keys), OvalsOf(g.Keys)), StmtsOf(g.Keys), alter)
  {
    hide Dag, Reach, Levelled, Met, Height, InSweep;
    ok, vin', done := true, vin, [];
    ghost var lv := levels[..];
    RootFits(g, rank, root, lv);
    MetSteps(g, rank, root, lv, root.level);
    var i := root.level + 1;
    while i > 0
      invariant 0 <= i <= Height(g, rank, root) + 1 && levels[..] == lv
      invariant InSweep(table, g, rank, root, Met(g, rank, root, lv, i - 1, 0), vin', alter, all, done)
    {
      i := i - 1;
      ok, vin', done := SweepLevel(levels, i, table, alter, g, rank, root, vin', all, done);
      if !ok { return; }
    }
    MetSteps(g, rank, root, lv, -1);
  }

  lemma InSweepStarts(table: ValueTable, g: Graph, rank: map<Block, nat>, root: Block, vin: map<Block, seq<nat>>, alter: bool, all: seq<Block>)
    requires Dag(g, rank) && root in g && g == Snap(g.Keys) && vin.Keys == g.Keys
    requires InedgesOf(g, Reach(g, rank, root), InsOf(g.Keys)) && GoodScratch(g)
    requires table.Valid() && table.entries == [] && Allocated(g, all, table.vmap.Length) && Sized(g.Keys)
    ensures InSweep(table, g, rank, root, {}, vin, alter, all, [])
  {
    SnapShape(g);
    hide InedgesOf, Snap, SameShape, Allocated, GoodScratch, StmtsOf, Sweeping, Reach;
    SweepingStarts(g, rank, root, Tables(vin, ValsOf(g.Keys), OvalsOf(g.Keys)), StmtsOf(g.Keys), alter, all, table.vmap.Length);
  }

  lemma SnapShape(g: Graph)
    requires g == Snap(g.Keys)
    ensures SameShape(g) && forall b | b in g :: StmtsOf(g.Keys)[b] == g[b].stmts
  {
    forall b | b in g
      ensures b.s == g[b].s && b.jt == g[b].jt && b.jf == g[b].jf && b.stmts == g[b].stmts
    {
      assert Snap(g.Keys)[b] == Node(b.stmts, b.s, b.jt, b.jf);
    }
  }

  lemma SweepingStarts(g: Graph, rank: map<Block, nat>, root: Block, t: Tables, stmts: map<Block, seq<Stmt>>, alter: bool,
                       all: seq<Block>, maxval: nat)
    requires Dag(g, rank) && root in g && Allocated(g, all, maxval) && GoodScratch(g)
    requires g.Keys == t.vin.Keys == t.vout.Keys == t.oval.Keys == stmts.Keys && forall b | b in g :: stmts[b] == g[b].stmts
    ensures Sweeping([], g, Reach(g, rank, root), {}, root, t, stmts, alter, all, maxval, [])
  {
    hide Allocated, GoodScratch, BlockDone, Inherits, Dag, Reach, OvalRight;
    assert Elements([]) == {};
  }

  lemma InSweepEnds(table: ValueTable, g: Graph, rank: map<Block, nat>, root: Block, vin: map<Block, seq<nat>>, alter: bool,
                    all: seq<Block>, done: seq<Block>)
    requires Dag(g, rank) && root in g && InSweep(table, g, rank, root, Reach(g, rank, root), vin, alter, all, done)
    requires Allocated(g, all, table.vmap.Length)
    ensures table.Valid() && SameShape(g) && Sized(g.Keys) && table.curval == |table.entries| <= 2 * Layout.Total(g, NO_LONGS, all) < table.vmap.Length
    ensures Swept(table.entries, g, Reach(g, rank, root), Reach(g, rank, root), root, Tables(vin, ValsOf(g.Keys), OvalsOf(g.Keys)),
                  StmtsOf(g.Keys), alter)
  {
    hide Live, Swept, Dag, Reach, GoodScratch;
    TotalAtMost(g, done, all);
    TotalPositive(g, all, root);
  }

  lemma TotalPositive(g: Graph, all: seq<Block>, b: Block)
    requires Distinct(all) && (forall x | x in all :: x in g) && b in Elements(all)
    ensures Layout.Total(g, NO_LONGS, all) > 0
  {
    Layout.RemoveTotal(g, NO_LONGS, all, b);
  }

  // ----- What numbering preserves -----

  /** No block fails on the packet's way from b. */
  ghost predicate Survives(g: Graph, rank: map<Block, nat>, b: Block, st: State, pkt: Packet)
    requires Dag(g, rank) && b in g
    decreases rank[b]
  {
    var r := ExecAll(g[b].stmts, st, pkt);
    r.Next? && (g[b].s.Jmp? ==> Survives(g, rank, g[b].Succ(Decide(g[b].s, r.st)), r.st, pkt))
  }

  /** The graph with new statements. */
  ghost function Restated(g: Graph, stmts: map<Block, seq<Stmt>>): Graph
    requires g.Keys <= stmts.Keys
  {
    map b | b in g :: g[b].(stmts := stmts[b])
  }

  lemma RestatedDag(g: Graph, rank: map<Block, nat>, stmts: map<Block, seq<Stmt>>)
    requires Dag(g, rank) && g.Keys <= stmts.Keys
    ensures Dag(Restated(g, stmts), rank)
  {
  }

  /** Every atom a statement reads has a number, in every block that can be reached. */
  ghost predicate AllInformed(g: Graph, reach: set<Block>, vin: map<Block, seq<nat>>) {
    forall b | b in reach && b in g :: b in vin && Informed(g[b].stmts, vin[b])
  }

  /** A block a packet goes through, and the machine state its statements leave. */
  datatype Visit = Visit(b: Block, st: State)

  ghost function Visits(g: Graph, rank: map<Block, nat>, b: Block, st: State, pkt: Packet): seq<Visit>
    requires Dag(g, rank) && b in g
    decreases rank[b]
  {
    var r := ExecAll(g[b].stmts, st, pkt);
    if !r.Next? then []
    else if g[b].s.Ret? then [Visit(b, r.st)]
    else [Visit(b, r.st)] + Visits(g, rank, g[b].Succ(Decide(g[b].s, r.st)), r.st, pkt)
  }

  /** The table each block leaves is right about the state it leaves. */
  ghost predicate TablesMatch(es: seq<Triple>, vout: map<Block, seq<nat>>, visits: seq<Visit>, pkt: Packet) {
    forall v | v in visits :: v.b in vout && |vout[v.b]| == N_ATOMS && MatchesOn(es, vout[v.b], ALL, v.st, pkt)
  }

  lemma TablesMatchMore(es: seq<Triple>, vout: map<Block, seq<nat>>, v: Visit, rest: seq<Visit>, pkt: Packet)
    requires v.b in vout && |vout[v.b]| == N_ATOMS && MatchesOn(es, vout[v.b], ALL, v.st, pkt) && TablesMatch(es, vout, rest, pkt)
    ensures TablesMatch(es, vout, [v], pkt) && TablesMatch(es, vout, [v] + rest, pkt)
  {
  }

  /** On every run that does not fail, every block is entered in a state its table is right about, and leaves as before. */
  lemma {:induction false} NumberingPreserves(es: seq<Triple>, g: Graph, rank: map<Block, nat>, root: Block, t: Tables,
                                              stmts: map<Block, seq<Stmt>>, alter: bool, b: Block, st: State, pkt: Packet)
    requires Dag(g, rank) && root in g && AllInformed(g, Reach(g, rank, root), t.vin) && g.Keys <= stmts.Keys
    requires Swept(es, g, Reach(g, rank, root), Reach(g, rank, root), root, t, stmts, alter)
    requires b in Reach(g, rank, root) && |t.vin[b]| == N_ATOMS && MatchesOn(es, t.vin[b], ALL, st, pkt)
    requires Survives(g, rank, b, st, pkt)
    ensures Dag(Restated(g, stmts), rank)
    ensures Visits(Restated(g, stmts), rank, b, st, pkt) == Visits(g, rank, b, st, pkt)
    ensures TablesMatch(es, t.vout, Visits(g, rank, b, st, pkt), pkt)
    ensures Run(Restated(g, stmts), rank, b, st, pkt) == Run(g, rank, b, st, pkt)
    decreases rank[b]
  {
    RestatedDag(g, rank, stmts);
    assert BlockDone(es, g[b].stmts, stmts[b], t.vin[b], t.vout[b], alter) && Informed(g[b].stmts, t.vin[b]);
    var r := ExecAll(g[b].stmts, st, pkt);
    assert ExecAll(stmts[b], st, pkt) == r;
    assert MatchesOn(es, t.vout[b], ALL + UdAll(NONE, g[b].stmts).def, r.st, pkt);
    TablesMatchMore(es, t.vout, Visit(b, r.st), [], pkt);
    if g[b].s.Jmp? {
      var c := g[b].Succ(Decide(g[b].s, r.st));
      ReachSuccessors(g, rank, root, b);
      assert Inherits(g, Reach(g, rank, root), Reach(g, rank, root), root, t, c);
      hide Dag, Reach, ExecAll, BlockDone, Swept, UdAll, AllInformed;
      BelowMatches(es, t.vin[c], t.vout[b], ALL + UdAll(NONE, g[b].stmts).def, r.st, pkt);
      NumberingPreserves(es, g, rank, root, t, stmts, alter, c, r.st, pkt);
      TablesMatchMore(es, t.vout, Visit(b, r.st), Visits(g, rank, c, r.st, pkt), pkt);
      hide TablesMatch, MatchesOn;
    }
  }

  lemma BelowMatches(es: seq<Triple>, v: seq<nat>, w: seq<nat>, atoms: set<int>, st: State, pkt: Packet)
    requires Below(v, w) && MatchesOn(es, w, atoms, st, pkt) && ALL <= atoms
    ensures MatchesOn(es, v, ALL, st, pkt)
  {
  }

  /** Every block on the way leaves what it left, and the filter returns what it returned, where nothing fails. */
  lemma NumberingPreservesFilter(es: seq<Triple>, g: Graph, rank: map<Block, nat>, root: Block, t: Tables,
                                 stmts: map<Block, seq<Stmt>>, alter: bool, st: State, pkt: Packet)
    requires Dag(g, rank) && root in g && AllInformed(g, Reach(g, rank, root), t.vin) && g.Keys <= stmts.Keys
    requires Swept(es, g, Reach(g, rank, root), Reach(g, rank, root), root, t, stmts, alter)
    requires Survives(g, rank, root, st, pkt)
    ensures Dag(Restated(g, stmts), rank)
    ensures Visits(Restated(g, stmts), rank, root, st, pkt) == Visits(g, rank, root, st, pkt)
    ensures TablesMatch(es, t.vout, Visits(g, rank, root, st, pkt), pkt)
    ensures Run(Restated(g, stmts), rank, root, st, pkt) == Run(g, rank, root, st, pkt)
  {
    assert Inherits(g, Reach(g, rank, root), Reach(g, rank, root), root, t, root);
    NumberingPreserves(es, g, rank, root, t, stmts, alter, root, st, pkt);
  }

  // ----- The tables jump threading looks at -----

  ghost function OperandsOf(t: Tables): map<Block, Threading.Operands> {
    map b | b in t.vout && b in t.oval && |t.vout[b]| == N_ATOMS :: Threading.Operands(t.vout[b][A_ATOM], t.oval[b])
  }

  /** The words the numbers of a table stand for. */
  ghost function WordOf(es: seq<Triple>, pkt: Packet): nat -> Word {
    n => if Nu(es, n, pkt).Val? then Nu(es, n, pkt).w else 0
  }

  /** The numbers a self-contained block leaves are right whatever it started from. */
  lemma ExitNumbers(es: seq<Triple>, ss: seq<Stmt>, s: Branch, v0: seq<nat>, v1: seq<nat>, oval: nat, pkt: Packet)
    requires BlockDone(es, ss, ss, v0, v1, false) && Quiet(ss) && SelfContained(ss, s) && s.Jmp?
    requires |v1| == N_ATOMS && OvalRight(es, s, v1, oval) && ExecAll(ss, Zeroed(), pkt).Next?
    ensures var st := ExecAll(ss, Zeroed(), pkt).st;
      Nu(es, v1[A_ATOM], pkt) == Val(st[A_ATOM]) && Nu(es, oval, pkt) == Val(Threading.Operand(s, st))
  {
    var st := ExecAll(ss, Zeroed(), pkt).st;
    assert MatchesOn(es, v0, {}, Zeroed(), pkt);
    assert MatchesOn(es, v1, {} + UdAll(NONE, ss).def, st, pkt);
    assert BranchUse(s) <= UdAll(NONE, ss).def by {
      assert LocalUd(ss, s).use == {} && UdAll(NONE, ss).use == {};
      assert forall a | a in BranchUse(s) && a !in UdAll(NONE, ss).def :: a in LocalUd(ss, s).use;
    }
    hide UdAll, ExecAll, Nu;
    assert A_ATOM in BranchUse(s);
    if s.src.X? {
      assert X_ATOM in BranchUse(s);
    } else {
      NuConst(es, oval, pkt);
    }
  }

  lemma FaithfulOnPacket(es: seq<Triple>, g: Graph, reach: set<Block>, root: Block, t: Tables, stmts: map<Block, seq<Stmt>>, pkt: Packet)
    requires Swept(es, g, reach, reach, root, t, stmts, false) && AllQuiet(g, reach) && Contained(g, reach)
    ensures reach <= OperandsOf(t).Keys && Threading.FaithfulOn(g, reach, OperandsOf(t), WordOf(es, pkt), pkt)
  {
    var tab, nu := OperandsOf(t), WordOf(es, pkt);
    hide UdAll, ExecAll, Nu, Inherits, OvalRight;
    forall b | b in reach && g[b].s.Jmp? && Threading.Clean(g[b], pkt)
      ensures nu(tab[b].aval) == Threading.ExitOf(g[b], pkt).st[A_ATOM]
      ensures nu(tab[b].oval) == Threading.Operand(g[b].s, Threading.ExitOf(g[b], pkt).st)
    {
      assert BlockDone(es, g[b].stmts, stmts[b], t.vin[b], t.vout[b], false) && Quiet(g[b].stmts);
      assert SelfContained(g[b].stmts, g[b].s);
      ExitNumbers(es, g[b].stmts, g[b].s, t.vin[b], t.vout[b], t.oval[b], pkt);
    }
  }

  /** Equal constants have equal numbers. */
  lemma SameConstant(es: seq<Triple>, m: nat, n: nat)
    requires DistinctEntries(es) && IsConst(es, m) && IsConst(es, n) && es[m - 1].v0 == es[n - 1].v0
    ensures m == n
  {
    assert es[m - 1] == es[n - 1];
  }

  /** Numbering without rewriting leaves tables that jump threading can rely on. */
  lemma NumberingFaithful(es: seq<Triple>, g: Graph, reach: set<Block>, root: Block, t: Tables, stmts: map<Block, seq<Stmt>>)
    requires Swept(es, g, reach, reach, root, t, stmts, false) && DistinctEntries(es)
    requires AllQuiet(g, reach) && Contained(g, reach)
    ensures reach <= OperandsOf(t).Keys && Threading.Faithful(g, reach, OperandsOf(t))
  {
    var tab := OperandsOf(t);
    FaithfulOnPacket(es, g, reach, root, t, stmts, Packet([], 0));
    forall b, c | b in reach && c in reach && Threading.IsConstant(g[b].s) && Threading.IsConstant(g[c].s) && g[b].s.k == g[c].s.k
      ensures tab[b].oval == tab[c].oval
    {
      assert OvalRight(es, g[b].s, t.vout[b], t.oval[b]) && OvalRight(es, g[c].s, t.vout[c], t.oval[c]);
      SameConstant(es, t.oval[b], t.oval[c]);
    }
    hide Swept, AllQuiet, Contained, Threading.FaithfulOn, OperandsOf, DistinctEntries;
    forall pkt
      ensures Threading.HasMeaning(g, reach, tab, pkt)
    {
      FaithfulOnPacket(es, g, reach, root, t, stmts, pkt);
      assert Threading.FaithfulOn(g, reach, tab, WordOf(es, pkt), pkt);
    }
  }
}
