/** opt_deadstores: stores whose value is never looked at are deleted. */
module Deadstores {
  import opened Ir
  import opened Flowgraph

  /** tt is ss with some statements deleted. */
  ghost predicate Thinned(ss: seq<Stmt>, tt: seq<Stmt>) {
    |tt| == |ss| && forall j | 0 <= j < |ss| :: tt[j] == ss[j] || tt[j] == Gone(ss[j])
  }

  /** Statement j defines what statement n defines again, and nothing up to n has used it. */
  ghost predicate Overwritten(ss: seq<Stmt>, j: nat, n: nat) {
    && j < n < |ss| && 0 <= AtomDef(ss[j]) == AtomDef(ss[n])
    && forall m | j < m <= n :: AtomDef(ss[j]) !in AtomUse(ss[m])
  }

  /** What statement j defines is used neither later in the list nor among `live`. */
  ghost predicate Unused(ss: seq<Stmt>, j: nat, live: set<int>) {
    j < |ss| && 0 <= AtomDef(ss[j]) && AtomDef(ss[j]) !in live && forall m | j < m < |ss| :: AtomDef(ss[j]) !in AtomUse(ss[m])
  }

  ghost predicate OverwrittenBefore(ss: seq<Stmt>, j: nat, i: nat) { exists n: nat :: n < i && Overwritten(ss, j, n) }

  ghost predicate OverwrittenLater(ss: seq<Stmt>, j: nat) { OverwrittenBefore(ss, j, |ss|) }

  /** Only statements that are overwritten before use, or whose value is not live at the end, are deleted. */
  ghost predicate DeadOnly(ss: seq<Stmt>, tt: seq<Stmt>, live: set<int>) {
    Thinned(ss, tt) && forall j | 0 <= j < |ss| && tt[j] != ss[j] :: OverwrittenLater(ss, j) || Unused(ss, j, live)
  }

  /** Exactly those are deleted. */
  ghost predicate AllDead(ss: seq<Stmt>, tt: seq<Stmt>, live: set<int>) {
    Thinned(ss, tt) && forall j | 0 <= j < |ss| :: tt[j] != ss[j] <==> OverwrittenLater(ss, j) || Unused(ss, j, live)
  }

  // ----- Deleting dead statements is safe -----

  /** Before statement i, the last definition of the atom is one that has been deleted. */
  ghost predicate StaleBy(ss: seq<Stmt>, tt: seq<Stmt>, i: nat, a: int, j: nat)
    requires |ss| == |tt|
  {
    j < i <= |ss| && tt[j] != ss[j] && AtomDef(ss[j]) == a && forall m | j < m < i :: AtomDef(ss[m]) != a
  }

  ghost predicate Stale(ss: seq<Stmt>, tt: seq<Stmt>, i: nat, a: int)
    requires |ss| == |tt|
  {
    exists j :: StaleBy(ss, tt, i, a, j)
  }

  /** The two states agree on every atom whose last definition was kept. */
  ghost predicate InStep(ss: seq<Stmt>, tt: seq<Stmt>, i: nat, st: State, st': State)
    requires |ss| == |tt|
  {
    forall a | 0 <= a < N_ATOMS && !Stale(ss, tt, i, a) :: st[a] == st'[a]
  }

  /** Nothing reads a stale atom. */
  lemma StaleNotUsed(ss: seq<Stmt>, tt: seq<Stmt>, live: set<int>, i: nat, a: int)
    requires DeadOnly(ss, tt, live) && i <= |ss| && Stale(ss, tt, i, a)
    ensures if i < |ss| then a !in AtomUse(ss[i]) else a !in live
  {
    var j :| StaleBy(ss, tt, i, a, j);
    if OverwrittenLater(ss, j) {
      var n: nat :| n < |ss| && Overwritten(ss, j, n);
      assert n >= i;
    }
  }

  lemma StepInStep(ss: seq<Stmt>, tt: seq<Stmt>, live: set<int>, i: nat, st: State, st': State, pkt: Packet)
    requires DeadOnly(ss, tt, live) && i < |ss| && InStep(ss, tt, i, st, st') && Exec(ss[i], st, pkt).Next?
    ensures Exec(tt[i], st', pkt).Next? && InStep(ss, tt, i + 1, Exec(ss[i], st, pkt).st, Exec(tt[i], st', pkt).st)
  {
    if tt[i] == ss[i] {
      forall a | a in AtomUse(ss[i]) && 0 <= a < N_ATOMS
        ensures st[a] == st'[a]
      {
        if Stale(ss, tt, i, a) {
          StaleNotUsed(ss, tt, live, i, a);
        }
      }
      ValueDependsOnUse(ss[i], st, st', pkt);
    }
    forall a | 0 <= a < N_ATOMS && !Stale(ss, tt, i + 1, a)
      ensures Exec(ss[i], st, pkt).st[a] == Exec(tt[i], st', pkt).st[a]
    {
      if AtomDef(ss[i]) == a {
        assert tt[i] != ss[i] ==> StaleBy(ss, tt, i + 1, a, i);
      } else if Stale(ss, tt, i, a) {
        var j :| StaleBy(ss, tt, i, a, j);
        assert StaleBy(ss, tt, i + 1, a, j);
      }
    }
  }

  lemma {:induction false} RestInStep(ss: seq<Stmt>, tt: seq<Stmt>, live: set<int>, i: nat, st: State, st': State, pkt: Packet)
    requires DeadOnly(ss, tt, live) && i <= |ss| && InStep(ss, tt, i, st, st') && ExecAll(ss[i..], st, pkt).Next?
    ensures ExecAll(tt[i..], st', pkt).Next?
    ensures Agree(live, ExecAll(ss[i..], st, pkt).st, ExecAll(tt[i..], st', pkt).st)
    decreases |ss| - i
  {
    if i == |ss| {
      forall a | a in live && 0 <= a < N_ATOMS
        ensures st[a] == st'[a]
      {
        if Stale(ss, tt, i, a) {
          StaleNotUsed(ss, tt, live, i, a);
        }
      }
    } else {
      StepInStep(ss, tt, live, i, st, st', pkt);
      assert ss[i..][1..] == ss[i + 1..] && tt[i..][1..] == tt[i + 1..];
      RestInStep(ss, tt, live, i + 1, Exec(ss[i], st, pkt).st, Exec(tt[i], st', pkt).st, pkt);
    }
  }

  /** From every state on which no load or divide fails, a thinned list leaves the same live atoms. */
  lemma DeadOnlyPreserves(ss: seq<Stmt>, tt: seq<Stmt>, live: set<int>, st: State, pkt: Packet)
    requires DeadOnly(ss, tt, live) && ExecAll(ss, st, pkt).Next?
    ensures ExecAll(tt, st, pkt).Next? && Agree(live, ExecAll(ss, st, pkt).st, ExecAll(tt, st, pkt).st)
  {
    assert ss[0..] == ss && tt[0..] == tt;
    RestInStep(ss, tt, live, 0, st, st, pkt);
  }

  // ----- opt_deadstores -----

  /** Statement j defined the atom before statement i, and nothing since has defined or used it. */
  ghost predicate Open(ss: seq<Stmt>, i: nat, a: int, j: nat) {
    && j < i <= |ss| && AtomDef(ss[j]) == a
    && forall m | j < m < i :: AtomDef(ss[m]) != a && a !in AtomUse(ss[m])
  }

  /** The open statement of an atom, if there is one, is kept in the table, and is not deleted. */
  ghost predicate Pending(ss: seq<Stmt>, tt: seq<Stmt>, i: nat, a: int, j: int) {
    |ss| == |tt| && if j < 0 then j == -1 && forall k :: !Open(ss, i, a, k) else Open(ss, i, a, j) && tt[j] == ss[j]
  }

  /** The state of the scan before statement i. */
  ghost predicate Scanned(ss: seq<Stmt>, tt: seq<Stmt>, i: nat, last: seq<int>) {
    && |last| == N_ATOMS && i <= |ss| && Thinned(ss, tt)
    && (forall a | 0 <= a < N_ATOMS :: Pending(ss, tt, i, a, last[a]))
    && (forall j | 0 <= j < |ss| :: tt[j] != ss[j] <==> OverwrittenBefore(ss, j, i))
  }

  /** The first half of deadstmt: what is used is not dead. */
  method ClearUsed(uses: set<int>, last: array<int>)
    requires last.Length == N_ATOMS && forall a | a in uses :: 0 <= a < N_ATOMS
    modifies last
    ensures forall a | 0 <= a < N_ATOMS :: last[a] == if a in uses then -1 else old(last[a])
  {
    for a := 0 to N_ATOMS
      invariant forall c | 0 <= c < N_ATOMS :: last[c] == if c in uses && c < a then -1 else old(last[c])
    {
      if a in uses {
        last[a] := -1;
      }
    }
  }

  /** deadstmt, for statement i of b. */
  method DeadStmt(b: Block, i: nat, last: array<int>, ghost ss: seq<Stmt>)
    requires Tame(ss) && i < |ss| && last.Length == N_ATOMS && Scanned(ss, b.stmts, i, last[..])
    modifies b`stmts, last
    ensures Scanned(ss, b.stmts, i + 1, last[..])
  {
    var s := b.stmts[i];
    ghost var tt, was := b.stmts, last[..];
    NotYetDeleted(ss, tt, i, was);
    assert InScratch(ss[i]);
    ClearUsed(AtomUse(s), last);
    var atom := AtomDef(s);
    if atom >= 0 {
      assert Pending(ss, tt, i, atom, was[atom]);
      if last[atom] != -1 {
        b.stmts := b.stmts[last[atom] := Gone(b.stmts[last[atom]])];
      }
      last[atom] := i;
    }
    ScannedOn(ss, tt, b.stmts, i, was, last[..]);
  }

  lemma NotYetDeleted(ss: seq<Stmt>, tt: seq<Stmt>, i: nat, last: seq<int>)
    requires i < |ss| && Scanned(ss, tt, i, last)
    ensures |tt| == |ss| && tt[i] == ss[i]
  {
  }

  /** What statement i adds to what has been overwritten: the open statement of the atom it defines, if it does not use it. */
  lemma OverwrittenMore(ss: seq<Stmt>, j: nat, i: nat)
    requires i < |ss|
    ensures OverwrittenBefore(ss, j, i + 1) <==> OverwrittenBefore(ss, j, i) || OverwritesOpen(ss, i, j)
  {
    if OverwritesOpen(ss, i, j) {
      assert Overwritten(ss, j, i);
    }
    if OverwrittenBefore(ss, j, i + 1) && !OverwrittenBefore(ss, j, i) {
      assert Overwritten(ss, j, i);
      forall m | j < m < i
        ensures AtomDef(ss[m]) != AtomDef(ss[j])
      {
        assert !Overwritten(ss, j, m);
      }
    }
  }

  ghost predicate OverwritesOpen(ss: seq<Stmt>, i: nat, j: nat)
    requires i < |ss|
  {
    0 <= AtomDef(ss[i]) && AtomDef(ss[i]) !in AtomUse(ss[i]) && Open(ss, i, AtomDef(ss[i]), j)
  }

  /** How the open statement of an atom changes at statement i. */
  lemma OpenMore(ss: seq<Stmt>, i: nat, a: int, j: nat)
    requires i < |ss|
    ensures Open(ss, i + 1, a, j) <==>
      if AtomDef(ss[i]) == a then j == i else a !in AtomUse(ss[i]) && Open(ss, i, a, j)
  {
  }

  lemma OpenIsOne(ss: seq<Stmt>, i: nat, a: int, j: nat, k: nat)
    requires Open(ss, i, a, j) && Open(ss, i, a, k)
    ensures j == k
  {
  }

  lemma ScannedOn(ss: seq<Stmt>, tt: seq<Stmt>, tt': seq<Stmt>, i: nat, last: seq<int>, last': seq<int>)
    requires i < |ss| && Scanned(ss, tt, i, last) && |last'| == N_ATOMS && InScratch(ss[i])
    requires forall a | 0 <= a < N_ATOMS ::
      last'[a] == if a == AtomDef(ss[i]) then i as int else if a in AtomUse(ss[i]) then -1 else last[a]
    requires var a := AtomDef(ss[i]);
      if 0 <= a < N_ATOMS && a !in AtomUse(ss[i]) && last[a] != -1
      then 0 <= last[a] < |tt| && tt' == tt[last[a] := Gone(tt[last[a]])]
      else tt' == tt
    ensures Scanned(ss, tt', i + 1, last')
  {
    var d := AtomDef(ss[i]);
    forall j | 0 <= j < |ss|
      ensures (tt'[j] == ss[j] || tt'[j] == Gone(ss[j])) && (tt'[j] != ss[j] <==> OverwrittenBefore(ss, j, i + 1))
    {
      OverwrittenMore(ss, j, i);
      if 0 <= d {
        assert Pending(ss, tt, i, d, last[d]);
        if OverwritesOpen(ss, i, j) && last[d] != -1 {
          OpenIsOne(ss, i, d, last[d], j);
        }
      }
    }
    forall a | 0 <= a < N_ATOMS
      ensures Pending(ss, tt', i + 1, a, last'[a])
    {
      PendingOn(ss, tt, tt', i, a, last, last');
    }
  }

  lemma PendingOn(ss: seq<Stmt>, tt: seq<Stmt>, tt': seq<Stmt>, i: nat, a: int, last: seq<int>, last': seq<int>)
    requires i < |ss| && Scanned(ss, tt, i, last) && |last'| == N_ATOMS && InScratch(ss[i]) && 0 <= a < N_ATOMS
    requires last'[a] == if a == AtomDef(ss[i]) then i as int else if a in AtomUse(ss[i]) then -1 else last[a]
    requires var a := AtomDef(ss[i]);
      if 0 <= a < N_ATOMS && a !in AtomUse(ss[i]) && last[a] != -1
      then 0 <= last[a] < |tt| && tt' == tt[last[a] := Gone(tt[last[a]])]
      else tt' == tt
    ensures Pending(ss, tt', i + 1, a, last'[a])
  {
    var d := AtomDef(ss[i]);
    NotYetDeleted(ss, tt, i, last);
    assert Pending(ss, tt, i, a, last[a]);
    if 0 <= d {
      assert Pending(ss, tt, i, d, last[d]);
    }
    var i' := i + 1;
    forall k: nat
      ensures last'[a] == -1 ==> !Open(ss, i', a, k)
    {
      OpenMore(ss, i, a, k);
    }
    if last'[a] >= 0 {
      OpenMore(ss, i, a, last'[a]);
    }
    hide Open;
  }

  /** opt_deadstores. */
  method OptDeadstores(b: Block)
    requires Tame(b.stmts)
    modifies b`stmts
    ensures AllDead(old(b.stmts), b.stmts, b.outUse + BranchUse(b.s))
    ensures forall st, pkt | ExecAll(old(b.stmts), st, pkt).Next? ::
      var r, r' := ExecAll(old(b.stmts), st, pkt), ExecAll(b.stmts, st, pkt);
      && r'.Next? && Agree(b.outUse, r.st, r'.st) && (b.s.Jmp? ==> Decide(b.s, r.st) == Decide(b.s, r'.st))
  {
    hide Scanned, AllDead, ExecAll;
    ghost var ss, live := b.stmts, b.outUse + BranchUse(b.s);
    var last := new int[N_ATOMS](_ => -1);
    ScanStarts(ss, last[..]);
    for i := 0 to |b.stmts|
      invariant |b.stmts| == |ss| && Scanned(ss, b.stmts, i, last[..])
    {
      DeadStmt(b, i, last, ss);
      ScannedSize(ss, b.stmts, i + 1, last[..]);
    }
    ghost var was := last[..];
    ClearUsed(BranchUse(b.s), last);
    ScanEnds(ss, b.stmts, was, last[..], BranchUse(b.s), live);
    DeleteUnused(b, last, ss, live);
    forall st, pkt | ExecAll(ss, st, pkt).Next?
      ensures var r, r' := ExecAll(ss, st, pkt), ExecAll(b.stmts, st, pkt);
        && r'.Next? && Agree(b.outUse, r.st, r'.st) && (b.s.Jmp? ==> Decide(b.s, r.st) == Decide(b.s, r'.st))
    {
      AllDeadOnly(ss, b.stmts, live);
      DeadOnlyPreserves(ss, b.stmts, live, st, pkt);
      if b.s.Jmp? {
        BranchDependsOnUse(b.s, ExecAll(ss, st, pkt).st, ExecAll(b.stmts, st, pkt).st);
      }
    }
  }

  lemma AllDeadOnly(ss: seq<Stmt>, tt: seq<Stmt>, live: set<int>)
    requires AllDead(ss, tt, live)
    ensures DeadOnly(ss, tt, live)
  {
  }

  lemma ScanStarts(ss: seq<Stmt>, last: seq<int>)
    requires |last| == N_ATOMS && forall a | 0 <= a < N_ATOMS :: last[a] == -1
    ensures Scanned(ss, ss, 0, last)
  {
  }

  lemma ScannedSize(ss: seq<Stmt>, tt: seq<Stmt>, i: nat, last: seq<int>)
    requires Scanned(ss, tt, i, last)
    ensures |tt| == |ss|
  {
  }

  /** The deletions at the end have dealt with the atoms before n; what is left in the table is the open statements of atoms the branch does not use. */
  ghost predicate Finishing(ss: seq<Stmt>, tt: seq<Stmt>, last: seq<int>, uses: set<int>, live: set<int>, n: int) {
    && |last| == N_ATOMS && Thinned(ss, tt) && uses <= live && 0 <= n <= N_ATOMS
    && (forall a | 0 <= a < N_ATOMS :: if a in uses then last[a] == -1 else Ending(ss, a, last[a]))
    && forall j | 0 <= j < |ss| ::
         tt[j] != ss[j] <==> OverwrittenLater(ss, j) || (Unused(ss, j, live) && AtomDef(ss[j]) < n)
  }

  ghost predicate Ending(ss: seq<Stmt>, a: int, j: int) {
    if j < 0 then j == -1 && forall k :: !Open(ss, |ss|, a, k) else Open(ss, |ss|, a, j)
  }

  /** An unused statement is overwritten, or still open at the end. */
  lemma UnusedIsOpen(ss: seq<Stmt>, j: nat, live: set<int>)
    requires Unused(ss, j, live)
    ensures OverwrittenLater(ss, j) || Open(ss, |ss|, AtomDef(ss[j]), j)
  {
    if m: nat :| j < m < |ss| && AtomDef(ss[m]) == AtomDef(ss[j]) {
      assert Overwritten(ss, j, m);
    }
  }

  lemma OpenIsNotOverwritten(ss: seq<Stmt>, a: int, j: nat)
    requires Open(ss, |ss|, a, j)
    ensures !OverwrittenLater(ss, j)
  {
  }

  lemma ScanEnds(ss: seq<Stmt>, tt: seq<Stmt>, was: seq<int>, last: seq<int>, uses: set<int>, live: set<int>)
    requires Scanned(ss, tt, |ss|, was) && |last| == N_ATOMS
    requires forall a | 0 <= a < N_ATOMS :: last[a] == if a in uses then -1 else was[a]
    requires uses <= live
    ensures Finishing(ss, tt, last, uses, live, 0)
  {
    forall a | 0 <= a < N_ATOMS
      ensures if a in uses then last[a] == -1 else Ending(ss, a, last[a])
    {
      assert Pending(ss, tt, |ss|, a, was[a]);
    }
  }

  method DeleteUnused(b: Block, last: array<int>, ghost ss: seq<Stmt>, ghost live: set<int>)
    requires last.Length == N_ATOMS && live == b.outUse + BranchUse(b.s) && Tame(ss)
    requires Finishing(ss, b.stmts, last[..], BranchUse(b.s), live, 0) && |b.stmts| == |ss|
    modifies b`stmts
    ensures AllDead(ss, b.stmts, live)
  {
    hide Finishing;
    for a := 0 to N_ATOMS
      invariant |b.stmts| == |ss| && Finishing(ss, b.stmts, last[..], BranchUse(b.s), live, a)
    {
      FinishOne(ss, b.stmts, last[..], b.outUse, BranchUse(b.s), live, a);
      if last[a] != -1 && a !in b.outUse {
        b.stmts := b.stmts[last[a] := Gone(b.stmts[last[a]])];
      }
    }
    AllFinished(ss, b.stmts, last[..], BranchUse(b.s), live);
  }

  lemma AllFinished(ss: seq<Stmt>, tt: seq<Stmt>, last: seq<int>, uses: set<int>, live: set<int>)
    requires Finishing(ss, tt, last, uses, live, N_ATOMS) && Tame(ss)
    ensures AllDead(ss, tt, live)
  {
    forall j | 0 <= j < |ss|
      ensures AtomDef(ss[j]) < N_ATOMS
    {
      assert InScratch(ss[j]);
    }
  }

  lemma FinishOne(ss: seq<Stmt>, tt: seq<Stmt>, last: seq<int>, out: set<int>, uses: set<int>, live: set<int>, a: int)
    requires Finishing(ss, tt, last, uses, live, a) && 0 <= a < N_ATOMS && live == out + uses
    ensures last[a] != -1 ==> 0 <= last[a] < |tt| == |ss|
    ensures Finishing(ss, if last[a] != -1 && a !in out then tt[last[a] := Gone(tt[last[a]])] else tt, last, uses, live, a + 1)
  {
    assert if a in uses then last[a] == -1 else Ending(ss, a, last[a]);
    var tt' := if last[a] != -1 && a !in out then tt[last[a] := Gone(tt[last[a]])] else tt;
    forall j | 0 <= j < |ss|
      ensures tt'[j] == ss[j] || tt'[j] == Gone(ss[j])
      ensures tt'[j] != ss[j] <==> OverwrittenLater(ss, j) || (Unused(ss, j, live) && AtomDef(ss[j]) < a + 1)
    {
      if last[a] == j && a !in out {
        OpenIsNotOverwritten(ss, a, j);
        assert Unused(ss, j, live);
      } else if Unused(ss, j, live) && AtomDef(ss[j]) == a {
        UnusedIsOpen(ss, j, live);
      }
    }
  }
}
