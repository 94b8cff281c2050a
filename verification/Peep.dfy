/** opt_peep: rewriting of adjacent statements, and of the branch of a block. */
module Peep {
  import opened Words
  import opened Ir
  import opened Flowgraph
  import opened Values

  // ----- Statements that do not look at the index register -----

  /** The index register is read by the list before the list defines it, or is needed at its end. */
  ghost predicate ReadsX(q: seq<Stmt>, need: bool) {
    if q == [] then need
    else X_ATOM in AtomUse(q[0]) || (AtomDef(q[0]) != X_ATOM && ReadsX(q[1..], need))
  }

  /** The length of the sequence that can be fused at the start of the list: ld #c; ldxms (optional); addx; tax; ild. */
  function RunLength(q: seq<Stmt>): (n: nat)
    ensures n <= |q|
  {
    if |q| >= 4 && q[0].op.LdImm? && q[1].op == Alu(Add, X) && q[2].op.Tax? && q[3].op.LdInd? then 4
    else if |q| >= 5 && q[0].op.LdImm? && q[1].op.LdxMsh? && q[2].op == Alu(Add, X) && q[3].op.Tax? && q[4].op.LdInd? then 5
    else 0
  }

  /** After no sequence that can be fused is the index register read, unless the constant is zero. */
  ghost predicate XFree(q: seq<Stmt>, need: bool) {
    q == [] || ((RunLength(q) > 0 && q[0].k != 0 ==> !ReadsX(q[RunLength(q)..], need)) && XFree(q[1..], need))
  }

  ghost predicate AgreeButX(st: State, st': State) {
    forall i | 0 <= i < N_ATOMS && i != X_ATOM :: st[i] == st'[i]
  }

  /** Two runs that end alike, in states that agree but for an index register that is not needed. */
  ghost predicate EndAlike(r: Step, r': Step, need: bool) {
    if r.Next? then r'.Next? && AgreeButX(r.st, r'.st) && (need ==> r.st[X_ATOM] == r'.st[X_ATOM])
    else r == r'
  }

  /** A list that does not look at the index register runs alike from states that differ only there. */
  lemma {:induction false} RunsButX(q: seq<Stmt>, need: bool, st: State, st': State, pkt: Packet)
    requires !ReadsX(q, need) && AgreeButX(st, st')
    ensures EndAlike(ExecAll(q, st, pkt), ExecAll(q, st', pkt), need)
  {
    if q != [] {
      ValueDependsOnUse(q[0], st, st', pkt);
      var r, r' := Exec(q[0], st, pkt), Exec(q[0], st', pkt);
      if r.Next? {
        if AtomDef(q[0]) == X_ATOM {
          assert r.st == r'.st;
        } else {
          RunsButX(q[1..], need, r.st, r'.st, pkt);
        }
      }
    }
  }

  /** tt may stand for ss: wherever ss does not fail, tt ends alike. */
  ghost predicate StandsFor(ss: seq<Stmt>, tt: seq<Stmt>, need: bool) {
    forall st, pkt | ExecAll(ss, st, pkt).Next? :: EndAlike(ExecAll(ss, st, pkt), ExecAll(tt, st, pkt), need)
  }

  lemma StandsTrans(ss: seq<Stmt>, tt: seq<Stmt>, uu: seq<Stmt>, need: bool)
    requires StandsFor(ss, tt, need) && StandsFor(tt, uu, need)
    ensures StandsFor(ss, uu, need)
  {
    forall st, pkt | ExecAll(ss, st, pkt).Next?
      ensures EndAlike(ExecAll(ss, st, pkt), ExecAll(uu, st, pkt), need)
    {
      assert EndAlike(ExecAll(ss, st, pkt), ExecAll(tt, st, pkt), need);
      assert EndAlike(ExecAll(tt, st, pkt), ExecAll(uu, st, pkt), need);
    }
  }

  /** A window w of the list replaced by w', which may leave another index register if nothing after reads it. */
  ghost predicate WindowOk(w: seq<Stmt>, w': seq<Stmt>, q: seq<Stmt>, need: bool) {
    forall st, pkt | ExecAll(w, st, pkt).Next? ::
      var r, r' := ExecAll(w, st, pkt), ExecAll(w', st, pkt);
      r'.Next? && AgreeButX(r.st, r'.st) && (ReadsX(q, need) ==> r.st[X_ATOM] == r'.st[X_ATOM])
  }

  lemma Replace(p: seq<Stmt>, w: seq<Stmt>, w': seq<Stmt>, q: seq<Stmt>, need: bool)
    requires WindowOk(w, w', q, need)
    ensures StandsFor(p + (w + q), p + (w' + q), need)
  {
    forall st, pkt | ExecAll(p + (w + q), st, pkt).Next?
      ensures EndAlike(ExecAll(p + (w + q), st, pkt), ExecAll(p + (w' + q), st, pkt), need)
    {
      ReplaceAt(p, w, w', q, need, st, pkt);
    }
  }

  lemma ReplaceAt(p: seq<Stmt>, w: seq<Stmt>, w': seq<Stmt>, q: seq<Stmt>, need: bool, st: State, pkt: Packet)
    requires WindowOk(w, w', q, need) && ExecAll(p + (w + q), st, pkt).Next?
    ensures EndAlike(ExecAll(p + (w + q), st, pkt), ExecAll(p + (w' + q), st, pkt), need)
  {
    ExecAllConcat(p, w + q, st, pkt);
    ExecAllConcat(p, w' + q, st, pkt);
    var st1 := ExecAll(p, st, pkt).st;
    ExecAllConcat(w, q, st1, pkt);
    ExecAllConcat(w', q, st1, pkt);
    var st2, st2' := ExecAll(w, st1, pkt).st, ExecAll(w', st1, pkt).st;
    hide ExecAll;
    if ReadsX(q, need) {
      assert forall i | 0 <= i < N_ATOMS :: st2[i] == st2'[i];
      assert st2 == st2';
    } else {
      RunsButX(q, need, st2, st2', pkt);
    }
  }

  // ----- The windows -----

  lemma {:induction false} ExecCons(a: Stmt, q: seq<Stmt>, st: State, pkt: Packet)
    ensures ExecAll([a] + q, st, pkt) == match Exec(a, st, pkt) { case Next(st') => ExecAll(q, st', pkt) case r => r }
  {
    assert ([a] + q)[1..] == q;
  }

  /** st M[k]; ldx M[k] becomes st M[k]; tax. */
  lemma StoreLoadWindow(a: Stmt, b: Stmt, q: seq<Stmt>, need: bool)
    requires a.op.St? && b.op.LdxMem? && a.k == b.k
    ensures WindowOk([a, b], [a, b.(op := Tax)], q, need)
  {
    forall st, pkt | ExecAll([a, b], st, pkt).Next?
      ensures ExecAll([a, b.(op := Tax)], st, pkt) == ExecAll([a, b], st, pkt)
    {
      ExecTwo(a, b, st, pkt);
      ExecTwo(a, b.(op := Tax), st, pkt);
    }
  }

  /** ld #k; tax becomes ldx #k; txa. */
  lemma ImmediateWindow(a: Stmt, b: Stmt, q: seq<Stmt>, need: bool)
    requires a.op.LdImm? && b.op.Tax?
    ensures WindowOk([a, b], [a.(op := LdxImm), b.(op := Txa)], q, need)
  {
    var a', b' := a.(op := LdxImm), b.(op := Txa);
    forall st, pkt | ExecAll([a, b], st, pkt).Next?
      ensures ExecAll([a', b'], st, pkt) == ExecAll([a, b], st, pkt)
    {
      ExecTwo(a, b, st, pkt);
      ExecTwo(a', b', st, pkt);
      assert st[A_ATOM := a.k][X_ATOM := a.k] == st[X_ATOM := a.k][A_ATOM := a.k];
    }
  }

  /** ld #c; addx; tax; ld [x + k] becomes ld [x + (k + c)]; the index register is not what it was, unless c is zero. */
  lemma FusionWindow(ldi: Stmt, add: Stmt, tax: Stmt, ild: Stmt, q: seq<Stmt>, need: bool)
    requires ldi.op.LdImm? && add.op == Alu(Add, X) && tax.op.Tax? && ild.op.LdInd? && (ldi.k == 0 || !ReadsX(q, need))
    ensures WindowOk([ldi, add, tax, ild], [ild.(k := Wrap(ild.k + ldi.k))], q, need)
  {
    forall st, pkt | ExecAll([ldi, add, tax, ild], st, pkt).Next?
      ensures var r, r' := ExecAll([ldi, add, tax, ild], st, pkt), ExecAll([ild.(k := Wrap(ild.k + ldi.k))], st, pkt);
        r'.Next? && AgreeButX(r.st, r'.st) && r.st[X_ATOM] == Wrap(ldi.k + r'.st[X_ATOM])
    {
      FusionAt(ldi, add, tax, ild, st, pkt);
    }
  }

  /** Where the four statements run, the fused one leaves the same state if and only if the constant is zero. */
  lemma FusionExactly(ldi: Stmt, add: Stmt, tax: Stmt, ild: Stmt, st: State, pkt: Packet)
    requires ldi.op.LdImm? && add.op == Alu(Add, X) && tax.op.Tax? && ild.op.LdInd?
    requires ExecAll([ldi, add, tax, ild], st, pkt).Next?
    ensures ExecAll([ild.(k := Wrap(ild.k + ldi.k))], st, pkt) == ExecAll([ldi, add, tax, ild], st, pkt) <==> ldi.k == 0
  {
    FusionAt(ldi, add, tax, ild, st, pkt);
    hide ExecAll;
    SameButX(ExecAll([ldi, add, tax, ild], st, pkt).st, ExecAll([ild.(k := Wrap(ild.k + ldi.k))], st, pkt).st, ldi.k);
  }

  lemma SameButX(st: State, st': State, c: Word)
    requires AgreeButX(st, st') && st[X_ATOM] == Wrap(c + st'[X_ATOM])
    ensures st == st' <==> c == 0
  {
    assert c == 0 ==> forall i | 0 <= i < N_ATOMS :: st[i] == st'[i];
  }

  lemma FusionAt(ldi: Stmt, add: Stmt, tax: Stmt, ild: Stmt, st: State, pkt: Packet)
    requires ldi.op.LdImm? && add.op == Alu(Add, X) && tax.op.Tax? && ild.op.LdInd?
    requires ExecAll([ldi, add, tax, ild], st, pkt).Next?
    ensures var r, r' := ExecAll([ldi, add, tax, ild], st, pkt), ExecAll([ild.(k := Wrap(ild.k + ldi.k))], st, pkt);
      r'.Next? && AgreeButX(r.st, r'.st) && r.st[X_ATOM] == Wrap(ldi.k + r'.st[X_ATOM])
  {
    var sum := Wrap(ldi.k + st[X_ATOM]);
    var st1 := st[A_ATOM := ldi.k];
    var st2 := st1[A_ATOM := sum];
    var st3 := st2[X_ATOM := sum];
    assert Exec(ldi, st, pkt) == Next(st1) && Exec(add, st1, pkt) == Next(st2) && Exec(tax, st2, pkt) == Next(st3);
    assert [ldi, add, tax, ild] == [ldi] + ([add] + ([tax] + [ild]));
    ExecCons(ldi, [add] + ([tax] + [ild]), st, pkt);
    ExecCons(add, [tax] + [ild], st1, pkt);
    ExecCons(tax, [ild], st2, pkt);
    ExecOne(ild, st3, pkt);
    ExecOne(ild.(k := Wrap(ild.k + ldi.k)), st, pkt);
    IldAlike(ild, ldi.k, st, st3, pkt);
    hide ExecAll, Exec;
  }

  lemma IldAlike(ild: Stmt, c: Word, st: State, st3: State, pkt: Packet)
    requires ild.op.LdInd? && st3[X_ATOM] == Wrap(c + st[X_ATOM])
    requires forall i | 0 <= i < N_ATOMS && i != X_ATOM && i != A_ATOM :: st[i] == st3[i]
    ensures var r, r' := Exec(ild, st3, pkt), Exec(ild.(k := Wrap(ild.k + c)), st, pkt);
      (r.Next? <==> r'.Next?) && (r.Next? ==> AgreeButX(r.st, r'.st) && r.st[X_ATOM] == st3[X_ATOM] && r'.st[X_ATOM] == st[X_ATOM])
  {
    hide Load;
    WrapTwice(c + st[X_ATOM], ild.k);
    WrapTwice(ild.k + c, st[X_ATOM]);
  }

  /** The same with the header length of an IP packet loaded into the index register in between. */
  lemma HeaderFusionWindow(ldi: Stmt, msh: Stmt, add: Stmt, tax: Stmt, ild: Stmt, q: seq<Stmt>, need: bool)
    requires ldi.op.LdImm? && msh.op.LdxMsh? && add.op == Alu(Add, X) && tax.op.Tax? && ild.op.LdInd? && (ldi.k == 0 || !ReadsX(q, need))
    ensures WindowOk([ldi, msh, add, tax, ild], [msh, ild.(k := Wrap(ild.k + ldi.k))], q, need)
  {
    var ild' := ild.(k := Wrap(ild.k + ldi.k));
    forall st, pkt | ExecAll([ldi, msh, add, tax, ild], st, pkt).Next?
      ensures var r, r' := ExecAll([ldi, msh, add, tax, ild], st, pkt), ExecAll([msh, ild'], st, pkt);
        r'.Next? && AgreeButX(r.st, r'.st) && r.st[X_ATOM] == Wrap(ldi.k + r'.st[X_ATOM])
    {
      HeaderFusionAt(ldi, msh, add, tax, ild, st, pkt);
    }
  }

  /**
   * The header form leaves the header length in the index register, where the five statements left the
   * constant more; the states are the same if and only if the constant is zero.
   */
  lemma HeaderFusionExactly(ldi: Stmt, msh: Stmt, add: Stmt, tax: Stmt, ild: Stmt, st: State, pkt: Packet)
    requires ldi.op.LdImm? && msh.op.LdxMsh? && add.op == Alu(Add, X) && tax.op.Tax? && ild.op.LdInd?
    requires ExecAll([ldi, msh, add, tax, ild], st, pkt).Next?
    ensures var r, r' := ExecAll([ldi, msh, add, tax, ild], st, pkt), ExecAll([msh, ild.(k := Wrap(ild.k + ldi.k))], st, pkt);
      && r'.Next? && ValueOf(msh, st, pkt) == Val(r'.st[X_ATOM]) && r.st[X_ATOM] == Wrap(ldi.k + r'.st[X_ATOM])
      && (r' == r <==> ldi.k == 0)
  {
    HeaderFusionAt(ldi, msh, add, tax, ild, st, pkt);
    hide ExecAll, ValueOf;
    SameButX(ExecAll([ldi, msh, add, tax, ild], st, pkt).st, ExecAll([msh, ild.(k := Wrap(ild.k + ldi.k))], st, pkt).st, ldi.k);
  }

  lemma HeaderFusionAt(ldi: Stmt, msh: Stmt, add: Stmt, tax: Stmt, ild: Stmt, st: State, pkt: Packet)
    requires ldi.op.LdImm? && msh.op.LdxMsh? && add.op == Alu(Add, X) && tax.op.Tax? && ild.op.LdInd?
    requires ExecAll([ldi, msh, add, tax, ild], st, pkt).Next?
    ensures var r, r' := ExecAll([ldi, msh, add, tax, ild], st, pkt), ExecAll([msh, ild.(k := Wrap(ild.k + ldi.k))], st, pkt);
      && r'.Next? && AgreeButX(r.st, r'.st) && ValueOf(msh, st, pkt) == Val(r'.st[X_ATOM])
      && r.st[X_ATOM] == Wrap(ldi.k + r'.st[X_ATOM])
  {
    var ild' := ild.(k := Wrap(ild.k + ldi.k));
    var st1 := st[A_ATOM := ldi.k];
    assert [ldi, msh, add, tax, ild] == [ldi] + ([msh] + [add, tax, ild]);
    ExecCons(ldi, [msh] + [add, tax, ild], st, pkt);
    ExecCons(msh, [add, tax, ild], st1, pkt);
    assert ValueOf(msh, st1, pkt) == ValueOf(msh, st, pkt) && Exec(ldi, st, pkt) == Next(st1);
    var x := ValueOf(msh, st, pkt).w;
    var st2, st2' := st1[X_ATOM := x], st[X_ATOM := x];
    assert st2 == st2'[A_ATOM := ldi.k];
    assert [ldi, add, tax, ild] == [ldi] + [add, tax, ild];
    ExecCons(ldi, [add, tax, ild], st2', pkt);
    FusionAt(ldi, add, tax, ild, st2', pkt);
    assert [msh, ild'] == [msh] + [ild'];
    ExecCons(msh, [ild'], st, pkt);
    ExecOne(ild', st2', pkt);
    hide ExecAll, Load, ValueOf;
  }

  // ----- Windows within a list -----

  /** What the rewriting of adjacent statements keeps. */
  ghost predicate Peeped(l0: seq<Stmt>, l1: seq<Stmt>, need: bool) {
    StandsFor(l0, l1, need) && LastAlu(l1) == LastAlu(l0)
  }

  lemma LastAluWindow(p: seq<Stmt>, w: seq<Stmt>, w': seq<Stmt>, q: seq<Stmt>)
    requires w != [] && w' != [] && !w[|w| - 1].op.Alu? && !w'[|w'| - 1].op.Alu?
    ensures LastAlu(p + (w' + q)) == LastAlu(p + (w + q))
  {
    if q == [] {
      assert p + (w' + q) == p + w' && p + (w + q) == p + w;
    }
  }

  lemma PeepedWindow(l0: seq<Stmt>, p: seq<Stmt>, w: seq<Stmt>, w': seq<Stmt>, q: seq<Stmt>, need: bool)
    requires Peeped(l0, p + (w + q), need) && WindowOk(w, w', q, need)
    requires w != [] && w' != [] && !w[|w| - 1].op.Alu? && !w'[|w'| - 1].op.Alu?
    ensures Peeped(l0, p + (w' + q), need)
  {
    hide WindowOk, StandsFor;
    LastAluWindow(p, w, w', q);
    Replace(p, w, w', q, need);
    StandsTrans(l0, p + (w + q), p + (w' + q), need);
  }

  /** A statement that loads no constant into the accumulator does not start a sequence that can be fused. */
  lemma FreeCons(a: Stmt, q: seq<Stmt>, need: bool)
    ensures XFree([a] + q, need) ==> XFree(q, need)
    ensures !a.op.LdImm? && XFree(q, need) ==> XFree([a] + q, need)
  {
    assert ([a] + q)[1..] == q;
  }

  lemma {:induction false} FreeTail(p: seq<Stmt>, a: seq<Stmt>, need: bool)
    requires XFree(p + a, need)
    ensures XFree(a, need)
  {
    if p == [] {
      assert p + a == a;
    } else {
      assert (p + a)[1..] == p[1..] + a;
      FreeTail(p[1..], a, need);
    }
  }

  /** After a sequence that can be fused the index register is not read, or the constant is zero. */
  lemma RunAhead(run: seq<Stmt>, q: seq<Stmt>, need: bool)
    requires RunLength(run) == |run| > 0 && XFree(run + q, need)
    ensures run[0].k == 0 || !ReadsX(q, need)
    ensures XFree(q, need)
  {
    assert RunLength(run + q) == |run| by {
      assert forall i | 0 <= i < |run| :: (run + q)[i] == run[i];
    }
    assert (run + q)[|run|..] == q;
    FreeTail(run, q, need);
  }

  // ----- The walk over a list with deleted statements -----

  ghost predicate AllNops(ss: seq<Stmt>, i: nat, j: nat) {
    i <= j <= |ss| && forall k | i <= k < j :: ss[k].op.Nop?
  }

  /** The first statement from i on that is not deleted. */
  function NextLive(ss: seq<Stmt>, i: nat): (j: nat)
    requires i <= |ss|
    ensures i <= j <= |ss| && AllNops(ss, i, j) && (j < |ss| ==> !ss[j].op.Nop?)
    decreases |ss| - i
  {
    if i < |ss| && ss[i].op.Nop? then NextLive(ss, i + 1) else i
  }

  /** this_op. */
  method ThisOp(ss: seq<Stmt>, i: nat) returns (j: nat)
    requires i <= |ss|
    ensures j == NextLive(ss, i)
  {
    j := i;
    while j < |ss| && ss[j].op.Nop?
      invariant i <= j <= |ss| && NextLive(ss, j) == NextLive(ss, i)
    {
      j := j + 1;
    }
  }

  function LiveOne(s: Stmt): seq<Stmt> { if s.op.Nop? then [] else [s] }

  /** Statement j is the next one that may be live after the first i. */
  lemma {:induction false} LiveFrom(ss: seq<Stmt>, i: nat, j: nat)
    requires AllNops(ss, i, j)
    ensures Live(ss[i..]) == if j < |ss| then LiveOne(ss[j]) + Live(ss[j + 1..]) else []
    decreases j - i
  {
    if i < |ss| {
      assert ss[i..][1..] == ss[i + 1..];
      if i < j {
        LiveFrom(ss, i + 1, j);
      }
    } else {
      assert ss[i..] == [];
    }
  }

  lemma {:induction false} LiveSplit(ss: seq<Stmt>, i: nat)
    requires i <= |ss|
    ensures Live(ss) == Live(ss[..i]) + Live(ss[i..])
  {
    if i == 0 {
      assert ss[..0] == [] && ss[0..] == ss;
    } else {
      assert ss[1..][..i - 1] == ss[..i][1..] && ss[1..][i - 1..] == ss[i..];
      LiveSplit(ss[1..], i - 1);
    }
  }

  lemma Live2(ss: seq<Stmt>, s: nat, n: nat)
    requires s < n < |ss| && AllNops(ss, s + 1, n)
    ensures Live(ss) == Live(ss[..s]) + (LiveOne(ss[s]) + (LiveOne(ss[n]) + Live(ss[n + 1..])))
  {
    hide Live, LiveOne, AllNops;
    LiveSplit(ss, s);
    LiveFrom(ss, s, s);
    LiveFrom(ss, s + 1, n);
  }

  lemma LiveNext(ss: seq<Stmt>, i: nat, j: nat)
    requires i <= j < |ss| && AllNops(ss, i, j)
    ensures Live(ss[i..]) == LiveOne(ss[j]) + Live(ss[j + 1..])
  {
    LiveFrom(ss, i, j);
  }

  lemma Live4(ss: seq<Stmt>, s: nat, a: nat, t: nat, i: nat)
    requires s < a < t < i < |ss| && AllNops(ss, s + 1, a) && AllNops(ss, a + 1, t) && AllNops(ss, t + 1, i)
    ensures Live(ss) == Live(ss[..s]) +
      (LiveOne(ss[s]) + (LiveOne(ss[a]) + (LiveOne(ss[t]) + (LiveOne(ss[i]) + Live(ss[i + 1..])))))
  {
    hide Live, LiveOne, AllNops;
    Live2(ss, s, a);
    LiveNext(ss, a + 1, t);
    LiveNext(ss, t + 1, i);
  }

  lemma Live5(ss: seq<Stmt>, s: nat, m: nat, a: nat, t: nat, i: nat)
    requires s < m < a < t < i < |ss| && AllNops(ss, s + 1, m) && AllNops(ss, m + 1, a) && AllNops(ss, a + 1, t) && AllNops(ss, t + 1, i)
    ensures Live(ss) == Live(ss[..s]) +
      (LiveOne(ss[s]) + (LiveOne(ss[m]) + (LiveOne(ss[a]) + (LiveOne(ss[t]) + (LiveOne(ss[i]) + Live(ss[i + 1..]))))))
  {
    hide Live, LiveOne, AllNops;
    Live4(ss, s, m, a, t);
    LiveNext(ss, t + 1, i);
  }

  // ----- opt_peep's loop -----

  /** Two adjacent statements rewritten; which, depends on what they are. */
  function PairOf(ss: seq<Stmt>, s: nat, next: nat): (ss': seq<Stmt>)
    requires s < next < |ss| && !ss[s].op.Nop? && !ss[next].op.Nop?
    ensures |ss'| == |ss| && !ss'[s].op.Nop? && !ss'[next].op.Nop?
    ensures forall k | 0 <= k < |ss| && k != s && k != next :: ss'[k] == ss[k]
    ensures ss'[s].op.LdImm? ==> ss'[s] == ss[s] && ss'[next] == ss[next]
    ensures ss'[next] == ss[next] || !ss'[next].op.LdImm?
  {
    var ss1 := if ss[s].op.St? && ss[next].op.LdxMem? && ss[s].k == ss[next].k then ss[next := ss[next].(op := Tax)] else ss;
    if ss1[s].op.LdImm? && ss1[next].op.Tax? then ss1[s := ss1[s].(op := LdxImm)][next := ss1[next].(op := Txa)] else ss1
  }

  method PeepPair(ss: seq<Stmt>, s: nat, next: nat) returns (ss': seq<Stmt>)
    requires s < next < |ss| && !ss[s].op.Nop? && !ss[next].op.Nop?
    ensures ss' == PairOf(ss, s, next)
  {
    ss' := ss;
    if ss'[s].op.St? && ss'[next].op.LdxMem? && ss'[s].k == ss'[next].k {
      ss' := ss'[next := ss'[next].(op := Tax)];
    }
    if ss'[s].op.LdImm? && ss'[next].op.Tax? {
      ss' := ss'[s := ss'[s].(op := LdxImm)][next := ss'[next].(op := Txa)];
    }
  }

  /** What a pair is rewritten to. */
  ghost function PairLeft(a: Stmt, b: Stmt): seq<Stmt> {
    if a.op.St? && b.op.LdxMem? && a.k == b.k then [a, b.(op := Tax)]
    else if a.op.LdImm? && b.op.Tax? then [a.(op := LdxImm), b.(op := Txa)] else [a, b]
  }

  lemma PairLists(ss: seq<Stmt>, s: nat, next: nat)
    requires s < next < |ss| && AllNops(ss, s + 1, next) && !ss[s].op.Nop? && !ss[next].op.Nop?
    ensures Live(ss) == Live(ss[..s]) + ([ss[s], ss[next]] + Live(ss[next + 1..]))
    ensures Live(PairOf(ss, s, next)) == Live(ss[..s]) + (PairLeft(ss[s], ss[next]) + Live(ss[next + 1..]))
  {
    var ss' := PairOf(ss, s, next);
    assert ss'[..s] == ss[..s] && ss'[next + 1..] == ss[next + 1..];
    assert AllNops(ss', s + 1, next);
    assert [ss'[s], ss'[next]] == PairLeft(ss[s], ss[next]);
    hide Live, AllNops, PairOf, PairLeft;
    Live2(ss, s, next);
    Pair(ss[s], ss[next], Live(ss[..s]), Live(ss[next + 1..]));
    Live2(ss', s, next);
    Pair(ss'[s], ss'[next], Live(ss[..s]), Live(ss[next + 1..]));
  }

  /** Rewriting a pair stands for the pair. */
  lemma PairPeeped(l0: seq<Stmt>, ss: seq<Stmt>, s: nat, next: nat, need: bool)
    requires s < next < |ss| && AllNops(ss, s + 1, next) && !ss[s].op.Nop? && !ss[next].op.Nop?
    requires Peeped(l0, Live(ss), need)
    ensures Peeped(l0, Live(PairOf(ss, s, next)), need)
  {
    hide Live, Peeped, AllNops, PairOf, WindowOk;
    PairLists(ss, s, next);
    var a, b, q := ss[s], ss[next], Live(ss[next + 1..]);
    if a.op.St? && b.op.LdxMem? && a.k == b.k {
      StoreLoadWindow(a, b, q, need);
      PeepedWindow(l0, Live(ss[..s]), [a, b], PairLeft(a, b), q, need);
    } else if a.op.LdImm? && b.op.Tax? {
      ImmediateWindow(a, b, q, need);
      PeepedWindow(l0, Live(ss[..s]), [a, b], PairLeft(a, b), q, need);
    }
  }

  lemma Pair(a: Stmt, b: Stmt, p: seq<Stmt>, q: seq<Stmt>)
    requires !a.op.Nop? && !b.op.Nop?
    ensures p + (LiveOne(a) + (LiveOne(b) + q)) == p + ([a, b] + q)
  {
    assert [a] + ([b] + q) == [a, b] + q;
  }

  /** What follows the pair keeps to the condition on fusions. */
  lemma PairFree(ss: seq<Stmt>, last: nat, s: nat, next: nat, need: bool)
    requires last <= s < next < |ss| && AllNops(ss, last, s) && AllNops(ss, s + 1, next) && !ss[s].op.Nop? && !ss[next].op.Nop?
    requires XFree(Live(ss[last..]), need)
    ensures XFree(Live(ss[s..]), need) && XFree(Live(PairOf(ss, s, next)[next..]), need)
  {
    hide Live, XFree, PairOf, AllNops;
    var ss' := PairOf(ss, s, next);
    var q := Live(ss[next + 1..]);
    SuffixPair(ss, last, s, next);
    SuffixPair(ss, s, s, next);
    assert ss'[next + 1..] == ss[next + 1..];
    LiveFrom(ss', next, next);
    FreeRest(ss[s], ss[next], ss'[next], q, need);
  }

  lemma SuffixPair(ss: seq<Stmt>, last: nat, s: nat, next: nat)
    requires last <= s < next < |ss| && AllNops(ss, last, s) && AllNops(ss, s + 1, next) && !ss[s].op.Nop? && !ss[next].op.Nop?
    ensures AllNops(ss, s, s) && AllNops(PairOf(ss, s, next), next, next)
    ensures Live(ss[last..]) == [ss[s]] + ([ss[next]] + Live(ss[next + 1..]))
  {
    LiveFrom(ss, last, s);
    LiveFrom(ss, s + 1, next);
    hide Live, PairOf;
  }

  /** Dropping the first statement, or rewriting the second to one that is not a load of a constant. */
  lemma FreeRest(a: Stmt, b: Stmt, b': Stmt, q: seq<Stmt>, need: bool)
    requires XFree([a] + ([b] + q), need) && (b' == b || !b'.op.LdImm?)
    ensures XFree([b'] + q, need)
  {
    FreeCons(a, [b] + q, need);
    FreeCons(b, q, need);
    FreeCons(b', q, need);
  }

  /** The indices of the statements of a fusion; without a header load, it has none. */
  datatype Site = NoSite | Site(header: bool, add: nat, tax: nat, ild: nat)

  ghost predicate SiteOk(ss: seq<Stmt>, s: nat, next: nat, w: Site) {
    w.Site? ==>
      && s < next <= w.add < w.tax < w.ild < |ss| && (w.header <==> next < w.add)
      && ss[s].op.LdImm? && ss[w.add].op == Alu(Add, X) && ss[w.tax].op.Tax? && ss[w.ild].op.LdInd?
      && AllNops(ss, s + 1, next) && (w.header ==> ss[next].op.LdxMsh? && AllNops(ss, next + 1, w.add))
      && AllNops(ss, w.add + 1, w.tax) && AllNops(ss, w.tax + 1, w.ild)
  }

  /** The sequence that can be fused, if there is one. */
  function SiteAt(ss: seq<Stmt>, s: nat, next: nat): (w: Site)
    requires s < next < |ss|
    ensures AllNops(ss, s + 1, next) && ss[s].op.LdImm? && !ss[next].op.Nop? ==> SiteOk(ss, s, next, w)
    ensures w.Site? ==> s < w.add < |ss| && w.tax < |ss| && w.ild < |ss|
  {
    var add := if ss[next].op.LdxMsh? then NextLive(ss, next + 1) else next;
    if add == |ss| || ss[add].op != Alu(Add, X) then NoSite
    else
      var tax := NextLive(ss, add + 1);
      if tax == |ss| || !ss[tax].op.Tax? then NoSite
      else
        var ild := NextLive(ss, tax + 1);
        if ild == |ss| || !ss[ild].op.LdInd? then NoSite else Site(next < add, add, tax, ild)
  }

  /** Look for the sequence that can be fused. */
  method FindSite(ss: seq<Stmt>, s: nat, next: nat) returns (w: Site)
    requires s < next < |ss|
    ensures w == SiteAt(ss, s, next)
  {
    var add := next;
    if ss[next].op.LdxMsh? {
      add := ThisOp(ss, next + 1);
    }
    if add == |ss| || ss[add].op != Alu(Add, X) { return NoSite; }
    var tax := ThisOp(ss, add + 1);
    if tax == |ss| || !ss[tax].op.Tax? { return NoSite; }
    var ild := ThisOp(ss, tax + 1);
    if ild == |ss| || !ss[ild].op.LdInd? { return NoSite; }
    return Site(next < add, add, tax, ild);
  }

  function Fused(ss: seq<Stmt>, s: nat, w: Site): seq<Stmt>
    requires w.Site? && s < w.add < |ss| && w.tax < |ss| && w.ild < |ss|
  {
    ss[w.ild := ss[w.ild].(k := Wrap(ss[w.ild].k + ss[s].k))][s := Gone(ss[s])][w.add := Gone(ss[w.add])][w.tax := Gone(ss[w.tax])]
  }

  /** The statements of a sequence that can be fused, and what follows them. */
  ghost function RunOf(ss: seq<Stmt>, s: nat, next: nat, w: Site): seq<Stmt>
    requires w.Site? && SiteOk(ss, s, next, w)
  {
    if w.header then [ss[s], ss[next], ss[w.add], ss[w.tax], ss[w.ild]] else [ss[s], ss[w.add], ss[w.tax], ss[w.ild]]
  }

  /** What the fusion makes of them. */
  ghost function LeftOf(ss: seq<Stmt>, s: nat, next: nat, w: Site): seq<Stmt>
    requires w.Site? && SiteOk(ss, s, next, w)
  {
    var ild := ss[w.ild].(k := Wrap(ss[w.ild].k + ss[s].k));
    if w.header then [ss[next], ild] else [ild]
  }

  /** The list with the sequence fused, statement by statement. */
  lemma FusedAt(ss: seq<Stmt>, s: nat, next: nat, w: Site)
    requires w.Site? && SiteOk(ss, s, next, w)
    ensures var tt := Fused(ss, s, w);
      && |tt| == |ss| && tt[..s] == ss[..s] && tt[w.ild + 1..] == ss[w.ild + 1..]
      && LiveOne(tt[s]) == [] && LiveOne(tt[w.add]) == [] && LiveOne(tt[w.tax]) == []
      && tt[w.ild] == ss[w.ild].(k := Wrap(ss[w.ild].k + ss[s].k)) && LiveOne(tt[w.ild]) == [tt[w.ild]]
      && (w.header ==> tt[next] == ss[next] && LiveOne(ss[next]) == [ss[next]])
      && LiveOne(ss[s]) == [ss[s]] && LiveOne(ss[w.add]) == [ss[w.add]] && LiveOne(ss[w.tax]) == [ss[w.tax]]
      && LiveOne(ss[w.ild]) == [ss[w.ild]]
  {
  }

  lemma FusedNops(ss: seq<Stmt>, s: nat, next: nat, w: Site)
    requires w.Site? && SiteOk(ss, s, next, w)
    ensures var tt := Fused(ss, s, w);
      && AllNops(tt, s + 1, next) && AllNops(tt, w.add + 1, w.tax) && AllNops(tt, w.tax + 1, w.ild)
      && (w.header ==> AllNops(tt, next + 1, w.add) && AllNops(tt, next, next) && AllNops(tt, next + 1, w.ild))
      && (!w.header ==> AllNops(tt, next, w.ild))
  {
  }

  lemma PlainLists(ss: seq<Stmt>, s: nat, next: nat, w: Site)
    requires w.Site? && SiteOk(ss, s, next, w) && !w.header
    ensures var q := Live(ss[w.ild + 1..]);
      && Live(ss) == Live(ss[..s]) + (RunOf(ss, s, next, w) + q)
      && Live(Fused(ss, s, w)) == Live(ss[..s]) + (LeftOf(ss, s, next, w) + q)
  {
    hide Live, LiveOne, Fused, AllNops;
    var tt := Fused(ss, s, w);
    FusedAt(ss, s, next, w);
    FusedNops(ss, s, next, w);
    Live4(ss, s, w.add, w.tax, w.ild);
    Live4(tt, s, w.add, w.tax, w.ild);
    Four(ss[s], ss[w.add], ss[w.tax], ss[w.ild], tt[w.ild], Live(ss[w.ild + 1..]));
  }

  lemma Four(a: Stmt, b: Stmt, c: Stmt, d: Stmt, d': Stmt, q: seq<Stmt>)
    ensures [a] + ([b] + ([c] + ([d] + q))) == [a, b, c, d] + q
    ensures [] + ([] + ([] + ([d'] + q))) == [d'] + q
  {
  }

  lemma HeaderLists(ss: seq<Stmt>, s: nat, next: nat, w: Site)
    requires w.Site? && SiteOk(ss, s, next, w) && w.header
    ensures var q := Live(ss[w.ild + 1..]);
      && Live(ss) == Live(ss[..s]) + (RunOf(ss, s, next, w) + q)
      && Live(Fused(ss, s, w)) == Live(ss[..s]) + (LeftOf(ss, s, next, w) + q)
  {
    hide Live, LiveOne, Fused, AllNops;
    var tt := Fused(ss, s, w);
    FusedAt(ss, s, next, w);
    FusedNops(ss, s, next, w);
    Live5(ss, s, next, w.add, w.tax, w.ild);
    Live5(tt, s, next, w.add, w.tax, w.ild);
    Five(ss[s], ss[next], ss[w.add], ss[w.tax], ss[w.ild], tt[w.ild], Live(ss[w.ild + 1..]));
  }

  lemma Five(a: Stmt, m: Stmt, b: Stmt, c: Stmt, d: Stmt, d': Stmt, q: seq<Stmt>)
    ensures [a] + ([m] + ([b] + ([c] + ([d] + q)))) == [a, m, b, c, d] + q
    ensures [] + ([m] + ([] + ([] + ([d'] + q)))) == [m, d'] + q
  {
  }

  /** What follows the fused sequence, from `next` on. */
  lemma FusedFrom(ss: seq<Stmt>, s: nat, next: nat, w: Site)
    requires w.Site? && SiteOk(ss, s, next, w)
    ensures Live(Fused(ss, s, w)[next..]) == LeftOf(ss, s, next, w) + Live(ss[w.ild + 1..])
  {
    hide Live, LiveOne, Fused, AllNops;
    FusedAt(ss, s, next, w);
    FusedNops(ss, s, next, w);
    LeftAfter(Fused(ss, s, w), ss, next, w);
  }

  lemma LeftAfter(tt: seq<Stmt>, ss: seq<Stmt>, next: nat, w: Site)
    requires w.Site? && next <= w.ild < |tt| == |ss| && tt[w.ild + 1..] == ss[w.ild + 1..] && LiveOne(tt[w.ild]) == [tt[w.ild]]
    requires if w.header then next < w.ild && AllNops(tt, next, next) && AllNops(tt, next + 1, w.ild) && LiveOne(tt[next]) == [tt[next]]
             else AllNops(tt, next, w.ild)
    ensures Live(tt[next..]) == (if w.header then [tt[next], tt[w.ild]] else [tt[w.ild]]) + Live(ss[w.ild + 1..])
  {
    hide Live, LiveOne, AllNops;
    if w.header {
      TwoFrom(tt, next, w.ild);
    } else {
      LiveFrom(tt, next, w.ild);
    }
  }

  lemma TwoFrom(tt: seq<Stmt>, i: nat, j: nat)
    requires i < j < |tt| && AllNops(tt, i, i) && AllNops(tt, i + 1, j)
    requires LiveOne(tt[i]) == [tt[i]] && LiveOne(tt[j]) == [tt[j]]
    ensures Live(tt[i..]) == [tt[i], tt[j]] + Live(tt[j + 1..])
  {
    hide Live, LiveOne, AllNops;
    LiveFrom(tt, i, i);
    LiveFrom(tt, i + 1, j);
    TwoCons(tt[i], tt[j], Live(tt[j + 1..]));
  }

  lemma TwoCons(a: Stmt, b: Stmt, q: seq<Stmt>)
    ensures [a] + ([b] + q) == [a, b] + q
  {
  }

  lemma RunFrom(ss: seq<Stmt>, s: nat, next: nat, w: Site)
    requires w.Site? && SiteOk(ss, s, next, w)
    ensures Live(ss[s..]) == RunOf(ss, s, next, w) + Live(ss[w.ild + 1..])
  {
    LiveSplit(ss, s);
    hide Live, SiteOk, Fused, LeftOf;
    if w.header {
      HeaderLists(ss, s, next, w);
    } else {
      PlainLists(ss, s, next, w);
    }
    SamePrefix(Live(ss[..s]), Live(ss[s..]), RunOf(ss, s, next, w) + Live(ss[w.ild + 1..]));
  }

  lemma SamePrefix(p: seq<Stmt>, q: seq<Stmt>, q': seq<Stmt>)
    requires p + q == p + q'
    ensures q == q'
  {
    assert (p + q)[|p|..] == q && (p + q')[|p|..] == q';
  }

  lemma RunIsRun(ss: seq<Stmt>, s: nat, next: nat, w: Site)
    requires w.Site? && SiteOk(ss, s, next, w)
    ensures RunLength(RunOf(ss, s, next, w)) == |RunOf(ss, s, next, w)| > 0 && RunOf(ss, s, next, w)[0] == ss[s]
  {
  }

  /** A fusion stands for the sequence it is made from. */
  lemma FusePeeped(l0: seq<Stmt>, ss: seq<Stmt>, s: nat, next: nat, w: Site, need: bool)
    requires w.Site? && SiteOk(ss, s, next, w) && Peeped(l0, Live(ss), need) && XFree(Live(ss[s..]), need)
    ensures Peeped(l0, Live(Fused(ss, s, w)), need)
  {
    hide Live, Peeped, XFree, ReadsX, RunLength, Fused, WindowOk, AllNops;
    var q := Live(ss[w.ild + 1..]);
    RunFrom(ss, s, next, w);
    RunIsRun(ss, s, next, w);
    RunAhead(RunOf(ss, s, next, w), q, need);
    if w.header {
      HeaderLists(ss, s, next, w);
      HeaderFusionWindow(ss[s], ss[next], ss[w.add], ss[w.tax], ss[w.ild], q, need);
    } else {
      PlainLists(ss, s, next, w);
      FusionWindow(ss[s], ss[w.add], ss[w.tax], ss[w.ild], q, need);
    }
    PeepedWindow(l0, Live(ss[..s]), RunOf(ss, s, next, w), LeftOf(ss, s, next, w), q, need);
  }

  /** What follows a fusion keeps to the condition on fusions. */
  lemma FusedFree(ss: seq<Stmt>, s: nat, next: nat, w: Site, need: bool)
    requires w.Site? && SiteOk(ss, s, next, w) && XFree(Live(ss[s..]), need)
    ensures XFree(Live(Fused(ss, s, w)[next..]), need)
  {
    hide Live, XFree, ReadsX, RunLength, Fused, AllNops;
    var q := Live(ss[w.ild + 1..]);
    RunFrom(ss, s, next, w);
    RunIsRun(ss, s, next, w);
    RunAhead(RunOf(ss, s, next, w), q, need);
    FusedFrom(ss, s, next, w);
    var ild := ss[w.ild].(k := Wrap(ss[w.ild].k + ss[s].k));
    FreeCons(ild, q, need);
    if w.header {
      FreeCons(ss[next], [ild] + q, need);
      assert [ss[next]] + ([ild] + q) == [ss[next], ild] + q;
    }
  }

  lemma FusedShape(ss: seq<Stmt>, s: nat, next: nat, w: Site)
    requires w.Site? && SiteOk(ss, s, next, w) && Tame(ss)
    ensures var tt := Fused(ss, s, w);
      && |tt| == |ss| && Tame(tt) && (tt[next].op.Nop? ==> BeforeLoad(tt, next))
  {
    var tt := Fused(ss, s, w);
    if !w.header {
      assert AllNops(tt, next, w.ild) && tt[w.ild].op.LdInd?;
    }
    forall x | x in tt
      ensures InScratch(x)
    {
      var k :| 0 <= k < |tt| && tt[k] == x;
      assert InScratch(ss[k]);
    }
  }

  /** The last live statement, or a deleted one in an empty list. */
  function LastOf(ss: seq<Stmt>): Stmt {
    if ss == [] then NOP else ss[|ss| - 1]
  }

  /** The statement opt_peep takes for the last one: a single statement behind deleted ones is overlooked. */
  function LastSeen(ss: seq<Stmt>): Stmt {
    if |Live(ss)| >= 2 || (ss != [] && !ss[0].op.Nop?) then LastOf(Live(ss)) else NOP
  }

  function AluOf(s: Stmt): seq<Stmt> { if s.op.Alu? then [s] else [] }

  /** The only live statement from `last` on is s. */
  lemma LastAluIs(ss: seq<Stmt>, s: nat)
    requires s < |ss| && !ss[s].op.Nop? && AllNops(ss, s + 1, |ss|)
    ensures LastAlu(Live(ss)) == AluOf(ss[s]) && Live(ss) != [] && LastOf(Live(ss)) == ss[s]
  {
    LiveSplit(ss, s);
    LiveFrom(ss, s, s);
    LiveFrom(ss, s + 1, |ss|);
    assert Live(ss) == Live(ss[..s]) + [ss[s]];
  }

  lemma OneLive(ss: seq<Stmt>, s: nat)
    requires s < |ss| && AllNops(ss, 0, s) && AllNops(ss, s + 1, |ss|) && !ss[s].op.Nop?
    ensures Live(ss) == [ss[s]]
  {
    assert ss[0..] == ss;
    LiveFrom(ss, 0, s);
    LiveFrom(ss, s + 1, |ss|);
  }

  lemma NoneLive(ss: seq<Stmt>)
    requires AllNops(ss, 0, |ss|)
    ensures Live(ss) == []
  {
    assert ss[0..] == ss;
    LiveFrom(ss, 0, |ss|);
  }

  lemma TwoLive(ss: seq<Stmt>, s: nat, n: nat)
    requires s < n < |ss| && AllNops(ss, s + 1, n) && !ss[s].op.Nop? && !ss[n].op.Nop?
    ensures |Live(ss)| >= 2
  {
    Live2(ss, s, n);
  }

  /** Behind a deleted statement, the next live one is an indirect load. */
  ghost predicate BeforeLoad(ss: seq<Stmt>, last: nat) {
    exists j | last < j < |ss| :: AllNops(ss, last, j) && ss[j].op.LdInd?
  }

  /** One turn of the loop: the pair is rewritten, and then a sequence that can be fused, unless the index register is used after the block. */
  function PeepStep(ss: seq<Stmt>, s: nat, next: nat, xOut: bool): (ss': seq<Stmt>)
    requires s < next < |ss| && !ss[s].op.Nop? && !ss[next].op.Nop?
    ensures |ss'| == |ss|
  {
    var ss1 := PairOf(ss, s, next);
    if ss1[s].op.LdImm? && !xOut && SiteAt(ss1, s, next).Site? then Fused(ss1, s, SiteAt(ss1, s, next)) else ss1
  }

  /** The list and the last statement the loop leaves, from `last` on. */
  function Peeping(ss: seq<Stmt>, last: nat, xOut: bool): (r: (seq<Stmt>, nat))
    requires last < |ss|
    ensures |r.0| == |ss| && r.1 < |ss|
    decreases |ss| - last
  {
    var s := NextLive(ss, last);
    if s == |ss| then (ss, last)
    else
      var next := NextLive(ss, s + 1);
      if next == |ss| then (ss, last) else Peeping(PeepStep(ss, s, next, xOut), next, xOut)
  }

  lemma PeepingStep(ss: seq<Stmt>, last: nat, xOut: bool)
    requires last < |ss|
    ensures var s := NextLive(ss, last);
      if s == |ss| || NextLive(ss, s + 1) == |ss| then Peeping(ss, last, xOut) == (ss, last)
      else Peeping(ss, last, xOut) == Peeping(PeepStep(ss, s, NextLive(ss, s + 1), xOut), NextLive(ss, s + 1), xOut)
  {
  }

  lemma StepShape(ss: seq<Stmt>, s: nat, next: nat, xOut: bool)
    requires s < next < |ss| && AllNops(ss, s + 1, next) && !ss[s].op.Nop? && !ss[next].op.Nop? && Tame(ss)
    ensures var tt := PeepStep(ss, s, next, xOut); Tame(tt) && (tt[next].op.Nop? ==> BeforeLoad(tt, next))
  {
    var ss1 := PairOf(ss, s, next);
    forall x | x in ss1
      ensures InScratch(x)
    {
      var k :| 0 <= k < |ss1| && ss1[k] == x;
      assert InScratch(ss[k]);
    }
    assert AllNops(ss1, s + 1, next);
    if ss1[s].op.LdImm? && !xOut && SiteAt(ss1, s, next).Site? {
      FusedShape(ss1, s, next, SiteAt(ss1, s, next));
    }
  }

  lemma StepPeeped(l0: seq<Stmt>, ss: seq<Stmt>, last: nat, s: nat, next: nat, xOut: bool, need: bool)
    requires last <= s < next < |ss| && AllNops(ss, last, s) && AllNops(ss, s + 1, next) && !ss[s].op.Nop? && !ss[next].op.Nop? && Tame(ss)
    requires Peeped(l0, Live(ss), need) && (!xOut ==> XFree(Live(ss[last..]), need))
    ensures var tt := PeepStep(ss, s, next, xOut);
      Peeped(l0, Live(tt), need) && (!xOut ==> XFree(Live(tt[next..]), need))
  {
    var ss1 := PairOf(ss, s, next);
    assert AllNops(ss1, s + 1, next);
    hide Live, Peeped, XFree, AllNops;
    PairPeeped(l0, ss, s, next, need);
    if !xOut {
      PairFree(ss, last, s, next, need);
      var w := SiteAt(ss1, s, next);
      if ss1[s].op.LdImm? && w.Site? {
        assert ss1 == ss;
        FusePeeped(l0, ss1, s, next, w, need);
        FusedFree(ss1, s, next, w, need);
      }
    }
  }

  /**
   * The loop of opt_peep: rewrite adjacent statements until the end of the list. With xOut, the index
   * register is used after the block, and nothing is fused. `last` is the last live statement, or a deleted one.
   */
  method PeepStmts(stmts: seq<Stmt>, xOut: bool, ghost need: bool) returns (ss: seq<Stmt>, last: nat)
    requires stmts != [] && Tame(stmts)
    ensures |ss| == |stmts| && Tame(ss) && last < |ss| && (ss, last) == Peeping(stmts, 0, xOut)
    ensures (!xOut ==> XFree(Live(stmts), need)) ==> Peeped(Live(stmts), Live(ss), need)
    ensures !ss[last].op.Nop? ==> AllNops(ss, last + 1, |ss|)
    ensures (!xOut ==> XFree(Live(stmts), need)) ==> AluOf(ss[last]) == AluOf(LastSeen(stmts))
  {
    hide Live, Peeped, XFree, LastSeen, Peeping, NextLive, PairOf, SiteAt, Fused, AllNops, BeforeLoad, AluOf, Tame;
    ghost var first := true;
    ss, last := stmts, 0;
    ghost var l0 := Live(stmts);
    ghost var ok := !xOut ==> XFree(Live(stmts), need);
    assert stmts[0..] == stmts;
    PeepedStarts(l0, need);
    while true
      invariant |ss| == |stmts| && Tame(ss) && last < |ss| && Peeping(ss, last, xOut) == Peeping(stmts, 0, xOut)
      invariant ok ==> Peeped(l0, Live(ss), need) && (!xOut ==> XFree(Live(ss[last..]), need))
      invariant if first then last == 0 && ss == stmts
                else |Live(stmts)| >= 2 && (ss[last].op.Nop? ==> BeforeLoad(ss, last))
      decreases |stmts| - last
    {
      PeepingStep(ss, last, xOut);
      var s := ThisOp(ss, last);
      var next := s;
      if s < |ss| { next := ThisOp(ss, s + 1); }
      if next == |ss| {
        PeepEnds(stmts, ss, last, s, need, first, ok);
        return;
      }
      if first { TwoLive(stmts, s, next); }
      StepShape(ss, s, next, xOut);
      if ok { StepPeeped(l0, ss, last, s, next, xOut, need); }
      first, last := false, next;
      ss := PeepPair(ss, s, next);
      if ss[s].op.LdImm? && !xOut {
        var w := FindSite(ss, s, next);
        if w.Site? {
          ss := Fused(ss, s, w);
        }
      }
    }
  }

  /** How the loop ends: what it takes for the last statement. */
  lemma PeepEnds(stmts: seq<Stmt>, ss: seq<Stmt>, last: nat, s: nat, need: bool, first: bool, ok: bool)
    requires last < |ss| && AllNops(ss, last, s) && (s < |ss| ==> !ss[s].op.Nop? && AllNops(ss, s + 1, |ss|))
    requires ok ==> Peeped(Live(stmts), Live(ss), need)
    requires if first then last == 0 && ss == stmts
             else |Live(stmts)| >= 2 && (ss[last].op.Nop? ==> BeforeLoad(ss, last))
    ensures !ss[last].op.Nop? ==> AllNops(ss, last + 1, |ss|)
    ensures ok ==> AluOf(ss[last]) == AluOf(LastSeen(stmts))
  {
    hide Live, StandsFor, XFree;
    if first {
      if s < |ss| {
        OneLive(ss, s);
      } else {
        NoneLive(ss);
      }
    } else {
      if s < |ss| {
        LastAluIs(ss, s);
      }
      assert AluOf(LastOf(Live(stmts))) == LastAlu(Live(stmts));
    }
  }

  lemma PeepedStarts(l0: seq<Stmt>, need: bool)
    ensures Peeped(l0, l0, need)
  {
  }

  // ----- What the loop leaves -----

  /** A pair the loop rewrites. */
  predicate PairHere(a: Stmt, b: Stmt) {
    (a.op.St? && b.op.LdxMem? && a.k == b.k) || (a.op.LdImm? && b.op.Tax?)
  }

  ghost predicate NoPairs(ss: seq<Stmt>) {
    forall i | 0 <= i < |ss| - 1 :: !PairHere(ss[i], ss[i + 1])
  }

  lemma NoPairsMore(p: seq<Stmt>, a: Stmt)
    ensures NoPairs(p + [a]) <==> NoPairs(p) && (p == [] || !PairHere(p[|p| - 1], a))
  {
    var q := p + [a];
    assert forall i | 0 <= i < |p| :: q[i] == p[i];
    if NoPairs(q) {
      assert p != [] ==> !PairHere(q[|p| - 1], q[|p| - 1 + 1]);
      forall i | 0 <= i < |p| - 1
        ensures !PairHere(p[i], p[i + 1])
      {
        assert !PairHere(q[i], q[i + 1]);
      }
    }
  }

  /** A live statement after a list all of whose statements from s on are deleted. */
  lemma LiveUpTo(ss: seq<Stmt>, s: nat, j: nat)
    requires s <= j < |ss| && AllNops(ss, s, j) && !ss[j].op.Nop?
    ensures Live(ss[..j + 1]) == Live(ss[..s]) + [ss[j]]
  {
    var u := ss[..j + 1];
    assert u[..s] == ss[..s] && u[j] == ss[j] && u[j + 1..] == [];
    assert AllNops(u, s, j);
    hide AllNops, Live;
    LiveSplit(u, s);
    LiveFrom(u, s, j);
    LiveNothing();
  }

  lemma LiveNothing()
    ensures Live([]) == []
  {
  }

  /** The list up to and including the first live statement from i on. */
  ghost function Through(ss: seq<Stmt>, i: nat): seq<Stmt>
    requires i <= |ss|
  {
    var j := NextLive(ss, i);
    if j < |ss| then ss[..j + 1] else ss
  }

  lemma {:induction false} NextLiveIs(ss: seq<Stmt>, i: nat, j: nat)
    requires i <= j < |ss| && AllNops(ss, i, j) && !ss[j].op.Nop?
    ensures NextLive(ss, i) == j
    decreases j - i
  {
    if i < j {
      NextLiveIs(ss, i + 1, j);
    }
  }

  /** Up to and including the live statement j, when all from s on before it are deleted. */
  lemma ThroughLive(ss: seq<Stmt>, s: nat, i: nat, j: nat)
    requires s <= j < |ss| && i <= j && AllNops(ss, s, j) && AllNops(ss, i, j) && !ss[j].op.Nop?
    ensures Live(Through(ss, i)) == Live(ss[..s]) + [ss[j]]
  {
    NextLiveIs(ss, i, j);
    LiveUpTo(ss, s, j);
    hide Live, AllNops, NextLive;
  }

  /** After a turn of the loop no pair is left up to the next live statement. */
  lemma StepNoPairs(ss: seq<Stmt>, s: nat, next: nat, xOut: bool)
    requires s < next < |ss| && AllNops(ss, s + 1, next) && !ss[s].op.Nop? && !ss[next].op.Nop?
    requires NoPairs(Live(ss[..s]) + [ss[s]])
    ensures NoPairs(Live(Through(PeepStep(ss, s, next, xOut), next)))
  {
    var ss1 := PairOf(ss, s, next);
    var w := SiteAt(ss1, s, next);
    assert ss1[..s] == ss[..s] && AllNops(ss1, s + 1, next);
    hide Live, NoPairs, Through, PairOf, SiteAt, AllNops, Fused;
    NoPairsMore(Live(ss[..s]), ss[s]);
    if ss1[s].op.LdImm? && !xOut && w.Site? {
      FusedNoPairs(ss1, s, next, w);
    } else {
      PairNoPairs(ss, s, next);
    }
  }

  lemma PairNoPairs(ss: seq<Stmt>, s: nat, next: nat)
    requires s < next < |ss| && AllNops(ss, s + 1, next) && !ss[s].op.Nop? && !ss[next].op.Nop?
    requires NoPairs(Live(ss[..s]) + [ss[s]])
    ensures NoPairs(Live(Through(PairOf(ss, s, next), next)))
  {
    var ss1, p := PairOf(ss, s, next), Live(ss[..s]);
    PairAhead(ss, s, next);
    hide Live, NoPairs, PairOf, AllNops, Through;
    LiveUpTo(ss1, s, s);
    ThroughLive(ss1, s + 1, next, next);
    NoPairsTwo(p, ss[s], ss1[s], ss1[next]);
  }

  lemma NoPairsTwo(p: seq<Stmt>, a: Stmt, a': Stmt, b: Stmt)
    requires NoPairs(p + [a]) && !PairHere(a', b) && forall z :: PairHere(z, a') ==> PairHere(z, a)
    ensures NoPairs(p + [a'] + [b])
  {
    hide NoPairs, PairHere;
    NoPairsMore(p, a);
    NoPairsMore(p, a');
    NoPairsMore(p + [a'], b);
  }

  lemma PairAhead(ss: seq<Stmt>, s: nat, next: nat)
    requires s < next < |ss| && AllNops(ss, s + 1, next) && !ss[s].op.Nop? && !ss[next].op.Nop?
    ensures var ss1 := PairOf(ss, s, next);
      && ss1[..s] == ss[..s] && AllNops(ss1, s, s) && AllNops(ss1, s + 1, next) && AllNops(ss1, next, next)
      && !PairHere(ss1[s], ss1[next]) && forall a :: PairHere(a, ss1[s]) ==> PairHere(a, ss[s])
  {
  }

  lemma FusedAhead(ss: seq<Stmt>, s: nat, next: nat, w: Site)
    requires w.Site? && SiteOk(ss, s, next, w)
    ensures var tt, j := Fused(ss, s, w), if w.header then next else w.ild;
      && tt[..s] == ss[..s] && s <= next <= j < |tt| && AllNops(tt, s, j) && AllNops(tt, next, j) && (tt[j].op.LdInd? || tt[j].op.LdxMsh?)
  {
  }

  lemma FusedNoPairs(ss: seq<Stmt>, s: nat, next: nat, w: Site)
    requires w.Site? && SiteOk(ss, s, next, w) && NoPairs(Live(ss[..s]))
    ensures NoPairs(Live(Through(Fused(ss, s, w), next)))
  {
    FusedAhead(ss, s, next, w);
    hide Live, NoPairs, Fused, AllNops, SiteOk, Through;
    var tt, j := Fused(ss, s, w), if w.header then next else w.ild;
    ThroughLive(tt, s, next, j);
    NoPairsMore(Live(ss[..s]), tt[j]);
  }

  /** opt_peep's loop leaves no store and load of one scratch word, and no constant transferred to X, side by side. */
  lemma {:induction false} PeepingLeavesNoPairs(ss: seq<Stmt>, last: nat, xOut: bool)
    requires last < |ss| && NoPairs(Live(Through(ss, last)))
    ensures NoPairs(Live(Peeping(ss, last, xOut).0))
    decreases |ss| - last
  {
    var s := NextLive(ss, last);
    PeepingStep(ss, last, xOut);
    hide Live, NoPairs, Peeping, PeepStep, AllNops, NextLive;
    if s < |ss| {
      var next := NextLive(ss, s + 1);
      NothingBetween(ss, s);
      LiveUpTo(ss, s, s);
      assert ss[..s + 1] == Through(ss, last);
      hide Through;
      if next < |ss| {
        StepNoPairs(ss, s, next, xOut);
        PeepingLeavesNoPairs(PeepStep(ss, s, next, xOut), next, xOut);
      } else {
        LiveEnd(ss, s + 1);
      }
    }
  }

  lemma LiveEnd(ss: seq<Stmt>, i: nat)
    requires i <= |ss| && AllNops(ss, i, |ss|)
    ensures Live(ss) == Live(ss[..i])
  {
    LiveSplit(ss, i);
    LiveFrom(ss, i, |ss|);
    hide Live, AllNops;
  }

  lemma NothingBetween(ss: seq<Stmt>, s: nat)
    requires s <= |ss|
    ensures AllNops(ss, s, s)
  {
  }

  /** From the start of a list. */
  lemma PeepedNoPairs(ss: seq<Stmt>, xOut: bool)
    requires ss != []
    ensures NoPairs(Live(Peeping(ss, 0, xOut).0))
  {
    var j := NextLive(ss, 0);
    if j < |ss| {
      LiveUpTo(ss, 0, j);
    } else {
      NoneLive(ss);
    }
    assert ss[..0] == [];
    PeepingLeavesNoPairs(ss, 0, xOut);
  }

  // ----- The branch -----

  const ONES: Word := 0xffff_ffff

  /** The end of a block: its branch and where that leads. */
  datatype Tail = Tail(s: Branch, jt: Block?, jf: Block?)

  function Target(t: Tail, st: State): Block?
    requires t.s.Jmp?
  {
    if Decide(t.s, st) then t.jt else t.jf
  }

  /** What the value tables know of a register: nothing, or that it holds a constant. */
  datatype Content = Anything | Constant(w: Word)

  ghost predicate Holds(c: Content, w: Word) { c.Constant? ==> c.w == w }

  /** An equality test of the result of a subtraction, or of masking against zero, is made on its operand. */
  function FoldLast(z: Stmt, t: Tail, aOut: bool, x: Content): (r: (bool, Tail))
    requires t.s.Jmp?
    ensures r.1.s.Jmp?
  {
    if !(t.s.test.JEQ? && t.s.src.K?) || aOut then (false, t)
    else if z.op == Alu(Sub, X) then
      if x.Constant? then (true, t.(s := t.s.(k := Wrap(t.s.k + x.w))))
      else if t.s.k == 0 then (true, t.(s := Jmp(JEQ, X, 0)))
      else (false, t)
    else if z.op == Alu(Sub, K) then (true, t.(s := t.s.(k := Wrap(t.s.k + z.k))))
    else if z.op == Alu(AluOp.And, K) && t.s.k == 0 then (true, Tail(Jmp(JSET, K, z.k), t.jf, t.jt))
    else (false, t)
  }

  /** A test for no bits never succeeds; one for all bits is taken to succeed always. */
  function FoldMask(t: Tail): Tail {
    if t.s.Jmp? && t.s.test.JSET? && t.s.src.K? then
      var t1 := if t.s.k == 0 then t.(jt := t.jf) else t;
      if t.s.k == ONES then t1.(jf := t1.jt) else t1
    else t
  }

  /** A comparison with an index register that holds a constant. */
  function FoldX(t: Tail, x: Content): Tail {
    if t.s.Jmp? && t.s.src.X? && x.Constant? then t.(s := Jmp(t.s.test, K, x.w)) else t
  }

  /** A comparison of an accumulator that holds a constant. */
  function FoldA(t: Tail, a: Content): Tail {
    if t.s.Jmp? && t.s.src.K? && a.Constant? then
      if Compare(t.s.test, a.w, t.s.k) then t.(jf := t.jt) else t.(jt := t.jf)
    else t
  }

  lemma SubtractEquals(a: Word, b: Word, k: Word)
    ensures Wrap(a - b) == k <==> a == Wrap(k + b)
  {
  }

  /** Folding the last statement keeps the target, if the statement runs from mid to st. */
  lemma FoldLastRight(z: Stmt, t: Tail, aOut: bool, x: Content, mid: State, st: State, pkt: Packet)
    requires t.s.Jmp? && Exec(z, mid, pkt) == Next(st) && (z.op == Alu(Sub, X) ==> Holds(x, st[X_ATOM]))
    ensures var r := FoldLast(z, t, aOut, x);
      r.0 ==>
        && z.op.Alu? && !aOut && Target(r.1, mid) == Target(t, st)
        && (forall i | 0 <= i < N_ATOMS && i != A_ATOM :: mid[i] == st[i])
        && (r.1.s.test.JSET? ==> st[A_ATOM] == Words.And(mid[A_ATOM], r.1.s.k))
  {
    var r := FoldLast(z, t, aOut, x);
    if r.0 {
      SubtractEquals(mid[A_ATOM], mid[X_ATOM], t.s.k);
      SubtractEquals(mid[A_ATOM], z.k, t.s.k);
      hide Words.And, Wrap;
    }
  }

  /** The test for all bits is taken to succeed although it fails on zero. */
  ghost predicate Trapped(t: Tail, a: Word) {
    t.s == Jmp(JSET, K, ONES) && a == 0 && t.jt != t.jf
  }

  lemma AndZero(a: Word)
    ensures Words.And(a, 0) == 0 && Words.And(0, a) == 0 && Words.And(a, ONES) == a
  {
    Pow2Is32();
    AndAllOnes(a, 32);
  }

  /** FoldMask keeps the target exactly when it is not trapped. */
  lemma FoldMaskRight(t: Tail, st: State)
    requires t.s.Jmp?
    ensures FoldMask(t).s == t.s
    ensures Target(FoldMask(t), st) == Target(t, st) <==> !Trapped(t, st[A_ATOM])
    ensures Trapped(t, st[A_ATOM]) ==> FoldMask(t).jt == FoldMask(t).jf
  {
    AndZero(st[A_ATOM]);
    hide Words.And;
  }

  lemma FoldXRight(t: Tail, x: Content, st: State)
    requires t.s.Jmp? && (t.s.src.X? ==> Holds(x, st[X_ATOM]))
    ensures FoldX(t, x).s.Jmp? && Target(FoldX(t, x), st) == Target(t, st)
  {
    hide Compare;
  }

  lemma FoldARight(t: Tail, a: Content, st: State)
    requires t.s.Jmp? && (t.s.src.K? ==> Holds(a, st[A_ATOM]))
    ensures FoldA(t, a).s.Jmp? && Target(FoldA(t, a), st) == Target(t, st)
  {
    hide Compare;
  }

  /** opt_peep on the branch, given its last live statement. */
  function PeepTail(z: Stmt, t: Tail, aOut: bool, a: Content, x: Content): (bool, Tail)
    requires t.s.Jmp?
  {
    var r := FoldLast(z, t, aOut, x);
    (r.0, FoldA(FoldX(FoldMask(r.1), x), a))
  }

  /** The branch's test is for all bits, or becomes one. */
  predicate AllOnes(z: Stmt, s: Branch, aOut: bool) {
    s == Jmp(JSET, K, ONES) || (s == Jmp(JEQ, K, 0) && !aOut && z == Stmt(Alu(AluOp.And, K), ONES))
  }

  /** The rewritten branch, in the state e2 the rewritten statements leave, against the old branch in e1. */
  lemma PeepTailRight(z: Stmt, t: Tail, aOut: bool, a: Content, x: Content, e1: State, e2: State, mid: State, pkt: Packet)
    requires t.s.Jmp? && (t.s.src.X? || z.op == Alu(Sub, X) ==> Holds(x, e1[X_ATOM]))
    requires FoldLast(z, t, aOut, x).0 ==> Exec(z, mid, pkt) == Next(e1) && e2 == mid && a.Anything?
    requires !FoldLast(z, t, aOut, x).0 ==> e2 == e1 && Holds(a, e1[A_ATOM])
    ensures PeepTail(z, t, aOut, a, x).1.s.Jmp?
    ensures Target(PeepTail(z, t, aOut, a, x).1, e2) == Target(t, e1) <==>
      !(AllOnes(z, t.s, aOut) && e1[A_ATOM] == 0 && t.jt != t.jf)
    ensures forall i | 0 <= i < N_ATOMS && (i != A_ATOM || aOut) :: e2[i] == e1[i]
  {
    var r := FoldLast(z, t, aOut, x);
    if r.0 {
      FoldLastRight(z, t, aOut, x, mid, e1, pkt);
    }
    AndZero(e2[A_ATOM]);
    assert Trapped(r.1, e2[A_ATOM]) <==> AllOnes(z, t.s, aOut) && e1[A_ATOM] == 0 && t.jt != t.jf;
    hide Words.And, Compare, Wrap, Exec;
    var t1 := FoldMask(r.1);
    FoldMaskRight(r.1, e2);
    FoldXRight(t1, x, e2);
    var t2 := FoldX(t1, x);
    FoldARight(t2, a, e2);
  }

  // ----- opt_peep -----

  /** The index register is needed at the end of the list: after the block, by the branch, or by a last subtraction. */
  ghost predicate NeedsX(ss: seq<Stmt>, s: Branch, out: set<int>) {
    X_ATOM in out || X_ATOM in BranchUse(s) || (LastAlu(ss) != [] && LastAlu(ss)[0].op == Alu(Sub, X))
  }

  /** What a caller can check first: no fusion loses an index register that is still needed. */
  ghost predicate Fusible(ss: seq<Stmt>, s: Branch, out: set<int>) {
    X_ATOM in out || XFree(Live(ss), NeedsX(Live(ss), s, out))
  }

  /** Arithmetic that is still there at the end of the list does not have a constant result. */
  ghost predicate Unfolded(ss: seq<Stmt>, a: Content) {
    LastAlu(Live(ss)) != [] ==> a.Anything?
  }

  /** Where a block goes from a state, and what it leaves. */
  ghost predicate PeepKeeps(ss: seq<Stmt>, t: Tail, tt: seq<Stmt>, t': Tail, out: set<int>, a: Content, x: Content, st: State, pkt: Packet)
    requires t.s.Jmp?
  {
    var r, r' := ExecAll(ss, st, pkt), ExecAll(tt, st, pkt);
    r.Next? && Holds(a, r.st[A_ATOM]) && Holds(x, r.st[X_ATOM]) ==>
      && r'.Next? && t'.s.Jmp? && Agree(out, r.st, r'.st)
      && (Target(t', r'.st) == Target(t, r.st) <==>
          !(AllOnes(LastSeen(ss), t.s, A_ATOM in out) && r.st[A_ATOM] == 0 && t.jt != t.jf))
  }

  /** The last statement of a list, when it is live and only deleted ones follow. */
  lemma LastLive(ss: seq<Stmt>, last: nat, st: State, pkt: Packet)
    requires last < |ss| && AllNops(ss, last + 1, |ss|) && !ss[last].op.Nop? && ExecAll(ss, st, pkt).Next?
    ensures Live(ss) != [] && LastOf(Live(ss)) == ss[last]
    ensures ExecAll(ss[last := Gone(ss[last])], st, pkt).Next?
    ensures Exec(ss[last], ExecAll(ss[last := Gone(ss[last])], st, pkt).st, pkt) == ExecAll(ss, st, pkt)
  {
    var p, z := Live(ss[..last]), ss[last];
    LiveSplit(ss, last);
    LiveFrom(ss, last, last);
    LiveFrom(ss, last + 1, |ss|);
    assert Live(ss) == p + [z];
    var tt := ss[last := Gone(z)];
    assert tt[..last] == ss[..last] && tt[last + 1..] == ss[last + 1..];
    LiveSplit(tt, last);
    LiveFrom(tt, last, last);
    assert Live(tt) == p;
    ExecLive(ss, st, pkt);
    ExecLive(tt, st, pkt);
    ExecAllConcat(p, [z], st, pkt);
    hide ExecAll, Live;
    if ExecAll(p, st, pkt).Next? {
      ExecOne(z, ExecAll(p, st, pkt).st, pkt);
    }
  }

  /** What follows the rewriting of adjacent statements, from one state. */
  lemma PeepRight(ss: seq<Stmt>, t: Tail, ss1: seq<Stmt>, last: nat, out: set<int>, a: Content, x: Content, st: State, pkt: Packet)
    requires t.s.Jmp? && last < |ss1| && (!ss1[last].op.Nop? ==> AllNops(ss1, last + 1, |ss1|))
    requires StandsFor(Live(ss), Live(ss1), NeedsX(Live(ss), t.s, out)) && LastAlu(Live(ss1)) == LastAlu(Live(ss))
    requires AluOf(ss1[last]) == AluOf(LastSeen(ss)) && Unfolded(ss, a)
    ensures var r := PeepTail(ss1[last], t, A_ATOM in out, a, x);
      PeepKeeps(ss, t, if r.0 then ss1[last := Gone(ss1[last])] else ss1, r.1, out, a, x, st, pkt)
  {
    var z := ss1[last];
    var r := PeepTail(z, t, A_ATOM in out, a, x);
    var ss2 := if r.0 then ss1[last := Gone(z)] else ss1;
    ExecLive(ss, st, pkt);
    ExecLive(ss1, st, pkt);
    var r0, r1 := ExecAll(ss, st, pkt), ExecAll(ss1, st, pkt);
    if r0.Next? && Holds(a, r0.st[A_ATOM]) && Holds(x, r0.st[X_ATOM]) {
      assert EndAlike(ExecAll(Live(ss), st, pkt), ExecAll(Live(ss1), st, pkt), NeedsX(Live(ss), t.s, out));
      if !z.op.Nop? {
        LastAluIs(ss1, last);
      }
      var mid := r1.st;
      if r.0 {
        FoldedIsAlu(z, t, A_ATOM in out, x);
        LastLive(ss1, last, st, pkt);
        mid := ExecAll(ss2, st, pkt).st;
      }
      hide ExecAll, StandsFor, Live;
      PeepTailUse(ss, z, t, out, a, x, r0.st, r1.st, mid, pkt);
    }
  }

  lemma FoldedIsAlu(z: Stmt, t: Tail, aOut: bool, x: Content)
    requires t.s.Jmp? && FoldLast(z, t, aOut, x).0
    ensures z.op.Alu?
  {
  }

  /** From the states the lists leave to where their branches lead. */
  lemma PeepTailUse(ss: seq<Stmt>, z: Stmt, t: Tail, out: set<int>, a: Content, x: Content, e0: State, e1: State, e2: State, pkt: Packet)
    requires t.s.Jmp? && AgreeButX(e0, e1) && (NeedsX(Live(ss), t.s, out) ==> e0[X_ATOM] == e1[X_ATOM])
    requires Holds(a, e0[A_ATOM]) && Holds(x, e0[X_ATOM]) && Unfolded(ss, a) && AluOf(z) == AluOf(LastSeen(ss))
    requires z.op.Alu? ==> LastAlu(Live(ss)) == [z]
    requires if PeepTail(z, t, A_ATOM in out, a, x).0 then z.op.Alu? && Exec(z, e2, pkt) == Next(e1) else e2 == e1
    ensures var t' := PeepTail(z, t, A_ATOM in out, a, x).1;
      && t'.s.Jmp? && Agree(out, e0, e2)
      && (Target(t', e2) == Target(t, e0) <==>
          !(AllOnes(LastSeen(ss), t.s, A_ATOM in out) && e0[A_ATOM] == 0 && t.jt != t.jf))
  {
    hide Live, LastSeen, Exec, FoldLast, FoldMask, FoldX, FoldA, Compare;
    var aOut := A_ATOM in out;
    assert PeepTail(z, t, aOut, a, x).0 == FoldLast(z, t, aOut, x).0;
    SameOnes(z, LastSeen(ss), t.s, aOut);
    assert t.s.src.X? ==> X_ATOM in BranchUse(t.s);
    hide PeepTail;
    PeepTailRight(z, t, aOut, a, x, e1, e2, e2, pkt);
    assert Decide(t.s, e0) == Decide(t.s, e1);
  }

  lemma SameOnes(z: Stmt, z': Stmt, s: Branch, aOut: bool)
    requires AluOf(z) == AluOf(z')
    ensures AllOnes(z, s, aOut) <==> AllOnes(z', s, aOut)
  {
    assert z.op.Alu? ==> AluOf(z)[0] == z;
    assert z'.op.Alu? ==> AluOf(z')[0] == z';
  }

  /** What opt_peep makes of a block: the loop's list, the last statement folded into the branch, and the branch. */
  function PeepedBlock(ss: seq<Stmt>, t: Tail, out: set<int>, a: Content, x: Content): (seq<Stmt>, Tail)
    requires t.s.Jmp?
  {
    if ss == [] then (ss, t)
    else
      var (ss1, last) := Peeping(ss, 0, X_ATOM in out);
      var r := PeepTail(ss1[last], t, A_ATOM in out, a, x);
      (if r.0 then ss1[last := Gone(ss1[last])] else ss1, r.1)
  }

  /**
   * opt_peep. Where no fusion loses the index register and the value tables are right, the block leaves
   * the same live atoms and goes to the same successor, except when it tests for all bits and the
   * accumulator is zero: exactly then it goes the other way.
   */
  method OptPeep(b: Block, table: ValueTable)
    requires b.s.Jmp? && Tame(b.stmts) && table.Valid() && InTable(table.entries, b.val)
    modifies b`stmts, b`s, b`jt, b`jf
    ensures b.s.Jmp? && Tame(b.stmts)
    ensures var ss, t := old(b.stmts), Tail(old(b.s), old(b.jt), old(b.jf));
      var a, x := ContentOf(table.entries, b.val[A_ATOM]), ContentOf(table.entries, b.val[X_ATOM]);
      ss != [] && Fusible(ss, t.s, b.outUse) && Unfolded(ss, a) ==>
        forall st, pkt :: PeepKeeps(ss, t, b.stmts, Tail(b.s, b.jt, b.jf), b.outUse, a, x, st, pkt)
    ensures (b.stmts, Tail(b.s, b.jt, b.jf)) == PeepedBlock(old(b.stmts), Tail(old(b.s), old(b.jt), old(b.jf)), b.outUse,
      ContentOf(table.entries, b.val[A_ATOM]), ContentOf(table.entries, b.val[X_ATOM]))
  {
    hide Live, XFree, LastSeen, Unfolded, NeedsX, Peeping, PeepTail, PeepKeeps, Peeped, Fusible, IsConst, AluOf, AllNops, Tame, ContentOf;
    if b.stmts == [] { return; }
    ghost var ss, t := b.stmts, Tail(b.s, b.jt, b.jf);
    var a := Known(table, b.val[A_ATOM]);
    var x := Known(table, b.val[X_ATOM]);
    var last;
    ghost var need := NeedsX(Live(ss), b.s, b.outUse);
    var ss1;
    ss1, last := PeepStmts(b.stmts, X_ATOM in b.outUse, need);
    b.stmts := ss1;
    PeepBranch(b, last, a, x);
    ghost var r := PeepTail(ss1[last], t, A_ATOM in b.outUse, a, x);
    assert Tail(b.s, b.jt, b.jf) == r.1 && b.stmts == if r.0 then ss1[last := Gone(ss1[last])] else ss1;
    GoneTame(ss1, last);
    PeepRightAll(ss, t, ss1, last, b.outUse, a, x);
  }

  lemma PeepRightAll(ss: seq<Stmt>, t: Tail, ss1: seq<Stmt>, last: nat, out: set<int>, a: Content, x: Content)
    requires t.s.Jmp? && last < |ss1| && (!ss1[last].op.Nop? ==> AllNops(ss1, last + 1, |ss1|))
    requires (X_ATOM !in out ==> XFree(Live(ss), NeedsX(Live(ss), t.s, out))) ==>
      Peeped(Live(ss), Live(ss1), NeedsX(Live(ss), t.s, out)) && AluOf(ss1[last]) == AluOf(LastSeen(ss))
    ensures var r := PeepTail(ss1[last], t, A_ATOM in out, a, x);
      var ss2 := if r.0 then ss1[last := Gone(ss1[last])] else ss1;
      Fusible(ss, t.s, out) && Unfolded(ss, a) ==> forall st, pkt :: PeepKeeps(ss, t, ss2, r.1, out, a, x, st, pkt)
  {
    hide Live, XFree, LastSeen, Unfolded, NeedsX, PeepTail, PeepKeeps, StandsFor, AluOf, AllNops;
    var r := PeepTail(ss1[last], t, A_ATOM in out, a, x);
    var ss2 := if r.0 then ss1[last := Gone(ss1[last])] else ss1;
    if Fusible(ss, t.s, out) && Unfolded(ss, a) {
      forall st, pkt
        ensures PeepKeeps(ss, t, ss2, r.1, out, a, x, st, pkt)
      {
        PeepRight(ss, t, ss1, last, out, a, x, st, pkt);
      }
    }
  }

  /** What a value number says of the register that has it. */
  ghost function ContentOf(es: seq<Triple>, v: nat): Content {
    if IsConst(es, v) then Constant(es[v - 1].v0) else Anything
  }

  method Known(table: ValueTable, v: nat) returns (c: Content)
    requires table.Valid() && v <= |table.entries|
    ensures c == ContentOf(table.entries, v)
  {
    var isConst, k := table.Constant(v);
    c := if isConst then Constant(k) else Anything;
  }

  lemma GoneTame(ss: seq<Stmt>, last: nat)
    requires Tame(ss) && last < |ss|
    ensures Tame(ss[last := Gone(ss[last])])
  {
    forall s | s in ss[last := Gone(ss[last])]
      ensures InScratch(s)
    {
      assert s in ss || s == Gone(ss[last]);
    }
  }

  /** opt_peep after its loop. */
  method PeepBranch(b: Block, last: nat, a: Content, x: Content)
    requires b.s.Jmp? && last < |b.stmts|
    modifies b`stmts, b`s, b`jt, b`jf
    ensures var ss, t := old(b.stmts), Tail(old(b.s), old(b.jt), old(b.jf));
      var r := PeepTail(ss[last], t, A_ATOM in b.outUse, a, x);
      && b.s.Jmp? && Tail(b.s, b.jt, b.jf) == r.1
      && b.stmts == if r.0 then ss[last := Gone(ss[last])] else ss
  {
    PeepLast(b, last, x, Tail(b.s, b.jt, b.jf));
    PeepMask(b);
    PeepIndex(b, x);
    PeepAccumulator(b, a);
  }

  /** An equality test after a subtraction or a mask. */
  method PeepLast(b: Block, last: nat, x: Content, ghost t: Tail)
    requires b.s.Jmp? && last < |b.stmts| && t == Tail(b.s, b.jt, b.jf)
    modifies b`stmts, b`s, b`jt, b`jf
    ensures var r := FoldLast(old(b.stmts[last]), t, A_ATOM in b.outUse, x);
      && Tail(b.s, b.jt, b.jf) == r.1
      && b.stmts == if r.0 then old(b.stmts)[last := Gone(old(b.stmts[last]))] else old(b.stmts)
  {
    var z := b.stmts[last];
    if b.s.test.JEQ? && b.s.src.K? && A_ATOM !in b.outUse {
      if z.op == Alu(Sub, X) {
        if x.Constant? {
          b.s := b.s.(k := Wrap(b.s.k + x.w));
          b.stmts := b.stmts[last := Gone(z)];
        } else if b.s.k == 0 {
          b.stmts := b.stmts[last := Gone(z)];
          b.s := Jmp(JEQ, X, b.s.k);
        }
      } else if z.op == Alu(Sub, K) {
        b.stmts := b.stmts[last := Gone(z)];
        b.s := b.s.(k := Wrap(b.s.k + z.k));
      } else if z.op == Alu(AluOp.And, K) && b.s.k == 0 {
        b.s := Jmp(JSET, K, z.k);
        b.stmts := b.stmts[last := Gone(z)];
        b.jt, b.jf := b.jf, b.jt;
      }
    }
  }

  method PeepMask(b: Block)
    requires b.s.Jmp?
    modifies b`jt, b`jf
    ensures Tail(b.s, b.jt, b.jf) == FoldMask(old(Tail(b.s, b.jt, b.jf)))
  {
    if b.s.test.JSET? && b.s.src.K? {
      if b.s.k == 0 { b.jt := b.jf; }
      if b.s.k == ONES { b.jf := b.jt; }
    }
  }

  method PeepIndex(b: Block, x: Content)
    requires b.s.Jmp?
    modifies b`s
    ensures Tail(b.s, b.jt, b.jf) == FoldX(old(Tail(b.s, b.jt, b.jf)), x)
  {
    if x.Constant? && b.s.src.X? {
      b.s := Jmp(b.s.test, K, x.w);
    }
  }

  method PeepAccumulator(b: Block, a: Content)
    requires b.s.Jmp?
    modifies b`jt, b`jf
    ensures Tail(b.s, b.jt, b.jf) == FoldA(old(Tail(b.s, b.jt, b.jf)), a)
  {
    if a.Constant? && b.s.src.K? {
      if Compare(b.s.test, a.w, b.s.k) {
        b.jf := b.jt;
      } else {
        b.jt := b.jf;
      }
    }
  }

  // ----- Where the conditions are needed -----

  /** A test for all bits becomes unconditional, so a zero accumulator is sent the wrong way. */
  lemma AllOnesGoesWrong(jt: Block, jf: Block, st: State)
    requires jt != jf && st[A_ATOM] == 0
    ensures var t := Tail(Jmp(JSET, K, ONES), jt, jf); Target(t, st) == jf && Target(FoldMask(t), st) == jt
  {
    AndZero(ONES);
  }

  const LOSING: seq<Stmt> := [Stmt(LdImm, 2), Stmt(Alu(Add, X), 0), Stmt(Tax, 0), Stmt(LdInd(B), 0), Stmt(Txa, 0)]
  const LOST: seq<Stmt> := [Stmt(LdInd(B), 2), Stmt(Txa, 0)]

  /** The index register is one, everything else zero. */
  function OneInX(): State { Zeroed()[X_ATOM := 1] }

  lemma LiveCons(a: Stmt, q: seq<Stmt>)
    ensures Live([a] + q) == LiveOne(a) + Live(q)
  {
    assert ([a] + q)[1..] == q;
  }

  /** LOSING after a fusion. */
  const FUSED: seq<Stmt> := [Stmt(Nop, 2), Stmt(Nop, 0), Stmt(Nop, 0), LOST[0], LOST[1]]

  lemma LosingStep()
    ensures NextLive(LOSING, 0) == 0 && NextLive(LOSING, 1) == 1 && PeepStep(LOSING, 0, 1, false) == FUSED
  {
    assert NextLive(LOSING, 2) == 2 && NextLive(LOSING, 3) == 3;
    assert PairOf(LOSING, 0, 1) == LOSING && SiteAt(LOSING, 0, 1) == Site(false, 1, 2, 3);
  }

  lemma FusedSteps()
    ensures NextLive(FUSED, 1) == 3 && NextLive(FUSED, 4) == 4 && NextLive(FUSED, 5) == 5
    ensures PeepStep(FUSED, 3, 4, false) == FUSED
  {
    assert NextLive(FUSED, 3) == 3 && NextLive(FUSED, 2) == 3;
  }

  /** What the loop makes of LOSING. */
  lemma LosingPeeped()
    ensures Peeping(LOSING, 0, false).0 == FUSED
  {
    hide NextLive, PeepStep;
    LosingStep();
    FusedSteps();
    assert Peeping(FUSED, 4, false) == (FUSED, 4);
    assert Peeping(FUSED, 1, false) == Peeping(FUSED, 4, false);
  }

  lemma LiveOfFive(a: Stmt, b: Stmt, c: Stmt, d: Stmt, e: Stmt)
    requires a.op.Nop? && b.op.Nop? && c.op.Nop? && !d.op.Nop? && !e.op.Nop?
    ensures Live([a, b, c, d, e]) == [d, e]
  {
    assert [a, b, c, d, e] == [a] + [b, c, d, e] && [b, c, d, e] == [b] + [c, d, e] && [c, d, e] == [c] + [d, e];
    assert [d, e] == [d] + [e] && [e] == [e] + [];
    LiveCons(a, [b, c, d, e]);
    LiveCons(b, [c, d, e]);
    LiveCons(c, [d, e]);
    LiveCons(d, [e]);
    LiveCons(e, []);
    assert Live([]) == [];
    hide Live;
  }

  lemma LosingReads()
    ensures !XFree(LOSING, false)
  {
    assert RunLength(LOSING) == 4 && LOSING[4..] == [LOSING[4]];
  }

  lemma LosingRuns(pkt: Packet)
    requires |pkt.data| >= 4
    ensures var r := ExecAll(LOSING, OneInX(), pkt); r.Next? && r.st[A_ATOM] == 3
  {
    var a, b, c, d, e := LOSING[0], LOSING[1], LOSING[2], LOSING[3], LOSING[4];
    var st1 := OneInX()[A_ATOM := 2];
    var st2 := st1[A_ATOM := 3];
    var st3 := st2[X_ATOM := 3];
    assert Exec(a, OneInX(), pkt) == Next(st1) && Exec(b, st1, pkt) == Next(st2) && Exec(c, st2, pkt) == Next(st3);
    assert Load(pkt, 3, B) == Val(pkt.data[3]);
    assert Exec(d, st3, pkt) == Next(st3[A_ATOM := pkt.data[3]]);
    assert Exec(e, st3[A_ATOM := pkt.data[3]], pkt) == Next(st3[A_ATOM := pkt.data[3]][A_ATOM := 3]);
    assert LOSING == [a] + ([b] + ([c] + [d, e]));
    hide Exec;
    ExecCons(a, [b] + ([c] + [d, e]), OneInX(), pkt);
    ExecCons(b, [c] + [d, e], st1, pkt);
    ExecCons(c, [d, e], st2, pkt);
    ExecTwo(d, e, st3, pkt);
  }

  lemma LostRuns(pkt: Packet)
    requires |pkt.data| >= 4
    ensures var r := ExecAll(LOST, OneInX(), pkt); r.Next? && r.st[A_ATOM] == 1
  {
    ExecTwo(LOST[0], LOST[1], OneInX(), pkt);
    hide ExecAll;
    assert Load(pkt, 3, B) == Val(pkt.data[3]);
  }

  lemma LostDiffers()
    ensures !StandsFor(LOSING, LOST, false)
  {
    var pkt := Packet([0, 0, 0, 0], 4);
    LosingRuns(pkt);
    LostRuns(pkt);
    hide ExecAll;
    assert !EndAlike(ExecAll(LOSING, OneInX(), pkt), ExecAll(LOST, OneInX(), pkt), false);
  }

  /** opt_peep fuses the first four statements of LOSING, and the index register the fifth reads is lost. */
  lemma FusionLosesIndex()
    ensures Live(Peeping(LOSING, 0, false).0) == LOST
    ensures !XFree(LOSING, false) && !StandsFor(LOSING, LOST, false)
  {
    hide Live, Peeping, XFree, StandsFor;
    LosingPeeped();
    LiveOfFive(Stmt(Nop, 2), Stmt(Nop, 0), Stmt(Nop, 0), LOST[0], LOST[1]);
    LosingReads();
    LostDiffers();
  }
}
