/** Liveness of the machine's registers and scratch words on entry to every block. */
module Liveness {
  import opened Ir
  import opened Flowgraph
  import opened Levels

  // ----- One block -----

  /** What a statement list defines, uses before defining, and defines before using. */
  datatype Ud = Ud(def: set<int>, use: set<int>, kill: set<int>)

  const NONE := Ud({}, {}, {})

  function Use(u: Ud, atoms: set<int>): Ud { u.(use := u.use + (atoms - u.def)) }

  function Define(u: Ud, atom: int): Ud {
    if atom < 0 then u
    else Ud(u.def + {atom}, u.use, if atom in u.use then u.kill else u.kill + {atom})
  }

  function UdAll(u: Ud, ss: seq<Stmt>): Ud
    decreases |ss|
  {
    if ss == [] then u else UdAll(Define(Use(u, AtomUse(ss[0])), AtomDef(ss[0])), ss[1..])
  }

  function LocalUd(ss: seq<Stmt>, s: Branch): Ud { Use(UdAll(NONE, ss), BranchUse(s)) }

  lemma {:induction false} UdGrows(u: Ud, ss: seq<Stmt>)
    ensures u.def <= UdAll(u, ss).def && u.use <= UdAll(u, ss).use
    ensures u.kill <= u.def ==> UdAll(u, ss).kill <= UdAll(u, ss).def
    decreases |ss|
  {
    if ss != [] {
      UdGrows(Define(Use(u, AtomUse(ss[0])), AtomDef(ss[0])), ss[1..]);
    }
  }

  lemma {:induction false} UdSnoc(u: Ud, ss: seq<Stmt>, s: Stmt)
    ensures UdAll(u, ss + [s]) == Define(Use(UdAll(u, ss), AtomUse(s)), AtomDef(s))
    decreases |ss|
  {
    if ss == [] {
      assert ss + [s] == [s] && [s][1..] == [];
    } else {
      assert (ss + [s])[1..] == ss[1..] + [s];
      UdSnoc(Define(Use(u, AtomUse(ss[0])), AtomDef(ss[0])), ss[1..], s);
    }
  }

  /** The atom is defined by one of the statements. */
  ghost predicate Defines(ss: seq<Stmt>, a: int) { exists i | 0 <= i < |ss| :: AtomDef(ss[i]) == a }

  /** The atom is read by a statement before any statement defines it. */
  ghost predicate ReadsFirst(ss: seq<Stmt>, a: int) {
    exists i | 0 <= i < |ss| :: a in AtomUse(ss[i]) && !Defines(ss[..i], a)
  }

  lemma ReadsFirstMore(ss: seq<Stmt>, s: Stmt, a: int)
    ensures Defines(ss + [s], a) <==> Defines(ss, a) || AtomDef(s) == a
    ensures ReadsFirst(ss + [s], a) <==> ReadsFirst(ss, a) || (a in AtomUse(s) && !Defines(ss, a))
  {
    var tt := ss + [s];
    assert tt[|ss|] == s && tt[..|ss|] == ss;
    forall i | 0 <= i < |ss|
      ensures tt[i] == ss[i] && tt[..i] == ss[..i]
    {
    }
    if i :| 0 <= i < |ss| && AtomDef(ss[i]) == a { assert AtomDef(tt[i]) == a; }
    if i :| 0 <= i < |ss| && a in AtomUse(ss[i]) && !Defines(ss[..i], a) { assert a in AtomUse(tt[i]); }
  }

  /** The sets are what they are named for. */
  lemma {:induction false} LocalSets(ss: seq<Stmt>, a: int)
    requires a >= 0
    ensures a in UdAll(NONE, ss).def <==> Defines(ss, a)
    ensures a in UdAll(NONE, ss).use <==> ReadsFirst(ss, a)
    ensures a in UdAll(NONE, ss).kill <==> Defines(ss, a) && !ReadsFirst(ss, a)
    decreases |ss|
  {
    if ss != [] {
      var n := |ss| - 1;
      assert ss == ss[..n] + [ss[n]];
      LocalSets(ss[..n], a);
      UdSnoc(NONE, ss[..n], ss[n]);
      ReadsFirstMore(ss[..n], ss[n], a);
      hide Defines, ReadsFirst, UdAll;
    }
  }

  /** Two outcomes of the same statements: both stop alike, or leave states that agree on some atoms. */
  ghost predicate SameStep(r: Step, r': Step, atoms: set<int>) {
    match (r, r')
    case (Next(st), Next(st')) => Agree(atoms, st, st')
    case _ => r == r' && !r.Next?
  }

  lemma ExecAgree(s: Stmt, atoms: set<int>, st: State, st': State, pkt: Packet)
    requires Agree(atoms, st, st') && forall i | i in AtomUse(s) && 0 <= i < N_ATOMS :: i in atoms
    ensures SameStep(Exec(s, st, pkt), Exec(s, st', pkt), atoms + {AtomDef(s)})
  {
    ValueDependsOnUse(s, st, st', pkt);
  }

  /** Statements run alike from states that agree on what they use; they then agree on what they defined. */
  lemma {:induction false} ExecAllAgree(u: Ud, ss: seq<Stmt>, atoms: set<int>, st: State, st': State, pkt: Packet)
    requires UdAll(u, ss).use <= atoms && Agree(atoms + u.def, st, st')
    ensures SameStep(ExecAll(ss, st, pkt), ExecAll(ss, st', pkt), atoms + UdAll(u, ss).def)
    decreases |ss|
  {
    if ss != [] {
      var u' := Define(Use(u, AtomUse(ss[0])), AtomDef(ss[0]));
      UdGrows(u', ss[1..]);
      ExecAgree(ss[0], atoms + u.def, st, st', pkt);
      var r, r' := Exec(ss[0], st, pkt), Exec(ss[0], st', pkt);
      if r.Next? {
        assert Agree(atoms + u'.def, r.st, r'.st);
        ExecAllAgree(u', ss[1..], atoms, r.st, r'.st, pkt);
      }
    }
  }

  // ----- The graph -----

  /** The atoms whose values on leaving b may still matter. */
  ghost function LiveOut(g: Graph, rank: map<Block, nat>, b: Block): set<int>
    requires Dag(g, rank) && b in g
    decreases rank[b], 0
  {
    if g[b].s.Ret? then {} else LiveIn(g, rank, g[b].jt) + LiveIn(g, rank, g[b].jf)
  }

  ghost function LiveIn(g: Graph, rank: map<Block, nat>, b: Block): set<int>
    requires Dag(g, rank) && b in g
    decreases rank[b], 1
  {
    var u := LocalUd(g[b].stmts, g[b].s);
    u.use + (LiveOut(g, rank, b) - u.kill)
  }

  /** Liveness is sound: from states that agree on what is live, the filter returns the same. */
  lemma {:induction false} LivenessSound(g: Graph, rank: map<Block, nat>, b: Block, st: State, st': State, pkt: Packet)
    requires Dag(g, rank) && b in g && Agree(LiveIn(g, rank, b), st, st')
    ensures Run(g, rank, b, st, pkt) == Run(g, rank, b, st', pkt)
    decreases rank[b]
  {
    var n := g[b];
    var r, r' := ExecAll(n.stmts, st, pkt), ExecAll(n.stmts, st', pkt);
    var live := LiveIn(g, rank, b);
    ExecAllAgree(NONE, n.stmts, live, st, st', pkt);
    UdGrows(NONE, n.stmts);
    if r.Next? && n.s.Jmp? {
      assert BranchUse(n.s) <= live + UdAll(NONE, n.stmts).def;
      BranchDependsOnUse(n.s, r.st, r'.st);
      var c := n.Succ(Decide(n.s, r.st));
      assert LiveIn(g, rank, c) <= LiveOut(g, rank, b);
      assert LocalUd(n.stmts, n.s).kill == UdAll(NONE, n.stmts).kill;
      assert LiveIn(g, rank, c) <= live + UdAll(NONE, n.stmts).def;
      LivenessSound(g, rank, c, r.st, r'.st, pkt);
    }
  }

  /** The block reads the atom before it defines it, in a statement or in its branch. */
  ghost predicate NeedsFirst(n: Node, a: int) {
    ReadsFirst(n.stmts, a) || (a in BranchUse(n.s) && !Defines(n.stmts, a))
  }

  /** On this way through the graph the atom is read before any block of the way defines it. */
  ghost predicate NeededOn(g: Graph, way: seq<Block>, a: int) {
    && way != [] && way[0] in g
    && if |way| == 1 then NeedsFirst(g[way[0]], a)
       else
         && g[way[0]].s.Jmp? && !Defines(g[way[0]].stmts, a) && (way[1] == g[way[0]].jt || way[1] == g[way[0]].jf)
         && NeededOn(g, way[1..], a)
  }

  lemma LiveInOf(n: Node, a: int, out: set<int>)
    requires a >= 0
    ensures var u := LocalUd(n.stmts, n.s); a in u.use + (out - u.kill) <==> NeedsFirst(n, a) || (a in out && !Defines(n.stmts, a))
  {
    LocalSets(n.stmts, a);
    hide UdAll, Defines, ReadsFirst;
  }

  /** An atom that is live on entry to a block is needed on some way from it. */
  lemma {:induction false} LiveIsNeeded(g: Graph, rank: map<Block, nat>, b: Block, a: int) returns (way: seq<Block>)
    requires Dag(g, rank) && b in g && a >= 0 && a in LiveIn(g, rank, b)
    ensures way != [] && way[0] == b && NeededOn(g, way, a)
    decreases rank[b]
  {
    LiveInOf(g[b], a, LiveOut(g, rank, b));
    hide NeedsFirst, Defines, LocalUd;
    if NeedsFirst(g[b], a) {
      way := [b];
    } else {
      var c := if a in LiveIn(g, rank, g[b].jt) then g[b].jt else g[b].jf;
      var rest := LiveIsNeeded(g, rank, c, a);
      way := [b] + rest;
      assert way[1..] == rest;
    }
  }

  lemma {:induction false} NeededIsLive(g: Graph, rank: map<Block, nat>, way: seq<Block>, a: int)
    requires Dag(g, rank) && a >= 0 && NeededOn(g, way, a)
    ensures a in LiveIn(g, rank, way[0])
    decreases |way|
  {
    LiveInOf(g[way[0]], a, LiveOut(g, rank, way[0]));
    hide NeedsFirst, Defines, LocalUd;
    if |way| > 1 {
      NeededIsLive(g, rank, way[1..], a);
    }
  }

  /** Liveness is exact: an atom is live on entry to a block if and only if some way from the block reads it before defining it. */
  lemma LiveInExactly(g: Graph, rank: map<Block, nat>, b: Block, a: int)
    requires Dag(g, rank) && b in g && a >= 0
    ensures a in LiveIn(g, rank, b) <==> exists way :: way != [] && way[0] == b && NeededOn(g, way, a)
  {
    hide LiveIn, NeededOn;
    if a in LiveIn(g, rank, b) {
      var way := LiveIsNeeded(g, rank, b, a);
    }
    if way :| way != [] && way[0] == b && NeededOn(g, way, a) {
      NeededIsLive(g, rank, way, a);
    }
  }

  /** A block that uses nothing it has not itself defined. */
  predicate SelfContained(ss: seq<Stmt>, s: Branch) { LocalUd(ss, s).use == {} }

  /** A self-contained block runs, and decides, alike from every state. */
  lemma SelfContainedDecides(ss: seq<Stmt>, s: Branch, st: State, st': State, pkt: Packet)
    requires SelfContained(ss, s)
    ensures var r, r' := ExecAll(ss, st, pkt), ExecAll(ss, st', pkt);
      && (r.Next? <==> r'.Next?) && (!r.Next? ==> r == r')
      && (r.Next? ==> Agree(UdAll(NONE, ss).def, r.st, r'.st))
      && (r.Next? && s.Jmp? ==> Agree(BranchUse(s), r.st, r'.st) && Decide(s, r.st) == Decide(s, r'.st))
  {
    ExecAllAgree(NONE, ss, {}, st, st', pkt);
    var r, r' := ExecAll(ss, st, pkt), ExecAll(ss, st', pkt);
    assert BranchUse(s) <= UdAll(NONE, ss).def;
    if r.Next? && s.Jmp? {
      BranchDependsOnUse(s, r.st, r'.st);
    }
  }

  lemma {:induction false} UdConcat(u: Ud, ss: seq<Stmt>, tt: seq<Stmt>)
    ensures UdAll(u, ss + tt) == UdAll(UdAll(u, ss), tt)
    decreases |ss|
  {
    if ss == [] {
      assert ss + tt == tt;
    } else {
      assert (ss + tt)[1..] == ss[1..] + tt;
      UdConcat(Define(Use(u, AtomUse(ss[0])), AtomDef(ss[0])), ss[1..], tt);
    }
  }

  /** Whatever is already defined, no more is used, and no less is defined. */
  lemma {:induction false} UdLess(u: Ud, u': Ud, ss: seq<Stmt>)
    requires u'.def <= u.def
    ensures UdAll(u, ss).use <= u.use + UdAll(u', ss).use && UdAll(u', ss).def <= UdAll(u, ss).def
    decreases |ss|
  {
    if ss != [] {
      var u1 := Define(Use(u, AtomUse(ss[0])), AtomDef(ss[0]));
      var u1' := Define(Use(u', AtomUse(ss[0])), AtomDef(ss[0]));
      UdLess(u1, u1', ss[1..]);
      UdGrows(u1', ss[1..]);
    }
  }

  /** Nothing is used that has not been defined. */
  predicate Quiet(ss: seq<Stmt>) {
    UdAll(NONE, ss).use == {} && forall s | s in ss :: !s.op.LdxLen?
  }

  /** Quiet code that defines the atoms. */
  predicate Yields(ss: seq<Stmt>, atoms: set<int>) { Quiet(ss) && atoms <= UdAll(NONE, ss).def }

  lemma YieldsConcat(ss: seq<Stmt>, atoms: set<int>, tt: seq<Stmt>, atoms': set<int>)
    requires Yields(ss, atoms) && Yields(tt, atoms')
    ensures Yields(ss + tt, atoms + atoms')
  {
    UdConcat(NONE, ss, tt);
    UdLess(UdAll(NONE, ss), NONE, tt);
    UdGrows(UdAll(NONE, ss), tt);
    hide UdAll;
  }

  lemma YieldsSnoc(ss: seq<Stmt>, atoms: set<int>, s: Stmt)
    requires Yields(ss, atoms) && AtomUse(s) <= atoms && !s.op.LdxLen? && AtomDef(s) >= 0
    ensures Yields(ss + [s], atoms + {AtomDef(s)})
  {
    UdSnoc(NONE, ss, s);
    hide UdAll;
  }

  lemma YieldsOne(s: Stmt)
    requires AtomUse(s) == {} && !s.op.LdxLen? && AtomDef(s) >= 0
    ensures Yields([s], {AtomDef(s)})
  {
    assert [s] == [] + [s];
    YieldsSnoc([], {}, s);
  }

  /** A block's statements that define what its branch uses make it self-contained. */
  lemma YieldsContained(ss: seq<Stmt>, s: Branch)
    requires Yields(ss, BranchUse(s))
    ensures SelfContained(ss, s) && Quiet(ss)
  {
  }

  /** Every block that can be reached uses only what it has itself defined, so that the state it is entered in does not matter. */
  ghost predicate Contained(g: Graph, reach: set<Block>) {
    reach <= g.Keys && forall b | b in reach :: SelfContained(g[b].stmts, g[b].s)
  }

  ghost predicate AllQuiet(g: Graph, reach: set<Block>) {
    forall b | b in reach && b in g :: Quiet(g[b].stmts)
  }
  // ----- find_ud -----

  /** compute_local_ud. */
  method ComputeLocalUd(b: Block)
    modifies b`def, b`kill, b`inUse
    ensures Ud(b.def, b.inUse, b.kill) == LocalUd(b.stmts, b.s)
  {
    var def, use, kill: set<int> := {}, {}, {};
    for i := 0 to |b.stmts|
      invariant UdAll(Ud(def, use, kill), b.stmts[i..]) == UdAll(NONE, b.stmts)
    {
      var s := b.stmts[i];
      assert b.stmts[i..][1..] == b.stmts[i + 1..];
      use := use + (AtomUse(s) - def);
      var atom := AtomDef(s);
      if atom >= 0 {
        if atom !in use {
          kill := kill + {atom};
        }
        def := def + {atom};
      }
    }
    assert b.stmts[|b.stmts|..] == [];
    if b.s.Jmp? {
      use := use + (BranchUse(b.s) - def);
    }
    b.def, b.kill, b.inUse := def, kill, use;
  }

  /** What find_ud knows about a block. */
  datatype Facts = Facts(def: set<int>, kill: set<int>, inUse: set<int>, outUse: set<int>)

  ghost function FactsOf(blocks: set<Block>): (m: map<Block, Facts>)
    ensures m.Keys == blocks
    reads blocks`def, blocks`kill, blocks`inUse, blocks`outUse
  {
    map b | b in blocks :: Facts(b.def, b.kill, b.inUse, b.outUse)
  }

  function LocalFacts(n: Node): Facts {
    var u := LocalUd(n.stmts, n.s);
    Facts(u.def, u.kill, u.use, {})
  }

  ghost predicate LocallyDone(g: Graph, met: set<Block>, facts: map<Block, Facts>)
    requires met <= g.Keys && g.Keys <= facts.Keys
  {
    forall b | b in met :: facts[b] == LocalFacts(g[b])
  }

  ghost predicate LiveAt(g: Graph, rank: map<Block, nat>, f: Facts, b: Block)
    requires Dag(g, rank) && b in g
  {
    f.inUse == LiveIn(g, rank, b) && f.outUse == LiveOut(g, rank, b)
  }

  /** Blocks met going up have their live sets; the others still have what is local to them. */
  ghost predicate Done(g: Graph, rank: map<Block, nat>, reach: set<Block>, met: set<Block>, facts: map<Block, Facts>)
    requires Dag(g, rank) && reach <= g.Keys && g.Keys <= facts.Keys
  {
    && LocallyDone(g, reach - met, facts)
    && forall b | b in reach && b in met :: LiveAt(g, rank, facts[b], b)
  }

  lemma DoneLeaves(g: Graph, rank: map<Block, nat>, reach: set<Block>, met: set<Block>, facts: map<Block, Facts>)
    requires Dag(g, rank) && reach <= g.Keys && g.Keys <= facts.Keys && LocallyDone(g, reach, facts)
    requires met <= reach && forall b | b in met :: g[b].s.Ret?
    ensures Done(g, rank, reach, met, facts)
  {
    forall b | b in met
      ensures LiveAt(g, rank, facts[b], b)
    {
      assert facts[b] == LocalFacts(g[b]);
      assert LiveOut(g, rank, b) == {};
    }
    hide LiveAt, LocalFacts, Dag;
  }

  /** The two statements of find_ud's second sweep. */
  function Propagated(u: Facts, t: Facts, f: Facts): Facts {
    var out := u.outUse + (t.inUse + f.inUse);
    u.(outUse := out, inUse := u.inUse + (out - u.kill))
  }

  lemma DoneStep(g: Graph, rank: map<Block, nat>, reach: set<Block>, met: set<Block>, facts: map<Block, Facts>, b: Block)
    requires Dag(g, rank) && reach <= g.Keys && g.Keys <= facts.Keys && Done(g, rank, reach, met, facts)
    requires b in reach && b !in met && g[b].s.Jmp?
    requires g[b].jt in reach && g[b].jf in reach && g[b].jt in met && g[b].jf in met
    ensures Done(g, rank, reach, met + {b}, facts[b := Propagated(facts[b], facts[g[b].jt], facts[g[b].jf])])
  {
    assert b in reach - met;
    assert LiveAt(g, rank, facts[g[b].jt], g[b].jt) && LiveAt(g, rank, facts[g[b].jf], g[b].jf);
    PropagatedLive(g, rank, b, facts[g[b].jt], facts[g[b].jf]);
    hide LiveAt, Dag, Propagated, LocalFacts;
  }

  lemma PropagatedLive(g: Graph, rank: map<Block, nat>, b: Block, t: Facts, f: Facts)
    requires Dag(g, rank) && b in g && g[b].s.Jmp? && LiveAt(g, rank, t, g[b].jt) && LiveAt(g, rank, f, g[b].jf)
    ensures LiveAt(g, rank, Propagated(LocalFacts(g[b]), t, f), b)
  {
  }

  method InitFacts(p: Block, ghost blocks: set<Block>)
    requires p in blocks
    modifies p`def, p`kill, p`inUse, p`outUse
    ensures FactsOf(blocks) == old(FactsOf(blocks))[p := LocalFacts(Node(p.stmts, p.s, p.jt, p.jf))]
  {
    ComputeLocalUd(p);
    p.outUse := {};
  }

  method Propagate(p: Block, ghost blocks: set<Block>)
    requires p in blocks && p.jt in blocks && p.jf in blocks && p.jt != p && p.jf != p
    modifies p`inUse, p`outUse
    ensures var facts := old(FactsOf(blocks));
      FactsOf(blocks) == facts[p := Propagated(facts[p], facts[p.jt], facts[p.jf])]
  {
    p.outUse := p.outUse + (p.jt.inUse + p.jf.inUse);
    p.inUse := p.inUse + (p.outUse - p.kill);
  }

  /** find_ud's first sweep, down the levels. */
  method LocalSweep(root: Block, levels: array<seq<Block>>, ghost g: Graph, ghost rank: map<Block, nat>)
    requires g == Snap(g.Keys) && Dag(g, rank) && root in g && Levelled(g, rank, root, levels[..])
    requires root.level == Height(g, rank, root)
    modifies g.Keys`def, g.Keys`kill, g.Keys`inUse, g.Keys`outUse
    ensures LocallyDone(g, Reach(g, rank, root), FactsOf(g.Keys))
  {
    hide Dag, Reach, Levelled, Met, Height, FactsOf, LocalFacts;
    ghost var lv := levels[..];
    RootFits(g, rank, root, lv);
    MetSteps(g, rank, root, lv, root.level);
    var i := root.level + 1;
    while i > 0
      invariant 0 <= i <= Height(g, rank, root) + 1 && g == Snap(g.Keys)
      invariant Met(g, rank, root, lv, i - 1, 0) <= g.Keys && LocallyDone(g, Met(g, rank, root, lv, i - 1, 0), FactsOf(g.Keys))
    {
      i := i - 1;
      var k := 0;
      while k < |levels[i]|
        invariant 0 <= k <= |levels[i]| && g == Snap(g.Keys)
        invariant Met(g, rank, root, lv, i, k) <= g.Keys && LocallyDone(g, Met(g, rank, root, lv, i, k), FactsOf(g.Keys))
      {
        NextDown(g, rank, root, lv, i, k);
        InitFacts(levels[i][k], g.Keys);
        k := k + 1;
      }
      MetSteps(g, rank, root, lv, i);
    }
    MetSteps(g, rank, root, lv, -1);
  }

  /** find_ud: local sets down the levels, then live sets up the levels. */
  method FindUd(root: Block, levels: array<seq<Block>>, ghost g: Graph, ghost rank: map<Block, nat>)
    requires g == Snap(g.Keys) && Dag(g, rank) && root in g && Levelled(g, rank, root, levels[..])
    requires root.level == Height(g, rank, root)
    modifies g.Keys`def, g.Keys`kill, g.Keys`inUse, g.Keys`outUse
    ensures forall b | b in Reach(g, rank, root) :: b.inUse == LiveIn(g, rank, b) && b.outUse == LiveOut(g, rank, b)
  {
    hide Dag, Levelled, MetUp, Height, FactsOf, LocallyDone, Done, Reach;
    ghost var lv, reach := levels[..], Reach(g, rank, root);
    LocalSweep(root, levels, g, rank);
    RootFits(g, rank, root, lv);
    MetUpSteps(g, rank, root, lv, 1);
    DoneLeaves(g, rank, reach, MetUp(g, rank, root, lv, 1, 0), FactsOf(g.Keys));
    var i := 1;
    while i <= root.level
      invariant 1 <= i <= Height(g, rank, root) + 1 && g == Snap(g.Keys)
      invariant Done(g, rank, reach, MetUp(g, rank, root, lv, i, 0), FactsOf(g.Keys))
    {
      LiveLevel(root, levels, i, g, rank);
      MetUpSteps(g, rank, root, lv, i);
      i := i + 1;
    }
    MetUpSteps(g, rank, root, lv, i);
    DoneAll(g, rank, root);
  }

  lemma DoneAll(g: Graph, rank: map<Block, nat>, root: Block)
    requires Dag(g, rank) && root in g && Done(g, rank, Reach(g, rank, root), Reach(g, rank, root), FactsOf(g.Keys))
    ensures forall b | b in Reach(g, rank, root) :: b.inUse == LiveIn(g, rank, b) && b.outUse == LiveOut(g, rank, b)
  {
    forall b | b in Reach(g, rank, root)
      ensures b.inUse == LiveIn(g, rank, b) && b.outUse == LiveOut(g, rank, b)
    {
      assert LiveAt(g, rank, FactsOf(g.Keys)[b], b);
    }
  }

  method LiveLevel(ghost root: Block, levels: array<seq<Block>>, i: nat, ghost g: Graph, ghost rank: map<Block, nat>)
    requires g == Snap(g.Keys) && Dag(g, rank) && root in g && Levelled(g, rank, root, levels[..]) && 1 <= i < levels.Length
    requires Done(g, rank, Reach(g, rank, root), MetUp(g, rank, root, levels[..], i, 0), FactsOf(g.Keys))
    modifies g.Keys`inUse, g.Keys`outUse
    ensures Done(g, rank, Reach(g, rank, root), MetUp(g, rank, root, levels[..], i, |levels[i]|), FactsOf(g.Keys))
  {
    hide Dag, Levelled, MetUp, Height, FactsOf, Done, Reach;
    ghost var lv, reach := levels[..], Reach(g, rank, root);
    var k := 0;
    while k < |levels[i]|
      invariant 0 <= k <= |levels[i]| && g == Snap(g.Keys)
      invariant Done(g, rank, reach, MetUp(g, rank, root, lv, i, k), FactsOf(g.Keys))
    {
      var p := levels[i][k];
      NextUp(g, rank, root, lv, i, k);
      Branches(g, rank, root, p);
      assert g[p] == Node(p.stmts, p.s, p.jt, p.jf) && g[p].Succ(true) == p.jt && g[p].Succ(false) == p.jf;
      DoneStep(g, rank, reach, MetUp(g, rank, root, lv, i, k), FactsOf(g.Keys), p);
      Propagate(p, g.Keys);
      k := k + 1;
    }
  }

  lemma Branches(g: Graph, rank: map<Block, nat>, root: Block, p: Block)
    requires Dag(g, rank) && root in g && p in Reach(g, rank, root) && Height(g, rank, p) > 0
    ensures g[p].s.Jmp? && g[p].jt in g && g[p].jf in g && g[p].jt != p && g[p].jf != p
    ensures g[p].jt in Reach(g, rank, root) && g[p].jf in Reach(g, rank, root)
  {
    ReachSuccessors(g, rank, root, p);
    assert g[p].Succ(true) == g[p].jt && g[p].Succ(false) == g[p].jf;
  }
}
