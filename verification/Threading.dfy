/** opt_j: branches that an earlier branch has already decided are threaded past. */
module Threading {
  import opened Words
  import opened Ir
  import opened Flowgraph
  import opened Levels
  import opened Liveness
  import opened Dominators

  // ----- The way a packet takes through self-contained blocks -----

  function ExitOf(n: Node, pkt: Packet): Step { ExecAll(n.stmts, Zeroed(), pkt) }

  /** No load or divide of the block fails on the packet. */
  predicate Clean(n: Node, pkt: Packet) { ExitOf(n, pkt).Next? }

  predicate Goes(n: Node, pkt: Packet)
    requires n.s.Jmp? && Clean(n, pkt)
  {
    Decide(n.s, ExitOf(n, pkt).st)
  }

  /** The blocks a packet goes through from b. */
  ghost function Trail(g: Graph, rank: map<Block, nat>, b: Block, pkt: Packet): (t: seq<Block>)
    requires Dag(g, rank) && b in g
    ensures t != [] && t[0] == b && forall x | x in t :: x in g
    decreases rank[b]
  {
    if g[b].s.Jmp? && Clean(g[b], pkt) then [b] + Trail(g, rank, g[b].Succ(Goes(g[b], pkt)), pkt) else [b]
  }

  ghost predicate CleanTrail(g: Graph, t: seq<Block>, pkt: Packet) {
    forall b | b in t :: b in g && Clean(g[b], pkt)
  }

  /** Each block of a trail is followed by the successor it chooses; a clean trail ends in a leaf. */
  lemma {:induction false} TrailSteps(g: Graph, rank: map<Block, nat>, b: Block, pkt: Packet, i: nat)
    requires Dag(g, rank) && b in g && i < |Trail(g, rank, b, pkt)|
    ensures var t := Trail(g, rank, b, pkt);
      if i + 1 < |t| then g[t[i]].s.Jmp? && Clean(g[t[i]], pkt) && t[i + 1] == g[t[i]].Succ(Goes(g[t[i]], pkt))
      else g[t[i]].s.Ret? || !Clean(g[t[i]], pkt)
    decreases i
  {
    var t := Trail(g, rank, b, pkt);
    if g[b].s.Jmp? && Clean(g[b], pkt) {
      var c := g[b].Succ(Goes(g[b], pkt));
      assert t[1..] == Trail(g, rank, c, pkt);
      if i > 0 {
        TrailSteps(g, rank, c, pkt, i - 1);
      }
    }
  }

  lemma {:induction false} TrailReaches(g: Graph, rank: map<Block, nat>, b: Block, pkt: Packet)
    requires Dag(g, rank) && b in g
    ensures forall x | x in Trail(g, rank, b, pkt) :: x in Reach(g, rank, b)
    decreases rank[b]
  {
    if g[b].s.Jmp? && Clean(g[b], pkt) {
      TrailReaches(g, rank, g[b].Succ(Goes(g[b], pkt)), pkt);
    }
  }

  // ----- Redirected edges keep to the trail -----

  /** The same blocks, with possibly different successors. */
  ghost predicate KeepsTo(g: Graph, g': Graph, t: seq<Block>, pkt: Packet)
    requires SameBodies(g, g') && CleanTrail(g, t, pkt)
  {
    forall b | b in t && g[b].s.Jmp? :: g'[b].Succ(Goes(g[b], pkt)) in t
  }

  /** On every packet on which no block of its way fails, g' only skips blocks of that way. */
  ghost predicate Skips(g: Graph, rank: map<Block, nat>, root: Block, g': Graph)
    requires Dag(g, rank) && root in g
  {
    && Dag(g', rank) && SameBodies(g, g')
    && forall pkt :: var t := Trail(g, rank, root, pkt); CleanTrail(g, t, pkt) ==> KeepsTo(g, g', t, pkt)
  }

  lemma SkipsNothing(g: Graph, rank: map<Block, nat>, root: Block)
    requires Dag(g, rank) && root in g
    ensures Skips(g, rank, root, g)
  {
    forall pkt | CleanTrail(g, Trail(g, rank, root, pkt), pkt)
      ensures KeepsTo(g, g, Trail(g, rank, root, pkt), pkt)
    {
      var t := Trail(g, rank, root, pkt);
      forall b | b in t && g[b].s.Jmp?
        ensures g[b].Succ(Goes(g[b], pkt)) in t
      {
        var i :| 0 <= i < |t| && t[i] == b;
        TrailSteps(g, rank, root, pkt, i);
      }
    }
  }

  /** From a block of the trail, a graph that keeps to the trail ends where the trail ends. */
  lemma {:induction false} RunOnTrail(g: Graph, rank: map<Block, nat>, root: Block, g': Graph, b: Block, st: State, pkt: Packet)
    requires Dag(g, rank) && root in g && Contained(g, Reach(g, rank, root)) && Dag(g', rank) && SameBodies(g, g')
    requires var t := Trail(g, rank, root, pkt); CleanTrail(g, t, pkt) && KeepsTo(g, g', t, pkt) && b in t
    ensures var t := Trail(g, rank, root, pkt);
      g[t[|t| - 1]].s.Ret? && Run(g', rank, b, st, pkt) == Returned(g[t[|t| - 1]].s.k)
    decreases rank[b]
  {
    var t := Trail(g, rank, root, pkt);
    TrailEnds(g, rank, root, pkt, b);
    TrailReaches(g, rank, root, pkt);
    hide Reach;
    assert Clean(g[b], pkt) && SelfContained(g[b].stmts, g[b].s);
    SelfContainedDecides(g[b].stmts, g[b].s, st, Zeroed(), pkt);
    hide Trail, ExecAll, SelfContained, Zeroed;
    if g[b].s.Jmp? {
      var c := g'[b].Succ(Goes(g[b], pkt));
      assert c in t;
      RunOnTrail(g, rank, root, g', c, ExecAll(g[b].stmts, st, pkt).st, pkt);
    }
  }

  /** The only leaf of a clean trail is its last block. */
  lemma TrailEnds(g: Graph, rank: map<Block, nat>, root: Block, pkt: Packet, b: Block)
    requires Dag(g, rank) && root in g && CleanTrail(g, Trail(g, rank, root, pkt), pkt) && b in Trail(g, rank, root, pkt)
    ensures var t := Trail(g, rank, root, pkt);
      g[t[|t| - 1]].s.Ret? && (g[b].s.Ret? ==> b == t[|t| - 1])
  {
    hide Clean, Goes, Dag, Trail, Reach;
    var t := Trail(g, rank, root, pkt);
    TrailSteps(g, rank, root, pkt, |t| - 1);
    assert t[|t| - 1] in t;
    var i :| 0 <= i < |t| && t[i] == b;
    TrailSteps(g, rank, root, pkt, i);
  }

  /** Skipping blocks of the way leaves what the filter returns as it was, when nothing on the way fails. */
  lemma SkippingPreserves(g: Graph, rank: map<Block, nat>, root: Block, g': Graph, st: State, pkt: Packet)
    requires Dag(g, rank) && root in g && Contained(g, Reach(g, rank, root)) && Skips(g, rank, root, g')
    requires CleanTrail(g, Trail(g, rank, root, pkt), pkt)
    ensures Dag(g', rank) && root in g' && Run(g', rank, root, st, pkt) == Run(g, rank, root, st, pkt)
  {
    SkipsNothing(g, rank, root);
    RunOnTrail(g, rank, root, g, root, st, pkt);
    RunOnTrail(g, rank, root, g', root, st, pkt);
  }

  // ----- Why an edge may be redirected -----

  ghost function Redirect(g: Graph, e: Edge, target: Block): Graph
    requires e.pred in g
  {
    g[e.pred := if e.sense then g[e.pred].(jt := target) else g[e.pred].(jf := target)]
  }

  /** Whenever edge e is taken, block c comes out as d. */
  ghost predicate Implies(g: Graph, rank: map<Block, nat>, root: Block, e: Edge, c: Block, d: bool)
    requires Dag(g, rank) && root in g && e.pred in g && c in g && g[e.pred].s.Jmp? && g[c].s.Jmp?
  {
    forall pkt :: Foretells(g, Trail(g, rank, root, pkt), e, c, d, pkt)
  }

  ghost predicate Foretells(g: Graph, t: seq<Block>, e: Edge, c: Block, d: bool, pkt: Packet)
    requires e.pred in g && c in g && g[e.pred].s.Jmp? && g[c].s.Jmp?
  {
    CleanTrail(g, t, pkt) && e.pred in t && c in t && Goes(g[e.pred], pkt) == e.sense ==> Goes(g[c], pkt) == d
  }

  lemma DagSucc(g: Graph, rank: map<Block, nat>, b: Block, s: bool)
    requires Dag(g, rank) && b in g && g[b].s.Jmp?
    ensures g.Keys <= rank.Keys && g[b].Succ(s) in g && rank[g[b].Succ(s)] < rank[b]
  {
    assert g[b].Succ(s) == if s then g[b].jt else g[b].jf;
  }

  lemma RedirectDag(g: Graph, g': Graph, rank: map<Block, nat>, e: Edge, target: Block)
    requires Dag(g', rank) && SameBodies(g, g') && e.pred in g' && g'[e.pred].s.Jmp?
    requires target in g' && rank[target] < rank[e.pred]
    ensures Dag(Redirect(g', e, target), rank) && SameBodies(g, Redirect(g', e, target))
  {
    var g'' := Redirect(g', e, target);
    forall b | b in g''
      ensures g''[b].stmts == g'[b].stmts && g''[b].s == g'[b].s
      ensures b != e.pred ==> g''[b] == g'[b]
    {
    }
    DagSucc(g', rank, e.pred, !e.sense);
  }

  /** An edge may skip its successor to where that successor is known to go. */
  lemma RedirectSkips(g: Graph, rank: map<Block, nat>, root: Block, g': Graph, e: Edge, d: bool)
    requires Dag(g, rank) && root in g && Skips(g, rank, root, g') && e.pred in g && g[e.pred].s.Jmp?
    requires var c := g'[e.pred].Succ(e.sense);
      c in g && g[c].s.Jmp? && (g'[c].jt == g'[c].jf || Implies(g, rank, root, e, c, d))
    ensures var c := g'[e.pred].Succ(e.sense);
      && g'[c].Succ(d) in g && rank[g'[c].Succ(d)] < rank[c]
      && Skips(g, rank, root, Redirect(g', e, g'[c].Succ(d)))
  {
    hide Dag, Trail, CleanTrail, KeepsTo, Implies, SameBodies;
    SameKind(g, g', e.pred);
    var c := g'[e.pred].Succ(e.sense);
    SameKind(g, g', c);
    DagSucc(g', rank, e.pred, e.sense);
    DagSucc(g', rank, c, d);
    RedirectDag(g, g', rank, e, g'[c].Succ(d));
    forall pkt | CleanTrail(g, Trail(g, rank, root, pkt), pkt)
      ensures KeepsTo(g, Redirect(g', e, g'[c].Succ(d)), Trail(g, rank, root, pkt), pkt)
    {
      RedirectKeeps(g, rank, root, g', e, d, pkt);
    }
  }

  lemma SameKind(g: Graph, g': Graph, b: Block)
    requires SameBodies(g, g') && b in g
    ensures b in g' && g'[b].stmts == g[b].stmts && g'[b].s == g[b].s
  {
  }

  lemma RedirectKeeps(g: Graph, rank: map<Block, nat>, root: Block, g': Graph, e: Edge, d: bool, pkt: Packet)
    requires Dag(g, rank) && root in g && Skips(g, rank, root, g') && e.pred in g && g[e.pred].s.Jmp?
    requires var c := g'[e.pred].Succ(e.sense);
      c in g && g[c].s.Jmp? && (g'[c].jt == g'[c].jf || Implies(g, rank, root, e, c, d)) && g'[c].Succ(d) in g
    requires CleanTrail(g, Trail(g, rank, root, pkt), pkt)
    requires SameBodies(g, Redirect(g', e, g'[g'[e.pred].Succ(e.sense)].Succ(d)))
    ensures KeepsTo(g, Redirect(g', e, g'[g'[e.pred].Succ(e.sense)].Succ(d)), Trail(g, rank, root, pkt), pkt)
  {
    var t := Trail(g, rank, root, pkt);
    var c := g'[e.pred].Succ(e.sense);
    var g'' := Redirect(g', e, g'[c].Succ(d));
    assert KeepsTo(g, g', t, pkt);
    forall b | b in t && g[b].s.Jmp?
      ensures g''[b].Succ(Goes(g[b], pkt)) in t
    {
      if b == e.pred && Goes(g[b], pkt) == e.sense {
        assert c in t;
        assert g'[c].Succ(Goes(g[c], pkt)) in t;
        assert Implies(g, rank, root, e, c, d) ==> Foretells(g, t, e, c, d, pkt);
      }
    }
  }

  // ----- What the dominating edges and the value tables imply -----

  /** The edges a packet takes on its way to and through the i-th block of its trail. */
  ghost function Taken(g: Graph, t: seq<Block>, i: nat, pkt: Packet): (way: seq<Edge>)
    requires i < |t| && CleanTrail(g, t, pkt) && forall j | 0 <= j <= i :: g[t[j]].s.Jmp?
    ensures forall e | e in way :: e.pred in t && g[e.pred].s.Jmp? && e.sense == Goes(g[e.pred], pkt)
  {
    (if i == 0 then [] else Taken(g, t, i - 1, pkt)) + [Edge(t[i], Goes(g[t[i]], pkt))]
  }

  /** A packet that takes an edge has taken every edge that dominates it. */
  lemma DominatingEdgeTaken(g: Graph, rank: map<Block, nat>, root: Block, edom: map<Edge, set<Edge>>, e: Edge, e': Edge, pkt: Packet)
    requires Dag(g, rank) && root in g && Valid(Edges(g, rank, root)) && Solves(Edges(g, rank, root), edom)
    requires var t := Trail(g, rank, root, pkt); CleanTrail(g, t, pkt) && e.pred in t
    requires e.pred in g && g[e.pred].s.Jmp? && Goes(g[e.pred], pkt) == e.sense
    requires e in edom && e' in EdgesOf(g.Keys) && e' in edom[e]
    ensures e'.pred in Trail(g, rank, root, pkt) && g[e'.pred].s.Jmp? && Goes(g[e'.pred], pkt) == e'.sense
  {
    hide Clean, Goes, Dag, Trail, Reach, Solves, Edges, Valid;
    var t := Trail(g, rank, root, pkt);
    var i :| 0 <= i < |t| && t[i] == e.pred;
    forall j | 0 <= j <= i
      ensures g[t[j]].s.Jmp? && (j < i ==> t[j + 1] == g[t[j]].Succ(Goes(g[t[j]], pkt)))
    {
      TrailSteps(g, rank, root, pkt, j);
    }
    TrailReaches(g, rank, root, pkt);
    TakenIsWay(g, rank, root, t, i, pkt);
    EdomKeys(g, rank, root, edom);
    hide Way;
    DominatorOnWay(Edges(g, rank, root), edom, e, e', Taken(g, t, i, pkt));
  }

  lemma {:induction false} TakenIsWay(g: Graph, rank: map<Block, nat>, root: Block, t: seq<Block>, i: nat, pkt: Packet)
    requires Dag(g, rank) && root in g && Valid(Edges(g, rank, root)) && CleanTrail(g, t, pkt) && i < |t| && t[0] == root
    requires forall j | 0 <= j <= i :: t[j] in Reach(g, rank, root) && g[t[j]].s.Jmp?
    requires forall j | 0 <= j < i :: t[j + 1] == g[t[j]].Succ(Goes(g[t[j]], pkt))
    ensures Way(Edges(g, rank, root), Taken(g, t, i, pkt), Edge(t[i], Goes(g[t[i]], pkt)))
    decreases i
  {
    hide Dag, Goes, Clean, Valid, Reach;
    if i == 0 {
      EdgeFlow(g, rank, root);
    } else {
      hide Way;
      TakenIsWay(g, rank, root, t, i - 1, pkt);
      TakenStep(g, rank, root, t[i - 1], Goes(g[t[i - 1]], pkt), t[i], Goes(g[t[i]], pkt));
      WayGoesOn(Edges(g, rank, root), Taken(g, t, i - 1, pkt), Edge(t[i - 1], Goes(g[t[i - 1]], pkt)), Edge(t[i], Goes(g[t[i]], pkt)));
    }
  }

  lemma WayGoesOn<T>(f: Flow<T>, way: seq<T>, x: T, y: T)
    requires Valid(f) && Way(f, way, x) && y in f.items && x in f.preds[y]
    ensures Way(f, way + [y], y)
  {
  }

  lemma TakenStep(g: Graph, rank: map<Block, nat>, root: Block, b: Block, s: bool, c: Block, s': bool)
    requires Dag(g, rank) && root in g && b in Reach(g, rank, root) && c in Reach(g, rank, root) && g[b].Succ(s) == c
    requires Valid(Edges(g, rank, root))
    ensures Edge(c, s') in Edges(g, rank, root).items
    ensures Edge(b, s) in Edges(g, rank, root).preds[Edge(c, s')]
  {
    EdgesIn(Reach(g, rank, root));
  }

  lemma EdomKeys(g: Graph, rank: map<Block, nat>, root: Block, edom: map<Edge, set<Edge>>)
    requires Dag(g, rank) && root in g && Valid(Edges(g, rank, root)) && Solves(Edges(g, rank, root), edom)
    ensures Edges(g, rank, root).items == edom.Keys && Edges(g, rank, root).all == EdgesOf(g.Keys)
  {
  }

  /** The value numbers a block's branch compares. */
  datatype Operands = Operands(aval: nat, oval: nat)

  function Operand(s: Branch, st: State): Word
    requires s.Jmp?
  {
    if s.src.K? then s.k else st[X_ATOM]
  }

  /** The numbers stand for the words that are compared when the packet gets there. */
  ghost predicate FaithfulOn(g: Graph, reach: set<Block>, tab: map<Block, Operands>, nu: nat -> Word, pkt: Packet)
    requires reach <= g.Keys && reach <= tab.Keys
  {
    forall b | b in reach && g[b].s.Jmp? && Clean(g[b], pkt) ::
      nu(tab[b].aval) == ExitOf(g[b], pkt).st[A_ATOM] && nu(tab[b].oval) == Operand(g[b].s, ExitOf(g[b], pkt).st)
  }

  ghost predicate HasMeaning(g: Graph, reach: set<Block>, tab: map<Block, Operands>, pkt: Packet)
    requires reach <= g.Keys && reach <= tab.Keys
  {
    exists nu: nat -> Word :: FaithfulOn(g, reach, tab, nu, pkt)
  }

  /** Value tables as value numbering leaves them: on each packet every number stands for one word. */
  ghost predicate Faithful(g: Graph, reach: set<Block>, tab: map<Block, Operands>)
    requires reach <= g.Keys && reach <= tab.Keys
  {
    && (forall pkt :: HasMeaning(g, reach, tab, pkt))
    && forall b, c | b in reach && c in reach && IsConstant(g[b].s) && IsConstant(g[c].s) && g[b].s.k == g[c].s.k ::
         tab[b].oval == tab[c].oval
  }

  predicate IsConstant(s: Branch) { s.Jmp? && s.src.K? }

  predicate SameCode(s: Branch, s': Branch) {
    if s.Jmp? then s'.Jmp? && s.test == s'.test && s.src == s'.src else s'.Ret?
  }

  /** Which way fold_edge says child goes after edge (s, sense); None when it cannot tell. */
  datatype Fold = Unknown | Known(sense: bool)

  function Folds(child: Branch, c: Operands, s: Branch, o: Operands, sense: bool): Fold {
    if !SameCode(child, s) then Unknown
    else if c.aval != o.aval then Unknown
    else if c.oval == o.oval then Known(sense)
    else if sense && s.Jmp? && s.test.JEQ? && s.src.K? then Known(false)
    else Unknown
  }

  /** fold_edge is right about a child reached after taking a dominating edge. */
  lemma FoldIsRight(g: Graph, reach: set<Block>, tab: map<Block, Operands>, child: Block, q: Block, sense: bool, pkt: Packet)
    requires reach <= g.Keys && reach <= tab.Keys && Faithful(g, reach, tab)
    requires child in reach && q in reach && g[child].s.Jmp? && g[q].s.Jmp?
    requires Clean(g[child], pkt) && Clean(g[q], pkt) && Goes(g[q], pkt) == sense
    requires Folds(g[child].s, tab[child], g[q].s, tab[q], sense).Known?
    ensures Goes(g[child], pkt) == Folds(g[child].s, tab[child], g[q].s, tab[q], sense).sense
  {
    assert HasMeaning(g, reach, tab, pkt);
    var nu: nat -> Word :| FaithfulOn(g, reach, tab, nu, pkt);
  }

  /** For tests of equality with a constant fold_edge tells exactly what the edge taken implies for every accumulator. */
  lemma FoldsEquality(k: Word, c: Operands, k': Word, o: Operands, sense: bool, d: bool)
    requires c.aval == o.aval && (c.oval == o.oval <==> k == k')
    ensures Folds(Jmp(JEQ, K, k), c, Jmp(JEQ, K, k'), o, sense) == Known(d) <==>
      forall a: Word | Compare(JEQ, a, k') == sense :: Compare(JEQ, a, k) == d
  {
    var other: Word := if k != 0 && k' != 0 then 0 else if k != 1 && k' != 1 then 1 else 2;
    assert Compare(JEQ, k, k) && Compare(JEQ, k', k') && !Compare(JEQ, other, k) && !Compare(JEQ, other, k');
    assert Compare(JEQ, k, k') <==> k == k';
  }

  /** A fold after a dominating edge foretells how the child comes out. */
  lemma FoldImplies(g: Graph, rank: map<Block, nat>, root: Block, edom: map<Edge, set<Edge>>, tab: map<Block, Operands>,
                    e: Edge, e': Edge, child: Block)
    requires Dag(g, rank) && root in g && Valid(Edges(g, rank, root)) && Solves(Edges(g, rank, root), edom)
    requires Reach(g, rank, root) <= g.Keys <= tab.Keys && Faithful(g, Reach(g, rank, root), tab)
    requires e in edom && e.pred in g && g[e.pred].s.Jmp? && child in g && g[child].s.Jmp?
    requires e' in EdgesOf(g.Keys) && e' in edom[e] && e'.pred in g
    requires Folds(g[child].s, tab[child], g[e'.pred].s, tab[e'.pred], e'.sense).Known?
    ensures Implies(g, rank, root, e, child, Folds(g[child].s, tab[child], g[e'.pred].s, tab[e'.pred], e'.sense).sense)
  {
    var d := Folds(g[child].s, tab[child], g[e'.pred].s, tab[e'.pred], e'.sense).sense;
    forall pkt
      ensures Foretells(g, Trail(g, rank, root, pkt), e, child, d, pkt)
    {
      var t := Trail(g, rank, root, pkt);
      if CleanTrail(g, t, pkt) && e.pred in t && child in t && Goes(g[e.pred], pkt) == e.sense {
        DominatingEdgeTaken(g, rank, root, edom, e, e', pkt);
        TrailReaches(g, rank, root, pkt);
        FoldIsRight(g, Reach(g, rank, root), tab, child, e'.pred, e'.sense, pkt);
      }
    }
  }

  // ----- opt_j -----

  ghost function TabOf(blocks: set<Block>): (tab: map<Block, Operands>)
    requires forall b | b in blocks :: |b.val| == N_ATOMS
    reads blocks`val, blocks`oval
    ensures tab.Keys == blocks
  {
    map b | b in blocks :: Operands(b.val[A_ATOM], b.oval)
  }

  /** What opt_j reads of blocks besides the graph: the operands of branches, the value arrays, and what is used later. */
  datatype Readings = Readings(tab: map<Block, Operands>, val: map<Block, seq<nat>>, out: map<Block, set<int>>)

  ghost function ReadingsOf(blocks: set<Block>): (fs: Readings)
    requires Sized(blocks)
    reads blocks`val, blocks`oval, blocks`outUse
    ensures Fits(blocks, fs)
  {
    Readings(TabOf(blocks), map b | b in blocks :: b.val, map b | b in blocks :: b.outUse)
  }

  ghost predicate Fits(blocks: set<Block>, fs: Readings) {
    && fs.tab.Keys == blocks && fs.val.Keys == blocks && fs.out.Keys == blocks
    && forall b | b in blocks :: |fs.val[b]| == N_ATOMS
  }

  /** Some atom used after c has different numbers in b and in c. */
  ghost predicate Conflict(fs: Readings, b: Block, c: Block)
    requires b in fs.val && c in fs.val && c in fs.out && |fs.val[b]| == N_ATOMS && |fs.val[c]| == N_ATOMS
  {
    exists atom: nat | atom < N_ATOMS :: atom in fs.out[c] && fs.val[b][atom] != fs.val[c][atom]
  }

  /** Edge d does not tell where c goes from b, or something used there would be another value. */
  ghost predicate Blocked(h: Graph, fs: Readings, b: Block, c: Block, d: Edge)
    requires Fits(h.Keys, fs) && b in h && c in h && d.pred in h
  {
    var f := Folds(h[c].s, fs.tab[c], h[d.pred].s, fs.tab[d.pred], d.sense);
    f.Known? ==> var target := h[c].Succ(f.sense); target != null && target in h ==> Conflict(fs, b, target)
  }

  /** No dominating edge of e lets it skip its successor. */
  ghost predicate Exhausted(h: Graph, fs: Readings, doms: set<Edge>, edges: seq<Edge>, e: Edge)
    requires Fits(h.Keys, fs)
  {
    && e.pred in h && h[e.pred].Succ(e.sense) != null && h[e.pred].Succ(e.sense) in h
    && forall k | 0 <= k < |edges| && edges[k] in doms ::
         edges[k].pred in h && Blocked(h, fs, e.pred, h[e.pred].Succ(e.sense), edges[k])
  }

  /** Redirecting another edge leaves e as it was, unless that edge belongs to the block e leads to. */
  lemma StaysExhausted(h: Graph, fs: Readings, doms: set<Edge>, edges: seq<Edge>, e: Edge, d: Edge, target: Block)
    requires Fits(h.Keys, fs) && Exhausted(h, fs, doms, edges, e) && d.pred in h && d != e && h[e.pred].Succ(e.sense) != d.pred
    requires target in h
    ensures Redirect(h, d, target).Keys == h.Keys && Exhausted(Redirect(h, d, target), fs, doms, edges, e)
  {
    var h', c := Redirect(h, d, target), h[e.pred].Succ(e.sense);
    assert e == Edge(e.pred, e.sense) && d == Edge(d.pred, d.sense);
    assert h'[c] == h[c] && h'[e.pred].Succ(e.sense) == c;
    hide Folds, Conflict;
    forall k | 0 <= k < |edges| && edges[k] in doms
      ensures edges[k].pred in h' && Blocked(h', fs, e.pred, c, edges[k])
    {
      assert Blocked(h, fs, e.pred, c, edges[k]) && h'[edges[k].pred].s == h[edges[k].pred].s;
    }
  }

  lemma ConflictAt(blocks: set<Block>, b: Block, c: Block)
    requires Sized(blocks) && b in blocks && c in blocks
    ensures Conflict(ReadingsOf(blocks), b, c) <==> exists atom: nat | atom < N_ATOMS :: atom in c.outUse && b.val[atom] != c.val[atom]
  {
  }

  /** use_conflict: some value used on leaving succ differs from what b leaves. */
  method UseConflict(b: Block, succ: Block) returns (conflict: bool)
    requires |b.val| == N_ATOMS && |succ.val| == N_ATOMS
    ensures conflict <==> exists atom: nat | atom < N_ATOMS :: atom in succ.outUse && b.val[atom] != succ.val[atom]
  {
    if succ.outUse == {} { return false; }
    for atom := 0 to N_ATOMS
      invariant forall a: nat | a < atom :: a in succ.outUse ==> b.val[a] == succ.val[a]
    {
      if atom in succ.outUse && b.val[atom] != succ.val[atom] { return true; }
    }
    return false;
  }

  /** fold_edge. */
  method FoldEdge(child: Block, e: Edge) returns (target: Block?)
    requires |child.val| == N_ATOMS && |e.pred.val| == N_ATOMS
    ensures target ==
      match Folds(child.s, Operands(child.val[A_ATOM], child.oval), e.pred.s, Operands(e.pred.val[A_ATOM], e.pred.oval), e.sense)
      case Unknown => null
      case Known(d) => child.Succ(d)
  {
    if !SameCode(child.s, e.pred.s) { return null; }
    var aval0, oval0, aval1, oval1 := child.val[A_ATOM], child.oval, e.pred.val[A_ATOM], e.pred.oval;
    if aval0 != aval1 { return null; }
    if oval0 == oval1 {
      return if e.sense then child.jt else child.jf;
    }
    if e.sense && e.pred.s.Jmp? && e.pred.s.test.JEQ? && e.pred.s.src.K? {
      return child.jf;
    }
    return null;
  }

  /** What opt_j relies on, and what it keeps. */
  ghost predicate Ready(g: Graph, rank: map<Block, nat>, root: Block)
    requires Dag(g, rank) && root in g
    reads g.Keys`val, g.Keys`oval, g.Keys`etDom, g.Keys`efDom
  {
    && (forall b | b in g :: |b.val| == N_ATOMS) && Reach(g, rank, root) <= g.Keys
    && Faithful(g, Reach(g, rank, root), TabOf(g.Keys))
    && Valid(Edges(g, rank, root))
    && EdgesOf(Reach(g, rank, root)) <= EdgesOf(g.Keys)
    && Solves(Edges(g, rank, root), map e | e in EdgesOf(Reach(g, rank, root)) :: Edom(e))
  }

  method SetSucc(e: Edge, target: Block, ghost blocks: set<Block>)
    requires e.pred in blocks
    modifies e.pred`jt, e.pred`jf
    ensures Snap(blocks) == Redirect(old(Snap(blocks)), e, target) && e.pred.Succ(e.sense) == target
  {
    if e.sense {
      e.pred.jt := target;
    } else {
      e.pred.jf := target;
    }
  }

  lemma SkipsAt(g: Graph, rank: map<Block, nat>, root: Block, b: Block)
    requires Dag(g, rank) && root in g && Skips(g, rank, root, Snap(g.Keys)) && b in g
    ensures b.s == g[b].s && g.Keys <= rank.Keys
    ensures (b.s.Ret? <==> b.jt == null) && (b.s.Ret? <==> b.jf == null)
    ensures b.s.Jmp? ==> b.jt in g && b.jf in g && rank[b.jt] < rank[b] && rank[b.jf] < rank[b]
    ensures Snap(g.Keys)[b] == Node(b.stmts, b.s, b.jt, b.jf)
  {
    assert Snap(g.Keys)[b] == Node(b.stmts, b.s, b.jt, b.jf);
  }

  /** An edge redirected: to a block nothing later conflicts with, lower than before in every order that goes down the graph. */
  ghost predicate Lowered(h: Graph, h': Graph, fs: Readings, hgt: map<Block, nat>, e: Edge)
    requires Fits(h.Keys, fs) && e.pred in h
  {
    && h[e.pred].Succ(e.sense) in h && h'.Keys == h.Keys && h'[e.pred].Succ(e.sense) in h
    && h' == Redirect(h, e, h'[e.pred].Succ(e.sense)) && !Conflict(fs, e.pred, h'[e.pred].Succ(e.sense))
    && h.Keys <= hgt.Keys && hgt[h'[e.pred].Succ(e.sense)] < hgt[h[e.pred].Succ(e.sense)]
  }

  /**
   * opt_j. Every redirection takes the edge to a lower block, so starting over ends; it ends when no dominating
   * edge lets the edge skip its successor any more.
   */
  method OptJ(e: Edge, edges: seq<Edge>, ghost g: Graph, ghost rank: map<Block, nat>, ghost root: Block, ghost hgt: map<Block, nat>)
    returns (changed: bool)
    requires Dag(g, rank) && root in g && Ready(g, rank, root) && Skips(g, rank, root, Snap(g.Keys)) && Sized(g.Keys)
    requires e.pred in Reach(g, rank, root) && e.pred.s.Jmp? && forall k | 0 <= k < |edges| :: edges[k] in EdgesOf(g.Keys)
    requires Dag(Snap(g.Keys), hgt)
    modifies e.pred`jt, e.pred`jf
    ensures Ready(g, rank, root) && Skips(g, rank, root, Snap(g.Keys)) && Dag(Snap(g.Keys), hgt) && e.pred in g
    ensures Exhausted(Snap(g.Keys), ReadingsOf(g.Keys), Edom(e), edges, e)
    ensures if changed then Lowered(old(Snap(g.Keys)), Snap(g.Keys), ReadingsOf(g.Keys), hgt, e) else Snap(g.Keys) == old(Snap(g.Keys))
    ensures var c := old(e.pred.Succ(e.sense));
      c != null && c in g && old(c.jt) != null && old(c.jt) == old(c.jf) && old(c.jt) in g && !Conflict(ReadingsOf(g.Keys), e.pred, old(c.jt)) ==> changed
  {
    hide *;
    EdgeReady(g, rank, root, e, edges);
    ghost var h, fs := Snap(g.Keys), ReadingsOf(g.Keys);
    SuccAt(g, rank, root, hgt, e);
    changed := SkipCommon(e, g, rank, root, hgt);
    ghost var skipped := changed;
    var again := true;
    while again
      invariant skipped ==> changed
      invariant Ready(g, rank, root) && Skips(g, rank, root, Snap(g.Keys)) && Dag(Snap(g.Keys), hgt) && e.pred.s.Jmp?
      invariant if changed then Lowered(h, Snap(g.Keys), fs, hgt, e) else Snap(g.Keys) == h
      invariant !again ==> Exhausted(Snap(g.Keys), fs, Edom(e), edges, e)
      decreases if again then 1 + HeightAt(Snap(g.Keys), hgt, e) else 0
    {
      ghost var h1 := Snap(g.Keys);
      again := Promote(e, edges, g, rank, root, hgt);
      if again {
        if changed { LoweredTwice(h, h1, Snap(g.Keys), fs, hgt, e); }
        LoweredHeight(h1, Snap(g.Keys), fs, hgt, e);
        changed := true;
      }
      SuccAt(g, rank, root, hgt, e);
      LeafExhausted(g, rank, root, hgt, e, edges);
      again := again && e.pred.Succ(e.sense).jt != null;
    }
  }

  /** How far down an edge leads. */
  ghost function HeightAt(h: Graph, hgt: map<Block, nat>, e: Edge): nat {
    if e.pred in h && h[e.pred].Succ(e.sense) != null && h[e.pred].Succ(e.sense) in hgt then hgt[h[e.pred].Succ(e.sense)] else 0
  }

  lemma LoweredHeight(h: Graph, h': Graph, fs: Readings, hgt: map<Block, nat>, e: Edge)
    requires Fits(h.Keys, fs) && e.pred in h && Lowered(h, h', fs, hgt, e)
    ensures HeightAt(h', hgt, e) < HeightAt(h, hgt, e)
  {
  }

  lemma LoweredTwice(h: Graph, h1: Graph, h2: Graph, fs: Readings, hgt: map<Block, nat>, e: Edge)
    requires Fits(h.Keys, fs) && Fits(h1.Keys, fs) && e.pred in h && e.pred in h1
    requires Lowered(h, h1, fs, hgt, e) && Lowered(h1, h2, fs, hgt, e)
    ensures Lowered(h, h2, fs, hgt, e)
  {
    hide Conflict;
    assert h2 == Redirect(h, e, h2[e.pred].Succ(e.sense));
  }

  /** Where the edge leads, in the heap and in the snapshot. */
  lemma SuccAt(g: Graph, rank: map<Block, nat>, root: Block, hgt: map<Block, nat>, e: Edge)
    requires Dag(g, rank) && root in g && Skips(g, rank, root, Snap(g.Keys)) && Dag(Snap(g.Keys), hgt) && Sized(g.Keys)
    requires e.pred in g && e.pred.s.Jmp?
    ensures var h, c := Snap(g.Keys), e.pred.Succ(e.sense);
      && e.pred in h && c != null && c in g && c in h && h[e.pred].Succ(e.sense) == c && h.Keys == g.Keys
      && h[c] == Node(c.stmts, c.s, c.jt, c.jf) && h[e.pred].s.Jmp? && Fits(h.Keys, ReadingsOf(g.Keys)) && Fits(g.Keys, ReadingsOf(g.Keys))
      && (c.s.Ret? <==> c.jt == null) && (c.jt == null <==> c.jf == null) && h.Keys <= hgt.Keys && hgt[c] < hgt[e.pred]
      && (c.jt != null ==> c.jt in g && c.jf in g && hgt[c.jt] < hgt[c] && hgt[c.jf] < hgt[c])
  {
    SkipsAt(g, rank, root, e.pred);
    SkipsAt(g, rank, root, e.pred.Succ(e.sense));
    DagSucc(Snap(g.Keys), hgt, e.pred, e.sense);
    hide Skips, ReadingsOf;
  }

  lemma LeafExhausted(g: Graph, rank: map<Block, nat>, root: Block, hgt: map<Block, nat>, e: Edge, edges: seq<Edge>)
    requires Dag(g, rank) && root in g && Skips(g, rank, root, Snap(g.Keys)) && Dag(Snap(g.Keys), hgt) && Sized(g.Keys)
    requires e.pred in g && e.pred.s.Jmp? && forall k | 0 <= k < |edges| :: edges[k] in EdgesOf(g.Keys)
    ensures e.pred.Succ(e.sense) != null && Fits(Snap(g.Keys).Keys, ReadingsOf(g.Keys))
    ensures e.pred.Succ(e.sense).jt == null ==> Exhausted(Snap(g.Keys), ReadingsOf(g.Keys), Edom(e), edges, e)
  {
    SuccAt(g, rank, root, hgt, e);
    hide Folds, Conflict, Skips, Dag, ReadingsOf, Snap;
  }

  /** The first part of opt_j: a successor both of whose edges lead to the same block is skipped. */
  method SkipCommon(e: Edge, ghost g: Graph, ghost rank: map<Block, nat>, ghost root: Block, ghost hgt: map<Block, nat>) returns (changed: bool)
    requires Dag(g, rank) && root in g && Ready(g, rank, root) && Skips(g, rank, root, Snap(g.Keys)) && Sized(g.Keys)
    requires e.pred in g && e.pred.s.Jmp? && Dag(Snap(g.Keys), hgt)
    modifies e.pred`jt, e.pred`jf
    ensures Ready(g, rank, root) && Skips(g, rank, root, Snap(g.Keys)) && Dag(Snap(g.Keys), hgt)
    ensures if changed then Lowered(old(Snap(g.Keys)), Snap(g.Keys), ReadingsOf(g.Keys), hgt, e) else Snap(g.Keys) == old(Snap(g.Keys))
    ensures var c := old(e.pred.Succ(e.sense));
      c != null && c in g && old(c.jt) != null && old(c.jt) == old(c.jf) && old(c.jt) in g ==> (changed <==> !Conflict(ReadingsOf(g.Keys), e.pred, old(c.jt)))
  {
    hide *;
    SuccAt(g, rank, root, hgt, e);
    changed := false;
    var child: Block := e.pred.Succ(e.sense);
    if child.jt != null && child.jt == child.jf {
      SizedAt(g.Keys, e.pred);
      SizedAt(g.Keys, child.jt);
      ConflictAt(g.Keys, e.pred, child.jt);
      var conflict := UseConflict(e.pred, child.jt);
      if !conflict {
        changed := true;
        CommonTarget(g, rank, root, e, child);
        RedirectLowers(Snap(g.Keys), ReadingsOf(g.Keys), hgt, e, child, child.jt);
        SetSucc(e, child.jt, g.Keys);
      }
    }
  }

  lemma SizedAt(blocks: set<Block>, b: Block)
    requires Sized(blocks) && b in blocks
    ensures |b.val| == N_ATOMS
  {
  }

  lemma RedirectLowers(h: Graph, fs: Readings, hgt: map<Block, nat>, e: Edge, c: Block, target: Block)
    requires Fits(h.Keys, fs) && Dag(h, hgt) && e.pred in h && h[e.pred].s.Jmp? && c in h && h[e.pred].Succ(e.sense) == c
    requires target in h && hgt[target] < hgt[c] < hgt[e.pred] && !Conflict(fs, e.pred, target)
    ensures Lowered(h, Redirect(h, e, target), fs, hgt, e) && Dag(Redirect(h, e, target), hgt)
  {
    hide Conflict;
    RedirectDag(h, h, hgt, e, target);
  }

  lemma EdgeReady(g: Graph, rank: map<Block, nat>, root: Block, e: Edge, edges: seq<Edge>)
    requires Dag(g, rank) && root in g && Ready(g, rank, root) && e.pred in Reach(g, rank, root)
    ensures e.pred in g && forall b | b in g :: |b.val| == N_ATOMS
  {
  }

  /** Redirect the edge to where the dominating edge d says its successor goes, unless something used there would be another value. */
  method PromoteBy(e: Edge, d: Edge, ghost g: Graph, ghost rank: map<Block, nat>, ghost root: Block, ghost hgt: map<Block, nat>)
    returns (found: bool)
    requires Dag(g, rank) && root in g && Ready(g, rank, root) && Skips(g, rank, root, Snap(g.Keys)) && Sized(g.Keys)
    requires e.pred in Reach(g, rank, root) && e.pred in g && e.pred.s.Jmp? && d in EdgesOf(g.Keys) && d in Edom(e)
    requires Dag(Snap(g.Keys), hgt)
    modifies e.pred`jt, e.pred`jf
    ensures Ready(g, rank, root) && Skips(g, rank, root, Snap(g.Keys)) && Dag(Snap(g.Keys), hgt)
    ensures if found then Lowered(old(Snap(g.Keys)), Snap(g.Keys), ReadingsOf(g.Keys), hgt, e)
            else Snap(g.Keys) == old(Snap(g.Keys)) && e.pred.Succ(e.sense) == old(e.pred.Succ(e.sense))
    ensures !found ==> var c := e.pred.Succ(e.sense);
      && Fits(Snap(g.Keys).Keys, ReadingsOf(g.Keys)) && c != null && c in Snap(g.Keys) && d.pred in Snap(g.Keys) && e.pred in Snap(g.Keys)
      && Blocked(Snap(g.Keys), ReadingsOf(g.Keys), e.pred, c, d)
  {
    hide *;
    SuccAt(g, rank, root, hgt, e);
    var child: Block := e.pred.Succ(e.sense);
    ghost var h, fs := Snap(g.Keys), ReadingsOf(g.Keys);
    EdgeInside(g, d);
    FoldAt(g, child, d);
    var target := FoldEdge(child, d);
    if target != null {
      TargetIn(h, fs, hgt, child, d, target);
      SizedAt(g.Keys, e.pred);
      SizedAt(g.Keys, target);
      ConflictAt(g.Keys, e.pred, target);
      var conflict := UseConflict(e.pred, target);
      if !conflict {
        FoldTarget(g, rank, root, e, d, child, target);
        RedirectLowers(h, fs, hgt, e, child, target);
        SetSucc(e, target, g.Keys);
        return true;
      }
    }
    BlockedWhere(h, fs, e.pred, child, d, target);
    return false;
  }

  /** Look for a dominating edge that decides where the successor goes, and redirect the edge there. */
  method Promote(e: Edge, edges: seq<Edge>, ghost g: Graph, ghost rank: map<Block, nat>, ghost root: Block, ghost hgt: map<Block, nat>)
    returns (found: bool)
    requires Dag(g, rank) && root in g && Ready(g, rank, root) && Skips(g, rank, root, Snap(g.Keys)) && Sized(g.Keys)
    requires e.pred in Reach(g, rank, root) && e.pred in g && e.pred.s.Jmp? && forall k | 0 <= k < |edges| :: edges[k] in EdgesOf(g.Keys)
    requires Dag(Snap(g.Keys), hgt)
    modifies e.pred`jt, e.pred`jf
    ensures Ready(g, rank, root) && Skips(g, rank, root, Snap(g.Keys)) && Dag(Snap(g.Keys), hgt)
    ensures if found then Lowered(old(Snap(g.Keys)), Snap(g.Keys), ReadingsOf(g.Keys), hgt, e)
            else Snap(g.Keys) == old(Snap(g.Keys)) && Exhausted(Snap(g.Keys), ReadingsOf(g.Keys), Edom(e), edges, e)
  {
    hide *;
    SuccAt(g, rank, root, hgt, e);
    var child: Block := e.pred.Succ(e.sense);
    ghost var h, fs := Snap(g.Keys), ReadingsOf(g.Keys);
    for k := 0 to |edges|
      invariant Snap(g.Keys) == h && e.pred.Succ(e.sense) == child
      invariant Ready(g, rank, root) && Skips(g, rank, root, Snap(g.Keys))
      invariant forall j | 0 <= j < k && edges[j] in Edom(e) :: edges[j].pred in h && Blocked(h, fs, e.pred, child, edges[j])
    {
      if edges[k] in Edom(e) {
        found := PromoteBy(e, edges[k], g, rank, root, hgt);
        if found { return; }
      }
    }
    ExhaustedHere(h, fs, Edom(e), edges, e, child);
    return false;
  }

  lemma ExhaustedHere(h: Graph, fs: Readings, doms: set<Edge>, edges: seq<Edge>, e: Edge, c: Block)
    requires Fits(h.Keys, fs) && e.pred in h && c in h && h[e.pred].Succ(e.sense) == c
    requires forall k | 0 <= k < |edges| && edges[k] in doms :: edges[k].pred in h && Blocked(h, fs, e.pred, c, edges[k])
    ensures Exhausted(h, fs, doms, edges, e)
  {
  }

  /** Where a fold says c goes. */
  ghost function FoldTo(h: Graph, fs: Readings, c: Block, d: Edge): Block?
    requires Fits(h.Keys, fs) && c in h && d.pred in h
  {
    var f := Folds(h[c].s, fs.tab[c], h[d.pred].s, fs.tab[d.pred], d.sense);
    if f.Known? then h[c].Succ(f.sense) else null
  }

  /** What fold_edge is asked, in the heap and in the snapshot. */
  lemma FoldAt(g: Graph, c: Block, d: Edge)
    requires Sized(g.Keys) && c in g && d.pred in g
    ensures |c.val| == N_ATOMS && |d.pred.val| == N_ATOMS && Fits(g.Keys, ReadingsOf(g.Keys)) && Snap(g.Keys).Keys == g.Keys
    ensures FoldTo(Snap(g.Keys), ReadingsOf(g.Keys), c, d) ==
      match Folds(c.s, Operands(c.val[A_ATOM], c.oval), d.pred.s, Operands(d.pred.val[A_ATOM], d.pred.oval), d.sense)
      case Unknown => null
      case Known(s) => c.Succ(s)
  {
    assert Snap(g.Keys)[c] == Node(c.stmts, c.s, c.jt, c.jf) && Snap(g.Keys)[d.pred].s == d.pred.s;
    hide Folds;
  }

  lemma BlockedWhere(h: Graph, fs: Readings, b: Block, c: Block, d: Edge, target: Block?)
    requires Fits(h.Keys, fs) && b in h && c in h && d.pred in h && target == FoldTo(h, fs, c, d)
    requires target == null || (target in h && Conflict(fs, b, target))
    ensures Blocked(h, fs, b, c, d)
  {
    hide Folds, Conflict;
  }

  lemma TargetIn(h: Graph, fs: Readings, hgt: map<Block, nat>, c: Block, d: Edge, target: Block)
    requires Fits(h.Keys, fs) && c in h && d.pred in h && target == FoldTo(h, fs, c, d) && Dag(h, hgt)
    ensures h.Keys <= hgt.Keys && target in h && hgt[target] < hgt[c]
  {
    var f := Folds(h[c].s, fs.tab[c], h[d.pred].s, fs.tab[d.pred], d.sense);
    hide Folds;
    if h[c].s.Jmp? {
      DagSucc(h, hgt, c, f.sense);
    }
  }

  lemma EdgeInside(g: Graph, e: Edge)
    requires e in EdgesOf(g.Keys)
    ensures e.pred in g
  {
  }

  lemma CommonTarget(g: Graph, rank: map<Block, nat>, root: Block, e: Edge, child: Block)
    requires Dag(g, rank) && root in g && Skips(g, rank, root, Snap(g.Keys)) && e.pred in g && e.pred.s.Jmp?
    requires child == e.pred.Succ(e.sense) && child in g && child.jt == child.jf && child.jt != null
    ensures child.jt in g && rank[child.jt] < rank[child] && Skips(g, rank, root, Redirect(Snap(g.Keys), e, child.jt))
  {
    SkipsAt(g, rank, root, e.pred);
    SkipsAt(g, rank, root, child);
    hide Dag, Skips, Snap;
    RedirectSkips(g, rank, root, Snap(g.Keys), e, true);
  }

  lemma FoldTarget(g: Graph, rank: map<Block, nat>, root: Block, e: Edge, e': Edge, child: Block, target: Block)
    requires Dag(g, rank) && root in g && Ready(g, rank, root) && Skips(g, rank, root, Snap(g.Keys))
    requires e.pred in Reach(g, rank, root) && e.pred.s.Jmp? && e' in EdgesOf(g.Keys) && e' in Edom(e) && e'.pred in g
    requires child == e.pred.Succ(e.sense) && child in g
    requires |child.val| == N_ATOMS && |e'.pred.val| == N_ATOMS
    requires var f := Folds(child.s, Operands(child.val[A_ATOM], child.oval), e'.pred.s,
                            Operands(e'.pred.val[A_ATOM], e'.pred.oval), e'.sense);
      f.Known? && target == child.Succ(f.sense)
    ensures target in g && rank[target] < rank[child] && Skips(g, rank, root, Redirect(Snap(g.Keys), e, target))
  {
    SkipsAt(g, rank, root, e.pred);
    SkipsAt(g, rank, root, child);
    SkipsAt(g, rank, root, e'.pred);
    EdgesIn(Reach(g, rank, root));
    var edom := map e | e in EdgesOf(Reach(g, rank, root)) :: Edom(e);
    var tab := TabOf(g.Keys);
    var f := Folds(child.s, tab[child], e'.pred.s, tab[e'.pred], e'.sense);
    assert e in edom && e' in edom[e];
    assert Faithful(g, Reach(g, rank, root), tab) && Solves(Edges(g, rank, root), edom);
    hide Dag, Skips, Snap, Ready, Faithful, Solves, Folds;
    FoldImplies(g, rank, root, edom, tab, e, e', child);
    RedirectSkips(g, rank, root, Snap(g.Keys), e, f.sense);
  }

  /** The edges of these blocks cannot skip any more. */
  ghost predicate AllExhausted(h: Graph, fs: Readings, edom: map<Edge, set<Edge>>, edges: seq<Edge>, done: set<Block>)
    requires Fits(h.Keys, fs)
  {
    forall x, s | x in done && x in h && h[x].s.Jmp? :: Edge(x, s) in edom && Exhausted(h, fs, edom[Edge(x, s)], edges, Edge(x, s))
  }

  /** In this order of the blocks, none of these is above p. */
  ghost predicate NotAbove(done: set<Block>, hgt: map<Block, nat>, p: Block) {
    p in hgt && forall x | x in done :: x in hgt && hgt[x] <= hgt[p]
  }

  /** Redirecting an edge leaves the other edges of blocks that are not above it as they were. */
  lemma StayExhausted(h: Graph, h': Graph, fs: Readings, hgt: map<Block, nat>, edom: map<Edge, set<Edge>>, edges: seq<Edge>, done: set<Block>, d: Edge)
    requires Fits(h.Keys, fs) && Fits(h'.Keys, fs) && Dag(h, hgt) && d.pred in h && NotAbove(done, hgt, d.pred) && d in edom
    requires forall x, s | x in done && x in h && h[x].s.Jmp? && Edge(x, s) != d ::
      Edge(x, s) in edom && Exhausted(h, fs, edom[Edge(x, s)], edges, Edge(x, s))
    requires (h' == h || Lowered(h, h', fs, hgt, d)) && Exhausted(h', fs, edom[d], edges, d)
    ensures AllExhausted(h', fs, edom, edges, done)
  {
    hide Blocked, Conflict;
    forall x, s | x in done && x in h' && h'[x].s.Jmp?
      ensures Edge(x, s) in edom && Exhausted(h', fs, edom[Edge(x, s)], edges, Edge(x, s))
    {
      if h' != h && Edge(x, s) != d {
        assert Exhausted(h, fs, edom[Edge(x, s)], edges, Edge(x, s));
        DagSucc(h, hgt, x, s);
        StaysExhausted(h, fs, edom[Edge(x, s)], edges, Edge(x, s), d, h'[d.pred].Succ(d.sense));
      }
    }
  }

  ghost function Heights(g: Graph, rank: map<Block, nat>): map<Block, nat>
    requires Dag(g, rank)
  {
    map b | b in g :: Height(g, rank, b)
  }

  lemma HeightsOrder(g: Graph, rank: map<Block, nat>)
    requires Dag(g, rank)
    ensures Dag(g, Heights(g, rank))
  {
  }

  /** The heap during the sweep. */
  ghost predicate Sweeping(g: Graph, rank: map<Block, nat>, root: Block, edges: seq<Edge>, done: set<Block>)
    requires Dag(g, rank) && root in g
    reads g.Keys`val, g.Keys`oval, g.Keys`etDom, g.Keys`efDom, g.Keys`outUse, g.Keys`stmts, g.Keys`s, g.Keys`jt, g.Keys`jf
  {
    && Ready(g, rank, root) && Sized(g.Keys) && Skips(g, rank, root, Snap(g.Keys)) && Dag(Snap(g.Keys), Heights(g, rank))
    && AllExhausted(Snap(g.Keys), ReadingsOf(g.Keys), EdomOf(g.Keys), edges, done)
  }

  /** In the heap, no edge of these blocks can skip its successor any more. */
  ghost predicate NoneSkips(blocks: set<Block>, edges: seq<Edge>, reach: set<Block>)
    reads blocks`val, blocks`oval, blocks`etDom, blocks`efDom, blocks`outUse, blocks`stmts, blocks`s, blocks`jt, blocks`jf
  {
    Sized(blocks) && AllExhausted(Snap(blocks), ReadingsOf(blocks), EdomOf(blocks), edges, reach)
  }

  lemma SweepingParts(g: Graph, rank: map<Block, nat>, root: Block, edges: seq<Edge>, done: set<Block>, p: Block)
    requires Dag(g, rank) && root in g && Sweeping(g, rank, root, edges, done) && p in Reach(g, rank, root)
    ensures Ready(g, rank, root) && Sized(g.Keys) && Skips(g, rank, root, Snap(g.Keys)) && Dag(Snap(g.Keys), Heights(g, rank))
    ensures Snap(g.Keys).Keys == g.Keys && Fits(g.Keys, ReadingsOf(g.Keys)) && p in g
    ensures Edge(p, true) in EdomOf(g.Keys) && EdomOf(g.Keys)[Edge(p, true)] == Edom(Edge(p, true))
    ensures Edge(p, false) in EdomOf(g.Keys) && EdomOf(g.Keys)[Edge(p, false)] == Edom(Edge(p, false))
    ensures AllExhausted(Snap(g.Keys), ReadingsOf(g.Keys), EdomOf(g.Keys), edges, done)
  {
    hide Ready, Skips, Exhausted, AllExhausted, EdomOf, Heights;
    EdomAt(g.Keys, p);
  }

  lemma EdomAt(blocks: set<Block>, p: Block)
    requires p in blocks
    ensures Edge(p, true) in EdomOf(blocks) && EdomOf(blocks)[Edge(p, true)] == Edom(Edge(p, true))
    ensures Edge(p, false) in EdomOf(blocks) && EdomOf(blocks)[Edge(p, false)] == Edom(Edge(p, false))
  {
  }

  lemma SweepingFrom(g: Graph, rank: map<Block, nat>, root: Block, edges: seq<Edge>, done: set<Block>)
    requires Dag(g, rank) && root in g && Ready(g, rank, root) && Sized(g.Keys) && Skips(g, rank, root, Snap(g.Keys))
    requires Dag(Snap(g.Keys), Heights(g, rank)) && Snap(g.Keys).Keys == g.Keys && Fits(g.Keys, ReadingsOf(g.Keys))
    requires AllExhausted(Snap(g.Keys), ReadingsOf(g.Keys), EdomOf(g.Keys), edges, done)
    ensures Sweeping(g, rank, root, edges, done)
  {
    hide Ready, Skips, Exhausted, AllExhausted;
  }

  /** Both edges of a block of the next level, or of the same one. */
  method OptEdges(p: Block, edges: seq<Edge>, ghost g: Graph, ghost rank: map<Block, nat>, ghost root: Block, ghost done: set<Block>)
    requires Dag(g, rank) && root in g && Sweeping(g, rank, root, edges, done) && p in Reach(g, rank, root) && p.s.Jmp?
    requires NotAbove(done, Heights(g, rank), p) && forall k | 0 <= k < |edges| :: edges[k] in EdgesOf(g.Keys)
    modifies p`jt, p`jf
    ensures Sweeping(g, rank, root, edges, done + {p})
  {
    hide *;
    SweepingParts(g, rank, root, edges, done, p);
    ghost var hgt, fs, edom, h := Heights(g, rank), ReadingsOf(g.Keys), EdomOf(g.Keys), Snap(g.Keys);
    var _ := OptJ(Edge(p, true), edges, g, rank, root, hgt);
    ghost var h1 := Snap(g.Keys);
    OneExhausted(h, h1, fs, hgt, edom, edges, done, Edge(p, true));
    var _ := OptJ(Edge(p, false), edges, g, rank, root, hgt);
    BothExhausted(h1, Snap(g.Keys), fs, hgt, edom, edges, done, p);
    SweepingFrom(g, rank, root, edges, done + {p});
  }

  lemma OneExhausted(h: Graph, h': Graph, fs: Readings, hgt: map<Block, nat>, edom: map<Edge, set<Edge>>, edges: seq<Edge>, done: set<Block>, d: Edge)
    requires Fits(h.Keys, fs) && Fits(h'.Keys, fs) && Dag(h, hgt) && d.pred in h && NotAbove(done, hgt, d.pred) && d in edom
    requires AllExhausted(h, fs, edom, edges, done) && (h' == h || Lowered(h, h', fs, hgt, d)) && Exhausted(h', fs, edom[d], edges, d)
    ensures AllExhausted(h', fs, edom, edges, done)
  {
    hide Exhausted, Lowered, Dag;
    StayExhausted(h, h', fs, hgt, edom, edges, done, d);
  }

  lemma BothExhausted(h: Graph, h': Graph, fs: Readings, hgt: map<Block, nat>, edom: map<Edge, set<Edge>>, edges: seq<Edge>, done: set<Block>, p: Block)
    requires Fits(h.Keys, fs) && Fits(h'.Keys, fs) && Dag(h, hgt) && p in h && NotAbove(done, hgt, p) && Edge(p, true) in edom && Edge(p, false) in edom
    requires AllExhausted(h, fs, edom, edges, done) && Exhausted(h, fs, edom[Edge(p, true)], edges, Edge(p, true))
    requires (h' == h || Lowered(h, h', fs, hgt, Edge(p, false))) && Exhausted(h', fs, edom[Edge(p, false)], edges, Edge(p, false))
    ensures AllExhausted(h', fs, edom, edges, done + {p})
  {
    hide Exhausted, Lowered, Dag;
    StayExhausted(h, h', fs, hgt, edom, edges, done + {p}, Edge(p, false));
  }

  /** opt_blks' bottom-up sweep of opt_j: every edge of every block that is not a leaf, levels upwards. */
  method ThreadJumps(root: Block, levels: array<seq<Block>>, edges: seq<Edge>, ghost g: Graph, ghost rank: map<Block, nat>)
    requires g == Snap(g.Keys) && Dag(g, rank) && root in g && Ready(g, rank, root) && Levelled(g, rank, root, levels[..]) && Sized(g.Keys)
    requires root.level == Height(g, rank, root) && forall k | 0 <= k < |edges| :: edges[k] in EdgesOf(g.Keys)
    modifies g.Keys`jt, g.Keys`jf
    ensures Skips(g, rank, root, Snap(g.Keys)) && NoneSkips(g.Keys, edges, Reach(g, rank, root))
    ensures Contained(g, Reach(g, rank, root)) ==> forall st, pkt | CleanTrail(g, Trail(g, rank, root, pkt), pkt) ::
      Run(Snap(g.Keys), rank, root, st, pkt) == Run(g, rank, root, st, pkt)
  {
    hide *;
    SweepStarts(g, rank, root, levels[..], edges);
    RootFits(g, rank, root, levels[..]);
    var i := 1;
    while i <= root.level
      invariant 1 <= i <= root.level + 1 && Sweeping(g, rank, root, edges, MetUp(g, rank, root, levels[..], i, 0))
    {
      ThreadLevel(i, levels, edges, g, rank, root);
      MetUpSteps(g, rank, root, levels[..], i);
      i := i + 1;
    }
    MetUpSteps(g, rank, root, levels[..], i);
    SweepEnds(g, rank, root, edges);
  }

  /** The blocks of one level. */
  method ThreadLevel(i: nat, levels: array<seq<Block>>, edges: seq<Edge>, ghost g: Graph, ghost rank: map<Block, nat>, ghost root: Block)
    requires Dag(g, rank) && root in g && Levelled(g, rank, root, levels[..]) && 1 <= i < levels.Length
    requires forall k | 0 <= k < |edges| :: edges[k] in EdgesOf(g.Keys)
    requires Sweeping(g, rank, root, edges, MetUp(g, rank, root, levels[..], i, 0))
    modifies g.Keys`jt, g.Keys`jf
    ensures Sweeping(g, rank, root, edges, MetUp(g, rank, root, levels[..], i, |levels[i]|))
  {
    hide *;
    ghost var lv := levels[..];
    for k := 0 to |levels[i]|
      invariant lv == levels[..] && Sweeping(g, rank, root, edges, MetUp(g, rank, root, lv, i, k))
    {
      var p := levels[i][k];
      InLevel(g, rank, root, lv, edges, i, k);
      OptEdges(p, edges, g, rank, root, MetUp(g, rank, root, lv, i, k));
    }
  }

  lemma SweepStarts(g: Graph, rank: map<Block, nat>, root: Block, lv: Lists, edges: seq<Edge>)
    requires g == Snap(g.Keys) && Dag(g, rank) && root in g && Ready(g, rank, root) && Levelled(g, rank, root, lv) && Sized(g.Keys)
    ensures 1 <= |lv| && Sweeping(g, rank, root, edges, MetUp(g, rank, root, lv, 1, 0))
  {
    SkipsNothing(g, rank, root);
    HeightsOrder(g, rank);
    RootFits(g, rank, root, lv);
    MetUpSteps(g, rank, root, lv, 1);
    hide Skips, Ready, Levelled, Reach, Height, MetUp, Heights;
  }

  lemma SweepEnds(g: Graph, rank: map<Block, nat>, root: Block, edges: seq<Edge>)
    requires Dag(g, rank) && root in g && Sweeping(g, rank, root, edges, Reach(g, rank, root))
    ensures Skips(g, rank, root, Snap(g.Keys)) && NoneSkips(g.Keys, edges, Reach(g, rank, root))
    ensures Contained(g, Reach(g, rank, root)) ==> forall st, pkt | CleanTrail(g, Trail(g, rank, root, pkt), pkt) ::
      Dag(Snap(g.Keys), rank) && Run(Snap(g.Keys), rank, root, st, pkt) == Run(g, rank, root, st, pkt)
  {
    hide AllExhausted, Contained, Trail, Run, Ready, Reach;
    if Contained(g, Reach(g, rank, root)) {
      forall st, pkt | CleanTrail(g, Trail(g, rank, root, pkt), pkt)
        ensures Dag(Snap(g.Keys), rank) && Run(Snap(g.Keys), rank, root, st, pkt) == Run(g, rank, root, st, pkt)
      {
        SkippingPreserves(g, rank, root, Snap(g.Keys), st, pkt);
      }
    }
  }

  lemma InLevel(g: Graph, rank: map<Block, nat>, root: Block, lv: Lists, edges: seq<Edge>, i: nat, k: nat)
    requires Dag(g, rank) && root in g && Levelled(g, rank, root, lv) && 1 <= i < |lv| && k < |lv[i]|
    requires Sweeping(g, rank, root, edges, MetUp(g, rank, root, lv, i, k))
    ensures var b, met := lv[i][k], MetUp(g, rank, root, lv, i, k);
      && b in Reach(g, rank, root) && b in g && b.s.Jmp? && NotAbove(met, Heights(g, rank), b)
      && MetUp(g, rank, root, lv, i, k + 1) == met + {b}
  {
    var b := lv[i][k];
    MetUpMore(g, rank, root, lv, i, k);
    SweepingParts(g, rank, root, edges, MetUp(g, rank, root, lv, i, k), b);
    SkipsAt(g, rank, root, b);
    hide Sweeping, Skips, Levelled, AllExhausted, Reach;
  }
}
