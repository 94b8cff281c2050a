/** Node and edge dominators: what every way from the root goes through. */
module Dominators {
  import opened Flowgraph
  import opened Levels

  // ----- Dominators in any flow of items -----

  /** Items, out of all there are, where ways through them start, and which may come just before each. */
  datatype Flow<T> = Flow(items: set<T>, all: set<T>, roots: set<T>, preds: map<T, set<T>>, depth: map<T, nat>)

  /** Ways only lead deeper. */
  ghost predicate Valid<T>(f: Flow<T>) {
    && f.preds.Keys == f.items && f.depth.Keys == f.items && f.roots <= f.items && f.items <= f.all
    && forall x, p | x in f.items && p in f.preds[x] :: p in f.items && f.depth[p] < f.depth[x]
  }

  /** A way from a root that ends in x. */
  ghost predicate Way<T>(f: Flow<T>, way: seq<T>, x: T)
    requires Valid(f)
  {
    && way != [] && way[0] in f.roots && way[|way| - 1] == x
    && forall i | 0 < i < |way| :: way[i] in f.items && way[i - 1] in f.preds[way[i]]
  }

  /** The equations of dominance. */
  ghost predicate Solves<T>(f: Flow<T>, dom: map<T, set<T>>)
    requires Valid(f)
  {
    dom.Keys == f.items &&
    forall x, d | x in f.items && d in f.all :: d in dom[x] <==> d == x || Inherits(f, dom, x, d)
  }

  ghost predicate Inherits<T>(f: Flow<T>, dom: map<T, set<T>>, x: T, d: T)
    requires Valid(f) && x in f.items && f.items <= dom.Keys
  {
    x !in f.roots && forall p | p in f.preds[x] :: d in dom[p]
  }

  /** What dominates x lies on every way to x. */
  lemma {:induction false} DominatorOnWay<T>(f: Flow<T>, dom: map<T, set<T>>, x: T, d: T, way: seq<T>)
    requires Valid(f) && Solves(f, dom) && x in f.items && d in f.all && d in dom[x] && Way(f, way, x)
    ensures d in way
    decreases |way|
  {
    if d != x {
      assert Inherits(f, dom, x, d);
      assert |way| > 1;
      var front := way[..|way| - 1];
      var p := front[|front| - 1];
      assert p in f.preds[x];
      DominatorOnWay(f, dom, p, d, front);
    }
  }

  /** What does not dominate x is avoided by some way to x. */
  lemma {:induction false} WayAround<T>(f: Flow<T>, dom: map<T, set<T>>, x: T, d: T) returns (way: seq<T>)
    requires Valid(f) && Solves(f, dom) && x in f.items && d in f.all && d !in dom[x]
    ensures Way(f, way, x) && d !in way
    decreases f.depth[x]
  {
    assert !Inherits(f, dom, x, d);
    if x in f.roots {
      way := [x];
    } else {
      var p :| p in f.preds[x] && d !in dom[p];
      way := WayAround(f, dom, p, d);
      way := way + [x];
    }
  }

  /** A solution of the equations is exactly dominance. */
  lemma DominatesIffOnEveryWay<T>(f: Flow<T>, dom: map<T, set<T>>, x: T, d: T)
    requires Valid(f) && Solves(f, dom) && x in f.items && d in f.all
    ensures d in dom[x] <==> forall way | Way(f, way, x) :: d in way
  {
    if d in dom[x] {
      forall way | Way(f, way, x)
        ensures d in way
      {
        DominatorOnWay(f, dom, x, d, way);
      }
    } else {
      var way := WayAround(f, dom, x, d);
    }
  }

  // ----- One sweep solves the equations -----

  /** A sweep that has met some items, each after its predecessors. */
  ghost predicate Swept<T>(f: Flow<T>, met: set<T>, dom: map<T, set<T>>)
    requires Valid(f)
  {
    && f.items <= dom.Keys && met <= f.items
    && (forall x, p | x in met && p in f.preds[x] :: p in met)
    && forall x, d | x in f.items && d in f.all :: d in dom[x] <==> MetInherits(f, met, dom, x, d)
  }

  ghost predicate MetInherits<T>(f: Flow<T>, met: set<T>, dom: map<T, set<T>>, x: T, d: T)
    requires Valid(f) && x in f.items && f.items <= dom.Keys
  {
    (x in met && d == x) || (x !in f.roots && forall p | p in f.preds[x] && p in met :: d in dom[p])
  }

  /** The sets a sweep starts from: nothing for the roots, everything for the rest. */
  lemma SweepStarts<T>(f: Flow<T>, dom: map<T, set<T>>)
    requires Valid(f) && f.items <= dom.Keys
    requires forall x | x in f.items :: if x in f.roots then dom[x] == {} else f.all <= dom[x]
    ensures Swept(f, {}, dom)
  {
  }

  /** Meeting x: it dominates itself, and what follows it keeps only what dominates x. */
  ghost function Meet<T>(dom: map<T, set<T>>, x: T, next: set<T>): map<T, set<T>>
    requires x in dom
  {
    map y | y in dom :: if y == x then dom[x] + {x} else if y in next then dom[y] * (dom[x] + {x}) else dom[y]
  }

  lemma SweepStep<T>(f: Flow<T>, met: set<T>, dom: map<T, set<T>>, x: T, next: set<T>)
    requires Valid(f) && Swept(f, met, dom) && x in f.items - met && f.preds[x] <= met
    requires forall y | y in f.items :: y in next <==> x in f.preds[y]
    ensures Swept(f, met + {x}, Meet(dom, x, next))
  {
    var dom' := Meet(dom, x, next);
    forall y, d | y in f.items && d in f.all
      ensures d in dom'[y] <==> MetInherits(f, met + {x}, dom', y, d)
    {
      assert d in dom[y] <==> MetInherits(f, met, dom, y, d);
      assert forall p | p in f.preds[y] && p in met :: dom'[p] == dom[p] by {
        assert forall p | p in met && p in next :: x in f.preds[p] && x in met;
      }
    }
  }

  lemma SweepEnds<T>(f: Flow<T>, dom: map<T, set<T>>)
    requires Valid(f) && Swept(f, f.items, dom)
    ensures Solves(f, map x | x in f.items :: dom[x])
  {
    var dom' := map x | x in f.items :: dom[x];
    forall x, d | x in f.items && d in f.all
      ensures d in dom'[x] <==> d == x || Inherits(f, dom', x, d)
    {
      assert d in dom[x] <==> MetInherits(f, f.items, dom, x, d);
    }
  }

  // ----- The flow of blocks -----

  ghost function Blocks(g: Graph, rank: map<Block, nat>, root: Block): Flow<Block>
    requires Dag(g, rank) && root in g
  {
    var items := Reach(g, rank, root);
    ReachRanks(g, rank, root);
    Flow(items, g.Keys, {root},
         map b | b in items :: set p | p in items && (g[p].jt == b || g[p].jf == b),
         map b | b in items :: rank[root] - rank[b])
  }

  lemma BlocksValid(g: Graph, rank: map<Block, nat>, root: Block)
    requires Dag(g, rank) && root in g
    ensures Valid(Blocks(g, rank, root))
  {
    ReachRanks(g, rank, root);
    HeightsFall(g, rank);
    var f := Blocks(g, rank, root);
    forall b, p | b in f.items && p in f.preds[b]
      ensures p in f.items && f.depth[p] < f.depth[b]
    {
      assert g[p].jt == g[p].Succ(true) && g[p].jf == g[p].Succ(false);
    }
  }

  ghost function DomOf(blocks: set<Block>): map<Block, set<Block>>
    reads blocks`dom
  {
    map b | b in blocks :: b.dom
  }

  /** The start of find_dom: every block dominated by everything, the root by nothing. */
  method InitDom(root: Block, blocks: seq<Block>, ghost region: set<Block>)
    requires root in blocks && forall b | b in blocks :: b in region
    modifies region`dom
    ensures forall b | b in blocks :: b.dom == if b == root then {} else set x | x in blocks
  {
    var all := set x | x in blocks;
    for i := 0 to |blocks|
      invariant forall j | 0 <= j < i :: blocks[j].dom == all
    {
      blocks[i].dom := all;
    }
    root.dom := {};
  }

  ghost function NextBlocks(g: Graph, b: Block): set<Block>
    requires b in g
  {
    set y | y in g && (y == g[b].jt || y == g[b].jf)
  }

  /** The body of find_dom's loops. */
  method MeetBlock(b: Block, ghost blocks: set<Block>, ghost g: Graph)
    requires g == Snap(blocks) && b in blocks && (IsLeaf(g[b]) || (g[b].jt in g && g[b].jf in g && g[b].jt != b && g[b].jf != b))
    modifies blocks`dom
    ensures DomOf(blocks) == Meet(old(DomOf(blocks)), b, NextBlocks(g, b))
  {
    assert g[b] == Node(b.stmts, b.s, b.jt, b.jf);
    b.dom := b.dom + {b};
    if b.jt != null {
      b.jt.dom := b.jt.dom * b.dom;
      b.jf.dom := b.jf.dom * b.dom;
    }
  }

  /** find_dom: one sweep, from the highest level down. */
  method FindDom(root: Block, blocks: seq<Block>, levels: array<seq<Block>>, ghost g: Graph, ghost rank: map<Block, nat>)
    requires g == Snap(g.Keys) && Dag(g, rank) && root in g && Levelled(g, rank, root, levels[..])
    requires root.level == Height(g, rank, root)
    requires g.Keys == set b | b in blocks
    modifies g.Keys`dom
    ensures Valid(Blocks(g, rank, root))
    ensures Solves(Blocks(g, rank, root), map b | b in Reach(g, rank, root) :: b.dom)
    ensures forall b, d | b in Reach(g, rank, root) && d in g ::
      d in b.dom <==> forall way | Way(Blocks(g, rank, root), way, b) :: d in way
  {
    hide Dag, Reach, Levelled, Valid, Swept, Solves, Met, Height, Blocks, Snap;
    ghost var f, lv := Blocks(g, rank, root), levels[..];
    BlocksValid(g, rank, root);
    InitDom(root, blocks, g.Keys);
    assert forall b | b in Reach(g, rank, root) :: b in blocks;
    FirstDom(g, rank, root);
    hide DomOf;
    var i := root.level + 1;
    RootFits(g, rank, root, lv);
    MetSteps(g, rank, root, lv, root.level);
    while i > 0
      invariant 0 <= i <= Height(g, rank, root) + 1 && g == Snap(g.Keys)
      invariant Swept(f, Met(g, rank, root, lv, i - 1, 0), DomOf(g.Keys))
    {
      i := i - 1;
      MeetLevel(root, levels, i, g, rank);
    }
    MetSteps(g, rank, root, lv, -1);
    LastDom(g, rank, root);
    DomIsOnEveryWay(g, rank, root);
  }

  lemma DomIsOnEveryWay(g: Graph, rank: map<Block, nat>, root: Block)
    requires Dag(g, rank) && root in g && Valid(Blocks(g, rank, root))
    requires Solves(Blocks(g, rank, root), map b | b in Reach(g, rank, root) :: b.dom)
    ensures forall b, d | b in Reach(g, rank, root) && d in g ::
      d in b.dom <==> forall way | Way(Blocks(g, rank, root), way, b) :: d in way
  {
    forall b, d | b in Reach(g, rank, root) && d in g
      ensures d in b.dom <==> forall way | Way(Blocks(g, rank, root), way, b) :: d in way
    {
      DominatesIffOnEveryWay(Blocks(g, rank, root), map x | x in Reach(g, rank, root) :: x.dom, b, d);
    }
  }

  /** find_dom's inner loop. */
  method MeetLevel(ghost root: Block, levels: array<seq<Block>>, i: nat, ghost g: Graph, ghost rank: map<Block, nat>)
    requires g == Snap(g.Keys) && Dag(g, rank) && root in g && Levelled(g, rank, root, levels[..]) && i < levels.Length
    requires Valid(Blocks(g, rank, root)) && Swept(Blocks(g, rank, root), Met(g, rank, root, levels[..], i, 0), DomOf(g.Keys))
    modifies g.Keys`dom
    ensures Swept(Blocks(g, rank, root), Met(g, rank, root, levels[..], i - 1, 0), DomOf(g.Keys))
  {
    hide Dag, Reach, Levelled, Valid, Swept, Met, Meet, Blocks, DomOf, Snap, NextBlocks;
    ghost var f, lv := Blocks(g, rank, root), levels[..];
    var k := 0;
    while k < |levels[i]|
      invariant 0 <= k <= |levels[i]| && g == Snap(g.Keys)
      invariant Swept(f, Met(g, rank, root, lv, i, k), DomOf(g.Keys))
    {
      FollowBlock(g, rank, root, lv, i, k, DomOf(g.Keys));
      MeetBlock(levels[i][k], g.Keys, g);
      k := k + 1;
    }
    MetSteps(g, rank, root, lv, i);
  }

  lemma FirstDom(g: Graph, rank: map<Block, nat>, root: Block)
    requires Dag(g, rank) && root in g && Valid(Blocks(g, rank, root))
    requires forall b | b in Reach(g, rank, root) :: if b == root then b.dom == {} else g.Keys <= b.dom
    ensures Swept(Blocks(g, rank, root), {}, DomOf(g.Keys))
  {
    SweepStarts(Blocks(g, rank, root), DomOf(g.Keys));
  }

  /** Meeting the next block of the sweep is a step of the sweep. */
  lemma FollowBlock(g: Graph, rank: map<Block, nat>, root: Block, lv: Lists, i: nat, k: nat, dom: map<Block, set<Block>>)
    requires Dag(g, rank) && root in g && Valid(Blocks(g, rank, root)) && Levelled(g, rank, root, lv)
    requires i < |lv| && k < |lv[i]|
    requires Swept(Blocks(g, rank, root), Met(g, rank, root, lv, i, k), dom)
    ensures var b := lv[i][k];
      && b in g && (IsLeaf(g[b]) || (g[b].jt in g && g[b].jf in g && g[b].jt != b && g[b].jf != b))
      && Swept(Blocks(g, rank, root), Met(g, rank, root, lv, i, k + 1),
               Meet(dom, b, NextBlocks(g, b)))
  {
    var b, f, met := lv[i][k], Blocks(g, rank, root), Met(g, rank, root, lv, i, k);
    NextDown(g, rank, root, lv, i, k);
    forall p | p in f.preds[b]
      ensures p in met
    {
      assert g[p].Succ(true) == b || g[p].Succ(false) == b;
    }
    SweepStep(f, met, dom, b, NextBlocks(g, b));
  }

  lemma LastDom(g: Graph, rank: map<Block, nat>, root: Block)
    requires Dag(g, rank) && root in g && Valid(Blocks(g, rank, root))
    requires Swept(Blocks(g, rank, root), Reach(g, rank, root), DomOf(g.Keys))
    ensures Solves(Blocks(g, rank, root), map b | b in Reach(g, rank, root) :: b.dom)
  {
    SweepEnds(Blocks(g, rank, root), DomOf(g.Keys));
    hide Solves, Swept, Dag, Valid;
    assert (map b | b in Reach(g, rank, root) :: DomOf(g.Keys)[b]) == map b | b in Reach(g, rank, root) :: b.dom;
  }

  // ----- The flow of edges -----

  ghost function EdgesOf(blocks: set<Block>): set<Edge> {
    (set b | b in blocks :: Edge(b, true)) + (set b | b in blocks :: Edge(b, false))
  }

  /** Edges, each after the edges that lead to the block it leaves. */
  ghost function Edges(g: Graph, rank: map<Block, nat>, root: Block): Flow<Edge>
    requires Dag(g, rank) && root in g
  {
    var items := EdgesOf(Reach(g, rank, root));
    ReachRanks(g, rank, root);
    Flow(items, EdgesOf(g.Keys), {Edge(root, true), Edge(root, false)},
         map e | e in items :: set p | p in items && g[p.pred].Succ(p.sense) == e.pred,
         map e | e in items :: rank[root] - rank[e.pred])
  }

  lemma EdgesValid(g: Graph, rank: map<Block, nat>, root: Block)
    requires Dag(g, rank) && root in g
    ensures Valid(Edges(g, rank, root))
  {
    ReachRanks(g, rank, root);
    HeightsFall(g, rank);
    var f := Edges(g, rank, root);
    forall e, p | e in f.items && p in f.preds[e]
      ensures p in f.items && f.depth[p] < f.depth[e]
    {
      assert g[p.pred].Succ(p.sense) == if p.sense then g[p.pred].jt else g[p.pred].jf;
    }
  }

  lemma EdgeFlow(g: Graph, rank: map<Block, nat>, root: Block)
    requires Dag(g, rank) && root in g
    ensures var f := Edges(g, rank, root);
      && f.items == EdgesOf(Reach(g, rank, root)) && f.all == EdgesOf(g.Keys)
      && f.roots == {Edge(root, true), Edge(root, false)} && root in Reach(g, rank, root)
  {
  }

  ghost function EdomOf(blocks: set<Block>): map<Edge, set<Edge>>
    reads blocks`etDom, blocks`efDom
  {
    map e | e in EdgesOf(blocks) :: Edom(e)
  }

  function Edom(e: Edge): set<Edge>
    reads e.pred`etDom, e.pred`efDom
  {
    if e.sense then e.pred.etDom else e.pred.efDom
  }

  method SetEdom(e: Edge, s: set<Edge>, ghost blocks: set<Block>)
    requires e.pred in blocks
    modifies e.pred`etDom, e.pred`efDom
    ensures EdomOf(blocks) == old(EdomOf(blocks))[e := s]
  {
    if e.sense {
      e.pred.etDom := s;
    } else {
      e.pred.efDom := s;
    }
  }

  method InitEdom(root: Block, blocks: seq<Block>, ghost region: set<Block>)
    requires root in blocks && forall b | b in blocks :: b in region
    modifies region`etDom, region`efDom
    ensures root.etDom == root.efDom == {}
    ensures forall b | b in blocks && b != root ::
      EdgesOf(set x | x in blocks) <= b.etDom && EdgesOf(set x | x in blocks) <= b.efDom
  {
    var all := (set x | x in blocks :: Edge(x, true)) + (set x | x in blocks :: Edge(x, false));
    for i := 0 to |blocks|
      invariant forall j | 0 <= j < i :: blocks[j].etDom == blocks[j].efDom == all
    {
      blocks[i].etDom, blocks[i].efDom := all, all;
    }
    root.etDom, root.efDom := {}, {};
  }

  ghost function NextEdges(g: Graph, e: Edge): set<Edge>
    requires e.pred in g
  {
    var c := g[e.pred].Succ(e.sense);
    if c == null then {} else {Edge(c, true), Edge(c, false)}
  }

  lemma EdomAt(blocks: set<Block>, e: Edge)
    requires e.pred in blocks
    ensures e in EdomOf(blocks) && EdomOf(blocks)[e] == Edom(e)
  {
    EdgesIn(blocks);
  }

  /** propedom. */
  method Propedom(e: Edge, ghost blocks: set<Block>, ghost g: Graph)
    requires g == Snap(blocks) && e.pred in blocks && g[e.pred].Succ(e.sense) != e.pred
    requires g[e.pred].Succ(e.sense) != null ==> g[e.pred].Succ(e.sense) in blocks
    modifies blocks`etDom, blocks`efDom
    ensures EdomOf(blocks) == Meet(old(EdomOf(blocks)), e, NextEdges(g, e))
  {
    assert g[e.pred].Succ(e.sense) == e.pred.Succ(e.sense);
    ghost var dom := EdomOf(blocks);
    var own := Edom(e) + {e};
    EdomAt(blocks, e);
    hide Snap, EdomOf, Edom;
    SetEdom(e, own, blocks);
    var c := e.pred.Succ(e.sense);
    if c != null {
      EdomAt(blocks, Edge(c, true));
      EdomAt(blocks, Edge(c, false));
      SetEdom(Edge(c, true), Edom(Edge(c, true)) * own, blocks);
      SetEdom(Edge(c, false), Edom(Edge(c, false)) * own, blocks);
    }
  }

  /** The edges met by a downward sweep before the k-th block of level i. */
  ghost function MetEdges(g: Graph, rank: map<Block, nat>, root: Block, lv: Lists, i: int, k: nat): set<Edge>
    requires Dag(g, rank) && root in g && i < |lv| && (0 <= i ==> k <= |lv[i]|)
  {
    EdgesOf(Met(g, rank, root, lv, i, k))
  }

  /** find_edom: one sweep, from the highest level down. */
  method FindEdom(root: Block, blocks: seq<Block>, levels: array<seq<Block>>, ghost g: Graph, ghost rank: map<Block, nat>)
    requires g == Snap(g.Keys) && Dag(g, rank) && root in g && Levelled(g, rank, root, levels[..])
    requires root.level == Height(g, rank, root)
    requires g.Keys == set b | b in blocks
    modifies g.Keys`etDom, g.Keys`efDom
    ensures Valid(Edges(g, rank, root))
    ensures Solves(Edges(g, rank, root), map e | e in EdgesOf(Reach(g, rank, root)) :: Edom(e))
    ensures forall e, d | e in EdgesOf(Reach(g, rank, root)) && d in EdgesOf(g.Keys) ::
      d in Edom(e) <==> forall way | Way(Edges(g, rank, root), way, e) :: d in way
  {
    hide Dag, Reach, Levelled, Valid, Swept, Solves, Met, Height, Edges;
    ghost var f, lv := Edges(g, rank, root), levels[..];
    EdgesValid(g, rank, root);
    InitEdom(root, blocks, g.Keys);
    FirstEdom(g, rank, root);
    EdgesIn({});
    assert EdgesOf({}) == {};
    hide EdomOf, Snap, EdgesOf;
    var i := root.level + 1;
    RootFits(g, rank, root, lv);
    MetSteps(g, rank, root, lv, root.level);
    while i > 0
      invariant 0 <= i <= Height(g, rank, root) + 1 && g == Snap(g.Keys)
      invariant Swept(f, MetEdges(g, rank, root, lv, i - 1, 0), EdomOf(g.Keys))
    {
      i := i - 1;
      PropagateLevel(root, levels, i, g, rank);
    }
    MetSteps(g, rank, root, lv, -1);
    LastEdom(g, rank, root);
    EdomIsOnEveryWay(g, rank, root);
  }

  lemma EdomIsOnEveryWay(g: Graph, rank: map<Block, nat>, root: Block)
    requires Dag(g, rank) && root in g && Valid(Edges(g, rank, root))
    requires Solves(Edges(g, rank, root), map e | e in EdgesOf(Reach(g, rank, root)) :: Edom(e))
    ensures forall e, d | e in EdgesOf(Reach(g, rank, root)) && d in EdgesOf(g.Keys) ::
      d in Edom(e) <==> forall way | Way(Edges(g, rank, root), way, e) :: d in way
  {
    forall e, d | e in EdgesOf(Reach(g, rank, root)) && d in EdgesOf(g.Keys)
      ensures d in Edom(e) <==> forall way | Way(Edges(g, rank, root), way, e) :: d in way
    {
      DominatesIffOnEveryWay(Edges(g, rank, root), map x | x in EdgesOf(Reach(g, rank, root)) :: Edom(x), e, d);
    }
  }

  /** find_edom's inner loop. */
  method PropagateLevel(ghost root: Block, levels: array<seq<Block>>, i: nat, ghost g: Graph, ghost rank: map<Block, nat>)
    requires g == Snap(g.Keys) && Dag(g, rank) && root in g && Levelled(g, rank, root, levels[..]) && i < levels.Length
    requires Valid(Edges(g, rank, root)) && Swept(Edges(g, rank, root), MetEdges(g, rank, root, levels[..], i, 0), EdomOf(g.Keys))
    modifies g.Keys`etDom, g.Keys`efDom
    ensures Swept(Edges(g, rank, root), MetEdges(g, rank, root, levels[..], i - 1, 0), EdomOf(g.Keys))
  {
    hide Dag, Reach, Levelled, Valid, Swept, Met, Meet, Edges, EdomOf, Snap, NextEdges, EdgesOf;
    ghost var f, lv := Edges(g, rank, root), levels[..];
    var k := 0;
    while k < |levels[i]|
      invariant 0 <= k <= |levels[i]| && g == Snap(g.Keys)
      invariant Swept(f, MetEdges(g, rank, root, lv, i, k), EdomOf(g.Keys))
    {
      ghost var dom := EdomOf(g.Keys);
      FollowEdges(g, rank, root, lv, i, k, dom);
      Propedom(Edge(levels[i][k], true), g.Keys, g);
      Propedom(Edge(levels[i][k], false), g.Keys, g);
      k := k + 1;
    }
    MetSteps(g, rank, root, lv, i);
  }

  lemma FirstEdom(g: Graph, rank: map<Block, nat>, root: Block)
    requires Dag(g, rank) && root in g && Valid(Edges(g, rank, root))
    requires root.etDom == root.efDom == {}
    requires forall b | b in g && b != root :: EdgesOf(g.Keys) <= b.etDom && EdgesOf(g.Keys) <= b.efDom
    ensures Swept(Edges(g, rank, root), {}, EdomOf(g.Keys))
  {
    EdgeFlow(g, rank, root);
    hide Edges, EdomOf, EdgesOf, Reach, Dag, Valid, Swept;
    var f, dom := Edges(g, rank, root), EdomOf(g.Keys);
    forall e | e in f.items
      ensures e in dom && dom[e] == Edom(e) && if e in f.roots then dom[e] == {} else f.all <= dom[e]
    {
      FirstEdomOf(g, Reach(g, rank, root), root, e);
    }
    SweepStarts(f, dom);
  }

  lemma FirstEdomOf(g: Graph, reach: set<Block>, root: Block, e: Edge)
    requires root in reach && reach <= g.Keys && e in EdgesOf(reach)
    requires root.etDom == root.efDom == {}
    requires forall b | b in g && b != root :: EdgesOf(g.Keys) <= b.etDom && EdgesOf(g.Keys) <= b.efDom
    ensures e in EdomOf(g.Keys) && EdomOf(g.Keys)[e] == Edom(e)
    ensures if e == Edge(root, true) || e == Edge(root, false) then Edom(e) == {} else EdgesOf(g.Keys) <= Edom(e)
  {
    EdgesIn(reach);
    EdgesIn(g.Keys);
    assert e == Edge(e.pred, e.sense);
  }

  lemma FollowEdges(g: Graph, rank: map<Block, nat>, root: Block, lv: Lists, i: nat, k: nat, dom: map<Edge, set<Edge>>)
    requires Dag(g, rank) && root in g && Valid(Edges(g, rank, root)) && Levelled(g, rank, root, lv)
    requires i < |lv| && k < |lv[i]|
    requires Swept(Edges(g, rank, root), MetEdges(g, rank, root, lv, i, k), dom)
    ensures var b := lv[i][k];
      && b in g && (forall s :: g[b].Succ(s) != b && (g[b].Succ(s) != null ==> g[b].Succ(s) in g))
      && Edge(b, true) in dom && Edge(b, false) in dom
      && Swept(Edges(g, rank, root), MetEdges(g, rank, root, lv, i, k + 1),
               Meet(Meet(dom, Edge(b, true), NextEdges(g, Edge(b, true))), Edge(b, false), NextEdges(g, Edge(b, false))))
  {
    var b, f, met := lv[i][k], Edges(g, rank, root), MetEdges(g, rank, root, lv, i, k);
    NextDown(g, rank, root, lv, i, k);
    HeightsFall(g, rank);
    EdgesOfMore(Met(g, rank, root, lv, i, k), b);
    hide Levelled, Met;
    FollowEdge(g, rank, root, met, dom, Edge(b, true));
    FollowEdge(g, rank, root, met + {Edge(b, true)}, Meet(dom, Edge(b, true), NextEdges(g, Edge(b, true))), Edge(b, false));
  }

  lemma EdgesIn(s: set<Block>)
    ensures forall e :: e in EdgesOf(s) <==> e.pred in s
  {
    forall e: Edge
      ensures e in EdgesOf(s) <==> e.pred in s
    {
      assert e == Edge(e.pred, e.sense);
    }
  }

  lemma EdgesOfMore(s: set<Block>, b: Block)
    ensures EdgesOf(s + {b}) == EdgesOf(s) + {Edge(b, true)} + {Edge(b, false)}
    ensures forall e :: e in EdgesOf(s) <==> e.pred in s
  {
    EdgesIn(s);
    EdgesIn(s + {b});
  }

  /** Propagating along an edge all of whose predecessors have been met is a step of the sweep. */
  lemma FollowEdge(g: Graph, rank: map<Block, nat>, root: Block, met: set<Edge>, dom: map<Edge, set<Edge>>, e: Edge)
    requires Dag(g, rank) && root in g && Valid(Edges(g, rank, root)) && Swept(Edges(g, rank, root), met, dom)
    requires e in Edges(g, rank, root).items - met && e.pred in g
    requires forall p | p in Edges(g, rank, root).items && g[p.pred].Succ(p.sense) == e.pred :: p in met
    ensures Swept(Edges(g, rank, root), met + {e}, Meet(dom, e, NextEdges(g, e)))
  {
    hide Meet, Swept, EdgesOf, Reach;
    var f := Edges(g, rank, root);
    forall y | y in f.items
      ensures y in NextEdges(g, e) <==> e in f.preds[y]
    {
      assert y == Edge(y.pred, y.sense);
    }
    assert f.preds[e] <= met;
    SweepStep(f, met, dom, e, NextEdges(g, e));
  }

  lemma LastEdom(g: Graph, rank: map<Block, nat>, root: Block)
    requires Dag(g, rank) && root in g && Valid(Edges(g, rank, root))
    requires Swept(Edges(g, rank, root), EdgesOf(Reach(g, rank, root)), EdomOf(g.Keys))
    ensures Solves(Edges(g, rank, root), map e | e in EdgesOf(Reach(g, rank, root)) :: Edom(e))
  {
    hide Solves, Swept, Dag, Reach, Valid;
    var f, dom := Edges(g, rank, root), EdomOf(g.Keys);
    assert f.items == EdgesOf(Reach(g, rank, root));
    EdomRead(g.Keys, f.items, dom);
    SweepEnds(f, dom);
  }

  lemma EdomRead(blocks: set<Block>, items: set<Edge>, dom: map<Edge, set<Edge>>)
    requires dom == EdomOf(blocks) && items <= dom.Keys
    ensures (map e | e in items :: dom[e]) == map e | e in items :: Edom(e)
  {
  }
}
