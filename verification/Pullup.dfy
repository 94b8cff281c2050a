/** or_pullup and and_pullup: reordering the tests of a chain. */
module Pullup {
  import opened Words
  import opened Ir
  import opened Flowgraph
  import opened Levels
  import opened Liveness
  import opened Dominators
  import opened Threading

  // ----- What a packet comes to through self-contained blocks -----

  ghost function Value(g: Graph, rank: map<Block, nat>, b: Block, pkt: Packet): Outcome
    requires Dag(g, rank) && b in g
    decreases rank[b]
  {
    match ExitOf(g[b], pkt)
    case Reject => Returned(0)
    case Fault => Undefined
    case Next(_) => if g[b].s.Ret? then Returned(g[b].s.k) else Value(g, rank, g[b].Succ(Goes(g[b], pkt)), pkt)
  }

  lemma {:induction false} RunIsValue(g: Graph, rank: map<Block, nat>, b: Block, st: State, pkt: Packet)
    requires Dag(g, rank) && b in g && Contained(g, g.Keys)
    ensures Run(g, rank, b, st, pkt) == Value(g, rank, b, pkt)
    decreases rank[b]
  {
    assert SelfContained(g[b].stmts, g[b].s);
    SelfContainedDecides(g[b].stmts, g[b].s, st, Zeroed(), pkt);
    hide SelfContained, Zeroed, ExecAll, Contained;
    if g[b].s.Jmp? && ExecAll(g[b].stmts, st, pkt).Next? {
      RunIsValue(g, rank, g[b].Succ(Goes(g[b], pkt)), ExecAll(g[b].stmts, st, pkt).st, pkt);
    }
  }

  // ----- Chains of tests with a common way out -----

  /** Tests, each the `other` successor of the one before, that all leave to b's successor on side c. */
  ghost predicate Chain(g: Graph, c: bool, xs: seq<Block>) {
    && xs != [] && xs[0] in g
    && (forall i | 0 <= i < |xs| :: xs[i] in g && g[xs[i]].s.Jmp? && g[xs[i]].Succ(c) == g[xs[0]].Succ(c))
    && forall i | 0 <= i < |xs| - 1 :: xs[i + 1] == g[xs[i]].Succ(!c)
  }

  /** The first block of the chain dominates all of it. */
  ghost predicate Dominated(dom: map<Block, set<Block>>, xs: seq<Block>) {
    xs != [] && forall i | 0 <= i < |xs| :: xs[i] in dom && xs[0] in dom[xs[i]]
  }

  lemma {:induction false} ChainFalls(g: Graph, rank: map<Block, nat>, c: bool, xs: seq<Block>, i: nat, j: nat)
    requires Dag(g, rank) && Chain(g, c, xs) && i < j < |xs|
    ensures g.Keys <= rank.Keys && rank[xs[j]] < rank[xs[i]]
    decreases j
  {
    DagSucc(g, rank, xs[j - 1], !c);
    if i < j - 1 {
      ChainFalls(g, rank, c, xs, i, j - 1);
    }
  }

  /** The common way out is below the whole chain. */
  lemma ChainAbove(g: Graph, rank: map<Block, nat>, c: bool, xs: seq<Block>, i: nat)
    requires Dag(g, rank) && Chain(g, c, xs) && i < |xs|
    ensures g.Keys <= rank.Keys && g[xs[0]].Succ(c) in g && rank[g[xs[0]].Succ(c)] < rank[xs[i]]
  {
    DagSucc(g, rank, xs[i], c);
  }

  lemma {:induction false} WayFalls(g: Graph, rank: map<Block, nat>, root: Block, way: seq<Block>, x: Block, k: nat)
    requires Dag(g, rank) && root in g && Valid(Blocks(g, rank, root)) && Way(Blocks(g, rank, root), way, x) && k < |way|
    ensures way[k] in g && x in g && g.Keys <= rank.Keys && rank[x] <= rank[way[k]]
    decreases |way| - k
  {
    var f := Blocks(g, rank, root);
    if k < |way| - 1 {
      WayFalls(g, rank, root, way, x, k + 1);
      var p := way[k];
      assert way[k + 1 - 1] in f.preds[way[k + 1]];
      PredEdge(g, rank, root, p, way[k + 1]);
      DagSucc(g, rank, p, g[p].jt == way[k + 1]);
    } else if k > 0 {
      assert way[k - 1] in f.preds[way[k]];
    }
  }

  lemma PredEdge(g: Graph, rank: map<Block, nat>, root: Block, p: Block, b: Block)
    requires Dag(g, rank) && root in g && b in Blocks(g, rank, root).items && p in Blocks(g, rank, root).preds[b]
    ensures p in g && p in Reach(g, rank, root) && g[p].s.Jmp? && (g[p].jt == b || g[p].jf == b)
  {
  }

  /** A way from the chain's head to a block that leads into the chain stays in the chain. */
  lemma {:induction false} WayStaysInChain(g: Graph, rank: map<Block, nat>, root: Block, c: bool, xs: seq<Block>,
                                           way: seq<Block>, k: nat, j: nat, i: nat, q: Block, s: bool)
    requires Dag(g, rank) && root in g && Valid(Blocks(g, rank, root)) && Way(Blocks(g, rank, root), way, q)
    requires Chain(g, c, xs) && j < i < |xs| && k < |way| && way[k] == xs[j]
    requires q in g && g[q].s.Jmp? && g[q].Succ(s) == xs[i]
    ensures q == xs[i - 1] && s == !c
    decreases |way| - k
  {
    ChainAbove(g, rank, c, xs, i);
    DagSucc(g, rank, q, s);
    if k == |way| - 1 {
      if j + 1 < i {
        ChainFalls(g, rank, c, xs, j + 1, i);
      }
    } else {
      assert way[k + 1 - 1] in Blocks(g, rank, root).preds[way[k + 1]];
      PredEdge(g, rank, root, way[k], way[k + 1]);
      WayFalls(g, rank, root, way, q, k + 1);
      assert way[k + 1] == g[xs[j]].Succ(!c);
      if j + 1 < i {
        WayStaysInChain(g, rank, root, c, xs, way, k + 1, j + 1, i, q, s);
      }
    }
  }

  /** Every reachable block has a way to it. */
  lemma {:induction false} WayTo(g: Graph, rank: map<Block, nat>, root: Block, b: Block, way: seq<Block>, x: Block) returns (w: seq<Block>)
    requires Dag(g, rank) && root in g && Valid(Blocks(g, rank, root)) && x in Reach(g, rank, root)
    requires b in Reach(g, rank, x) && Way(Blocks(g, rank, root), way, x)
    ensures Way(Blocks(g, rank, root), w, b)
    decreases rank[x]
  {
    if b == x {
      w := way;
    } else {
      var y := if b in Reach(g, rank, g[x].jt) then g[x].jt else g[x].jf;
      ReachSuccessors(g, rank, root, x);
      assert g[x].Succ(true) == g[x].jt && g[x].Succ(false) == g[x].jf;
      assert x in Blocks(g, rank, root).preds[y];
      WayGoesOn(Blocks(g, rank, root), way, x, y);
      w := WayTo(g, rank, root, b, way + [y], y);
    }
  }

  /** Dominance by its head and acyclicity leave each later block of a chain one predecessor. */
  lemma OnePredecessor(g: Graph, rank: map<Block, nat>, root: Block, dom: map<Block, set<Block>>, c: bool, xs: seq<Block>, i: nat, q: Block, s: bool)
    requires Dag(g, rank) && root in g && Valid(Blocks(g, rank, root)) && Solves(Blocks(g, rank, root), dom)
    requires Chain(g, c, xs) && Dominated(dom, xs) && 0 < i < |xs|
    requires q in Reach(g, rank, root) && g[q].s.Jmp? && g[q].Succ(s) == xs[i]
    ensures q == xs[i - 1] && s == !c
  {
    var f := Blocks(g, rank, root);
    var way := WayTo(g, rank, root, q, [root], root);
    InFlow(g, rank, root, q, s);
    WayGoesOn(f, way, q, xs[i]);
    ChainFalls(g, rank, c, xs, 0, i);
    DominatorOnWay(f, dom, xs[i], xs[0], way + [xs[i]]);
    var k :| 0 <= k < |way| && way[k] == xs[0];
    WayStaysInChain(g, rank, root, c, xs, way, k, 0, i, q, s);
  }

  lemma InFlow(g: Graph, rank: map<Block, nat>, root: Block, q: Block, s: bool)
    requires Dag(g, rank) && root in g && q in Reach(g, rank, root) && g[q].s.Jmp?
    ensures var f := Blocks(g, rank, root);
      && f.all == g.Keys && g[q].Succ(s) in f.items && g[q].Succ(s) in f.preds && q in f.preds[g[q].Succ(s)]
  {
    ReachSuccessors(g, rank, root, q);
    assert g[q].Succ(s) == if s then g[q].jt else g[q].jf;
  }

  // ----- Pulling a test up -----

  /** Where the pull happens: the chain, the index of the test it is pulled in front of, and the side that leaves it. */
  datatype Site = Site(c: bool, xs: seq<Block>, m: nat) {
    ghost predicate Good(g: Graph) {
      Chain(g, c, xs) && m < |xs| - 1
    }

    /** The test pulled up, the one it is put before, and the one that preceded it. */
    function Pull(): Block requires xs != [] { xs[|xs| - 1] }
    function Front(): Block requires m < |xs| { xs[m] }
    function Before(): Block requires |xs| > 1 { xs[|xs| - 2] }
    predicate Inside(b: Block) requires m <= |xs| { b in xs[m..] }
  }

  /** Every edge to the front now goes to the pulled test, which goes on to the front; the last test skips to what followed. */
  ghost function MovedSucc(g: Graph, w: Site, b: Block, s: bool): Block?
    requires w.Good(g) && b in g
  {
    if b == w.Before() && s != w.c then g[w.Pull()].Succ(!w.c)
    else if b == w.Pull() && s != w.c then w.Front()
    else if g[b].Succ(s) == w.Front() then w.Pull()
    else g[b].Succ(s)
  }

  ghost function Moved(g: Graph, w: Site): (g': Graph)
    requires w.Good(g)
    ensures SameBodies(g, g') && forall b, s | b in g :: g'[b].Succ(s) == MovedSucc(g, w, b, s)
  {
    map b | b in g :: Node(g[b].stmts, g[b].s, MovedSucc(g, w, b, true), MovedSucc(g, w, b, false))
  }

  ghost function MovedRank(rank: map<Block, nat>, w: Site): map<Block, nat>
    requires w.m < |w.xs| && w.Front() in rank
  {
    map b | b in rank :: if b == w.Pull() then 2 * rank[w.Front()] + 1 else 2 * rank[b]
  }

  /** Only the block before it in the chain leads to a block inside; the front may have other predecessors when it is the head. */
  ghost predicate Sealed(g: Graph, w: Site)
    requires w.Good(g)
  {
    forall i, q, s | w.m < i < |w.xs| && q in g && g[q].s.Jmp? && g[q].Succ(s) == w.xs[i] :: q == w.xs[i - 1] && s == !w.c
  }

  lemma DominatedSealed(g: Graph, rank: map<Block, nat>, root: Block, dom: map<Block, set<Block>>, w: Site)
    requires Dag(g, rank) && root in g && Valid(Blocks(g, rank, root)) && Solves(Blocks(g, rank, root), dom)
    requires Reach(g, rank, root) == g.Keys && w.Good(g) && Dominated(dom, w.xs)
    ensures Sealed(g, w)
  {
    forall i, q, s | w.m < i < |w.xs| && q in g && g[q].s.Jmp? && g[q].Succ(s) == w.xs[i]
      ensures q == w.xs[i - 1] && s == !w.c
    {
      OnePredecessor(g, rank, root, dom, w.c, w.xs, i, q, s);
    }
  }

  lemma MovedDag(g: Graph, rank: map<Block, nat>, w: Site)
    requires Dag(g, rank) && w.Good(g) && Sealed(g, w)
    ensures g.Keys <= rank.Keys && Dag(Moved(g, w), MovedRank(rank, w))
  {
    var g', rank' := Moved(g, w), MovedRank(rank, w);
    ChainAbove(g, rank, w.c, w.xs, w.m);
    hide Dag, MovedSucc, MovedRank, Chain, Sealed;
    forall b | b in g
      ensures IsLeaf(g'[b]) || (g'[b].s.Jmp? && g'[b].jt in g' && g'[b].jf in g' && rank'[g'[b].jt] < rank'[b] && rank'[g'[b].jf] < rank'[b])
    {
      assert g'[b].jt == g'[b].Succ(true) && g'[b].jf == g'[b].Succ(false);
      MovedEdge(g, rank, w, b, true);
      MovedEdge(g, rank, w, b, false);
    }
    DagFrom(g', rank');
  }

  lemma DagFrom(g: Graph, rank: map<Block, nat>)
    requires g.Keys <= rank.Keys
    requires forall b | b in g ::
      IsLeaf(g[b]) || (g[b].s.Jmp? && g[b].jt in g && g[b].jf in g && rank[g[b].jt] < rank[b] && rank[g[b].jf] < rank[b])
    ensures Dag(g, rank)
  {
  }

  lemma MovedEdge(g: Graph, rank: map<Block, nat>, w: Site, b: Block, s: bool)
    requires Dag(g, rank) && w.Good(g) && Sealed(g, w) && b in g
    ensures g.Keys <= rank.Keys
    ensures g[b].s.Ret? ==> MovedSucc(g, w, b, s) == null
    ensures g[b].s.Jmp? ==> var y := MovedSucc(g, w, b, s);
      y in g && MovedRank(rank, w)[y] < MovedRank(rank, w)[b]
  {
    var last := |w.xs| - 1;
    ChainFalls(g, rank, w.c, w.xs, w.m, last);
    ChainFalls(g, rank, w.c, w.xs, last - 1, last);
    DagSucc(g, rank, w.Pull(), !w.c);
    if g[b].s.Jmp? {
      DagSucc(g, rank, b, s);
      assert w.Pull() == w.xs[last] && w.Before() == w.xs[last - 1];
      assert g[b].Succ(s) == w.xs[last] ==> b == w.xs[last - 1] && s == !w.c;
    } else {
      assert g[b].Succ(s) == null;
    }
  }

  // ----- What the filter returns -----

  /** Where all the tests of the chain lead on the side that leaves it. */
  ghost function WayOut(g: Graph, rank: map<Block, nat>, w: Site): (out: Block)
    requires Dag(g, rank) && w.Good(g)
    ensures out in g && forall i | 0 <= i < |w.xs| :: g[w.xs[i]].Succ(w.c) == out
  {
    DagSucc(g, rank, w.xs[0], w.c);
    g[w.xs[0]].Succ(w.c)
  }

  /** What the reordered graph makes of a packet that enters the reordered part: the pulled test runs first. */
  ghost function Pulled(g: Graph, rank: map<Block, nat>, w: Site, pkt: Packet): Outcome
    requires Dag(g, rank) && w.Good(g)
  {
    match ExitOf(g[w.Pull()], pkt)
    case Reject => Returned(0)
    case Fault => Undefined
    case Next(_) => Value(g, rank, if Goes(g[w.Pull()], pkt) == w.c then WayOut(g, rank, w) else w.Front(), pkt)
  }

  /** Where the pulled test leaves the chain, the tests before it led out of the chain as well, if none of them fails. */
  lemma {:induction false} ValueLeaving(g: Graph, rank: map<Block, nat>, w: Site, i: nat, pkt: Packet)
    requires Dag(g, rank) && w.Good(g) && w.m <= i < |w.xs| && CleanTrail(g, Trail(g, rank, w.xs[i], pkt), pkt)
    requires Clean(g[w.Pull()], pkt) && Goes(g[w.Pull()], pkt) == w.c
    ensures Value(g, rank, w.xs[i], pkt) == Value(g, rank, WayOut(g, rank, w), pkt)
    decreases |w.xs| - i
  {
    assert w.xs[i] in Trail(g, rank, w.xs[i], pkt);
    hide Dag, Clean, Goes;
    if i < |w.xs| - 1 && Goes(g[w.xs[i]], pkt) != w.c {
      assert forall x | x in Trail(g, rank, w.xs[i + 1], pkt) :: x in Trail(g, rank, w.xs[i], pkt);
      ValueLeaving(g, rank, w, i + 1, pkt);
    }
  }

  lemma SameGoes(g: Graph, w: Site, b: Block, pkt: Packet)
    requires w.Good(g) && b in g
    ensures Moved(g, w)[b].s == g[b].s && ExitOf(Moved(g, w)[b], pkt) == ExitOf(g[b], pkt)
    ensures g[b].s.Jmp? && Clean(g[b], pkt) ==> Clean(Moved(g, w)[b], pkt) && Goes(Moved(g, w)[b], pkt) == Goes(g[b], pkt)
  {
  }

  lemma ChainMoved(g: Graph, w: Site, i: nat)
    requires w.Good(g) && DistinctChain(g, w) && w.m <= i < |w.xs| - 1
    ensures var n := Moved(g, w)[w.xs[i]];
      && n.s.Jmp? && n.Succ(w.c) == g[w.xs[0]].Succ(w.c)
      && n.Succ(!w.c) == if i < |w.xs| - 2 then w.xs[i + 1] else g[w.Pull()].Succ(!w.c)
  {
    assert g[w.xs[i]].Succ(w.c) == g[w.xs[0]].Succ(w.c);
  }

  /** Where the pulled test stays in the chain, the others come to what they came to without it. */
  lemma {:induction false} ValueStaying(g: Graph, rank: map<Block, nat>, w: Site, rank': map<Block, nat>, i: nat, pkt: Packet)
    requires Dag(g, rank) && w.Good(g) && Dag(Moved(g, w), rank') && DistinctChain(g, w) && w.m <= i < |w.xs| - 1
    requires Clean(g[w.Pull()], pkt) && Goes(g[w.Pull()], pkt) != w.c
    requires SameValue(g, rank, w, rank', g[w.xs[0]].Succ(w.c), pkt) && SameValue(g, rank, w, rank', g[w.Pull()].Succ(!w.c), pkt)
    ensures Value(Moved(g, w), rank', w.xs[i], pkt) == Value(g, rank, w.xs[i], pkt)
    decreases |w.xs| - i
  {
    SameGoes(g, w, w.xs[i], pkt);
    ChainMoved(g, w, i);
    ChainAt(g, w, i);
    hide Dag, Chain, MovedSucc, Moved, DistinctChain, Decide, ExecAll;
    if Clean(g[w.xs[i]], pkt) && Goes(g[w.xs[i]], pkt) != w.c && i < |w.xs| - 2 {
      ValueStaying(g, rank, w, rank', i + 1, pkt);
    }
  }

  lemma ChainAt(g: Graph, w: Site, i: nat)
    requires w.Good(g) && i < |w.xs| - 1
    ensures w.xs[i] in g && g[w.xs[i]].s.Jmp? && g[w.xs[i]].Succ(w.c) == g[w.xs[0]].Succ(w.c) && g[w.xs[i]].Succ(!w.c) == w.xs[i + 1]
    ensures i == |w.xs| - 2 ==> w.xs[i + 1] == w.Pull()
  {
  }

  /** The two graphs agree from b on. */
  ghost predicate SameValue(g: Graph, rank: map<Block, nat>, w: Site, rank': map<Block, nat>, b: Block?, pkt: Packet)
    requires Dag(g, rank) && w.Good(g) && Dag(Moved(g, w), rank')
  {
    b != null && b in g && Value(Moved(g, w), rank', b, pkt) == Value(g, rank, b, pkt)
  }

  /** The chain's blocks, and the way out, are different blocks. */
  ghost predicate DistinctChain(g: Graph, w: Site)
    requires w.Good(g)
  {
    && (forall i, j | 0 <= i < |w.xs| && 0 <= j < |w.xs| && i != j :: w.xs[i] != w.xs[j])
    && forall i | 0 <= i < |w.xs| :: w.xs[i] != g[w.xs[0]].Succ(w.c)
  }

  lemma ChainDistinct(g: Graph, rank: map<Block, nat>, w: Site)
    requires Dag(g, rank) && w.Good(g)
    ensures DistinctChain(g, w)
  {
    forall i, j | 0 <= i < |w.xs| && 0 <= j < |w.xs| && i != j
      ensures w.xs[i] != w.xs[j]
    {
      if i < j { ChainFalls(g, rank, w.c, w.xs, i, j); } else { ChainFalls(g, rank, w.c, w.xs, j, i); }
    }
    forall i | 0 <= i < |w.xs|
      ensures w.xs[i] != g[w.xs[0]].Succ(w.c)
    {
      ChainAbove(g, rank, w.c, w.xs, i);
    }
  }

  lemma EdgeFromOutside(g: Graph, w: Site, b: Block, s: bool)
    requires w.Good(g) && Sealed(g, w) && b in g && !w.Inside(b) && g[b].s.Jmp?
    ensures var y := g[b].Succ(s);
      if y == w.Front() then Moved(g, w)[b].Succ(s) == w.Pull()
      else Moved(g, w)[b].Succ(s) == y && (y != null ==> !w.Inside(y))
  {
    EdgeInto(g, w, b, s);
    InsideAt(w, |w.xs| - 2);
    InsideAt(w, |w.xs| - 1);
  }

  lemma InsideAt(w: Site, i: nat)
    requires w.m <= i < |w.xs|
    ensures w.Inside(w.xs[i])
  {
    assert w.xs[i] == w.xs[w.m..][i - w.m];
  }

  /** An edge into the part of the chain that is reordered, other than to its front, comes from inside. */
  lemma EdgeInto(g: Graph, w: Site, b: Block, s: bool)
    requires w.Good(g) && Sealed(g, w) && b in g && g[b].s.Jmp?
    ensures var y := g[b].Succ(s); y != null && y != w.Front() && w.Inside(y) ==> w.Inside(b)
  {
    var y := g[b].Succ(s);
    if y != null && y != w.Front() && w.Inside(y) {
      var i :| 0 <= i < |w.xs[w.m..]| && w.xs[w.m..][i] == y;
      assert w.xs[w.m + i] == y;
      InsideAt(w, w.m + i - 1);
    }
  }

  lemma PullMoved(g: Graph, w: Site)
    requires w.Good(g) && DistinctChain(g, w)
    ensures var n := Moved(g, w)[w.Pull()];
      n.s.Jmp? && n.Succ(w.c) == g[w.xs[0]].Succ(w.c) && n.Succ(!w.c) == w.Front()
  {
  }

  /** The way out, and what followed the pulled test, are below the chain and so outside. */
  lemma BelowChain(g: Graph, rank: map<Block, nat>, w: Site)
    requires Dag(g, rank) && w.Good(g)
    ensures g.Keys <= rank.Keys
    ensures var out := g[w.xs[0]].Succ(w.c); out in g && !w.Inside(out) && rank[out] < rank[w.Front()]
    ensures var rest := g[w.Pull()].Succ(!w.c); rest in g && !w.Inside(rest) && rank[rest] < rank[w.Front()]
  {
    var last := |w.xs| - 1;
    var out, rest := g[w.xs[0]].Succ(w.c), g[w.Pull()].Succ(!w.c);
    DagSucc(g, rank, w.Pull(), !w.c);
    forall i | w.m <= i < |w.xs|
      ensures out in g && rank[out] < rank[w.xs[i]] && rank[rest] < rank[w.xs[i]]
    {
      ChainAbove(g, rank, w.c, w.xs, i);
      if i < last {
        ChainFalls(g, rank, w.c, w.xs, i, last);
      }
    }
    assert w.Front() == w.xs[w.m];
  }

  /** Below the chain, every block comes to the same value. */
  lemma {:induction false} ValueBelow(g: Graph, rank: map<Block, nat>, w: Site, b: Block, pkt: Packet)
    requires Dag(g, rank) && w.Good(g) && Sealed(g, w) && g.Keys <= rank.Keys && Dag(Moved(g, w), MovedRank(rank, w))
    requires b in g && !w.Inside(b) && rank[b] < rank[w.Front()]
    ensures Value(Moved(g, w), MovedRank(rank, w), b, pkt) == Value(g, rank, b, pkt)
    decreases rank[b]
  {
    hide Sealed, MovedSucc, MovedRank, Dag, Chain;
    SameGoes(g, w, b, pkt);
    if g[b].s.Jmp? && Clean(g[b], pkt) {
      var s := Goes(g[b], pkt);
      DagSucc(g, rank, b, s);
      EdgeFromOutside(g, w, b, s);
      ValueBelow(g, rank, w, g[b].Succ(s), pkt);
    }
  }

  /** The pulled test, where it now stands. */
  lemma ValueAtPull(g: Graph, rank: map<Block, nat>, w: Site, pkt: Packet)
    requires Dag(g, rank) && w.Good(g) && Sealed(g, w) && g.Keys <= rank.Keys && Dag(Moved(g, w), MovedRank(rank, w))
    ensures Value(Moved(g, w), MovedRank(rank, w), w.Pull(), pkt) == Pulled(g, rank, w, pkt)
  {
    var rank' := MovedRank(rank, w);
    var out, rest := g[w.xs[0]].Succ(w.c), g[w.Pull()].Succ(!w.c);
    ChainDistinct(g, rank, w);
    BelowChain(g, rank, w);
    PullMoved(g, w);
    SameGoes(g, w, w.Pull(), pkt);
    assert WayOut(g, rank, w) == out;
    hide Sealed, MovedSucc, Moved, MovedRank, Dag, Chain, DistinctChain, Goes;
    ValueBelow(g, rank, w, out, pkt);
    ValueBelow(g, rank, w, rest, pkt);
    if Clean(g[w.Pull()], pkt) && Goes(g[w.Pull()], pkt) != w.c {
      ValueStaying(g, rank, w, rank', w.m, pkt);
    }
  }

  /** From outside the reordered part, the graphs differ at most in what they make of a packet that enters it. */
  lemma {:induction false} ValueOutside(g: Graph, rank: map<Block, nat>, w: Site, b: Block, pkt: Packet)
    requires Dag(g, rank) && w.Good(g) && Sealed(g, w) && g.Keys <= rank.Keys && Dag(Moved(g, w), MovedRank(rank, w))
    requires b in g && !w.Inside(b)
    ensures w.Front() in Trail(g, rank, b, pkt) ==> Value(g, rank, b, pkt) == Value(g, rank, w.Front(), pkt)
    ensures Value(Moved(g, w), MovedRank(rank, w), b, pkt) ==
      if w.Front() in Trail(g, rank, b, pkt) then Pulled(g, rank, w, pkt) else Value(g, rank, b, pkt)
    decreases rank[b]
  {
    hide Sealed, MovedSucc, MovedRank, Dag, Chain, Pulled;
    SameGoes(g, w, b, pkt);
    InsideAt(w, w.m);
    if g[b].s.Jmp? && Clean(g[b], pkt) {
      var s := Goes(g[b], pkt);
      DagSucc(g, rank, b, s);
      EdgeFromOutside(g, w, b, s);
      if g[b].Succ(s) == w.Front() {
        ValueAtPull(g, rank, w, pkt);
      } else {
        ValueOutside(g, rank, w, g[b].Succ(s), pkt);
      }
    }
  }

  /**
   * The packets on which a pull-up changes nothing: they do not enter the reordered part, or the pulled test fails
   * as the filter did, or does not leave the chain, or the filter came to what is at the way out.
   */
  ghost predicate Unharmed(g: Graph, rank: map<Block, nat>, root: Block, w: Site, pkt: Packet)
    requires Dag(g, rank) && root in g && w.Good(g)
  {
    w.Front() in Trail(g, rank, root, pkt) ==>
      match ExitOf(g[w.Pull()], pkt)
      case Reject => Value(g, rank, root, pkt) == Returned(0)
      case Fault => Value(g, rank, root, pkt) == Undefined
      case Next(_) => Goes(g[w.Pull()], pkt) == w.c ==> Value(g, rank, root, pkt) == Value(g, rank, WayOut(g, rank, w), pkt)
  }

  lemma UnharmedIff(g: Graph, rank: map<Block, nat>, root: Block, w: Site, pkt: Packet)
    requires Dag(g, rank) && root in g && w.Good(g)
    requires w.Front() in Trail(g, rank, root, pkt) ==> Value(g, rank, root, pkt) == Value(g, rank, w.Front(), pkt)
    ensures (if w.Front() in Trail(g, rank, root, pkt) then Pulled(g, rank, w, pkt) else Value(g, rank, root, pkt)) == Value(g, rank, root, pkt)
      <==> Unharmed(g, rank, root, w, pkt)
  {
    hide Dag, Chain, Value, Trail, Goes;
  }

  /** Two graphs with the same root return the same, exactly on the packets that are not harmed. */
  ghost predicate ReturnsExactly(g: Graph, rank: map<Block, nat>, root: Block, g': Graph, rank': map<Block, nat>, w: Site, st: State, pkt: Packet)
    requires Dag(g, rank) && root in g && Dag(g', rank') && root in g' && w.Good(g)
  {
    Run(g', rank', root, st, pkt) == Run(g, rank, root, st, pkt) <==> Unharmed(g, rank, root, w, pkt)
  }

  /** The reordered graph returns what the graph returned, exactly on the packets it does not harm. */
  lemma PullupExactly(g: Graph, rank: map<Block, nat>, root: Block, w: Site, q: Block, s: bool, st: State, pkt: Packet)
    requires Dag(g, rank) && root in g && Reach(g, rank, root) == g.Keys && Contained(g, g.Keys)
    requires w.Good(g) && Sealed(g, w) && q in g && g[q].s.Jmp? && g[q].Succ(s) == w.Front()
    ensures g.Keys <= rank.Keys && Dag(Moved(g, w), MovedRank(rank, w))
    ensures ReturnsExactly(g, rank, root, Moved(g, w), MovedRank(rank, w), w, st, pkt)
  {
    MovedDag(g, rank, w);
    MovedContained(g, w);
    RootOutside(g, rank, root, w, q, s);
    hide Moved, MovedRank, MovedSucc, Dag, Chain, Sealed, Reach, Contained, Run, Value, Trail, Pulled, Unharmed;
    ValueOutside(g, rank, w, root, pkt);
    UnharmedIff(g, rank, root, w, pkt);
    RunIsValue(g, rank, root, st, pkt);
    RunIsValue(Moved(g, w), MovedRank(rank, w), root, st, pkt);
  }

  /** A packet whose way is clean comes to a return. */
  lemma {:induction false} CleanReturns(g: Graph, rank: map<Block, nat>, b: Block, pkt: Packet)
    requires Dag(g, rank) && b in g && CleanTrail(g, Trail(g, rank, b, pkt), pkt)
    ensures Value(g, rank, b, pkt).Returned?
    decreases rank[b]
  {
    assert b in Trail(g, rank, b, pkt);
    if g[b].s.Jmp? {
      var y := g[b].Succ(Goes(g[b], pkt));
      assert forall x | x in Trail(g, rank, y, pkt) :: x in Trail(g, rank, b, pkt);
      CleanReturns(g, rank, y, pkt);
    }
  }

  /** The trail from a block of the trail is part of it. */
  lemma {:induction false} TrailFrom(g: Graph, rank: map<Block, nat>, b: Block, x: Block, pkt: Packet)
    requires Dag(g, rank) && b in g && x in Trail(g, rank, b, pkt)
    ensures forall y | y in Trail(g, rank, x, pkt) :: y in Trail(g, rank, b, pkt)
    ensures CleanTrail(g, Trail(g, rank, b, pkt), pkt) ==> Value(g, rank, b, pkt) == Value(g, rank, x, pkt)
    decreases rank[b]
  {
    assert b in Trail(g, rank, b, pkt);
    if x != b {
      var c := g[b].Succ(Goes(g[b], pkt));
      TrailFrom(g, rank, c, x, pkt);
      assert forall y | y in Trail(g, rank, c, pkt) :: y in Trail(g, rank, b, pkt);
    }
  }

  /** On a clean way, harm is done exactly when the way enters the reordered part and the pulled test fails, unless it rejects what was rejected. */
  lemma CleanUnharmed(g: Graph, rank: map<Block, nat>, root: Block, w: Site, pkt: Packet)
    requires Dag(g, rank) && root in g && w.Good(g) && CleanTrail(g, Trail(g, rank, root, pkt), pkt)
    ensures Unharmed(g, rank, root, w, pkt) <==>
      (w.Front() in Trail(g, rank, root, pkt) && !Clean(g[w.Pull()], pkt) ==>
        ExitOf(g[w.Pull()], pkt).Reject? && Value(g, rank, root, pkt) == Returned(0))
  {
    CleanReturns(g, rank, root, pkt);
    if w.Front() in Trail(g, rank, root, pkt) {
      TrailFrom(g, rank, root, w.Front(), pkt);
      if Clean(g[w.Pull()], pkt) && Goes(g[w.Pull()], pkt) == w.c {
        ValueLeaving(g, rank, w, w.m, pkt);
      }
    }
  }

  /** The same as a statement about what the filter returns. */
  lemma PullupPreserves(g: Graph, rank: map<Block, nat>, root: Block, w: Site, q: Block, s: bool, st: State, pkt: Packet)
    requires Dag(g, rank) && root in g && Reach(g, rank, root) == g.Keys && Contained(g, g.Keys)
    requires w.Good(g) && Sealed(g, w) && q in g && g[q].s.Jmp? && g[q].Succ(s) == w.Front() && CleanTrail(g, Trail(g, rank, root, pkt), pkt)
    ensures g.Keys <= rank.Keys && Dag(Moved(g, w), MovedRank(rank, w))
    ensures Run(Moved(g, w), MovedRank(rank, w), root, st, pkt) == Run(g, rank, root, st, pkt) <==>
      (w.Front() in Trail(g, rank, root, pkt) && !Clean(g[w.Pull()], pkt) ==>
        ExitOf(g[w.Pull()], pkt).Reject? && Run(g, rank, root, st, pkt) == Returned(0))
  {
    PullupExactly(g, rank, root, w, q, s, st, pkt);
    CleanUnharmed(g, rank, root, w, pkt);
    RunIsValue(g, rank, root, st, pkt);
    hide Moved, MovedRank, MovedSucc, Dag, Chain, Sealed, Reach, Contained;
  }

  lemma MovedContained(g: Graph, w: Site)
    requires w.Good(g) && Contained(g, g.Keys)
    ensures Contained(Moved(g, w), Moved(g, w).Keys)
  {
    forall b | b in g
      ensures SelfContained(Moved(g, w)[b].stmts, Moved(g, w)[b].s)
    {
      assert SelfContained(g[b].stmts, g[b].s);
    }
  }

  lemma RootOutside(g: Graph, rank: map<Block, nat>, root: Block, w: Site, q: Block, s: bool)
    requires Dag(g, rank) && root in g && Reach(g, rank, root) == g.Keys && w.Good(g)
    requires q in g && g[q].s.Jmp? && g[q].Succ(s) == w.Front()
    ensures !w.Inside(root)
  {
    DagSucc(g, rank, q, s);
    ReachIsClosed(g, rank, root, q);
    forall i | w.m <= i < |w.xs|
      ensures w.xs[i] != root
    {
      if w.m < i {
        ChainFalls(g, rank, w.c, w.xs, w.m, i);
      }
    }
  }

  // ----- or_pullup and and_pullup -----

  /** What a pull-up relies on: exact in-edges of b, dominators, and value tables. */
  ghost predicate Ready(g: Graph, rank: map<Block, nat>, root: Block, b: Block)
    requires Dag(g, rank) && root in g
    reads g.Keys`val, g.Keys`dom, b`inEdges
  {
    && Reach(g, rank, root) == g.Keys && b in g && g[b].s.Jmp? && (forall x | x in g :: |x.val| == N_ATOMS)
    && Valid(Blocks(g, rank, root)) && Solves(Blocks(g, rank, root), DomOf(g.Keys))
    && (forall e | e in b.inEdges :: e in InEdges(g, b)) && (forall e | e in InEdges(g, b) :: e in b.inEdges)
    && forall i, j | 0 <= i < j < |b.inEdges| :: b.inEdges[i] != b.inEdges[j]
  }

  ghost function InEdges(g: Graph, b: Block): set<Edge> {
    set e | e in EdgesOf(g.Keys) && g[e.pred].Succ(e.sense) == b
  }

  /** Where a walk along the chain of b has got to: the field that holds the next block, and the blocks passed. */
  ghost predicate Walking(g: Graph, dom: map<Block, set<Block>>, b: Block, c: bool, at: Edge, xs: seq<Block>) {
    && at.pred in g && g[at.pred].s.Jmp?
    && if xs == [] then g[at.pred].Succ(at.sense) == b
       else Chain(g, c, xs) && Dominated(dom, xs) && xs[0] == b && at == Edge(xs[|xs| - 1], !c)
  }

  /** The tests b's chain is made of. */
  ghost predicate InChain(g: Graph, dom: map<Block, set<Block>>, b: Block, c: bool, d: Block?) {
    d != null && d in g && g[d].s.Jmp? && b in g && g[d].Succ(c) == g[b].Succ(c) && d in dom && b in dom[d]
  }

  lemma WalkOn(g: Graph, dom: map<Block, set<Block>>, b: Block, c: bool, at: Edge, xs: seq<Block>)
    requires Walking(g, dom, b, c, at, xs) && InChain(g, dom, b, c, g[at.pred].Succ(at.sense))
    ensures var d := g[at.pred].Succ(at.sense);
      && Walking(g, dom, b, c, Edge(d, !c), xs + [d]) && Chain(g, c, xs + [d]) && Dominated(dom, xs + [d]) && (xs + [d])[0] == b
  {
  }

  /** The blocks from the n-th on all have, or all do not have, the value val. */
  ghost predicate PassedAll(xs: seq<Block>, n: nat, val: nat, has: bool)
    reads xs`val
  {
    forall i | n <= i < |xs| :: |xs[i].val| == N_ATOMS && ((xs[i].val[A_ATOM] == val) == has)
  }

  /** Walk along the chain of b to the first test whose accumulator number is, or is not, val. */
  method Walk(b: Block, c: bool, start: Edge, val: nat, same: bool, ghost g: Graph, ghost rank: map<Block, nat>, ghost root: Block, ghost passed: seq<Block>)
    returns (found: bool, at: Edge, ghost xs: seq<Block>)
    requires g == Snap(g.Keys) && Dag(g, rank) && root in g && Ready(g, rank, root, b)
    requires Walking(g, DomOf(g.Keys), b, c, start, passed)
    ensures passed <= xs && Walking(g, DomOf(g.Keys), b, c, at, xs) && (xs == passed ==> at == start)
    ensures found <==> InChain(g, DomOf(g.Keys), b, c, g[at.pred].Succ(at.sense))
    ensures PassedAll(xs, |passed|, val, !same)
    ensures found ==> var d := g[at.pred].Succ(at.sense); d != null && |d.val| == N_ATOMS && ((d.val[A_ATOM] == val) == same)
  {
    hide Dag, Walking, InChain, DomOf, Ready;
    at, xs := start, passed;
    WalkFalls(g, rank, b, c, at, xs);
    while true
      invariant passed <= xs && Walking(g, DomOf(g.Keys), b, c, at, xs) && (xs == passed ==> at == start)
      invariant PassedAll(xs, |passed|, val, !same)
      invariant at.pred in rank
      decreases rank[at.pred]
    {
      WalkFalls(g, rank, b, c, at, xs);
      ReadyAt(g, rank, root, b, at.pred);
      var d := at.pred.Succ(at.sense);
      ReadyAt(g, rank, root, b, d);
      if d == null || d.Succ(c) != b.Succ(c) || b !in d.dom {
        OutOfChain(g, rank, root, b, c, d);
        return false, at, xs;
      }
      ReadyChain(g, rank, root, b, c, d);
      if (d.val[A_ATOM] == val) == same {
        return true, at, xs;
      }
      WalkOn(g, DomOf(g.Keys), b, c, at, xs);
      at, xs := Edge(d, !c), xs + [d];
    }
  }

  lemma WalkFalls(g: Graph, rank: map<Block, nat>, b: Block, c: bool, at: Edge, xs: seq<Block>)
    requires Dag(g, rank) && Walking(g, DomOf(g.Keys), b, c, at, xs)
    ensures g.Keys <= rank.Keys && at.pred in g
    ensures g[at.pred].Succ(at.sense) in g && rank[g[at.pred].Succ(at.sense)] < rank[at.pred]
  {
    DagSucc(g, rank, at.pred, at.sense);
  }

  lemma ReadyAt(g: Graph, rank: map<Block, nat>, root: Block, b: Block, x: Block)
    requires g == Snap(g.Keys) && Dag(g, rank) && root in g && Ready(g, rank, root, b) && x in g
    ensures g[x] == Node(x.stmts, x.s, x.jt, x.jf) && |x.val| == N_ATOMS
    ensures forall s :: g[x].Succ(s) == x.Succ(s)
  {
  }

  lemma OutOfChain(g: Graph, rank: map<Block, nat>, root: Block, b: Block, c: bool, d: Block?)
    requires g == Snap(g.Keys) && Dag(g, rank) && root in g && Ready(g, rank, root, b)
    requires d == null || d.Succ(c) != b.Succ(c) || b !in d.dom
    ensures !InChain(g, DomOf(g.Keys), b, c, d)
  {
    assert g[b] == Node(b.stmts, b.s, b.jt, b.jf);
    assert d != null && d in g ==> g[d] == Node(d.stmts, d.s, d.jt, d.jf);
  }

  lemma ReadyChain(g: Graph, rank: map<Block, nat>, root: Block, b: Block, c: bool, d: Block)
    requires g == Snap(g.Keys) && Dag(g, rank) && root in g && Ready(g, rank, root, b) && d in g
    requires d.Succ(c) == b.Succ(c) && b in d.dom
    ensures InChain(g, DomOf(g.Keys), b, c, d)
  {
    DagSucc(g, rank, b, c);
    assert g[d] == Node(d.stmts, d.s, d.jt, d.jf) && g[b] == Node(b.stmts, b.s, b.jt, b.jf);
  }

  // ----- Rewiring -----

  /** Some of the edges to b redirected. A block with two edges to b has its true edge redirected first. */
  ghost function Part(h: Graph, done: set<Edge>, b: Block, pull: Block): Graph {
    map x | x in h :: PartNode(h[x], Edge(x, true) in done, Edge(x, false) in done, b, pull)
  }

  ghost function PartNode(n: Node, t: bool, f: bool, b: Block, pull: Block): Node {
    if n.jt == b && n.jf == b then Node(n.stmts, n.s, if t || f then pull else b, if t && f then pull else b)
    else Node(n.stmts, n.s, if t then pull else n.jt, if f then pull else n.jf)
  }

  ghost function SetOf(es: seq<Edge>): set<Edge> { set e | e in es }

  lemma SetOfMore(es: seq<Edge>, i: nat)
    requires i < |es| && forall j, k | 0 <= j < k < |es| :: es[j] != es[k]
    ensures SetOf(es[..i + 1]) == SetOf(es[..i]) + {es[i]} && es[i] !in SetOf(es[..i])
    ensures SetOf(es[..i]) <= SetOf(es) && es[i] in SetOf(es) && es[..|es|] == es
  {
    assert es[..i + 1] == es[..i] + [es[i]];
  }

  /** Each edge to b gets pull instead. */
  method RedirectAll(b: Block, pull: Block, ghost h: Graph)
    requires h == Snap(h.Keys) && b != pull
    requires forall i, j | 0 <= i < j < |b.inEdges| :: b.inEdges[i] != b.inEdges[j]
    requires forall e | e in SetOf(b.inEdges) :: e.pred in h && h[e.pred].Succ(e.sense) == b
    modifies h.Keys`jt, h.Keys`jf
    ensures Snap(h.Keys) == Part(h, SetOf(b.inEdges), b, pull)
  {
    var es := b.inEdges;
    PartNothing(h, b, pull);
    hide SetOf, Part, Snap;
    for i := 0 to |es|
      invariant Snap(h.Keys) == Part(h, SetOf(es[..i]), b, pull)
    {
      SetOfMore(es, i);
      RedirectOne(b, pull, es[i], h, SetOf(es[..i]));
    }
    assert es[..|es|] == es;
  }

  lemma PartNothing(h: Graph, b: Block, pull: Block)
    ensures Part(h, SetOf([]), b, pull) == h
  {
    assert SetOf([]) == {};
  }

  method RedirectOne(b: Block, pull: Block, e: Edge, ghost h: Graph, ghost done: set<Edge>)
    requires b != pull && e !in done && e.pred in h && h[e.pred].Succ(e.sense) == b
    requires forall e' | e' in done :: e'.pred in h && h[e'.pred].Succ(e'.sense) == b
    requires Snap(h.Keys) == Part(h, done, b, pull)
    modifies e.pred`jt, e.pred`jf
    ensures Snap(h.Keys) == Part(h, done + {e}, b, pull)
  {
    PartStep(h, done, b, pull, e);
    hide Part;
    assert Snap(h.Keys)[e.pred] == Node(e.pred.stmts, e.pred.s, e.pred.jt, e.pred.jf);
    if e.pred.jt == b {
      e.pred.jt := pull;
    } else {
      e.pred.jf := pull;
    }
  }

  lemma PartStep(h: Graph, done: set<Edge>, b: Block, pull: Block, e: Edge)
    requires b != pull && e !in done && e.pred in h && h[e.pred].Succ(e.sense) == b
    requires forall e' | e' in done :: e'.pred in h && h[e'.pred].Succ(e'.sense) == b
    ensures var g := Part(h, done, b, pull);
      Part(h, done + {e}, b, pull) ==
      g[e.pred := if g[e.pred].jt == b then g[e.pred].(jt := pull) else g[e.pred].(jf := pull)]
  {
    var g := Part(h, done, b, pull);
    var g' := g[e.pred := if g[e.pred].jt == b then g[e.pred].(jt := pull) else g[e.pred].(jf := pull)];
    assert e == Edge(e.pred, e.sense);
    assert Edge(e.pred, true) in done ==> h[e.pred].Succ(true) == b;
    assert Edge(e.pred, false) in done ==> h[e.pred].Succ(false) == b;
    forall x | x in h
      ensures Part(h, done + {e}, b, pull)[x] == g'[x]
    {
    }
  }

  /** The first two assignments of a pull-up. */
  ghost function Unhooked(g: Graph, w: Site): Graph
    requires w.Good(g) && g[w.Pull()].Succ(!w.c) != null
  {
    var h := Redirect(g, Edge(w.Before(), !w.c), g[w.Pull()].Succ(!w.c));
    Redirect(h, Edge(w.Pull(), !w.c), w.Front())
  }

  lemma UnhookedSucc(g: Graph, w: Site, x: Block, s: bool)
    requires w.Good(g) && g[w.Pull()].Succ(!w.c) != null && x in g && w.Before() != w.Pull()
    ensures Unhooked(g, w)[x].Succ(s) ==
      if x == w.Before() && s != w.c then g[w.Pull()].Succ(!w.c)
      else if x == w.Pull() && s != w.c then w.Front()
      else g[x].Succ(s)
    ensures var n := Unhooked(g, w)[x];
      n.stmts == g[x].stmts && n.s == g[x].s && n.jt == n.Succ(true) && n.jf == n.Succ(false)
  {
  }

  /** What is different about the blocks of a site. */
  lemma SiteApart(g: Graph, rank: map<Block, nat>, w: Site)
    requires Dag(g, rank) && w.Good(g)
    ensures w.Before() in g && w.Pull() in g && w.Before() != w.Pull() && w.Pull() != w.Front()
    ensures g[w.Before()].Succ(!w.c) == w.Pull()
    ensures g[w.Pull()].Succ(!w.c) in g && g[w.Pull()].Succ(!w.c) != w.Front()
    ensures g[w.Pull()].Succ(w.c) != w.Front()
    ensures w.m > 0 ==> w.xs[w.m - 1] in g && w.xs[w.m - 1] != w.Before() && w.xs[w.m - 1] != w.Pull()
  {
    ChainDistinct(g, rank, w);
    BelowChain(g, rank, w);
    InsideAt(w, w.m);
    assert w.Pull() == w.xs[|w.xs| - 1] && w.Before() == w.xs[|w.xs| - 2];
  }

  lemma RewiredTop(g: Graph, rank: map<Block, nat>, w: Site)
    requires Dag(g, rank) && w.Good(g) && w.m == 0 && g[w.Pull()].Succ(!w.c) != null
    ensures Part(Unhooked(g, w), InEdges(g, w.Front()), w.Front(), w.Pull()) == Moved(g, w)
  {
    SiteApart(g, rank, w);
    UnhookedIs(g, w);
    hide Dag, Chain, Unhooked, MovedSucc, InEdges;
    forall x | x in g
      ensures Part(Unhooked(g, w), InEdges(g, w.Front()), w.Front(), w.Pull())[x] == Moved(g, w)[x]
    {
      RewiredTopAt(g, w, x);
    }
  }

  lemma TopInEdges(g: Graph, rank: map<Block, nat>, w: Site, e: Edge)
    requires Dag(g, rank) && w.Good(g) && w.m == 0 && g[w.Pull()].Succ(!w.c) != null && e in InEdges(g, w.Front())
    ensures e.pred in Unhooked(g, w) && Unhooked(g, w)[e.pred].Succ(e.sense) == w.Front()
  {
    SiteApart(g, rank, w);
    InEdgeIn(g, w.Front(), e);
    UnhookedSucc(g, w, e.pred, e.sense);
  }

  lemma InEdgeIn(g: Graph, b: Block, e: Edge)
    requires e in InEdges(g, b)
    ensures e.pred in g && g[e.pred].Succ(e.sense) == b
  {
    EdgesIn(g.Keys);
  }

  lemma RewiredTopAt(g: Graph, w: Site, x: Block)
    requires w.Good(g) && x in g && w.Before() != w.Pull() && w.Pull() != w.Front() && w.Pull() in g && w.Before() in g
    requires g[w.Before()].Succ(!w.c) == w.Pull()
    requires g[w.Pull()].Succ(!w.c) != null && g[w.Pull()].Succ(!w.c) != w.Front() && g[w.Pull()].Succ(w.c) != w.Front()
    ensures PartNode(Unhooked(g, w)[x], Edge(x, true) in InEdges(g, w.Front()), Edge(x, false) in InEdges(g, w.Front()), w.Front(), w.Pull())
         == Moved(g, w)[x]
  {
    EdgesIn(g.Keys);
    assert Edge(x, true) in InEdges(g, w.Front()) <==> g[x].Succ(true) == w.Front();
    assert Edge(x, false) in InEdges(g, w.Front()) <==> g[x].Succ(false) == w.Front();
    UnhookedSucc(g, w, x, true);
    UnhookedSucc(g, w, x, false);
    hide Unhooked, InEdges, Chain, EdgesOf;
  }

  lemma RewiredInside(g: Graph, rank: map<Block, nat>, w: Site)
    requires Dag(g, rank) && w.Good(g) && w.m > 0 && OneInto(g, w) && g[w.Pull()].Succ(!w.c) != null
    ensures w.xs[w.m - 1] in g
    ensures Redirect(Unhooked(g, w), Edge(w.xs[w.m - 1], !w.c), w.Pull()) == Moved(g, w)
  {
    SiteApart(g, rank, w);
    UnhookedIs(g, w);
    hide Unhooked, Chain, Dag, MovedSucc, OneInto;
    forall x | x in g
      ensures Redirect(Unhooked(g, w), Edge(w.xs[w.m - 1], !w.c), w.Pull())[x] == Moved(g, w)[x]
    {
      RewiredInsideAt(g, w, x);
    }
  }

  /** Inside the chain, the front has only the edge from the test before it. */
  ghost predicate OneInto(g: Graph, w: Site)
    requires w.Good(g) && w.m > 0
  {
    forall x, s | x in g :: g[x].Succ(s) == w.Front() <==> x == w.xs[w.m - 1] && s == !w.c
  }

  lemma RewiredInsideAt(g: Graph, w: Site, x: Block)
    requires w.Good(g) && w.m > 0 && x in g && w.Before() != w.Pull() && w.Pull() in g && w.Before() in g && w.xs[w.m - 1] in g
    requires w.xs[w.m - 1] != w.Before() && w.xs[w.m - 1] != w.Pull() && g[w.Pull()].Succ(!w.c) != null
    requires OneInto(g, w)
    ensures Redirect(Unhooked(g, w), Edge(w.xs[w.m - 1], !w.c), w.Pull())[x] == Moved(g, w)[x]
  {
    UnhookedSucc(g, w, x, true);
    UnhookedSucc(g, w, x, false);
    UnhookedIs(g, w);
    assert g[x].Succ(true) == w.Front() <==> x == w.xs[w.m - 1] && true == !w.c;
    assert g[x].Succ(false) == w.Front() <==> x == w.xs[w.m - 1] && false == !w.c;
    hide Unhooked, Chain, OneInto;
  }

  lemma FrontHasOne(g: Graph, rank: map<Block, nat>, root: Block, dom: map<Block, set<Block>>, w: Site, x: Block, s: bool)
    requires Dag(g, rank) && root in g && Valid(Blocks(g, rank, root)) && Solves(Blocks(g, rank, root), dom)
    requires Reach(g, rank, root) == g.Keys && Dominated(dom, w.xs) && w.Good(g) && w.m > 0 && x in g
    ensures g[x].Succ(s) == w.Front() <==> x == w.xs[w.m - 1] && s == !w.c
  {
    ChainAbove(g, rank, w.c, w.xs, w.m);
    if g[x].Succ(s) == w.Front() {
      assert g[x].s.Jmp?;
      OnePredecessor(g, rank, root, dom, w.c, w.xs, w.m, x, s);
    }
  }

  lemma DominatedOneInto(g: Graph, rank: map<Block, nat>, root: Block, dom: map<Block, set<Block>>, w: Site)
    requires Dag(g, rank) && root in g && Valid(Blocks(g, rank, root)) && Solves(Blocks(g, rank, root), dom)
    requires Reach(g, rank, root) == g.Keys && Dominated(dom, w.xs) && w.Good(g) && w.m > 0
    ensures OneInto(g, w)
  {
    hide Dag, Chain, Valid, Solves, Reach, Blocks, Dominated;
    forall x, s | x in g
      ensures g[x].Succ(s) == w.Front() <==> x == w.xs[w.m - 1] && s == !w.c
    {
      FrontHasOne(g, rank, root, dom, w, x, s);
    }
  }

  /** The first two assignments of a pull-up. */
  method Unhook(c: bool, same: Edge, diff: Edge, ghost g: Graph, ghost rank: map<Block, nat>, ghost w: Site) returns (pull: Block)
    requires g == Snap(g.Keys) && Dag(g, rank) && w.Good(g) && w.c == c && same == Edge(w.Before(), !c)
    requires w.Before() in g && w.Pull() in g && g[w.Before()].Succ(!w.c) == w.Pull() && w.Front() in g && w.Pull() != w.Front()
    requires g[w.Pull()].Succ(!w.c) in g && diff.pred in g && g[diff.pred].Succ(diff.sense) == w.Front()
    modifies g.Keys`jt, g.Keys`jf
    ensures pull == w.Pull() && Snap(g.Keys) == Unhooked(g, w)
  {
    hide Dag, Unhooked, Chain, Redirect;
    assert forall x | x in g :: g[x] == Node(x.stmts, x.s, x.jt, x.jf);
    pull := same.pred.Succ(same.sense);
    var front: Block := diff.pred.Succ(diff.sense);
    SetSucc(same, pull.Succ(!c), g.Keys);
    SetSucc(Edge(pull, !c), front, g.Keys);
    UnhookedIs(g, w);
  }

  /** The assignments of a pull-up at a site. */
  method Rewire(b: Block, c: bool, same: Edge, diff: Edge, atTop: bool, ghost g: Graph, ghost rank: map<Block, nat>, ghost root: Block, ghost w: Site)
    requires g == Snap(g.Keys) && Dag(g, rank) && root in g && Ready(g, rank, root, b)
    requires w.Good(g) && Dominated(DomOf(g.Keys), w.xs) && w.xs[0] == b && w.c == c && same == Edge(w.Before(), !c)
    requires diff.pred in g && g[diff.pred].Succ(diff.sense) == w.Front()
    requires if atTop then w.m == 0 else w.m > 0 && diff == Edge(w.xs[w.m - 1], !c)
    modifies g.Keys`jt, g.Keys`jf
    ensures Snap(g.Keys) == Moved(g, w)
  {
    hide Dag, Ready, Part, Unhooked, Moved, Dominated, DomOf, Chain, Redirect, SetOf, InEdges, OneInto;
    SiteFacts(g, rank, root, b, w);
    var pull := Unhook(c, same, diff, g, rank, w);
    hide Snap;
    if atTop {
      TopEdges(g, rank, root, b, w);
      RedirectAll(b, pull, Unhooked(g, w));
    } else {
      InsideRewired(g, rank, root, b, w);
      SetSucc(diff, pull, g.Keys);
    }
  }

  lemma SiteFacts(g: Graph, rank: map<Block, nat>, root: Block, b: Block, w: Site)
    requires Dag(g, rank) && root in g && Ready(g, rank, root, b) && w.Good(g)
    ensures w.Before() in g && w.Pull() in g && g[w.Before()].Succ(!w.c) == w.Pull()
    ensures g[w.Pull()].Succ(!w.c) in g && w.Front() in g && w.Pull() != w.Front()
    ensures forall i, j | 0 <= i < j < |b.inEdges| :: b.inEdges[i] != b.inEdges[j]
  {
    DagSucc(g, rank, w.Pull(), !w.c);
    ChainFalls(g, rank, w.c, w.xs, w.m, |w.xs| - 1);
  }

  lemma UnhookedIs(g: Graph, w: Site)
    requires w.Good(g) && g[w.Pull()].Succ(!w.c) != null
    ensures Unhooked(g, w) ==
      Redirect(Redirect(g, Edge(w.Before(), !w.c), g[w.Pull()].Succ(!w.c)), Edge(w.Pull(), !w.c), w.Front())
    ensures Unhooked(g, w).Keys == g.Keys
  {
  }

  lemma TopEdges(g: Graph, rank: map<Block, nat>, root: Block, b: Block, w: Site)
    requires Dag(g, rank) && root in g && Ready(g, rank, root, b) && w.Good(g) && w.m == 0 && w.xs[0] == b
    requires g[w.Pull()].Succ(!w.c) != null
    ensures var h := Unhooked(g, w);
      && (forall e | e in SetOf(b.inEdges) :: e.pred in h && h[e.pred].Succ(e.sense) == b)
      && Part(h, SetOf(b.inEdges), b, w.Pull()) == Moved(g, w)
  {
    InEdgesExact(g, rank, root, b);
    hide Dag, Chain, Ready, Part, Unhooked, Moved, InEdges, SetOf;
    RewiredTop(g, rank, w);
    forall e | e in InEdges(g, b)
      ensures e.pred in Unhooked(g, w) && Unhooked(g, w)[e.pred].Succ(e.sense) == b
    {
      TopInEdges(g, rank, w, e);
    }
  }

  lemma InEdgesExact(g: Graph, rank: map<Block, nat>, root: Block, b: Block)
    requires Dag(g, rank) && root in g && Ready(g, rank, root, b)
    ensures SetOf(b.inEdges) == InEdges(g, b)
  {
  }

  lemma InsideRewired(g: Graph, rank: map<Block, nat>, root: Block, b: Block, w: Site)
    requires Dag(g, rank) && root in g && Ready(g, rank, root, b) && w.Good(g) && w.m > 0
    requires Dominated(DomOf(g.Keys), w.xs) && g[w.Pull()].Succ(!w.c) != null
    ensures Redirect(Unhooked(g, w), Edge(w.xs[w.m - 1], !w.c), w.Pull()) == Moved(g, w)
  {
    DominatedOneInto(g, rank, root, DomOf(g.Keys), w);
    hide Dag, Chain, Unhooked, Moved, OneInto, Ready, Dominated;
    RewiredInside(g, rank, w);
  }

  /** What a pull-up at a site leaves: the reordered graph, acyclic, which returns the same exactly on the packets it does not harm. */
  ghost predicate Preserved(g: Graph, rank: map<Block, nat>, root: Block, g': Graph, rank': map<Block, nat>, w: Site)
    requires Dag(g, rank) && root in g
  {
    && w.Good(g) && g' == Moved(g, w) && Dag(g', rank')
    && (Contained(g, g.Keys) ==>
          forall st, pkt :: ReturnsExactly(g, rank, root, g', rank', w, st, pkt))
  }

  /** Which test is pulled up: passing the tests of the value val, and then those of other values, the first of the value val again. */
  ghost predicate Chosen(w: Site, val: nat)
    reads w.xs`val
  {
    && w.m < |w.xs| - 1 && (forall x | x in w.xs :: |x.val| == N_ATOMS)
    && (forall i | 0 <= i < w.m :: w.xs[i].val[A_ATOM] == val)
    && (forall i | w.m <= i < |w.xs| - 1 :: w.xs[i].val[A_ATOM] != val) && w.xs[|w.xs| - 1].val[A_ATOM] == val
  }

  /** A place in the chain of b where a pull-up is made. */
  ghost predicate Fitting(g: Graph, dom: map<Block, set<Block>>, b: Block, c: bool, val: nat, w: Site)
    reads w.xs`val
  {
    w.Good(g) && w.c == c && w.xs[0] == b && Dominated(dom, w.xs) && Chosen(w, val)
  }

  /** Chains of the same side from the same block agree as far as both go. */
  lemma {:induction false} ChainsAgree(g: Graph, c: bool, xs: seq<Block>, ys: seq<Block>, i: nat)
    requires Chain(g, c, xs) && Chain(g, c, ys) && xs[0] == ys[0] && i < |xs| && i < |ys|
    ensures xs[i] == ys[i]
  {
    if i > 0 {
      ChainsAgree(g, c, xs, ys, i - 1);
      assert xs[i] == xs[i - 1 + 1] && ys[i] == ys[i - 1 + 1];
    }
  }

  /** A chain that goes on after a walk has stopped goes on with the block the walk has stopped at. */
  lemma GoesOnAt(g: Graph, dom: map<Block, set<Block>>, b: Block, c: bool, at: Edge, xs: seq<Block>, ys: seq<Block>)
    requires Walking(g, dom, b, c, at, xs) && Chain(g, c, ys) && Dominated(dom, ys) && ys[0] == b && |xs| < |ys|
    ensures InChain(g, dom, b, c, g[at.pred].Succ(at.sense))
  {
    if xs != [] {
      ChainsAgree(g, c, xs, ys, |xs| - 1);
      assert ys[|xs| - 1 + 1] == g[ys[|xs| - 1]].Succ(!c);
    }
    assert g[at.pred].Succ(at.sense) == ys[|xs|];
  }

  /** No place, when every test of the chain looks at the value, or those after the first that does not look at others. */
  lemma NotFitting(g: Graph, dom: map<Block, set<Block>>, b: Block, c: bool, val: nat, at: Edge, xs: seq<Block>, n: nat, w: Site)
    requires Walking(g, dom, b, c, at, xs) && !InChain(g, dom, b, c, g[at.pred].Succ(at.sense)) && n <= |xs|
    requires PassedAll(xs[..n], 0, val, true) && (n < |xs| ==> |xs[n].val| == N_ATOMS && xs[n].val[A_ATOM] != val && PassedAll(xs, n + 1, val, false))
    ensures !Fitting(g, dom, b, c, val, w)
  {
    PassedWhere(xs, n, val);
    if Fitting(g, dom, b, c, val, w) {
      var ys := w.xs;
      if |xs| < |ys| {
        GoesOnAt(g, dom, b, c, at, xs, ys);
        assert false;
      }
      ChainsAgree(g, c, xs, ys, |ys| - 1);
      if n < |ys| { ChainsAgree(g, c, xs, ys, n); }
      ChainsAgree(g, c, xs, ys, w.m);
    }
  }

  lemma PassedWhere(xs: seq<Block>, n: nat, val: nat)
    requires n <= |xs| && PassedAll(xs[..n], 0, val, true)
    requires n < |xs| ==> |xs[n].val| == N_ATOMS && xs[n].val[A_ATOM] != val && PassedAll(xs, n + 1, val, false)
    ensures forall i | 0 <= i < |xs| :: |xs[i].val| == N_ATOMS && (xs[i].val[A_ATOM] == val <==> i < n)
  {
    forall i | 0 <= i < |xs|
      ensures |xs[i].val| == N_ATOMS && (xs[i].val[A_ATOM] == val <==> i < n)
    {
      if i < n {
        assert xs[..n][i] == xs[i];
      }
    }
  }

  lemma SiteOf(g: Graph, rank: map<Block, nat>, root: Block, b: Block, c: bool, diff: Edge, upper: seq<Block>, same: Edge, xs: seq<Block>)
    requires Dag(g, rank) && root in g && Ready(g, rank, root, b)
    requires Walking(g, DomOf(g.Keys), b, c, diff, upper) && InChain(g, DomOf(g.Keys), b, c, g[diff.pred].Succ(diff.sense))
    requires upper + [g[diff.pred].Succ(diff.sense)] <= xs
    requires Walking(g, DomOf(g.Keys), b, c, same, xs) && InChain(g, DomOf(g.Keys), b, c, g[same.pred].Succ(same.sense))
    ensures var w := Site(c, xs + [g[same.pred].Succ(same.sense)], |upper|);
      && w.Good(g) && Dominated(DomOf(g.Keys), w.xs) && w.xs[0] == b && same == Edge(w.Before(), !c)
      && diff.pred in g && g[diff.pred].s.Jmp? && g[diff.pred].Succ(diff.sense) == w.Front()
      && (w.m > 0 ==> diff == Edge(w.xs[w.m - 1], !c))
  {
    hide Chain, Dominated, Ready, Dag, DomOf;
    var pull, front := g[same.pred].Succ(same.sense), g[diff.pred].Succ(diff.sense);
    WalkOn(g, DomOf(g.Keys), b, c, same, xs);
    WalkLast(g, DomOf(g.Keys), b, c, same, xs);
    WalkLast(g, DomOf(g.Keys), b, c, diff, upper);
    hide Walking, InChain;
    SiteSeq(upper, front, xs, pull);
  }

  lemma WalkLast(g: Graph, dom: map<Block, set<Block>>, b: Block, c: bool, at: Edge, xs: seq<Block>)
    requires Walking(g, dom, b, c, at, xs)
    ensures at.pred in g && g[at.pred].s.Jmp? && (xs != [] ==> at == Edge(xs[|xs| - 1], !c))
  {
  }

  lemma SiteSeq(upper: seq<Block>, front: Block, xs: seq<Block>, pull: Block)
    requires upper + [front] <= xs
    ensures var ys := xs + [pull];
      && |upper| < |ys| - 1 && ys[|upper|] == front && ys[|ys| - 2] == xs[|xs| - 1]
      && (|upper| > 0 ==> ys[|upper| - 1] == upper[|upper| - 1])
  {
    assert xs[|upper|] == (upper + [front])[|upper|];
  }

  lemma SitePreserves(g: Graph, rank: map<Block, nat>, root: Block, b: Block, w: Site, diff: Edge)
    requires Dag(g, rank) && root in g && Ready(g, rank, root, b) && w.Good(g) && Dominated(DomOf(g.Keys), w.xs)
    requires diff.pred in g && g[diff.pred].s.Jmp? && g[diff.pred].Succ(diff.sense) == w.Front()
    ensures w.Front() in rank && Preserved(g, rank, root, Moved(g, w), MovedRank(rank, w), w)
  {
    DominatedSealed(g, rank, root, DomOf(g.Keys), w);
    MovedDag(g, rank, w);
    ReachAll(g, rank, root, b);
    hide Dag, Chain, Moved, MovedRank, Sealed, Contained, ReturnsExactly, Reach, Ready, Dominated;
    PullupAlways(g, rank, root, Moved(g, w), MovedRank(rank, w), w, diff.pred, diff.sense);
  }

  lemma PullupAlways(g: Graph, rank: map<Block, nat>, root: Block, g': Graph, rank': map<Block, nat>, w: Site, q: Block, s: bool)
    requires Dag(g, rank) && root in g && Reach(g, rank, root) == g.Keys && w.Good(g) && w.Front() in rank
    requires Sealed(g, w) && q in g && g[q].s.Jmp? && g[q].Succ(s) == w.Front()
    requires g' == Moved(g, w) && rank' == MovedRank(rank, w) && Dag(g', rank')
    ensures root in g' && (Contained(g, g.Keys) ==> forall st, pkt :: ReturnsExactly(g, rank, root, g', rank', w, st, pkt))
  {
    hide Dag, Chain, MovedRank, Sealed, Contained, ReturnsExactly, Reach;
    if Contained(g, g.Keys) {
      forall st, pkt
        ensures ReturnsExactly(g, rank, root, g', rank', w, st, pkt)
      {
        PullupExactly(g, rank, root, w, q, s, st, pkt);
      }
    }
  }

  lemma ReachAll(g: Graph, rank: map<Block, nat>, root: Block, b: Block)
    requires Dag(g, rank) && root in g && Ready(g, rank, root, b)
    ensures Reach(g, rank, root) == g.Keys
  {
  }

  /** Every predecessor leaves the same value in the accumulator. */
  method SamePredecessors(b: Block, val: nat) returns (same: bool)
    requires forall e | e in b.inEdges :: |e.pred.val| == N_ATOMS
    ensures same <==> forall e | e in b.inEdges :: e.pred.val[A_ATOM] == val
  {
    for i := 0 to |b.inEdges|
      invariant forall e | e in b.inEdges[..i] :: e.pred.val[A_ATOM] == val
    {
      assert b.inEdges[..i + 1] == b.inEdges[..i] + [b.inEdges[i]] && b.inEdges[i] in b.inEdges;
      if b.inEdges[i].pred.val[A_ATOM] != val { return false; }
    }
    assert b.inEdges[..|b.inEdges|] == b.inEdges;
    return true;
  }

  /** There are predecessors, and they all leave the same value in the accumulator. */
  ghost predicate SameLeft(b: Block)
    reads b`inEdges, (set e | e in b.inEdges :: e.pred)`val
  {
    && b.inEdges != [] && |b.inEdges[0].pred.val| == N_ATOMS
    && forall e | e in b.inEdges :: |e.pred.val| == N_ATOMS && e.pred.val[A_ATOM] == b.inEdges[0].pred.val[A_ATOM]
  }

  lemma NoneFitting(g: Graph, dom: map<Block, set<Block>>, b: Block, c: bool, val: nat, at: Edge, xs: seq<Block>, n: nat)
    requires Walking(g, dom, b, c, at, xs) && !InChain(g, dom, b, c, g[at.pred].Succ(at.sense)) && n <= |xs|
    requires PassedAll(xs[..n], 0, val, true) && (n < |xs| ==> |xs[n].val| == N_ATOMS && xs[n].val[A_ATOM] != val && PassedAll(xs, n + 1, val, false))
    ensures forall w :: !Fitting(g, dom, b, c, val, w)
  {
    forall w
      ensures !Fitting(g, dom, b, c, val, w)
    {
      NotFitting(g, dom, b, c, val, at, xs, n, w);
    }
  }

  lemma SplitAtFront(upper: seq<Block>, front: Block, xs: seq<Block>, val: nat)
    requires upper + [front] <= xs && PassedAll(upper, 0, val, true) && |front.val| == N_ATOMS && front.val[A_ATOM] != val
    ensures |upper| < |xs| && PassedAll(xs[..|upper|], 0, val, true) && xs[|upper|] == front
  {
    assert xs[..|upper|] == upper && xs[|upper|] == (upper + [front])[|upper|];
  }

  /** The two walks of a pull-up: where it happens, if the predecessors agree and there is such a place. */
  method FindSite(b: Block, c: bool, ghost g: Graph, ghost rank: map<Block, nat>, ghost root: Block)
    returns (found: bool, atTop: bool, diff: Edge, at: Edge, ghost w: Site)
    requires g == Snap(g.Keys) && Dag(g, rank) && root in g && Ready(g, rank, root, b)
    ensures found ==>
      && w.Good(g) && Dominated(DomOf(g.Keys), w.xs) && w.xs[0] == b && w.c == c && at == Edge(w.Before(), !c)
      && diff.pred in g && g[diff.pred].s.Jmp? && g[diff.pred].Succ(diff.sense) == w.Front()
      && if atTop then w.m == 0 else w.m > 0 && diff == Edge(w.xs[w.m - 1], !c)
    ensures found ==> SameLeft(b) && Fitting(g, DomOf(g.Keys), b, c, b.inEdges[0].pred.val[A_ATOM], w)
    ensures !found && SameLeft(b) ==> forall w' :: !Fitting(g, DomOf(g.Keys), b, c, b.inEdges[0].pred.val[A_ATOM], w')
  {
    hide Dag, Ready, Walking, InChain, Snap, DomOf, Chosen, Dominated, Chain, Fitting, PassedAll;
    found, atTop, diff, at, w := false, false, Edge(b, true), Edge(b, true), Site(c, [], 0);
    if b.inEdges == [] { return; }
    var first := b.inEdges[0].pred;
    FirstEdge(g, rank, root, b);
    var val := first.val[A_ATOM];
    var same := SamePredecessors(b, val);
    if !same { return; }
    var start := Edge(first, first.jt == b);
    ghost var upper, xs;
    found, diff, upper := Walk(b, c, start, val, false, g, rank, root, []);
    if !found {
      assert upper[..|upper|] == upper;
      NoneFitting(g, DomOf(g.Keys), b, c, val, diff, upper, |upper|);
      return;
    }
    WalkFalls(g, rank, b, c, diff, upper);
    ReadyAt(g, rank, root, b, diff.pred);
    WalkOn(g, DomOf(g.Keys), b, c, diff, upper);
    var front := diff.pred.Succ(diff.sense);
    found, at, xs := Walk(b, c, Edge(front, !c), val, true, g, rank, root, upper + [front]);
    if !found {
      SplitAtFront(upper, front, xs, val);
      NoneFitting(g, DomOf(g.Keys), b, c, val, at, xs, |upper|);
      return;
    }
    SiteOf(g, rank, root, b, c, diff, upper, at, xs);
    WalkLast(g, DomOf(g.Keys), b, c, at, xs);
    WalkedChosen(upper, front, xs, g[at.pred].Succ(at.sense), c, val);
    AtTop(g, rank, b, c, diff, upper, start);
    atTop, w := diff == start, Site(c, xs + [g[at.pred].Succ(at.sense)], |upper|);
    IsFitting(g, DomOf(g.Keys), b, c, val, w);
  }

  lemma IsFitting(g: Graph, dom: map<Block, set<Block>>, b: Block, c: bool, val: nat, w: Site)
    requires w.Good(g) && w.c == c && w.xs[0] == b && Dominated(dom, w.xs) && Chosen(w, val)
    ensures Fitting(g, dom, b, c, val, w)
  {
  }

  /**
   * or_pullup (c true) and and_pullup (c false): in the chain of tests below b that share b's
   * successor on side c, move the first test after a different one that again looks at the value
   * b's predecessors leave to just before that different one.
   */
  method PullUp(b: Block, c: bool, ghost g: Graph, ghost rank: map<Block, nat>, ghost root: Block)
    returns (changed: bool, ghost rank': map<Block, nat>, ghost w: Site)
    requires g == Snap(g.Keys) && Dag(g, rank) && root in g && Ready(g, rank, root, b)
    modifies g.Keys`jt, g.Keys`jf
    ensures !changed ==> Snap(g.Keys) == g
    ensures changed <==> SameLeft(b) && exists w' :: Fitting(g, DomOf(g.Keys), b, c, b.inEdges[0].pred.val[A_ATOM], w')
    ensures changed ==> Fitting(g, DomOf(g.Keys), b, c, b.inEdges[0].pred.val[A_ATOM], w) && Preserved(g, rank, root, Snap(g.Keys), rank', w)
  {
    hide Dag, Ready, Preserved, Snap, DomOf, Chosen, Dominated, Chain, Fitting;
    changed, rank' := false, rank;
    var atTop, diff, at;
    changed, atTop, diff, at, w := FindSite(b, c, g, rank, root);
    if changed {
      SitePreserves(g, rank, root, b, w, diff);
      Rewire(b, c, at, diff, atTop, g, rank, root, w);
      rank' := MovedRank(rank, w);
      assert SameLeft(b) && Fitting(g, DomOf(g.Keys), b, c, b.inEdges[0].pred.val[A_ATOM], w);
    }
  }

  lemma WalkedChosen(upper: seq<Block>, front: Block, xs: seq<Block>, pull: Block, c: bool, val: nat)
    requires upper + [front] <= xs && PassedAll(upper, 0, val, true) && PassedAll(xs, |upper| + 1, val, false)
    requires |front.val| == N_ATOMS && front.val[A_ATOM] != val && |pull.val| == N_ATOMS && pull.val[A_ATOM] == val
    ensures Chosen(Site(c, xs + [pull], |upper|), val)
  {
    var ys := xs + [pull];
    forall i | 0 <= i < |ys|
      ensures |ys[i].val| == N_ATOMS
      ensures ys[i].val[A_ATOM] == val <==> i < |upper| || i == |xs|
    {
      if i <= |upper| {
        assert ys[i] == (upper + [front])[i];
      }
    }
  }

  lemma FirstEdge(g: Graph, rank: map<Block, nat>, root: Block, b: Block)
    requires g == Snap(g.Keys) && Dag(g, rank) && root in g && Ready(g, rank, root, b) && b.inEdges != []
    ensures var p := b.inEdges[0].pred;
      p in g && |p.val| == N_ATOMS && Walking(g, DomOf(g.Keys), b, true, Edge(p, p.jt == b), [])
      && Walking(g, DomOf(g.Keys), b, false, Edge(p, p.jt == b), [])
    ensures forall e | e in b.inEdges :: |e.pred.val| == N_ATOMS
  {
    var e := b.inEdges[0];
    InEdgeIn(g, b, e);
    assert g[e.pred] == Node(e.pred.stmts, e.pred.s, e.pred.jt, e.pred.jf);
    forall e | e in b.inEdges
      ensures |e.pred.val| == N_ATOMS
    {
      InEdgeIn(g, b, e);
    }
  }

  /** A walk that has passed some block no longer is at the edge it started from. */
  lemma AtTop(g: Graph, rank: map<Block, nat>, b: Block, c: bool, diff: Edge, upper: seq<Block>, start: Edge)
    requires Dag(g, rank) && Walking(g, DomOf(g.Keys), b, c, diff, upper) && (upper == [] ==> diff == start)
    requires Walking(g, DomOf(g.Keys), b, c, start, [])
    ensures diff == start <==> upper == []
  {
    DagSucc(g, rank, start.pred, start.sense);
    if |upper| > 1 {
      ChainFalls(g, rank, c, upper, 0, |upper| - 1);
    }
  }

  method OrPullup(b: Block, ghost g: Graph, ghost rank: map<Block, nat>, ghost root: Block)
    returns (changed: bool, ghost rank': map<Block, nat>, ghost w: Site)
    requires g == Snap(g.Keys) && Dag(g, rank) && root in g && Ready(g, rank, root, b)
    modifies g.Keys`jt, g.Keys`jf
    ensures !changed ==> Snap(g.Keys) == g
    ensures changed <==> SameLeft(b) && exists w' :: Fitting(g, DomOf(g.Keys), b, true, b.inEdges[0].pred.val[A_ATOM], w')
    ensures changed ==> Fitting(g, DomOf(g.Keys), b, true, b.inEdges[0].pred.val[A_ATOM], w) && Preserved(g, rank, root, Snap(g.Keys), rank', w)
  {
    changed, rank', w := PullUp(b, true, g, rank, root);
  }

  method AndPullup(b: Block, ghost g: Graph, ghost rank: map<Block, nat>, ghost root: Block)
    returns (changed: bool, ghost rank': map<Block, nat>, ghost w: Site)
    requires g == Snap(g.Keys) && Dag(g, rank) && root in g && Ready(g, rank, root, b)
    modifies g.Keys`jt, g.Keys`jf
    ensures !changed ==> Snap(g.Keys) == g
    ensures changed <==> SameLeft(b) && exists w' :: Fitting(g, DomOf(g.Keys), b, false, b.inEdges[0].pred.val[A_ATOM], w')
    ensures changed ==> Fitting(g, DomOf(g.Keys), b, false, b.inEdges[0].pred.val[A_ATOM], w) && Preserved(g, rank, root, Snap(g.Keys), rank', w)
  {
    changed, rank', w := PullUp(b, false, g, rank, root);
  }

  // ----- Where the pulled test has to be clean -----

  /** ether[0] = 0, then a test of something else, then ether[0] > ether[9], in a chain that accepts. */
  const FIRST := Body([Stmt(LdAbs(B), 0)], Jmp(JEQ, K, 0))
  const OTHER := Body([Stmt(LdImm, 0)], Jmp(JEQ, K, 0))
  const AGAIN := Body([Stmt(LdAbs(B), 9), Stmt(Tax, 0), Stmt(LdAbs(B), 0)], Jmp(JGT, X, 0))

  datatype Body = Body(stmts: seq<Stmt>, s: Branch) {
    function With(jt: Block?, jf: Block?): Node { Node(stmts, s, jt, jf) }
  }

  /** Five different blocks. */
  ghost predicate Apart(bs: seq<Block>) {
    |bs| == 5 && forall i, j | 0 <= i < j < 5 :: bs[i] != bs[j]
  }

  ghost function Short(bs: seq<Block>): Graph
    requires Apart(bs)
  {
    map[bs[0] := FIRST.With(bs[1], bs[4]), bs[1] := OTHER.With(bs[3], bs[2]), bs[2] := AGAIN.With(bs[3], bs[4]),
        bs[3] := Node([], Ret(1), null, null), bs[4] := Node([], Ret(0), null, null)]
  }

  ghost function ShortRank(bs: seq<Block>): map<Block, nat>
    requires Apart(bs)
  {
    map[bs[0] := 3, bs[1] := 2, bs[2] := 1, bs[3] := 0, bs[4] := 0]
  }

  const ONE_OCTET: Packet := Packet([0], 1)

  lemma ShortExits()
    ensures ExecAll(FIRST.stmts, Zeroed(), ONE_OCTET) == Next(Zeroed()) && ExecAll(OTHER.stmts, Zeroed(), ONE_OCTET) == Next(Zeroed())
    ensures ExecAll(AGAIN.stmts, Zeroed(), ONE_OCTET) == Reject
  {
    ExecOne(FIRST.stmts[0], Zeroed(), ONE_OCTET);
    ExecOne(OTHER.stmts[0], Zeroed(), ONE_OCTET);
    assert Load(ONE_OCTET, 0, B) == Val(0) && Load(ONE_OCTET, 9, B) == Rejected;
    assert Zeroed()[A_ATOM := 0] == Zeroed();
  }

  lemma ShortDag(bs: seq<Block>)
    requires Apart(bs)
    ensures Dag(Short(bs), ShortRank(bs))
  {
    var g := Short(bs);
    assert forall b | b in g :: b == bs[0] || b == bs[1] || b == bs[2] || b == bs[3] || b == bs[4];
  }

  lemma ShortShape(bs: seq<Block>)
    requires Apart(bs)
    ensures Dag(Short(bs), ShortRank(bs)) && Site(true, [bs[1], bs[2]], 0).Good(Short(bs)) && Sealed(Short(bs), Site(true, [bs[1], bs[2]], 0))
  {
    ShortDag(bs);
    hide Dag, ShortRank;
    var g, w := Short(bs), Site(true, [bs[1], bs[2]], 0);
    ShortInto(bs);
    hide Short;
    assert |w.xs| == 2 && w.xs[0] == bs[1] && w.xs[1] == bs[2];
  }

  lemma ShortInto(bs: seq<Block>)
    requires Apart(bs)
    ensures var g := Short(bs);
      && g[bs[1]] == OTHER.With(bs[3], bs[2]) && g[bs[2]] == AGAIN.With(bs[3], bs[4])
      && forall q, s | q in g && g[q].s.Jmp? && g[q].Succ(s) == bs[2] :: q == bs[1] && !s
  {
    var g := Short(bs);
    forall q, s | q in g && g[q].s.Jmp? && g[q].Succ(s) == bs[2]
      ensures q == bs[1] && !s
    {
      assert q in {bs[0], bs[1], bs[2], bs[3], bs[4]};
    }
  }

  lemma ShortContained(bs: seq<Block>)
    requires Apart(bs)
    ensures Contained(Short(bs), Short(bs).Keys)
  {
    var g := Short(bs);
    assert SelfContained(FIRST.stmts, FIRST.s) && SelfContained(OTHER.stmts, OTHER.s) && SelfContained(AGAIN.stmts, AGAIN.s);
    assert SelfContained([], Ret(1)) && SelfContained([], Ret(0));
    hide SelfContained;
    assert forall b | b in g :: b == bs[0] || b == bs[1] || b == bs[2] || b == bs[3] || b == bs[4];
  }

  /** The way of the packet is clean and accepts it; with the third test pulled up, the packet is rejected. */
  lemma PulledTestFails(bs: seq<Block>)
    requires Apart(bs)
    ensures var g, rank, w := Short(bs), ShortRank(bs), Site(true, [bs[1], bs[2]], 0);
      && Dag(g, rank) && Contained(g, g.Keys) && w.Good(g) && Sealed(g, w)
      && CleanTrail(g, Trail(g, rank, bs[0], ONE_OCTET), ONE_OCTET) && Value(g, rank, bs[0], ONE_OCTET) == Returned(1)
      && g.Keys <= rank.Keys && Dag(Moved(g, w), MovedRank(rank, w))
      && Value(Moved(g, w), MovedRank(rank, w), bs[0], ONE_OCTET) == Returned(0)
  {
    var g, rank, w := Short(bs), ShortRank(bs), Site(true, [bs[1], bs[2]], 0);
    ShortShape(bs);
    ShortContained(bs);
    MovedDag(g, rank, w);
    hide Dag, Contained, Sealed;
    ShortBefore(bs);
    ShortAfter(bs, MovedRank(rank, w));
  }

  lemma ShortBefore(bs: seq<Block>)
    requires Apart(bs)
    ensures var g, rank := Short(bs), ShortRank(bs);
      && Dag(g, rank) && Value(g, rank, bs[0], ONE_OCTET) == Returned(1)
      && CleanTrail(g, Trail(g, rank, bs[0], ONE_OCTET), ONE_OCTET)
  {
    var g, rank := Short(bs), ShortRank(bs);
    ShortShape(bs);
    ShortExits();
    assert g[bs[0]] == FIRST.With(bs[1], bs[4]) && g[bs[1]] == OTHER.With(bs[3], bs[2]) && g[bs[3]] == Node([], Ret(1), null, null);
    hide Dag, Short;
    assert Goes(g[bs[0]], ONE_OCTET) && Goes(g[bs[1]], ONE_OCTET);
    assert Value(g, rank, bs[3], ONE_OCTET) == Returned(1) && Trail(g, rank, bs[3], ONE_OCTET) == [bs[3]];
    assert Value(g, rank, bs[1], ONE_OCTET) == Returned(1) && Trail(g, rank, bs[1], ONE_OCTET) == [bs[1], bs[3]];
    assert Trail(g, rank, bs[0], ONE_OCTET) == [bs[0], bs[1], bs[3]];
  }

  lemma ShortAfter(bs: seq<Block>, rank': map<Block, nat>)
    requires Apart(bs) && Site(true, [bs[1], bs[2]], 0).Good(Short(bs)) && Dag(Moved(Short(bs), Site(true, [bs[1], bs[2]], 0)), rank')
    ensures Value(Moved(Short(bs), Site(true, [bs[1], bs[2]], 0)), rank', bs[0], ONE_OCTET) == Returned(0)
  {
    var g, w := Short(bs), Site(true, [bs[1], bs[2]], 0);
    var g' := Moved(g, w);
    ShortExits();
    assert g'[bs[0]].stmts == FIRST.stmts && g'[bs[0]].s == FIRST.s && g'[bs[2]].stmts == AGAIN.stmts;
    assert g'[bs[0]].Succ(true) == bs[2];
    hide Dag, Short, Moved;
    assert Goes(g'[bs[0]], ONE_OCTET);
    assert Value(g', rank', bs[2], ONE_OCTET) == Returned(0);
  }
}
