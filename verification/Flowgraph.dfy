/** Basic blocks, the flow graph they form in memory, and the meaning of that graph. */
module Flowgraph {
  import opened Ir

  /** struct block: a list of statements, a branch statement, and two outgoing edges. */
  class Block {
    var stmts: seq<Stmt>
    var s: Branch
    var jt: Block?
    var jf: Block?
    var sense: bool
    var head: Block
    var mark: nat
    var id: nat
    var level: nat
    var link: Block?
    var longjt: bool
    var longjf: bool
    var offset: nat

    // What the optimiser computes about the block.
    var dom: set<Block>
    var etDom: set<Edge>
    var efDom: set<Edge>
    var inEdges: seq<Edge>
    var def: set<int>
    var kill: set<int>
    var inUse: set<int>
    var outUse: set<int>
    var val: seq<nat>
    var oval: nat

    constructor (s: Branch)
      ensures this.s == s && stmts == [] && jt == null && jf == null
      ensures !sense && head == this && mark == 0 && !longjt && !longjf
    {
      this.s, stmts, jt, jf := s, [], null, null;
      sense, head, mark, longjt, longjf := false, this, 0, false, false;
    }

    function Succ(sense: bool): Block?
      reads this`jt, this`jf
    {
      if sense then jt else jf
    }
  }

  /** Blocks as they are allocated: not marked, and without long jumps. */
  ghost predicate Blank(blocks: set<Block>)
    reads blocks`mark, blocks`longjt, blocks`longjf
  {
    forall b | b in blocks :: b.mark == 0 && !b.longjt && !b.longjf
  }

  /** The value arrays of blocks have room for every atom. */
  ghost predicate Sized(blocks: set<Block>)
    reads blocks`val
  {
    forall b | b in blocks :: |b.val| == N_ATOMS
  }

  /** The edge out of a block taken when its branch statement is true (sense) or false. */
  datatype Edge = Edge(pred: Block, sense: bool)

  /** What a block contributes to the meaning of its graph. */
  datatype Node = Node(stmts: seq<Stmt>, s: Branch, jt: Block?, jf: Block?) {
    function Succ(sense: bool): Block? { if sense then jt else jf }
  }

  type Graph = map<Block, Node>

  ghost function Snap(blocks: set<Block>): (g: Graph)
    reads blocks`stmts, blocks`s, blocks`jt, blocks`jf
    ensures g.Keys == blocks
  {
    map b | b in blocks :: Node(b.stmts, b.s, b.jt, b.jf)
  }

  ghost predicate Distinct(s: seq<Block>) {
    forall i, j | 0 <= i < j < |s| :: s[i] != s[j]
  }

  ghost function Elements(s: seq<Block>): set<Block> { set b | b in s }

  ghost predicate SameBodies(g: Graph, g': Graph) {
    g.Keys == g'.Keys && forall b | b in g :: g'[b].stmts == g[b].stmts && g'[b].s == g[b].s
  }

  /** Scratch operations stay within the sixteen words, as the code generator's do. */
  ghost predicate GoodScratch(g: Graph) {
    forall b | b in g :: Tame(g[b].stmts)
  }

  ghost predicate IsLeaf(n: Node) {
    n.s.Ret? && n.jt == null && n.jf == null
  }

  ghost predicate Closed(g: Graph) {
    forall b | b in g :: IsLeaf(g[b]) || (g[b].s.Jmp? && g[b].jt in g && g[b].jf in g)
  }

  /** A well-formed acyclic flow graph: leaves return, every other block has both successors. */
  ghost predicate Dag(g: Graph, rank: map<Block, nat>) {
    && g.Keys <= rank.Keys
    && Closed(g)
    && forall b | b in g && g[b].s.Jmp? :: rank[g[b].jt] < rank[b] && rank[g[b].jf] < rank[b]
  }

  /** The value a filter returns when control enters block b in machine state st. */
  ghost function Run(g: Graph, rank: map<Block, nat>, b: Block, st: State, pkt: Packet): Outcome
    requires Dag(g, rank) && b in g
    decreases rank[b]
  {
    match ExecAll(g[b].stmts, st, pkt)
    case Reject => Returned(0)
    case Fault => Undefined
    case Next(st') =>
      if g[b].s.Ret? then Returned(g[b].s.k)
      else Run(g, rank, g[b].Succ(Decide(g[b].s, st')), st', pkt)
  }

  /** The meaning of a graph does not depend on the numbering that shows it acyclic. */
  lemma {:induction false} RunRank(g: Graph, rank: map<Block, nat>, rank': map<Block, nat>, b: Block, st: State, pkt: Packet)
    requires Dag(g, rank) && Dag(g, rank') && b in g
    ensures Run(g, rank, b, st, pkt) == Run(g, rank', b, st, pkt)
    decreases rank[b]
  {
    var r := ExecAll(g[b].stmts, st, pkt);
    if r.Next? && g[b].s.Jmp? {
      RunRank(g, rank, rank', g[b].Succ(Decide(g[b].s, r.st)), r.st, pkt);
    }
  }

  // ----- Reachability -----

  ghost function Reach(g: Graph, rank: map<Block, nat>, b: Block): (s: set<Block>)
    requires Dag(g, rank) && b in g
    ensures b in s && s <= g.Keys
    decreases rank[b]
  {
    if g[b].s.Ret? then {b} else {b} + Reach(g, rank, g[b].jt) + Reach(g, rank, g[b].jf)
  }

  lemma {:induction false} ReachIsClosed(g: Graph, rank: map<Block, nat>, b: Block, x: Block)
    requires Dag(g, rank) && b in g && x in Reach(g, rank, b)
    ensures Reach(g, rank, x) <= Reach(g, rank, b)
    ensures rank[x] <= rank[b] && (rank[x] == rank[b] ==> x == b)
    decreases rank[b]
  {
    if x != b {
      if x in Reach(g, rank, g[b].jt) {
        ReachIsClosed(g, rank, g[b].jt, x);
      } else {
        ReachIsClosed(g, rank, g[b].jf, x);
      }
    }
  }

  lemma ReachRanks(g: Graph, rank: map<Block, nat>, root: Block)
    requires Dag(g, rank) && root in g
    ensures forall b | b in Reach(g, rank, root) :: b in rank && rank[b] <= rank[root]
  {
    forall b | b in Reach(g, rank, root)
      ensures rank[b] <= rank[root]
    {
      ReachIsClosed(g, rank, root, b);
    }
  }

  /** A block that can be reached, other than the root, has an edge into it. */
  lemma {:induction false} PredecessorOf(g: Graph, rank: map<Block, nat>, root: Block, x: Block) returns (p: Block, s: bool)
    requires Dag(g, rank) && root in g && x in Reach(g, rank, root) && x != root
    ensures p in Reach(g, rank, root) && g[p].s.Jmp? && g[p].Succ(s) == x
    decreases rank[root]
  {
    s := x in Reach(g, rank, g[root].jt);
    var c := g[root].Succ(s);
    if c == x {
      p := root;
    } else {
      p, s := PredecessorOf(g, rank, c, x);
    }
  }
}
