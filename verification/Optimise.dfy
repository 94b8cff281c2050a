/** A pass of the optimiser over its branches: all the analyses, value numbering, and jump threading. */
module Optimise {
  import opened Words
  import opened Ir
  import opened Flowgraph
  import opened Levels
  import opened Dominators
  import opened Liveness
  import opened Values
  import opened Numbering
  import opened Threading
  import Flatten
  import Interning
  import Peep

  /** Numbering without rewriting changes no statement. */
  lemma Unchanged(g: Graph, reach: set<Block>, root: Block, es: seq<Triple>, t: Tables)
    requires Numbering.Swept(es, g, reach, reach, root, t, StmtsOf(g.Keys), false) && SameShape(g)
    ensures g == Snap(g.Keys)
  {
    forall b | b in g
      ensures Snap(g.Keys)[b] == g[b]
    {
      assert b in reach ==> BlockDone(es, g[b].stmts, StmtsOf(g.Keys)[b], t.vin[b], t.vout[b], false);
    }
  }

  lemma TablesAre(g: Graph, reach: set<Block>, root: Block, es: seq<Triple>, t: Tables)
    requires Numbering.Swept(es, g, reach, reach, root, t, StmtsOf(g.Keys), false)
    requires t.vout == ValsOf(g.Keys) && t.oval == OvalsOf(g.Keys) && Sized(g.Keys)
    ensures OperandsOf(t) == TabOf(g.Keys)
  {
    forall b | b in g
      ensures t.vout[b] == b.val && t.oval[b] == b.oval
    {
      assert ValsOf(g.Keys)[b] == b.val && OvalsOf(g.Keys)[b] == b.oval;
    }
  }

  /** The tables of numbering, and the dominators of edges, are what jump threading relies on. */
  lemma ReadyToThread(g: Graph, rank: map<Block, nat>, root: Block, table: ValueTable, t: Tables, edom: map<Edge, set<Edge>>)
    requires Dag(g, rank) && root in g && AllQuiet(g, Reach(g, rank, root)) && Contained(g, Reach(g, rank, root)) && table.Valid()
    requires Numbering.Swept(table.entries, g, Reach(g, rank, root), Reach(g, rank, root), root, t, StmtsOf(g.Keys), false)
    requires Sized(g.Keys)
    requires t.vout == ValsOf(g.Keys) && t.oval == OvalsOf(g.Keys)
    requires Valid(Edges(g, rank, root)) && Solves(Edges(g, rank, root), edom)
    requires edom.Keys == EdgesOf(Reach(g, rank, root)) && forall e | e in edom :: edom[e] == Edom(e)
    ensures Threading.Ready(g, rank, root)
  {
    hide Faithful, Numbering.Swept, AllQuiet, Contained, Dag, Reach, Solves, Valid, OperandsOf, TabOf, Threading.Ready;
    TablesAre(g, Reach(g, rank, root), root, table.entries, t);
    NumberingFaithful(table.entries, g, Reach(g, rank, root), root, t, StmtsOf(g.Keys));
    ReadyFrom(g, rank, root, edom);
  }

  lemma ReadyFrom(g: Graph, rank: map<Block, nat>, root: Block, edom: map<Edge, set<Edge>>)
    requires Dag(g, rank) && root in g && Reach(g, rank, root) <= g.Keys
    requires Sized(g.Keys) && Faithful(g, Reach(g, rank, root), TabOf(g.Keys))
    requires Valid(Edges(g, rank, root)) && Solves(Edges(g, rank, root), edom)
    requires edom.Keys == EdgesOf(Reach(g, rank, root)) && forall e | e in edom :: edom[e] == Edom(e)
    ensures Threading.Ready(g, rank, root)
  {
    hide Faithful, Dag, Reach, Solves, Valid, Edges, EdgesOf, Edom, TabOf;
    EdgesMore(Reach(g, rank, root), g.Keys);
    assert edom == map e | e in EdgesOf(Reach(g, rank, root)) :: Edom(e);
  }

  lemma EdgesMore(s: set<Block>, t: set<Block>)
    requires s <= t
    ensures EdgesOf(s) <= EdgesOf(t)
  {
  }

  /** The analyses of opt_loop, as far as branches need them. */
  method Analyse(root: Block, blocks: seq<Block>, levels: array<seq<Block>>, mark: nat, ghost g: Graph, ghost rank: map<Block, nat>)
    requires g == Snap(g.Keys) && Dag(g, rank) && root in g && Interning.Numbered(g, blocks) && Flatten.Marked(g.Keys, mark) == {}
    requires |Reach(g, rank, root)| <= levels.Length && g.Keys == set b | b in blocks
    modifies levels, g.Keys`mark, g.Keys`level, g.Keys`dom, g.Keys`etDom, g.Keys`efDom, g.Keys`inEdges
    modifies g.Keys`def, g.Keys`kill, g.Keys`inUse, g.Keys`outUse
    ensures g == Snap(g.Keys) && Levelled(g, rank, root, levels[..]) && root.level == Height(g, rank, root)
    ensures Valid(Edges(g, rank, root)) && Solves(Edges(g, rank, root), map e | e in EdgesOf(Reach(g, rank, root)) :: Edom(e))
    ensures InedgesOf(g, Reach(g, rank, root), InsOf(g.Keys))
    ensures forall b | b in Reach(g, rank, root) :: b.inUse == LiveIn(g, rank, b) && b.outUse == LiveOut(g, rank, b)
  {
    hide Dag, Levelled, Height, Snap, Interning.Numbered, Valid, Solves, InedgesOf, InsOf, LiveIn, LiveOut, EdgesOf, Edom, Edges;
    AnalyseBlocks(root, blocks, levels, mark, g, rank);
    AnalyseEdges(root, blocks, levels, g, rank);
  }

  method AnalyseBlocks(root: Block, blocks: seq<Block>, levels: array<seq<Block>>, mark: nat, ghost g: Graph, ghost rank: map<Block, nat>)
    requires g == Snap(g.Keys) && Dag(g, rank) && root in g && Flatten.Marked(g.Keys, mark) == {}
    requires |Reach(g, rank, root)| <= levels.Length && g.Keys == set b | b in blocks
    modifies levels, g.Keys`mark, g.Keys`level, g.Keys`dom, g.Keys`def, g.Keys`kill, g.Keys`inUse, g.Keys`outUse
    ensures g == Snap(g.Keys) && Levelled(g, rank, root, levels[..]) && root.level == Height(g, rank, root)
    ensures forall b | b in Reach(g, rank, root) :: b.inUse == LiveIn(g, rank, b) && b.outUse == LiveOut(g, rank, b)
  {
    hide Dag, Levelled, Height, Snap, Valid, Solves, LiveIn, LiveOut;
    FindLevels(root, levels, mark, g, rank);
    RootReached(g, rank, root);
    FindDom(root, blocks, levels, g, rank);
    FindUd(root, levels, g, rank);
  }

  method AnalyseEdges(root: Block, blocks: seq<Block>, levels: array<seq<Block>>, ghost g: Graph, ghost rank: map<Block, nat>)
    requires g == Snap(g.Keys) && Dag(g, rank) && root in g && Interning.Numbered(g, blocks) && g.Keys == set b | b in blocks
    requires Levelled(g, rank, root, levels[..]) && root.level == Height(g, rank, root)
    modifies g.Keys`etDom, g.Keys`efDom, g.Keys`inEdges
    ensures Valid(Edges(g, rank, root)) && Solves(Edges(g, rank, root), map e | e in EdgesOf(Reach(g, rank, root)) :: Edom(e))
    ensures InedgesOf(g, Reach(g, rank, root), InsOf(g.Keys))
  {
    hide Dag, Levelled, Height, Snap, Interning.Numbered, Valid, Solves, InedgesOf, InsOf, EdgesOf, Edom, Edges;
    FindInedges(root, blocks, levels, g, rank);
    FindEdom(root, blocks, levels, g, rank);
  }

  lemma RootReached(g: Graph, rank: map<Block, nat>, root: Block)
    requires Dag(g, rank) && root in g
    ensures root in Reach(g, rank, root)
  {
  }

  /**
   * Levels, dominators, liveness, in-edges and value numbers, computed from scratch, and then the sweep
   * of opt_j: on every packet on which no block fails, the filter returns what it returned.
   */
  method ThreadPass(root: Block, blocks: seq<Block>, levels: array<seq<Block>>, edges: seq<Edge>, table: ValueTable, mark: nat,
                    ghost g: Graph, ghost rank: map<Block, nat>)
    requires g == Snap(g.Keys) && Dag(g, rank) && root in g && Interning.Numbered(g, blocks) && Flatten.Marked(g.Keys, mark) == {}
    requires |Reach(g, rank, root)| <= levels.Length && g.Keys == set b | b in blocks
    requires forall k | 0 <= k < |edges| :: edges[k] in EdgesOf(g.Keys)
    requires GoodScratch(g) && AllQuiet(g, Reach(g, rank, root)) && Contained(g, Reach(g, rank, root))
    requires Sized(g.Keys)
    requires table.Valid() && table.entries == [] && Allocated(g, blocks, table.vmap.Length)
    modifies levels, g.Keys, table, table.hashtbl, table.vmap
    ensures Skips(g, rank, root, Snap(g.Keys)) && NoneSkips(g.Keys, edges, Reach(g, rank, root))
    ensures forall st, pkt | CleanTrail(g, Trail(g, rank, root, pkt), pkt) ::
      Run(Snap(g.Keys), rank, root, st, pkt) == Run(g, rank, root, st, pkt)
  {
    hide Dag, Levelled, Height, Snap, Interning.Numbered, Valid, Solves, InedgesOf, InsOf, EdgesOf, Edges, Skips;
    hide GoodScratch, AllQuiet, Contained, Allocated, Reach, LiveIn, LiveOut;
    Analyse(root, blocks, levels, mark, g, rank);
    NumberAndThread(root, blocks, levels, edges, table, g, rank);
  }

  /** opt_blks without opt_peep, opt_deadstores and the pull-ups. */
  method NumberAndThread(root: Block, ghost blocks: seq<Block>, levels: array<seq<Block>>, edges: seq<Edge>, table: ValueTable,
                         ghost g: Graph, ghost rank: map<Block, nat>)
    requires g == Snap(g.Keys) && Dag(g, rank) && root in g && Levelled(g, rank, root, levels[..]) && root.level == Height(g, rank, root)
    requires Valid(Edges(g, rank, root)) && Solves(Edges(g, rank, root), map e | e in EdgesOf(Reach(g, rank, root)) :: Edom(e))
    requires InedgesOf(g, Reach(g, rank, root), InsOf(g.Keys))
    requires forall k | 0 <= k < |edges| :: edges[k] in EdgesOf(g.Keys)
    requires GoodScratch(g) && AllQuiet(g, Reach(g, rank, root)) && Contained(g, Reach(g, rank, root))
    requires Sized(g.Keys)
    requires table.Valid() && table.entries == [] && Allocated(g, blocks, table.vmap.Length)
    modifies g.Keys`stmts, g.Keys`val, g.Keys`oval, g.Keys`jt, g.Keys`jf, table, table.hashtbl, table.vmap
    ensures Skips(g, rank, root, Snap(g.Keys)) && NoneSkips(g.Keys, edges, Reach(g, rank, root))
    ensures forall st, pkt | CleanTrail(g, Trail(g, rank, root, pkt), pkt) ::
      Run(Snap(g.Keys), rank, root, st, pkt) == Run(g, rank, root, st, pkt)
  {
    hide Dag, Levelled, Height, Snap, Valid, Solves, InedgesOf, InsOf, Edges, Skips, Numbering.Swept;
    hide GoodScratch, AllQuiet, Contained, Allocated, Threading.Ready, SameShape, StmtsOf, ValsOf, OvalsOf, Reach;
    ghost var edom := map e | e in EdgesOf(Reach(g, rank, root)) :: Edom(e);
    var ok;
    ghost var t;
    ok, t := NumberBlocks(root, levels, table, false, g, rank, blocks);
    Unchanged(g, Reach(g, rank, root), root, table.entries, t);
    forall e | e in edom
      ensures Edom(e) == edom[e]
    {
      assert e.pred in g;
    }
    ReadyToThread(g, rank, root, table, t, edom);
    ThreadJumps(root, levels, edges, g, rank);
  }

  // ----- Why rewriting is off in the pass -----

  /**
   * opt_peep moves a subtraction at the end of a block into the branch, but the block keeps the number of the difference.
   * A branch c that tests the same difference against the moved constant then looks the same to fold_edge. On the true side
   * fold_edge is right about c if and only if zero was subtracted, on the false side unless the operand is the one value
   * for which c is true.
   */
  lemma FoldAfterPeep(z: Stmt, t: Peep.Tail, x: Peep.Content, before: State, after: State, pkt: Packet, c: Branch, st: State, o: Operands)
    requires z.op == Alu(Sub, K) && t.s == Jmp(JEQ, K, t.s.k) && Exec(z, before, pkt) == Next(after)
    requires c == Jmp(JEQ, K, Wrap(t.s.k + z.k)) && st[A_ATOM] == after[A_ATOM]
    ensures var (moved, t') := Peep.FoldLast(z, t, false, x);
      && moved && Decide(t'.s, before) == Decide(t.s, after)
      && Folds(c, o, t'.s, o, Decide(t'.s, before)) == Fold.Known(Decide(t'.s, before))
      && (Decide(c, st) == Decide(t'.s, before) <==>
            if Decide(t'.s, before) then z.k == 0 else before[A_ATOM] != Wrap(t.s.k + z.k + z.k))
  {
    Differs(before[A_ATOM], t.s.k, z.k);
  }

  lemma Differs(a: Word, k: Word, w: Word)
    ensures a == Wrap(k + w) <==> Wrap(a - w) == k
    ensures Wrap(a - w) == Wrap(k + w) <==> a == Wrap(k + w + w)
    ensures a == Wrap(k + w) ==> (a == Wrap(k + w + w) <==> w == 0)
  {
  }
}
