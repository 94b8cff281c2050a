/** intern_blocks: equal blocks are made one. */
module Interning {
  import opened Ir
  import opened Flowgraph
  import opened Layout
  import opened Flatten
  import opened Levels

  /** eq_blk: the same live statements, the same branch, and the same successors. */
  ghost predicate Equal(g: Graph, x: Block, y: Block)
    requires x in g && y in g
  {
    g[x].s == g[y].s && g[x].jt == g[y].jt && g[x].jf == g[y].jf && Live(g[x].stmts) == Live(g[y].stmts)
  }

  /** Equal blocks mean the same. */
  lemma RunEqual(g: Graph, rank: map<Block, nat>, x: Block, y: Block, st: State, pkt: Packet)
    requires Dag(g, rank) && x in g && y in g && Equal(g, x, y)
    ensures Run(g, rank, x, st, pkt) == Run(g, rank, y, st, pkt) && Height(g, rank, x) == Height(g, rank, y)
  {
    ExecLive(g[x].stmts, st, pkt);
    ExecLive(g[y].stmts, st, pkt);
    hide ExecAll, Live, Decide;
  }

  // ----- One pass of redirections -----

  /** Where blocks have been linked to; a block without a link stays. */
  ghost function Linked(link: map<Block, Block?>, x: Block?): Block? {
    if x != null && x in link && link[x] != null then link[x] else x
  }

  ghost function Collapsed(g: Graph, link: map<Block, Block?>): Graph {
    map b | b in g :: g[b].(jt := Linked(link, g[b].jt), jf := Linked(link, g[b].jf))
  }

  ghost predicate GoodLinks(g: Graph, link: map<Block, Block?>) {
    forall x | x in g && x in link && link[x] != null :: link[x] in g && Equal(g, x, link[x])
  }

  ghost function Heights(g: Graph, rank: map<Block, nat>): map<Block, nat>
    requires Dag(g, rank)
  {
    map b | b in g :: Height(g, rank, b)
  }

  lemma CollapsedDag(g: Graph, rank: map<Block, nat>, link: map<Block, Block?>)
    requires Dag(g, rank) && GoodLinks(g, link)
    ensures Dag(Collapsed(g, link), Heights(g, rank))
  {
    var g', h := Collapsed(g, link), Heights(g, rank);
    forall b | b in g && g[b].s.Jmp?
      ensures g'[b].jt in g' && g'[b].jf in g' && h[g'[b].jt] < h[b] && h[g'[b].jf] < h[b]
    {
      LinkedHeight(g, rank, link, g[b].jt);
      LinkedHeight(g, rank, link, g[b].jf);
    }
  }

  lemma LinkedHeight(g: Graph, rank: map<Block, nat>, link: map<Block, Block?>, x: Block)
    requires Dag(g, rank) && GoodLinks(g, link) && x in g
    ensures var y := Linked(link, x);
      y in g && Height(g, rank, y) == Height(g, rank, x) && Equal(g, x, y)
  {
  }

  /** Redirecting every edge to an equal block changes the meaning of no block. */
  lemma {:induction false} CollapsePreserves(g: Graph, rank: map<Block, nat>, link: map<Block, Block?>, b: Block, st: State, pkt: Packet)
    requires Dag(g, rank) && GoodLinks(g, link) && b in g && Dag(Collapsed(g, link), Heights(g, rank))
    ensures Run(Collapsed(g, link), Heights(g, rank), b, st, pkt) == Run(g, rank, b, st, pkt)
    decreases Height(g, rank, b)
  {
    var r := ExecAll(g[b].stmts, st, pkt);
    if r.Next? && g[b].s.Jmp? {
      var y := g[b].Succ(Decide(g[b].s, r.st));
      LinkedHeight(g, rank, link, y);
      RunEqual(g, rank, y, Linked(link, y), r.st, pkt);
      hide ExecAll, Decide, GoodLinks, Equal;
      CollapsePreserves(g, rank, link, Linked(link, y), r.st, pkt);
    }
  }

  // ----- eq_slist and eq_blk -----

  lemma LiveAt(ss: seq<Stmt>, i: nat)
    requires i < |ss|
    ensures Live(ss[i..]) == if ss[i].op.Nop? then Live(ss[i + 1..]) else [ss[i]] + Live(ss[i + 1..])
  {
    assert ss[i..][1..] == ss[i + 1..];
  }

  lemma ConsEqual(a: Stmt, s: seq<Stmt>, b: Stmt, t: seq<Stmt>)
    ensures [a] + s == [b] + t <==> a == b && s == t
  {
    if [a] + s == [b] + t {
      assert ([a] + s)[0] == ([b] + t)[0];
      assert ([a] + s)[1..] == s && ([b] + t)[1..] == t;
    }
  }

  /** Skip deleted statements. */
  method SkipNops(ss: seq<Stmt>, from: nat) returns (i: nat)
    requires from <= |ss|
    ensures from <= i <= |ss| && Live(ss[i..]) == Live(ss[from..]) && (i < |ss| ==> !ss[i].op.Nop?)
  {
    hide Live;
    i := from;
    while i < |ss| && ss[i].op.Nop?
      invariant from <= i <= |ss| && Live(ss[i..]) == Live(ss[from..])
    {
      LiveAt(ss, i);
      i := i + 1;
    }
  }

  /** eq_slist. */
  method EqSlist(x: seq<Stmt>, y: seq<Stmt>) returns (equal: bool)
    ensures equal <==> Live(x) == Live(y)
  {
    var i, j := 0, 0;
    assert x[0..] == x && y[0..] == y;
    while true
      invariant i <= |x| && j <= |y|
      invariant Live(x) == Live(y) <==> Live(x[i..]) == Live(y[j..])
      decreases |x| - i
    {
      i := SkipNops(x, i);
      j := SkipNops(y, j);
      if i == |x| {
        LiveEmpty(x, y, j);
        return j == |y|;
      }
      LiveAt(x, i);
      if j == |y| {
        assert y[j..] == [];
        return false;
      }
      LiveAt(y, j);
      ConsEqual(x[i], Live(x[i + 1..]), y[j], Live(y[j + 1..]));
      if x[i].op != y[j].op || x[i].k != y[j].k { return false; }
      i, j := i + 1, j + 1;
    }
  }

  lemma LiveEmpty(x: seq<Stmt>, y: seq<Stmt>, j: nat)
    requires j <= |y| && (j < |y| ==> !y[j].op.Nop?)
    ensures Live(x[|x|..]) == Live(y[j..]) <==> j == |y|
  {
    assert x[|x|..] == [];
    if j < |y| {
      LiveAt(y, j);
    }
  }

  method EqBlk(b0: Block, b1: Block, ghost g: Graph) returns (equal: bool)
    requires g == Snap(g.Keys) && b0 in g && b1 in g
    ensures equal <==> Equal(g, b0, b1)
  {
    assert g[b0] == Node(b0.stmts, b0.s, b0.jt, b0.jf) && g[b1] == Node(b1.stmts, b1.s, b1.jt, b1.jf);
    if b0.s == b1.s && b0.jt == b1.jt && b0.jf == b1.jf {
      equal := EqSlist(b0.stmts, b1.stmts);
    } else {
      equal := false;
    }
  }

  // ----- mark_code -----

  ghost function Seen(g: Graph, rank: map<Block, nat>, p: Block, seen: set<Block>): set<Block>
    requires Dag(g, rank) && p in g
  {
    Count(g, rank, Longs({}, {}), p, seen).seen
  }

  /** make_marks. */
  method MakeMarks(p: Block, mark: nat, ghost blocks: set<Block>, ghost g: Graph, ghost rank: map<Block, nat>)
    requires g == Snap(blocks) && Dag(g, rank) && p in g
    modifies blocks`mark
    ensures Marked(blocks, mark) == Seen(g, rank, p, old(Marked(blocks, mark)))
    ensures forall b | b in blocks :: b.mark == old(b.mark) || b.mark == mark
    decreases rank[p]
  {
    hide Dag, Count;
    ghost var seen := Marked(blocks, mark);
    if p.mark == mark {
      CountNothing(g, rank, Longs({}, {}), p, seen);
      return;
    }
    assert g[p] == Node(p.stmts, p.s, p.jt, p.jf);
    CountUnfolds(g, rank, Longs({}, {}), p, seen);
    MarkOne(p, mark, blocks);
    hide Marked, Snap;
    if !p.s.Ret? {
      MakeMarks(p.jt, mark, blocks, g, rank);
      MakeMarks(p.jf, mark, blocks, g, rank);
    }
  }

  method MarkOne(p: Block, mark: nat, ghost blocks: set<Block>)
    requires p in blocks
    modifies p`mark
    ensures Marked(blocks, mark) == old(Marked(blocks, mark)) + {p}
  {
    p.mark := mark;
  }

  lemma SeenIsReach(g: Graph, rank: map<Block, nat>, root: Block)
    requires Dag(g, rank) && root in g
    ensures Seen(g, rank, root, {}) == Reach(g, rank, root)
  {
    VisitsReach(g, rank, root, true);
  }

  // ----- Links -----

  ghost function LinkOf(blocks: set<Block>): (link: map<Block, Block?>)
    reads blocks`link
    ensures link.Keys == blocks
  {
    map b | b in blocks :: b.link
  }

  /** All different, and just the blocks of the graph. */
  ghost predicate Numbered(g: Graph, blocks: seq<Block>) {
    && (forall i | 0 <= i < |blocks| :: blocks[i] in g)
    && (forall b | b in g :: b in blocks)
    && forall i, j | 0 <= i < j < |blocks| :: blocks[i] != blocks[j]
  }

  /** The i-th block is linked to an equal marked block further on, and is not linked only if there is none. */
  ghost predicate LinkRight(g: Graph, blocks: seq<Block>, marked: set<Block>, link: map<Block, Block?>, i: nat)
    requires Numbered(g, blocks) && i < |blocks| && link.Keys == g.Keys
  {
    var x := blocks[i];
    if link[x] == null then x in marked ==> forall j | i < j < |blocks| && blocks[j] in marked :: !Equal(g, x, blocks[j])
    else exists m | i < m < |blocks| :: link[x] == blocks[m] && Equal(g, x, blocks[m])
  }

  ghost predicate LinksFrom(g: Graph, blocks: seq<Block>, marked: set<Block>, link: map<Block, Block?>, i: nat)
    requires Numbered(g, blocks) && i <= |blocks| && link.Keys == g.Keys
  {
    && (forall k | i <= k < |blocks| :: LinkRight(g, blocks, marked, link, k))
    && forall k | 0 <= k < i :: link[blocks[k]] == null
  }

  /** The body of intern_blocks' outer search. */
  method LinkBlock(x: Block, i: nat, blocks: seq<Block>, mark: nat, ghost g: Graph)
    requires g == Snap(g.Keys) && Numbered(g, blocks) && i < |blocks| && x == blocks[i]
    requires LinksFrom(g, blocks, Marked(g.Keys, mark), LinkOf(g.Keys), i + 1)
    modifies x`link
    ensures LinksFrom(g, blocks, Marked(g.Keys, mark), LinkOf(g.Keys), i)
  {
    hide Equal, LinkRight, Snap;
    ghost var marked, link := Marked(g.Keys, mark), LinkOf(g.Keys);
    if x.mark != mark {
      NotLinked(g, blocks, marked, link, i);
      return;
    }
    for j := i + 1 to |blocks|
      invariant LinkOf(g.Keys) == link
      invariant forall k | i < k < j && blocks[k] in marked :: !Equal(g, x, blocks[k])
    {
      if blocks[j].mark == mark {
        var equal := EqBlk(x, blocks[j], g);
        if equal {
          var to := if blocks[j].link != null then blocks[j].link else blocks[j];
          LinkFound(g, blocks, marked, link, i, j, to);
          x.link := to;
          assert LinkOf(g.Keys) == link[x := to];
          return;
        }
      }
    }
    NotLinked(g, blocks, marked, link, i);
  }

  lemma NotLinked(g: Graph, blocks: seq<Block>, marked: set<Block>, link: map<Block, Block?>, i: nat)
    requires Numbered(g, blocks) && i < |blocks| && link.Keys == g.Keys && LinksFrom(g, blocks, marked, link, i + 1)
    requires blocks[i] in marked ==> forall j | i < j < |blocks| && blocks[j] in marked :: !Equal(g, blocks[i], blocks[j])
    ensures LinksFrom(g, blocks, marked, link, i)
  {
  }

  lemma LinkFound(g: Graph, blocks: seq<Block>, marked: set<Block>, link: map<Block, Block?>, i: nat, j: nat, to: Block)
    requires Numbered(g, blocks) && i < j < |blocks| && link.Keys == g.Keys && LinksFrom(g, blocks, marked, link, i + 1)
    requires Equal(g, blocks[i], blocks[j]) && to == if link[blocks[j]] != null then link[blocks[j]] else blocks[j]
    ensures LinksFrom(g, blocks, marked, link[blocks[i] := to], i)
  {
    var link' := link[blocks[i] := to];
    assert LinkRight(g, blocks, marked, link, j);
    var m :| j <= m < |blocks| && to == blocks[m] && Equal(g, blocks[j], to);
    assert LinkRight(g, blocks, marked, link', i);
    forall k | i < k < |blocks|
      ensures LinkRight(g, blocks, marked, link', k)
    {
      assert LinkRight(g, blocks, marked, link, k);
    }
  }

  lemma LinksAreGood(g: Graph, blocks: seq<Block>, marked: set<Block>, link: map<Block, Block?>)
    requires Numbered(g, blocks) && link.Keys == g.Keys && LinksFrom(g, blocks, marked, link, 0)
    ensures GoodLinks(g, link)
  {
    forall x | x in g && link[x] != null
      ensures link[x] in g && Equal(g, x, link[x])
    {
      var i :| 0 <= i < |blocks| && blocks[i] == x;
      assert LinkRight(g, blocks, marked, link, i);
    }
  }

  // ----- Redirections -----

  /** Only the blocks of `done` redirected so far. */
  ghost function PartCollapsed(g: Graph, link: map<Block, Block?>, done: set<Block>): Graph {
    map b | b in g :: if b in done then Collapsed(g, link)[b] else g[b]
  }

  ghost predicate NoSelf(link: map<Block, Block?>) {
    forall x | x in link :: link[x] != x
  }

  lemma PartStep(g: Graph, link: map<Block, Block?>, done: set<Block>, p: Block)
    requires p in g && p !in done
    ensures PartCollapsed(g, link, done)[p] == g[p]
    ensures PartCollapsed(g, link, done + {p}) == PartCollapsed(g, link, done)[p := Collapsed(g, link)[p]]
  {
  }

  method RedirectBlock(p: Block, ghost g: Graph, ghost link: map<Block, Block?>, ghost done: set<Block>) returns (changed: bool)
    requires Closed(g) && p in g && p !in done && NoSelf(link)
    requires link == LinkOf(g.Keys) && Snap(g.Keys) == PartCollapsed(g, link, done)
    modifies p`jt, p`jf
    ensures Snap(g.Keys) == PartCollapsed(g, link, done + {p})
    ensures changed <==> Collapsed(g, link)[p] != g[p]
  {
    PartStep(g, link, done, p);
    assert Snap(g.Keys)[p] == Node(p.stmts, p.s, p.jt, p.jf);
    hide PartCollapsed;
    changed := false;
    if p.jt == null { return; }
    assert link[p.jt] == p.jt.link && link[p.jf] == p.jf.link;
    if p.jt.link != null {
      changed := true;
      p.jt := p.jt.link;
    }
    if p.jf.link != null {
      changed := true;
      p.jf := p.jf.link;
    }
    assert Node(p.stmts, p.s, p.jt, p.jf) == Collapsed(g, link)[p];
  }

  /** Where a block is in the array. */
  ghost function Index(blocks: seq<Block>, b: Block): (i: nat)
    requires b in blocks
    ensures i < |blocks| && blocks[i] == b
  {
    var i :| 0 <= i < |blocks| && blocks[i] == b;
    i
  }

  ghost function Pos(blocks: seq<Block>, b: Block?): (i: nat)
    ensures i <= |blocks|
  {
    if b != null && b in blocks then Index(blocks, b) else 0
  }

  /** The sum of the positions of the successors of the first n blocks. */
  ghost function SuccSum(g: Graph, blocks: seq<Block>, n: nat): (sum: nat)
    requires n <= |blocks| && forall i | 0 <= i < |blocks| :: blocks[i] in g
    ensures sum <= 2 * |blocks| * n
  {
    if n == 0 then 0
    else SuccSum(g, blocks, n - 1) + Pos(blocks, g[blocks[n - 1]].jt) + Pos(blocks, g[blocks[n - 1]].jf)
  }

  ghost predicate LinksForward(blocks: seq<Block>, link: map<Block, Block?>) {
    forall x | x in link && link[x] != null :: x in blocks && link[x] in blocks && Index(blocks, x) < Index(blocks, link[x])
  }

  lemma PosLinked(blocks: seq<Block>, link: map<Block, Block?>, x: Block?)
    requires LinksForward(blocks, link)
    ensures Pos(blocks, x) <= Pos(blocks, Linked(link, x)) && (Linked(link, x) != x ==> Pos(blocks, x) < Pos(blocks, Linked(link, x)))
  {
  }

  /** Redirecting along links that lead forward raises the sum, unless nothing is redirected. */
  lemma {:induction false} SumRises(g: Graph, blocks: seq<Block>, link: map<Block, Block?>, n: nat)
    requires n <= |blocks| && (forall i | 0 <= i < |blocks| :: blocks[i] in g) && LinksForward(blocks, link)
    ensures SuccSum(g, blocks, n) <= SuccSum(Collapsed(g, link), blocks, n)
    ensures (exists i | 0 <= i < n :: Collapsed(g, link)[blocks[i]] != g[blocks[i]]) ==>
      SuccSum(g, blocks, n) < SuccSum(Collapsed(g, link), blocks, n)
  {
    if n > 0 {
      SumRises(g, blocks, link, n - 1);
      PosLinked(blocks, link, g[blocks[n - 1]].jt);
      PosLinked(blocks, link, g[blocks[n - 1]].jf);
    }
  }

  lemma LinksLeadForward(g: Graph, blocks: seq<Block>, marked: set<Block>, link: map<Block, Block?>)
    requires Numbered(g, blocks) && link.Keys == g.Keys && LinksFrom(g, blocks, marked, link, 0)
    ensures LinksForward(blocks, link)
  {
    forall x | x in link && link[x] != null
      ensures x in blocks && link[x] in blocks && Index(blocks, x) < Index(blocks, link[x])
    {
      assert LinkRight(g, blocks, marked, link, Index(blocks, x));
    }
  }

  /** When no successor is linked, no two reachable blocks are equal. */
  lemma NothingEqual(g: Graph, rank: map<Block, nat>, root: Block, blocks: seq<Block>, link: map<Block, Block?>)
    requires Dag(g, rank) && root in g && Numbered(g, blocks) && link.Keys == g.Keys
    requires LinksFrom(g, blocks, Reach(g, rank, root), link, 0) && Collapsed(g, link) == g
    ensures forall x, y | x in Reach(g, rank, root) && y in Reach(g, rank, root) && x != y :: !Equal(g, x, y)
  {
    forall x, y | x in Reach(g, rank, root) && y in Reach(g, rank, root) && Index(blocks, x) < Index(blocks, y)
      ensures !Equal(g, x, y)
    {
      NotEqual(g, rank, root, blocks, link, x, y);
    }
    forall x, y | x in Reach(g, rank, root) && y in Reach(g, rank, root) && x != y
      ensures !Equal(g, x, y)
    {
      assert Index(blocks, x) != Index(blocks, y);
      if Index(blocks, x) < Index(blocks, y) {
        assert !Equal(g, x, y);
      } else {
        assert !Equal(g, y, x);
      }
    }
  }

  lemma NotEqual(g: Graph, rank: map<Block, nat>, root: Block, blocks: seq<Block>, link: map<Block, Block?>, x: Block, y: Block)
    requires Dag(g, rank) && root in g && Numbered(g, blocks) && link.Keys == g.Keys
    requires LinksFrom(g, blocks, Reach(g, rank, root), link, 0) && Collapsed(g, link) == g
    requires x in Reach(g, rank, root) && y in Reach(g, rank, root) && Index(blocks, x) < Index(blocks, y)
    ensures !Equal(g, x, y)
  {
    if x == root {
      HeightFalls(g, rank, root, y);
      if Equal(g, x, y) {
        EqualHeights(g, rank, x, y);
      }
    } else {
      LinksLeadForward(g, blocks, Reach(g, rank, root), link);
      var p, s := PredecessorOf(g, rank, root, x);
      assert Collapsed(g, link)[p].Succ(s) == Linked(link, x) == x;
      assert link[x] == null;
      assert LinkRight(g, blocks, Reach(g, rank, root), link, Index(blocks, x));
    }
  }

  lemma EqualHeights(g: Graph, rank: map<Block, nat>, x: Block, y: Block)
    requires Dag(g, rank) && x in g && y in g && Equal(g, x, y)
    ensures Height(g, rank, x) == Height(g, rank, y)
  {
  }

  // ----- intern_blocks -----

  /** One pass: mark, link, redirect. */
  method InternPass(root: Block, blocks: seq<Block>, mark: nat, ghost g: Graph, ghost rank: map<Block, nat>)
    returns (changed: bool, ghost link: map<Block, Block?>)
    requires g == Snap(g.Keys) && Dag(g, rank) && root in g && Numbered(g, blocks) && Marked(g.Keys, mark) == {}
    modifies g.Keys`mark, g.Keys`link, g.Keys`jt, g.Keys`jf
    ensures link.Keys == g.Keys && LinksFrom(g, blocks, Reach(g, rank, root), link, 0)
    ensures Snap(g.Keys) == Collapsed(g, link) && (changed <==> Collapsed(g, link) != g)
    ensures forall b | b in g :: b.mark == old(b.mark) || b.mark == mark
  {
    hide Dag, Reach, LinksFrom, Numbered, Snap;
    changed := false;
    ClearLinks(blocks, mark, g);
    MarkCode(root, mark, g, rank);
    FindLinks(blocks, mark, g);
    link := LinkOf(g.Keys);
    PassLinks(g, rank, blocks, Reach(g, rank, root), link);
    changed := RedirectBlocks(blocks, g, link);
  }

  lemma PassLinks(g: Graph, rank: map<Block, nat>, blocks: seq<Block>, marked: set<Block>, link: map<Block, Block?>)
    requires Dag(g, rank) && Numbered(g, blocks) && link.Keys == g.Keys && LinksFrom(g, blocks, marked, link, 0)
    ensures Closed(g) && NoSelf(link)
  {
    LinksLeadForward(g, blocks, marked, link);
  }

  method ClearLinks(blocks: seq<Block>, mark: nat, ghost g: Graph)
    requires Numbered(g, blocks)
    modifies g.Keys`link
    ensures forall b | b in g :: b.link == null
  {
    for i := 0 to |blocks|
      invariant forall k | 0 <= k < i :: blocks[k].link == null
    {
      blocks[i].link := null;
    }
  }

  method MarkCode(root: Block, mark: nat, ghost g: Graph, ghost rank: map<Block, nat>)
    requires g == Snap(g.Keys) && Dag(g, rank) && root in g && Marked(g.Keys, mark) == {}
    modifies g.Keys`mark
    ensures Marked(g.Keys, mark) == Reach(g, rank, root)
    ensures forall b | b in g :: b.mark == old(b.mark) || b.mark == mark
  {
    MakeMarks(root, mark, g.Keys, g, rank);
    SeenIsReach(g, rank, root);
  }

  method FindLinks(blocks: seq<Block>, mark: nat, ghost g: Graph)
    requires g == Snap(g.Keys) && Numbered(g, blocks) && forall b | b in g :: b.link == null
    modifies g.Keys`link
    ensures LinksFrom(g, blocks, Marked(g.Keys, mark), LinkOf(g.Keys), 0)
  {
    hide Snap, Equal, Marked;
    if |blocks| == 0 { return; }
    var i := |blocks| - 1;
    while i > 0
      invariant 0 <= i < |blocks| && g == Snap(g.Keys)
      invariant LinksFrom(g, blocks, Marked(g.Keys, mark), LinkOf(g.Keys), i)
    {
      i := i - 1;
      LinkBlock(blocks[i], i, blocks, mark, g);
    }
  }

  method RedirectBlocks(blocks: seq<Block>, ghost g: Graph, ghost link: map<Block, Block?>) returns (changed: bool)
    requires g == Snap(g.Keys) && Closed(g) && Numbered(g, blocks) && link == LinkOf(g.Keys) && NoSelf(link)
    modifies g.Keys`jt, g.Keys`jf
    ensures Snap(g.Keys) == Collapsed(g, link) && (changed <==> Collapsed(g, link) != g)
  {
    hide Snap, LinkOf, Closed, Numbered, NoSelf, Collapsed, SomeChanged, Elements;
    changed := false;
    ghost var done: set<Block> := {};
    PartEnds(g, blocks, link);
    hide PartCollapsed;
    for i := 0 to |blocks|
      invariant done == Elements(blocks[..i])
      invariant link == LinkOf(g.Keys) && Snap(g.Keys) == PartCollapsed(g, link, done)
      invariant changed <==> SomeChanged(g, link, done)
    {
      NotYet(g, blocks, i);
      MoreChanged(g, link, done, blocks[i]);
      var c := RedirectBlock(blocks[i], g, link, done);
      changed := changed || c;
      done := done + {blocks[i]};
    }
  }

  ghost predicate SomeChanged(g: Graph, link: map<Block, Block?>, done: set<Block>) {
    exists b | b in done && b in g :: Collapsed(g, link)[b] != g[b]
  }

  lemma MoreChanged(g: Graph, link: map<Block, Block?>, done: set<Block>, b: Block)
    requires b in g
    ensures SomeChanged(g, link, done + {b}) <==> SomeChanged(g, link, done) || Collapsed(g, link)[b] != g[b]
  {
    if Collapsed(g, link)[b] != g[b] {
      assert b in done + {b};
    }
  }

  lemma PartEnds(g: Graph, blocks: seq<Block>, link: map<Block, Block?>)
    requires Numbered(g, blocks)
    ensures PartCollapsed(g, link, {}) == g && PartCollapsed(g, link, g.Keys) == Collapsed(g, link)
    ensures Elements(blocks[..0]) == {} && Elements(blocks[..|blocks|]) == g.Keys
    ensures SomeChanged(g, link, g.Keys) <==> Collapsed(g, link) != g
    ensures !SomeChanged(g, link, {})
  {
    assert blocks[..|blocks|] == blocks;
    assert (forall b | b in g :: Collapsed(g, link)[b] == g[b]) ==> Collapsed(g, link) == g;
  }

  lemma NotYet(g: Graph, blocks: seq<Block>, i: nat)
    requires Numbered(g, blocks) && i < |blocks|
    ensures blocks[i] in g && blocks[i] !in Elements(blocks[..i])
    ensures Elements(blocks[..i + 1]) == Elements(blocks[..i]) + {blocks[i]}
  {
    assert blocks[..i + 1] == blocks[..i] + [blocks[i]];
  }

  /** The graph rank' shows acyclic is g with blocks made one: every block means what it did. */
  ghost predicate SameMeaning(g: Graph, rank: map<Block, nat>, g': Graph, rank': map<Block, nat>)
    requires Dag(g, rank)
  {
    && Dag(g', rank') && SameBodies(g, g')
    && forall b, st, pkt | b in g :: Run(g', rank', b, st, pkt) == Run(g, rank, b, st, pkt)
  }

  lemma CollapsedBody(g: Graph, link: map<Block, Block?>)
    ensures SameBodies(g, Collapsed(g, link))
  {
  }

  lemma NumberedSame(g: Graph, h: Graph, blocks: seq<Block>)
    requires Numbered(g, blocks) && h.Keys == g.Keys
    ensures Numbered(h, blocks) && InArray(g, blocks)
  {
  }

  lemma LinkedMeaning(g: Graph, rank: map<Block, nat>, link: map<Block, Block?>)
    requires Dag(g, rank) && GoodLinks(g, link)
    ensures SameMeaning(g, rank, Collapsed(g, link), Heights(g, rank))
  {
    CollapsedDag(g, rank, link);
    CollapsedBody(g, link);
    hide Dag, GoodLinks, Heights, Collapsed, Run, SameBodies;
    forall b, st, pkt | b in g
      ensures Run(Collapsed(g, link), Heights(g, rank), b, st, pkt) == Run(g, rank, b, st, pkt)
    {
      CollapsePreserves(g, rank, link, b, st, pkt);
    }
  }

  lemma PassPreserves(g: Graph, rank: map<Block, nat>, blocks: seq<Block>, marked: set<Block>, link: map<Block, Block?>)
    requires Dag(g, rank) && Numbered(g, blocks) && link.Keys == g.Keys && LinksFrom(g, blocks, marked, link, 0)
    ensures SameMeaning(g, rank, Collapsed(g, link), Heights(g, rank))
    ensures Numbered(Collapsed(g, link), blocks)
    ensures Collapsed(g, link) != g ==> SuccSum(g, blocks, |blocks|) < SuccSum(Collapsed(g, link), blocks, |blocks|)
  {
    LinksAreGood(g, blocks, marked, link);
    LinksLeadForward(g, blocks, marked, link);
    CollapsedBody(g, link);
    NumberedSame(g, Collapsed(g, link), blocks);
    hide Dag, LinksFrom, GoodLinks, LinksForward, Heights, Collapsed, SuccSum, SameMeaning, Numbered;
    LinkedMeaning(g, rank, link);
    SumRises(g, blocks, link, |blocks|);
    if Collapsed(g, link) != g {
      IndexOfChanged(g, blocks, link);
    }
  }

  lemma IndexOfChanged(g: Graph, blocks: seq<Block>, link: map<Block, Block?>)
    requires Numbered(g, blocks) && Collapsed(g, link) != g
    ensures exists i | 0 <= i < |blocks| :: Collapsed(g, link)[blocks[i]] != g[blocks[i]]
  {
    var b :| b in g && Collapsed(g, link)[b] != g[b];
    assert blocks[Index(blocks, b)] == b;
  }

  /**
   * intern_blocks. Every pass that redirects anything raises the sum of the successors' positions, so
   * it ends; then no two reachable blocks are equal, and every block still means what it meant.
   */
  method InternBlocks(root: Block, blocks: seq<Block>, curMark: nat, ghost g: Graph, ghost rank: map<Block, nat>)
    returns (ghost rank': map<Block, nat>)
    requires g == Snap(g.Keys) && Dag(g, rank) && root in g && Numbered(g, blocks) && forall b | b in g :: b.mark <= curMark
    modifies g.Keys`mark, g.Keys`link, g.Keys`jt, g.Keys`jf
    ensures SameMeaning(g, rank, Snap(g.Keys), rank')
    ensures var g' := Snap(g.Keys);
      forall x, y | x in Reach(g', rank', root) && y in Reach(g', rank', root) && x != y :: !Equal(g', x, y)
  {
    hide Dag, Reach, Numbered, LinksFrom, SameMeaning, Snap, Equal, Collapsed, SuccSum;
    var mark := curMark;
    ghost var h := g;
    rank' := rank;
    SameMeaningRefl(g, rank);
    NumberedIn(g, blocks);
    while true
      invariant h == Snap(g.Keys) && h.Keys == g.Keys && Dag(h, rank') && SameMeaning(g, rank, h, rank')
      invariant InArray(h, blocks) && Numbered(h, blocks) && forall b | b in g :: b.mark <= mark
      decreases 2 * |blocks| * |blocks| - SuccSum(h, blocks, |blocks|)
    {
      mark := mark + 1;
      assert Marked(h.Keys, mark) == {};
      var changed;
      ghost var link;
      changed, link := InternPass(root, blocks, mark, h, rank');
      PassPreserves(h, rank', blocks, Reach(h, rank', root), link);
      if !changed {
        NothingEqual(h, rank', root, blocks, link);
        return;
      }
      SameMeaningTrans(g, rank, h, rank', Collapsed(h, link), Heights(h, rank'));
      NumberedIn(Collapsed(h, link), blocks);
      h, rank' := Collapsed(h, link), Heights(h, rank');
    }
  }

  ghost predicate InArray(g: Graph, blocks: seq<Block>) {
    forall i | 0 <= i < |blocks| :: blocks[i] in g
  }

  lemma NumberedIn(g: Graph, blocks: seq<Block>)
    requires Numbered(g, blocks)
    ensures InArray(g, blocks)
  {
  }

  lemma SameMeaningRefl(g: Graph, rank: map<Block, nat>)
    requires Dag(g, rank)
    ensures SameMeaning(g, rank, g, rank)
  {
  }

  lemma SameMeaningTrans(g: Graph, rank: map<Block, nat>, h: Graph, rank1: map<Block, nat>, k: Graph, rank2: map<Block, nat>)
    requires Dag(g, rank) && SameMeaning(g, rank, h, rank1) && Dag(h, rank1) && SameMeaning(h, rank1, k, rank2)
    ensures SameMeaning(g, rank, k, rank2) && Dag(k, rank2) && k.Keys == g.Keys
  {
    hide Dag, Run;
    forall b, st, pkt | b in g
      ensures Run(k, rank2, b, st, pkt) == Run(g, rank, b, st, pkt)
    {
      assert Run(h, rank1, b, st, pkt) == Run(g, rank, b, st, pkt);
    }
  }
}
