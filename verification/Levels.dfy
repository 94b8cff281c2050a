/** Levels: the height of every block above the leaves, and the blocks of each height. */
module Levels {
  import opened Words
  import opened Flowgraph
  import opened Layout
  import opened Flatten

  /** The longest way down from b to a leaf. */
  ghost function Height(g: Graph, rank: map<Block, nat>, b: Block): nat
    requires Dag(g, rank) && b in g
    decreases rank[b]
  {
    if g[b].s.Ret? then 0 else 1 + Max(Height(g, rank, g[b].jt), Height(g, rank, g[b].jf))
  }

  /** Every level is below the number of blocks. */
  lemma {:induction false} HeightBound(g: Graph, rank: map<Block, nat>, b: Block)
    requires Dag(g, rank) && b in g
    ensures Height(g, rank, b) < |Reach(g, rank, b)|
    decreases rank[b]
  {
    if g[b].s.Jmp? {
      var c := if Height(g, rank, g[b].jt) > Height(g, rank, g[b].jf) then g[b].jt else g[b].jf;
      HeightBound(g, rank, c);
      if b in Reach(g, rank, c) {
        ReachIsClosed(g, rank, c, b);
      }
      AtMost(Reach(g, rank, c) + {b}, Reach(g, rank, b));
    }
  }

  lemma {:induction false} HeightFalls(g: Graph, rank: map<Block, nat>, b: Block, x: Block)
    requires Dag(g, rank) && b in g && x in Reach(g, rank, b)
    ensures Height(g, rank, x) <= Height(g, rank, b) && (Height(g, rank, x) == Height(g, rank, b) ==> x == b)
    decreases rank[b]
  {
    if x != b {
      HeightFalls(g, rank, if x in Reach(g, rank, g[b].jt) then g[b].jt else g[b].jf, x);
    }
  }

  // ----- The level lists -----

  type Lists = seq<seq<Block>>

  /** The lists hold every block reachable from root exactly once, at its level. */
  ghost predicate Levelled(g: Graph, rank: map<Block, nat>, root: Block, lv: Lists)
    requires Dag(g, rank) && root in g
  {
    && Height(g, rank, root) < |lv|
    && (forall i, b | 0 <= i < |lv| && b in lv[i] :: b in Reach(g, rank, root) && Height(g, rank, b) == i)
    && (forall b | b in Reach(g, rank, root) :: Height(g, rank, b) < |lv| && b in lv[Height(g, rank, b)])
    && (forall i | 0 <= i < |lv| :: Distinct(lv[i]))
  }

  lemma {:induction false} DistinctCons(b: Block, s: seq<Block>)
    requires Distinct(s) && b !in s
    ensures Distinct([b] + s)
  {
    if s == [] {
      assert [b] + s == [b] && [b][..0] == [];
    } else {
      DistinctCons(b, s[..|s| - 1]);
      assert ([b] + s)[..|s|] == [b] + s[..|s| - 1];
    }
  }

  /** What find_levels_r has done: marks, lists, and levels. */
  datatype Progress = Progress(seen: set<Block>, lv: Lists, level: map<Block, nat>)

  ghost function LevelOf(blocks: set<Block>): map<Block, nat>
    reads blocks`level
  {
    map b | b in blocks :: b.level
  }

  ghost function Enter(c: Progress, p: Block): Progress { c.(seen := c.seen + {p}) }

  /** Give p its level, and put it at the front of the list of that level. */
  ghost function Settle(c: Progress, p: Block, h: nat): (c': Progress)
    ensures |c'.lv| == |c.lv| && c'.level.Keys >= c.level.Keys
  {
    if h < |c.lv| then Progress(c.seen, c.lv[h := [p] + c.lv[h]], c.level[p := h]) else c
  }

  /** Levelling everything reachable from p that has not been visited. */
  ghost function Descend(g: Graph, rank: map<Block, nat>, c: Progress, p: Block): (c': Progress)
    requires Dag(g, rank) && p in g && g.Keys <= c.level.Keys
    ensures |c'.lv| == |c.lv| && g.Keys <= c'.level.Keys
    decreases rank[p]
  {
    if p in c.seen then c
    else if g[p].s.Ret? then Settle(Enter(c, p), p, 0)
    else
      var c1 := Descend(g, rank, Enter(c, p), g[p].jt);
      var c2 := Descend(g, rank, c1, g[p].jf);
      Settle(c2, p, 1 + Max(c2.level[g[p].jt], c2.level[g[p].jf]))
  }

  /** b has been given its level, and so have its successors; open blocks are still being visited. */
  ghost predicate Settled(g: Graph, rank: map<Block, nat>, c: Progress, open: set<Block>, b: Block)
    requires Dag(g, rank) && b in g && g.Keys <= c.level.Keys
  {
    && c.level[b] == Height(g, rank, b) < |c.lv| && b in c.lv[Height(g, rank, b)]
    && (g[b].s.Jmp? ==> g[b].jt in c.seen - open && g[b].jf in c.seen - open)
  }

  /** The lists hold exactly the visited blocks that are no longer open, each once, at its height. */
  ghost predicate Sound(g: Graph, rank: map<Block, nat>, c: Progress, open: set<Block>)
    requires Dag(g, rank)
  {
    && g.Keys <= c.level.Keys && c.seen <= g.Keys && open <= c.seen
    && (forall b | b in c.seen - open :: Settled(g, rank, c, open, b))
    && (forall i, b | 0 <= i < |c.lv| && b in c.lv[i] :: b in c.seen - open && Height(g, rank, b) == i)
    && (forall i | 0 <= i < |c.lv| :: Distinct(c.lv[i]))
  }

  ghost predicate Over(rank: map<Block, nat>, open: set<Block>, p: Block)
    requires p in rank
  {
    forall x | x in open :: x in rank && rank[x] > rank[p]
  }

  lemma SettleSound(g: Graph, rank: map<Block, nat>, c: Progress, open: set<Block>, p: Block)
    requires Dag(g, rank) && Sound(g, rank, c, open) && p in open && p in g && Height(g, rank, p) < |c.lv|
    requires g[p].s.Jmp? ==> g[p].jt in c.seen - open && g[p].jf in c.seen - open
    ensures Sound(g, rank, Settle(c, p, Height(g, rank, p)), open - {p})
  {
    hide Dag, Height;
    var h := Height(g, rank, p);
    var c' := Settle(c, p, h);
    DistinctCons(p, c.lv[h]);
    assert forall i, b | 0 <= i < |c.lv| :: b in c'.lv[i] <==> b in c.lv[i] || (i == h && b == p);
    assert c'.seen - (open - {p}) == c.seen - open + {p};
    forall b | b in c'.seen - (open - {p})
      ensures Settled(g, rank, c', open - {p}, b)
    {
      if b != p {
        assert Settled(g, rank, c, open, b);
      }
    }
  }

  /** Levelling from p visits what p reaches, and keeps the lists sound. */
  lemma {:induction false} DescendSound(g: Graph, rank: map<Block, nat>, c: Progress, open: set<Block>, p: Block)
    requires Dag(g, rank) && Sound(g, rank, c, open) && p in g && Over(rank, open, p) && Height(g, rank, p) < |c.lv|
    ensures var end := Descend(g, rank, c, p);
      && Sound(g, rank, end, open) && p in end.seen - open
      && c.seen <= end.seen <= c.seen + Reach(g, rank, p)
    decreases rank[p]
  {
    hide Sound, Settled, Settle, Dag, Reach;
    DagAt(g, rank, p);
    SoundAt(g, rank, c, open, p);
    if p !in c.seen {
      var c0 := Enter(c, p);
      EnterSound(g, rank, c, open, p);
      assert open + {p} - {p} == open;
      if g[p].s.Ret? {
        SettleSound(g, rank, c0, open + {p}, p);
      } else {
        DescendSound(g, rank, c0, open + {p}, g[p].jt);
        var c1 := Descend(g, rank, c0, g[p].jt);
        DescendSound(g, rank, c1, open + {p}, g[p].jf);
        var c2 := Descend(g, rank, c1, g[p].jf);
        SoundAt(g, rank, c2, open + {p}, g[p].jt);
        SoundAt(g, rank, c2, open + {p}, g[p].jf);
        SettleSound(g, rank, c2, open + {p}, p);
        ReachUnfolds(g, rank, p);
        Between(c.seen, c0.seen, c1.seen, c2.seen, Reach(g, rank, g[p].jt), Reach(g, rank, g[p].jf), Reach(g, rank, p), p);
      }
      SettleKeeps(p);
    }
  }

  lemma SettleKeeps(p: Block)
    ensures forall c: Progress, h :: Settle(c, p, h).seen == c.seen
  {
  }

  lemma SoundAt(g: Graph, rank: map<Block, nat>, c: Progress, open: set<Block>, b: Block)
    requires Dag(g, rank) && Sound(g, rank, c, open) && b in g && Over(rank, open, b)
    ensures g.Keys <= c.level.Keys && open <= c.seen && b !in open
    ensures b in c.seen ==> b in c.seen - open && c.level[b] == Height(g, rank, b)
  {
    assert b in c.seen ==> b in c.seen - open;
  }

  lemma ReachUnfolds(g: Graph, rank: map<Block, nat>, p: Block)
    requires Dag(g, rank) && p in g && g[p].s.Jmp?
    ensures Reach(g, rank, p) == {p} + Reach(g, rank, g[p].jt) + Reach(g, rank, g[p].jf)
  {
  }

  lemma Between(s: set<Block>, s0: set<Block>, s1: set<Block>, s2: set<Block>, a: set<Block>, b: set<Block>, r: set<Block>, p: Block)
    requires s0 == s + {p} && s0 <= s1 <= s0 + a && s1 <= s2 <= s1 + b && r == {p} + a + b
    ensures s <= s2 <= s + r
  {
  }

  lemma EnterSound(g: Graph, rank: map<Block, nat>, c: Progress, open: set<Block>, p: Block)
    requires Dag(g, rank) && Sound(g, rank, c, open) && p in g && p !in c.seen
    ensures Sound(g, rank, Enter(c, p), open + {p})
  {
    assert Enter(c, p).seen - (open + {p}) == c.seen - open;
    forall b | b in c.seen - open
      ensures Settled(g, rank, Enter(c, p), open + {p}, b)
    {
      assert Settled(g, rank, c, open, b);
    }
  }

  /** Visited blocks whose successors are all visited are closed under reachability. */
  lemma {:induction false} SoundCloses(g: Graph, rank: map<Block, nat>, c: Progress, b: Block)
    requires Dag(g, rank) && Sound(g, rank, c, {}) && b in c.seen
    ensures Reach(g, rank, b) <= c.seen
    decreases rank[b]
  {
    assert b in c.seen - {};
    assert Settled(g, rank, c, {}, b);
    if g[b].s.Jmp? {
      SoundCloses(g, rank, c, g[b].jt);
      SoundCloses(g, rank, c, g[b].jf);
    }
  }

  /** From nothing, levelling from root levels what root reaches. */
  lemma DescendLevels(g: Graph, rank: map<Block, nat>, c: Progress, root: Block)
    requires Dag(g, rank) && root in g && g.Keys == c.level.Keys && c.seen == {}
    requires (forall i | 0 <= i < |c.lv| :: c.lv[i] == []) && |Reach(g, rank, root)| <= |c.lv|
    ensures Height(g, rank, root) < |c.lv| && Sound(g, rank, c, {})
    ensures var end := Descend(g, rank, c, root);
      && Levelled(g, rank, root, end.lv) && end.seen == Reach(g, rank, root)
      && forall b | b in Reach(g, rank, root) :: end.level[b] == Height(g, rank, b)
  {
    HeightBound(g, rank, root);
    DescendSound(g, rank, c, {}, root);
    var end := Descend(g, rank, c, root);
    SoundCloses(g, rank, end, root);
    assert c.seen + Reach(g, rank, root) == Reach(g, rank, root);
    SoundLevels(g, rank, root, end);
  }

  lemma SoundLevels(g: Graph, rank: map<Block, nat>, root: Block, c: Progress)
    requires Dag(g, rank) && root in g && Sound(g, rank, c, {}) && c.seen == Reach(g, rank, root) && root in c.seen
    ensures Levelled(g, rank, root, c.lv)
    ensures forall b | b in Reach(g, rank, root) :: c.level[b] == Height(g, rank, b)
  {
    hide Dag, Reach, Height;
    assert c.seen - {} == c.seen;
    assert forall b | b in c.seen :: Settled(g, rank, c, {}, b);
  }

  // ----- find_levels -----

  ghost function Now(blocks: set<Block>, levels: array<seq<Block>>, mark: nat): Progress
    reads blocks`mark, blocks`level, levels
  {
    Progress(Marked(blocks, mark), levels[..], LevelOf(blocks))
  }

  method SetMark(p: Block, ghost levels: array<seq<Block>>, mark: nat, ghost blocks: set<Block>)
    requires p in blocks
    modifies p`mark
    ensures Now(blocks, levels, mark) == Enter(old(Now(blocks, levels, mark)), p)
  {
    p.mark := mark;
  }

  method Enlist(p: Block, level: nat, levels: array<seq<Block>>, mark: nat, ghost blocks: set<Block>)
    requires p in blocks && level < levels.Length
    modifies levels, p`level
    ensures Now(blocks, levels, mark) == Settle(old(Now(blocks, levels, mark)), p, level)
  {
    p.level := level;
    levels[level] := [p] + levels[level];
  }

  /** find_levels_r. The successors of a block have their levels before it gets its own. */
  method FindLevelsR(p: Block, levels: array<seq<Block>>, mark: nat, ghost blocks: set<Block>, ghost g: Graph, ghost rank: map<Block, nat>, ghost open: set<Block>)
    requires g == Snap(blocks) && Dag(g, rank) && p in g
    requires Ready(g, rank, Now(blocks, levels, mark), open, p)
    modifies levels, blocks`mark, blocks`level
    ensures Now(blocks, levels, mark) == Descend(g, rank, old(Now(blocks, levels, mark)), p)
    decreases rank[p], 1
  {
    hide Ready, Dag, Settle, Reach, Descend, Height, Sound, Settled, Over, Levelled;
    ghost var c := Now(blocks, levels, mark);
    if p.mark == mark {
      DescendNothing(g, rank, c, p);
      return;
    }
    hide Marked, LevelOf;
    SetMark(p, levels, mark, blocks);
    var level := FindLevelsBelow(p, levels, mark, blocks, g, rank, open, c);
    Enlist(p, level, levels, mark, blocks);
  }

  /** The part of find_levels_r for the successors of a block that has just been marked. */
  method FindLevelsBelow(p: Block, levels: array<seq<Block>>, mark: nat, ghost blocks: set<Block>, ghost g: Graph, ghost rank: map<Block, nat>,
                         ghost open: set<Block>, ghost c: Progress) returns (level: nat)
    requires g == Snap(blocks) && Dag(g, rank) && p in g && p !in c.seen && levels.Length == |c.lv|
    requires Ready(g, rank, c, open, p) && Now(blocks, levels, mark) == Enter(c, p)
    modifies levels, blocks`mark, blocks`level
    ensures level < levels.Length && Settle(Now(blocks, levels, mark), p, level) == Descend(g, rank, c, p)
    decreases rank[p], 0
  {
    hide Ready, Dag, Settle, Reach, Descend, Height, Sound, Settled, Over, Levelled, Marked, LevelOf;
    assert g[p] == Node(p.stmts, p.s, p.jt, p.jf);
    DescendSplits(g, rank, c, open, p);
    hide Snap, Now;
    level := 0;
    if p.jt != null {
      FindLevelsR(p.jt, levels, mark, blocks, g, rank, open + {p});
      FindLevelsR(p.jf, levels, mark, blocks, g, rank, open + {p});
      level := LevelAbove(p, levels, mark, blocks);
    }
  }

  method LevelAbove(p: Block, ghost levels: array<seq<Block>>, ghost mark: nat, ghost blocks: set<Block>) returns (level: nat)
    requires p.jt in blocks && p.jf in blocks
    ensures var c := Now(blocks, levels, mark);
      p.jt in c.level && p.jf in c.level && level == 1 + Max(c.level[p.jt], c.level[p.jf]) && |c.lv| == levels.Length
  {
    LevelAt(blocks, levels, mark, p.jt);
    LevelAt(blocks, levels, mark, p.jf);
    level := 1 + Max(p.jt.level, p.jf.level);
  }

  lemma LevelAt(blocks: set<Block>, levels: array<seq<Block>>, mark: nat, b: Block)
    requires b in blocks
    ensures var c := Now(blocks, levels, mark); b in c.level && c.level[b] == b.level && |c.lv| == levels.Length
  {
  }

  ghost predicate Ready(g: Graph, rank: map<Block, nat>, c: Progress, open: set<Block>, p: Block)
    requires Dag(g, rank) && p in g
  {
    Sound(g, rank, c, open) && Over(rank, open, p) && Height(g, rank, p) < |c.lv|
  }

  lemma DescendNothing(g: Graph, rank: map<Block, nat>, c: Progress, p: Block)
    requires Dag(g, rank) && p in g && g.Keys <= c.level.Keys && p in c.seen
    ensures Descend(g, rank, c, p) == c
  {
  }

  lemma HeightAt(g: Graph, rank: map<Block, nat>, p: Block)
    requires Dag(g, rank) && p in g
    ensures g[p].s.Jmp? ==> Height(g, rank, p) == 1 + Max(Height(g, rank, g[p].jt), Height(g, rank, g[p].jf))
  {
  }

  /** Each step of levelling from p finds what it needs. */
  lemma DescendSplits(g: Graph, rank: map<Block, nat>, c: Progress, open: set<Block>, p: Block)
    requires Dag(g, rank) && p in g && p !in c.seen && Ready(g, rank, c, open, p)
    ensures g.Keys <= rank.Keys && g.Keys <= c.level.Keys && 0 < |c.lv|
    ensures g[p].s.Ret? ==> g[p].jt == null && Descend(g, rank, c, p) == Settle(Enter(c, p), p, 0)
    ensures g[p].s.Jmp? ==>
      && g[p].jt in g && g[p].jf in g && rank[g[p].jt] < rank[p] && rank[g[p].jf] < rank[p]
      && Ready(g, rank, Enter(c, p), open + {p}, g[p].jt)
    ensures g[p].s.Jmp? ==>
      var c1 := Descend(g, rank, Enter(c, p), g[p].jt);
      var c2 := Descend(g, rank, c1, g[p].jf);
      var h := 1 + Max(c2.level[g[p].jt], c2.level[g[p].jf]);
      && Ready(g, rank, c1, open + {p}, g[p].jf) && h < |c.lv| && Descend(g, rank, c, p) == Settle(c2, p, h)
  {
    hide Ready, Sound, Settled, Settle, Dag, Reach, Height, Over;
    DagAt(g, rank, p);
    ReadyAt(g, rank, c, open, p);
    DescendUnfolds(g, rank, c, p);
    if g[p].s.Jmp? {
      HeightAt(g, rank, p);
      var c1 := Descend(g, rank, Enter(c, p), g[p].jt);
      var c2 := Descend(g, rank, c1, g[p].jf);
      hide Descend;
      ReadyBelow(g, rank, c, open, p, Enter(c, p), g[p].jt);
      DescendReady(g, rank, Enter(c, p), open + {p}, g[p].jt);
      ReadyBelow(g, rank, c, open, p, c1, g[p].jf);
      DescendReady(g, rank, c1, open + {p}, g[p].jf);
      ReadyBelow(g, rank, c, open, p, c2, g[p].jt);
      LevelReady(g, rank, c2, open + {p}, g[p].jt);
    }
  }

  lemma DescendUnfolds(g: Graph, rank: map<Block, nat>, c: Progress, p: Block)
    requires Dag(g, rank) && p in g && g.Keys <= c.level.Keys && p !in c.seen
    ensures g[p].s.Ret? ==> Descend(g, rank, c, p) == Settle(Enter(c, p), p, 0)
    ensures g[p].s.Jmp? ==>
      var c1 := Descend(g, rank, Enter(c, p), g[p].jt);
      var c2 := Descend(g, rank, c1, g[p].jf);
      Descend(g, rank, c, p) == Settle(c2, p, 1 + Max(c2.level[g[p].jt], c2.level[g[p].jf]))
  {
  }

  lemma ReadyAt(g: Graph, rank: map<Block, nat>, c: Progress, open: set<Block>, p: Block)
    requires Dag(g, rank) && p in g && p !in c.seen && Ready(g, rank, c, open, p)
    ensures g.Keys <= c.level.Keys && Height(g, rank, p) < |c.lv| && Sound(g, rank, Enter(c, p), open + {p})
  {
    EnterSound(g, rank, c, open, p);
  }

  lemma ReadyBelow(g: Graph, rank: map<Block, nat>, c: Progress, open: set<Block>, p: Block, c': Progress, q: Block)
    requires Dag(g, rank) && p in g && g[p].s.Jmp? && (q == g[p].jt || q == g[p].jf) && q in g && Ready(g, rank, c, open, p)
    requires Sound(g, rank, c', open + {p}) && |c'.lv| == |c.lv|
    ensures Ready(g, rank, c', open + {p}, q)
  {
    hide Sound;
  }

  lemma DescendReady(g: Graph, rank: map<Block, nat>, c: Progress, open: set<Block>, p: Block)
    requires Dag(g, rank) && p in g && Ready(g, rank, c, open, p) && g.Keys <= c.level.Keys
    ensures var end := Descend(g, rank, c, p);
      Sound(g, rank, end, open) && c.seen <= end.seen && p in end.seen && end.level[p] == Height(g, rank, p)
  {
    hide Sound, Descend;
    DescendSound(g, rank, c, open, p);
    SoundAt(g, rank, Descend(g, rank, c, p), open, p);
  }

  lemma LevelReady(g: Graph, rank: map<Block, nat>, c: Progress, open: set<Block>, p: Block)
    requires Dag(g, rank) && p in g && Ready(g, rank, c, open, p) && p in c.seen && g.Keys <= c.level.Keys
    ensures c.level[p] == Height(g, rank, p)
  {
    hide Sound;
    SoundAt(g, rank, c, open, p);
  }

  /** find_levels: level everything reachable from root. */
  method FindLevels(root: Block, levels: array<seq<Block>>, mark: nat, ghost g: Graph, ghost rank: map<Block, nat>)
    requires g == Snap(g.Keys) && Dag(g, rank) && root in g && Marked(g.Keys, mark) == {}
    requires |Reach(g, rank, root)| <= levels.Length
    modifies levels, g.Keys`mark, g.Keys`level
    ensures Levelled(g, rank, root, levels[..])
    ensures forall b | b in Reach(g, rank, root) :: b.level == Height(g, rank, b)
  {
    hide Dag, Sound, Reach, Levelled, Height, Marked;
    Clear(levels);
    DescendLevels(g, rank, Now(g.Keys, levels, mark), root);
    FindLevelsR(root, levels, mark, g.Keys, g, rank, {});
    forall b | b in Reach(g, rank, root)
      ensures b.level == Height(g, rank, b)
    {
      LevelAt(g.Keys, levels, mark, b);
    }
  }

  method Clear(levels: array<seq<Block>>)
    modifies levels
    ensures forall j | 0 <= j < levels.Length :: levels[j] == []
  {
    for i := 0 to levels.Length
      invariant forall j | 0 <= j < i :: levels[j] == []
    {
      levels[i] := [];
    }
  }

  // ----- Sweeps over the levels -----

  /** The blocks met by a downward sweep before the k-th block of level i. */
  ghost function Met(g: Graph, rank: map<Block, nat>, root: Block, lv: Lists, i: int, k: nat): set<Block>
    requires Dag(g, rank) && root in g && i < |lv| && (0 <= i ==> k <= |lv[i]|)
  {
    set b | b in Reach(g, rank, root) && (Height(g, rank, b) > i || (Height(g, rank, b) == i && b in lv[i][..k]))
  }

  /** The blocks met by an upward sweep before the k-th block of level i. */
  ghost function MetUp(g: Graph, rank: map<Block, nat>, root: Block, lv: Lists, i: nat, k: nat): set<Block>
    requires Dag(g, rank) && root in g && i <= |lv| && (i < |lv| ==> k <= |lv[i]|)
  {
    set b | b in Reach(g, rank, root) && (Height(g, rank, b) < i || (Height(g, rank, b) == i < |lv| && b in lv[i][..k]))
  }

  lemma {:induction false} DistinctAt(s: seq<Block>, k: nat)
    requires Distinct(s) && k < |s|
    ensures s[k] !in s[..k] && s[..k + 1] == s[..k] + [s[k]]
  {
    if k < |s| - 1 {
      var front := s[..|s| - 1];
      DistinctAt(front, k);
      assert front[..k] == s[..k];
    }
  }

  /** A downward sweep meets a block after all its predecessors and before its successors. */
  lemma NextDown(g: Graph, rank: map<Block, nat>, root: Block, lv: Lists, i: nat, k: nat)
    requires Dag(g, rank) && root in g && Levelled(g, rank, root, lv) && i < |lv| && k < |lv[i]|
    ensures var b, met := lv[i][k], Met(g, rank, root, lv, i, k);
      && b in Reach(g, rank, root) && b in g && Height(g, rank, b) == i
      && b !in met && Met(g, rank, root, lv, i, k + 1) == met + {b}
      && (forall p, s | p in Reach(g, rank, root) && g[p].Succ(s) == b :: p in met)
      && (forall s | g[b].s.Jmp? :: g[b].Succ(s) !in met + {b})
  {
    var b := lv[i][k];
    DistinctAt(lv[i], k);
    assert b in lv[i];
    HeightsFall(g, rank);
    hide Dag, Distinct, Height, Reach;
  }

  /** The set met grows by the block at hand. */
  lemma MetUpMore(g: Graph, rank: map<Block, nat>, root: Block, lv: Lists, i: nat, k: nat)
    requires Dag(g, rank) && root in g && Levelled(g, rank, root, lv) && i < |lv| && k < |lv[i]|
    ensures var b, met := lv[i][k], MetUp(g, rank, root, lv, i, k);
      && b in Reach(g, rank, root) && b in g && Height(g, rank, b) == i
      && b !in met && MetUp(g, rank, root, lv, i, k + 1) == met + {b}
  {
    hide Dag, Height, Reach;
    var b := lv[i][k];
    DistinctAt(lv[i], k);
    assert b in lv[i];
    assert b in Reach(g, rank, root) && Height(g, rank, b) == i;
    hide Levelled, Distinct;
    forall x
      ensures x in MetUp(g, rank, root, lv, i, k + 1) <==> x in MetUp(g, rank, root, lv, i, k) + {b}
    {
      assert x in lv[i][..k + 1] <==> x in lv[i][..k] || x == b;
    }
  }

  lemma NextUp(g: Graph, rank: map<Block, nat>, root: Block, lv: Lists, i: nat, k: nat)
    requires Dag(g, rank) && root in g && Levelled(g, rank, root, lv) && i < |lv| && k < |lv[i]|
    ensures var b, met := lv[i][k], MetUp(g, rank, root, lv, i, k);
      && b in Reach(g, rank, root) && b in g && Height(g, rank, b) == i
      && b !in met && MetUp(g, rank, root, lv, i, k + 1) == met + {b}
      && (forall p, s | p in Reach(g, rank, root) && g[p].Succ(s) == b :: p !in met + {b})
      && (forall s | g[b].s.Jmp? :: g[b].Succ(s) in met)
  {
    MetUpMore(g, rank, root, lv, i, k);
    HeightsFall(g, rank);
    ReachSuccessors(g, rank, root, lv[i][k]);
    hide Dag, Height, Reach;
  }

  lemma HeightsFall(g: Graph, rank: map<Block, nat>)
    requires Dag(g, rank)
    ensures forall p, s | p in g && g[p].s.Jmp? :: g[p].Succ(s) in g && Height(g, rank, g[p].Succ(s)) < Height(g, rank, p)
    ensures forall p, s | p in g && g[p].s.Ret? :: g[p].Succ(s) == null
  {
    forall p, s | p in g && g[p].s.Jmp?
      ensures g[p].Succ(s) in g && Height(g, rank, g[p].Succ(s)) < Height(g, rank, p)
    {
      assert g[p].Succ(s) == if s then g[p].jt else g[p].jf;
    }
  }

  lemma ReachSuccessors(g: Graph, rank: map<Block, nat>, root: Block, b: Block)
    requires Dag(g, rank) && root in g && b in Reach(g, rank, root)
    ensures forall s | g[b].s.Jmp? :: g[b].Succ(s) in Reach(g, rank, root)
  {
    ReachIsClosed(g, rank, root, b);
    forall s | g[b].s.Jmp?
      ensures g[b].Succ(s) in Reach(g, rank, root)
    {
      assert g[b].Succ(s) in Reach(g, rank, b);
    }
  }

  /** A downward sweep starts with nothing met, goes from level to level, and ends with everything met. */
  lemma MetSteps(g: Graph, rank: map<Block, nat>, root: Block, lv: Lists, i: int)
    requires Dag(g, rank) && root in g && Levelled(g, rank, root, lv) && -1 <= i < |lv|
    ensures i == Height(g, rank, root) ==> Met(g, rank, root, lv, i, 0) == {}
    ensures i >= 0 ==> Met(g, rank, root, lv, i, |lv[i]|) == Met(g, rank, root, lv, i - 1, 0)
    ensures i == -1 ==> Met(g, rank, root, lv, i, 0) == Reach(g, rank, root)
  {
    forall b | b in Reach(g, rank, root)
      ensures Height(g, rank, b) <= Height(g, rank, root)
    {
      HeightFalls(g, rank, root, b);
    }
    if i >= 0 {
      assert lv[i][..|lv[i]|] == lv[i];
      assert i - 1 >= 0 ==> lv[i - 1][..0] == [];
    }
  }

  lemma MetUpSteps(g: Graph, rank: map<Block, nat>, root: Block, lv: Lists, i: nat)
    requires Dag(g, rank) && root in g && Levelled(g, rank, root, lv) && i <= |lv|
    ensures i < |lv| ==> MetUp(g, rank, root, lv, i, |lv[i]|) == MetUp(g, rank, root, lv, i + 1, 0)
    ensures i == Height(g, rank, root) + 1 ==> MetUp(g, rank, root, lv, i, 0) == Reach(g, rank, root)
    ensures i == 0 ==> MetUp(g, rank, root, lv, i, 0) == {}
    ensures i == 1 ==> MetUp(g, rank, root, lv, i, 0) == set b | b in Reach(g, rank, root) && g[b].s.Ret?
  {
    forall b | b in Reach(g, rank, root)
      ensures Height(g, rank, b) <= Height(g, rank, root)
    {
      HeightFalls(g, rank, root, b);
    }
    if i < |lv| {
      assert lv[i][..|lv[i]|] == lv[i];
      assert i + 1 < |lv| ==> lv[i + 1][..0] == [];
    }
  }

  lemma RootFits(g: Graph, rank: map<Block, nat>, root: Block, lv: Lists)
    requires Dag(g, rank) && root in g && Levelled(g, rank, root, lv)
    ensures Height(g, rank, root) < |lv|
  {
  }
}
