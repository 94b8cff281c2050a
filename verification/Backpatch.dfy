/**
 * Boolean code generation: the lists of unresolved exits are threaded through the
 * very successor fields that are patched later, steered by the sense bit.
 */
module Backpatch {
  import opened Words
  import opened Ir
  import opened Flowgraph

  // ----- Fragments: flow graphs with unresolved exits -----

  datatype Exit = To(target: Block) | ExitTrue | ExitFalse

  datatype FragNode = FragNode(stmts: seq<Stmt>, s: Branch, t: Exit, f: Exit) {
    function At(sense: bool): Exit { if sense then t else f }

    function Subst(from: Exit, to: Exit): FragNode {
      FragNode(stmts, s, if t == from then to else t, if f == from then to else f)
    }
  }

  /**
   * The graph under construction that block `last` stands for. The true exits are those
   * of last and trues, the false exits those of last and falses, in list order.
   */
  datatype Fragment = Fragment(
    nodes: map<Block, FragNode>, rank: map<Block, nat>, bound: nat,
    head: Block, last: Block, trues: seq<Block>, falses: seq<Block>)
  {
    ghost predicate Acyclic() {
      && rank.Keys == nodes.Keys
      && (forall b | b in nodes :: rank[b] < bound && nodes[b].s.Jmp?)
      && forall b, sense | b in nodes && nodes[b].At(sense).To? ::
           nodes[b].At(sense).target in nodes && rank[nodes[b].At(sense).target] < rank[b]
    }

    function List(e: Exit): seq<Block> { if e.ExitTrue? then trues else falses }

    /** The block at the end of list e. */
    function Tail(e: Exit): Block {
      if List(e) == [] then last else List(e)[|List(e)| - 1]
    }
  }

  /** Which way control leaves a fragment, and in what state. */
  datatype Verdict = Yes(st: State) | No(st: State) | Dead(out: Outcome)

  ghost function Follow(f: Fragment, b: Block, st: State, pkt: Packet): Verdict
    requires f.Acyclic() && b in f.nodes
    decreases f.rank[b]
  {
    match ExecAll(f.nodes[b].stmts, st, pkt)
    case Reject => Dead(Returned(0))
    case Fault => Dead(Undefined)
    case Next(st') =>
      match f.nodes[b].At(Decide(f.nodes[b].s, st'))
      case To(c) => Follow(f, c, st', pkt)
      case ExitTrue => Yes(st')
      case ExitFalse => No(st')
  }

  /** Running f0 and then, where it leaves by the exit `from`, f1. */
  ghost function Joined(f0: Fragment, f1: Fragment, from: Exit): Fragment
    requires f0.Acyclic() && f1.Acyclic() && f1.head in f1.nodes
  {
    Fragment(
      map b | b in f0.nodes.Keys + f1.nodes.Keys ::
        if b in f1.nodes then f1.nodes[b] else f0.nodes[b].Subst(from, To(f1.head)),
      map b | b in f0.nodes.Keys + f1.nodes.Keys ::
        if b in f1.nodes then f1.rank[b] else f0.rank[b] + f1.bound,
      f0.bound + f1.bound,
      f0.head, f1.last,
      if from.ExitTrue? then f1.trues else f1.trues + [f0.last] + f0.trues,
      if from.ExitTrue? then f1.falses + [f0.last] + f0.falses else f1.falses)
  }

  ghost predicate Disjoint(f0: Fragment, f1: Fragment) {
    f0.nodes.Keys !! f1.nodes.Keys
  }

  lemma JoinedAcyclic(f0: Fragment, f1: Fragment, from: Exit)
    requires f0.Acyclic() && f1.Acyclic() && f1.head in f1.nodes && Disjoint(f0, f1)
    ensures Joined(f0, f1, from).Acyclic()
  {
    var f := Joined(f0, f1, from);
    forall b, sense | b in f.nodes && f.nodes[b].At(sense).To?
      ensures f.nodes[b].At(sense).target in f.nodes && f.rank[f.nodes[b].At(sense).target] < f.rank[b]
    {
      if b in f1.nodes {
        assert f1.nodes[b].At(sense).To?;
      } else {
        assert f0.nodes[b].At(sense).To? || f0.nodes[b].At(sense) == from;
      }
    }
  }

  /** A joined fragment runs f0 and continues with f1 exactly where f0 leaves by `from`. */
  lemma {:induction false} FollowJoined(f0: Fragment, f1: Fragment, from: Exit, b: Block, st: State, pkt: Packet)
    requires f0.Acyclic() && f1.Acyclic() && f1.head in f1.nodes && Disjoint(f0, f1) && !from.To?
    requires b in f0.nodes
    ensures Joined(f0, f1, from).Acyclic()
    ensures Follow(Joined(f0, f1, from), b, st, pkt) ==
            match Follow(f0, b, st, pkt) {
              case Yes(st') => if from.ExitTrue? then Follow(f1, f1.head, st', pkt) else Yes(st')
              case No(st') => if from.ExitFalse? then Follow(f1, f1.head, st', pkt) else No(st')
              case Dead(o) => Dead(o)
            }
    decreases f0.rank[b]
  {
    JoinedAcyclic(f0, f1, from);
    var r := ExecAll(f0.nodes[b].stmts, st, pkt);
    if r.Next? {
      match f0.nodes[b].At(Decide(f0.nodes[b].s, r.st))
      case To(c) => FollowJoined(f0, f1, from, c, r.st, pkt);
      case _ => FollowSecond(f0, f1, from, f1.head, r.st, pkt);
    }
  }

  lemma {:induction false} FollowSecond(f0: Fragment, f1: Fragment, from: Exit, b: Block, st: State, pkt: Packet)
    requires f0.Acyclic() && f1.Acyclic() && f1.head in f1.nodes && Disjoint(f0, f1)
    requires b in f1.nodes
    requires Joined(f0, f1, from).Acyclic()
    ensures Follow(Joined(f0, f1, from), b, st, pkt) == Follow(f1, b, st, pkt)
    decreases f1.rank[b]
  {
    var r := ExecAll(f1.nodes[b].stmts, st, pkt);
    if r.Next? {
      var e := f1.nodes[b].At(Decide(f1.nodes[b].s, r.st));
      if e.To? {
        FollowSecond(f0, f1, from, e.target, r.st, pkt);
      }
    }
  }

  function Flip(e: Exit): Exit {
    match e case To(_) => e case ExitTrue => ExitFalse case ExitFalse => ExitTrue
  }

  ghost function Negated(f: Fragment): Fragment {
    f.(nodes := map b | b in f.nodes :: f.nodes[b].(t := Flip(f.nodes[b].t), f := Flip(f.nodes[b].f)),
       trues := f.falses, falses := f.trues)
  }

  lemma {:induction false} FollowNegated(f: Fragment, b: Block, st: State, pkt: Packet)
    requires f.Acyclic() && b in f.nodes
    ensures Negated(f).Acyclic()
    ensures Follow(Negated(f), b, st, pkt) ==
            match Follow(f, b, st, pkt) { case Yes(st') => No(st') case No(st') => Yes(st') case v => v }
    decreases f.rank[b]
  {
    assert Negated(f).Acyclic() by {
      assert forall b, sense | b in f.nodes :: Negated(f).nodes[b].At(sense).To? ==> f.nodes[b].At(sense).To?;
    }
    var r := ExecAll(f.nodes[b].stmts, st, pkt);
    if r.Next? {
      var e := f.nodes[b].At(Decide(f.nodes[b].s, r.st));
      if e.To? {
        FollowNegated(f, e.target, r.st, pkt);
      }
    }
  }

  // ----- Fragments in memory -----

  /** The fields of a block that code generation reads and writes. */
  datatype Cell = Cell(stmts: seq<Stmt>, s: Branch, jt: Block?, jf: Block?, sense: bool, head: Block) {
    function At(sense: bool): Block? { if sense then jt else jf }

    /** The successor field that serves as the link of the list the block is on. */
    function Link(): Block? { At(!sense) }

    function WithLink(b: Block?): Cell { if sense then this.(jf := b) else this.(jt := b) }

    function Flipped(): Cell { this.(sense := !sense) }
  }

  type Mem = map<Block, Cell>

  ghost function Memory(blocks: set<Block>): (m: Mem)
    reads blocks`stmts, blocks`s, blocks`jt, blocks`jf, blocks`sense, blocks`head
    ensures m.Keys == blocks
  {
    map b | b in blocks :: Cell(b.stmts, b.s, b.jt, b.jf, b.sense, b.head)
  }

  /** The blocks of chain, in order, are the list that starts at block list. */
  ghost predicate Linked(m: Mem, list: Block?, chain: seq<Block>) {
    if chain == [] then list == null
    else list == chain[0] && chain[0] in m && Linked(m, m[chain[0]].Link(), chain[1..])
  }

  /** All blocks on the list leave by exit e through their link field and are resolved on the other side. */
  ghost predicate Exits(m: Mem, f: Fragment, chain: seq<Block>, e: Exit) {
    forall b | b in chain ::
      b in f.nodes && b in m && b != f.last &&
      f.nodes[b].At(!m[b].sense) == e && f.nodes[b].At(m[b].sense).To?
  }

  /** The side of the last block that is the exit e. */
  ghost function Side(m: Mem, f: Fragment, e: Exit): bool
    requires f.last in m
  {
    if e.ExitTrue? then !m[f.last].sense else m[f.last].sense
  }

  /** Every exit e belongs to the last block or to a block of list e. */
  ghost predicate Covers(f: Fragment, e: Exit) {
    forall b, sense | b in f.nodes && f.nodes[b].At(sense) == e :: b == f.last || b in f.List(e)
  }

  /** List e of the last block is exactly the fragment's exits e. */
  ghost predicate ListHolds(m: Mem, f: Fragment, e: Exit) {
    && f.last in m && f.last in f.nodes
    && f.nodes[f.last].At(Side(m, f, e)) == e
    && Linked(m, m[f.last].At(Side(m, f, e)), f.List(e))
    && Distinct(f.List(e))
    && Exits(m, f, f.List(e), e)
    && Covers(f, e)
  }

  /** Memory holds fragment f: resolved edges are in place, and the two lists are exactly its exits. */
  ghost predicate Holds(m: Mem, f: Fragment) {
    && f.Acyclic() && f.nodes.Keys <= m.Keys && f.head in f.nodes && f.last in f.nodes
    && m[f.last].head == f.head
    && (forall b | b in f.nodes :: m[b].stmts == f.nodes[b].stmts && m[b].s == f.nodes[b].s)
    && (forall b, sense | b in f.nodes && f.nodes[b].At(sense).To? :: m[b].At(sense) == f.nodes[b].At(sense).target)
    && ListHolds(m, f, ExitTrue)
    && ListHolds(m, f, ExitFalse)
  }

  // ----- Joining two fragments in memory -----

  ghost predicate Joinable(m: Mem, f0: Fragment, f1: Fragment, from: Exit) {
    Holds(m, f0) && Holds(m, f1) && Disjoint(f0, f1) && !from.To?
  }

  /** What patching list `from` of f0 to f1's head, and appending f0's other list to f1's, does to f0's blocks. */
  ghost predicate FirstStep(m: Mem, m': Mem, f0: Fragment, f1: Fragment, from: Exit)
    requires f0.nodes.Keys <= m.Keys && m.Keys == m'.Keys
  {
    forall b | b in f0.nodes ::
      && m'[b].stmts == m[b].stmts && m'[b].s == m[b].s
      && m'[b].sense == (m[b].sense != (b == f0.last && from.ExitTrue?))
      && m'[b].jt == (if f0.nodes[b].t == from then f1.head else m[b].jt)
      && m'[b].jf == (if f0.nodes[b].f == from then f1.head else m[b].jf)
  }

  /** And to f1's blocks. */
  ghost predicate SecondStep(m: Mem, m': Mem, f0: Fragment, f1: Fragment, from: Exit)
    requires f1.nodes.Keys <= m.Keys && m.Keys == m'.Keys
  {
    var tail, e := f1.Tail(Flip(from)), Flip(from);
    forall b | b in f1.nodes ::
      && m'[b].stmts == m[b].stmts && m'[b].s == m[b].s && m'[b].sense == m[b].sense
      && m'[b].jt == (if b == tail && f1.nodes[b].t == e then f0.last else m[b].jt)
      && m'[b].jf == (if b == tail && f1.nodes[b].f == e then f0.last else m[b].jf)
  }

  ghost predicate JoinStep(m: Mem, m': Mem, f0: Fragment, f1: Fragment, from: Exit)
    requires f0.nodes.Keys <= m.Keys && f1.nodes.Keys <= m.Keys && f1.last in f1.nodes
  {
    && m.Keys == m'.Keys
    && FirstStep(m, m', f0, f1, from)
    && SecondStep(m, m', f0, f1, from)
    && m'[f1.last].head == f0.head
  }

  lemma JoinCovers(m: Mem, f0: Fragment, f1: Fragment, from: Exit, e: Exit)
    requires Joinable(m, f0, f1, from) && !e.To?
    ensures Covers(Joined(f0, f1, from), e)
  {
    var f := Joined(f0, f1, from);
    assert ListHolds(m, f0, e) && ListHolds(m, f1, e);
    forall b, s | b in f.nodes && f.nodes[b].At(s) == e
      ensures b == f.last || b in f.List(e)
    {
      if b in f1.nodes {
        assert f1.nodes[b].At(s) == e;
      } else {
        assert f0.nodes[b].At(s) == e && e != from;
      }
    }
  }

  /** Blocks already on f1's lists stay on them. */
  lemma JoinSecondExits(m: Mem, m': Mem, f0: Fragment, f1: Fragment, from: Exit, e: Exit)
    requires Joinable(m, f0, f1, from) && !e.To? && JoinStep(m, m', f0, f1, from)
    ensures Exits(m', Joined(f0, f1, from), f1.List(e), e)
  {
    assert ListHolds(m, f1, e);
  }

  /** Blocks on the list of f0 that is kept stay on it. */
  lemma JoinFirstExits(m: Mem, m': Mem, f0: Fragment, f1: Fragment, from: Exit)
    requires Joinable(m, f0, f1, from) && JoinStep(m, m', f0, f1, from)
    ensures Exits(m', Joined(f0, f1, from), f0.List(Flip(from)), Flip(from))
  {
    var f := Joined(f0, f1, from);
    assert ListHolds(m, f0, Flip(from));
    forall b | b in f0.List(Flip(from))
      ensures f.nodes[b].At(!m'[b].sense) == Flip(from) && f.nodes[b].At(m'[b].sense).To?
    {
      assert f0.nodes[b].At(!m[b].sense) == Flip(from);
    }
  }

  /** f0's last block joins the extended list: its sense now selects the field of that list. */
  lemma JoinLastExits(m: Mem, m': Mem, f0: Fragment, f1: Fragment, from: Exit)
    requires Joinable(m, f0, f1, from) && JoinStep(m, m', f0, f1, from)
    ensures Exits(m', Joined(f0, f1, from), [f0.last], Flip(from))
    ensures m'[f0.last].Link() == m[f0.last].At(Side(m, f0, Flip(from)))
  {
    assert ListHolds(m, f0, ExitTrue) && ListHolds(m, f0, ExitFalse);
  }

  lemma {:induction false} LinkedSame(m: Mem, m': Mem, list: Block?, chain: seq<Block>)
    requires Linked(m, list, chain)
    requires forall b | b in chain :: b in m && b in m' && m'[b].Link() == m[b].Link()
    ensures Linked(m', list, chain)
  {
    if chain != [] {
      LinkedSame(m, m', m[chain[0]].Link(), chain[1..]);
    }
  }

  /** Appending block b, whose own list is c0, to the end of list c1. */
  lemma {:induction false} LinkedAppend(m: Mem, m': Mem, list: Block, c1: seq<Block>, b: Block, c0: seq<Block>)
    requires c1 != [] && Linked(m, list, c1) && Distinct(c1) && Linked(m', b, [b] + c0)
    requires forall c | c in c1 :: c in m && c in m' && m'[c].Link() == if c == c1[|c1| - 1] then b else m[c].Link()
    ensures Linked(m', list, c1 + [b] + c0)
  {
    var c := c1 + [b] + c0;
    if |c1| == 1 {
      assert c[1..] == [b] + c0;
    } else {
      assert c[1..] == c1[1..] + [b] + c0;
      assert c1[0] != c1[|c1| - 1];
      LinkedAppend(m, m', m[c1[0]].Link(), c1[1..], b, c0);
    }
  }

  lemma AppendDistinct(c1: seq<Block>, b: Block, c0: seq<Block>)
    requires Distinct(c1) && Distinct(c0) && b !in c0
    requires forall c | c in c1 :: c != b && c !in c0
    ensures Distinct(c1 + [b] + c0)
  {
    var c := c1 + [b] + c0;
    forall i, j | 0 <= i < j < |c|
      ensures c[i] != c[j]
    {
      assert i < |c1| ==> c[i] == c1[i] && c[i] in c1;
      assert j > |c1| ==> c[j] == c0[j - |c1| - 1] && c[j] in c0;
    }
  }

  /** The list that is not extended is f1's alone. */
  lemma JoinFrom(m: Mem, m': Mem, f0: Fragment, f1: Fragment, from: Exit)
    requires Joinable(m, f0, f1, from) && JoinStep(m, m', f0, f1, from)
    ensures ListHolds(m', Joined(f0, f1, from), from)
  {
    JoinCovers(m, f0, f1, from, from);
    JoinSecondExits(m, m', f0, f1, from, from);
    assert ListHolds(m, f1, from) && ListHolds(m, f1, Flip(from));
    JoinFromLinks(m, m', f0, f1, from);
  }

  lemma JoinFromLinks(m: Mem, m': Mem, f0: Fragment, f1: Fragment, from: Exit)
    requires Joinable(m, f0, f1, from) && JoinStep(m, m', f0, f1, from)
    ensures Linked(m', m'[f1.last].At(Side(m', f1, from)), f1.List(from))
    ensures f1.nodes[f1.last].At(Side(m', f1, from)) == from
  {
    assert ListHolds(m, f1, from);
    forall b | b in f1.List(from)
      ensures b in m' && m'[b].Link() == m[b].Link()
    {
      assert f1.nodes[b].At(!m[b].sense) == from;
    }
    LinkedSame(m, m', m[f1.last].At(Side(m, f1, from)), f1.List(from));
  }

  /** The extended list: f1's, then f0's last block, then the rest of f0's. */
  lemma JoinOther(m: Mem, m': Mem, f0: Fragment, f1: Fragment, from: Exit)
    requires Joinable(m, f0, f1, from) && JoinStep(m, m', f0, f1, from)
    ensures ListHolds(m', Joined(f0, f1, from), Flip(from))
  {
    var f, e := Joined(f0, f1, from), Flip(from);
    JoinCovers(m, f0, f1, from, e);
    JoinSecondExits(m, m', f0, f1, from, e);
    JoinFirstExits(m, m', f0, f1, from);
    JoinLastExits(m, m', f0, f1, from);
    assert ListHolds(m, f0, e) && ListHolds(m, f1, e);
    AppendDistinct(f1.List(e), f0.last, f0.List(e));
    JoinOtherLinks(m, m', f0, f1, from);
    assert f.List(e) == f1.List(e) + [f0.last] + f0.List(e);
    assert Exits(m', f, f.List(e), e);
  }

  lemma JoinFirstLinks(m: Mem, m': Mem, f0: Fragment, f1: Fragment, from: Exit)
    requires Joinable(m, f0, f1, from) && JoinStep(m, m', f0, f1, from)
    ensures Linked(m', f0.last, [f0.last] + f0.List(Flip(from)))
  {
    var e := Flip(from);
    assert ListHolds(m, f0, e) && ListHolds(m, f0, from);
    JoinLastExits(m, m', f0, f1, from);
    forall b | b in f0.List(e)
      ensures b in m' && m'[b].Link() == m[b].Link()
    {
      assert f0.nodes[b].At(!m[b].sense) == e;
    }
    LinkedSame(m, m', m[f0.last].At(Side(m, f0, e)), f0.List(e));
  }

  lemma JoinOtherLinks(m: Mem, m': Mem, f0: Fragment, f1: Fragment, from: Exit)
    requires Joinable(m, f0, f1, from) && JoinStep(m, m', f0, f1, from)
    ensures var e := Flip(from);
            && Linked(m', m'[f1.last].At(Side(m', f1, e)), f1.List(e) + [f0.last] + f0.List(e))
            && f1.nodes[f1.last].At(Side(m', f1, e)) == e
  {
    var e := Flip(from);
    var c1 := f1.List(e);
    assert ListHolds(m, f1, e);
    JoinFirstLinks(m, m', f0, f1, from);
    if c1 == [] {
      assert c1 + [f0.last] + f0.List(e) == [f0.last] + f0.List(e);
    } else {
      JoinTailLinks(m, m', f0, f1, from);
      LinkedAppend(m, m', m[f1.last].At(Side(m, f1, e)), c1, f0.last, f0.List(e));
    }
  }

  lemma JoinTailLinks(m: Mem, m': Mem, f0: Fragment, f1: Fragment, from: Exit)
    requires Joinable(m, f0, f1, from) && JoinStep(m, m', f0, f1, from)
    requires f1.List(Flip(from)) != []
    ensures forall c | c in f1.List(Flip(from)) ::
              c in m && c in m' && m'[c].Link() == if c == f1.Tail(Flip(from)) then f0.last else m[c].Link()
    ensures m'[f1.last].At(Side(m', f1, Flip(from))) == m[f1.last].At(Side(m, f1, Flip(from)))
  {
    var e := Flip(from);
    assert ListHolds(m, f1, e);
    forall c | c in f1.List(e)
      ensures c in m' && m'[c].Link() == if c == f1.Tail(e) then f0.last else m[c].Link()
    {
      assert f1.nodes[c].At(!m[c].sense) == e;
    }
  }

  lemma JoinResolved(m: Mem, m': Mem, f0: Fragment, f1: Fragment, from: Exit, b: Block, s: bool)
    requires Joinable(m, f0, f1, from) && JoinStep(m, m', f0, f1, from)
    requires b in Joined(f0, f1, from).nodes && Joined(f0, f1, from).nodes[b].At(s).To?
    ensures m'[b].At(s) == Joined(f0, f1, from).nodes[b].At(s).target
  {
    if b in f1.nodes {
      assert f1.nodes[b].At(s).To?;
    } else {
      assert f0.nodes[b].At(s).To? || f0.nodes[b].At(s) == from;
    }
  }

  /** The joined fragment is what memory holds afterwards. */
  lemma JoinHolds(m: Mem, m': Mem, f0: Fragment, f1: Fragment, from: Exit)
    requires Joinable(m, f0, f1, from) && JoinStep(m, m', f0, f1, from)
    ensures Holds(m', Joined(f0, f1, from))
  {
    JoinedAcyclic(f0, f1, from);
    JoinFrom(m, m', f0, f1, from);
    JoinOther(m, m', f0, f1, from);
    var f := Joined(f0, f1, from);
    assert forall b, s | b in f.nodes && f.nodes[b].At(s).To? :: m'[b].At(s) == f.nodes[b].At(s).target by {
      forall b, s | b in f.nodes && f.nodes[b].At(s).To?
        ensures m'[b].At(s) == f.nodes[b].At(s).target
      {
        JoinResolved(m, m', f0, f1, from, b, s);
      }
    }
    assert forall b | b in f.nodes :: m'[b].stmts == f.nodes[b].stmts && m'[b].s == f.nodes[b].s by {
      JoinContents(m, m', f0, f1, from);
    }
    assert f.nodes.Keys <= m'.Keys;
    if from.ExitTrue? {
      assert ListHolds(m', f, ExitTrue) && ListHolds(m', f, ExitFalse);
    } else {
      assert ListHolds(m', f, ExitTrue) && ListHolds(m', f, ExitFalse);
    }
  }

  lemma JoinContents(m: Mem, m': Mem, f0: Fragment, f1: Fragment, from: Exit)
    requires Joinable(m, f0, f1, from) && JoinStep(m, m', f0, f1, from)
    ensures var f := Joined(f0, f1, from);
            forall b | b in f.nodes :: m'[b].stmts == f.nodes[b].stmts && m'[b].s == f.nodes[b].s
  {
  }

  // ----- The code generator's operations -----

  ghost function Patched(m: Mem, chain: set<Block>, target: Block): Mem {
    map b | b in m :: if b in chain then m[b].WithLink(target) else m[b]
  }

  /** One field assignment, as seen by a set of blocks. */
  method SetLink(b: Block, target: Block, ghost blocks: set<Block>)
    requires b in blocks
    modifies b`jt, b`jf
    ensures Memory(blocks) == old(Memory(blocks)[b := Memory(blocks)[b].WithLink(target)])
  {
    if !b.sense {
      b.jt := target;
    } else {
      b.jf := target;
    }
  }

  method ToggleSense(b: Block, ghost blocks: set<Block>)
    requires b in blocks
    modifies b`sense
    ensures Memory(blocks) == old(FlipSense(Memory(blocks), b))
  {
    b.sense := !b.sense;
  }

  method SetHead(b: Block, head: Block, ghost blocks: set<Block>)
    requires b in blocks
    modifies b`head
    ensures Memory(blocks) == old(WithHead(Memory(blocks), b, head))
  {
    b.head := head;
  }

  ghost function FlipSense(m: Mem, b: Block): Mem
    requires b in m
  {
    m[b := m[b].Flipped()]
  }

  ghost function WithHead(m: Mem, b: Block, head: Block): Mem
    requires b in m
  {
    m[b := m[b].(head := head)]
  }

  lemma PatchedOneMore(m: Mem, done: set<Block>, b: Block, target: Block)
    requires b in m && b !in done
    ensures Patched(m, done + {b}, target) == Patched(m, done, target)[b := m[b].WithLink(target)]
    ensures Patched(m, done, target)[b] == m[b]
  {
  }

  method Backpatch(list: Block?, target: Block, ghost chain: seq<Block>, ghost blocks: set<Block>)
    requires Linked(Memory(blocks), list, chain) && Distinct(chain)
    modifies blocks`jt, blocks`jf
    ensures Memory(blocks) == Patched(old(Memory(blocks)), Elements(chain), target)
  {
    var list := list;
    ghost var done: set<Block>, rest: seq<Block> := {}, chain;
    ghost var m := Memory(blocks);
    while list != null
      invariant Linked(m, list, rest) && Distinct(rest)
      invariant done !! Elements(rest) && done + Elements(rest) == Elements(chain)
      invariant Memory(blocks) == Patched(m, done, target)
      decreases |rest|
    {
      PatchedOneMore(m, done, list, target);
      var next := if !list.sense then list.jt else list.jf;
      assert next == m[list].Link();
      SetLink(list, target, blocks);
      ElementsSplit(rest);
      done, rest := done + {list}, rest[1..];
      list := next;
    }
  }

  lemma ElementsSplit(c: seq<Block>)
    requires c != [] && Distinct(c)
    ensures c[0] !in Elements(c[1..]) && Elements(c) == {c[0]} + Elements(c[1..])
  {
  }

  method Merge(b0: Block, b1: Block, ghost chain: seq<Block>, ghost blocks: set<Block>)
    requires chain != [] && Linked(Memory(blocks), b0, chain)
    modifies blocks`jt, blocks`jf
    ensures var m, last := old(Memory(blocks)), chain[|chain| - 1];
            last in m && Memory(blocks) == m[last := m[last].WithLink(b1)]
  {
    var p := b0;
    ghost var rest := chain;
    while p.Succ(!p.sense) != null
      invariant rest != [] && Linked(Memory(blocks), p, rest) && rest[|rest| - 1] == chain[|chain| - 1]
      decreases |rest|
    {
      assert Linked(Memory(blocks), Memory(blocks)[p].Link(), rest[1..]);
      p := p.Succ(!p.sense);
      rest := rest[1..];
    }
    assert Linked(Memory(blocks), Memory(blocks)[p].Link(), rest[1..]);
    assert rest == [p];
    SetLink(p, b1, blocks);
  }

  ghost function FragmentBlocks(f0: Fragment, f1: Fragment): set<Block> { f0.nodes.Keys + f1.nodes.Keys }

  /** The list a block's sense selects starts with the block itself. */
  lemma ListFromLast(m: Mem, f: Fragment, e: Exit)
    requires ListHolds(m, f, e) && !e.To?
    ensures var m' := if e.ExitTrue? then m else FlipSense(m, f.last);
            Linked(m', f.last, [f.last] + f.List(e)) && Distinct([f.last] + f.List(e))
  {
    var m' := if e.ExitTrue? then m else FlipSense(m, f.last);
    LinkedSame(m, m', m[f.last].At(Side(m, f, e)), f.List(e));
    assert ([f.last] + f.List(e))[1..] == f.List(e);
  }

  /** m1 is m with every exit e of f resolved to target, and nothing else changed. */
  ghost predicate Resolved(m: Mem, m1: Mem, f: Fragment, e: Exit, target: Block) {
    && m1.Keys == m.Keys
    && forall b | b in m :: m1[b] ==
         if b in f.nodes then
           m[b].(jt := if f.nodes[b].t == e then target else m[b].jt, jf := if f.nodes[b].f == e then target else m[b].jf)
         else m[b]
  }

  /** Patching a whole list resolves exactly the exits of that kind. */
  lemma PatchResolves(m: Mem, f: Fragment, e: Exit, target: Block)
    requires Holds(m, f) && !e.To?
    ensures e.ExitTrue? ==> Resolved(m, Patched(m, Elements([f.last] + f.List(e)), target), f, e, target)
    ensures e.ExitFalse? ==>
      Resolved(m, FlipSense(Patched(FlipSense(m, f.last), Elements([f.last] + f.List(e)), target), f.last), f, e, target)
  {
    forall b | b in m
      ensures b in Elements([f.last] + f.List(e)) ==> b in f.nodes
      ensures b in f.nodes && b != f.last ==>
        (b in f.List(e) ==> f.nodes[b].At(!m[b].sense) == e && f.nodes[b].At(m[b].sense) != e) &&
        (b !in f.List(e) ==> f.nodes[b].t != e && f.nodes[b].f != e)
    {
      if b in f.nodes && b != f.last && b !in f.List(e) {
        assert f.nodes[b].At(true) != e && f.nodes[b].At(false) != e;
      }
    }
  }

  /** The last block of list e of f1 keeps its link in the field that is exit e. */
  lemma TailLink(m: Mem, f: Fragment, e: Exit)
    requires Holds(m, f) && !e.To?
    ensures var tail := f.Tail(e);
            && tail in f.nodes
            && var side := if tail == f.last then Side(m, f, e) else !m[tail].sense;
               f.nodes[tail].At(side) == e && f.nodes[tail].At(!side) != e
  {
    assert ListHolds(m, f, e) && ListHolds(m, f, Flip(e));
    assert f.List(e) != [] ==> f.Tail(e) in f.List(e);
  }

  /** Patching f0 leaves f1's other list ready to be extended. */
  lemma MergeList(m: Mem, m1: Mem, m2: Mem, f0: Fragment, f1: Fragment, from: Exit)
    requires Joinable(m, f0, f1, from) && Resolved(m, m1, f0, from, f1.head)
    requires m2 == if from.ExitTrue? then FlipSense(FlipSense(m1, f0.last), f1.last) else m1
    ensures Linked(m2, f1.last, [f1.last] + f1.List(Flip(from)))
  {
    var e := Flip(from);
    assert ListHolds(m, f1, e);
    ListFromLast(m, f1, e);
    var m' := if e.ExitTrue? then m else FlipSense(m, f1.last);
    LinkedSame(m', m2, f1.last, [f1.last] + f1.List(e));
  }

  /** The statements of gen_and, on lists c0 and c1 of its two arguments. */
  method AndStatements(b0: Block, b1: Block, ghost c0: seq<Block>, ghost c1: seq<Block>, ghost blocks: set<Block>)
    requires c1 != [] && b0 != b1 && AndReady(Memory(blocks), b0, b1, c0, c1)
    modifies blocks`jt, blocks`jf, b0`sense, b1`sense, b1`head
    ensures Memory(blocks) == AndMem(old(Memory(blocks)), b0, b1, c0, c1)
  {
    ghost var m := Memory(blocks);
    assert b0.head == m[b0].head && b1.head == m[b1].head;
    Backpatch(b0, b1.head, c0, blocks);
    ToggleSense(b0, blocks);
    ToggleSense(b1, blocks);
    ghost var m2 := AndMid(m, b0, b1, c0);
    assert Memory(blocks) == m2;
    Merge(b1, b0, c1, blocks);
    assert Memory(blocks) == m2[c1[|c1| - 1] := m2[c1[|c1| - 1]].WithLink(b0)];
    ToggleSense(b1, blocks);
    assert b0.head == m[b0].head;
    SetHead(b1, b0.head, blocks);
  }

  ghost function AndMid(m: Mem, b0: Block, b1: Block, c0: seq<Block>): Mem
    requires b0 in m && b1 in m
  {
    FlipSense(FlipSense(Patched(m, Elements(c0), m[b1].head), b0), b1)
  }

  ghost predicate AndReady(m: Mem, b0: Block, b1: Block, c0: seq<Block>, c1: seq<Block>) {
    && b0 in m && b1 in m
    && Linked(m, b0, c0) && Distinct(c0)
    && Linked(AndMid(m, b0, b1, c0), b1, c1)
    && (forall b | b in c1 :: b in m)
  }

  ghost function AndMem(m: Mem, b0: Block, b1: Block, c0: seq<Block>, c1: seq<Block>): Mem
    requires c1 != [] && AndReady(m, b0, b1, c0, c1)
  {
    var m2, tail := AndMid(m, b0, b1, c0), c1[|c1| - 1];
    WithHead(FlipSense(m2[tail := m2[tail].WithLink(b0)], b1), b1, m[b0].head)
  }

  method GenAnd(b0: Block, b1: Block, ghost f0: Fragment, ghost f1: Fragment) returns (ghost f: Fragment)
    requires b0 == f0.last && b1 == f1.last && Joinable(Memory(FragmentBlocks(f0, f1)), f0, f1, ExitTrue)
    modifies FragmentBlocks(f0, f1)`jt, FragmentBlocks(f0, f1)`jf, b0`sense, b1`sense, b1`head
    ensures f == Joined(f0, f1, ExitTrue) && Holds(Memory(FragmentBlocks(f0, f1)), f)
  {
    f := Joined(f0, f1, ExitTrue);
    AndMemHolds(Memory(FragmentBlocks(f0, f1)), f0, f1);
    AndStatements(b0, b1, [b0] + f0.trues, [b1] + f1.falses, FragmentBlocks(f0, f1));
  }

  lemma AndMemHolds(m: Mem, f0: Fragment, f1: Fragment)
    requires Joinable(m, f0, f1, ExitTrue)
    ensures var c0, c1 := [f0.last] + f0.trues, [f1.last] + f1.falses;
            && f0.last != f1.last
            && AndReady(m, f0.last, f1.last, c0, c1)
            && Holds(AndMem(m, f0.last, f1.last, c0, c1), Joined(f0, f1, ExitTrue))
  {
    var c0, c1 := [f0.last] + f0.trues, [f1.last] + f1.falses;
    var m1 := Patched(m, Elements(c0), f1.head);
    ListFromLast(m, f0, ExitTrue);
    PatchResolves(m, f0, ExitTrue, f1.head);
    MergeList(m, m1, AndMid(m, f0.last, f1.last, c0), f0, f1, ExitTrue);
    assert ListHolds(m, f1, ExitFalse);
    TailLink(m, f1, ExitFalse);
    assert c1[|c1| - 1] == f1.Tail(ExitFalse);
    var m2 := AndMem(m, f0.last, f1.last, c0, c1);
    AndFirst(m, m1, m2, f0, f1);
    AndSecond(m, m1, m2, f0, f1);
    JoinHolds(m, m2, f0, f1, ExitTrue);
  }

  ghost predicate AndMerged(m1: Mem, m2: Mem, f0: Fragment, f1: Fragment) {
    var tail := f1.Tail(ExitFalse);
    && f0.last in m1 && f1.last in m1 && tail in m1
    && var m' := FlipSense(FlipSense(m1, f0.last), f1.last);
       m2 == WithHead(FlipSense(m'[tail := m'[tail].WithLink(f0.last)], f1.last), f1.last, f0.head)
  }

  lemma AndFirst(m: Mem, m1: Mem, m2: Mem, f0: Fragment, f1: Fragment)
    requires Disjoint(f0, f1) && f0.nodes.Keys <= m.Keys
    requires f0.last in f0.nodes && f1.last in f1.nodes && f1.Tail(ExitFalse) in f1.nodes
    requires Resolved(m, m1, f0, ExitTrue, f1.head) && AndMerged(m1, m2, f0, f1)
    ensures m2.Keys == m.Keys && FirstStep(m, m2, f0, f1, ExitTrue)
  {
  }

  lemma AndSecond(m: Mem, m1: Mem, m2: Mem, f0: Fragment, f1: Fragment)
    requires Disjoint(f0, f1) && f1.nodes.Keys <= m.Keys && Resolved(m, m1, f0, ExitTrue, f1.head) && AndMerged(m1, m2, f0, f1)
    requires f0.last in f0.nodes && f1.last in f1.nodes && f1.Tail(ExitFalse) in f1.nodes
    requires var tail := f1.Tail(ExitFalse);
             var side := if tail == f1.last then m[tail].sense else !m[tail].sense;
             f1.nodes[tail].At(side) == ExitFalse && f1.nodes[tail].At(!side) != ExitFalse
    ensures m2.Keys == m.Keys && SecondStep(m, m2, f0, f1, ExitTrue)
  {
  }

  ghost function OrMid(m: Mem, b0: Block, b1: Block, c0: seq<Block>): Mem
    requires b0 in m && b1 in m
  {
    FlipSense(Patched(FlipSense(m, b0), Elements(c0), m[b1].head), b0)
  }

  ghost predicate OrReady(m: Mem, b0: Block, b1: Block, c0: seq<Block>, c1: seq<Block>) {
    && b0 in m && b1 in m
    && Linked(FlipSense(m, b0), b0, c0) && Distinct(c0)
    && Linked(OrMid(m, b0, b1, c0), b1, c1)
    && (forall b | b in c1 :: b in m)
  }

  ghost function OrMem(m: Mem, b0: Block, b1: Block, c0: seq<Block>, c1: seq<Block>): Mem
    requires c1 != [] && OrReady(m, b0, b1, c0, c1)
  {
    var m2, tail := OrMid(m, b0, b1, c0), c1[|c1| - 1];
    WithHead(m2[tail := m2[tail].WithLink(b0)], b1, m[b0].head)
  }

  /** The statements of gen_or. */
  method OrStatements(b0: Block, b1: Block, ghost c0: seq<Block>, ghost c1: seq<Block>, ghost blocks: set<Block>)
    requires c1 != [] && b0 != b1 && OrReady(Memory(blocks), b0, b1, c0, c1)
    modifies blocks`jt, blocks`jf, b0`sense, b1`head
    ensures Memory(blocks) == OrMem(old(Memory(blocks)), b0, b1, c0, c1)
  {
    ghost var m := Memory(blocks);
    assert b0.head == m[b0].head && b1.head == m[b1].head;
    ToggleSense(b0, blocks);
    Backpatch(b0, b1.head, c0, blocks);
    ToggleSense(b0, blocks);
    ghost var m2 := OrMid(m, b0, b1, c0);
    assert Memory(blocks) == m2;
    Merge(b1, b0, c1, blocks);
    assert Memory(blocks) == m2[c1[|c1| - 1] := m2[c1[|c1| - 1]].WithLink(b0)];
    assert b0.head == m[b0].head;
    SetHead(b1, b0.head, blocks);
  }

  method GenOr(b0: Block, b1: Block, ghost f0: Fragment, ghost f1: Fragment) returns (ghost f: Fragment)
    requires b0 == f0.last && b1 == f1.last && Joinable(Memory(FragmentBlocks(f0, f1)), f0, f1, ExitFalse)
    modifies FragmentBlocks(f0, f1)`jt, FragmentBlocks(f0, f1)`jf, b0`sense, b1`head
    ensures f == Joined(f0, f1, ExitFalse) && Holds(Memory(FragmentBlocks(f0, f1)), f)
  {
    f := Joined(f0, f1, ExitFalse);
    OrMemHolds(Memory(FragmentBlocks(f0, f1)), f0, f1);
    OrStatements(b0, b1, [b0] + f0.falses, [b1] + f1.trues, FragmentBlocks(f0, f1));
  }

  lemma OrMemHolds(m: Mem, f0: Fragment, f1: Fragment)
    requires Joinable(m, f0, f1, ExitFalse)
    ensures var c0, c1 := [f0.last] + f0.falses, [f1.last] + f1.trues;
            && f0.last != f1.last
            && OrReady(m, f0.last, f1.last, c0, c1)
            && Holds(OrMem(m, f0.last, f1.last, c0, c1), Joined(f0, f1, ExitFalse))
  {
    var c0, c1 := [f0.last] + f0.falses, [f1.last] + f1.trues;
    var m1 := OrMid(m, f0.last, f1.last, c0);
    ListFromLast(m, f0, ExitFalse);
    PatchResolves(m, f0, ExitFalse, f1.head);
    MergeList(m, m1, m1, f0, f1, ExitFalse);
    assert ListHolds(m, f1, ExitTrue);
    TailLink(m, f1, ExitTrue);
    assert c1[|c1| - 1] == f1.Tail(ExitTrue);
    var m2 := OrMem(m, f0.last, f1.last, c0, c1);
    OrStep(m, m1, m2, f0, f1);
    JoinHolds(m, m2, f0, f1, ExitFalse);
  }

  lemma OrStep(m: Mem, m1: Mem, m2: Mem, f0: Fragment, f1: Fragment)
    requires Disjoint(f0, f1) && f0.nodes.Keys <= m.Keys && f1.nodes.Keys <= m.Keys
    requires f0.last in f0.nodes && f1.last in f1.nodes && f1.Tail(ExitTrue) in f1.nodes
    requires Resolved(m, m1, f0, ExitFalse, f1.head)
    requires var tail := f1.Tail(ExitTrue);
             m2 == WithHead(m1[tail := m1[tail].WithLink(f0.last)], f1.last, f0.head)
    requires var tail := f1.Tail(ExitTrue);
             f1.nodes[tail].At(!m[tail].sense) == ExitTrue && f1.nodes[tail].At(m[tail].sense) != ExitTrue
    ensures m2.Keys == m.Keys && FirstStep(m, m2, f0, f1, ExitFalse) && SecondStep(m, m2, f0, f1, ExitFalse)
  {
  }

  method GenNot(b: Block, ghost f: Fragment) returns (ghost f': Fragment)
    requires b == f.last && Holds(Memory(f.nodes.Keys), f)
    modifies b`sense
    ensures f' == Negated(f) && Holds(Memory(f.nodes.Keys), f')
  {
    f' := Negated(f);
    NegatedHolds(Memory(f.nodes.Keys), f);
    ToggleSense(b, f.nodes.Keys);
  }

  lemma NegatedAcyclic(f: Fragment)
    requires f.Acyclic()
    ensures Negated(f).Acyclic()
    ensures forall b, s | b in f.nodes :: Negated(f).nodes[b].At(s).To? <==> f.nodes[b].At(s).To?
    ensures forall b, s | b in f.nodes && f.nodes[b].At(s).To? :: Negated(f).nodes[b].At(s) == f.nodes[b].At(s)
  {
    var f' := Negated(f);
    assert forall b, sense | b in f.nodes :: f'.nodes[b].At(sense).To? ==> f.nodes[b].At(sense).To?;
  }

  lemma NegatedHolds(m: Mem, f: Fragment)
    requires Holds(m, f)
    ensures Holds(FlipSense(m, f.last), Negated(f))
  {
    NegatedAcyclic(f);
    NegatedList(m, f, ExitTrue);
    NegatedList(m, f, ExitFalse);
    hide ListHolds, Fragment.Acyclic;
  }

  lemma NegatedList(m: Mem, f: Fragment, e: Exit)
    requires Holds(m, f) && !e.To?
    ensures ListHolds(FlipSense(m, f.last), Negated(f), Flip(e))
  {
    var m', f' := FlipSense(m, f.last), Negated(f);
    assert ListHolds(m, f, e);
    LinkedSame(m, m', m[f.last].At(Side(m, f, e)), f.List(e));
    forall b, s | b in f'.nodes && f'.nodes[b].At(s) == Flip(e)
      ensures b == f.last || b in f.List(e)
    {
      assert f.nodes[b].At(s) == e;
    }
  }

  // ----- Finishing a program -----

  /** The flow graph of a fragment whose exits lead to a block `yes` and a block `no`. */
  ghost function Finished(f: Fragment, yes: Block, no: Block, accept: Word): Graph {
    (map b | b in f.nodes :: Node(f.nodes[b].stmts, f.nodes[b].s, Target(f.nodes[b].t, yes, no), Target(f.nodes[b].f, yes, no)))
    [yes := Node([], Ret(accept), null, null)][no := Node([], Ret(0), null, null)]
  }

  ghost function Target(e: Exit, yes: Block, no: Block): Block {
    match e case To(b) => b case ExitTrue => yes case ExitFalse => no
  }

  ghost function FinishedRank(f: Fragment, yes: Block, no: Block): map<Block, nat> {
    (map b | b in f.nodes && b in f.rank :: f.rank[b] + 1)[yes := 0][no := 0]
  }

  ghost function Returns(v: Verdict, accept: Word): Outcome {
    match v case Yes(_) => Returned(accept) case No(_) => Returned(0) case Dead(o) => o
  }

  lemma FinishedDag(f: Fragment, yes: Block, no: Block, accept: Word)
    requires f.Acyclic() && yes !in f.nodes && no !in f.nodes && yes != no
    ensures Dag(Finished(f, yes, no, accept), FinishedRank(f, yes, no))
  {
    forall b | b in f.nodes
      ensures f.nodes[b].t.To? ==> f.nodes[b].t.target in f.nodes && f.rank[f.nodes[b].t.target] < f.rank[b]
      ensures f.nodes[b].f.To? ==> f.nodes[b].f.target in f.nodes && f.rank[f.nodes[b].f.target] < f.rank[b]
    {
      assert f.nodes[b].t == f.nodes[b].At(true) && f.nodes[b].f == f.nodes[b].At(false);
    }
  }

  lemma {:induction false} RunFinished(f: Fragment, yes: Block, no: Block, accept: Word, b: Block, st: State, pkt: Packet)
    requires f.Acyclic() && yes !in f.nodes && no !in f.nodes && yes != no && b in f.nodes
    ensures Dag(Finished(f, yes, no, accept), FinishedRank(f, yes, no))
    ensures Run(Finished(f, yes, no, accept), FinishedRank(f, yes, no), b, st, pkt) == Returns(Follow(f, b, st, pkt), accept)
    decreases f.rank[b]
  {
    FinishedDag(f, yes, no, accept);
    var r := ExecAll(f.nodes[b].stmts, st, pkt);
    if r.Next? {
      var e := f.nodes[b].At(Decide(f.nodes[b].s, r.st));
      if e.To? {
        RunFinished(f, yes, no, accept, e.target, r.st, pkt);
      }
    }
  }

  ghost function FinishMid(m: Mem, f: Fragment, yes: Block): Mem
    requires f.last in m
  {
    FlipSense(Patched(m, Elements([f.last] + f.trues), yes), f.last)
  }

  lemma FinishLists(m: Mem, f: Fragment, yes: Block)
    requires Holds(m, f)
    ensures Linked(m, f.last, [f.last] + f.trues) && Distinct([f.last] + f.trues)
    ensures Linked(FinishMid(m, f, yes), f.last, [f.last] + f.falses) && Distinct([f.last] + f.falses)
  {
    assert ListHolds(m, f, ExitTrue) && ListHolds(m, f, ExitFalse);
    ListFromLast(m, f, ExitTrue);
    ListFromLast(m, f, ExitFalse);
    PatchResolves(m, f, ExitTrue, yes);
    LinkedSame(FlipSense(m, f.last), FinishMid(m, f, yes), f.last, [f.last] + f.falses);
  }

  lemma FinishCell(m: Mem, m1: Mem, f: Fragment, yes: Block, no: Block, b: Block)
    requires Holds(m, f) && Resolved(m, m1, f, ExitTrue, yes) && b in f.nodes
    ensures var m2 := Patched(FlipSense(m1, f.last), Elements([f.last] + f.falses), no);
            m2[b].jt == Target(f.nodes[b].t, yes, no) && m2[b].jf == Target(f.nodes[b].f, yes, no)
  {
    assert ListHolds(m, f, ExitTrue) && ListHolds(m, f, ExitFalse);
    var n := f.nodes[b];
    assert n.t == n.At(true) && n.f == n.At(false);
    if b != f.last && b in f.falses {
      assert n.At(!m[b].sense) == ExitFalse && n.At(m[b].sense).To?;
    }
  }

  /** Memory holds the finished fragment, up to the two return blocks. */
  ghost predicate FinishedMem(m: Mem, f: Fragment, yes: Block, no: Block) {
    && m.Keys == f.nodes.Keys && f.last in m && m[f.last].head == f.head
    && forall b | b in f.nodes :: FinishedCell(m[b], f.nodes[b], yes, no)
  }

  ghost predicate FinishedCell(c: Cell, n: FragNode, yes: Block, no: Block) {
    c.stmts == n.stmts && c.s == n.s && c.jt == Target(n.t, yes, no) && c.jf == Target(n.f, yes, no)
  }

  lemma FinishedAt(m: Mem, f: Fragment, yes: Block, no: Block, b: Block)
    requires Holds(m, f) && m.Keys == f.nodes.Keys && b in f.nodes
    ensures var m2 := Patched(FinishMid(m, f, yes), Elements([f.last] + f.falses), no);
            FinishedCell(m2[b], f.nodes[b], yes, no)
  {
    PatchResolves(m, f, ExitTrue, yes);
    FinishCell(m, Patched(m, Elements([f.last] + f.trues), yes), f, yes, no, b);
    hide Resolved, Elements, Target;
    FinishContents(m, f, yes, no, b);
  }

  lemma FinishMem(m: Mem, f: Fragment, yes: Block, no: Block)
    requires Holds(m, f) && m.Keys == f.nodes.Keys
    ensures FinishedMem(Patched(FinishMid(m, f, yes), Elements([f.last] + f.falses), no), f, yes, no)
  {
    FinishContents(m, f, yes, no, f.last);
    hide FinishedCell, Elements;
    forall b | b in f.nodes
      ensures FinishedCell(Patched(FinishMid(m, f, yes), Elements([f.last] + f.falses), no)[b], f.nodes[b], yes, no)
    {
      FinishedAt(m, f, yes, no, b);
    }
  }

  lemma FinishContents(m: Mem, f: Fragment, yes: Block, no: Block, b: Block)
    requires f.last in m && b in m
    ensures var m2 := Patched(FinishMid(m, f, yes), Elements([f.last] + f.falses), no);
            b in m2 && m2[b].stmts == m[b].stmts && m2[b].s == m[b].s && m2[b].head == m[b].head
  {
  }

  /** The patches of finish_parse. */
  method FinishLinks(p: Block, yes: Block, no: Block, ghost f: Fragment)
    requires p == f.last && Holds(Memory(f.nodes.Keys), f)
    modifies f.nodes.Keys`jt, f.nodes.Keys`jf, p`sense
    ensures FinishedMem(Memory(f.nodes.Keys), f, yes, no)
  {
    FinishLists(Memory(f.nodes.Keys), f, yes);
    FinishMem(Memory(f.nodes.Keys), f, yes, no);
    FinishStatements(p, yes, no, f);
  }

  method FinishStatements(p: Block, yes: Block, no: Block, ghost f: Fragment)
    requires p == f.last && p in f.nodes
    requires Linked(Memory(f.nodes.Keys), p, [p] + f.trues) && Distinct([p] + f.trues)
    requires Linked(FinishMid(Memory(f.nodes.Keys), f, yes), f.last, [f.last] + f.falses) && Distinct([f.last] + f.falses)
    modifies f.nodes.Keys`jt, f.nodes.Keys`jf, p`sense
    ensures Memory(f.nodes.Keys) == Patched(FinishMid(old(Memory(f.nodes.Keys)), f, yes), Elements([f.last] + f.falses), no)
  {
    ghost var m := Memory(f.nodes.Keys);
    Backpatch(p, yes, [p] + f.trues, f.nodes.Keys);
    ToggleSense(p, f.nodes.Keys);
    assert Memory(f.nodes.Keys) == FinishMid(m, f, yes);
    Backpatch(p, no, [p] + f.falses, f.nodes.Keys);
  }

  /** finish_parse: the true exits lead to "return snaplen", the false ones to "return 0". */
  method FinishParse(p: Block, snaplen: Word, ghost f: Fragment) returns (root: Block, ghost yes: Block, ghost no: Block)
    requires p == f.last && Holds(Memory(f.nodes.Keys), f)
    modifies f.nodes.Keys`jt, f.nodes.Keys`jf, p`sense
    ensures root == f.head && yes != no && fresh(yes) && fresh(no) && Blank({yes, no})
    ensures Snap(f.nodes.Keys + {yes, no}) == Finished(f, yes, no, snaplen)
  {
    hide Holds, Finished, FinishedMem;
    ghost var blocks := f.nodes.Keys;
    var accept := new Block(Ret(snaplen));
    var reject := new Block(Ret(0));
    yes, no := accept, reject;
    assert Memory(blocks) == old(Memory(blocks));
    FinishLinks(p, accept, reject, f);
    assert p.head == Memory(blocks)[p].head;
    root := p.head;
    FinishSnap(f, yes, no, snaplen);
  }

  lemma FinishSnap(f: Fragment, yes: Block, no: Block, accept: Word)
    requires yes !in f.nodes && no !in f.nodes && yes != no
    requires yes.stmts == no.stmts == [] && yes.s == Ret(accept) && no.s == Ret(0)
    requires yes.jt == yes.jf == no.jt == no.jf == null
    requires FinishedMem(Memory(f.nodes.Keys), f, yes, no)
    ensures Snap(f.nodes.Keys + {yes, no}) == Finished(f, yes, no, accept)
  {
    forall b | b in f.nodes
      ensures FinishedCell(Cell(b.stmts, b.s, b.jt, b.jf, b.sense, b.head), f.nodes[b], yes, no)
    {
      assert FinishedCell(Memory(f.nodes.Keys)[b], f.nodes[b], yes, no);
    }
  }
}
