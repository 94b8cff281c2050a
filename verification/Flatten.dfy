/** icode_to_fcode: laying a flow graph out as a program, retrying until every branch reaches. */
module Flatten {
  import opened Words
  import opened Ir
  import opened Opcodes
  import opened Flowgraph
  import opened Machine
  import opened Layout

  ghost function ReadLongs(blocks: set<Block>): Longs
    reads blocks`longjt, blocks`longjf
  {
    Longs(set b | b in blocks && b.longjt, set b | b in blocks && b.longjf)
  }

  ghost function Marked(blocks: set<Block>, mark: nat): set<Block>
    reads blocks`mark
  {
    set b | b in blocks && b.mark == mark
  }

  method Slength(stmts: seq<Stmt>) returns (n: nat)
    ensures n == |Live(stmts)|
  {
    n := 0;
    for i := 0 to |stmts|
      invariant n + |Live(stmts[i..])| == |Live(stmts)|
    {
      if !stmts[i].op.Nop? {
        n := n + 1;
      }
    }
    assert stmts[|stmts|..] == [];
  }

  class Flattener {
    ghost const blocks: set<Block>
    ghost const g: Graph
    ghost const rank: map<Block, nat>

    var curMark: nat
    var code: array<Insn>
    var ftail: nat
    /** The blocks laid out so far in this pass. */
    ghost var emitted: seq<Block>

    ghost predicate Valid()
      reads this`curMark, blocks`stmts, blocks`s, blocks`jt, blocks`jf, blocks`mark
    {
      g == Snap(blocks) && Dag(g, rank) && forall b | b in blocks :: b.mark <= curMark
    }

    constructor (ghost blocks: set<Block>, ghost rank: map<Block, nat>)
      requires Dag(Snap(blocks), rank) && Blank(blocks)
      ensures Valid() && this.blocks == blocks && this.rank == rank && g == Snap(blocks) && fresh(code)
    {
      this.blocks, this.rank, this.g := blocks, rank, Snap(blocks);
      curMark, ftail, emitted := 0, 0, [];
      code := new Insn[0];
    }

    method Mark(p: Block)
      requires p in blocks && Valid()
      modifies p`mark
      ensures Valid() && Marked(blocks, curMark) == old(Marked(blocks, curMark)) + {p}
    {
      p.mark := curMark;
    }

    method UnMarkAll()
      requires Valid()
      modifies this`curMark
      ensures Valid() && Marked(blocks, curMark) == {}
    {
      curMark := curMark + 1;
    }

    /** count_stmts; a null successor counts nothing. */
    method CountStmts(p: Block) returns (n: nat)
      requires Valid() && p in blocks
      modifies blocks`mark
      ensures Valid()
      ensures Tally(n, Marked(blocks, curMark)) == Count(g, rank, ReadLongs(blocks), p, old(Marked(blocks, curMark)))
      decreases rank[p]
    {
      hide Dag, Live, Count;
      ghost var seen, l := Marked(blocks, curMark), ReadLongs(blocks);
      if p.mark == curMark {
        CountNothing(g, rank, l, p, seen);
        return 0;
      }
      NodeOf(p);
      CountUnfolds(g, rank, l, p, seen);
      hide Marked;
      Mark(p);
      n := 0;
      if p.jt != null {
        n := CountStmts(p.jt);
        var nf := CountStmts(p.jf);
        n := n + nf;
      }
      var slen := Slength(p.stmts);
      n := slen + n + 1 + (if p.longjt then 1 else 0) + (if p.longjf then 1 else 0);
    }

    /** Copy the statements that are not deleted to the array from index at on. */
    method EmitStatements(stmts: seq<Stmt>, at: nat) returns (dst: nat)
      requires at + |Live(stmts)| <= code.Length
      modifies code
      ensures dst == at + |Live(stmts)| && code[..] == Overwrite(old(code[..]), at, Codes(Live(stmts)))
    {
      hide Live, Codes, Overwrite;
      dst := at;
      ghost var start, done: seq<Insn> := code[..], [];
      OverwriteNext(start, at, []);
      LiveEnds(stmts);
      for i := 0 to |stmts|
        invariant |done| == dst - at && |done| + |Live(stmts[i..])| == |Live(stmts)|
        invariant done + Codes(Live(stmts[i..])) == Codes(Live(stmts))
        invariant code[..] == Overwrite(start, at, done)
      {
        LiveStep(stmts, i, done);
        if !stmts[i].op.Nop? {
          OverwriteNext(start, at, done);
          var insn := Insn(OpCode(stmts[i].op), 0, 0, stmts[i].k);
          assert code[..] == Overwrite(start, at, done);
          code[dst] := insn;
          assert code[..] == Overwrite(start, at, done)[dst := insn];
          done := done + [insn];
          dst := dst + 1;
        }
      }
      assert done + [] == done;
    }

    /**
     * The branch of p at index at, its targets dt and df instructions past it. Fails when a target
     * is too far and no long jump has been reserved, and then reserves one.
     */
    method EmitBranch(p: Block, at: nat, dt: nat, df: nat) returns (ok: bool, ghost sense: bool)
      requires at + 1 + (if p.longjt then 1 else 0) + (if p.longjf then 1 else 0) <= code.Length
      modifies code, p`longjt, p`longjf
      ensures ok <==> (p.s.Jmp? ==> (dt >= 256 ==> old(p.longjt)) && (df >= 256 ==> old(p.longjf)))
      ensures ok ==> p.longjt == old(p.longjt) && p.longjf == old(p.longjf)
      ensures ok ==> at + |BranchCode(p.s, dt, df)| <= code.Length
      ensures ok ==> code[..] == Overwrite(old(code[..]), at, BranchCode(p.s, dt, df))
      ensures !ok ==> p.s.Jmp? && (if sense then dt else df) >= 256 && !old(if sense then p.longjt else p.longjf)
      ensures !ok ==> p.longjt == (sense || old(p.longjt)) && p.longjf == (!sense || old(p.longjf))
    {
      sense := true;
      match p.s {
        case Ret(k) => code[at] := Insn(RET, 0, 0, k);
        case Jmp(test, src, k) =>
          var jt, jf, extrajmps: Octet := 0, 0, 0;
          if dt >= 256 {
            if !p.longjt {
              p.longjt := true;
              return false, true;
            }
            jt := extrajmps;
            extrajmps := extrajmps + 1;
            code[at + extrajmps] := LongJump(dt, extrajmps);
          } else {
            jt := dt;
          }
          if df >= 256 {
            if !p.longjf {
              p.longjf := true;
              return false, false;
            }
            jf := extrajmps;
            extrajmps := extrajmps + 1;
            code[at + extrajmps] := LongJump(df, extrajmps);
          } else {
            jf := df;
          }
          code[at] := Insn(TestCode(test, src), jt, jf, k);
      }
      ok := true;
    }

    /** The end of the array holds the layout of the blocks emitted so far; the rest is zero. */
    ghost predicate Laid()
      reads this`code, this`ftail, this`emitted, code, blocks`offset, blocks`longjt, blocks`longjf
    {
      var l := ReadLongs(blocks);
      && Arranged(g, l, emitted)
      && code[..] == Zeros(ftail) + Assemble(g, l, emitted)
      && Placed(l, emitted)
    }

    ghost predicate Placed(l: Longs, order: seq<Block>)
      requires forall b | b in order :: b in g
      reads this`ftail, blocks`offset
    {
      forall b | b in order :: b in blocks && b.offset == ftail + Offset(g, l, order, b)
    }

    /** With long jumps l, a branch in the layout of an order is too far, and has no long jump. */
    ghost predicate Failed(l: Longs, far: Far, order: seq<Block>)
    {
      var p, upto := far.block, far.front + [far.block];
      && upto <= order && (forall b | b in upto :: b in g) && Ordered(g, upto)
      && g[p].s.Jmp? && g[p].Succ(far.sense) in far.front
      && Distance(g, l, upto, g[p].Succ(far.sense)) >= 256
      && !HasLong(l, p, far.sense)
    }

    lemma FailedLater(l: Longs, far: Far, a: seq<Block>, b: seq<Block>)
      requires Failed(l, far, a) && a <= b
      ensures Failed(l, far, b)
    {
    }

    lemma NodeOf(p: Block)
      requires Valid() && p in blocks
      ensures p in g && g[p] == Node(p.stmts, p.s, p.jt, p.jf)
      ensures IsLeaf(g[p]) || (g[p].s.Jmp? && g[p].jt in g && g[p].jf in g)
    {
    }

    /** The code of p from ftail on, before the rest of the program. */
    method EmitCode(p: Block, dt: nat, df: nat, ghost rest: Program) returns (ok: bool, ghost sense: bool)
      requires p in blocks
      requires var n := |Live(p.stmts)| + 1 + (if p.longjt then 1 else 0) + (if p.longjf then 1 else 0);
               code[..] == Zeros(ftail + n) + rest
      modifies code, p`longjt, p`longjf
      ensures ok <==> (p.s.Jmp? ==> (dt >= 256 ==> old(p.longjt)) && (df >= 256 ==> old(p.longjf)))
      ensures ok ==> ReadLongs(blocks) == old(ReadLongs(blocks))
      ensures ok ==> code[..] == Zeros(ftail) + Own(p.stmts, p.s, dt, df, code.Length - ftail - |rest|) + rest
      ensures !ok ==> p.s.Jmp? && (if sense then dt else df) >= 256 && !old(if sense then p.longjt else p.longjf)
      ensures !ok ==> ReadLongs(blocks) == WithLong(old(ReadLongs(blocks)), p, sense)
    {
      hide Live, Codes, BranchCode, Overwrite;
      BranchSize(p.s, dt, df);
      ghost var start, codes, branch := code[..], Codes(Live(p.stmts)), BranchCode(p.s, dt, df);
      var dst := EmitStatements(p.stmts, ftail);
      ok, sense := EmitBranch(p, dst, dt, df);
      if ok {
        OverwriteTwice(start, ftail, codes, branch);
        OverwriteZeros(code.Length - |rest|, rest, ftail, codes + branch);
      }
    }

    /** Reserve room for p, and find how far past its branch its successors are. */
    method Reserve(p: Block) returns (dt: nat, df: nat)
      requires Valid() && p in blocks && p !in emitted && Arranged(g, ReadLongs(blocks), emitted)
      requires Placed(ReadLongs(blocks), emitted) && ftail >= Layout.Size(g, ReadLongs(blocks), p)
      requires p.s.Jmp? ==> p.jt in emitted && p.jf in emitted
      modifies this`ftail, this`emitted, p`offset
      ensures emitted == old(emitted) + [p] && ftail == old(ftail) - Layout.Size(g, ReadLongs(blocks), p)
      ensures Ordered(g, emitted) && Distinct(emitted)
      ensures (forall b | b in emitted :: b in g) && Placed(ReadLongs(blocks), emitted)
      ensures p.s.Jmp? ==> dt == Distance(g, ReadLongs(blocks), emitted, p.jt)
      ensures p.s.Jmp? ==> df == Distance(g, ReadLongs(blocks), emitted, p.jf)
    {
      hide Live, Total, Valid, Dag, Offset, Distance, Ordered, Distinct, AllFit;
      NodeOf(p);
      DistanceOf(g, ReadLongs(blocks), emitted, p);
      var slen := Slength(p.stmts);
      ftail := ftail - (slen + 1 + (if p.longjt then 1 else 0) + (if p.longjf then 1 else 0));
      p.offset := ftail;
      dt, df := 0, 0;
      if p.jt != null {
        dt := p.jt.offset - (p.offset + slen) - 1;
        df := p.jf.offset - (p.offset + slen) - 1;
      }
      emitted := emitted + [p];
    }

    method EmitBlock(p: Block) returns (ok: bool, ghost far: Far)
      requires Valid() && Laid() && p in blocks && p !in emitted
      requires p.s.Jmp? ==> p.jt in emitted && p.jf in emitted
      requires ftail >= Layout.Size(g, ReadLongs(blocks), p)
      modifies this`ftail, this`emitted, code, p`offset, p`longjt, p`longjf
      ensures Valid()
      ensures ok ==> Laid() && emitted == old(emitted) + [p] && ReadLongs(blocks) == old(ReadLongs(blocks))
      ensures ok ==> ftail == old(ftail) - Layout.Size(g, ReadLongs(blocks), p)
      ensures !ok ==> Failed(old(ReadLongs(blocks)), far, old(emitted) + [p])
      ensures !ok ==> ReadLongs(blocks) == WithLong(old(ReadLongs(blocks)), far.block, far.sense)
    {
      hide Live, Codes, BranchCode, Total, Valid, Dag, Placed, Distance, Ordered, Distinct, Assemble, AllFit;
      NodeOf(p);
      ghost var l, front, rest := ReadLongs(blocks), emitted, Assemble(g, ReadLongs(blocks), emitted);
      var dt, df := Reserve(p);
      assert Valid() && ReadLongs(blocks) == l;
      ghost var sense: bool;
      ok, sense := EmitCode(p, dt, df, rest);
      far := Far(front, p, sense);
      assert Valid();
      if ok {
        EmittedIsLaid(g, l, front, p, dt, df);
        Append3(Zeros(ftail), Own(p.stmts, p.s, dt, df, Layout.Size(g, l, p)), rest);
      }
    }

    ghost function Now(): Cursor
      reads this`emitted, this`curMark, this`ftail, blocks`mark
    {
      Cursor(emitted, Marked(blocks, curMark), ftail)
    }

    /**
     * convert_code_r: lay out what is reachable from p and not yet visited, false branches first.
     * When a branch does not reach, only the long jump it needs has been recorded.
     */
    method ConvertCodeR(p: Block) returns (ok: bool, ghost far: Far)
      requires Valid() && Laid() && p in blocks && Ready(g, rank, ReadLongs(blocks), Now(), p)
      modifies this`ftail, this`emitted, code, blocks`mark, blocks`offset, blocks`longjt, blocks`longjf
      ensures Valid()
      ensures var l, end := old(ReadLongs(blocks)), Lay(g, rank, old(ReadLongs(blocks)), old(Now()), p);
        if ok then Laid() && ReadLongs(blocks) == l && Now() == end
        else Failed(l, far, end.laid) && ReadLongs(blocks) == WithLong(l, far.block, far.sense)
      decreases rank[p]
    {
      hide Dag, Laid, Failed, Ready, Lay, ReadLongs;
      ghost var l, start := ReadLongs(blocks), Now();
      ok, far := true, Far(emitted, p, true);
      if p.mark == curMark {
        LayNothing(g, rank, l, start, p);
        return;
      }
      NodeOf(p);
      LaySplits(g, rank, l, start, p);
      hide Marked;
      Mark(p);
      if p.jt != null {
        ghost var c1 := Lay(g, rank, l, Enter(start, p), p.jf);
        ok, far := ConvertCodeR(p.jf);
        if !ok {
          FailedLater(l, far, c1.laid, Lay(g, rank, l, start, p).laid);
          return;
        }
        ok, far := ConvertCodeR(p.jt);
        if !ok {
          FailedLater(l, far, Lay(g, rank, l, c1, p.jt).laid, Lay(g, rank, l, start, p).laid);
          return;
        }
      }
      ok, far := EmitBlock(p);
    }

    /** The order in which a pass lays out what is reachable from root. */
    ghost function Order(root: Block): seq<Block>
      requires Dag(g, rank) && root in g
    {
      Visit(g, rank, root, {}, false)
    }

    /**
     * icode_to_fcode: lay the graph out, again and again, until every far branch has a long jump.
     * Every failed pass has given one more branch the long jump it needs.
     */
    method IcodeToFcode(root: Block) returns (ghost passes: nat)
      requires Valid() && root in blocks && ReadLongs(blocks) == Longs({}, {})
      modifies this, blocks`mark, blocks`offset, blocks`longjt, blocks`longjf
      ensures Valid() && passes <= 2 * |blocks| + 1 && fresh(code) && ftail == 0
      ensures var l, order := ReadLongs(blocks), Order(root);
        && Arranged(g, l, order) && Justified(g, l, order) && code[..] == Assemble(g, l, order)
        && Placed(l, order)
    {
      OrderArranged(g, rank, root);
      ghost var order := Order(root);
      NoneJustified(g, order);
      hide Dag, Visit, Failed, Justified, Distinct, Ordered, ReadLongs, Given, Assemble, AllFit, Valid, Order, Placed;
      passes := 0;
      while true
        invariant Valid() && Justified(g, ReadLongs(blocks), order)
        invariant passes <= Given(ReadLongs(blocks))
        decreases 2 * |blocks| - Given(ReadLongs(blocks))
      {
        ghost var l := ReadLongs(blocks);
        GivenBound(blocks);
        var ok, far := Pass(root);
        passes := passes + 1;
        if ok {
          return;
        }
        OneMoreLong(l, far, order);
        GivenBound(blocks);
      }
    }

    /** One pass: count, allocate, and try to lay out. */
    method Pass(root: Block) returns (ok: bool, ghost far: Far)
      requires Valid() && root in blocks
      modifies this, blocks`mark, blocks`offset, blocks`longjt, blocks`longjf
      ensures Valid() && fresh(code)
      ensures var l := old(ReadLongs(blocks));
        if ok then
          && ReadLongs(blocks) == l && ftail == 0 && Arranged(g, l, Order(root))
          && code[..] == Assemble(g, l, Order(root)) && Placed(l, Order(root))
        else Failed(l, far, Order(root)) && ReadLongs(blocks) == WithLong(l, far.block, far.sense)
    {
      hide Dag, Visit, Lay, Count, Failed, Total, Laid, Ready, Arranged, Assemble, Placed, ReadLongs;
      ghost var l := ReadLongs(blocks);
      UnMarkAll();
      var n := CountStmts(root);
      PassStarts(g, rank, l, root, n);
      Allocate(n);
      UnMarkAll();
      ok, far := ConvertCodeR(root);
      if ok {
        AllLaid();
      }
    }

    /** A zeroed array, to be filled from its end. */
    method Allocate(n: nat)
      modifies this`code, this`ftail, this`emitted
      ensures Laid() && emitted == [] && ftail == n && fresh(code)
    {
      code := new Insn[n](_ => ZERO);
      ftail, emitted := n, [];
      assert code[..] == Zeros(ftail) + [];
    }

    lemma AllLaid()
      requires Laid() && ftail == 0
      ensures var l := ReadLongs(blocks);
        Arranged(g, l, emitted) && code[..] == Assemble(g, l, emitted) && Placed(l, emitted)
    {
      assert Zeros(0) + Assemble(g, ReadLongs(blocks), emitted) == Assemble(g, ReadLongs(blocks), emitted);
    }

    /** A failed pass gives a branch the long jump that it needs. */
    lemma OneMoreLong(l: Longs, far: Far, order: seq<Block>)
      requires Ordered(g, order) && Distinct(order) && Justified(g, l, order) && Failed(l, far, order)
      ensures var l' := WithLong(l, far.block, far.sense);
        Justified(g, l', order) && Given(l') == Given(l) + 1
    {
      JustifiedGrows(g, l, order, far.block, far.sense, far.front);
    }
  }

  lemma GivenBound(blocks: set<Block>)
    ensures Given(ReadLongs(blocks)) <= 2 * |blocks|
  {
    AtMost(ReadLongs(blocks).jt, blocks);
    AtMost(ReadLongs(blocks).jf, blocks);
  }

  lemma {:induction false} AtMost(s: set<Block>, t: set<Block>)
    requires s <= t
    ensures |s| <= |t|
  {
    if s != {} {
      var x :| x in s;
      AtMost(s - {x}, t - {x});
    }
  }

  lemma OrderArranged(g: Graph, rank: map<Block, nat>, root: Block)
    requires Dag(g, rank) && root in g
    ensures var order := Visit(g, rank, root, {}, false);
            Ordered(g, order) && Distinct(order) && (forall b | b in order :: b in g) && root in order
  {
    var order := Visit(g, rank, root, {}, false);
    VisitOrdered(g, rank, [], root, {}, false);
    assert [] + order == order;
  }

  lemma {:induction false} NoneJustified(g: Graph, order: seq<Block>)
    requires Ordered(g, order)
    ensures Justified(g, Longs({}, {}), order)
  {
    if order != [] {
      InGraph(g, order);
      NoneJustified(g, order[..|order| - 1]);
    }
  }

  /** The array that has been counted for a pass is exactly filled by it. */
  lemma PassStarts(g: Graph, rank: map<Block, nat>, l: Longs, root: Block, n: nat)
    requires Dag(g, rank) && root in g && n == Count(g, rank, l, root, {}).n
    ensures var start := Cursor([], {}, n);
      && Ready(g, rank, l, start, root) && Lay(g, rank, l, start, root).room == 0
      && Lay(g, rank, l, start, root).laid == Visit(g, rank, root, {}, false)
  {
    VisitSameTotal(g, rank, l, root);
    hide Visit, Dag, Total;
    var t := Visit(g, rank, root, {}, false);
    assert [] + t == t;
  }

  lemma VisitSameTotal(g: Graph, rank: map<Block, nat>, l: Longs, root: Block)
    requires Dag(g, rank) && root in g
    ensures Total(g, l, Visit(g, rank, root, {}, true)) == Total(g, l, Visit(g, rank, root, {}, false))
    ensures Elements([]) == {}
  {
    VisitsReach(g, rank, root, true);
    VisitsReach(g, rank, root, false);
    hide Distinct, Ordered, Visit, Dag, Elements, Total, Reach;
    SameTotal(g, l, Visit(g, rank, root, {}, true), Visit(g, rank, root, {}, false));
  }

  lemma VisitsReach(g: Graph, rank: map<Block, nat>, root: Block, first: bool)
    requires Dag(g, rank) && root in g
    ensures var order := Visit(g, rank, root, {}, first);
      && Distinct(order) && Ordered(g, order)
      && Elements(order) == Reach(g, rank, root) && Elements([]) == {}
  {
    var order := Visit(g, rank, root, {}, first);
    assert Ordered(g, []) && Distinct([]) && Elements([]) == {};
    hide Ordered, Distinct, Elements, Visit, Reach, Dag;
    VisitOrdered(g, rank, [], root, {}, first);
    assert [] + order == order;
    VisitReaches(g, rank, root, {}, first);
  }

  ghost function Given(l: Longs): nat { |l.jt| + |l.jf| }

  /** The branch that did not reach: where its block would have been laid out, and which side. */
  datatype Far = Far(front: seq<Block>, block: Block, sense: bool)

  /** How far a pass has got: the blocks laid out, the blocks visited, and the room that is left. */
  datatype Cursor = Cursor(laid: seq<Block>, seen: set<Block>, room: int)

  ghost function Enter(c: Cursor, p: Block): Cursor { c.(seen := c.seen + {p}) }

  ghost function Put(g: Graph, l: Longs, c: Cursor, p: Block): Cursor
    requires p in g
  {
    Cursor(c.laid + [p], c.seen, c.room - Layout.Size(g, l, p))
  }

  /** Laying out everything reachable from p that has not been visited. */
  ghost function Lay(g: Graph, rank: map<Block, nat>, l: Longs, c: Cursor, p: Block): Cursor
    requires Dag(g, rank) && p in g
  {
    var order := Visit(g, rank, p, c.seen, false);
    Cursor(c.laid + order, c.seen + Elements(order), c.room - Total(g, l, order))
  }

  /** p can be laid out next: there is room, and visited blocks not yet laid out are above p. */
  ghost predicate Ready(g: Graph, rank: map<Block, nat>, l: Longs, c: Cursor, p: Block)
    requires Dag(g, rank) && p in g
  {
    Above(g, rank, c, p) && Lay(g, rank, l, c, p).room >= 0
  }

  ghost predicate Above(g: Graph, rank: map<Block, nat>, c: Cursor, p: Block)
    requires g.Keys <= rank.Keys && p in g
  {
    Elements(c.laid) <= c.seen && forall x | x in c.seen && x !in c.laid :: x in g && rank[x] > rank[p]
  }

  ghost predicate Arranged(g: Graph, l: Longs, order: seq<Block>) {
    Ordered(g, order) && Distinct(order) && AllFit(g, l, order) && forall b | b in order :: b in g
  }

  /** The instructions of a block, and zeros for long jumps that are reserved but not needed. */
  ghost function Own(stmts: seq<Stmt>, s: Branch, dt: nat, df: nat, size: int): seq<Insn> {
    var c := Codes(Live(stmts)) + BranchCode(s, dt, df);
    c + Zeros(size - |c|)
  }

  /** The distances of a block laid out before front, from the offsets front already has. */
  lemma DistanceOf(g: Graph, l: Longs, front: seq<Block>, p: Block)
    requires Ordered(g, front) && Distinct(front) && p in g && p !in front && (forall b | b in front :: b in g)
    requires IsLeaf(g[p]) || (g[p].s.Jmp? && g[p].jt in front && g[p].jf in front)
    ensures Ordered(g, front + [p]) && Distinct(front + [p])
    ensures forall to | to in front ::
      && Distance(g, l, front + [p], to) == Layout.Size(g, l, p) - |Live(g[p].stmts)| - 1 + Offset(g, l, front, to)
      && Offset(g, l, front + [p], to) == Layout.Size(g, l, p) + Offset(g, l, front, to)
    ensures Offset(g, l, front + [p], p) == 0
  {
    ExtendOrdered(g, front, p);
    assert (front + [p])[..|front|] == front;
  }

  /** Block p laid out before front, given how far away its successors are. */
  lemma EmittedIsLaid(g: Graph, l: Longs, front: seq<Block>, p: Block, dt: nat, df: nat)
    requires Ordered(g, front + [p]) && (forall b | b in front + [p] :: b in g)
    requires Ordered(g, front) && AllFit(g, l, front)
    requires g[p].s.Jmp? ==>
      && g[p].jt in front && dt == Distance(g, l, front + [p], g[p].jt) && (dt >= 256 ==> p in l.jt)
      && g[p].jf in front && df == Distance(g, l, front + [p], g[p].jf) && (df >= 256 ==> p in l.jf)
    ensures AllFit(g, l, front + [p])
    ensures Own(g[p].stmts, g[p].s, dt, df, Layout.Size(g, l, p)) + Assemble(g, l, front) == Assemble(g, l, front + [p])
  {
    hide Live, Codes, Distance;
    assert (front + [p])[..|front|] == front;
    assert Branching(g, l, front + [p]) == BranchCode(g[p].s, dt, df);
  }

  /** A sequence with the elements from index i on replaced by those of x. */
  function Overwrite<T>(s: seq<T>, i: nat, x: seq<T>): seq<T>
    requires i + |x| <= |s|
  {
    s[..i] + x + s[i + |x|..]
  }

  lemma OverwriteNext<T>(s: seq<T>, i: nat, x: seq<T>)
    requires i + |x| <= |s|
    ensures |Overwrite(s, i, x)| == |s| && (x == [] ==> Overwrite(s, i, x) == s)
    ensures i + |x| < |s| ==> forall e :: Overwrite(s, i, x)[i + |x| := e] == Overwrite(s, i, x + [e])
  {
  }

  lemma OverwriteTwice<T>(s: seq<T>, i: nat, a: seq<T>, b: seq<T>)
    requires i + |a| + |b| <= |s|
    ensures |Overwrite(s, i, a)| == |s|
    ensures Overwrite(Overwrite(s, i, a), i + |a|, b) == Overwrite(s, i, a + b)
  {
  }

  lemma OverwriteZeros(n: nat, rest: seq<Insn>, i: nat, x: seq<Insn>)
    requires i + |x| <= n
    ensures Overwrite(Zeros(n) + rest, i, x) == Zeros(i) + (x + Zeros(n - i - |x|)) + rest
  {
    assert Zeros(n) == Zeros(i) + (Zeros(|x|) + Zeros(n - i - |x|));
  }

  lemma BranchSize(s: Branch, dt: nat, df: nat)
    ensures |BranchCode(s, dt, df)| ==
            if s.Ret? then 1 else 1 + (if dt >= 256 then 1 else 0) + (if df >= 256 then 1 else 0)
  {
  }

  lemma LiveEnds(stmts: seq<Stmt>)
    ensures stmts[0..] == stmts && Live(stmts[|stmts|..]) == [] && Codes([]) == []
  {
    assert stmts[|stmts|..] == [];
  }

  lemma LiveStep(stmts: seq<Stmt>, i: nat, done: seq<Insn>)
    requires i < |stmts|
    ensures stmts[i].op.Nop? ==> Live(stmts[i..]) == Live(stmts[i + 1..])
    ensures !stmts[i].op.Nop? ==> |Live(stmts[i..])| == 1 + |Live(stmts[i + 1..])|
    ensures !stmts[i].op.Nop? ==>
      done + Codes(Live(stmts[i..])) == done + [Insn(OpCode(stmts[i].op), 0, 0, stmts[i].k)] + Codes(Live(stmts[i + 1..]))
  {
    assert stmts[i..][1..] == stmts[i + 1..];
    if !stmts[i].op.Nop? {
      assert Live(stmts[i..])[1..] == Live(stmts[i + 1..]);
    }
  }

  /** Visiting a block counts what visiting its successors in turn counts, and the block itself. */
  lemma VisitCount(g: Graph, rank: map<Block, nat>, l: Longs, p: Block, seen: set<Block>, first: bool)
    requires Dag(g, rank) && p in g && p !in seen
    ensures var order := Visit(g, rank, p, seen, first);
            if g[p].s.Ret? then order == [p] && Total(g, l, order) == Layout.Size(g, l, p) && Elements(order) == {p}
            else
              var s1 := Visit(g, rank, g[p].Succ(first), seen + {p}, first);
              var s2 := Visit(g, rank, g[p].Succ(!first), seen + {p} + Elements(s1), first);
              && order == s1 + s2 + [p]
              && Total(g, l, order) == Total(g, l, s1) + Total(g, l, s2) + Layout.Size(g, l, p)
              && Elements(order) == {p} + Elements(s1) + Elements(s2)
  {
    hide Total, Dag, Elements, Layout.Size;
    DagAt(g, rank, p);
    TotalOne(g, l, p);
    if g[p].s.Jmp? {
      var s1 := Visit(g, rank, g[p].Succ(first), seen + {p}, first);
      var s2 := Visit(g, rank, g[p].Succ(!first), seen + {p} + Elements(s1), first);
      TotalConcat(g, l, s1, s2);
      TotalConcat(g, l, s1 + s2, [p]);
      assert Visit(g, rank, p, seen, first) == s1 + s2 + [p];
    }
  }

  /** The instructions of what has been visited, and all that has been visited. */
  datatype Tally = Tally(n: nat, seen: set<Block>)

  /** Visiting everything reachable from p that has not been visited. */
  ghost function Count(g: Graph, rank: map<Block, nat>, l: Longs, p: Block, seen: set<Block>): Tally
    requires Dag(g, rank) && p in g
  {
    var order := Visit(g, rank, p, seen, true);
    Tally(Total(g, l, order), seen + Elements(order))
  }

  lemma CountNothing(g: Graph, rank: map<Block, nat>, l: Longs, p: Block, seen: set<Block>)
    requires Dag(g, rank) && p in g && p in seen
    ensures Count(g, rank, l, p, seen) == Tally(0, seen)
  {
  }

  lemma CountUnfolds(g: Graph, rank: map<Block, nat>, l: Longs, p: Block, seen: set<Block>)
    requires Dag(g, rank) && p in g && p !in seen
    ensures g.Keys <= rank.Keys
    ensures g[p].s.Ret? ==> Count(g, rank, l, p, seen) == Tally(Layout.Size(g, l, p), seen + {p})
    ensures g[p].s.Jmp? ==>
      && g[p].jf in g && g[p].jt in g && rank[g[p].jf] < rank[p] && rank[g[p].jt] < rank[p]
      && var c1 := Count(g, rank, l, g[p].jt, seen + {p});
         var c2 := Count(g, rank, l, g[p].jf, c1.seen);
         Count(g, rank, l, p, seen) == Tally(c1.n + c2.n + Layout.Size(g, l, p), c2.seen)
  {
    VisitCount(g, rank, l, p, seen, true);
    hide Total, Layout.Size, Elements, Visit;
    DagAt(g, rank, p);
  }

  lemma LayNothing(g: Graph, rank: map<Block, nat>, l: Longs, c: Cursor, p: Block)
    requires Dag(g, rank) && p in g && p in c.seen
    ensures Lay(g, rank, l, c, p) == c
  {
  }

  /** Laying out from p is laying out from its successors, and then p. */
  lemma LayUnfolds(g: Graph, rank: map<Block, nat>, l: Longs, c: Cursor, p: Block)
    requires Dag(g, rank) && p in g && p !in c.seen
    ensures g.Keys <= rank.Keys
    ensures g[p].s.Ret? ==> Lay(g, rank, l, c, p) == Put(g, l, Enter(c, p), p)
    ensures g[p].s.Jmp? ==>
      && g[p].jf in g && g[p].jt in g && rank[g[p].jf] < rank[p] && rank[g[p].jt] < rank[p]
      && Lay(g, rank, l, c, p) == Put(g, l, Lay(g, rank, l, Lay(g, rank, l, Enter(c, p), g[p].jf), g[p].jt), p)
  {
    VisitCount(g, rank, l, p, c.seen, false);
    hide Total, Layout.Size, Elements, Visit;
    DagAt(g, rank, p);
    if g[p].s.Jmp? {
      var s1 := Visit(g, rank, g[p].jf, c.seen + {p}, false);
      var s2 := Visit(g, rank, g[p].jt, c.seen + {p} + Elements(s1), false);
      Regroup(c.laid, s1, s2, [p]);
    }
  }

  /** Each step of laying out from p finds what it needs. */
  lemma LaySplits(g: Graph, rank: map<Block, nat>, l: Longs, c: Cursor, p: Block)
    requires Dag(g, rank) && p in g && p !in c.seen && Ready(g, rank, l, c, p)
    ensures p !in c.laid && g.Keys <= rank.Keys
    ensures g[p].s.Ret? ==> Lay(g, rank, l, c, p) == Put(g, l, Enter(c, p), p) && c.room >= Layout.Size(g, l, p)
    ensures g[p].s.Jmp? ==>
      && g[p].jf in g && g[p].jt in g && rank[g[p].jf] < rank[p] && rank[g[p].jt] < rank[p]
      && var c1 := Lay(g, rank, l, Enter(c, p), g[p].jf);
         var c2 := Lay(g, rank, l, c1, g[p].jt);
         && Lay(g, rank, l, c, p) == Put(g, l, c2, p) && c2.room >= Layout.Size(g, l, p)
         && Ready(g, rank, l, Enter(c, p), g[p].jf) && Ready(g, rank, l, c1, g[p].jt)
         && p !in c2.laid && g[p].jt in c2.laid && g[p].jf in c2.laid
         && c1.laid <= Lay(g, rank, l, c, p).laid && c2.laid <= Lay(g, rank, l, c, p).laid
  {
    LayUnfolds(g, rank, l, c, p);
    assert p in c.laid ==> p in Elements(c.laid);
    hide Lay, Layout.Size, Dag;
    if g[p].s.Jmp? {
      ReadyTwice(g, rank, l, c, p, g[p].jf, g[p].jt);
    }
  }

  lemma ReadyTwice(g: Graph, rank: map<Block, nat>, l: Longs, c: Cursor, p: Block, a: Block, b: Block)
    requires Dag(g, rank) && p in g && p !in c.seen && a in g && b in g && g.Keys <= rank.Keys
    requires rank[a] < rank[p] && rank[b] < rank[p] && Ready(g, rank, l, c, p)
    requires Lay(g, rank, l, c, p) == Put(g, l, Lay(g, rank, l, Lay(g, rank, l, Enter(c, p), a), b), p)
    ensures var c1 := Lay(g, rank, l, Enter(c, p), a);
            var c2 := Lay(g, rank, l, c1, b);
            && Ready(g, rank, l, Enter(c, p), a) && Ready(g, rank, l, c1, b)
            && p !in c2.laid && a in c2.laid && b in c2.laid
            && c1.laid <= Lay(g, rank, l, c, p).laid && c2.laid <= Lay(g, rank, l, c, p).laid
  {
    var c0 := Enter(c, p);
    var c1 := Lay(g, rank, l, c0, a);
    var c2 := Lay(g, rank, l, c1, b);
    AboveEnter(g, rank, c, p, a);
    AboveEnter(g, rank, c, p, b);
    hide Lay, Layout.Size, Dag, Above;
    LayKeeps(g, rank, l, c0, a, p, b);
    LayKeeps(g, rank, l, c1, b, p, b);
    LayKeeps(g, rank, l, c0, a, p, a);
    LayKeeps(g, rank, l, c1, b, p, a);
    AboveLaid(g, rank, c2, a);
    AboveLaid(g, rank, c2, b);
    PrefixTwice(c1.laid, c2.laid, Lay(g, rank, l, c, p).laid);
  }

  lemma PrefixTwice(a: seq<Block>, b: seq<Block>, c: seq<Block>)
    requires a <= b <= c
    ensures a <= c
  {
  }

  lemma AboveEnter(g: Graph, rank: map<Block, nat>, c: Cursor, p: Block, q: Block)
    requires g.Keys <= rank.Keys && p in g && q in g && Above(g, rank, c, p) && p !in c.seen && rank[q] < rank[p]
    ensures Above(g, rank, Enter(c, p), q) && p !in c.laid
  {
    assert p in c.laid ==> p in Elements(c.laid);
  }

  lemma AboveLaid(g: Graph, rank: map<Block, nat>, c: Cursor, q: Block)
    requires g.Keys <= rank.Keys && q in g && Above(g, rank, c, q) && q in c.seen
    ensures q in c.laid
  {
  }

  /** Laying out from p visits p, only adds, and leaves blocks that are being visited alone. */
  lemma LayKeeps(g: Graph, rank: map<Block, nat>, l: Longs, c: Cursor, p: Block, x: Block, q: Block)
    requires Dag(g, rank) && p in g && q in g && g.Keys <= rank.Keys && Above(g, rank, c, q)
    requires x in c.seen && x !in c.laid
    ensures var end := Lay(g, rank, l, c, p);
      && Above(g, rank, end, q) && c.laid <= end.laid && c.seen <= end.seen && p in end.seen && end.room <= c.room
      && x in end.seen && x !in end.laid
  {
    var order := Visit(g, rank, p, c.seen, false);
    ElementsConcat(c.laid, order);
    LayInside(c.laid, order);
  }

  lemma LayInside(a: seq<Block>, b: seq<Block>)
    ensures a <= a + b && forall x :: x in a + b <==> x in a || x in b
  {
  }

  lemma DagAt(g: Graph, rank: map<Block, nat>, b: Block)
    requires Dag(g, rank) && b in g
    ensures b in rank && g.Keys <= rank.Keys
    ensures IsLeaf(g[b]) || (g[b].s.Jmp? && g[b].jt in g && g[b].jf in g && rank[g[b].jt] < rank[b] && rank[g[b].jf] < rank[b])
  {
  }

  lemma TotalOne(g: Graph, l: Longs, p: Block)
    requires p in g
    ensures Total(g, l, [p]) == Layout.Size(g, l, p) && Elements([p]) == {p}
  {
    assert [p][..0] == [];
  }

  lemma ElementsConcat(s: seq<Block>, t: seq<Block>)
    ensures Elements(s + t) == Elements(s) + Elements(t)
  {
  }

  lemma {:induction false} TotalConcat(g: Graph, l: Longs, s: seq<Block>, t: seq<Block>)
    requires (forall b | b in s :: b in g) && forall b | b in t :: b in g
    ensures Total(g, l, s + t) == Total(g, l, s) + Total(g, l, t)
    ensures Elements(s + t) == Elements(s) + Elements(t)
  {
    if t == [] {
      assert s + t == s;
    } else {
      TotalConcat(g, l, s, t[..|t| - 1]);
      assert (s + t)[..|s + t| - 1] == s + t[..|t| - 1];
    }
  }
}
