/**
 * The layout of a flow graph as an instruction array: depth-first order, laid out
 * backwards, with long jumps where an 8-bit offset does not reach.
 */
module Layout {
  import opened Words
  import opened Ir
  import opened Opcodes
  import opened Flowgraph
  import opened Machine

  // ----- Depth-first order -----

  /** The blocks visited from p that are not in seen, each after its successors; side `first` goes first. */
  ghost function Visit(g: Graph, rank: map<Block, nat>, p: Block, seen: set<Block>, first: bool): (order: seq<Block>)
    requires Dag(g, rank) && p in g
    ensures forall b | b in order :: b in g && b !in seen && rank[b] <= rank[p]
    ensures p in seen || p in order
    decreases rank[p]
  {
    if p in seen then []
    else if g[p].s.Ret? then [p]
    else
      var s1 := Visit(g, rank, g[p].Succ(first), seen + {p}, first);
      var s2 := Visit(g, rank, g[p].Succ(!first), seen + {p} + Elements(s1), first);
      s1 + s2 + [p]
  }

  /** Every successor of a block comes before it. */
  ghost predicate Ordered(g: Graph, order: seq<Block>) {
    order == [] ||
    var b, front := order[|order| - 1], order[..|order| - 1];
    b in g && (IsLeaf(g[b]) || (g[b].s.Jmp? && g[b].jt in front && g[b].jf in front)) && Ordered(g, front)
  }

  /** Where everything reachable from low-ranked seen blocks is seen, a visit reaches exactly what is not. */
  ghost predicate SeenClosed(g: Graph, rank: map<Block, nat>, seen: set<Block>, bound: nat)
    requires Dag(g, rank)
  {
    forall x | x in seen && x in g && rank[x] <= bound :: Reach(g, rank, x) <= seen
  }

  lemma {:induction false} VisitReaches(g: Graph, rank: map<Block, nat>, p: Block, seen: set<Block>, first: bool)
    requires Dag(g, rank) && p in g && SeenClosed(g, rank, seen, rank[p])
    ensures var order := Visit(g, rank, p, seen, first);
            Elements(order) + seen >= Reach(g, rank, p) && Elements(order) <= Reach(g, rank, p)
            && SeenClosed(g, rank, seen + Elements(order), rank[p])
    decreases rank[p]
  {
    var order := Visit(g, rank, p, seen, first);
    if p in seen {
      assert seen + Elements(order) == seen;
    } else if g[p].s.Ret? {
      assert Elements(order) == {p};
    } else {
      var s1 := Visit(g, rank, g[p].Succ(first), seen + {p}, first);
      VisitReaches(g, rank, g[p].Succ(first), seen + {p}, first);
      var s2 := Visit(g, rank, g[p].Succ(!first), seen + {p} + Elements(s1), first);
      VisitReaches(g, rank, g[p].Succ(!first), seen + {p} + Elements(s1), first);
      assert Elements(order) == Elements(s1) + Elements(s2) + {p};
      forall x | x in Elements(order)
        ensures Reach(g, rank, x) <= seen + Elements(order)
      {
        ReachIsClosed(g, rank, p, x);
      }
    }
  }

  /** A visit after `front` extends it to a longer distinct order with successors first. */
  lemma {:induction false} VisitOrdered(g: Graph, rank: map<Block, nat>, front: seq<Block>, p: Block, seen: set<Block>, first: bool)
    requires Dag(g, rank) && p in g && Ordered(g, front) && Distinct(front) && Elements(front) <= seen
    requires forall x | x in seen && x !in front :: x in g && rank[x] > rank[p]
    ensures Ordered(g, front + Visit(g, rank, p, seen, first)) && Distinct(front + Visit(g, rank, p, seen, first))
    decreases rank[p]
  {
    var order := Visit(g, rank, p, seen, first);
    if p in seen {
      assert front + order == front;
    } else if g[p].s.Ret? {
      ExtendOrdered(g, front, p);
    } else {
      var c1, c2 := g[p].Succ(first), g[p].Succ(!first);
      var s1 := Visit(g, rank, c1, seen + {p}, first);
      VisitOrdered(g, rank, front, c1, seen + {p}, first);
      var seen' := seen + {p} + Elements(s1);
      var s2 := Visit(g, rank, c2, seen', first);
      assert Elements(front + s1) <= seen';
      assert forall x | x in seen' && x !in front + s1 :: x == p || (x in seen && x !in front);
      VisitOrdered(g, rank, front + s1, c2, seen', first);
      var all := front + s1 + s2;
      assert p !in all;
      assert c1 in all by {
        assert c1 in seen + {p} || c1 in s1;
      }
      assert c2 in all by {
        assert c2 in seen' || c2 in s2;
      }
      hide Distinct, Ordered, Visit;
      ExtendOrdered(g, all, p);
      Regroup(front, s1, s2, [p]);
    }
  }

  lemma Regroup(a: seq<Block>, b: seq<Block>, c: seq<Block>, d: seq<Block>)
    ensures a + (b + c + d) == a + b + c + d
  {
  }

  lemma ExtendOrdered(g: Graph, front: seq<Block>, b: Block)
    requires Ordered(g, front) && Distinct(front) && b !in front && b in g
    requires IsLeaf(g[b]) || (g[b].s.Jmp? && g[b].jt in front && g[b].jf in front)
    ensures Ordered(g, front + [b]) && Distinct(front + [b])
  {
    assert (front + [b])[..|front|] == front && (front + [b])[|front|] == b;
  }

  // ----- Layout -----

  /** The blocks whose true, or false, branch has been given a long jump. */
  datatype Longs = Longs(jt: set<Block>, jf: set<Block>)

  /** Instructions a block takes: its statements, its branch, and its long jumps. */
  ghost function Size(g: Graph, l: Longs, b: Block): nat
    requires b in g
  {
    |Live(g[b].stmts)| + 1 + (if b in l.jt then 1 else 0) + (if b in l.jf then 1 else 0)
  }

  ghost function Total(g: Graph, l: Longs, order: seq<Block>): nat
    requires forall b | b in order :: b in g
  {
    if order == [] then 0 else Total(g, l, order[..|order| - 1]) + Size(g, l, order[|order| - 1])
  }

  /** Where b starts in the layout of an order: the later a block comes, the lower it lies. */
  ghost function Offset(g: Graph, l: Longs, order: seq<Block>, b: Block): nat
    requires b in order && forall b | b in order :: b in g
  {
    var c, front := order[|order| - 1], order[..|order| - 1];
    if b == c then 0 else Size(g, l, c) + Offset(g, l, front, b)
  }

  /** How far past the branch statement of the last block of an order a block before it starts. */
  ghost function Distance(g: Graph, l: Longs, order: seq<Block>, to: Block): nat
    requires order != [] && to in order[..|order| - 1] && forall b | b in order :: b in g
  {
    var b, front := order[|order| - 1], order[..|order| - 1];
    Size(g, l, b) - |Live(g[b].stmts)| - 1 + Offset(g, l, front, to)
  }

  const ZERO := Insn(0, 0, 0, 0)

  function Codes(ss: seq<Stmt>): (r: seq<Insn>)
    requires forall s | s in ss :: !s.op.Nop?
    ensures |r| == |ss|
  {
    if ss == [] then [] else [Insn(OpCode(ss[0].op), 0, 0, ss[0].k)] + Codes(ss[1..])
  }

  function LongJump(d: int, n: int): Insn { Insn(JMP, 0, 0, Wrap(d - n)) }

  /** The branch of a block whose targets are dt and df instructions past it, and its long jumps. */
  function BranchCode(s: Branch, dt: nat, df: nat): (r: seq<Insn>)
  {
    match s
    case Ret(k) => [Insn(RET, 0, 0, k)]
    case Jmp(test, src, k) =>
      var jt := if dt >= 256 then 0 else dt;
      var extra := if dt >= 256 then 1 else 0;
      var jf := if df >= 256 then extra else df;
      [Insn(TestCode(test, src), jt, jf, k)]
      + (if dt >= 256 then [LongJump(dt, 1)] else [])
      + (if df >= 256 then [LongJump(df, extra + 1)] else [])
  }

  /** The branch of the last block of an order. */
  ghost function Branching(g: Graph, l: Longs, order: seq<Block>): seq<Insn>
    requires order != [] && Ordered(g, order)
  {
    InGraph(g, order);
    var n := g[order[|order| - 1]];
    if n.s.Ret? then BranchCode(n.s, 0, 0)
    else BranchCode(n.s, Distance(g, l, order, n.jt), Distance(g, l, order, n.jf))
  }

  /** The code of the last block of an order. Slots reserved for long jumps but not needed stay zero. */
  ghost function Emit(g: Graph, l: Longs, order: seq<Block>): (code: seq<Insn>)
    requires order != [] && Ordered(g, order) && Fits(g, l, order)
    ensures order[|order| - 1] in g && |code| == Size(g, l, order[|order| - 1])
  {
    InGraph(g, order);
    var b := order[|order| - 1];
    var code := Codes(Live(g[b].stmts)) + Branching(g, l, order);
    code + Zeros(Size(g, l, b) - |code|)
  }

  function Zeros(n: int): seq<Insn> { if n <= 0 then [] else seq(n, _ => ZERO) }

  lemma {:induction false} InGraph(g: Graph, order: seq<Block>)
    requires Ordered(g, order)
    ensures forall b | b in order :: b in g
  {
    if order != [] {
      InGraph(g, order[..|order| - 1]);
    }
  }

  /** Every branch of the last block of an order that is too far has a long jump. */
  ghost predicate Fits(g: Graph, l: Longs, order: seq<Block>)
    requires order != [] && Ordered(g, order)
  {
    InGraph(g, order);
    var b := order[|order| - 1];
    g[b].s.Jmp? ==>
      && (Distance(g, l, order, g[b].jt) >= 256 ==> b in l.jt)
      && (Distance(g, l, order, g[b].jf) >= 256 ==> b in l.jf)
  }

  ghost predicate AllFit(g: Graph, l: Longs, order: seq<Block>)
    requires Ordered(g, order)
  {
    order == [] || (Fits(g, l, order) && AllFit(g, l, order[..|order| - 1]))
  }

  /** The program laid out for an order: the last block first. */
  ghost function Assemble(g: Graph, l: Longs, order: seq<Block>): (prog: Program)
    requires Ordered(g, order) && AllFit(g, l, order)
  {
    if order == [] then [] else Emit(g, l, order) + Assemble(g, l, order[..|order| - 1])
  }

  // ----- The program simulates the graph -----

  lemma {:induction false} AssembleLength(g: Graph, l: Longs, order: seq<Block>)
    requires Ordered(g, order) && AllFit(g, l, order)
    ensures forall b | b in order :: b in g
    ensures |Assemble(g, l, order)| == Total(g, l, order)
  {
    InGraph(g, order);
    if order != [] {
      AssembleLength(g, l, order[..|order| - 1]);
    }
  }

  /** Execution only moves forward, so what comes before the program counter does not matter. */
  lemma {:induction false} RunSuffix(x: Program, y: Program, pc: nat, st: State, pkt: Packet)
    ensures Machine.Run(x + y, |x| + pc, st, pkt) == Machine.Run(y, pc, st, pkt)
    decreases |y| - pc
  {
    if pc < |y| {
      var m := Advance(y[pc], pc, st, pkt);
      var m' := Advance((x + y)[|x| + pc], |x| + pc, st, pkt);
      assert (x + y)[|x| + pc] == y[pc];
      if m.Goto? {
        assert m' == Goto(|x| + m.pc, m.st);
        RunSuffix(x, y, m.pc, m.st, pkt);
      }
    }
  }

  /** The encoded statements do what the statements do. */
  lemma {:induction false} RunCodes(ss: seq<Stmt>, y: Program, st: State, pkt: Packet)
    requires forall s | s in ss :: !s.op.Nop?
    ensures Machine.Run(Codes(ss) + y, 0, st, pkt) ==
            match ExecAll(ss, st, pkt) {
              case Next(st') => Machine.Run(y, 0, st', pkt)
              case Reject => Returned(0)
              case Fault => Undefined
            }
  {
    if ss == [] {
      assert Codes(ss) + y == y;
    } else {
      var insn := Insn(OpCode(ss[0].op), 0, 0, ss[0].k);
      var rest := Codes(ss[1..]) + y;
      assert Codes(ss) + y == [insn] + rest;
      DecodeOpCode(ss[0].op);
      if Exec(ss[0], st, pkt).Next? {
        var st' := Exec(ss[0], st, pkt).st;
        RunSuffix([insn], rest, 0, st', pkt);
        RunCodes(ss[1..], y, st', pkt);
      }
    }
  }

  /** The branch goes to its target, directly or over a long jump. */
  lemma RunBranch(s: Branch, dt: nat, df: nat, y: Program, st: State, pkt: Packet)
    requires dt <= TWO_TO_THE_32 && df <= TWO_TO_THE_32
    ensures Machine.Run(BranchCode(s, dt, df) + y, 0, st, pkt) ==
            match s {
              case Ret(k) => Returned(k)
              case Jmp(_, _, _) => Machine.Run(BranchCode(s, dt, df) + y, 1 + if Decide(s, st) then dt else df, st, pkt)
            }
  {
    hide Machine.Run, BranchCode;
    if s.Jmp? {
      BranchRuns(s, dt, df, y, st, pkt);
      LongRuns(s, dt, df, y, st, pkt);
    } else {
      ReturnRuns(s, dt, df, y, st, pkt);
    }
  }

  lemma ReturnRuns(s: Branch, dt: nat, df: nat, y: Program, st: State, pkt: Packet)
    requires s.Ret?
    ensures Machine.Run(BranchCode(s, dt, df) + y, 0, st, pkt) == Returned(s.k)
  {
    assert (BranchCode(s, dt, df) + y)[0] == Insn(RET, 0, 0, s.k);
  }

  /** Where the branch instruction itself leads: the target, or the long jump to it. */
  lemma BranchRuns(s: Branch, dt: nat, df: nat, y: Program, st: State, pkt: Packet)
    requires dt <= TWO_TO_THE_32 && df <= TWO_TO_THE_32 && s.Jmp?
    ensures Machine.Run(BranchCode(s, dt, df) + y, 0, st, pkt) ==
      Machine.Run(BranchCode(s, dt, df) + y,
        1 + if Decide(s, st) then (if dt >= 256 then 0 else dt) else if df >= 256 then (if dt >= 256 then 1 else 0) else df, st, pkt)
  {
    var prog := BranchCode(s, dt, df) + y;
    DecodeTestCode(s.test, s.src);
    assert prog[0] == BranchCode(s, dt, df)[0];
  }

  lemma LongRuns(s: Branch, dt: nat, df: nat, y: Program, st: State, pkt: Packet)
    requires dt <= TWO_TO_THE_32 && df <= TWO_TO_THE_32 && s.Jmp?
    ensures var prog := BranchCode(s, dt, df) + y;
      && (dt >= 256 ==> Machine.Run(prog, 1, st, pkt) == Machine.Run(prog, 1 + dt, st, pkt))
      && (df >= 256 ==> Machine.Run(prog, if dt >= 256 then 2 else 1, st, pkt) == Machine.Run(prog, 1 + df, st, pkt))
  {
    var prog := BranchCode(s, dt, df) + y;
    if dt >= 256 {
      assert prog[1] == LongJump(dt, 1);
      LongJumpRuns(prog, 1, dt, st, pkt);
    }
    if df >= 256 {
      var at := if dt >= 256 then 2 else 1;
      assert prog[at] == LongJump(df, at);
      LongJumpRuns(prog, at, df, st, pkt);
    }
    hide Machine.Run;
  }

  lemma LongJumpRuns(prog: Program, at: nat, d: nat, st: State, pkt: Packet)
    requires at <= d && d < TWO_TO_THE_32 + at && at < |prog| && prog[at] == LongJump(d, at)
    ensures Machine.Run(prog, at, st, pkt) == Machine.Run(prog, 1 + d, st, pkt)
  {
  }

  lemma {:induction false} OffsetBound(g: Graph, l: Longs, order: seq<Block>, b: Block)
    requires b in order && forall b | b in order :: b in g
    ensures Offset(g, l, order, b) < Total(g, l, order)
  {
    if b != order[|order| - 1] {
      OffsetBound(g, l, order[..|order| - 1], b);
    }
  }

  lemma Append3(a: Program, b: Program, c: Program)
    ensures (a + b) + c == a + (b + c)
  {
  }

  lemma Append4(a: Program, b: Program, c: Program, d: Program)
    ensures ((a + b) + c) + d == a + (b + (c + d))
    ensures ((a + b) + c) + d == (a + b + c) + d
  {
  }

  /** From the branch of the last block, control reaches the chosen successor's offset. */
  lemma BranchLands(g: Graph, l: Longs, order: seq<Block>, pad: Program, rest: Program, st: State, pkt: Packet)
    requires order != [] && Ordered(g, order) && (forall b | b in order :: b in g)
    requires g[order[|order| - 1]].s.Jmp?
    requires Total(g, l, order) < TWO_TO_THE_32
    requires |Branching(g, l, order) + pad| == Size(g, l, order[|order| - 1]) - |Live(g[order[|order| - 1]].stmts)|
    ensures var n, front := g[order[|order| - 1]], order[..|order| - 1];
            Machine.Run(Branching(g, l, order) + (pad + rest), 0, st, pkt) ==
            Machine.Run(rest, Offset(g, l, front, n.Succ(Decide(n.s, st))), st, pkt)
  {
    hide Machine.Run, BranchCode, Decide, Live, Total;
    var b, front := order[|order| - 1], order[..|order| - 1];
    var n := g[b];
    var dt, df := Distance(g, l, order, n.jt), Distance(g, l, order, n.jf);
    DistanceBound(g, l, order, n.jt);
    DistanceBound(g, l, order, n.jf);
    RunBranch(n.s, dt, df, pad + rest, st, pkt);
    var code := BranchCode(n.s, dt, df) + pad;
    assert BranchCode(n.s, dt, df) + (pad + rest) == code + rest;
    RunSuffix(code, rest, Offset(g, l, front, n.Succ(Decide(n.s, st))), st, pkt);
  }

  lemma DistanceBound(g: Graph, l: Longs, order: seq<Block>, to: Block)
    requires order != [] && to in order[..|order| - 1] && forall b | b in order :: b in g
    ensures Distance(g, l, order, to) < Total(g, l, order)
  {
    OffsetBound(g, l, order[..|order| - 1], to);
  }

  /** Executing the last block of an order: its statements, then the code at its successor's offset. */
  lemma RunLast(g: Graph, l: Longs, order: seq<Block>, st: State, pkt: Packet)
    requires order != [] && Ordered(g, order) && AllFit(g, l, order)
    requires (forall b | b in order :: b in g) && Total(g, l, order) < TWO_TO_THE_32
    ensures var n, front := g[order[|order| - 1]], order[..|order| - 1];
            Machine.Run(Assemble(g, l, order), 0, st, pkt) ==
            match ExecAll(n.stmts, st, pkt) {
              case Reject => Returned(0)
              case Fault => Undefined
              case Next(st') =>
                if n.s.Ret? then Returned(n.s.k)
                else Machine.Run(Assemble(g, l, front), Offset(g, l, front, n.Succ(Decide(n.s, st'))), st', pkt)
            }
  {
    hide Machine.Run, Decide, Live, BranchCode;
    var b, front := order[|order| - 1], order[..|order| - 1];
    var n, rest := g[b], Assemble(g, l, front);
    var codes, branch := Codes(Live(n.stmts)), Branching(g, l, order);
    var pad := Zeros(Size(g, l, b) - |codes + branch|);
    assert Emit(g, l, order) == codes + branch + pad;
    Append4(codes, branch, pad, rest);
    RunCodes(Live(n.stmts), branch + (pad + rest), st, pkt);
    ExecLive(n.stmts, st, pkt);
    var r := ExecAll(n.stmts, st, pkt);
    if r.Next? {
      if n.s.Jmp? {
        BranchLands(g, l, order, pad, rest, r.st, pkt);
      } else {
        RunBranch(n.s, 0, 0, pad + rest, r.st, pkt);
      }
    }
  }

  /** Executing the array from a block's offset is executing the graph from that block. */
  lemma {:induction false} Simulates(g: Graph, rank: map<Block, nat>, l: Longs, order: seq<Block>, b: Block, st: State, pkt: Packet)
    requires Dag(g, rank) && Ordered(g, order) && AllFit(g, l, order) && b in g && b in order
    requires (forall b | b in order :: b in g) && Total(g, l, order) < TWO_TO_THE_32
    ensures Machine.Run(Assemble(g, l, order), Offset(g, l, order, b), st, pkt) == Flowgraph.Run(g, rank, b, st, pkt)
    decreases |order|, 1
  {
    hide Machine.Run, Flowgraph.Run, Emit, Assemble;
    if b != order[|order| - 1] {
      Simulates(g, rank, l, order[..|order| - 1], b, st, pkt);
      RunFront(g, l, order, b, st, pkt);
    } else {
      SimulatesLast(g, rank, l, order, st, pkt);
    }
  }

  lemma {:induction false} SimulatesLast(g: Graph, rank: map<Block, nat>, l: Longs, order: seq<Block>, st: State, pkt: Packet)
    requires Dag(g, rank) && Ordered(g, order) && AllFit(g, l, order) && order != []
    requires (forall b | b in order :: b in g) && Total(g, l, order) < TWO_TO_THE_32
    ensures Machine.Run(Assemble(g, l, order), 0, st, pkt) == Flowgraph.Run(g, rank, order[|order| - 1], st, pkt)
    decreases |order|, 0
  {
    hide Machine.Run, Decide, ExecAll, Emit, Assemble;
    RunLast(g, l, order, st, pkt);
    var n := g[order[|order| - 1]];
    var r := ExecAll(n.stmts, st, pkt);
    if r.Next? && n.s.Jmp? {
      Simulates(g, rank, l, order[..|order| - 1], n.Succ(Decide(n.s, r.st)), r.st, pkt);
    }
  }

  lemma RunFront(g: Graph, l: Longs, order: seq<Block>, b: Block, st: State, pkt: Packet)
    requires Ordered(g, order) && AllFit(g, l, order) && (forall b | b in order :: b in g)
    requires b in order && b != order[|order| - 1]
    ensures var front := order[..|order| - 1];
            Machine.Run(Assemble(g, l, order), Offset(g, l, order, b), st, pkt) ==
            Machine.Run(Assemble(g, l, front), Offset(g, l, front, b), st, pkt)
  {
    hide Machine.Run, Emit;
    var front := order[..|order| - 1];
    RunSuffix(Emit(g, l, order), Assemble(g, l, front), Offset(g, l, front, b), st, pkt);
  }

  // ----- Long jumps -----

  ghost function WithLong(l: Longs, b: Block, sense: bool): Longs {
    if sense then l.(jt := l.jt + {b}) else l.(jf := l.jf + {b})
  }

  ghost predicate HasLong(l: Longs, b: Block, sense: bool) {
    b in (if sense then l.jt else l.jf)
  }

  ghost predicate Extends(l: Longs, l': Longs) { l.jt <= l'.jt && l.jf <= l'.jf }

  /** Giving branches long jumps never brings two blocks closer together. */
  lemma {:induction false} OffsetGrows(g: Graph, l: Longs, l': Longs, order: seq<Block>, b: Block)
    requires b in order && (forall b | b in order :: b in g) && Extends(l, l')
    ensures Offset(g, l, order, b) <= Offset(g, l', order, b)
  {
    if b != order[|order| - 1] {
      OffsetGrows(g, l, l', order[..|order| - 1], b);
    }
  }

  /** The branches with long jumps are exactly ones that, in this order, need them. */
  ghost predicate Justified(g: Graph, l: Longs, order: seq<Block>)
    requires Ordered(g, order)
  {
    order == [] || (
      InGraph(g, order);
      var b, front := order[|order| - 1], order[..|order| - 1];
      && (forall s | HasLong(l, b, s) :: g[b].s.Jmp? && Distance(g, l, order, g[b].Succ(s)) >= 256)
      && Justified(g, l, front))
  }

  /** Long jumps that were needed stay needed when more are given. */
  lemma {:induction false} JustifiedGrows(g: Graph, l: Longs, order: seq<Block>, b: Block, sense: bool, prefix: seq<Block>)
    requires Ordered(g, order) && Justified(g, l, order) && Distinct(order) && prefix + [b] <= order
    requires Ordered(g, prefix + [b]) && (forall b' | b' in prefix + [b] :: b' in g)
    requires g[b].s.Jmp? && g[b].Succ(sense) in prefix && Distance(g, l, prefix + [b], g[b].Succ(sense)) >= 256
    ensures Justified(g, WithLong(l, b, sense), order)
  {
    var l' := WithLong(l, b, sense);
    if order != [] {
      InGraph(g, order);
      var c, front := order[|order| - 1], order[..|order| - 1];
      if c == b {
        LastIsPrefix(order, prefix, b);
        JustifiedElsewhere(g, l, front, b, sense);
      } else {
        JustifiedGrows(g, l, front, b, sense, prefix);
      }
      forall s | HasLong(l', c, s)
        ensures g[c].s.Jmp? && Distance(g, l', order, g[c].Succ(s)) >= 256
      {
        if HasLong(l, c, s) {
          assert Distance(g, l, order, g[c].Succ(s)) >= 256;
        }
        OffsetGrows(g, l, l', front, g[c].Succ(s));
      }
    }
  }

  lemma LastIsPrefix(order: seq<Block>, prefix: seq<Block>, b: Block)
    requires Distinct(order) && prefix + [b] <= order && order[|order| - 1] == b
    ensures order == prefix + [b]
  {
    assert order[|prefix|] == b;
    var front := order[..|order| - 1];
    assert forall i | 0 <= i < |front| :: front[i] == order[i] != b;
  }

  lemma {:induction false} JustifiedElsewhere(g: Graph, l: Longs, order: seq<Block>, b: Block, sense: bool)
    requires Ordered(g, order) && Justified(g, l, order) && b !in order
    ensures Justified(g, WithLong(l, b, sense), order)
  {
    var l' := WithLong(l, b, sense);
    if order != [] {
      InGraph(g, order);
      var c, front := order[|order| - 1], order[..|order| - 1];
      JustifiedElsewhere(g, l, front, b, sense);
      forall s | HasLong(l', c, s)
        ensures g[c].s.Jmp? && Distance(g, l', order, g[c].Succ(s)) >= 256
      {
        assert HasLong(l, c, s);
        OffsetGrows(g, l, l', front, g[c].Succ(s));
      }
    }
  }

  /** A block whose long jumps are all needed has no unfilled slot. */
  lemma NoUnfilledSlot(g: Graph, l: Longs, order: seq<Block>)
    requires order != [] && Ordered(g, order) && Fits(g, l, order) && Justified(g, l, order)
    ensures order[|order| - 1] in g
    ensures Emit(g, l, order) == Codes(Live(g[order[|order| - 1]].stmts)) + Branching(g, l, order)
  {
    InGraph(g, order);
    var b := order[|order| - 1];
    assert HasLong(l, b, true) <==> b in l.jt;
    assert HasLong(l, b, false) <==> b in l.jf;
  }

  // ----- Counting -----

  ghost function Remove(s: seq<Block>, b: Block): (r: seq<Block>)
    requires b in s
    ensures forall x | x in r :: x in s
  {
    var c, front := s[|s| - 1], s[..|s| - 1];
    if c == b then front else Remove(front, b) + [c]
  }

  lemma DistinctMore(s: seq<Block>, b: Block)
    requires Distinct(s) && b !in s
    ensures Distinct(s + [b])
  {
  }

  lemma {:induction false} RemoveTotal(g: Graph, l: Longs, s: seq<Block>, b: Block)
    requires Distinct(s) && b in s && forall x | x in s :: x in g
    ensures Distinct(Remove(s, b)) && Elements(Remove(s, b)) == Elements(s) - {b}
    ensures Total(g, l, s) == Total(g, l, Remove(s, b)) + Size(g, l, b)
  {
    var c, front := s[|s| - 1], s[..|s| - 1];
    ElementsFront(s);
    hide Elements, Size;
    if c != b {
      RemoveTotal(g, l, front, b);
      var r := Remove(front, b);
      assert Remove(s, b) == r + [c] && (r + [c])[..|r|] == r;
      DistinctMore(r, c);
      ElementsFront(r + [c]);
    }
  }

  lemma ElementsFront(s: seq<Block>)
    requires s != []
    ensures Elements(s) == Elements(s[..|s| - 1]) + {s[|s| - 1]}
  {
    assert s == s[..|s| - 1] + [s[|s| - 1]];
  }

  /** The size of a program does not depend on the order its blocks are counted in. */
  lemma {:induction false} SameTotal(g: Graph, l: Longs, s: seq<Block>, t: seq<Block>)
    requires Distinct(s) && Distinct(t) && Elements(s) == Elements(t) && forall x | x in Elements(s) :: x in g
    ensures (forall x | x in s :: x in g) && forall x | x in t :: x in g
    ensures Total(g, l, s) == Total(g, l, t)
  {
    assert forall x :: x in s <==> x in Elements(s);
    assert forall x :: x in t <==> x in Elements(t);
    assert |t| > 0 ==> t[0] in Elements(t);
    if s != [] {
      var b, front := s[|s| - 1], s[..|s| - 1];
      assert s == front + [b];
      RemoveTotal(g, l, t, b);
      SameTotal(g, l, front, Remove(t, b));
    }
  }

  // ----- The validator accepts every layout -----

  /** The instruction is acceptable at the start of a program of the given length. */
  ghost predicate Good(insn: Insn, len: nat) {
    && InsnOk(insn, 0, len)
    && Decode(insn.code) != Unhandled
    && (Decode(insn.code) == Ja ==> 1 + insn.k < len)
  }

  ghost predicate AllGood(prog: Program) {
    prog == [] || (Good(prog[0], |prog|) && AllGood(prog[1..]))
  }

  lemma {:induction false} AllGoodAt(prog: Program, i: nat)
    requires AllGood(prog) && i < |prog| < TWO_TO_THE_32
    ensures InsnOk(prog[i], i, |prog|) && Decode(prog[i].code) != Unhandled
    ensures Decode(prog[i].code) == Ja ==> i + 1 + prog[i].k < TWO_TO_THE_32
  {
    if i > 0 {
      AllGoodAt(prog[1..], i - 1);
      DecodeClass(prog[i].code);
      JumpClass(prog[i].code);
    }
  }

  lemma JumpClass(code: Code)
    ensures Class(code) == JMP && OpField(code) == 0 && Decode(code) != Unhandled ==> Decode(code) == Ja
  {
  }

  lemma StatementGood(s: Stmt, len: nat)
    requires !s.op.Nop? && InScratch(s)
    ensures var insn := Insn(OpCode(s.op), 0, 0, s.k);
            Good(insn, len)
  {
    DecodeOpCode(s.op);
    OpClass(s.op);
  }

  lemma OpClass(op: Op)
    requires !op.Nop?
    ensures var c := OpCode(op);
            && Class(c) != JMP && Class(c) != RET
            && ((Class(c) == LD || Class(c) == LDX) ==> Mode(c) <= MSH && (Mode(c) == MEM ==> op.LdMem? || op.LdxMem?))
            && ((Class(c) == ST || Class(c) == STX) ==> op.St? || op.Stx?)
            && (Class(c) == ALU ==> OpField(c) <= 0x80 && (OpField(c) == AluField(Div) ==> RVal(c) != 0))
  {
    match op
    case LdAbs(s) => match s { case W => case H => case B => }
    case LdInd(s) => match s { case W => case H => case B => }
    case Alu(a, src) =>
      match a {
        case Add => case Sub => case Mul => case Div =>
        case Or => case And => case Lsh => case Rsh =>
      }
    case _ =>
  }

  lemma ConsGood(insn: Insn, y: Program)
    requires AllGood(y) && Good(insn, 1 + |y|)
    ensures AllGood([insn] + y)
  {
    assert ([insn] + y)[1..] == y;
  }

  lemma {:induction false} CodesGood(ss: seq<Stmt>, y: Program)
    requires AllGood(y)
    requires forall s | s in ss :: !s.op.Nop? && InScratch(s)
    ensures AllGood(Codes(ss) + y)
  {
    hide AllGood, Good;
    if ss == [] {
      assert Codes(ss) + y == y;
    } else {
      var rest := Codes(ss[1..]) + y;
      CodesGood(ss[1..], y);
      StatementGood(ss[0], 1 + |rest|);
      ConsGood(Insn(OpCode(ss[0].op), 0, 0, ss[0].k), rest);
      assert Codes(ss) + y == [Insn(OpCode(ss[0].op), 0, 0, ss[0].k)] + rest;
    }
  }

  lemma {:induction false} ZerosGood(n: int, y: Program)
    requires AllGood(y)
    ensures AllGood(Zeros(n) + y)
  {
    assert Good(ZERO, 1 + |Zeros(n - 1) + y|);
    hide AllGood, Good;
    if n <= 0 {
      assert Zeros(n) + y == y;
    } else {
      ZerosGood(n - 1, y);
      ConsGood(ZERO, Zeros(n - 1) + y);
      assert Zeros(n) + y == [ZERO] + (Zeros(n - 1) + y);
    }
  }

  lemma LongJumpGood(d: nat, n: nat, len: nat)
    requires d >= 256 && 1 <= n <= 2 && d - n + 1 < len < TWO_TO_THE_32
    ensures Good(LongJump(d, n), len)
  {
  }

  lemma BranchGood(s: Branch, dt: nat, df: nat, y: Program)
    requires AllGood(y)
    requires s.Jmp? ==> 1 + dt < |BranchCode(s, dt, df) + y| < TWO_TO_THE_32 && 1 + df < |BranchCode(s, dt, df) + y|
    ensures AllGood(BranchCode(s, dt, df) + y)
  {
    hide AllGood;
    var code := BranchCode(s, dt, df);
    match s
    case Ret(k) =>
      ConsGood(Insn(RET, 0, 0, k), y);
    case Jmp(test, src, _) =>
      var y1 := code[1..] + y;
      JumpsGood(code[1..], dt, df, y);
      TestGood(test, src, code[0], 1 + |y1|);
      ConsGood(code[0], y1);
      assert code + y == [code[0]] + y1;
  }

  lemma TestGood(test: Test, src: Operand, insn: Insn, len: nat)
    requires insn.code == TestCode(test, src) && 1 + insn.jt < len && 1 + insn.jf < len
    ensures Good(insn, len)
  {
    DecodeTestCode(test, src);
    match test { case JEQ => case JGT => case JGE => case JSET => }
  }

  lemma JumpsGood(jumps: Program, dt: nat, df: nat, y: Program)
    requires AllGood(y) && 1 + dt < |jumps| + 1 + |y| < TWO_TO_THE_32 && 1 + df < |jumps| + 1 + |y|
    requires jumps == (if dt >= 256 then [LongJump(dt, 1)] else []) +
                      (if df >= 256 then [LongJump(df, if dt >= 256 then 2 else 1)] else [])
    ensures AllGood(jumps + y)
  {
    hide AllGood, Good;
    var y1 := y;
    if df >= 256 {
      LongJumpGood(df, |jumps|, 1 + |y|);
      ConsGood(LongJump(df, |jumps|), y);
      y1 := [LongJump(df, |jumps|)] + y;
    }
    if dt >= 256 {
      LongJumpGood(dt, 1, 1 + |y1|);
      ConsGood(LongJump(dt, 1), y1);
      assert jumps + y == [LongJump(dt, 1)] + y1;
    } else {
      assert jumps + y == y1;
    }
  }

  lemma {:induction false} AssembleGood(g: Graph, l: Longs, order: seq<Block>)
    requires Ordered(g, order) && AllFit(g, l, order) && GoodScratch(g)
    requires (forall b | b in order :: b in g) && Total(g, l, order) < TWO_TO_THE_32
    ensures AllGood(Assemble(g, l, order))
  {
    if order != [] {
      hide Branching, BranchCode, Live, AllGood, Fits;
      var front := order[..|order| - 1];
      AssembleGood(g, l, front);
      AssembleLength(g, l, front);
      EmitGood(g, l, order, Assemble(g, l, front));
    }
  }

  lemma EmitGood(g: Graph, l: Longs, order: seq<Block>, rest: Program)
    requires order != [] && Ordered(g, order) && Fits(g, l, order) && GoodScratch(g)
    requires (forall b | b in order :: b in g) && Total(g, l, order) < TWO_TO_THE_32
    requires AllGood(rest) && |rest| == Total(g, l, order[..|order| - 1])
    ensures AllGood(Emit(g, l, order) + rest)
  {
    hide Branching, BranchCode, AllGood;
    var b := order[|order| - 1];
    var codes, branch := Codes(Live(g[b].stmts)), Branching(g, l, order);
    var pad := Zeros(Size(g, l, b) - |codes + branch|);
    assert Emit(g, l, order) == codes + branch + pad;
    Append4(codes, branch, pad, rest);
    ZerosGood(Size(g, l, b) - |codes + branch|, rest);
    BranchingGood(g, l, order, pad + rest);
    CodesGood(Live(g[b].stmts), branch + (pad + rest));
  }

  lemma BranchingGood(g: Graph, l: Longs, order: seq<Block>, y: Program)
    requires order != [] && Ordered(g, order) && (forall b | b in order :: b in g) && AllGood(y)
    requires var b := order[|order| - 1];
             |Live(g[b].stmts)| + |Branching(g, l, order) + y| == Total(g, l, order) < TWO_TO_THE_32
    ensures AllGood(Branching(g, l, order) + y)
  {
    hide AllGood, Live, BranchCode;
    var b, front := order[|order| - 1], order[..|order| - 1];
    if g[b].s.Ret? {
      BranchGood(g[b].s, 0, 0, y);
    } else {
      OffsetBound(g, l, front, g[b].jt);
      OffsetBound(g, l, front, g[b].jf);
      BranchGood(g[b].s, Distance(g, l, order, g[b].jt), Distance(g, l, order, g[b].jf), y);
    }
  }

  /** The first block visited is a leaf without long jumps: the program ends with its return. */
  lemma {:induction false} AssembleEnds(g: Graph, l: Longs, order: seq<Block>)
    requires order != [] && Ordered(g, order) && AllFit(g, l, order) && Justified(g, l, order)
    ensures var prog := Assemble(g, l, order);
            prog != [] && Class(prog[|prog| - 1].code) == RET
  {
    InGraph(g, order);
    var front := order[..|order| - 1];
    if front != [] {
      AssembleEnds(g, l, front);
    } else {
      NoUnfilledSlot(g, l, order);
    }
  }

  /** Every layout of a well-formed graph passes the validator, and then runs safely. */
  lemma LayoutAccepted(g: Graph, l: Longs, order: seq<Block>)
    requires order != [] && Ordered(g, order) && AllFit(g, l, order) && Justified(g, l, order) && GoodScratch(g)
    requires (forall b | b in order :: b in g) && Total(g, l, order) < TWO_TO_THE_32
    ensures var prog := Assemble(g, l, order); Accepts(prog) && Handled(prog) && NoWrap(prog)
  {
    var prog := Assemble(g, l, order);
    AssembleGood(g, l, order);
    AssembleLength(g, l, order);
    AssembleEnds(g, l, order);
    forall i | 0 <= i < |prog|
      ensures InsnOk(prog[i], i, |prog|) && Decode(prog[i].code) != Unhandled
      ensures Decode(prog[i].code) == Ja ==> i + 1 + prog[i].k < TWO_TO_THE_32
    {
      AllGoodAt(prog, i);
    }
  }
}
