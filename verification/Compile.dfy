/** The compiler without its optimiser, end to end: expression, flow graph, program, interpreter. */
module Compile {
  import opened Words
  import opened Ir
  import opened Flowgraph
  import opened Liveness
  import opened Machine
  import B = Backpatch
  import opened Tests
  import opened Arithmetic
  import opened Layout
  import opened Flatten

  /** What the compiled filter must return. */
  function Answer(e: Filter, snaplen: Word, pkt: Packet): Outcome {
    match Evaluate(e, pkt)
    case True => Returned(snaplen)
    case False => Returned(0)
    case Rejects => Returned(0)
    case Faults => Undefined
  }

  // ----- When the answer is not defined -----

  /** The offsets and sizes of the loads that evaluating an arithmetic expression makes. */
  ghost function LoadsOf(e: Expr, pkt: Packet): set<(Word, Size)> {
    match e
    case Const(_) => {}
    case Len => {}
    case LinkLoad(index, size) =>
      LoadsOf(index, pkt) + if Eval(index, pkt).Val? then {(Wrap(Eval(index, pkt).w + OFF_LL), size)} else {}
    case Negate(e1) => LoadsOf(e1, pkt)
    case Binary(_, l, r) => LoadsOf(l, pkt) + if Eval(l, pkt).Val? then LoadsOf(r, pkt) else {}
  }

  /** Those of a filter expression; the loads of byte comparisons are at small offsets and are left out. */
  ghost function EvaluatedLoads(f: Filter, pkt: Packet): set<(Word, Size)> {
    match f
    case Ncmp(rel, offset, size, _, _, _, _) =>
      if Base(pkt, rel).Val? then {(Wrap(Base(pkt, rel).w + offset), size)} else {}
    case Bcmp(_, _, _) => {}
    case Relation(_, l, r, _) => LoadsOf(l, pkt) + if Eval(l, pkt).Val? then LoadsOf(r, pkt) else {}
    case Conj(f0, f1) => EvaluatedLoads(f0, pkt) + if Evaluate(f0, pkt).True? then EvaluatedLoads(f1, pkt) else {}
    case Disj(f0, f1) => EvaluatedLoads(f0, pkt) + if Evaluate(f0, pkt).False? then EvaluatedLoads(f1, pkt) else {}
    case Neg(f0) => EvaluatedLoads(f0, pkt)
  }

  ghost predicate SomeOverruns(loads: set<(Word, Size)>, pkt: Packet) {
    exists o | o in loads :: Overruns(o.0, o.1, |pkt.data|)
  }

  lemma OverrunsOfBoth(a: set<(Word, Size)>, b: set<(Word, Size)>, pkt: Packet)
    ensures SomeOverruns(a + b, pkt) <==> SomeOverruns(a, pkt) || SomeOverruns(b, pkt)
  {
  }

  lemma {:induction false} ExprFaults(e: Expr, pkt: Packet)
    ensures Eval(e, pkt).Faulted? <==> SomeOverruns(LoadsOf(e, pkt), pkt)
  {
    match e
    case Const(_) =>
    case Len =>
    case LinkLoad(index, size) =>
      ExprFaults(index, pkt);
      if Eval(index, pkt).Val? {
        var o := (Wrap(Eval(index, pkt).w + OFF_LL), size);
        OverrunsOfBoth(LoadsOf(index, pkt), {o}, pkt);
        OverrunsOfOne(o, pkt);
      }
    case Negate(e1) => ExprFaults(e1, pkt);
    case Binary(_, l, r) =>
      ExprFaults(l, pkt);
      ExprFaults(r, pkt);
      OverrunsOfBoth(LoadsOf(l, pkt), LoadsOf(r, pkt), pkt);
  }

  lemma OverrunsOfOne(o: (Word, Size), pkt: Packet)
    ensures SomeOverruns({o}, pkt) <==> Load(pkt, o.0, o.1).Faulted?
  {
    assert SomeOverruns({o}, pkt) <==> Overruns(o.0, o.1, |pkt.data|) by {
      if Overruns(o.0, o.1, |pkt.data|) {
        assert o in {o};
      }
    }
  }

  /** The answer is undefined exactly when evaluating the expression makes a load whose range test wraps. */
  lemma {:induction false} UndefinedIff(f: Filter, pkt: Packet)
    requires WellFormed(f)
    ensures Evaluate(f, pkt).Faults? <==> SomeOverruns(EvaluatedLoads(f, pkt), pkt)
  {
    match f
    case Ncmp(rel, offset, size, _, _, _, _) =>
      BaseDoesNotFault(pkt, rel);
      if Base(pkt, rel).Val? {
        OverrunsOfOne((Wrap(Base(pkt, rel).w + offset), size), pkt);
      }
    case Bcmp(_, _, _) =>
    case Relation(_, l, r, _) =>
      ExprFaults(l, pkt);
      ExprFaults(r, pkt);
      OverrunsOfBoth(LoadsOf(l, pkt), LoadsOf(r, pkt), pkt);
    case Conj(f0, f1) =>
      UndefinedIff(f0, pkt);
      UndefinedIff(f1, pkt);
      OverrunsOfBoth(EvaluatedLoads(f0, pkt), EvaluatedLoads(f1, pkt), pkt);
    case Disj(f0, f1) =>
      UndefinedIff(f0, pkt);
      UndefinedIff(f1, pkt);
      OverrunsOfBoth(EvaluatedLoads(f0, pkt), EvaluatedLoads(f1, pkt), pkt);
    case Neg(f0) => UndefinedIff(f0, pkt);
  }

  /** Where every evaluated offset is below 2^31, the answer is defined. */
  lemma LowOffsetsDefined(f: Filter, snaplen: Word, pkt: Packet)
    requires WellFormed(f) && forall o | o in EvaluatedLoads(f, pkt) :: o.0 < 0x8000_0000
    ensures Answer(f, snaplen, pkt) == Returned(if Evaluate(f, pkt).True? then snaplen else 0)
  {
    UndefinedIff(f, pkt);
  }

  /** ether[0 - 4 : 4] >= 0, which is undefined on every packet. */
  const WRAPPING: Filter := Relation(JGE, LinkLoad(Binary(Sub, Const(0), Const(4)), W), Const(0), false)

  lemma WrappingIsUndefined(snaplen: Word, pkt: Packet)
    ensures WellFormed(WRAPPING) && Enough({}, WRAPPING) && Answer(WRAPPING, snaplen, pkt) == Undefined
  {
    var index := Binary(Sub, Const(0), Const(4));
    assert Eval(index, pkt) == Val(0xffff_fffc);
    assert Overruns(0xffff_fffc, W, |pkt.data|);
    assert Eval(LinkLoad(index, W), pkt) == Faulted;
  }

  // ----- The compiler -----

  /** From any scratch memory, on any packet, the program does what the expression says. */
  ghost predicate Decides(prog: Program, e: Filter, snaplen: Word) {
    forall st, pkt :: Machine.Run(prog, 0, st, pkt) == Answer(e, snaplen, pkt)
  }

  /** A graph whose runs from root return what the expression says. */
  ghost predicate GraphDecides(g: Graph, rank: map<Block, nat>, root: Block, e: Filter, snaplen: Word)
    requires Dag(g, rank) && root in g
  {
    forall st, pkt :: Flowgraph.Run(g, rank, root, st, pkt) == Answer(e, snaplen, pkt)
  }

  lemma FinishedDecides(f: B.Fragment, yes: Block, no: Block, e: Filter, snaplen: Word)
    requires Tests.Decides(f, Meaning(e)) && yes !in f.nodes && no !in f.nodes && yes != no
    ensures var g, rank := B.Finished(f, yes, no, snaplen), B.FinishedRank(f, yes, no);
            Dag(g, rank) && f.head in g && GraphDecides(g, rank, f.head, e, snaplen) && GoodScratch(g)
            && Contained(g, g.Keys) && AllQuiet(g, g.Keys)
  {
    var g, rank := B.Finished(f, yes, no, snaplen), B.FinishedRank(f, yes, no);
    B.FinishedDag(f, yes, no, snaplen);
    forall st, pkt
      ensures Flowgraph.Run(g, rank, f.head, st, pkt) == Answer(e, snaplen, pkt)
    {
      B.RunFinished(f, yes, no, snaplen, f.head, st, pkt);
      assert Agrees(B.Follow(f, f.head, st, pkt), Meaning(e)(pkt));
    }
    FinishedScratch(f, yes, no, snaplen);
  }

  lemma FinishedScratch(f: B.Fragment, yes: Block, no: Block, snaplen: Word)
    requires Sound(f) && yes !in f.nodes && no !in f.nodes && yes != no
    ensures var g := B.Finished(f, yes, no, snaplen); GoodScratch(g) && Contained(g, g.Keys) && AllQuiet(g, g.Keys)
  {
    var g := B.Finished(f, yes, no, snaplen);
    forall b | b in g
      ensures Tame(g[b].stmts) && SelfContained(g[b].stmts, g[b].s) && Quiet(g[b].stmts)
    {
      if b in f.nodes {
        assert Tame(f.nodes[b].stmts) && g[b].stmts == f.nodes[b].stmts && g[b].s == f.nodes[b].s;
      } else {
        assert g[b].stmts == [] && BranchUse(g[b].s) == {};
      }
      YieldsContained(g[b].stmts, g[b].s);
    }
  }

  /** What icode_to_fcode lays out means what the graph means, and passes the validator. */
  lemma FlattenedDecides(g: Graph, rank: map<Block, nat>, root: Block, l: Longs, e: Filter, snaplen: Word)
    requires Dag(g, rank) && root in g && GraphDecides(g, rank, root, e, snaplen) && GoodScratch(g)
    requires var order := Visit(g, rank, root, {}, false); Arranged(g, l, order) && Justified(g, l, order)
    requires var prog := Assemble(g, l, Visit(g, rank, root, {}, false)); |prog| < TWO_TO_THE_32
    ensures var prog := Assemble(g, l, Visit(g, rank, root, {}, false));
            Decides(prog, e, snaplen) && Accepts(prog) && Handled(prog) && NoWrap(prog)
  {
    hide Machine.Run, Flowgraph.Run, Distinct, Ordered, AllFit, Assemble, Accepts, Handled, NoWrap, Justified, Evaluate;
    var order := Visit(g, rank, root, {}, false);
    var prog := Assemble(g, l, order);
    AssembleLength(g, l, order);
    RootLast(g, rank, root, l);
    LayoutAccepted(g, l, order);
    forall st, pkt
      ensures Machine.Run(prog, 0, st, pkt) == Answer(e, snaplen, pkt)
    {
      Simulates(g, rank, l, order, root, st, pkt);
    }
  }

  lemma RootLast(g: Graph, rank: map<Block, nat>, root: Block, l: Longs)
    requires Dag(g, rank) && root in g
    ensures var order := Visit(g, rank, root, {}, false);
      && root in order && (forall b | b in order :: b in g) && order != [] && order[|order| - 1] == root
      && Offset(g, l, order, root) == 0
  {
  }

  /**
   * Compile an expression and lay the result out. Null exactly when an arithmetic expression needs
   * more scratch registers than are free. The program returns snaplen on the packets for which the
   * expression is true, and zero on the others for which it is defined; the validator accepts it.
   */
  method CompileFilter(regs: Registers, e: Filter, snaplen: Word) returns (fcode: Flattener?)
    requires regs.Valid() && WellFormed(e)
    modifies regs`curreg, regs.regused
    ensures regs.Valid() && (fcode != null ==> fresh(fcode))
    ensures fcode != null <==> Enough(old(regs.Used()), e)
    ensures fcode != null && fcode.code.Length < TWO_TO_THE_32 ==>
      var prog := fcode.code[..];
      Decides(prog, e, snaplen) && Accepts(prog) && Handled(prog) && NoWrap(prog)
  {
    var p;
    ghost var f;
    p, f := Generate(regs, e);
    if p == null { return null; }
    fcode := Finish(p, snaplen, f.value, e);
  }

  lemma NoLongs(blocks: set<Block>)
    requires Blank(blocks)
    ensures ReadLongs(blocks) == Longs({}, {})
  {
  }

  /** finish_parse, then icode_to_fcode. */
  method Finish(p: Block, snaplen: Word, ghost f: B.Fragment, ghost e: Filter) returns (fcode: Flattener)
    requires Built(p, f, Meaning(e))
    modifies f.nodes.Keys
    ensures fresh(fcode)
    ensures fcode.code.Length < TWO_TO_THE_32 ==>
      var prog := fcode.code[..];
      Decides(prog, e, snaplen) && Accepts(prog) && Handled(prog) && NoWrap(prog)
  {
    hide Accepts, Handled, NoWrap, Tests.Decides, Decides, Visit, Built, Snap, B.Memory, B.Holds, Dag, B.Finished, B.FinishedRank, GoodScratch, Assemble;
    Unpack(p, f, Meaning(e));
    ghost var yes, no;
    var root;
    root, yes, no := B.FinishParse(p, snaplen, f);
    ghost var blocks, rank := f.nodes.Keys + {yes, no}, B.FinishedRank(f, yes, no);
    FinishedDecides(f, yes, no, e, snaplen);
    assert Blank(blocks);
    hide GraphDecides;
    fcode := Flattened(root, blocks, rank, snaplen, e);
  }

  /** icode_to_fcode on a graph that decides the expression. */
  method Flattened(root: Block, ghost blocks: set<Block>, ghost rank: map<Block, nat>, snaplen: Word, ghost e: Filter) returns (fcode: Flattener)
    requires Dag(Snap(blocks), rank) && Blank(blocks) && root in Snap(blocks)
    requires GraphDecides(Snap(blocks), rank, root, e, snaplen) && GoodScratch(Snap(blocks))
    modifies blocks
    ensures fresh(fcode)
    ensures fcode.code.Length < TWO_TO_THE_32 ==>
      var prog := fcode.code[..];
      Decides(prog, e, snaplen) && Accepts(prog) && Handled(prog) && NoWrap(prog)
  {
    hide Accepts, Handled, NoWrap, Decides, Visit, Dag, GraphDecides, GoodScratch, Assemble;
    NoLongs(blocks);
    fcode := new Flattener(blocks, rank);
    ghost var passes := fcode.IcodeToFcode(root);
    if fcode.code.Length < TWO_TO_THE_32 {
      FlattenedDecides(fcode.g, rank, root, ReadLongs(blocks), e, snaplen);
    }
  }
}
