/**
 A function that returns a value on one path only. No return is added to it, because it has one; so the block behind its
 `if` is empty, is led to, and leads nowhere, and is removed all the same.
 */
module MissingReturns {
  import opened Options
  import opened Ir
  import opened PopPoints
  import opened Simplify
  import opened SimplifyPaths
  import opened Simplifiers
  import opened Syntax
  import opened CodeGen
  import opened GeneratedFlow
  import opened TailConditionals

  const ReturningIf := If(Literal("true"), [ReturnValue(Literal("1"))], NoElse)

  /** `if true { return 1; }` */
  const HalfBody: seq<Stmt> := [ReturningIf]

  const Returning := Block([Use(1, Constant("1"), []), Return(Some(1))], Some(1), None)

  const HalfBlocks: seq<Block> := [To(2), Empty, Block2, Returning, Empty, To(4)]

  const HalfOrder: seq<BlockId> := [0, 2, 3, 5, 4, 1]

  // ----- the graph of the body -----

  lemma BehindReturn(st: Gen)
    requires Looks(st, [To(2), Empty, Block2, Empty, Empty], [0, 2, 3], 1)
    ensures var (r, c) := GenStmts(st, [ReturnValue(Literal("1"))], 3);
            c == 5 && Looks(r, [To(2), Empty, Block2, Returning, Empty, Empty], [0, 2, 3, 5], 2)
  {
    hide GenStmts, GenReturn;
    OneStatement(st, ReturnValue(Literal("1")), 3);
    ReturnIsAsSaid(st, 3);
    ReturnOfLiteral(st, "1", 3);
    assert Empty.insns + [Use(1, Constant("1"), []), Return(Some(1))] == Returning.insns;
    assert [To(2), Empty, Block2, Empty, Empty][3 := Returning] + [Empty]
        == [To(2), Empty, Block2, Returning, Empty, Empty];
    assert [0, 2, 3] + [5] == [0, 2, 3, 5];
  }

  lemma ReturnIsAsSaid(st: Gen, cur: BlockId)
    requires cur < |st.blocks|
    ensures GenStmt(st, ReturnValue(Literal("1")), cur) == GenReturn(st, Literal("1"), cur)
    ensures GenReturn(st, Literal("1"), cur).1 == |st.blocks|
  {
  }

  lemma BehindReturningIf(st: Gen)
    requires Looks(st, [To(2), Empty, Empty], [0, 2], 0)
    ensures var (r, c) := GenStmt(st, ReturningIf, 2); c == 4 && Looks(r, HalfBlocks, [0, 2, 3, 5, 4], 2)
  {
    hide GenStmts, GenCondition, GenYes;
    BehindOuterCondition(st);
    BehindReturn(AddBlock(GenCondition(st, Literal("true"), 2, false), 3));
    YesOf(st, ReturningIf, 2);
    assert [0, 2, 3, 5] + [4] == [0, 2, 3, 5, 4];
  }

  lemma HalfBodyIsGenerated()
    ensures var st := GenFunction([], HalfBody).0; st.Graph() == Graph(HalfBlocks, 0, 1) && st.Order() == HalfOrder
  {
    hide GenStmts, GenStmt;
    var st := AddParams(NewFunction(0), []);
    AtStart();
    OneStatement(st, ReturningIf, 2);
    BehindReturningIf(st);
    assert [0, 2, 3, 5, 4] + [1] == HalfOrder;
  }

  // ----- its flow -----

  ghost predicate IsHalfFlow(f: Flow) {
    f.g == Graph(HalfBlocks, 0, 1) && f.order == HalfOrder && Exact(f)
  }

  function Onwards(b: BlockId): set<BlockId> {
    if b == 0 then {2} else if b == 2 then {3, 4} else if b == 3 then {1} else if b == 5 then {4} else {}
  }

  ghost predicate HalfBlockIsRight(g: Graph, b: BlockId) {
    && b < |g.blocks| && WellFormedBlock(g.blocks[b]) && Succs(g.blocks[b]) == Onwards(b)
    && ValidSucc(g, g.blocks[b].succ0) && ValidSucc(g, g.blocks[b].succ1)
  }

  lemma HalfBlocksAreRight(g: Graph, b: BlockId)
    requires g.blocks == HalfBlocks && b < 6
    ensures HalfBlockIsRight(g, b)
  {
    if b == 2 {
      assert g.blocks[2].insns[1] == Branch(0, 3, 4);
    } else if b == 3 {
      assert g.blocks[3].insns[1] == Return(Some(1));
    }
  }

  lemma InHalfOrder(b: BlockId)
    ensures b in HalfOrder <==> b < 6
  {
    var order := HalfOrder;
    assert order[0] == 0 && order[1] == 2 && order[2] == 3 && order[3] == 5 && order[4] == 4 && order[5] == 1;
  }

  lemma HalfGraphIsWellFormed(g: Graph)
    requires g == Graph(HalfBlocks, 0, 1) && forall b: BlockId | b < 6 :: HalfBlockIsRight(g, b)
    ensures WellFormed(g) && |g.blocks| == 6
  {
    hide WellFormedBlock, ValidSucc, Succs;
    assert |g.blocks| == 6;
    forall b: BlockId | b < 6
      ensures WellFormedBlock(g.blocks[b]) && ValidSucc(g, g.blocks[b].succ0) && ValidSucc(g, g.blocks[b].succ1)
    {
      assert HalfBlockIsRight(g, b);
    }
  }

  lemma HalfFlowIsLinked(f: Flow)
    requires IsHalfFlow(f)
    ensures Linked(f)
  {
    hide WellFormed, Succs, Exact;
    forall b: BlockId ensures b in f.order <==> b < 6 {
      InHalfOrder(b);
    }
    forall b: BlockId | b < 6 ensures HalfBlockIsRight(f.g, b) {
      HalfBlocksAreRight(f.g, b);
    }
    HalfGraphIsWellFormed(f.g);
    assert HalfBlockIsRight(f.g, 1);
    forall a, s: BlockId | a in f.order && s in Succs(f.g.blocks[a]) ensures s in f.order {
      assert HalfBlockIsRight(f.g, a) && s in Onwards(a);
    }
  }

  lemma HalfEmptyOnes(f: Flow)
    requires IsHalfFlow(f)
    ensures EmptyOnes(f.g, f.order) == [5, 4]
  {
    hide EmptyOnes, Exact;
    NoneAreEmpty(f.g, f.order, 3);
    EmptyOnesNext(f.g, f.order, 3);
    EmptyOnesNext(f.g, f.order, 4);
    EmptyOnesNext(f.g, f.order, 5);
    assert f.order[..6] == f.order;
  }

  // ----- the removal -----

  lemma LedTo(f: Flow, b: BlockId, a: BlockId)
    requires IsHalfFlow(f) && b < 6
    ensures a in PredsOf(f, b) <==> a < 6 && b in Onwards(a)
  {
    hide Succs;
    InHalfOrder(b);
    InHalfOrder(a);
    if a < 6 { HalfBlocksAreRight(f.g, a); }
    assert ExactAt(f, b, a);
  }

  /** The dead block behind the return can be removed. */
  lemma DeadIsRemoved(f: Flow)
    requires IsHalfFlow(f)
    ensures Removable(f, 5) && PredsOf(f, 5) == []
    ensures RemoveOne(f, 5).g == Graph(HalfBlocks[5 := Empty], 0, 1)
  {
    hide Exact;
    InHalfOrder(5);
    var ps := PredsOf(f, 5);
    FirstIsIn(ps);
    forall a ensures a !in ps {
      LedTo(f, 5, a);
    }
    assert Redirected(f.g.blocks, ps, 5, Some(4)) == f.g.blocks;
  }

  /**
   The block behind the `if` is next. It is led to and leads nowhere: without it the condition still refers to it,
     and the
   flow is not linked any more.
   */
  lemma JoinIsMissed(f: Flow)
    requires FlowOf(GenFunction([], HalfBody).0, f)
    ensures Linked(f) && EmptyOnes(f.g, f.order) == [5, 4] && Removable(f, 5)
    ensures var q := RemoveOne(f, 5);
            var r := RemoveOne(q, 4);
            && Linked(q) && IsEmpty(q, 4) && 4 in q.order && PredsOf(q, 4) != [] && Onward(q.g.blocks[4]) == None
            && !Linked(r) && 4 in Succs(r.g.blocks[2]) && 2 in r.order && 4 !in r.order
  {
    hide GenFunction, Exact, EmptyOnes, Linked;
    HalfBodyIsGenerated();
    assert IsHalfFlow(f);
    HalfFlowIsLinked(f);
    HalfEmptyOnes(f);
    DeadIsRemoved(f);
    RemoveOneLinked(f, 5);
    var q := RemoveOne(f, 5);
    LeftOrder(f, q);
    StillLedTo(q);
    RemovableExactly(q, 4);
  }

  lemma LeftOrder(f: Flow, q: Flow)
    requires IsHalfFlow(f) && q == RemoveOne(f, 5)
    ensures 4 in q.order && 2 in q.order
  {
    InHalfOrder(4);
    InHalfOrder(2);
  }

  lemma StillLedTo(q: Flow)
    requires Linked(q) && q.g == Graph(HalfBlocks[5 := Empty], 0, 1) && 2 in q.order && 4 in q.order
    ensures 2 in PredsOf(q, 4) && Succs(q.g.blocks[2]) == {3, 4} && 4 in Succs(RemoveOne(q, 4).g.blocks[2])
  {
    assert ExactAt(q, 4, 2);
  }

  lemma TwoAreRemoved(tr: seq<Flow>)
    requires Trace([5, 4], tr)
    ensures Removed(tr[0], 5, tr[1]) && Removed(tr[1], 4, tr[2])
  {
    assert RemovedAt([5, 4], tr, 0) && RemovedAt([5, 4], tr, 1);
  }

  /** So the empty blocks of the body cannot all be removed. */
  lemma CannotBeSimplified(f: Flow, tr: seq<Flow>)
    requires FlowOf(GenFunction([], HalfBody).0, f)
    ensures !(Trace(EmptyOnes(f.g, f.order), tr) && tr[0] == f)
  {
    hide GenFunction, RemoveOne, Linked, EmptyOnes, FlowOf;
    JoinIsMissed(f);
    if Trace([5, 4], tr) {
      TwoAreRemoved(tr);
    }
  }

  /** Such a flow there is. */
  lemma HalfBodyHasFlow() returns (f: Flow)
    ensures FlowOf(GenFunction([], HalfBody).0, f)
  {
    hide GenFunction;
    HalfBodyIsGenerated();
    f := Flow(Graph(HalfBlocks, 0, 1), HalfOrder, map[1 := [3], 2 := [0], 3 := [2], 4 := [2, 5]]);
    HalfFlowIsExact(f);
  }

  lemma HalfPredsAre(f: Flow, b: BlockId, a: BlockId)
    requires f.preds == map[1 := [3], 2 := [0], 3 := [2], 4 := [2, 5]]
    ensures a in PredsOf(f, b) <==> a < 6 && b in Onwards(a)
  {
    assert [2, 5][0] == 2 && [2, 5][1] == 5;
  }

  lemma HalfFlowIsExact(f: Flow)
    requires f.g.blocks == HalfBlocks && f.order == HalfOrder
    requires f.preds == map[1 := [3], 2 := [0], 3 := [2], 4 := [2, 5]]
    ensures Exact(f)
  {
    hide Succs, Onwards, PredsOf;
    forall b: BlockId, a: BlockId ensures ExactAt(f, b, a) {
      InHalfOrder(a);
      HalfPredsAre(f, b, a);
      if a < 6 { HalfBlocksAreRight(f.g, a); }
    }
  }
}
