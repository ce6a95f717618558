/**
 A body whose stack is not balanced: an `if` without `else` ends a branch that has a local of its own. It is compiled
 here as any other body is, up to the analysis of pops.
 */
module TailConditionals {
  import opened Options
  import opened Ir
  import opened Paths
  import opened PopPoints
  import opened PopTheorems
  import opened PopLimits
  import opened Simplify
  import opened SimplifyPaths
  import opened Simplifiers
  import opened Syntax
  import opened CodeGen
  import opened GeneratedCode
  import opened GeneratedFlow
  import opened Compiler
  import Generators

  const InnerIf := If(Literal("true"), [AssertThat(Literal("true"))], NoElse)
  const OuterIf := If(Literal("true"), [Let(0, Literal("0")), InnerIf], NoElse)

  /** `if true { let x = 0; if true { assert true; } } return 0;` */
  const Body: seq<Stmt> := [OuterIf, ReturnValue(Literal("0"))]

  // ----- statements with literals only -----

  const Empty := Block([], None, None)

  function Chosen(block: Block, json: string, next: Temp, yes: BlockId): Block {
    Block(block.insns + [Use(next, Constant(json), []), Branch(next, yes, yes + 1)], Some(yes), Some(yes + 1))
  }

  lemma ConditionOnLiteral(st: Gen, json: string, cur: BlockId)
    requires cur < |st.blocks|
    ensures var r, n := GenCondition(st, Literal(json), cur, false), |st.blocks|;
            && r.added == st.added && r.next == st.next + 1
            && r.blocks == st.blocks[cur := Chosen(st.blocks[cur], json, st.next, n)] + [Empty, Empty]
  {
    hide GenCondition;
    Generators.ConditionBlocks(st, Literal(json), cur, false);
    assert st.blocks[cur].insns + [Use(st.next, Constant(json), [])] + [Branch(st.next, |st.blocks|, |st.blocks| + 1)]
        == Chosen(st.blocks[cur], json, st.next, |st.blocks|).insns;
  }

  lemma ReturnOfLiteral(st: Gen, json: string, cur: BlockId)
    requires cur < |st.blocks|
    ensures var r := GenReturn(st, Literal(json), cur).0;
            var block := st.blocks[cur];
            var insns := block.insns + [Use(st.next, Constant(json), []), Return(Some(st.next))];
            && r.added == st.added + [|st.blocks|] && r.next == st.next + 1
            && r.blocks == st.blocks[cur := Block(insns, Some(EXIT), block.succ1)] + [Empty]
  {
    hide GenReturn;
    Generators.ReturnIs(st, Literal(json), cur);
    assert st.blocks[cur].insns + [Use(st.next, Constant(json), [])] + [Return(Some(st.next))]
        == st.blocks[cur].insns + [Use(st.next, Constant(json), []), Return(Some(st.next))];
  }

  /** A plain statement adds its code to the block, and nothing else. */
  lemma PlainAdds(st: Gen, s: Stmt, cur: BlockId)
    requires cur < |st.blocks| && IsPlain(s)
    requires forall i | 0 <= i < |LineCode(s, st.allocs, st.next).code| ::
             !IsBranch(LineCode(s, st.allocs, st.next).code[i])
    ensures var (r, c) := GenStmt(st, s, cur);
            var line := LineCode(s, st.allocs, st.next);
            && c == cur && r.added == st.added && r.next == line.next
            && r.blocks == st.blocks[cur := st.blocks[cur].(insns := st.blocks[cur].insns + line.code)]
  {
    hide AddCode, LineCode;
    AddCodeAdds(st, cur, LineCode(s, st.allocs, st.next).code);
  }

  lemma OneStatement(st: Gen, s: Stmt, cur: BlockId)
    requires cur < |st.blocks|
    ensures GenStmts(st, [s], cur) == GenStmt(st, s, cur)
  {
    hide GenStmt;
    assert [s][..0] == [];
    assert GenStmts(st, [s][..0], cur) == (st, cur);
  }

  lemma TwoStatements(st: Gen, s: Stmt, t: Stmt, cur: BlockId)
    requires cur < |st.blocks|
    ensures var (st1, cur1) := GenStmt(st, s, cur); GenStmts(st, [s, t], cur) == GenStmt(st1, t, cur1)
  {
    hide GenStmt;
    OneStatement(st, s, cur);
    assert [s, t][..1] == [s];
  }

  // ----- the graph of the body -----

  /** What matters of the state of the generator. */
  ghost predicate Looks(st: Gen, blocks: seq<Block>, added: seq<BlockId>, next: Temp) {
    st.blocks == blocks && st.added == added && st.next == next
  }

  const Block2 := Block([Use(0, Constant("true"), []), Branch(0, 3, 4)], Some(3), Some(4))
  const Block3a := Block([Use(1, Constant("0"), []), Alloc(2, Some(1))], None, None)
  const Block3 := Block([Use(1, Constant("0"), []), Alloc(2, Some(1)), Use(3, Constant("true"), []), Branch(3, 5, 6)],
                        Some(5), Some(6))
  const Block4 := Block([Use(6, Constant("0"), []), Return(Some(6))], Some(1), None)
  const Block5a := Block([Use(4, Constant("true"), []), Use(5, Kind.Assert, [4])], None, None)
  const Block5 := Block([Use(4, Constant("true"), []), Use(5, Kind.Assert, [4])], Some(6), None)

  function To(b: BlockId): Block { Block([], Some(b), None) }

  lemma AtStart()
    ensures Looks(AddParams(NewFunction(0), []), [To(2), Empty, Empty], [0, 2], 0)
  {
  }

  lemma BehindOuterCondition(st: Gen)
    requires Looks(st, [To(2), Empty, Empty], [0, 2], 0)
    ensures Looks(AddBlock(GenCondition(st, Literal("true"), 2, false), 3), [To(2), Empty, Block2, Empty, Empty],
            [0, 2, 3], 1)
  {
    hide GenCondition;
    ConditionOnLiteral(st, "true", 2);
    assert Chosen(Empty, "true", 0, 3) == Block2;
    assert [To(2), Empty, Empty][2 := Block2] + [Empty, Empty] == [To(2), Empty, Block2, Empty, Empty];
    assert [0, 2] + [3] == [0, 2, 3];
  }

  lemma BehindLet(st: Gen)
    requires Looks(st, [To(2), Empty, Block2, Empty, Empty], [0, 2, 3], 1)
    ensures var (r, c) := GenStmt(st, Let(0, Literal("0")), 3);
            c == 3 && Looks(r, [To(2), Empty, Block2, Block3a, Empty], [0, 2, 3], 3)
  {
    hide GenStmt;
    PlainAdds(st, Let(0, Literal("0")), 3);
    var code := LineCode(Let(0, Literal("0")), st.allocs, 1).code;
    assert code == [Use(1, Constant("0"), []), Alloc(2, Some(1))];
    assert Empty.insns + code == Block3a.insns;
    assert [To(2), Empty, Block2, Empty, Empty][3 := Block3a] == [To(2), Empty, Block2, Block3a, Empty];
  }

  lemma BehindInnerCondition(st: Gen)
    requires Looks(st, [To(2), Empty, Block2, Block3a, Empty], [0, 2, 3], 3)
    ensures Looks(AddBlock(GenCondition(st, Literal("true"), 3, false), 5),
                  [To(2), Empty, Block2, Block3, Empty, Empty, Empty], [0, 2, 3, 5], 4)
  {
    hide GenCondition;
    ConditionOnLiteral(st, "true", 3);
    assert Chosen(Block3a, "true", 3, 5) == Block3;
    assert [To(2), Empty, Block2, Block3a, Empty][3 := Block3] + [Empty, Empty]
        == [To(2), Empty, Block2, Block3, Empty, Empty, Empty];
    assert [0, 2, 3] + [5] == [0, 2, 3, 5];
  }

  lemma BehindAssert(st: Gen)
    requires Looks(st, [To(2), Empty, Block2, Block3, Empty, Empty, Empty], [0, 2, 3, 5], 4)
    ensures var (r, c) := GenStmts(st, [AssertThat(Literal("true"))], 5);
            c == 5 && Looks(r, [To(2), Empty, Block2, Block3, Empty, Block5a, Empty], [0, 2, 3, 5], 6)
  {
    hide GenStmt, GenStmts;
    OneStatement(st, AssertThat(Literal("true")), 5);
    PlainAdds(st, AssertThat(Literal("true")), 5);
    var code := LineCode(AssertThat(Literal("true")), st.allocs, 4).code;
    assert code == [Use(4, Constant("true"), []), Use(5, Kind.Assert, [4])];
    assert Empty.insns + code == Block5a.insns;
    assert [To(2), Empty, Block2, Block3, Empty, Empty, Empty][5 := Block5a]
        == [To(2), Empty, Block2, Block3, Empty, Block5a, Empty];
  }

  lemma YesOf(st: Gen, s: Stmt, cur: BlockId)
    requires cur < |st.blocks| && s.If? && s.no == NoElse
    ensures GenYes(st, s, cur) ==
            GenStmts(AddBlock(GenCondition(st, s.condition, cur, false), |st.blocks|), s.yes, |st.blocks|)
  {
    hide GenStmts, GenCondition;
  }

  lemma BehindInnerIf(st: Gen)
    requires Looks(st, [To(2), Empty, Block2, Block3a, Empty], [0, 2, 3], 3)
    ensures var (r, c) := GenStmt(st, InnerIf, 3);
            c == 6 && Looks(r, [To(2), Empty, Block2, Block3, Empty, Block5, Empty], [0, 2, 3, 5, 6], 6)
  {
    hide GenStmts, GenCondition, GenYes;
    BehindInnerCondition(st);
    var inside := AddBlock(GenCondition(st, Literal("true"), 3, false), 5);
    BehindAssert(inside);
    YesOf(st, InnerIf, 3);
    assert [0, 2, 3, 5] + [6] == [0, 2, 3, 5, 6];
  }

  lemma BehindOuterIf(st: Gen)
    requires Looks(st, [To(2), Empty, Empty], [0, 2], 0)
    ensures var (r, c) := GenStmt(st, OuterIf, 2);
            c == 4 && Looks(r, [To(2), Empty, Block2, Block3, Empty, Block5, To(4)], [0, 2, 3, 5, 6, 4], 6)
  {
    hide GenStmts, GenCondition, GenYes;
    BehindOuterCondition(st);
    var inside := AddBlock(GenCondition(st, Literal("true"), 2, false), 3);
    TwoStatements(inside, Let(0, Literal("0")), InnerIf, 3);
    BehindLet(inside);
    BehindInnerIf(GenStmt(inside, Let(0, Literal("0")), 3).0);
    YesOf(st, OuterIf, 2);
    assert [0, 2, 3, 5, 6] + [4] == [0, 2, 3, 5, 6, 4];
  }

  const Blocks: seq<Block> := [To(2), Empty, Block2, Block3, Block4, Block5, To(4), Empty]
  const Added: seq<BlockId> := [0, 2, 3, 5, 6, 4, 7]

  /** The generator makes this graph of the body. */
  lemma BodyIsGenerated()
    ensures Looks(GenFunction([], Body).0, Blocks, Added, 7)
  {
    hide GenStmts, GenStmt, GenReturn;
    var st := AddParams(NewFunction(0), []);
    AtStart();
    TwoStatements(st, OuterIf, ReturnValue(Literal("0")), 2);
    BehindOuterIf(st);
    var st1 := GenStmt(st, OuterIf, 2).0;
    ReturnIsGenerated(st1);
    ReturnOfLiteral(st1, "0", 4);
    assert Empty.insns + [Use(6, Constant("0"), []), Return(Some(6))] == Block4.insns;
    assert [To(2), Empty, Block2, Block3, Empty, Block5, To(4)][4 := Block4] + [Empty] == Blocks;
    assert [0, 2, 3, 5, 6, 4] + [7] == Added;
  }

  lemma ReturnIsGenerated(st: Gen)
    requires 4 < |st.blocks|
    ensures GenStmt(st, ReturnValue(Literal("0")), 4) == GenReturn(st, Literal("0"), 4)
  {
  }

  // ----- the flow of the body -----

  ghost predicate IsBodyFlow(f: Flow) {
    && f.g.blocks == Blocks && f.g.entry == 0 && f.g.exit == 1
    && f.order == [0, 2, 3, 5, 6, 4, 7, 1] && Exact(f)
  }

  lemma BodyFlowIs(f: Flow)
    requires FlowOf(GenFunction([], Body).0, f)
    ensures IsBodyFlow(f)
  {
    hide GenFunction, Exact;
    BodyIsGenerated();
    assert Added + [1] == [0, 2, 3, 5, 6, 4, 7, 1];
  }

  function Next(b: BlockId): set<BlockId> {
    if b == 0 then {2} else if b == 2 then {3, 4} else if b == 3 then {5, 6} else if b == 4 then {1}
    else if b == 5 then {6} else if b == 6 then {4} else {}
  }

  ghost predicate BlockIsRight(g: Graph, b: BlockId) {
    && b < |g.blocks| && WellFormedBlock(g.blocks[b]) && Succs(g.blocks[b]) == Next(b)
    && ValidSucc(g, g.blocks[b].succ0) && ValidSucc(g, g.blocks[b].succ1)
  }

  lemma PlainBlocksAreRight(g: Graph, b: BlockId)
    requires g.blocks == Blocks && b < 8 && b != 2 && b != 3
    ensures BlockIsRight(g, b)
  {
    if b == 4 {
      assert g.blocks[4].insns[1] == Return(Some(6));
    } else if b == 5 {
      assert g.blocks[5].insns[1] == Use(5, Kind.Assert, [4]);
    }
  }

  lemma BranchesAreRight(g: Graph, b: BlockId)
    requires g.blocks == Blocks && (b == 2 || b == 3)
    ensures BlockIsRight(g, b)
  {
    if b == 2 {
      assert g.blocks[2].insns[1] == Branch(0, 3, 4);
    } else {
      assert g.blocks[3].insns[3] == Branch(3, 5, 6);
    }
  }

  lemma BlocksAreRight(g: Graph, b: BlockId)
    requires g.blocks == Blocks && b < 8
    ensures BlockIsRight(g, b)
  {
    hide BlockIsRight, Blocks;
    if b == 2 || b == 3 { BranchesAreRight(g, b); } else { PlainBlocksAreRight(g, b); }
  }

  lemma InOrderOf(order: seq<BlockId>, b: BlockId)
    requires order == [0, 2, 3, 5, 6, 4, 7, 1]
    ensures b in order <==> b < 8
  {
    assert order[0] == 0 && order[1] == 2 && order[2] == 3 && order[3] == 5 && order[4] == 6 && order[5] == 4
        && order[6] == 7 && order[7] == 1;
  }

  lemma InBodyOrder(f: Flow, b: BlockId)
    requires IsBodyFlow(f)
    ensures b in f.order <==> b < 8
  {
    InOrderOf(f.order, b);
  }

  lemma BodyFlowIsLinked(f: Flow)
    requires IsBodyFlow(f)
    ensures Linked(f)
  {
    hide WellFormedBlock, ValidSucc, Succs, Exact, Blocks, WellFormed;
    forall b: BlockId ensures b in f.order <==> b < 8 {
      InBodyOrder(f, b);
    }
    forall b: BlockId | b < 8 ensures BlockIsRight(f.g, b) {
      BlocksAreRight(f.g, b);
    }
    EmptyBlocks();
    BodyGraphIsWellFormed(f.g);
    assert BlockIsRight(f.g, 1);
    forall a, s: BlockId | a in f.order && s in Succs(f.g.blocks[a]) ensures s in f.order {
      assert BlockIsRight(f.g, a) && s in Next(a);
    }
  }

  lemma BodyGraphIsWellFormed(g: Graph)
    requires g.blocks == Blocks && g.entry == 0 && g.exit == 1
    requires forall b: BlockId | b < 8 :: BlockIsRight(g, b)
    ensures WellFormed(g)
  {
    hide WellFormedBlock, ValidSucc, Succs;
    assert |g.blocks| == 8;
    forall b: BlockId | b < 8
      ensures WellFormedBlock(g.blocks[b]) && ValidSucc(g, g.blocks[b].succ0) && ValidSucc(g, g.blocks[b].succ1)
    {
      assert BlockIsRight(g, b);
    }
  }

  // ----- its empty blocks -----

  lemma EmptyOnesNext(g: Graph, order: seq<BlockId>, k: nat)
    requires k < |order| && order[k] < |g.blocks|
    ensures var before, after, b := EmptyOnes(g, order[..k]), EmptyOnes(g, order[..k + 1]), order[k];
            after == if g.blocks[b].insns == [] && b != g.entry && b != g.exit then before + [b] else before
  {
    assert order[..k + 1][..k] == order[..k];
  }

  lemma EmptyBlocks()
    ensures |Blocks| == 8 && forall b: BlockId | b < 8 :: Blocks[b].insns == [] <==> b == 0 || b == 1 || b >= 6
  {
  }

  lemma {:induction false} NoneAreEmpty(g: Graph, order: seq<BlockId>, n: nat)
    requires n <= |order|
    requires forall k | 0 <= k < n ::
      order[k] < |g.blocks| && (g.blocks[order[k]].insns != [] || order[k] == g.entry || order[k] == g.exit)
    ensures EmptyOnes(g, order[..n]) == []
  {
    if n > 0 {
      NoneAreEmpty(g, order, n - 1);
      EmptyOnesNext(g, order, n - 1);
    }
  }

  lemma OnlyTwoEmpty(g: Graph, order: seq<BlockId>)
    requires |order| == 8 && order[4] == 6 && order[6] == 7 && forall k | 0 <= k < 8 :: order[k] < |g.blocks|
    requires g.entry < 6 && g.exit < 6 && g.blocks[6].insns == [] && g.blocks[7].insns == []
    requires forall k | 0 <= k < 8 && k != 4 && k != 6 ::
      g.blocks[order[k]].insns != [] || order[k] == g.entry || order[k] == g.exit
    ensures EmptyOnes(g, order) == [6, 7]
  {
    hide EmptyOnes;
    NoneAreEmpty(g, order, 4);
    EmptyOnesNext(g, order, 4);
    EmptyOnesNext(g, order, 5);
    EmptyOnesNext(g, order, 6);
    EmptyOnesNext(g, order, 7);
    assert order[..8] == order;
  }

  lemma EmptyOnesAre(f: Flow)
    requires IsBodyFlow(f)
    ensures EmptyOnes(f.g, f.order) == [6, 7]
  {
    hide EmptyOnes, Blocks, Exact;
    EmptyBlocks();
    OnlyTwoEmpty(f.g, f.order);
  }

  const Left3 := Block([Use(1, Constant("0"), []), Alloc(2, Some(1)), Use(3, Constant("true"), []), Branch(3, 5, 4)],
                       Some(5), Some(4))
  const Left5 := Block([Use(4, Constant("true"), []), Use(5, Kind.Assert, [4])], Some(4), None)
  const LeftBlocks: seq<Block> := [To(2), Empty, Block2, Left3, Block4, Left5, Empty, Empty]

  lemma LedToSix(f: Flow, a: BlockId)
    requires IsBodyFlow(f)
    ensures a in PredsOf(f, 6) <==> a == 3 || a == 5
    ensures a !in PredsOf(f, 7)
  {
    hide Succs;
    InBodyOrder(f, 6);
    InBodyOrder(f, 7);
    InBodyOrder(f, a);
    if a < 8 { BlocksAreRight(f.g, a); }
    assert ExactAt(f, 6, a) && ExactAt(f, 7, a);
  }

  lemma BlocksMoved()
    ensures |Blocks| == 8 && Blocks[6] == To(4)
    ensures LeftBlocks == Blocks[3 := Redirect(Blocks[3], 6, 4)][5 := Redirect(Blocks[5], 6, 4)][6 := Empty]
  {
    assert Redirect(Block3, 6, 4) == Left3 && Redirect(Block5, 6, 4) == Left5;
  }

  lemma LedElsewhere(blocks: seq<Block>, ps: seq<BlockId>)
    requires |blocks| == 8 && blocks[6] == To(4) && forall b :: b in ps <==> b == 3 || b == 5
    ensures Unlinked(Redirected(blocks, ps, 6, Some(4)), 6)
         == blocks[3 := Redirect(blocks[3], 6, 4)][5 := Redirect(blocks[5], 6, 4)][6 := Empty]
  {
    hide Redirect;
  }

  lemma WithoutSix(f: Flow)
    requires IsBodyFlow(f)
    ensures Removable(f, 6) && RemoveOne(f, 6).g == f.g.(blocks := LeftBlocks)
  {
    hide Redirect, Succs, Blocks, LeftBlocks, Exact;
    BlocksMoved();
    InBodyOrder(f, 6);
    forall b: BlockId ensures b in PredsOf(f, 6) <==> b == 3 || b == 5 {
      LedToSix(f, b);
    }
    LedElsewhere(f.g.blocks, PredsOf(f, 6));
  }

  lemma FirstIsIn<A>(s: seq<A>)
    ensures s == [] || s[0] in s
  {
  }

  lemma WithoutSeven(q: Flow)
    requires q.g == Graph(LeftBlocks, 0, 1) && Exact(q) && 7 in q.order && forall a :: a !in PredsOf(q, 7)
    ensures Removable(q, 7) && RemoveOne(q, 7).g == q.g
  {
    var ps := PredsOf(q, 7);
    FirstIsIn(ps);
    assert Redirected(q.g.blocks, ps, 7, None) == q.g.blocks;
    assert Unlinked(q.g.blocks, 7) == q.g.blocks;
  }

  // ----- the stack -----

  /** The function that is left when the empty blocks are gone: block 3 leads to the assertion, and behind both ifs. */
  ghost predicate IsLeft(r: Flow) {
    && Linked(r) && r.g == Graph(LeftBlocks, 0, 1) && forall b: BlockId {:trigger b in r.order} ::
       b in r.order <==> b < 6
  }

  lemma SimplifiedBodyIs(f: Flow, r: Flow, tr: seq<Flow>)
    requires FlowOf(GenFunction([], Body).0, f) && Simplified(f, r, tr)
    ensures IsLeft(r)
  {
    hide GenFunction, Removable, RemoveOne, EmptyOnes, Linked, Exact, LeftBlocks, Blocks;
    BodyFlowIs(f);
    EmptyOnesAre(f);
    var es := [6, 7];
    assert RemovedAt(es, tr, 0) && RemovedAt(es, tr, 1);
    WithoutSix(f);
    OneIsLeft(f, tr[1]);
    WithoutSeven(tr[1]);
    RemoveOneLinked(tr[1], 7);
    TwoAreLeft(f, tr[1], r);
  }

  lemma OneIsLeft(f: Flow, q: Flow)
    requires IsBodyFlow(f) && Linked(f) && Removable(f, 6) && q == RemoveOne(f, 6)
    requires q.g == Graph(LeftBlocks, 0, 1)
    ensures Linked(q) && Exact(q) && 7 in q.order && forall a :: a !in PredsOf(q, 7)
    ensures forall b: BlockId {:trigger b in q.order} :: b in q.order <==> b < 8 && b != 6
  {
    hide Removable, Enclosed, WellFormed;
    RemoveOneLinked(f, 6);
    forall b: BlockId ensures b in q.order <==> b < 8 && b != 6 {
      InBodyOrder(f, b);
    }
    forall a: BlockId ensures a !in PredsOf(q, 7) {
      assert ExactAt(q, 7, a);
      if a < 8 { LeftLeads(q.g, a); }
    }
  }

  lemma LeftLeads(g: Graph, b: BlockId)
    requires g.blocks == LeftBlocks && b < 8
    ensures Succs(g.blocks[b]) ==
            if b == 0 then {2} else if b == 2 then {3, 4} else if b == 3 then {5, 4} else if b == 4 then {1}
            else if b == 5 then {4} else {}
  {
  }

  lemma TwoAreLeft(f: Flow, q: Flow, r: Flow)
    requires r == RemoveOne(q, 7) && Linked(r) && r.g == q.g == Graph(LeftBlocks, 0, 1)
    requires forall b: BlockId {:trigger b in q.order} :: b in q.order <==> b < 8 && b != 6
    ensures IsLeft(r)
  {
    hide Linked;
  }

  lemma LeftAllocates()
    ensures |LeftBlocks| == 8 && LocalsIn(LeftBlocks[0].insns) == 0 && LocalsIn(LeftBlocks[2].insns) == 0
    ensures LocalsIn(LeftBlocks[3].insns) > 0
  {
    HasLocal(Left3.insns, 1);
    assert Block2.insns[..1] == [Use(0, Constant("true"), [])] && Block2.insns[..1][..0] == [];
  }

  lemma LeftIsUnbalanced(r: Flow, gens: LocalSets, s: Sets)
    requires IsLeft(r) && Solves(r, gens, s) && Counted(r, gens)
    ensures !BalancedAt(r, s, 3)
  {
    hide LeftBlocks, LocalsIn, Enclosed, WellFormed, Succs;
    LeftAllocates();
    forall b: BlockId, a: BlockId | b < 6
      ensures a in PredsOf(r, b) <==> a < 6 && b in Succs(r.g.blocks[a])
    {
      assert b in r.order && ExactAt(r, b, a);
    }
    forall a: BlockId | a < 6
      ensures 0 !in Succs(r.g.blocks[a]) && (2 in Succs(r.g.blocks[a]) <==> a == 0)
      ensures (5 in Succs(r.g.blocks[a]) <==> a == 3) && (a == 2 ==> 4 in Succs(r.g.blocks[a]))
    {
      LeftLeads(r.g, a);
    }
    FirstIsIn(PredsOf(r, 0));
    LeftReports(r, gens, s);
  }

  lemma LeftReports(r: Flow, gens: LocalSets, s: Sets)
    requires IsLeft(r) && Solves(r, gens, s) && Counted(r, gens) && PredsOf(r, 0) == [] && 0 in PredsOf(r, 2)
    requires LocalsIn(r.g.blocks[0].insns) == 0 && LocalsIn(r.g.blocks[2].insns) == 0
    requires LocalsIn(r.g.blocks[3].insns) > 0
    requires (forall a :: a in PredsOf(r, 5) ==> a == 3) && 2 in PredsOf(r, 4)
    ensures !BalancedAt(r, s, 3)
  {
    hide LocalsIn, Linked;
    NoneAt(r, gens, s, 0);
    NoneAt(r, gens, s, 2);
    assert SolvesAt(r, gens, s, 3) && |gens[3]| > 0;
    UnbalancedAtCriticalEdge(r, gens, s, 3, 5, 4, 2);
  }

  lemma ThirdIsReached(r: Flow)
    requires IsLeft(r)
    ensures InScope(r, 3) && Reached(r, 3)
  {
    hide Linked, LeftBlocks;
    var p := [0, 2, 3];
    LeftLeads(r.g, 0);
    LeftLeads(r.g, 2);
    LeftAllocates();
    assert FromEntry(r, p) && Last(p) == 3;
  }

  /** Whichever solution the analysis finds, control does not find the stack as high as it expects on every path. */
  lemma BodyIsUnbalanced(
      f: Flow, r: Flow, tr: seq<Flow>, gens: LocalSets, count: nat, s: Sets, kills: map<BlockId, nat>)
    requires FlowOf(GenFunction([], Body).0, f) && Simplified(f, r, tr)
    requires Solves(r, gens, s) && KillsAre(r, s, kills) && Counted(r, gens) && PopPoints.Numbered(r, gens, count)
    ensures exists p :: FromEntry(r, p) && !Level(r, gens, s, kills, p)
  {
    hide GenFunction, Simplified, FlowOf, Linked, KillsAre, PopPoints.Numbered, Counted, Level, BalancedAt;
    SimplifiedBodyIs(f, r, tr);
    ThirdIsReached(r);
    LeftIsUnbalanced(r, gens, s);
    NothingToFirst(r);
    HeightsAgreeExactly(r, gens, count, s, kills);
  }

  lemma NothingToFirst(r: Flow)
    requires IsLeft(r)
    ensures PredsOf(r, r.g.entry) == []
  {
    hide Enclosed, WellFormed;
    forall a: BlockId ensures a !in PredsOf(r, 0) {
      assert 0 in r.order && ExactAt(r, 0, a);
      if a < 6 { LeftLeads(r.g, a); }
    }
    FirstIsIn(PredsOf(r, 0));
  }

  /** The body is compiled up to there: the function has a flow, and its empty blocks can be removed. */
  lemma BodyCanBeSimplified() returns (f: Flow, r: Flow, tr: seq<Flow>)
    ensures FlowOf(GenFunction([], Body).0, f) && Simplified(f, r, tr)
  {
    hide GenFunction, Removable, RemoveOne, EmptyOnes, Linked;
    BodyIsGenerated();
    f := Flow(GenFunction([], Body).0.Graph(), GenFunction([], Body).0.Order(), BodyPreds);
    BodyFlowIsExact(f);
    BodyFlowIs(f);
    BodyFlowIsLinked(f);
    EmptyOnesAre(f);
    WithoutSix(f);
    var q := RemoveOne(f, 6);
    OneIsLeft(f, q);
    WithoutSeven(q);
    r := RemoveOne(q, 7);
    tr := [f, q, r];
    var es := [6, 7];
    assert RemovedAt(es, tr, 0) && RemovedAt(es, tr, 1);
  }

  const BodyPreds: map<BlockId, seq<BlockId>> := map[1 := [4], 2 := [0], 3 := [2], 4 := [2, 6], 5 := [3], 6 := [3, 5]]

  lemma BodyPredsAre(f: Flow, b: BlockId, a: BlockId)
    requires f.preds == BodyPreds
    ensures a in PredsOf(f, b) <==> a < 8 && b in Next(a)
  {
    assert [2, 6][0] == 2 && [2, 6][1] == 6 && [3, 5][0] == 3 && [3, 5][1] == 5;
  }

  lemma BodyFlowIsExact(f: Flow)
    requires f.g.blocks == Blocks && f.order == Added + [1] && f.preds == BodyPreds
    ensures Exact(f)
  {
    hide Succs, Next, PredsOf, BodyPreds, Blocks;
    assert f.order == [0, 2, 3, 5, 6, 4, 7, 1];
    EmptyBlocks();
    forall b: BlockId, a: BlockId ensures ExactAt(f, b, a) {
      InOrderOf(f.order, a);
      BodyPredsAre(f, b, a);
      if a < 8 { BlocksAreRight(f.g, a); }
    }
  }
}
