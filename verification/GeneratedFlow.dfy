/** The graph of a whole function is typed, and rid of its empty blocks in the order in which they were added. */
module GeneratedFlow {
  import opened Ir
  import opened PopPoints
  import opened Simplify
  import opened Simplifiers
  import opened Typing
  import opened Drain
  import opened Syntax
  import opened CodeGen
  import opened GeneratedCode
  import opened Generated
  import opened GeneratedFunction

  /** All blocks are added, and the one behind the last statement is empty and cannot be reached. */
  ghost predicate Finished(st: Gen, cur: BlockId) {
    && GenOk(st, cur) && START <= cur < |st.blocks| && !Frozen(st, cur) && st.blocks[cur].insns == []
    && !LiveIn(st, cur) && NotTaken(st, cur)
    && forall b: BlockId {:trigger b in st.notes.rank} | START <= b < |st.blocks| :: b in st.notes.rank
  }

  lemma FunctionFinished(params: seq<Symbol>, body: seq<Stmt>)
    requires Accepted(params, body)
    ensures Finished(GenFunction(params, body).0, GenFunction(params, body).1)
  {
    FunctionCompiled(params, body);
  }

  /** The graph with the predecessors recorded for it. */
  ghost predicate FlowOf(st: Gen, f: Flow) {
    f.g == st.Graph() && f.order == st.Order() && Exact(f)
  }

  // ----- the blocks of the function -----

  lemma BlockIsGood(st: Gen, cur: BlockId, b: BlockId)
    requires Finished(st, cur) && START <= b < |st.blocks|
    ensures Good(st, cur, b) && |st.notes.heads| == |st.blocks| && WellFormedBlock(st.blocks[b])
    ensures forall s | s in Succs(st.blocks[b]) :: s < |st.blocks| && s != ENTRY
    ensures Frozen(st, b) <==> b != cur
  {
    assert Good(st, cur, b);
  }

  lemma InOrder(st: Gen, cur: BlockId, b: BlockId)
    requires Finished(st, cur)
    ensures b in st.Order() <==> b < |st.blocks|
  {
    assert b in st.Order() <==> b in st.added || b == EXIT;
  }

  lemma FinishedGraph(st: Gen, cur: BlockId)
    requires Finished(st, cur)
    ensures WellFormed(st.Graph())
  {
    forall b: BlockId | b < |st.blocks|
      ensures WellFormedBlock(st.blocks[b]) && ValidSucc(st.Graph(), st.blocks[b].succ0)
              && ValidSucc(st.Graph(), st.blocks[b].succ1)
    {
      if b >= START {
        BlockIsGood(st, cur, b);
        assert st.blocks[b].succ0.Some? ==> st.blocks[b].succ0.value in Succs(st.blocks[b]);
        assert st.blocks[b].succ1.Some? ==> st.blocks[b].succ1.value in Succs(st.blocks[b]);
      }
    }
  }

  lemma FinishedOrder(st: Gen, cur: BlockId)
    requires Finished(st, cur)
    ensures Distinct(st.Order()) && forall i | 0 <= i < |st.Order()| :: st.Order()[i] < |st.blocks|
  {
    assert OrderOk(st) && EXIT !in st.added;
    forall i | 0 <= i < |st.Order()| ensures st.Order()[i] < |st.blocks| {
      InOrder(st, cur, st.Order()[i]);
      assert st.Order()[i] in st.Order();
    }
  }

  lemma FinishedLinked(st: Gen, cur: BlockId, f: Flow)
    requires Finished(st, cur) && FlowOf(st, f)
    ensures Linked(f)
  {
    FinishedGraph(st, cur);
    FinishedOrder(st, cur);
    InOrder(st, cur, ENTRY);
    InOrder(st, cur, EXIT);
    FinishedEnclosed(st, cur, f);
  }

  lemma FinishedEnclosed(st: Gen, cur: BlockId, f: Flow)
    requires Finished(st, cur) && FlowOf(st, f) && forall b | b in f.order :: b < |f.g.blocks|
    ensures Enclosed(f)
  {
    forall a, s | a in f.order && s in Succs(f.g.blocks[a]) ensures s in f.order {
      InOrder(st, cur, s);
      if a >= START { BlockIsGood(st, cur, a); }
    }
  }

  // ----- the notes -----

  lemma FinishedChained(st: Gen, cur: BlockId, b: BlockId)
    requires Finished(st, cur) && START <= b < |st.blocks|
    ensures |st.notes.heads| == |st.blocks|
    ensures Chained(st.Graph(), st.notes, b) && Filled(st.Graph(), st.notes, b) && Forward(st.Graph(), st.notes, b)
  {
    BlockIsGood(st, cur, b);
  }

  lemma FinishedAlone(st: Gen, cur: BlockId, f: Flow, b: BlockId)
    requires Finished(st, cur) && FlowOf(st, f) && START <= b < |st.blocks|
    ensures Alone(f, b)
  {
    BlockIsGood(st, cur, b);
    if TwoWay(st.blocks[b]) {
      var t := st.blocks[b].succ0.value;
      assert t != cur && t in Succs(st.blocks[b]);
      InOrder(st, cur, t);
      forall a | a in PredsOf(f, t) ensures a == b {
        assert ExactAt(f, t, a);
      }
    }
  }

  lemma FinishedLively(st: Gen, cur: BlockId, f: Flow, b: BlockId)
    requires Finished(st, cur) && FlowOf(st, f) && START <= b < |st.blocks|
    ensures Lively(f, st.notes, b)
  {
    BlockIsGood(st, cur, b);
    if b in st.notes.parent {
      var p := st.notes.parent[b];
      InOrder(st, cur, p);
      InOrder(st, cur, b);
      assert ExactAt(f, b, p);
    }
  }

  lemma EntryTyped(st: Gen, cur: BlockId, f: Flow)
    requires Finished(st, cur) && FlowOf(st, f)
    ensures |f.g.blocks| == |st.notes.heads| && TypedBlock(f, st.notes, ENTRY)
  {
    assert FrameOk(st) && OrderOk(st);
    assert Succs(st.blocks[ENTRY]) == {START};
  }

  /** The graph of a function is typed. */
  lemma FinishedTyped(st: Gen, cur: BlockId, f: Flow)
    requires Finished(st, cur) && FlowOf(st, f)
    ensures Typed(f, st.notes)
  {
    FinishedLinked(st, cur, f);
    EntryTyped(st, cur, f);
    assert OwnedBelow(st, st.next);
    forall b: BlockId | InScope(f, b) ensures b < |f.g.blocks| && TypedBlock(f, st.notes, b) {
      InOrder(st, cur, b);
      if b >= START {
        BlockIsGood(st, cur, b);
        FinishedChained(st, cur, b);
        FinishedAlone(st, cur, f, b);
        FinishedLively(st, cur, f, b);
      }
    }
  }

  /** Its empty blocks lead on, but for the last one, which cannot be reached. */
  lemma FinishedDrains(st: Gen, cur: BlockId, f: Flow)
    requires Finished(st, cur) && FlowOf(st, f)
    ensures Draining(f, st.notes, EmptyOnes(f.g, f.order))
  {
    var es := EmptyOnes(f.g, f.order);
    FinishedOrder(st, cur);
    EmptyOnesDistinct(f.g, f.order);
    forall k | 0 <= k < |es| ensures Onward(BlockOf(f.g, es[k])).Some?
      || (k == |es| - 1 && !Live(f.g, st.notes, es[k])) {
      var e := es[k];
      assert e in es;
      InOrder(st, cur, e);
      BlockIsGood(st, cur, e);
      if e == cur { LastEmpty(st, cur, f, k); }
    }
  }

  lemma LastEmpty(st: Gen, cur: BlockId, f: Flow, k: nat)
    requires Finished(st, cur) && FlowOf(st, f)
    requires var es := EmptyOnes(f.g, f.order); k < |es| && es[k] == cur && Distinct(es)
    ensures k == |EmptyOnes(f.g, f.order)| - 1
  {
    var before := f.order[..|f.order| - 1];
    assert before == st.added && before[|before| - 1] == cur;
    var es := EmptyOnes(f.g, f.order);
    assert es == EmptyOnes(f.g, before);
    assert es[|es| - 1] == cur;
  }
}
