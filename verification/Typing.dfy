/**
 What is known of a function while it is compiled: which temporaries are on the stack at the head of each block, in
 what order blocks follow each other, and from where each block can be reached.
 */
module Typing {
  import opened Options
  import opened Ir
  import opened StackShape
  import opened PopPoints
  import opened Simplify

  /** The shape after the first `n` instructions, if each of them finds its operands. */
  function ShapeTo(insns: seq<Insn>, head: Shape, params: nat, n: nat): Option<Shape>
    requires n <= |insns|
  {
    if n == 0 then Some(head)
    else match ShapeTo(insns, head, params, n - 1)
      case Some(s) => ShapeAfter(insns[n - 1], s, params, 0)
      case None => None
  }

  function ShapeOf(insns: seq<Insn>, head: Shape, params: nat): Option<Shape> {
    ShapeTo(insns, head, params, |insns|)
  }

  /** The parameters and locals that a block allocates, in order. */
  function AllocsOf(insns: seq<Insn>): seq<Temp> {
    if insns == [] then []
    else
      var last := insns[|insns| - 1];
      AllocsOf(insns[..|insns| - 1]) + if last.Alloc? then [last.id] else []
  }

  /**
   `heads` are the shapes at the heads of the blocks; along every edge `rank` increases; `parent` is a predecessor
   of each block that can be reached, other than the entry.
   */
  datatype Notes = Notes(
    owner: Owner, heads: seq<Shape>, params: nat, rank: map<BlockId, nat>, parent: map<BlockId, BlockId>)

  predicate Live(g: Graph, n: Notes, b: BlockId) { b == g.entry || b in n.parent }

  /**
   The instructions find their operands, and leave behind what was on the stack, what they allocate, and nothing
   else, which is what the successors expect.
   */
  ghost predicate Chained(g: Graph, n: Notes, b: BlockId)
    requires b < |g.blocks| == |n.heads|
  {
    var block, end := g.blocks[b], ShapeOf(g.blocks[b].insns, n.heads[b], n.params);
    && end.Some?
    && (EndsInReturn(block) ==> block.insns[|block.insns| - 1].value.Some? && Succs(block) == {g.exit})
    && (!EndsInReturn(block) && b != g.entry ==>
          (Succs(block) != {} ==>
            end.value.pending == 0 && end.value.temps == n.heads[b].temps + AllocsOf(block.insns)) &&
          forall s | s in Succs(block) :: s != g.exit && s < |g.blocks| && n.heads[s] == end.value)
  }

  /** A block with instructions can be reached, has code, and leads somewhere. */
  ghost predicate Filled(g: Graph, n: Notes, b: BlockId)
    requires b < |g.blocks|
  {
    g.blocks[b].insns != [] ==> Live(g, n, b) && HasCode(g.blocks[b]) && g.blocks[b].succ0.Some?
  }

  ghost predicate Forward(g: Graph, n: Notes, b: BlockId)
    requires b < |g.blocks|
  {
    b in n.rank && forall s | s in Succs(g.blocks[b]) && s != g.exit ::
      s in n.rank && n.rank[b] < n.rank[s] && s != g.entry
  }

  /** The taken block of a condition has instructions, and no other predecessor. */
  ghost predicate Alone(f: Flow, b: BlockId)
    requires b < |f.g.blocks|
  {
    var block := f.g.blocks[b];
    block.succ0.Some? && block.succ1.Some? ==>
      var t := block.succ0.value;
      t < |f.g.blocks| && f.g.blocks[t].insns != [] && forall a | a in PredsOf(f, t) :: a == b
  }

  /** Reachable blocks lead to reachable blocks, and each has a predecessor that can be reached. */
  ghost predicate Lively(f: Flow, n: Notes, b: BlockId)
    requires b < |f.g.blocks|
  {
    && (Live(f.g, n, b) ==> forall s | s in Succs(f.g.blocks[b]) && s != f.g.exit :: Live(f.g, n, s))
    && (b in n.parent ==> Live(f.g, n, n.parent[b]) && n.parent[b] in PredsOf(f, b))
  }

  ghost predicate TypedBlock(f: Flow, n: Notes, b: BlockId)
    requires b < |f.g.blocks| == |n.heads|
  {
    && WellFormedBlock(f.g.blocks[b])
    && Chained(f.g, n, b) && Filled(f.g, n, b) && Forward(f.g, n, b) && Alone(f, b) && Lively(f, n, b)
  }

  ghost predicate Typed(f: Flow, n: Notes) {
    && Linked(f) && Owned(f.g, n.owner) && |n.heads| == |f.g.blocks|
    && f.g.blocks[f.g.entry].insns == [] && f.g.blocks[f.g.exit].insns == []
    && forall b: BlockId {:trigger TypedBlock(f, n, b)} | InScope(f, b) :: b < |f.g.blocks| && TypedBlock(f, n, b)
  }

  // ----- the removal of an empty block -----

  /** Blocks reached from the removed block are now reached from where it was reached. */
  function Without(n: Notes, e: BlockId): Notes {
    n.(parent := map b | b in n.parent && b != e ::
         if n.parent[b] == e && e in n.parent then n.parent[e] else n.parent[b])
  }

  lemma {:induction false} RetargetKeepsShape(block: Block, e: BlockId, t: BlockId, head: Shape, params: nat, n: nat)
    requires n <= |block.insns|
    ensures ShapeTo(Redirect(block, e, t).insns, head, params, n) == ShapeTo(block.insns, head, params, n)
  {
    hide HasResult;
    if n > 0 { RetargetKeepsShape(block, e, t, head, params, n - 1); }
  }

  lemma RetargetKeepsAllocs(block: Block, e: BlockId, t: BlockId)
    ensures AllocsOf(Redirect(block, e, t).insns) == AllocsOf(block.insns)
  {
    var r, n := Redirect(block, e, t), |block.insns|;
    if n > 0 { assert r.insns[..n - 1] == block.insns[..n - 1]; }
  }

  lemma RedirectKeeps(block: Block, e: BlockId, t: BlockId)
    ensures var r := Redirect(block, e, t);
            && |r.insns| == |block.insns|
            && (EndsInReturn(r) <==> EndsInReturn(block))
            && (EndsInReturn(block) ==> r.insns[|r.insns| - 1] == block.insns[|block.insns| - 1])
            && (HasCode(r) <==> HasCode(block))
            && forall i | 0 <= i < |r.insns| :: Defines(r.insns[i]) == Defines(block.insns[i])
  {
    var r := Redirect(block, e, t);
    if HasCode(r) {
      var i :| 0 <= i < |r.insns| && !IsPseudo(r.insns[i]);
      assert !IsPseudo(block.insns[i]);
    }
    if HasCode(block) {
      var i :| 0 <= i < |block.insns| && !IsPseudo(block.insns[i]);
      assert !IsPseudo(r.insns[i]);
    }
  }

  /** What the removal of a block keeps of each block. */
  ghost predicate Kept(x: Block, y: Block, params: nat) {
    && |y.insns| == |x.insns|
    && (EndsInReturn(y) <==> EndsInReturn(x))
    && (EndsInReturn(x) ==> y.insns[|y.insns| - 1] == x.insns[|x.insns| - 1])
    && (HasCode(y) <==> HasCode(x))
    && (forall i | 0 <= i < |x.insns| :: Defines(y.insns[i]) == Defines(x.insns[i]))
    && AllocsOf(y.insns) == AllocsOf(x.insns)
    && forall head {:trigger ShapeOf(y.insns, head, params)} ::
         ShapeOf(y.insns, head, params) == ShapeOf(x.insns, head, params)
  }

  lemma RemoveOneKeeps(f: Flow, e: BlockId, b: BlockId, params: nat)
    requires b < |f.g.blocks|
    ensures Kept(f.g.blocks[b], RemoveOne(f, e).g.blocks[b], params)
  {
    var x, y, t := f.g.blocks[b], RemoveOne(f, e).g.blocks[b], Onward(BlockOf(f.g, e));
    if b in PredsOf(f, e) && t.Some? {
      RedirectKeeps(x, e, t.value);
      RetargetKeepsAllocs(x, e, t.value);
      forall head ensures ShapeOf(y.insns, head, params) == ShapeOf(x.insns, head, params) {
        RetargetKeepsShape(x, e, t.value, head, params, |x.insns|);
      }
    }
  }

  /** The removed block leads where its predecessors will lead, and can be reached if one of them can. */
  lemma Through(f: Flow, n: Notes, e: BlockId, b: BlockId)
    requires Typed(f, n) && Removable(f, e) && b in f.order && b != e && e in Succs(f.g.blocks[b])
    ensures var t := Onward(f.g.blocks[e]);
            && t.Some? && t.value != f.g.exit && t.value < |f.g.blocks| && t.value in f.order
            && e in n.rank && t.value in n.rank && n.rank[e] < n.rank[t.value] && t.value != f.g.entry
            && n.heads[t.value] == n.heads[e] && n.heads[e].pending == 0
            && (Live(f.g, n, e) ==> Live(f.g, n, t.value))
  {
    assert b in PredsOf(f, e);
    assert TypedBlock(f, n, e);
    var t := Onward(f.g.blocks[e]).value;
    assert t in Succs(f.g.blocks[e]);
  }

  lemma InScopeIsChained(f: Flow, n: Notes, b: BlockId)
    requires Typed(f, n) && InScope(f, b)
    ensures Linked(f) && b < |f.g.blocks| == |n.heads| && b in f.order && Chained(f.g, n, b)
  {
    assert TypedBlock(f, n, b);
  }

  lemma RemoveOneFrame(f: Flow, e: BlockId)
    ensures var r := RemoveOne(f, e);
            |r.g.blocks| == |f.g.blocks| && r.g.exit == f.g.exit && r.g.entry == f.g.entry
  {
  }

  lemma StillChained(f: Flow, n: Notes, e: BlockId, b: BlockId)
    requires Typed(f, n) && Removable(f, e) && InScope(f, b) && b != e
    ensures Chained(RemoveOne(f, e).g, Without(n, e), b)
  {
    hide Typed, TypedBlock, Linked, RemoveOne, ShapeOf, AllocsOf, EndsInReturn, Succs;
    InScopeIsChained(f, n, b);
    RemoveOneFrame(f, e);
    RemoveOneKeeps(f, e, b, n.params);
    SuccsAfter(f, e, b);
    if e in Succs(f.g.blocks[b]) { Through(f, n, e, b); }
    assert ShapeOf(RemoveOne(f, e).g.blocks[b].insns, n.heads[b], n.params)
        == ShapeOf(f.g.blocks[b].insns, n.heads[b], n.params);
  }

  lemma InScopeIsForward(f: Flow, n: Notes, b: BlockId)
    requires Typed(f, n) && InScope(f, b)
    ensures Linked(f) && b < |f.g.blocks| == |n.heads| && b in f.order && Forward(f.g, n, b)
  {
    assert TypedBlock(f, n, b);
  }

  lemma StillForward(f: Flow, n: Notes, e: BlockId, b: BlockId)
    requires Typed(f, n) && Removable(f, e) && InScope(f, b) && b != e
    ensures Forward(RemoveOne(f, e).g, Without(n, e), b)
  {
    hide Typed, TypedBlock, Linked, RemoveOne, Succs;
    InScopeIsForward(f, n, b);
    RemoveOneFrame(f, e);
    SuccsAfter(f, e, b);
    if e in Succs(f.g.blocks[b]) { Through(f, n, e, b); }
  }

  lemma OnlyPredecessor(f: Flow, e: BlockId, b: BlockId, t: BlockId)
    requires Linked(f) && Removable(f, e) && b != e && t in f.order && t != e && forall a | a in PredsOf(f, t) :: a == b
    ensures forall a | a in PredsOf(RemoveOne(f, e), t) :: a == b
  {
    PredsAfter(f, e, t);
    OnwardIsKnown(f, e);
  }

  lemma RenamedSuccessors(f: Flow, e: BlockId, b: BlockId)
    requires b < |f.g.blocks| && e < |f.g.blocks| && b != e
    ensures var x, y := f.g.blocks[b], RemoveOne(f, e).g.blocks[b];
            && (x.succ0.Some? <==> y.succ0.Some?) && (x.succ1.Some? <==> y.succ1.Some?)
            && (x.succ0 != Some(e) ==> y.succ0 == x.succ0)
  {
  }

  lemma StillAlone(f: Flow, n: Notes, e: BlockId, b: BlockId)
    requires Typed(f, n) && Removable(f, e) && InScope(f, b) && b != e
    ensures Alone(RemoveOne(f, e), b)
  {
    var block, r := f.g.blocks[b], RemoveOne(f, e);
    assert TypedBlock(f, n, b);
    RenamedSuccessors(f, e, b);
    if block.succ0.Some? && block.succ1.Some? {
      var t := block.succ0.value;
      assert t in Succs(block);
      OnlyPredecessor(f, e, b, t);
      RemoveOneKeeps(f, e, t, 0);
    }
  }

  lemma OnwardIsKnown(f: Flow, e: BlockId)
    requires Linked(f) && Removable(f, e)
    ensures Onward(f.g.blocks[e]).Some? ==> e in PredsOf(f, Onward(f.g.blocks[e]).value)
  {
    if Onward(f.g.blocks[e]).Some? { assert Onward(f.g.blocks[e]).value in Succs(f.g.blocks[e]); }
  }

  lemma StillReaching(f: Flow, n: Notes, e: BlockId, b: BlockId)
    requires Typed(f, n) && Removable(f, e) && InScope(f, b) && b != e
    ensures Live(f.g, n, b) ==>
              forall s | s in Succs(RemoveOne(f, e).g.blocks[b]) && s != f.g.exit :: Live(f.g, Without(n, e), s)
  {
    hide Alone, Arity, Chained, Distinct, Exact, Filled, Forward, Owned, RemoveOne;
    assert TypedBlock(f, n, b);
    SuccsAfter(f, e, b);
    if e in Succs(f.g.blocks[b]) { Through(f, n, e, b); }
  }

  lemma StillReached(f: Flow, n: Notes, e: BlockId, b: BlockId)
    requires Typed(f, n) && Removable(f, e) && InScope(f, b) && b != e && b in n.parent
    ensures var p := Without(n, e).parent[b]; Live(f.g, Without(n, e), p) && p in PredsOf(RemoveOne(f, e), b)
  {
    assert TypedBlock(f, n, b);
    PredsAfter(f, e, b);
    if n.parent[b] == e {
      OnlyLead(f, e, b);
      assert TypedBlock(f, n, e);
    }
  }

  /** What an empty block leads to is its successor, and never itself. */
  lemma OnlyLead(f: Flow, e: BlockId, b: BlockId)
    requires Linked(f) && Removable(f, e) && b in f.order && e in PredsOf(f, b)
    ensures Onward(f.g.blocks[e]) == Some(b) && e !in PredsOf(f, e)
  {
    assert WellFormedBlock(f.g.blocks[e]);
  }

  lemma StillLively(f: Flow, n: Notes, e: BlockId, b: BlockId)
    requires Typed(f, n) && Removable(f, e) && InScope(f, b) && b != e
    ensures Lively(RemoveOne(f, e), Without(n, e), b)
  {
    StillReaching(f, n, e, b);
    if b in n.parent { StillReached(f, n, e, b); }
  }

  lemma StillOwned(f: Flow, n: Notes, e: BlockId)
    requires Owned(f.g, n.owner)
    ensures Owned(RemoveOne(f, e).g, n.owner)
  {
    var r := RemoveOne(f, e);
    forall b: nat, i: nat | b < |r.g.blocks| && i < |r.g.blocks[b].insns|
      ensures Defines(r.g.blocks[b].insns[i]).Some? ==>
                var t := Defines(r.g.blocks[b].insns[i]).value; t in n.owner && n.owner[t] == (b, i)
    {
      RemoveOneKeeps(f, e, b, 0);
      assert Defines(r.g.blocks[b].insns[i]) == Defines(f.g.blocks[b].insns[i]);
    }
  }

  lemma StillTypedBlock(f: Flow, n: Notes, e: BlockId, b: BlockId)
    requires Typed(f, n) && Removable(f, e) && InScope(f, b) && b != e
    ensures TypedBlock(RemoveOne(f, e), Without(n, e), b)
  {
    assert TypedBlock(f, n, b);
    RemoveOneWellFormed(f, e);
    RemoveOneKeeps(f, e, b, n.params);
    RenamedSuccessors(f, e, b);
    StillChained(f, n, e, b);
    StillForward(f, n, e, b);
    StillAlone(f, n, e, b);
    StillLively(f, n, e, b);
  }

  /** The notes stay true of what is left when an empty block is removed. */
  lemma RemoveOneTyped(f: Flow, n: Notes, e: BlockId)
    requires Typed(f, n) && Removable(f, e)
    ensures Typed(RemoveOne(f, e), Without(n, e))
  {
    var r := RemoveOne(f, e);
    RemoveOneLinked(f, e);
    StillOwned(f, n, e);
    RemoveOneKeeps(f, e, f.g.entry, 0);
    RemoveOneKeeps(f, e, f.g.exit, 0);
    forall b: BlockId | InScope(r, b) ensures TypedBlock(r, Without(n, e), b) {
      StillTypedBlock(f, n, e, b);
    }
  }
}
