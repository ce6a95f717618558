/**
 Removal of empty basic blocks: the predecessors of an empty block are led to its successor instead. What is
 recorded about predecessors, and the targets of branches, are kept up to date along the way.
 */
module Simplify {
  import opened Options
  import opened Ir
  import opened PopPoints

  // ----- ordered sets -----

  function Insert(s: seq<BlockId>, x: BlockId): (r: seq<BlockId>)
    ensures forall y :: y in r <==> y in s || y == x
  {
    if x in s then s else s + [x]
  }

  function InsertAll(s: seq<BlockId>, xs: seq<BlockId>): (r: seq<BlockId>)
    ensures forall y :: y in r <==> y in s || y in xs
  {
    if xs == [] then s
    else
      assert xs == xs[..|xs| - 1] + [xs[|xs| - 1]];
      Insert(InsertAll(s, xs[..|xs| - 1]), xs[|xs| - 1])
  }

  function Delete(s: seq<BlockId>, x: BlockId): (r: seq<BlockId>)
    ensures forall y :: y in r <==> y in s && y != x
  {
    if s == [] then []
    else
      assert s == s[..|s| - 1] + [s[|s| - 1]];
      var last := s[|s| - 1];
      Delete(s[..|s| - 1], x) + if last == x then [] else [last]
  }

  lemma {:induction false} DeleteDistinct(s: seq<BlockId>, x: BlockId)
    requires Distinct(s)
    ensures Distinct(Delete(s, x))
  {
    if s != [] {
      DeleteDistinct(s[..|s| - 1], x);
      var r := Delete(s[..|s| - 1], x);
      forall i | 0 <= i < |r| ensures r[i] != s[|s| - 1] {
        assert r[i] in r;
      }
    }
  }

  // ----- the removal of one block -----

  function Renamed(s: Option<BlockId>, e: BlockId, t: BlockId): Option<BlockId> {
    if s == Some(e) then Some(t) else s
  }

  function Retarget(insn: Insn, e: BlockId, t: BlockId): Insn {
    match insn
    case Goto(x) => Goto(if x == e then t else x)
    case Branch(c, x, y) => Branch(c, if x == e then t else x, if y == e then t else y)
    case _ => insn
  }

  /** A block that is led to `t` instead of `e`. */
  function Redirect(block: Block, e: BlockId, t: BlockId): Block {
    var n := |block.insns|;
    Block(if n > 0 then block.insns[n - 1 := Retarget(block.insns[n - 1], e, t)] else [],
          Renamed(block.succ0, e, t), Renamed(block.succ1, e, t))
  }

  function Onward(block: Block): Option<BlockId> {
    if block.succ0.Some? then block.succ0 else block.succ1
  }

  function Redirected(blocks: seq<Block>, ps: seq<BlockId>, e: BlockId, t: Option<BlockId>): (r: seq<Block>)
    ensures |r| == |blocks|
    ensures forall b {:trigger r[b]} | 0 <= b < |r| ::
            r[b] == if b in ps && t.Some? then Redirect(blocks[b], e, t.value) else blocks[b]
  {
    seq(|blocks|, b requires 0 <= b < |blocks| =>
      if b in ps && t.Some? then Redirect(blocks[b], e, t.value) else blocks[b])
  }

  /** The predecessors of the successor: the block to be removed is replaced by its own predecessors. */
  function Handed(
      preds: map<BlockId, seq<BlockId>>, ps: seq<BlockId>, e: BlockId, t: Option<BlockId>): map<BlockId, seq<BlockId>> {
    if t.Some? && t.value in preds then preds[t.value := InsertAll(Delete(preds[t.value], e), ps)] else preds
  }

  function BlockOf(g: Graph, b: BlockId): Block {
    if b < |g.blocks| then g.blocks[b] else Block([], None, None)
  }

  function Unlinked(blocks: seq<Block>, e: BlockId): seq<Block> {
    if e < |blocks| then blocks[e := Block(blocks[e].insns, None, None)] else blocks
  }

  function RemoveOne(f: Flow, e: BlockId): Flow {
    var t, ps := Onward(BlockOf(f.g, e)), PredsOf(f, e);
    Flow(f.g.(blocks := Unlinked(Redirected(f.g.blocks, ps, e, t), e)),
         Delete(f.order, e), Handed(f.preds, ps, e, t) - {e})
  }

  predicate IsEmpty(f: Flow, b: BlockId) {
    b < |f.g.blocks| && f.g.blocks[b].insns == [] && b != f.g.entry && b != f.g.exit
  }

  /** An empty block of the function that can be removed without leaving a predecessor behind. */
  ghost predicate Removable(f: Flow, e: BlockId) {
    && IsEmpty(f, e) && e in f.order && Onward(f.g.blocks[e]) != Some(e)
    && (PredsOf(f, e) != [] ==> Onward(f.g.blocks[e]).Some?)
  }

  lemma RedirectWellFormed(block: Block, e: BlockId, t: BlockId)
    requires WellFormedBlock(block)
    ensures WellFormedBlock(Redirect(block, e, t))
    ensures Succs(Redirect(block, e, t)) ==
            (if e in Succs(block) then Succs(block) - {e} + {t} else Succs(block))
  {
    var r, n := Redirect(block, e, t), |block.insns|;
    if n > 0 { assert r.insns[n - 1] == Retarget(block.insns[n - 1], e, t); }
  }

  lemma SuccsAfter(f: Flow, e: BlockId, a: BlockId)
    requires Linked(f) && Removable(f, e) && a in f.order && a != e
    ensures var s, s' := Succs(f.g.blocks[a]), Succs(RemoveOne(f, e).g.blocks[a]);
            if e in s then Onward(f.g.blocks[e]).Some? && s' == s - {e} + {Onward(f.g.blocks[e]).value} else s' == s
  {
    if a in PredsOf(f, e) { RedirectWellFormed(f.g.blocks[a], e, Onward(f.g.blocks[e]).value); }
  }

  lemma RemoveOneWellFormed(f: Flow, e: BlockId)
    requires Linked(f) && Removable(f, e)
    ensures WellFormed(RemoveOne(f, e).g)
  {
    hide Arity, Delete, Distinct, Enclosed, Exact, Retarget;
    var r, t := RemoveOne(f, e), Onward(f.g.blocks[e]);
    forall b | 0 <= b < |r.g.blocks|
      ensures WellFormedBlock(r.g.blocks[b])
      ensures ValidSucc(r.g, r.g.blocks[b].succ0) && ValidSucc(r.g, r.g.blocks[b].succ1)
    {
      assert WellFormedBlock(f.g.blocks[b]) && WellFormedBlock(f.g.blocks[e]);
      if b in PredsOf(f, e) && t.Some? { RedirectWellFormed(f.g.blocks[b], e, t.value); }
    }
  }

  lemma PredsAfter(f: Flow, e: BlockId, b: BlockId)
    requires Linked(f) && Removable(f, e) && b in f.order && b != e
    ensures forall a :: a in PredsOf(RemoveOne(f, e), b) <==>
              a != e && (a in PredsOf(f, b) || (Onward(f.g.blocks[e]) == Some(b) && a in PredsOf(f, e)))
  {
    var t := Onward(f.g.blocks[e]);
    assert e !in PredsOf(f, e);
    if t == Some(b) { assert e in PredsOf(f, b); }
  }

  lemma RemoveOneOrder(f: Flow, e: BlockId)
    requires Linked(f) && Removable(f, e)
    ensures var r := RemoveOne(f, e);
            Distinct(r.order) && forall i | 0 <= i < |r.order| :: r.order[i] < |r.g.blocks|
  {
    var r := RemoveOne(f, e);
    DeleteDistinct(f.order, e);
    forall i | 0 <= i < |r.order| ensures r.order[i] < |r.g.blocks| {
      assert r.order[i] in r.order;
    }
  }

  lemma RemoveOneInverse(f: Flow, e: BlockId, b: BlockId, a: BlockId)
    requires Linked(f) && Removable(f, e) && b in f.order && b != e
    ensures ExactAt(RemoveOne(f, e), b, a)
  {
    hide Arity, Delete, Distinct, Enclosed, InsertAll, Redirect;
    PredsAfter(f, e, b);
    if a in f.order && a != e { SuccsAfter(f, e, a); }
  }

  lemma RemoveOneExact(f: Flow, e: BlockId)
    requires Linked(f) && Removable(f, e)
    ensures Exact(RemoveOne(f, e))
  {
    forall b: BlockId, a: BlockId ensures ExactAt(RemoveOne(f, e), b, a) {
      if b in RemoveOne(f, e).order { RemoveOneInverse(f, e, b, a); }
    }
  }

  lemma RemoveOneEnclosed(f: Flow, e: BlockId)
    requires Linked(f) && Removable(f, e)
    ensures Enclosed(RemoveOne(f, e))
  {
    var r := RemoveOne(f, e);
    forall a | a in r.order ensures Succs(r.g.blocks[a]) <= set b | b in r.order {
      SuccsAfter(f, e, a);
    }
  }

  /** The exact inverse of the successors survives the removal of a block, and so do the targets of branches. */
  lemma RemoveOneLinked(f: Flow, e: BlockId)
    requires Linked(f) && Removable(f, e)
    ensures Linked(RemoveOne(f, e))
  {
    RemoveOneWellFormed(f, e);
    RemoveOneOrder(f, e);
    RemoveOneExact(f, e);
    RemoveOneEnclosed(f, e);
    assert f.g.exit !in PredsOf(f, e);
  }

  /** An empty block can be removed if and only if nothing leads to it, or it leads somewhere itself. */
  lemma RemovableExactly(f: Flow, e: BlockId)
    requires Linked(f) && IsEmpty(f, e) && e in f.order && Onward(f.g.blocks[e]) != Some(e)
    ensures Linked(RemoveOne(f, e)) <==> PredsOf(f, e) == [] || Onward(f.g.blocks[e]).Some?
  {
    if PredsOf(f, e) == [] || Onward(f.g.blocks[e]).Some? {
      RemoveOneLinked(f, e);
    } else {
      var a, r := PredsOf(f, e)[0], RemoveOne(f, e);
      assert a in PredsOf(f, e);
      assert a in r.order && e in Succs(r.g.blocks[a]) && e !in r.order;
    }
  }
}
