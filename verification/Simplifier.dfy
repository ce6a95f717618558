/** The simplification of a function as the program performs it: blocks and predecessor sets are changed in place. */
module Simplifiers {
  import opened Options
  import opened Ir
  import opened PopPoints
  import opened Simplify
  import opened SimplifyPaths

  /** The empty blocks among `order`, in that order. */
  function EmptyOnes(g: Graph, order: seq<BlockId>): (r: seq<BlockId>)
    ensures forall b ::
            b in r <==> b in order && b < |g.blocks| && g.blocks[b].insns == [] && b != g.entry && b != g.exit
  {
    if order == [] then []
    else
      var last := order[|order| - 1];
      assert order == order[..|order| - 1] + [last];
      EmptyOnes(g, order[..|order| - 1]) +
      if last < |g.blocks| && g.blocks[last].insns == [] && last != g.entry && last != g.exit then [last] else []
  }

  lemma {:induction false} EmptyOnesDistinct(g: Graph, order: seq<BlockId>)
    requires Distinct(order)
    ensures Distinct(EmptyOnes(g, order))
  {
    if order != [] {
      var last, r := order[|order| - 1], EmptyOnes(g, order[..|order| - 1]);
      EmptyOnesDistinct(g, order[..|order| - 1]);
      forall i | 0 <= i < |r| ensures r[i] != last {
        assert r[i] in r;
      }
    }
  }

  lemma RedirectTwice(block: Block, e: BlockId, t: BlockId)
    requires e != t
    ensures Redirect(Redirect(block, e, t), e, t) == Redirect(block, e, t)
  {
    var r, n := Redirect(block, e, t), |block.insns|;
    if n > 0 {
      assert Retarget(r.insns[n - 1], e, t) == r.insns[n - 1];
      assert r.insns[n - 1 := r.insns[n - 1]] == r.insns;
    }
  }

  class Simplifier {
    const entry: BlockId
    const exit: BlockId
    var blocks: seq<Block>
    var order: seq<BlockId>                       // the blocks of the function, the exit last
    var preds: map<BlockId, seq<BlockId>>

    constructor (g: Graph, order: seq<BlockId>)
      ensures Current() == Flow(g, order, map[])
    {
      entry, exit, blocks, this.order, preds := g.entry, g.exit, g.blocks, order, map[];
    }

    function Current(): Flow
      reads this
    {
      Flow(Graph(blocks, entry, exit), order, preds)
    }

    /** Records every block with each of its successors. */
    method ComputePredecessors()
      requires preds == map[] && forall i | 0 <= i < |order| :: order[i] < |blocks|
      modifies this`preds
      ensures forall b: BlockId, a: BlockId {:trigger a in PredsOf(Current(), b)} ::
                a in PredsOf(Current(), b) <==> a in order && b in Succs(blocks[a])
    {
      for k := 0 to |order|
        invariant forall b: BlockId, a: BlockId {:trigger a in PredsOf(Current(), b)} ::
                    a in PredsOf(Current(), b) <==> a in order[..k] && a < |blocks| && b in Succs(blocks[a])
      {
        var a := order[k];
        assert order[..k + 1] == order[..k] + [a];
        AddPredecessor(blocks[a].succ0, a);
        AddPredecessor(blocks[a].succ1, a);
      }
      assert order[..|order|] == order;
    }

    method AddPredecessor(s: Option<BlockId>, a: BlockId)
      modifies this`preds
      ensures forall b: BlockId, x: BlockId {:trigger x in PredsOf(Current(), b)} ::
                x in PredsOf(Current(), b) <==> x in PredsOf(old(Current()), b) || (s == Some(b) && x == a)
    {
      if s.Some? {
        if s.value !in preds {
          preds := preds[s.value := []];
        }
        preds := preds[s.value := Insert(preds[s.value], a)];
      }
    }

    /** Leads block `p` to `t` instead of `e`. */
    method RedirectBlock(p: BlockId, e: BlockId, t: BlockId)
      requires p < |blocks|
      modifies this`blocks
      ensures blocks == old(blocks)[p := Redirect(old(blocks[p]), e, t)]
    {
      var block := blocks[p];
      if block.succ0 == Some(e) { block := block.(succ0 := Some(t)); }
      if block.succ1 == Some(e) { block := block.(succ1 := Some(t)); }
      if block.insns != [] {
        var last := block.insns[|block.insns| - 1];
        if IsBranch(last) {
          if last.taken == e { last := last.(taken := t); }
          if last.Branch? && last.notTaken == e { last := last.(notTaken := t); }
        }
        block := block.(insns := block.insns[|block.insns| - 1 := last]);
      }
      blocks := blocks[p := block];
    }

    /** Leads the blocks of `ps`, and adds them to the predecessors of `t`. */
    method HandOver(ps: seq<BlockId>, e: BlockId, t: BlockId)
      requires (forall p | p in ps :: p < |blocks|) && t in preds && e != t
      modifies this`blocks, this`preds
      ensures blocks == Redirected(old(blocks), ps, e, Some(t))
      ensures preds == old(preds)[t := InsertAll(old(preds[t]), ps)]
    {
      ghost var was := blocks;
      for k := 0 to |ps|
        invariant blocks == Redirected(was, ps[..k], e, Some(t))
        invariant preds == old(preds)[t := InsertAll(old(preds[t]), ps[..k])]
      {
        var p := ps[k];
        assert ps[..k + 1][..k] == ps[..k] && p in ps;
        RedirectedOneMore(was, ps, k, e, t);
        preds := preds[t := Insert(preds[t], p)];
        RedirectBlock(p, e, t);
      }
      assert ps[..|ps|] == ps;
    }

    /** Removes an empty block. */
    method RemoveBlock(e: BlockId)
      requires Linked(Current()) && Removable(Current(), e)
      modifies this`blocks, this`order, this`preds
      ensures Current() == RemoveOne(old(Current()), e)
    {
      hide Linked, Removable, Redirected, Redirect, Unlinked, Handed, InsertAll, Insert, Delete;
      ghost var f := Current();
      KnownSuccessor(f, e);
      var t := Onward(blocks[e]);
      if t.Some? {
        preds := preds[t.value := Delete(preds[t.value], e)];
        if e in preds {
          assert preds[e] == PredsOf(f, e);
          HandOver(preds[e], e, t.value);
        }
      }
      HandedOver(f, e, blocks, preds);
      blocks := Unlinked(blocks, e);
      preds := preds - {e};
      order := Delete(order, e);
    }

    method FindEmptyBlocks() returns (es: seq<BlockId>)
      requires Linked(Current())
      ensures es == EmptyOnes(Current().g, order)
    {
      es := [];
      for k := 0 to |order|
        invariant es == EmptyOnes(Current().g, order[..k])
      {
        assert order[..k + 1][..k] == order[..k];
        if blocks[order[k]].insns == [] && order[k] != entry && order[k] != exit {
          es := es + [order[k]];
        }
      }
      assert order[..|order|] == order;
    }

    /** Removes all empty blocks, in the order of the blocks of the function; `tr` says that this can be done. */
    method RemoveEmptyBlocks(ghost tr: seq<Flow>)
      requires Trace(EmptyOnes(Current().g, order), tr) && tr[0] == Current() && Linked(Current())
      modifies this`blocks, this`order, this`preds
      ensures var es := EmptyOnes(old(Current()).g, old(order));
              Current() == tr[|es|] && LeftOf(old(Current()), es, Current())
    {
      hide Linked, LeftOf, RemoveOne, EmptyOnes, Removable;
      var es := FindEmptyBlocks();
      for k := 0 to |es|
        invariant Current() == tr[k]
      {
        assert RemovedAt(es, tr, k);
        RemoveBlock(es[k]);
      }
      TraceLeaves(es, tr, |es|);
      assert es[..|es|] == es;
    }
  }

  lemma RedirectedOneMore(blocks: seq<Block>, ps: seq<BlockId>, k: nat, e: BlockId, t: BlockId)
    requires k < |ps| && e != t && ps[k] < |blocks|
    ensures var r := Redirected(blocks, ps[..k], e, Some(t));
            Redirected(blocks, ps[..k + 1], e, Some(t)) == r[ps[k] := Redirect(r[ps[k]], e, t)]
  {
    assert ps[..k + 1] == ps[..k] + [ps[k]];
    RedirectTwice(blocks[ps[k]], e, t);
  }

  /** What handing over amounts to, with and without predecessors. */
  lemma HandedOver(f: Flow, e: BlockId, blocks: seq<Block>, preds: map<BlockId, seq<BlockId>>)
    requires e < |f.g.blocks|
    requires var t := Onward(f.g.blocks[e]);
             match t
             case None => blocks == f.g.blocks && preds == f.preds
             case Some(s) =>
               s in f.preds && s != e &&
               if e in f.preds then
                 && blocks == Redirected(f.g.blocks, f.preds[e], e, t)
                 && preds == f.preds[s := InsertAll(Delete(f.preds[s], e), f.preds[e])]
               else blocks == f.g.blocks && preds == f.preds[s := Delete(f.preds[s], e)]
    ensures blocks == Redirected(f.g.blocks, PredsOf(f, e), e, Onward(f.g.blocks[e]))
    ensures preds == Handed(f.preds, PredsOf(f, e), e, Onward(f.g.blocks[e]))
  {
  }

  /** The successor of an empty block has recorded that block as a predecessor. */
  lemma KnownSuccessor(f: Flow, e: BlockId)
    requires Linked(f) && Removable(f, e)
    ensures e < |f.g.blocks|
    ensures var t := Onward(f.g.blocks[e]);
            t.Some? ==> t.value in f.preds && t.value != e && e in PredsOf(f, t.value)
    ensures forall p | p in PredsOf(f, e) :: p < |f.g.blocks|
  {
    var t := Onward(f.g.blocks[e]);
    if t.Some? {
      OnlyOnward(f, e, t.value);
      assert t.value in f.order && e in PredsOf(f, t.value);
    }
    forall p | p in PredsOf(f, e) ensures p < |f.g.blocks| {
      PredIsInScope(f, e, p);
    }
  }
}
