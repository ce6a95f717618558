/** A function whose blocks are typed can be rid of its empty blocks, in the order in which they were added. */
module Drain {
  import opened Ir
  import opened StackShape
  import opened PopPoints
  import opened Simplify
  import opened SimplifyPaths
  import opened Typing

  /** All empty blocks, of which only the last may lead nowhere, when it cannot be reached. */
  ghost predicate Draining(f: Flow, n: Notes, es: seq<BlockId>) {
    && Empties(f, es) && (forall b: BlockId | b in f.order && IsEmpty(f, b) :: b in es)
    && forall k | 0 <= k < |es| :: Onward(BlockOf(f.g, es[k])).Some? || (k == |es| - 1 && !Live(f.g, n, es[k]))
  }

  /** What the removal of empty blocks leaves of a typed function. */
  ghost predicate Drained(f: Flow, n: Notes, r: Flow, m: Notes) {
    && Typed(r, m) && m.parent.Keys <= n.parent.Keys && m == n.(parent := m.parent)
    && |r.g.blocks| == |f.g.blocks| && r.g.entry == f.g.entry && r.g.exit == f.g.exit
    && (forall b {:trigger b in r.order} | b in r.order :: BlockOf(r.g, b).succ0.Some? <==> BlockOf(f.g, b).succ0.Some?)
  }

  lemma NextDrained(f: Flow, n: Notes, r: Flow, m: Notes, e: BlockId)
    requires Drained(f, n, r, m) && Removable(r, e)
    ensures Drained(f, n, RemoveOne(r, e), Without(m, e))
  {
    RemoveOneTyped(r, m, e);
    forall b | b in RemoveOne(r, e).order
      ensures BlockOf(RemoveOne(r, e).g, b).succ0.Some? <==> BlockOf(f.g, b).succ0.Some?
    {
      assert b in r.order;
      RenamedSuccessors(r, e, b);
    }
  }

  lemma LeadsFurther(r: Flow, m: Notes, e: BlockId)
    requires Typed(r, m) && InScope(r, e) && IsEmpty(r, e) && r.g.blocks[e].succ0.Some?
    ensures Removable(r, e)
  {
    assert TypedBlock(r, m, e);
    assert r.g.blocks[e].succ0.value in Succs(r.g.blocks[e]);
  }

  /** When the last empty block cannot be reached, no block is left that leads to it. */
  lemma LastHasNoPredecessor(r: Flow, m: Notes, e: BlockId)
    requires Typed(r, m) && InScope(r, e) && IsEmpty(r, e) && r.g.blocks[e].succ0.None? && !Live(r.g, m, e)
    requires forall b: BlockId | b in r.order && IsEmpty(r, b) :: b == e
    ensures Removable(r, e)
  {
    var ps := PredsOf(r, e);
    assert ps == [] || ps[0] in ps;
    assert WellFormedBlock(r.g.blocks[e]);
    forall a: BlockId ensures a !in PredsOf(r, e) {
      if InScope(r, a) { assert TypedBlock(r, m, a); }
    }
  }

  ghost predicate DrainedTo(f: Flow, n: Notes, es: seq<BlockId>, k: nat, tr: seq<Flow>, m: Notes)
    requires k <= |es|
  {
    Trace(es[..k], tr) && tr[0] == f && LeftOf(f, es[..k], tr[k]) && Drained(f, n, tr[k], m)
  }

  /** Every empty block can be removed when it is its turn. */
  lemma RemovableInTurn(f: Flow, n: Notes, es: seq<BlockId>, k: nat, r: Flow, m: Notes)
    requires WellFormed(f.g) && Draining(f, n, es) && k < |es| && LeftOf(f, es[..k], r) && Drained(f, n, r, m)
    ensures Removable(r, es[k])
  {
    hide Arity, Enclosed, Exact, Owned, Removable, TypedBlock;
    var e := es[k];
    assert e in es && e !in es[..k];
    assert IsEmpty(f, e) && WellFormedBlock(f.g.blocks[e]);
    assert e in r.order && IsEmpty(r, e) && WellFormedBlock(r.g.blocks[e]);
    if r.g.blocks[e].succ0.Some? {
      LeadsFurther(r, m, e);
    } else {
      forall b: BlockId | b in r.order && IsEmpty(r, b) ensures b == e {
        assert b in es && b !in es[..k] && es == es[..k] + [e];
      }
      LastHasNoPredecessor(r, m, e);
    }
  }

  lemma {:induction false} DrainTo(f: Flow, n: Notes, es: seq<BlockId>, k: nat) returns (tr: seq<Flow>, m: Notes)
    requires Typed(f, n) && Draining(f, n, es) && k <= |es|
    ensures DrainedTo(f, n, es, k, tr, m)
  {
    if k == 0 {
      tr, m := [f], n;
      assert es[..0] == [];
    } else {
      tr, m := DrainTo(f, n, es, k - 1);
      var e := es[k - 1];
      RemovableInTurn(f, n, es, k - 1, tr[k - 1], m);
      tr, m := DrainNext(f, n, es, k, tr, m);
    }
  }

  lemma DrainNext(f: Flow, n: Notes, es: seq<BlockId>, k: nat, tr: seq<Flow>, m: Notes)
    returns (tr': seq<Flow>, m': Notes)
    requires 0 < k <= |es| && DrainedTo(f, n, es, k - 1, tr, m) && Removable(tr[k - 1], es[k - 1])
    ensures DrainedTo(f, n, es, k, tr', m')
  {
    var r, e := tr[k - 1], es[k - 1];
    assert es[..k] == es[..k - 1] + [e];
    NextDrained(f, n, r, m, e);
    TraceExtends(es[..k - 1], tr, e, RemoveOne(r, e));
    LeftAfterOne(f, es[..k - 1], r, e, RemoveOne(r, e));
    tr', m' := tr + [RemoveOne(r, e)], Without(m, e);
  }

  /** All empty blocks can be removed, and what is left is typed and has none. */
  lemma DrainAll(f: Flow, n: Notes, es: seq<BlockId>) returns (tr: seq<Flow>, m: Notes)
    requires Typed(f, n) && Draining(f, n, es)
    ensures Trace(es, tr) && tr[0] == f && LeftOf(f, es, tr[|es|]) && Drained(f, n, tr[|es|], m)
    ensures forall b: BlockId | b in tr[|es|].order :: !IsEmpty(tr[|es|], b)
  {
    tr, m := DrainTo(f, n, es, |es|);
    assert es[..|es|] == es;
  }
}
