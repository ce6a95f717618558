/** Removing empty blocks keeps the paths through a function. */
module SimplifyPaths {
  import opened Options
  import opened Ir
  import opened Paths
  import opened PopPoints
  import opened Simplify

  // ----- one removal, seen from the edges -----

  ghost predicate Edge(g: Graph, a: BlockId, b: BlockId) { a < |g.blocks| && b in Succs(g.blocks[a]) }

  /** The graph `r` is `f` without `e`, and with an edge for every way through `e`. */
  ghost predicate Spliced(f: Flow, r: Flow, e: BlockId) {
    && |r.g.blocks| == |f.g.blocks| && e < |f.g.blocks| && e in f.order && !Edge(f.g, e, e)
    && (forall b :: b in r.order <==> b in f.order && b != e)
    && forall a, b {:trigger Edge(r.g, a, b)} {:trigger Edge(f.g, a, b)} | a in r.order && b in r.order ::
         Edge(r.g, a, b) <==> Edge(f.g, a, b) || (Edge(f.g, a, e) && Edge(f.g, e, b))
  }

  /** An empty block leads to one block at most. */
  lemma OnlyOnward(f: Flow, e: BlockId, b: BlockId)
    requires Linked(f) && IsEmpty(f, e)
    ensures Edge(f.g, e, b) <==> Onward(f.g.blocks[e]) == Some(b)
  {
    assert WellFormedBlock(f.g.blocks[e]);
  }

  lemma RemoveOneSplices(f: Flow, e: BlockId)
    requires Linked(f) && Removable(f, e)
    ensures Spliced(f, RemoveOne(f, e), e)
  {
    var r := RemoveOne(f, e);
    OnlyOnward(f, e, e);
    forall a, b | a in r.order && b in r.order
      ensures Edge(r.g, a, b) <==> Edge(f.g, a, b) || (Edge(f.g, a, e) && Edge(f.g, e, b))
    {
      SuccsAfter(f, e, a);
      OnlyOnward(f, e, b);
    }
  }

  // ----- paths -----

  /** A path through blocks of the function. */
  ghost predicate Inside(f: Flow, p: seq<BlockId>) { IsPath(f.g, p) && forall b | b in p :: b in f.order }

  lemma AppendToPath(f: Flow, p: seq<BlockId>, b: BlockId)
    requires Inside(f, p) && Edge(f.g, Last(p), b) && b < |f.g.blocks| && b in f.order
    ensures Inside(f, p + [b]) && Last(p + [b]) == b && (p + [b])[0] == p[0]
  {
    var q := p + [b];
    forall k {:trigger q[k + 1]} | 0 <= k < |q| - 1 ensures q[k + 1] in Succs(f.g.blocks[q[k]]) {
      if k < |p| - 1 { assert q[k + 1] == p[k + 1]; }
    }
  }

  lemma DropLast(f: Flow, p: seq<BlockId>)
    requires Inside(f, p) && |p| > 1
    ensures var q := p[..|p| - 1];
            Inside(f, q) && p == q + [Last(p)] && Last(q) == p[|p| - 2] && q[0] == p[0] && Edge(f.g, Last(q), Last(p))
    ensures Last(p) in f.order && Last(p) < |f.g.blocks|
  {
    var q, k := p[..|p| - 1], |p| - 2;
    forall k {:trigger q[k + 1]} | 0 <= k < |q| - 1 ensures q[k + 1] in Succs(f.g.blocks[q[k]]) {
      assert q[k + 1] == p[k + 1];
    }
    assert p[k + 1] in Succs(f.g.blocks[p[k]]);
  }

  lemma DeleteAppended(p: seq<BlockId>, b: BlockId, e: BlockId)
    ensures Delete(p + [b], e) == Delete(p, e) + if b == e then [] else [b]
  {
    assert (p + [b])[..|p|] == p;
  }

  lemma DeleteOne(b: BlockId, e: BlockId)
    requires b != e
    ensures Delete([b], e) == [b]
  {
    assert [b] == [] + [b];
    DeleteAppended([], b, e);
  }

  /** A path that does not end in the removed block, without that block, is a path. */
  lemma {:induction false} PathDrops(f: Flow, r: Flow, e: BlockId, p: seq<BlockId>)
    requires Spliced(f, r, e) && Inside(f, p) && p[0] != e && Last(p) != e
    ensures Inside(r, Delete(p, e)) && Delete(p, e)[0] == p[0] && Last(Delete(p, e)) == Last(p)
    decreases |p|
  {
    var b := Last(p);
    if |p| == 1 {
      assert p == [b];
      DeleteOne(b, e);
    } else {
      DropLast(f, p);
      var p1 := p[..|p| - 1];
      DeleteAppended(p1, b, e);
      var before := p1;
      if Last(p1) == e {
        DropLast(f, p1);
        before := p1[..|p1| - 1];
        DeleteAppended(before, e, e);
      }
      PathDrops(f, r, e, before);
      assert Edge(r.g, Last(before), b);
      AppendToPath(r, Delete(before, e), b);
    }
  }

  /** Every path of the new graph is a path of the old one without the removed block. */
  lemma {:induction false} PathFills(f: Flow, r: Flow, e: BlockId, q: seq<BlockId>) returns (p: seq<BlockId>)
    requires Spliced(f, r, e) && Inside(r, q)
    ensures Inside(f, p) && p[0] == q[0] && Last(p) == Last(q) && Delete(p, e) == q && |p| >= |q|
    ensures forall b | b in p :: b in q || b == e
    decreases |q|
  {
    var b := Last(q);
    if |q| == 1 {
      p := q;
      assert q == [b];
      DeleteOne(b, e);
    } else {
      DropLast(r, q);
      var p1 := PathFills(f, r, e, q[..|q| - 1]);
      p := FillEdge(f, r, e, p1, b);
    }
  }

  lemma FillEdge(f: Flow, r: Flow, e: BlockId, p1: seq<BlockId>, b: BlockId) returns (p: seq<BlockId>)
    requires Spliced(f, r, e) && Inside(f, p1) && Last(p1) in r.order && b in r.order && b < |f.g.blocks|
    requires Edge(r.g, Last(p1), b)
    ensures Inside(f, p) && p[0] == p1[0] && Last(p) == b && Delete(p, e) == Delete(p1, e) + [b] && |p| > |p1|
    ensures forall x | x in p :: x in p1 || x == e || x == b
  {
    p := p1;
    if !Edge(f.g, Last(p1), b) {
      AppendToPath(f, p1, e);
      DeleteAppended(p1, e, e);
      p := p1 + [e];
    }
    AppendToPath(f, p, b);
    DeleteAppended(p, b, e);
    p := p + [b];
  }

  // ----- many removals -----

  ghost predicate EmptyPath(f: Flow, p: seq<BlockId>) {
    Inside(f, p) && forall b | b in p :: IsEmpty(f, b)
  }

  ghost predicate NoEmptyCycle(f: Flow) {
    forall p | EmptyPath(f, p) && |p| > 1 :: p[0] != Last(p)
  }

  /** An empty block that is led to leads on. */
  ghost predicate LeadsOn(f: Flow, e: BlockId) {
    IsEmpty(f, e) && e in f.order && PredsOf(f, e) != [] ==> Onward(f.g.blocks[e]).Some?
  }

  /** No cycle is made of empty blocks only, and every empty block that is led to leads on. */
  ghost predicate Collapsible(f: Flow) {
    NoEmptyCycle(f) && forall e: BlockId {:trigger LeadsOn(f, e)} :: LeadsOn(f, e)
  }

  lemma CollapsibleIsRemovable(f: Flow, e: BlockId)
    requires Linked(f) && Collapsible(f) && IsEmpty(f, e) && e in f.order
    ensures Removable(f, e)
  {
    assert LeadsOn(f, e);
    OnlyOnward(f, e, e);
    var p := [e, e];
    if Onward(f.g.blocks[e]) == Some(e) {
      assert IsPath(f.g, p);
      assert EmptyPath(f, p);
    }
  }

  lemma StillEmpty(f: Flow, e: BlockId, b: BlockId)
    requires Linked(f) && Removable(f, e) && b in RemoveOne(f, e).order
    ensures IsEmpty(RemoveOne(f, e), b) <==> IsEmpty(f, b)
    ensures Onward(RemoveOne(f, e).g.blocks[b]).Some? <==> Onward(f.g.blocks[b]).Some?
    ensures RemoveOne(f, e).g.blocks[b].insns == [] <==> f.g.blocks[b].insns == []
  {
  }

  lemma StillNoEmptyCycle(f: Flow, e: BlockId)
    requires Linked(f) && NoEmptyCycle(f) && Removable(f, e)
    ensures NoEmptyCycle(RemoveOne(f, e))
  {
    var r := RemoveOne(f, e);
    RemoveOneSplices(f, e);
    forall q | EmptyPath(r, q) && |q| > 1 ensures q[0] != Last(q) {
      var p := PathFills(f, r, e, q);
      forall b | b in p ensures IsEmpty(f, b) {
        if b in q { StillEmpty(f, e, b); }
      }
      assert EmptyPath(f, p);
    }
  }

  lemma StillLeadsOn(f: Flow, e: BlockId, b: BlockId)
    requires Linked(f) && Removable(f, e) && LeadsOn(f, b)
    ensures LeadsOn(RemoveOne(f, e), b)
  {
    var r := RemoveOne(f, e);
    if IsEmpty(r, b) && b in r.order && PredsOf(r, b) != [] {
      StillEmpty(f, e, b);
      PredsAfter(f, e, b);
      assert PredsOf(r, b)[0] in PredsOf(r, b);
      if Onward(f.g.blocks[e]) == Some(b) { assert e in PredsOf(f, b); }
    }
  }

  lemma RemoveOneCollapsible(f: Flow, e: BlockId)
    requires Linked(f) && Collapsible(f) && Removable(f, e)
    ensures Collapsible(RemoveOne(f, e))
  {
    StillNoEmptyCycle(f, e);
    forall b: BlockId ensures LeadsOn(RemoveOne(f, e), b) {
      assert LeadsOn(f, b);
      StillLeadsOn(f, e, b);
    }
  }

  function DeleteAll(p: seq<BlockId>, es: seq<BlockId>): (r: seq<BlockId>)
    ensures forall b :: b in r <==> b in p && b !in es
  {
    if es == [] then p
    else
      assert es == es[..|es| - 1] + [es[|es| - 1]];
      Delete(DeleteAll(p, es[..|es| - 1]), es[|es| - 1])
  }

  ghost predicate Removed(f: Flow, e: BlockId, r: Flow) {
    Linked(f) && Removable(f, e) && r == RemoveOne(f, e)
  }

  /** The function before the blocks `es` are removed one by one, and after each of them. */
  ghost predicate Trace(es: seq<BlockId>, tr: seq<Flow>) {
    |tr| == |es| + 1 && forall k: nat {:trigger RemovedAt(es, tr, k)} | k < |es| :: RemovedAt(es, tr, k)
  }

  ghost predicate RemovedAt(es: seq<BlockId>, tr: seq<Flow>, k: nat)
    requires k < |es| && |tr| == |es| + 1
  {
    Removed(tr[k], es[k], tr[k + 1])
  }

  /** What is left of `f` when the empty blocks `es` are gone. */
  ghost predicate LeftOf(f: Flow, es: seq<BlockId>, r: Flow) {
    && Linked(r) && |r.g.blocks| == |f.g.blocks| && r.g.entry == f.g.entry && r.g.exit == f.g.exit
    && (forall b :: b in r.order <==> b in f.order && b !in es)
    && (forall b | b in r.order ::
          (IsEmpty(r, b) <==> IsEmpty(f, b)) && (r.g.blocks[b].insns == [] <==> f.g.blocks[b].insns == []))
    && forall e | e in es :: IsEmpty(f, e) && e in f.order
  }

  lemma LeftAfterOne(f: Flow, es: seq<BlockId>, r: Flow, e: BlockId, s: Flow)
    requires LeftOf(f, es, r) && Removed(r, e, s)
    ensures LeftOf(f, es + [e], s)
  {
    RemoveOneLinked(r, e);
    forall b | b in s.order
      ensures IsEmpty(s, b) <==> IsEmpty(f, b)
      ensures s.g.blocks[b].insns == [] <==> f.g.blocks[b].insns == []
    {
      StillEmpty(r, e, b);
    }
  }

  lemma LeftOfNothing(f: Flow)
    requires Linked(f)
    ensures LeftOf(f, [], f)
  {
  }

  /**
   Throughout the removal of empty blocks the predecessors stay the exact inverse of the successors, the successors
   of a block that ends in a branch stay the targets of the branch, and nothing refers to a block that has been
   removed.
   */
  lemma {:induction false} TraceLeaves(es: seq<BlockId>, tr: seq<Flow>, k: nat)
    requires Trace(es, tr) && k <= |es| && Linked(tr[0])
    ensures LeftOf(tr[0], es[..k], tr[k])
  {
    hide LeftOf, Linked, Removed;
    if k > 0 {
      TraceLeaves(es, tr, k - 1);
      assert RemovedAt(es, tr, k - 1);
      LeftAfterOne(tr[0], es[..k - 1], tr[k - 1], es[k - 1], tr[k]);
      assert es[..k] == es[..k - 1] + [es[k - 1]];
    } else {
      LeftOfNothing(tr[0]);
    }
  }

  lemma TraceExtends(es: seq<BlockId>, tr: seq<Flow>, e: BlockId, r: Flow)
    requires Trace(es, tr) && Removed(tr[|es|], e, r)
    ensures Trace(es + [e], tr + [r])
  {
    var es', tr' := es + [e], tr + [r];
    forall k: nat | k < |es'| ensures RemovedAt(es', tr', k) {
      if k < |es| { assert RemovedAt(es, tr, k); }
    }
  }

  /** Different empty blocks of the function, in any order. */
  ghost predicate Empties(f: Flow, es: seq<BlockId>) {
    Distinct(es) && forall e | e in es :: IsEmpty(f, e) && e in f.order
  }

  /** If no cycle is made of empty blocks and those that are led to lead on, all can be removed, in any order. */
  lemma {:induction false} CollapsibleTrace(f: Flow, es: seq<BlockId>) returns (tr: seq<Flow>)
    requires Linked(f) && Collapsible(f) && Empties(f, es)
    ensures Trace(es, tr) && tr[0] == f && Collapsible(tr[|es|])
  {
    if es == [] {
      tr := [f];
    } else {
      var before, e := es[..|es| - 1], es[|es| - 1];
      LastIsNew(es);
      tr := CollapsibleTrace(f, before);
      TraceLeaves(before, tr, |before|);
      assert before[..|before|] == before && e in es;
      tr := CollapsibleStep(f, before, tr, e);
    }
  }

  lemma CollapsibleStep(f: Flow, es: seq<BlockId>, tr: seq<Flow>, e: BlockId) returns (tr': seq<Flow>)
    requires Trace(es, tr) && tr[0] == f && LeftOf(f, es, tr[|es|]) && Collapsible(tr[|es|])
    requires IsEmpty(f, e) && e in f.order && e !in es
    ensures Trace(es + [e], tr') && tr'[0] == f && Collapsible(tr'[|es| + 1])
  {
    var r := tr[|es|];
    CollapsibleIsRemovable(r, e);
    RemoveOneCollapsible(r, e);
    TraceExtends(es, tr, e, RemoveOne(r, e));
    tr' := tr + [RemoveOne(r, e)];
  }

  lemma LastIsNew(es: seq<BlockId>)
    requires es != [] && Distinct(es)
    ensures es[|es| - 1] !in es[..|es| - 1] && Distinct(es[..|es| - 1]) && es == es[..|es| - 1] + [es[|es| - 1]]
  {
  }

  lemma TraceSplices(es: seq<BlockId>, tr: seq<Flow>, k: nat)
    requires Trace(es, tr) && k < |es|
    ensures Spliced(tr[k], tr[k + 1], es[k])
  {
    assert RemovedAt(es, tr, k);
    RemoveOneSplices(tr[k], es[k]);
  }

  /** Every path between blocks that stay is still a path, without the removed blocks. */
  lemma {:induction false} PathsDrop(es: seq<BlockId>, tr: seq<Flow>, k: nat, p: seq<BlockId>)
    requires Trace(es, tr) && k <= |es| && Inside(tr[0], p) && p[0] !in es[..k] && Last(p) !in es[..k]
    ensures var q := DeleteAll(p, es[..k]);
            Inside(tr[k], q) && q[0] == p[0] && Last(q) == Last(p)
  {
    if k > 0 {
      assert es[..k][..k - 1] == es[..k - 1] && es[..k] == es[..k - 1] + [es[k - 1]];
      PathsDrop(es, tr, k - 1, p);
      TraceSplices(es, tr, k - 1);
      PathDrops(tr[k - 1], tr[k], es[k - 1], DeleteAll(p, es[..k - 1]));
    }
  }

  /** Every path of what is left is a path of the function, without the removed blocks. */
  lemma {:induction false} PathsFill(es: seq<BlockId>, tr: seq<Flow>, k: nat, q: seq<BlockId>) returns (p: seq<BlockId>)
    requires Trace(es, tr) && k <= |es| && Inside(tr[k], q)
    ensures Inside(tr[0], p) && p[0] == q[0] && Last(p) == Last(q) && DeleteAll(p, es[..k]) == q
  {
    if k == 0 {
      p := q;
    } else {
      assert es[..k][..k - 1] == es[..k - 1];
      TraceSplices(es, tr, k - 1);
      var p1 := PathFills(tr[k - 1], tr[k], es[k - 1], q);
      p := PathsFill(es, tr, k - 1, p1);
    }
  }

  // ----- the sequences of blocks with code -----

  /** The blocks with instructions along a path. */
  function Work(g: Graph, p: seq<BlockId>): seq<BlockId> {
    if p == [] then []
    else Work(g, p[..|p| - 1]) + if Last(p) < |g.blocks| && g.blocks[Last(p)].insns == [] then [] else [Last(p)]
  }

  lemma {:induction false} DeleteKeepsWork(g: Graph, p: seq<BlockId>, e: BlockId)
    requires e < |g.blocks| && g.blocks[e].insns == []
    ensures Work(g, Delete(p, e)) == Work(g, p)
  {
    if p != [] {
      var q := Delete(p[..|p| - 1], e);
      DeleteKeepsWork(g, p[..|p| - 1], e);
      assert (q + [Last(p)])[..|q|] == q;
      assert Last(p) == e ==> Delete(p, e) == q;
    }
  }

  lemma {:induction false} DeleteAllKeepsWork(g: Graph, p: seq<BlockId>, es: seq<BlockId>)
    requires forall e | e in es :: e < |g.blocks| && g.blocks[e].insns == []
    ensures Work(g, DeleteAll(p, es)) == Work(g, p)
  {
    if es != [] {
      var e := es[|es| - 1];
      assert es == es[..|es| - 1] + [e] && e in es;
      DeleteAllKeepsWork(g, p, es[..|es| - 1]);
      DeleteKeepsWork(g, DeleteAll(p, es[..|es| - 1]), e);
    }
  }

  lemma {:induction false} SameWork(f: Flow, es: seq<BlockId>, r: Flow, q: seq<BlockId>)
    requires LeftOf(f, es, r) && forall b | b in q :: b in r.order
    ensures Work(r.g, q) == Work(f.g, q)
  {
    if q != [] {
      assert q == q[..|q| - 1] + [Last(q)];
      SameWork(f, es, r, q[..|q| - 1]);
    }
  }

  /** The sequence of blocks with instructions along some path from the entry to the exit. */
  ghost predicate Through(f: Flow, ns: seq<BlockId>) {
    exists p :: Inside(f, p) && p[0] == f.g.entry && Last(p) == f.g.exit && Work(f.g, p) == ns
  }

  /** The function has the same entry-to-exit sequences of non-empty blocks before and after. */
  lemma TraceKeepsSequences(es: seq<BlockId>, tr: seq<Flow>, ns: seq<BlockId>)
    requires Trace(es, tr) && Linked(tr[0])
    ensures Through(tr[0], ns) <==> Through(tr[|es|], ns)
  {
    var f, r, n := tr[0], tr[|es|], |es|;
    TraceLeaves(es, tr, n);
    assert es[..n] == es;
    if Through(f, ns) {
      var p :| Inside(f, p) && p[0] == f.g.entry && Last(p) == f.g.exit && Work(f.g, p) == ns;
      PathsDrop(es, tr, n, p);
      DeleteAllKeepsWork(f.g, p, es);
      SameWork(f, es, r, DeleteAll(p, es));
    }
    if Through(r, ns) {
      var q :| Inside(r, q) && q[0] == r.g.entry && Last(q) == r.g.exit && Work(r.g, q) == ns;
      var p := PathsFill(es, tr, n, q);
      DeleteAllKeepsWork(f.g, p, es);
      SameWork(f, es, r, q);
    }
  }

  /**
   If no cycle is made of empty blocks only and every empty block that is led to leads on, then all empty blocks can
   be removed, in any order, and the entry-to-exit sequences of non-empty blocks stay the same.
   */
  lemma SameSequences(f: Flow, es: seq<BlockId>) returns (tr: seq<Flow>)
    requires Linked(f) && Collapsible(f) && Empties(f, es)
    ensures Trace(es, tr) && tr[0] == f && LeftOf(f, es, tr[|es|])
    ensures forall ns :: Through(f, ns) <==> Through(tr[|es|], ns)
  {
    tr := CollapsibleTrace(f, es);
    TraceLeaves(es, tr, |es|);
    assert es[..|es|] == es;
    forall ns ensures Through(f, ns) <==> Through(tr[|es|], ns) {
      TraceKeepsSequences(es, tr, ns);
    }
  }
}
