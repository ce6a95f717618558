/** Paths through a control-flow graph. */
module Paths {
  import opened Ir

  ghost predicate IsPath(g: Graph, p: seq<BlockId>) {
    && p != []
    && (forall k | 0 <= k < |p| :: p[k] < |g.blocks|)
    && forall k {:trigger p[k + 1]} | 0 <= k < |p| - 1 :: p[k + 1] in Succs(g.blocks[p[k]])
  }

  function Last(p: seq<BlockId>): BlockId
    requires p != []
  {
    p[|p| - 1]
  }

  ghost predicate PathBetween(g: Graph, a: BlockId, b: BlockId, p: seq<BlockId>) {
    IsPath(g, p) && p[0] == a && Last(p) == b
  }

  ghost predicate Reachable(g: Graph, a: BlockId, b: BlockId) {
    exists p :: PathBetween(g, a, b, p)
  }

  lemma ReachesItself(g: Graph, a: BlockId)
    requires a < |g.blocks|
    ensures Reachable(g, a, a)
  {
    assert PathBetween(g, a, a, [a]);
  }

  lemma ReachesFurther(g: Graph, a: BlockId, b: BlockId, c: BlockId)
    requires Reachable(g, a, b) && b < |g.blocks| && c in Succs(g.blocks[b]) && c < |g.blocks|
    ensures Reachable(g, a, c)
  {
    var p :| PathBetween(g, a, b, p);
    var q := p + [c];
    forall k {:trigger q[k + 1]} | 0 <= k < |q| - 1 ensures q[k + 1] in Succs(g.blocks[q[k]]) {
      if k < |p| - 1 { assert q[k + 1] == p[k + 1]; }
    }
    assert PathBetween(g, a, c, q);
  }
}
