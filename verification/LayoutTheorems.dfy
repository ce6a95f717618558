/** The layout of a whole function. */
module LayoutTheorems {
  import opened Options
  import opened Ir
  import opened Paths
  import opened Layout
  import opened LayoutFacts
  import opened Listings
  import opened ControlFlow

  // ----- which blocks are laid out -----

  lemma FunctionCloses(g: Graph, kills: map<BlockId, nat>, params: nat)
    requires WellFormed(g) && kills.Keys == BlockIds(g)
    ensures var v := PlaceFunction(g, kills, params);
            Tidy(g, v) && forall b | b in v.placed :: Closed(g, v, b)
  {
    PlaceCloses(g, kills, Initial(params), g.blocks[g.entry].succ0, 0);
  }

  ghost predicate AllReachable(g: Graph, root: BlockId, blocks: set<BlockId>) {
    forall b {:trigger Reachable(g, root, b)} | b in blocks :: Reachable(g, root, b)
  }

  lemma {:induction false} PlaceReaches(
      g: Graph, kills: map<BlockId, nat>, v: View, s: Option<BlockId>, offset: int, root: BlockId)
    requires WellFormed(g) && ValidSucc(g, s) && kills.Keys == BlockIds(g) && Tidy(g, v)
    requires AllReachable(g, root, v.placed) && (s.Some? ==> Reachable(g, root, s.value))
    ensures AllReachable(g, root, Place(g, kills, v, s, offset).placed)
    decreases BlockIds(g) - v.placed
  {
    hide Below, Reachable, SiteOf, WellFormedBlock;
    if s.Some? && s.value !in v.placed && s.value != g.exit {
      var b := s.value;
      var v1 := PlaceBlock(g, kills, v, b, offset);
      var after := v1.sites[b].end.offset;
      assert b in BlockIds(g) - v.placed && b !in BlockIds(g) - v1.placed;
      var v2 := Place(g, kills, v1, g.blocks[b].succ0, after);
      if g.blocks[b].succ0.Some? { ReachesFurther(g, root, b, g.blocks[b].succ0.value); }
      PlaceReaches(g, kills, v1, g.blocks[b].succ0, after, root);
      if g.blocks[b].succ1.Some? { ReachesFurther(g, root, b, g.blocks[b].succ1.value); }
      PlaceReaches(g, kills, v2, g.blocks[b].succ1, after, root);
    }
  }

  lemma {:induction false} PathIsPlaced(g: Graph, v: View, p: seq<BlockId>)
    requires IsPath(g, p) && g.exit !in p && p[0] in v.placed
    requires forall b | b in v.placed :: Closed(g, v, b)
    ensures Last(p) in v.placed
  {
    if |p| > 1 {
      var q := p[..|p| - 1];
      forall k {:trigger q[k + 1]} | 0 <= k < |q| - 1 ensures q[k + 1] in Succs(g.blocks[q[k]]) {
        assert q[k + 1] == p[k + 1];
      }
      PathIsPlaced(g, v, q);
      assert Closed(g, v, Last(q));
      var k := |p| - 2;
      assert p[k + 1] in Succs(g.blocks[p[k]]);
    }
  }

  ghost predicate ReachableAvoidingExit(g: Graph, a: BlockId, b: BlockId) {
    exists p :: PathBetween(g, a, b, p) && g.exit !in p
  }

  /**
   The blocks laid out are those that control can reach from the start of the function: none is forgotten, and
   nothing else is laid out.
   */
  lemma LaidOutIsReachable(g: Graph, kills: map<BlockId, nat>, params: nat)
    requires WellFormed(g) && kills.Keys == BlockIds(g) && g.blocks[g.entry].succ0.Some?
    ensures var v, root := PlaceFunction(g, kills, params), g.blocks[g.entry].succ0.value;
            && (forall b :: b in v.placed ==> Reachable(g, root, b) && b != g.exit)
            && (forall b :: ReachableAvoidingExit(g, root, b) ==> b in v.placed)
  {
    var v, root := PlaceFunction(g, kills, params), g.blocks[g.entry].succ0.value;
    ReachesItself(g, root);
    PlaceReaches(g, kills, Initial(params), Some(root), 0, root);
    FunctionCloses(g, kills, params);
    forall b | b in v.placed ensures Reachable(g, root, b) && b != g.exit {
    }
    forall b | ReachableAvoidingExit(g, root, b) ensures b in v.placed {
      var p :| PathBetween(g, root, b, p) && g.exit !in p;
      PathIsPlaced(g, v, p);
    }
  }

  // ----- every instruction once -----

  /** The code emitted for an instruction is where the record of its block says. */
  ghost predicate Known(g: Graph, v: View) {
    forall p: nat {:trigger v.items[p]} | p < |v.items| && v.items[p].origin.Some? ::
      KnownAt(g, v, p, v.items[p].origin.value.0, v.items[p].origin.value.1)
  }

  ghost predicate KnownAt(g: Graph, v: View, p: nat, b: BlockId, i: nat) {
    && b in v.placed && b in v.sites && b < |g.blocks| && i < |g.blocks[b].insns| && i < |v.sites[b].cursors|
    && !IsPseudo(g.blocks[b].insns[i])
    && p == |v.sites[b].cursors[i].items| + PopsBefore(g.blocks[b].insns[i], v.sites[b].cursors[i])
  }

  ghost predicate KnownUpTo(items: seq<Item>, from: nat, b: BlockId, block: Block, start: Cursor, n: nat)
    requires n <= |block.insns|
  {
    forall p: nat {:trigger items[p]} | from <= p < |items| && items[p].origin.Some? ::
      && items[p].origin.value.0 == b && items[p].origin.value.1 < n
      && !IsPseudo(block.insns[items[p].origin.value.1])
      && var i := items[p].origin.value.1;
         var c := StepTo(b, block.insns, start, i);
         p == |c.items| + PopsBefore(block.insns[i], c)
  }

  lemma {:induction false} StepToKnown(b: BlockId, block: Block, start: Cursor, n: nat)
    requires n <= |block.insns|
    ensures KnownUpTo(StepTo(b, block.insns, start, n).items, |start.items|, b, block, start, n)
  {
    if n > 0 {
      StepToKnown(b, block, start, n - 1);
      var c, d := StepTo(b, block.insns, start, n - 1), StepTo(b, block.insns, start, n);
      StepShape(b, n - 1, block.insns[n - 1], c, d);
      forall p: nat | |start.items| <= p < |d.items| && d.items[p].origin.Some?
        ensures d.items[p].origin.value.0 == b && d.items[p].origin.value.1 < n
        ensures !IsPseudo(block.insns[d.items[p].origin.value.1])
        ensures var i := d.items[p].origin.value.1;
                var e := StepTo(b, block.insns, start, i);
                p == |e.items| + PopsBefore(block.insns[i], e)
      {
        if p < |c.items| { assert d.items[p] == c.items[p]; }
      }
    }
  }

  lemma PlaceBlockKnown(g: Graph, kills: map<BlockId, nat>, v: View, b: BlockId, offset: int)
    requires b < |g.blocks| && b in kills && b !in v.placed && b != g.exit && Tidy(g, v) && Known(g, v)
    ensures Known(g, PlaceBlock(g, kills, v, b, offset))
  {
    var r, block, start := PlaceBlock(g, kills, v, b, offset), g.blocks[b], StartOf(v, offset, kills[b]);
    var site, n := r.sites[b], |block.insns|;
    StepToKnown(b, block, start, n);
    forall p: nat | p < |r.items| && r.items[p].origin.Some?
      ensures KnownAt(g, r, p, r.items[p].origin.value.0, r.items[p].origin.value.1)
    {
      if p < |v.items| {
        assert r.items[p] == v.items[p];
      } else {
        assert p < |site.cursors[n].items|;
        assert r.items[p] == site.cursors[n].items[p];
      }
    }
  }

  lemma {:induction false} PlaceKnown(
      g: Graph, kills: map<BlockId, nat>, v: View, s: Option<BlockId>, offset: int)
    requires WellFormed(g) && ValidSucc(g, s) && kills.Keys == BlockIds(g) && Tidy(g, v) && Known(g, v)
    ensures Known(g, Place(g, kills, v, s, offset))
    decreases BlockIds(g) - v.placed
  {
    if s.Some? && s.value !in v.placed && s.value != g.exit {
      var b := s.value;
      var v1 := PlaceBlock(g, kills, v, b, offset);
      var after := v1.sites[b].end.offset;
      assert b in BlockIds(g) - v.placed && b !in BlockIds(g) - v1.placed;
      PlaceBlockKnown(g, kills, v, b, offset);
      PlaceKnown(g, kills, v1, g.blocks[b].succ0, after);
      PlaceKnown(g, kills, Place(g, kills, v1, g.blocks[b].succ0, after), g.blocks[b].succ1, after);
    }
  }

  // ----- complete layouts -----

  /** What holds of the layout of a whole function. */
  ghost predicate Complete(g: Graph, v: View) {
    && WellFormed(g) && Tidy(g, v) && Known(g, v)
    && forall b {:trigger Closed(g, v, b)} | b in v.placed :: Closed(g, v, b)
  }

  lemma FunctionIsComplete(g: Graph, kills: map<BlockId, nat>, params: nat)
    requires WellFormed(g) && kills.Keys == BlockIds(g)
    ensures Complete(g, PlaceFunction(g, kills, params))
  {
    FunctionCloses(g, kills, params);
    PlaceKnown(g, kills, Initial(params), g.blocks[g.entry].succ0, 0);
  }

  /** Every instruction of a block that is laid out, pseudo-instructions aside, has code at exactly one position. */
  lemma EveryInstructionOnce(g: Graph, v: View, b: BlockId, i: nat) returns (p: nat)
    requires Complete(g, v) && b in v.placed && b < |g.blocks| && i < |g.blocks[b].insns|
    requires !IsPseudo(g.blocks[b].insns[i])
    ensures p < |v.items| && forall q: nat | q < |v.items| :: v.items[q].origin == Some((b, i)) <==> q == p
  {
    assert Closed(g, v, b);
    CodeAt(g, v, b, i);
    p := |v.sites[b].cursors[i].items| + PopsBefore(g.blocks[b].insns[i], v.sites[b].cursors[i]);
  }

  // ----- jumps -----

  /** Every block laid out has code, and leaves by a return or to blocks other than the exit. */
  ghost predicate Landing(g: Graph, v: View) {
    forall b {:trigger LeavesWell(g, g.blocks[b])} | b in v.placed && b < |g.blocks| ::
      LeavesWell(g, g.blocks[b]) && exists i :: FirstCode(g.blocks[b], i)
  }

  ghost predicate FirstCode(block: Block, i: nat) { i < |block.insns| && FirstEmitting(block, i) }

  predicate NamesBlock(op: Op<BlockId>, t: BlockId) { op == Jump(t) || op == Else(t) }

  lemma JumpTargets(g: Graph, v: View, p: nat, t: BlockId)
    requires Complete(g, v) && Landing(g, v) && p < |v.items| && v.items[p].origin.Some? && NamesBlock(v.items[p].op, t)
    ensures t in v.placed
  {
    var b, i := v.items[p].origin.value.0, v.items[p].origin.value.1;
    assert KnownAt(g, v, p, b, i) && Closed(g, v, b) && LeavesWell(g, g.blocks[b]);
    CodeAt(g, v, b, i);
    BranchNames(g.blocks[b], i, OpOf(g.blocks[b].insns[i], v.sites[b].cursors[i + 1].frames).value, t);
  }

  lemma BranchNames(block: Block, i: nat, op: Op<BlockId>, t: BlockId)
    requires WellFormedBlock(block) && i < |block.insns| && NamesBlock(op, t)
    requires exists frames :: OpOf(block.insns[i], frames) == Some(op)
    ensures t in Succs(block) && EndsInBranch(block)
  {
    assert IsBranch(block.insns[i]) && i == |block.insns| - 1;
  }

  lemma LabelIsFirstCode(g: Graph, v: View, t: BlockId) returns (i: nat)
    requires Complete(g, v) && Landing(g, v) && t in v.placed
    ensures t < |g.blocks| && FirstCode(g.blocks[t], i)
    ensures t in v.labels && v.labels[t] < |v.items| && v.items[v.labels[t]].origin == Some((t, i))
  {
    assert Closed(g, v, t) && LeavesWell(g, g.blocks[t]);
    i :| FirstCode(g.blocks[t], i);
    BeforeFirst(g, v, t, i);
    CodeAt(g, v, t, i);
    var site := v.sites[t];
    assert Stepped(g.blocks[t], t, site, i);
    StepShape(t, i, g.blocks[t].insns[i], site.cursors[i], site.cursors[i + 1]);
    assert t in site.cursors[i + 1].labels && t in site.end.labels;
  }

  /**
   Every jump that was emitted for a branch is resolved, to the first code of the block the branch names, if every
   block laid out has code and no branch leads to the exit.
   */
  lemma JumpsAreResolved(g: Graph, v: View, p: nat, t: BlockId) returns (q: nat, i: nat)
    requires Complete(g, v) && Landing(g, v) && p < |v.items| && v.items[p].origin.Some? && NamesBlock(v.items[p].op, t)
    ensures var op := Code(v.items, v.labels)[p]; op == Jump(Some(q)) || op == Else(Some(q))
    ensures t < |g.blocks| && FirstCode(g.blocks[t], i) && q < |v.items| && v.items[q].origin == Some((t, i))
  {
    JumpTargets(g, v, p, t);
    i := LabelIsFirstCode(g, v, t);
    q := v.labels[t];
  }

  // ----- simulation of a whole function -----

  /** A layout of a whole function whose blocks are all regular. */
  ghost predicate FaithfulFunction(g: Graph, v: View, root: BlockId) {
    && Complete(g, v) && g.blocks[g.entry].succ0 == Some(root) && root in v.placed
    && |v.items| > 0 && v.items[0].origin == None && v.items[0].op.Params?
    && root in v.sites && |v.sites[root].start.items| == 1
    && forall b {:trigger Sound(g, v, b)} | b in v.placed :: Sound(g, v, b)
  }

  /** The flat code of a function, walked from its first instruction. */
  function FunctionWalk(v: View, outcomes: seq<bool>, k: nat): Walk<nat> {
    FlatWalk(Code(v.items, v.labels), OriginsOf(v.items), 0, outcomes, k)
  }

  /** Every walk of the graph is followed by a walk of the flat code that visits the same instructions. */
  lemma FlatFollowsGraph(g: Graph, v: View, root: BlockId, outcomes: seq<bool>, fuel: nat) returns (k: nat)
    requires FaithfulFunction(g, v, root) && root < |g.blocks|
    ensures Follows(ListingOf(g, v), EnterBlock(g, root, outcomes, fuel), FunctionWalk(v, outcomes, k))
    ensures EnterBlock(g, root, outcomes, fuel).halt.At? ==> k > fuel
  {
    FaithfulRealizes(g, v);
    k := EnterFollows(g, ListingOf(g, v), root, outcomes, fuel);
    SkipParams(v, outcomes, k);
    k := k + 1;
  }

  lemma SkipParams(v: View, outcomes: seq<bool>, k: nat)
    requires |v.items| > 0 && v.items[0].origin == None && v.items[0].op.Params?
    ensures FunctionWalk(v, outcomes, k + 1) == FlatWalk(Code(v.items, v.labels), OriginsOf(v.items), 1, outcomes, k)
  {
    var code, origins := Code(v.items, v.labels), OriginsOf(v.items);
    assert Advance(code, 0, outcomes) == Go(1, outcomes) && Mark(origins, 0) == [];
    var w := FlatWalk(code, origins, 1, outcomes, k);
    assert [] + w.visited == w.visited;
  }

  lemma {:induction false} ShorterWalk(code: FlatCode, origins: Origins, pc: nat, outcomes: seq<bool>, j: nat, k: nat)
    requires j <= k
    ensures FlatWalk(code, origins, pc, outcomes, j).visited <= FlatWalk(code, origins, pc, outcomes, k).visited
  {
    var w := FlatWalk(code, origins, pc, outcomes, j);
    if w.halt.At? {
      FlatWalkComposes(code, origins, pc, outcomes, j, k - j);
    } else {
      FlatWalkStops(code, origins, pc, outcomes, j, k - j);
    }
  }

  /**
   Every walk of the flat code visits the beginning of what a walk of the graph visits, and when the flat code
   stops, the graph stops, for the same reason and after the same visits.
   */
  lemma GraphFollowsFlat(g: Graph, v: View, root: BlockId, outcomes: seq<bool>, k: nat)
    requires FaithfulFunction(g, v, root) && root < |g.blocks|
    ensures var x, w := FunctionWalk(v, outcomes, k), EnterBlock(g, root, outcomes, k);
            && x.visited <= w.visited
            && (!x.halt.At? ==> x.visited == w.visited && !x.halt.Stuck? &&
                                (x.halt.Returned? <==> w.halt.Returned?)
                                  && (x.halt.NeedsOutcome? <==> w.halt.NeedsOutcome?))
  {
    hide Code, EnterBlock, FaithfulFunction, FlatWalk, ListingOf, OriginsOf;
    var n := FlatFollowsGraph(g, v, root, outcomes, k);
    var code, origins := Code(v.items, v.labels), OriginsOf(v.items);
    if k <= n {
      ShorterWalk(code, origins, 0, outcomes, k, n);
      if !FunctionWalk(v, outcomes, k).halt.At? { FlatWalkStops(code, origins, 0, outcomes, k, n - k); }
    } else {
      FlatWalkStops(code, origins, 0, outcomes, n, k - n);
    }
  }

  /** The first block laid out starts behind the instruction that loads the parameters. */
  lemma FirstBlock(g: Graph, kills: map<BlockId, nat>, params: nat, root: BlockId)
    requires WellFormed(g) && kills.Keys == BlockIds(g)
    requires g.blocks[g.entry].succ0 == Some(root) && root != g.exit
    ensures var v := PlaceFunction(g, kills, params);
            && root in v.placed && root in v.sites && v.sites[root].start == StartOf(Initial(params), 0, kills[root])
            && |v.items| > 0 && v.items[0] == Item(Params(params), None)
  {
    var v1 := PlaceBlock(g, kills, Initial(params), root, 0);
    assert root in BlockIds(g) - Initial(params).placed && root !in BlockIds(g) - v1.placed;
    assert v1.sites[root].start == StartOf(Initial(params), 0, kills[root]);
  }

  /** The layout of a function is faithful when every block it places is regular. */
  lemma RegularIsFaithful(g: Graph, kills: map<BlockId, nat>, params: nat, root: BlockId)
    requires WellFormed(g) && kills.Keys == BlockIds(g)
    requires g.blocks[g.entry].succ0 == Some(root) && root != g.exit
    requires var v := PlaceFunction(g, kills, params);
             forall b | b in v.placed :: b < |g.blocks| && b in v.sites && Regular(g, v, b)
    ensures FaithfulFunction(g, PlaceFunction(g, kills, params), root)
  {
    FunctionIsComplete(g, kills, params);
    FirstBlock(g, kills, params, root);
    RegularIsSound(g, PlaceFunction(g, kills, params));
  }

  lemma RegularIsSound(g: Graph, v: View)
    requires Complete(g, v) && forall b | b in v.placed :: b < |g.blocks| && b in v.sites && Regular(g, v, b)
    ensures forall b {:trigger Sound(g, v, b)} | b in v.placed :: Sound(g, v, b)
  {
    forall b | b in v.placed ensures Sound(g, v, b) {
      assert Closed(g, v, b);
    }
  }
}
