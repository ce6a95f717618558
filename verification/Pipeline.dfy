/** From a typed function to its stack code: every condition of the layout is met. */
module Pipeline {
  import opened Options
  import opened Ir
  import opened Paths
  import opened Layout
  import opened LayoutFacts
  import opened Listings
  import opened LayoutTheorems
  import opened StackShape
  import opened PopPoints
  import opened Typing
  import opened NoPops
  import opened FunctionCode

  /** A typed function without empty blocks, and the pops that were found for it. */
  datatype Unit = Unit(f: Flow, n: Notes, root: BlockId, kills: map<BlockId, nat>)
  {
    ghost predicate Valid() {
      && Compact(f, n, root) && kills.Keys == BlockIds(f.g)
      && forall b: BlockId {:trigger kills[b]} | InScope(f, b) && f.g.exit !in Succs(BlockOf(f.g, b)) :: kills[b] == 0
    }
  }

  /** The shapes within a block. */
  function ShapesOf(g: Graph, n: Notes): Shapes {
    map b: BlockId | b in BlockIds(g) && b < |n.heads| ::
      seq(|g.blocks[b].insns| + 1, i requires 0 <= i <= |g.blocks[b].insns| =>
        var s := ShapeTo(g.blocks[b].insns, n.heads[b], n.params, i); if s.Some? then s.value else Shape([], 0))
  }

  function FunctionOf(u: Unit): Function {
    Function(u.f.g, u.n.owner, ShapesOf(u.f.g, u.n), u.kills, u.n.params, u.root)
  }

  // ----- which blocks are laid out -----

  ghost predicate InBody(f: Flow, b: BlockId) { InScope(f, b) && b != f.g.entry && b < |f.g.blocks| }

  lemma {:induction false} PathInBody(f: Flow, n: Notes, root: BlockId, p: seq<BlockId>)
    requires Compact(f, n, root) && IsPath(f.g, p) && p[0] == root && Last(p) != f.g.exit
    ensures InBody(f, Last(p))
  {
    if |p| == 1 {
      assert root in Succs(f.g.blocks[f.g.entry]) && TypedBlock(f, n, f.g.entry);
    } else {
      var q, k := p[..|p| - 1], |p| - 2;
      forall k {:trigger q[k + 1]} | 0 <= k < |q| - 1 ensures q[k + 1] in Succs(f.g.blocks[q[k]]) {
        assert q[k + 1] == p[k + 1];
      }
      assert p[k + 1] in Succs(f.g.blocks[p[k]]);
      PathInBody(f, n, root, q);
      assert TypedBlock(f, n, Last(q));
    }
  }

  lemma PlacedInBody(u: Unit, b: BlockId)
    requires u.Valid() && b in PlaceFunction(u.f.g, u.kills, u.n.params).placed
    ensures InBody(u.f, b) && TypedBlock(u.f, u.n, b) && u.f.g.blocks[b].insns != []
  {
    hide Below, Distinct, Enclosed, Exact, InBody, IsPath, Last, Owned, Place, ReachableAvoidingExit, TypedBlock,
      WellFormed;
    LaidOutIsReachable(u.f.g, u.kills, u.n.params);
    assert Reachable(u.f.g, u.root, b) && b != u.f.g.exit;
    var p :| PathBetween(u.f.g, u.root, b, p);
    PathInBody(u.f, u.n, u.root, p);
  }

  // ----- every block is laid out behind a predecessor -----

  ghost predicate Led(g: Graph, root: BlockId, blocks: set<BlockId>, t: BlockId) {
    t == root || exists a :: a in blocks && a < |g.blocks| && t in Succs(g.blocks[a])
  }

  ghost predicate AllLed(g: Graph, root: BlockId, blocks: set<BlockId>) {
    forall t {:trigger t in blocks} | t in blocks :: Led(g, root, blocks, t)
  }

  ghost predicate Behind(g: Graph, root: BlockId, v: View) {
    && AllLed(g, root, v.placed)
    && forall b {:trigger v.sites[b]} | b in v.sites :: AllLed(g, root, v.sites[b].seen) && v.sites[b].seen <= v.placed
  }

  lemma {:induction false} PlacedBehind(
      g: Graph, kills: map<BlockId, nat>, v: View, s: Option<BlockId>, offset: int, root: BlockId)
    requires WellFormed(g) && ValidSucc(g, s) && kills.Keys == BlockIds(g) && Tidy(g, v) && Behind(g, root, v)
    requires s.Some? ==> Led(g, root, v.placed, s.value)
    ensures Behind(g, root, Place(g, kills, v, s, offset))
    decreases BlockIds(g) - v.placed
  {
    hide Led, Behind, PlaceBlock, Tidy;
    if s.Some? && s.value !in v.placed && s.value != g.exit {
      var b := s.value;
      var v1 := PlaceBlock(g, kills, v, b, offset);
      BlockBehind(g, kills, v, b, offset, root);
      var after := v1.sites[b].end.offset;
      assert b in BlockIds(g) - v.placed && b !in BlockIds(g) - v1.placed;
      PlacedBehind(g, kills, v1, g.blocks[b].succ0, after, root);
      var v2 := Place(g, kills, v1, g.blocks[b].succ0, after);
      SuccessorLed(g, root, v2, b, g.blocks[b].succ1);
      PlacedBehind(g, kills, v2, g.blocks[b].succ1, after, root);
    }
  }

  lemma SuccessorLed(g: Graph, root: BlockId, v: View, b: BlockId, s: Option<BlockId>)
    requires b < |g.blocks| && b in v.placed && (s == g.blocks[b].succ0 || s == g.blocks[b].succ1)
    ensures s.Some? ==> Led(g, root, v.placed, s.value)
  {
    if s.Some? { assert s.value in Succs(g.blocks[b]); }
  }

  lemma BlockBehind(g: Graph, kills: map<BlockId, nat>, v: View, b: BlockId, offset: int, root: BlockId)
    requires WellFormed(g) && kills.Keys == BlockIds(g) && Tidy(g, v) && Behind(g, root, v)
    requires b < |g.blocks| && b !in v.placed && b != g.exit && Led(g, root, v.placed, b)
    ensures var v1 := PlaceBlock(g, kills, v, b, offset);
            b in v1.sites && Behind(g, root, v1) && (g.blocks[b].succ0.Some? ==>
              Led(g, root, v1.placed, g.blocks[b].succ0.value))
  {
    var v1 := PlaceBlock(g, kills, v, b, offset);
    forall t | t in v1.placed ensures Led(g, root, v1.placed, t) {
      assert Led(g, root, v.placed, t);
      if t != root {
        var a :| a in v.placed && a < |g.blocks| && t in Succs(g.blocks[a]);
        assert a in v1.placed;
      }
    }
    forall x | x in v1.sites ensures AllLed(g, root, v1.sites[x].seen) && v1.sites[x].seen <= v1.placed {
      if x != b { assert v1.sites[x] == v.sites[x]; }
    }
    SuccessorLed(g, root, v1, b, g.blocks[b].succ0);
  }

  // ----- the conditions of the layout -----

  lemma NotLedByOthers(u: Unit, v: View, b: BlockId, t: BlockId, a: BlockId)
    requires u.Valid() && v == PlaceFunction(u.f.g, u.kills, u.n.params) && t in u.f.order
    requires (forall x | x in PredsOf(u.f, t) :: x == b) && a in v.placed && a != b
    ensures a < |u.f.g.blocks| && t !in Succs(u.f.g.blocks[a])
  {
    PlacedInBody(u, a);
    assert ExactAt(u.f, t, a);
  }

  /** The taken block of a condition has not been laid out before the condition. */
  lemma TakenIsFresh(u: Unit, v: View, b: BlockId)
    requires u.Valid() && v == PlaceFunction(u.f.g, u.kills, u.n.params) && b in v.sites
    requires InBody(u.f, b) && TypedBlock(u.f, u.n, b)
    requires u.f.g.blocks[b].succ0.Some? && u.f.g.blocks[b].succ1.Some?
    requires b !in v.sites[b].seen && v.sites[b].seen <= v.placed && AllLed(u.f.g, u.root, v.sites[b].seen)
    ensures Fresh(v, b, u.f.g.blocks[b].succ0.value)
  {
    var t, seen := u.f.g.blocks[b].succ0.value, v.sites[b].seen;
    assert t in Succs(u.f.g.blocks[b]) && t in u.f.order;
    assert ExactAt(u.f, u.root, u.f.g.entry) && u.f.g.entry in PredsOf(u.f, u.root);
    forall a | a in seen ensures a < |u.f.g.blocks| && t !in Succs(u.f.g.blocks[a]) {
      NotLedByOthers(u, v, b, t, a);
    }
    assert t in seen ==> Led(u.f.g, u.root, seen, t);
  }

  lemma BodyIsPlacedBehind(u: Unit)
    requires u.Valid()
    ensures Behind(u.f.g, u.root, PlaceFunction(u.f.g, u.kills, u.n.params))
  {
    PlacedBehind(u.f.g, u.kills, Initial(u.n.params), Some(u.root), 0, u.root);
  }

  lemma BlockFallsWell(u: Unit, v: View, b: BlockId)
    requires u.Valid() && v == PlaceFunction(u.f.g, u.kills, u.n.params) && b in v.sites && InBody(u.f, b)
    requires TypedBlock(u.f, u.n, b)
    requires b !in v.sites[b].seen && v.sites[b].seen <= v.placed && AllLed(u.f.g, u.root, v.sites[b].seen)
    ensures FallsWell(u.f.g, v, b)
  {
    var block := u.f.g.blocks[b];
    if block.succ0.Some? {
      assert block.succ0.value in Succs(block);
      if block.succ1.Some? { TakenIsFresh(u, v, b); }
    }
  }

  lemma FirstOf(block: Block) returns (i: nat)
    requires HasCode(block)
    ensures i < |block.insns| && FirstEmitting(block, i)
  {
    var j :| 0 <= j < |block.insns| && !IsPseudo(block.insns[j]);
    i := FindFirst(block, j);
  }

  lemma BlockLabelledFirst(u: Unit, b: BlockId)
    requires u.Valid() && InBody(u.f, b) && TypedBlock(u.f, u.n, b) && u.f.g.blocks[b].insns != []
    ensures LabelFirst(u.f.g.blocks[b], u.kills[b]) && LeavesWell(u.f.g, u.f.g.blocks[b])
    ensures !EndsInReturn(u.f.g.blocks[b]) ==> u.kills[b] == 0
  {
    var block := u.f.g.blocks[b];
    var i := FirstOf(block);
    if !EndsInReturn(block) {
      LeadsSomewhere(u, b);
    } else {
      assert LeadsWithPops(block.insns[i]) ==> i == |block.insns| - 1;
    }
  }

  /** A block that does not return leads somewhere, since all empty blocks are gone. */
  lemma LeadsSomewhere(u: Unit, b: BlockId)
    requires u.Valid() && InBody(u.f, b) && TypedBlock(u.f, u.n, b) && !EndsInReturn(u.f.g.blocks[b])
    requires u.f.g.blocks[b].insns != []
    ensures u.f.g.blocks[b].succ0.Some? && u.f.g.exit !in Succs(u.f.g.blocks[b])
  {
  }

  /** The block has shapes throughout, and owes pops only if it returns a value. */
  ghost predicate HasShapes(g: Graph, n: Notes, kills: map<BlockId, nat>, b: BlockId) {
    && b < |g.blocks| == |n.heads| && b in kills && ShapeOf(g.blocks[b].insns, n.heads[b], n.params).Some?
    && WellFormedBlock(g.blocks[b])
    && (if EndsInReturn(g.blocks[b]) then g.blocks[b].insns[|g.blocks[b].insns| - 1].value.Some? else kills[b] == 0)
  }

  lemma ShapesAt(g: Graph, n: Notes, kills: map<BlockId, nat>, b: BlockId, i: nat)
    requires HasShapes(g, n, kills, b) && i <= |g.blocks[b].insns|
    ensures b in ShapesOf(g, n) && |ShapesOf(g, n)[b]| == |g.blocks[b].insns| + 1
    ensures ShapeTo(g.blocks[b].insns, n.heads[b], n.params, i) == Some(ShapesOf(g, n)[b][i])
  {
    ShapeUntil(g.blocks[b].insns, n.heads[b], n.params, i, |g.blocks[b].insns|);
  }

  lemma {:induction false} ShapeUntil(insns: seq<Insn>, head: Shape, params: nat, i: nat, n: nat)
    requires i <= n <= |insns| && ShapeTo(insns, head, params, n).Some?
    ensures ShapeTo(insns, head, params, i).Some?
  {
    if i < n { ShapeUntil(insns, head, params, i, n - 1); }
  }

  lemma ShapeNeedsNoPops(insn: Insn, s: Shape, params: nat, kills: nat)
    requires ShapeAfter(insn, s, params, 0).Some? && (kills == 0 || (!insn.Branch? && insn != Return(None)))
    ensures ShapeAfter(insn, s, params, kills) == ShapeAfter(insn, s, params, 0)
  {
  }

  lemma BodyShapedAt(g: Graph, n: Notes, kills: map<BlockId, nat>, b: BlockId, i: nat)
    requires HasShapes(g, n, kills, b) && i < |g.blocks[b].insns|
    ensures b in ShapesOf(g, n) && |ShapesOf(g, n)[b]| == |g.blocks[b].insns| + 1
    ensures ShapedAt(g, ShapesOf(g, n), n.params, kills, b, i)
  {
    hide Arity, ShapeAfter, ShapesOf;
    ShapesAt(g, n, kills, b, i);
    ShapesAt(g, n, kills, b, i + 1);
    var insn := g.blocks[b].insns[i];
    assert EndsInReturn(g.blocks[b]) ==> !insn.Branch? && insn != Return(None);
    ShapeNeedsNoPops(insn, ShapesOf(g, n)[b][i], n.params, kills[b]);
  }

  /** A block leaves the stack as the heads of its successors expect it. */
  lemma BodyLinks(g: Graph, n: Notes, kills: map<BlockId, nat>, b: BlockId, s: BlockId)
    requires HasShapes(g, n, kills, b) && HasShapes(g, n, kills, s) && !EndsInReturn(g.blocks[b])
    requires n.heads[s] == ShapeOf(g.blocks[b].insns, n.heads[b], n.params).value && n.heads[s].pending == 0
    ensures var shapes, k := ShapesOf(g, n), |g.blocks[b].insns|;
            && b in shapes && |shapes[b]| == k + 1 && shapes[b][k].pending == 0
            && s in shapes && shapes[s] != [] && shapes[s][0] == Shape(Drop(shapes[b][k].temps, 0), 0)
  {
    ShapesAt(g, n, kills, b, |g.blocks[b].insns|);
    ShapesAt(g, n, kills, s, 0);
    assert Drop(n.heads[s].temps, 0) == n.heads[s].temps;
  }

  lemma BodyHasShapes(u: Unit, b: BlockId)
    requires u.Valid() && InBody(u.f, b)
    ensures HasShapes(u.f.g, u.n, u.kills, b) && u.f.g.blocks[b].insns != []
    ensures !EndsInReturn(u.f.g.blocks[b]) ==>
              u.f.g.blocks[b].succ0.Some? &&
              forall s | s in Succs(u.f.g.blocks[b]) :: InBody(u.f, s) && u.n.heads[s].pending == 0 &&
                u.n.heads[s] == ShapeOf(u.f.g.blocks[b].insns, u.n.heads[b], u.n.params).value
  {
    assert TypedBlock(u.f, u.n, b) && u.f.g.blocks[b].insns != [];
    assert !EndsInReturn(u.f.g.blocks[b]) ==> u.f.g.exit !in Succs(u.f.g.blocks[b]);
  }

  /** The successors of a block that does not return expect what it leaves. */
  ghost predicate HandsOver(g: Graph, n: Notes, kills: map<BlockId, nat>, b: BlockId)
    requires HasShapes(g, n, kills, b)
  {
    if EndsInReturn(g.blocks[b]) then Succs(g.blocks[b]) == {g.exit}
    else g.blocks[b].succ0.Some? &&
         forall s | s in Succs(g.blocks[b]) :: HasShapes(g, n, kills, s) && n.heads[s].pending == 0 &&
           n.heads[s] == ShapeOf(g.blocks[b].insns, n.heads[b], n.params).value
  }

  lemma BodyHandsOver(u: Unit, b: BlockId)
    requires u.Valid() && InBody(u.f, b)
    ensures HasShapes(u.f.g, u.n, u.kills, b) && HandsOver(u.f.g, u.n, u.kills, b)
  {
    BodyHasShapes(u, b);
    assert TypedBlock(u.f, u.n, b);
    if !EndsInReturn(u.f.g.blocks[b]) {
      forall s | s in Succs(u.f.g.blocks[b]) ensures HasShapes(u.f.g, u.n, u.kills, s) {
        BodyHasShapes(u, s);
      }
    }
  }

  lemma BodyShaped(g: Graph, n: Notes, kills: map<BlockId, nat>, b: BlockId)
    requires HasShapes(g, n, kills, b) && HandsOver(g, n, kills, b)
    ensures ShapedBlock(g, ShapesOf(g, n), n.params, kills, b)
  {
    var block, shapes := g.blocks[b], ShapesOf(g, n);
    ShapesAt(g, n, kills, b, 0);
    forall i: nat | i < |block.insns| ensures ShapedAt(g, shapes, n.params, kills, b, i) {
      BodyShapedAt(g, n, kills, b, i);
    }
    if !EndsInReturn(block) {
      assert block.succ0.value in Succs(block);
      forall s | s in Succs(block)
        ensures s in shapes && shapes[s] != [] && shapes[s][0] == Shape(Drop(shapes[b][|block.insns|].temps, 0), 0)
        ensures shapes[b][|block.insns|].pending == 0
      {
        BodyLinks(g, n, kills, b, s);
      }
    }
  }

  lemma BodyRegular(u: Unit, v: View, b: BlockId)
    requires u.Valid() && v == PlaceFunction(u.f.g, u.kills, u.n.params) && b in v.placed
    ensures InBody(u.f, b) && TypedBlock(u.f, u.n, b) && u.f.g.blocks[b].insns != []
    ensures b in v.sites && Regular(u.f.g, v, b)
  {
    PlacedInBody(u, b);
    FunctionIsComplete(u.f.g, u.kills, u.n.params);
    assert Closed(u.f.g, v, b);
    BodyIsPlacedBehind(u);
    BlockFallsWell(u, v, b);
    BlockLabelledFirst(u, b);
    PlaceOwes(u.f.g, u.kills, Initial(u.n.params), Some(u.root), 0);
  }

  lemma BodyPaysLate(u: Unit, v: View, b: BlockId)
    requires u.Valid() && v == PlaceFunction(u.f.g, u.kills, u.n.params) && b in v.placed
    ensures PaysLate(u.f.g, u.kills, v, b)
  {
    BodyRegular(u, v, b);
    BlockLabelledFirst(u, b);
  }

  lemma RootInBody(u: Unit)
    requires u.Valid()
    ensures InBody(u.f, u.root)
  {
    assert u.root in Succs(u.f.g.blocks[u.f.g.entry]) && TypedBlock(u.f, u.n, u.f.g.entry);
  }

  lemma UnitStartsRight(u: Unit)
    requires u.Valid()
    ensures FunctionOf(u).Valid()
  {
    RootInBody(u);
    assert TypedBlock(u.f, u.n, u.root);
    BodyHasShapes(u, u.root);
    ShapesAt(u.f.g, u.n, u.kills, u.root, 0);
  }

  lemma UnitShaped(u: Unit, v: View)
    requires u.Valid() && v == PlaceFunction(u.f.g, u.kills, u.n.params)
    ensures Shaped(u.f.g, u.n.owner, ShapesOf(u.f.g, u.n), u.n.params, u.kills, v.placed)
  {
    forall b: BlockId | b in v.placed && b < |u.f.g.blocks|
      ensures ShapedBlock(u.f.g, ShapesOf(u.f.g, u.n), u.n.params, u.kills, b) && HasCode(u.f.g.blocks[b])
    {
      PlacedInBody(u, b);
      BodyHandsOver(u, b);
      BodyShaped(u.f.g, u.n, u.kills, b);
    }
  }

  lemma UnitRegular(u: Unit, v: View)
    requires u.Valid() && v == PlaceFunction(u.f.g, u.kills, u.n.params)
    ensures forall b | b in v.placed :: b < |u.f.g.blocks| && b in v.sites && Regular(u.f.g, v, b)
    ensures AllPayLate(u.f.g, u.kills, v, v.placed)
  {
    forall b | b in v.placed ensures b < |u.f.g.blocks| && b in v.sites && Regular(u.f.g, v, b) {
      BodyRegular(u, v, b);
    }
    forall b | b in v.placed ensures PaysLate(u.f.g, u.kills, v, b) {
      BodyPaysLate(u, v, b);
    }
  }

  lemma MeetsConditions(fn: Function, v: View)
    requires fn.Valid() && v == fn.Laid() && Shaped(fn.g, fn.owner, fn.shapes, fn.params, fn.kills, v.placed)
    requires forall b | b in v.placed :: b < |fn.g.blocks| && b in v.sites && Regular(fn.g, v, b)
    requires AllPayLate(fn.g, fn.kills, v, v.placed)
    ensures fn.Compilable()
  {
  }

  /** The function that is compiled from a typed graph meets every condition of the layout. */
  lemma UnitIsCompilable(u: Unit)
    requires u.Valid()
    ensures FunctionOf(u).Compilable()
  {
    var v := PlaceFunction(u.f.g, u.kills, u.n.params);
    UnitStartsRight(u);
    UnitShaped(u, v);
    UnitRegular(u, v);
    MeetsConditions(FunctionOf(u), v);
  }
}
