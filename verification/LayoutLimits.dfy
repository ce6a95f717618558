/**
 Exactly when control that falls out of a block reaches the block the graph names, and graphs for which it does not.
 */
module LayoutLimits {
  import opened Options
  import opened Ir
  import opened Layout
  import opened LayoutFacts
  import opened Listings
  import opened LayoutTheorems

  // ----- the order of layout -----

  /** Blocks laid out earlier start earlier. */
  ghost predicate OrderedAt(v: View, b: BlockId)
    requires b in v.sites
  {
    forall t | t in v.sites[b].seen :: t in v.sites && |v.sites[t].start.items| <= |v.sites[b].start.items|
  }

  ghost predicate Ordered(v: View) {
    && (forall b {:trigger OrderedAt(v, b)} | b in v.sites :: OrderedAt(v, b))
    && forall b {:trigger v.sites[b]} | b in v.sites :: |v.sites[b].start.items| <= |v.items|
  }

  lemma PlaceBlockOrdered(g: Graph, kills: map<BlockId, nat>, v: View, b: BlockId, offset: int)
    requires b < |g.blocks| && b in kills && b !in v.placed && b != g.exit && Tidy(g, v) && Ordered(v)
    ensures Ordered(PlaceBlock(g, kills, v, b, offset))
  {
    var r := PlaceBlock(g, kills, v, b, offset);
    forall t | t in r.sites ensures OrderedAt(r, t) {
      if t != b { assert OrderedAt(v, t); }
    }
  }

  lemma {:induction false} PlaceOrdered(
      g: Graph, kills: map<BlockId, nat>, v: View, s: Option<BlockId>, offset: int)
    requires WellFormed(g) && ValidSucc(g, s) && kills.Keys == BlockIds(g) && Tidy(g, v) && Ordered(v)
    ensures Ordered(Place(g, kills, v, s, offset))
    decreases BlockIds(g) - v.placed
  {
    if s.Some? && s.value !in v.placed && s.value != g.exit {
      var b := s.value;
      var v1 := PlaceBlock(g, kills, v, b, offset);
      var after := v1.sites[b].end.offset;
      assert b in BlockIds(g) - v.placed && b !in BlockIds(g) - v1.placed;
      PlaceBlockOrdered(g, kills, v, b, offset);
      PlaceOrdered(g, kills, v1, g.blocks[b].succ0, after);
      PlaceOrdered(g, kills, Place(g, kills, v1, g.blocks[b].succ0, after), g.blocks[b].succ1, after);
    }
  }

  // ----- what comes behind a block -----

  /** Control that falls out of `b` gets to the start of `s`: it comes next, or a jump to it was added. */
  ghost predicate Leads(v: View, b: BlockId, s: BlockId)
    requires b in v.sites && s in v.sites
  {
    var end := v.sites[b].end.items;
    |v.sites[s].start.items| == |end| || (|end| > 0 && end[|end| - 1] == Item(Jump(s), None))
  }

  /** Behind its first code, the code of a block always ends with a pop or with code for an instruction. */
  lemma {:induction false} LastItem(g: Graph, v: View, b: BlockId, n: nat, i: nat)
    requires Laid(g, v, b) && i < n <= |g.blocks[b].insns| && !IsPseudo(g.blocks[b].insns[i])
    ensures var items := v.sites[b].cursors[n].items;
            |items| > |v.sites[b].start.items| && items[|items| - 1].origin.Some?
  {
    var site, insns := v.sites[b], g.blocks[b].insns;
    assert Stepped(g.blocks[b], b, site, n - 1);
    StepShape(b, n - 1, insns[n - 1], site.cursors[n - 1], site.cursors[n]);
    if i < n - 1 {
      LastItem(g, v, b, n - 1, i);
    } else {
      StartsBelow(g, v, b, n - 1);
    }
  }

  lemma {:induction false} StartsBelow(g: Graph, v: View, b: BlockId, n: nat)
    requires Laid(g, v, b) && n <= |g.blocks[b].insns|
    ensures |v.sites[b].start.items| <= |v.sites[b].cursors[n].items|
  {
    if n > 0 {
      StartsBelow(g, v, b, n - 1);
      assert Stepped(g.blocks[b], b, v.sites[b], n - 1);
      StepShape(b, n - 1, g.blocks[b].insns[n - 1], v.sites[b].cursors[n - 1], v.sites[b].cursors[n]);
    }
  }

  /**
   Control that leaves a block other than by a jump or a return reaches the first successor exactly when a
   condition finds its taken block not laid out yet, and a block without a branch does not fall through to itself.
   */
  lemma FallsExactly(g: Graph, v: View, b: BlockId, s: BlockId, i: nat)
    requires Complete(g, v) && Ordered(v) && b in v.placed && b < |g.blocks| && s in v.placed && s != g.exit
    requires g.blocks[b].succ0 == Some(s) && !EndsInReturn(g.blocks[b])
    requires EndsInBranch(g.blocks[b]) ==> g.blocks[b].succ1.Some?
    requires i < |g.blocks[b].insns| && !IsPseudo(g.blocks[b].insns[i])
    ensures b in v.sites && s in v.sites && (Leads(v, b, s) <==> FallsWell(g, v, b))
  {
    assert Closed(g, v, b) && WellFormedBlock(g.blocks[b]) && OrderedAt(v, b);
    var n, site := |g.blocks[b].insns|, v.sites[b];
    LastItem(g, v, b, n, i);
    CodeAtEnd(g, v, b);
    if EndsInBranch(g.blocks[b]) { CodeAt(g, v, b, n - 1); }
    assert |site.start.items| < |site.end.items|;
    if s !in site.seen || EndsInBranch(g.blocks[b]) {
      assert site.end.items == site.cursors[n].items + Pops(site.cursors[n].kills);
      assert site.end.items[|site.end.items| - 1] != Item(Jump(s), None);
    }
  }

  // ----- two graphs that are not laid out faithfully -----

  const NoKills: map<BlockId, nat> := map[0 := 0, 1 := 0, 2 := 0]

  /** Block 1 asserts a constant and falls through to itself; 0 is the entry and 2 the exit. */
  const SpinningGraph := Graph(
    [Block([], Some(1), None),
     Block([Use(0, Constant("true"), []), Use(1, Assert, [0])], Some(1), None),
     Block([], None, None)], 0, 2)

  /** Block 1 branches back to itself while a constant is true, and to block 2 otherwise. */
  const LoopingGraph := Graph(
    [Block([], Some(1), None),
     Block([Use(0, Constant("true"), []), Branch(0, 1, 3)], Some(1), Some(3)),
     Block([], None, None),
     Block([Return(None)], Some(2), None)], 0, 2)

  /** In a graph whose first block leads back to itself, other than by a jump, control does not get back there. */
  lemma FirstBlockIsLost(g: Graph, kills: map<BlockId, nat>, params: nat, b: BlockId, i: nat)
    requires WellFormed(g) && kills.Keys == BlockIds(g) && b < |g.blocks| && b != g.exit
    requires g.blocks[g.entry].succ0 == Some(b) && g.blocks[b].succ0 == Some(b) && !EndsInReturn(g.blocks[b])
    requires EndsInBranch(g.blocks[b]) ==> g.blocks[b].succ1.Some?
    requires i < |g.blocks[b].insns| && !IsPseudo(g.blocks[b].insns[i])
    ensures var v := PlaceFunction(g, kills, params);
            b in v.placed && b in v.sites && !Leads(v, b, b)
  {
    FunctionIsComplete(g, kills, params);
    FirstBlock(g, kills, params, b);
    PlaceOrdered(g, kills, Initial(params), g.blocks[g.entry].succ0, 0);
    FallsExactly(g, PlaceFunction(g, kills, params), b, b, i);
  }

  /**
   No jump is added when a block falls through to itself, because it only counts as laid out once its code is
   complete.
   */
  lemma SpinningIsLost(g: Graph, kills: map<BlockId, nat>)
    requires g == SpinningGraph && kills == NoKills
    ensures WellFormed(g) && kills.Keys == BlockIds(g)
    ensures var v := PlaceFunction(g, kills, 0); 1 in v.sites && !Leads(v, 1, 1)
  {
    hide Leads, PlaceFunction;
    assert g.blocks[1].insns[0] == Use(0, Constant("true"), []);
    FirstBlockIsLost(g, kills, 0, 1, 0);
  }

  /** Nor is one added when the taken block of a condition has been laid out before. */
  lemma LoopingIsLost(g: Graph, kills: map<BlockId, nat>)
    requires g == LoopingGraph && kills == NoKills[3 := 0]
    ensures WellFormed(g) && kills.Keys == BlockIds(g)
    ensures var v := PlaceFunction(g, kills, 0); 1 in v.sites && !Leads(v, 1, 1)
  {
    hide Leads, PlaceFunction;
    assert g.blocks[1].insns[0] == Use(0, Constant("true"), []);
    FirstBlockIsLost(g, kills, 0, 1, 0);
  }
}
