/**
 What the depth-first layout guarantees about every block it places: the code of the block is there,
 its label is the first code emitted for an instruction of it, and control that leaves the block
 reaches the successors the graph names.
 */
module LayoutFacts {
  import opened Options
  import opened Ir
  import opened Layout

  // ----- layout only appends -----

  lemma GrowsTransitive(c: Cursor, d: Cursor, e: Cursor)
    requires Grows(c, d) && Grows(d, e)
    ensures Grows(c, e)
  {
  }

  lemma {:induction false} StepToGrows(b: BlockId, insns: seq<Insn>, c: Cursor, m: nat, n: nat)
    requires m <= n <= |insns|
    ensures Grows(StepTo(b, insns, c, m), StepTo(b, insns, c, n))
  {
    if m < n {
      StepToGrows(b, insns, c, m, n - 1);
      GrowsTransitive(StepTo(b, insns, c, m), StepTo(b, insns, c, n - 1), StepTo(b, insns, c, n));
    }
  }

  function PopsBefore(insn: Insn, c: Cursor): nat {
    if LeadsWithPops(insn) then c.kills else 0
  }

  lemma StepShape(b: BlockId, i: nat, insn: Insn, c: Cursor, d: Cursor)
    requires d == Step(b, i, insn, c)
    ensures var pops := PopsBefore(insn, c);
            var op := OpOf(insn, d.frames);
            && d.items == c.items + Pops(pops) + (if op.Some? then [Item(op.value, Some((b, i)))] else [])
            && d.kills == c.kills - pops
            && d.frames == Define(insn, c.frames, c.offset) && d.offset == c.offset + Delta(insn)
            && (d.ok ==> Check(insn, c.frames, c.offset))
            && (op.None? || b in c.labels ==> d.labels == c.labels)
            && (op.Some? && b !in c.labels ==> d.labels == c.labels[b := |c.items| + pops])
  {
  }

  // ----- what holds of a placed block -----

  ghost predicate Stepped(block: Block, b: BlockId, site: Site, i: nat)
    requires i < |block.insns| && |site.cursors| == |block.insns| + 1
  {
    var c, d := site.cursors[i], site.cursors[i + 1];
    d == Step(b, i, block.insns[i], c) && Grows(d, site.end)
  }

  /** A site records the layout of its block instruction by instruction. */
  ghost predicate Recorded(block: Block, b: BlockId, site: Site) {
    && |site.cursors| == |block.insns| + 1 && site.cursors[0] == site.start
    && (forall i: nat {:trigger Stepped(block, b, site, i)} | i < |block.insns| :: Stepped(block, b, site, i))
    && site.end == Finish(block, site.cursors[|block.insns|], site.seen)
  }

  lemma SiteIsRecorded(b: BlockId, block: Block, start: Cursor, seen: set<BlockId>)
    ensures Recorded(block, b, SiteOf(b, block, start, seen))
  {
    hide Grows, Pops, Step;
    var site, n := SiteOf(b, block, start, seen), |block.insns|;
    forall i: nat | i < n ensures Stepped(block, b, site, i) {
      StepToGrows(b, block.insns, start, i + 1, n);
      GrowsTransitive(site.cursors[i + 1], site.cursors[n], site.end);
    }
  }

  /** The code of `b` is a part of the code of the view, and so are its labels. */
  ghost predicate Laid(g: Graph, v: View, b: BlockId) {
    && b < |g.blocks| && b in v.sites && b !in v.sites[b].seen && b !in v.sites[b].start.labels
    && Recorded(g.blocks[b], b, v.sites[b])
    && v.sites[b].end.items <= v.items && SubMap(v.sites[b].end.labels, v.labels)
  }

  /** `t` was not laid out before `b`, nor is it `b` itself. */
  ghost predicate Fresh(v: View, b: BlockId, t: BlockId)
    requires b in v.sites
  {
    t !in v.sites[b].seen && t != b
  }

  /** The code of `t` comes right after that of `b`, and starts from the frame that `b` leaves. */
  ghost predicate Adjacent(g: Graph, v: View, b: BlockId, t: BlockId)
    requires b < |g.blocks| && b in v.sites
  {
    t in v.sites &&
    var c, d := v.sites[b].end, v.sites[t].start;
    d.items == c.items && d.frames == c.frames && d.offset == c.offset
  }

  /** Everything `b` leads to has been laid out, the first successor right behind `b` where it was fresh. */
  ghost predicate Closed(g: Graph, v: View, b: BlockId) {
    && Laid(g, v, b)
    && (forall t | t in Succs(g.blocks[b]) :: t in v.placed || t == g.exit)
    && (g.blocks[b].succ0.Some? && g.blocks[b].succ0.value != g.exit && Fresh(v, b, g.blocks[b].succ0.value) ==>
          Adjacent(g, v, b, g.blocks[b].succ0.value))
  }

  lemma ClosedMono(g: Graph, v: View, w: View, b: BlockId)
    requires ViewGrows(v, w) && Closed(g, v, b)
    ensures Closed(g, w, b)
  {
    assert v.sites[b].end.items <= v.items <= w.items;
  }

  lemma LaidMono(g: Graph, v: View, w: View, b: BlockId)
    requires ViewGrows(v, w) && Laid(g, v, b)
    ensures Laid(g, w, b)
  {
    assert v.sites[b].end.items <= v.items <= w.items;
  }

  /** A call of `Place` closes every block it lays out. */
  lemma {:induction false} PlaceCloses(g: Graph, kills: map<BlockId, nat>, v: View, s: Option<BlockId>, offset: int)
    requires WellFormed(g) && ValidSucc(g, s) && kills.Keys == BlockIds(g) && Tidy(g, v)
    ensures ClosedSince(g, v, Place(g, kills, v, s, offset))
    decreases BlockIds(g) - v.placed
  {
    hide Below, FirstSuccessorPlaced, Laid, SiteOf, SubMap;
    if s.Some? && s.value !in v.placed && s.value != g.exit {
      var b := s.value;
      var block := g.blocks[b];
      var v1 := PlaceBlock(g, kills, v, b, offset);
      PlaceBlockLays(g, kills, v, b, offset);
      var after := v1.sites[b].end.offset;
      assert b in BlockIds(g) - v.placed && b !in BlockIds(g) - v1.placed;
      var v2 := Place(g, kills, v1, block.succ0, after);
      PlaceCloses(g, kills, v1, block.succ0, after);
      FreshSuccessorIsAdjacent(g, kills, v1, b, after);
      var r := Place(g, kills, v2, block.succ1, after);
      PlaceCloses(g, kills, v2, block.succ1, after);
      Collect(g, v, v1, v2, r, b);
    }
  }

  ghost predicate ClosedSince(g: Graph, v: View, r: View) {
    forall t | t in r.placed - v.placed :: Closed(g, r, t)
  }

  ghost predicate FirstSuccessorPlaced(g: Graph, v: View, r: View, b: BlockId)
    requires b < |g.blocks| && b in r.sites
  {
    var s := g.blocks[b].succ0;
    s.Some? && s.value != g.exit ==> s.value in r.placed && (s.value !in v.placed ==> Adjacent(g, r, b, s.value))
  }

  lemma Collect(g: Graph, v: View, v1: View, v2: View, r: View, b: BlockId)
    requires v1.placed == v.placed + {b} && ViewGrows(v1, v2) && ViewGrows(v2, r) && Laid(g, v1, b)
    requires b in v1.sites && v1.sites[b].seen == v.placed
    requires ClosedSince(g, v1, v2) && ClosedSince(g, v2, r)
    requires FirstSuccessorPlaced(g, v1, v2, b)
    requires var s := g.blocks[b].succ1; s.Some? ==> s.value in r.placed || s.value == g.exit
    ensures ClosedSince(g, v, r)
  {
    LaidMono(g, v1, r, b);
    forall t | t in r.placed - v.placed ensures Closed(g, r, t) {
      if t != b && t in v2.placed { ClosedMono(g, v2, r, t); }
    }
  }

  lemma PlaceBlockLays(g: Graph, kills: map<BlockId, nat>, v: View, b: BlockId, offset: int)
    requires b < |g.blocks| && b in kills && b !in v.placed && b != g.exit && Tidy(g, v)
    ensures var r := PlaceBlock(g, kills, v, b, offset);
            && Laid(g, r, b) && r.sites[b].seen == v.placed && r.sites[b].start == StartOf(v, offset, kills[b])
            && r.items == r.sites[b].end.items && r.frames == r.sites[b].end.frames
  {
    SiteIsRecorded(b, g.blocks[b], StartOf(v, offset, kills[b]), v.placed);
  }

  lemma FreshSuccessorIsAdjacent(g: Graph, kills: map<BlockId, nat>, v1: View, b: BlockId, after: int)
    requires WellFormed(g) && b < |g.blocks| && kills.Keys == BlockIds(g) && Tidy(g, v1) && b in v1.sites
    requires v1.items == v1.sites[b].end.items && v1.frames == v1.sites[b].end.frames
    requires after == v1.sites[b].end.offset
    ensures var r := Place(g, kills, v1, g.blocks[b].succ0, after);
            b in r.sites && FirstSuccessorPlaced(g, v1, r, b)
  {
    var s := g.blocks[b].succ0;
    if s.Some? && s.value !in v1.placed && s.value != g.exit {
      assert s.value in BlockIds(g) - v1.placed;
      PlaceBlockLays(g, kills, v1, s.value, after);
    }
  }
}
