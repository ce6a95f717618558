/** A function does the same when its empty blocks are gone. */
module SimplifyRuns {
  import opened Options
  import opened Ir
  import opened Machine
  import opened PopPoints
  import opened Simplify
  import opened SimplifyPaths

  function Moved(e: BlockId, t: Option<BlockId>, b: BlockId): BlockId {
    if b == e && t.Some? then t.value else b
  }

  function MovedNext(e: BlockId, t: Option<BlockId>, n: Next): Next {
    match n
    case Enter(b, s) => Enter(Moved(e, t, b), s)
    case _ => n
  }

  /** A block that stays, or the removed block if it leads to one that stays. */
  predicate Enterable(r: Flow, e: BlockId, t: Option<BlockId>, b: BlockId) {
    if b == e then t.Some? && t.value in r.order else b in r.order
  }

  ghost predicate AlikeAt(x: Block, y: Block, r: Flow, e: BlockId, t: Option<BlockId>, i: nat, sem: Semantics, s: State)
    requires i < |x.insns| == |y.insns|
  {
    var n := Perform(sem, x.insns[i], s);
    Perform(sem, y.insns[i], s) == MovedNext(e, t, n) && (n.Enter? ==> Enterable(r, e, t, n.block))
  }

  /** Block `b` of `r` is that of `f`, except that it leads to `t` instead of `e`. */
  ghost predicate Alike(f: Flow, r: Flow, e: BlockId, t: Option<BlockId>, b: BlockId) {
    && b < |f.g.blocks| && b < |r.g.blocks|
    && var x, y := f.g.blocks[b], r.g.blocks[b];
       && |y.insns| == |x.insns|
       && (if x.succ0.Some? then Enterable(r, e, t, x.succ0.value) && y.succ0 == Some(Moved(e, t, x.succ0.value))
           else y.succ0.None?)
       && forall i: nat, sem, s {:trigger AlikeAt(x, y, r, e, t, i, sem, s)} | i < |x.insns| ::
          AlikeAt(x, y, r, e, t, i, sem, s)
  }

  /** The graph `r` is `f` with the empty block `e` bypassed. */
  ghost predicate Bypassed(f: Flow, r: Flow, e: BlockId, t: Option<BlockId>) {
    && e < |f.g.blocks| && f.g.blocks[e].insns == [] && f.g.blocks[e].succ0 == t
    && forall b {:trigger Alike(f, r, e, t, b)} | b in r.order :: Alike(f, r, e, t, b)
  }

  lemma RetargetMoves(insn: Insn, e: BlockId, t: BlockId, sem: Semantics, s: State)
    ensures Perform(sem, Retarget(insn, e, t), s) == MovedNext(e, Some(t), Perform(sem, insn, s))
  {
  }

  lemma StayingMoves(block: Block, e: BlockId, t: Option<BlockId>, i: nat, sem: Semantics, s: State)
    requires WellFormedBlock(block) && i < |block.insns| && (e in Succs(block) ==> t.None?)
    ensures Perform(sem, block.insns[i], s) == MovedNext(e, t, Perform(sem, block.insns[i], s))
  {
  }

  lemma InnerMoves(block: Block, e: BlockId, t: Option<BlockId>, i: nat, sem: Semantics, s: State)
    requires WellFormedBlock(block) && i < |block.insns| - 1
    ensures Perform(sem, block.insns[i], s) == MovedNext(e, t, Perform(sem, block.insns[i], s))
  {
    assert !IsTerminator(block.insns[i]);
  }

  lemma RedirectAlike(block: Block, e: BlockId, t: BlockId, i: nat, sem: Semantics, s: State)
    requires WellFormedBlock(block) && i < |block.insns|
    ensures Perform(sem, Redirect(block, e, t).insns[i], s) == MovedNext(e, Some(t), Perform(sem, block.insns[i], s))
  {
    if i == |block.insns| - 1 {
      RetargetMoves(block.insns[i], e, t, sem, s);
    } else {
      InnerMoves(block, e, Some(t), i, sem, s);
    }
  }

  lemma PerformEnters(block: Block, i: nat, sem: Semantics, s: State)
    requires WellFormedBlock(block) && i < |block.insns| && Perform(sem, block.insns[i], s).Enter?
    ensures Perform(sem, block.insns[i], s).block in Succs(block)
  {
  }

  /** Control that leaves a block enters one that stays, or the removed block. */
  lemma EntersKnown(f: Flow, e: BlockId, b: BlockId, c: BlockId)
    requires Linked(f) && Removable(f, e) && b in f.order && c in Succs(f.g.blocks[b])
    ensures Enterable(RemoveOne(f, e), e, Onward(f.g.blocks[e]), c)
  {
    if c == e {
      assert b in PredsOf(f, e);
      OnlyOnward(f, e, Onward(f.g.blocks[e]).value);
    }
  }

  lemma RemoveOneAlikeAt(f: Flow, e: BlockId, b: BlockId, i: nat, sem: Semantics, s: State)
    requires Linked(f) && Removable(f, e) && b in f.order && b != e && i < |f.g.blocks[b].insns|
    ensures |RemoveOne(f, e).g.blocks[b].insns| == |f.g.blocks[b].insns|
    ensures AlikeAt(f.g.blocks[b], RemoveOne(f, e).g.blocks[b], RemoveOne(f, e), e, Onward(f.g.blocks[e]), i, sem, s)
  {
    var x, t := f.g.blocks[b], Onward(f.g.blocks[e]);
    assert WellFormedBlock(x);
    if Perform(sem, x.insns[i], s).Enter? {
      PerformEnters(x, i, sem, s);
      EntersKnown(f, e, b, Perform(sem, x.insns[i], s).block);
    }
    if b in PredsOf(f, e) { RedirectAlike(x, e, t.value, i, sem, s); } else { StayingMoves(x, e, t, i, sem, s); }
  }

  lemma RemoveOneAlike(f: Flow, e: BlockId, b: BlockId)
    requires Linked(f) && Removable(f, e) && b in f.order && b != e
    ensures Alike(f, RemoveOne(f, e), e, Onward(f.g.blocks[e]), b)
  {
    var x, r, t := f.g.blocks[b], RemoveOne(f, e), Onward(f.g.blocks[e]);
    forall i: nat, sem, s | i < |x.insns| ensures AlikeAt(x, r.g.blocks[b], r, e, t, i, sem, s) {
      RemoveOneAlikeAt(f, e, b, i, sem, s);
    }
    if x.succ0.Some? {
      assert x.succ0.value in Succs(x);
      EntersKnown(f, e, b, x.succ0.value);
    }
  }

  lemma RemoveOneBypasses(f: Flow, e: BlockId)
    requires Linked(f) && Removable(f, e)
    ensures Bypassed(f, RemoveOne(f, e), e, Onward(f.g.blocks[e]))
  {
    assert WellFormedBlock(f.g.blocks[e]);
    forall b | b in RemoveOne(f, e).order ensures Alike(f, RemoveOne(f, e), e, Onward(f.g.blocks[e]), b) {
      RemoveOneAlike(f, e, b);
    }
  }

  // ----- fuel -----

  lemma {:induction false} MoreFuel(
      g: Graph, sem: Semantics, b: BlockId, i: nat, s: State, fuel: nat, more: nat, x: Exit<State>)
    requires RunFrom(g, sem, b, i, s, fuel) == Ended(x) && fuel <= more
    ensures RunFrom(g, sem, b, i, s, more) == Ended(x)
    decreases fuel, if b < |g.blocks| then |g.blocks[b].insns| - i else 0
  {
    if b < |g.blocks| && i <= |g.blocks[b].insns| {
      if i == |g.blocks[b].insns| {
        if g.blocks[b].succ0.Some? { MoreFuel(g, sem, g.blocks[b].succ0.value, 0, s, fuel - 1, more - 1, x); }
      } else {
        match Perform(sem, g.blocks[b].insns[i], s)
        case Continue(s') => MoreFuel(g, sem, b, i + 1, s', fuel, more, x);
        case Enter(t, s') => MoreFuel(g, sem, t, 0, s', fuel - 1, more - 1, x);
        case Stop(_) =>
      }
    }
  }

  lemma MoreFuelToEnter(g: Graph, sem: Semantics, b: BlockId, s: State, fuel: nat, more: nat, x: Exit<State>)
    requires RunBlock(g, sem, b, s, fuel) == Ended(x) && fuel <= more
    ensures RunBlock(g, sem, b, s, more) == Ended(x)
  {
    MoreFuel(g, sem, b, 0, s, fuel - 1, more - 1, x);
  }

  // ----- one removal -----

  /** An empty block does nothing but enter its successor. */
  lemma ThroughEmpty(f: Flow, r: Flow, e: BlockId, t: Option<BlockId>, sem: Semantics, s: State, fuel: nat)
    requires Bypassed(f, r, e, t) && fuel > 0 && t.Some?
    ensures RunBlock(f.g, sem, e, s, fuel) == RunBlock(f.g, sem, t.value, s, fuel - 1)
  {
  }

  lemma {:induction false} ForwardFrom(
      f: Flow, r: Flow, e: BlockId, t: Option<BlockId>, sem: Semantics, b: BlockId, i: nat, s: State, fuel: nat,
      x: Exit<State>)
    requires Bypassed(f, r, e, t) && b in r.order
    requires RunFrom(f.g, sem, b, i, s, fuel) == Ended(x)
    ensures RunFrom(r.g, sem, b, i, s, fuel) == Ended(x)
    decreases fuel, if b < |f.g.blocks| then |f.g.blocks[b].insns| - i else 0, 1
  {
    assert Alike(f, r, e, t, b);
    var block := f.g.blocks[b];
    if i == |block.insns| {
      if block.succ0.Some? { ForwardEnter(f, r, e, t, sem, block.succ0.value, s, fuel, x); }
    } else if i < |block.insns| {
      assert AlikeAt(block, r.g.blocks[b], r, e, t, i, sem, s);
      match Perform(sem, block.insns[i], s)
      case Continue(s') => ForwardFrom(f, r, e, t, sem, b, i + 1, s', fuel, x);
      case Enter(c, s') => ForwardEnter(f, r, e, t, sem, c, s', fuel, x);
      case Stop(_) =>
    }
  }

  lemma {:induction false} ForwardEnter(
      f: Flow, r: Flow, e: BlockId, t: Option<BlockId>, sem: Semantics, c: BlockId, s: State, fuel: nat, x: Exit<State>)
    requires Bypassed(f, r, e, t) && Enterable(r, e, t, c)
    requires RunBlock(f.g, sem, c, s, fuel) == Ended(x)
    ensures RunBlock(r.g, sem, Moved(e, t, c), s, fuel) == Ended(x)
    decreases fuel, 0, 0
  {
    if c != e {
      ForwardFrom(f, r, e, t, sem, c, 0, s, fuel - 1, x);
    } else {
      ThroughEmpty(f, r, e, t, sem, s, fuel);
      ForwardFrom(f, r, e, t, sem, t.value, 0, s, fuel - 2, x);
      MoreFuelToEnter(r.g, sem, t.value, s, fuel - 1, fuel, x);
    }
  }

  lemma {:induction false} BackwardFrom(
      f: Flow, r: Flow, e: BlockId, t: Option<BlockId>, sem: Semantics, b: BlockId, i: nat, s: State, fuel: nat,
      x: Exit<State>)
    requires Bypassed(f, r, e, t) && b in r.order
    requires RunFrom(r.g, sem, b, i, s, fuel) == Ended(x)
    ensures RunFrom(f.g, sem, b, i, s, 2 * fuel) == Ended(x)
    decreases fuel, if b < |f.g.blocks| then |f.g.blocks[b].insns| - i else 0, 1
  {
    assert Alike(f, r, e, t, b);
    var block := f.g.blocks[b];
    if i == |block.insns| {
      if block.succ0.Some? { BackwardEnter(f, r, e, t, sem, block.succ0.value, s, fuel, x); }
    } else if i < |block.insns| {
      assert AlikeAt(block, r.g.blocks[b], r, e, t, i, sem, s);
      match Perform(sem, block.insns[i], s)
      case Continue(s') => BackwardFrom(f, r, e, t, sem, b, i + 1, s', fuel, x);
      case Enter(c, s') => BackwardEnter(f, r, e, t, sem, c, s', fuel, x);
      case Stop(_) =>
    }
  }

  lemma {:induction false} BackwardEnter(
      f: Flow, r: Flow, e: BlockId, t: Option<BlockId>, sem: Semantics, c: BlockId, s: State, fuel: nat, x: Exit<State>)
    requires Bypassed(f, r, e, t) && Enterable(r, e, t, c)
    requires RunBlock(r.g, sem, Moved(e, t, c), s, fuel) == Ended(x)
    ensures RunBlock(f.g, sem, c, s, 2 * fuel) == Ended(x)
    decreases fuel, 0, 0
  {
    if c != e {
      BackwardFrom(f, r, e, t, sem, c, 0, s, fuel - 1, x);
      MoreFuelToEnter(f.g, sem, c, s, 2 * fuel - 1, 2 * fuel, x);
    } else {
      BackwardFrom(f, r, e, t, sem, t.value, 0, s, fuel - 1, x);
      ThroughEmpty(f, r, e, t, sem, s, 2 * fuel);
    }
  }

  // ----- all removals -----

  /** A run that enters `b` ends in `x`. */
  ghost predicate EndsIn(g: Graph, sem: Semantics, b: BlockId, s: State, x: Exit<State>) {
    exists fuel: nat :: RunBlock(g, sem, b, s, fuel) == Ended(x)
  }

  lemma SameEnd(f: Flow, r: Flow, e: BlockId, t: Option<BlockId>, sem: Semantics, b: BlockId, s: State, x: Exit<State>)
    requires Bypassed(f, r, e, t) && b in r.order
    ensures EndsIn(f.g, sem, b, s, x) <==> EndsIn(r.g, sem, b, s, x)
  {
    if EndsIn(f.g, sem, b, s, x) {
      var fuel: nat :| RunBlock(f.g, sem, b, s, fuel) == Ended(x);
      ForwardFrom(f, r, e, t, sem, b, 0, s, fuel - 1, x);
      assert RunBlock(r.g, sem, b, s, fuel) == Ended(x);
    }
    if EndsIn(r.g, sem, b, s, x) {
      var fuel: nat :| RunBlock(r.g, sem, b, s, fuel) == Ended(x);
      BackwardFrom(f, r, e, t, sem, b, 0, s, fuel - 1, x);
      assert RunBlock(f.g, sem, b, s, 2 * (fuel - 1) + 1) == Ended(x);
    }
  }

  lemma RemovalKeepsEnd(f: Flow, e: BlockId, r: Flow, sem: Semantics, b: BlockId, s: State, x: Exit<State>)
    requires Removed(f, e, r) && b in r.order
    ensures b in f.order && (EndsIn(f.g, sem, b, s, x) <==> EndsIn(r.g, sem, b, s, x))
  {
    RemoveOneBypasses(f, e);
    SameEnd(f, r, e, Onward(f.g.blocks[e]), sem, b, s, x);
  }

  /**
   Whatever the instructions mean, a function that is entered at a block that stays ends in the same way, with the
   same state, before and after its empty blocks are removed.
   */
  lemma {:induction false} SameEnds(
      es: seq<BlockId>, tr: seq<Flow>, k: nat, sem: Semantics, b: BlockId, s: State, x: Exit<State>)
    requires Trace(es, tr) && k <= |es| && b in tr[k].order
    ensures EndsIn(tr[0].g, sem, b, s, x) <==> EndsIn(tr[k].g, sem, b, s, x)
  {
    hide EndsIn, Removed;
    if k > 0 {
      assert RemovedAt(es, tr, k - 1);
      RemovalKeepsEnd(tr[k - 1], es[k - 1], tr[k], sem, b, s, x);
      SameEnds(es, tr, k - 1, sem, b, s, x);
    }
  }
}
