/** Throughout a run, the variables that have been allocated stay on the stack, in the slots the layout gave them. */
module SlotRuns {
  import opened Options
  import opened Ir
  import opened Layout
  import opened Listings
  import opened Machine
  import opened StackShape
  import opened Execution
  import opened PopPoints
  import opened Simplify
  import opened SimplifyPaths
  import opened Typing
  import opened Pipeline
  import opened FunctionCode
  import opened Slots

  // ----- the removal of empty blocks -----

  ghost predicate AllSourced(g: Graph) {
    forall b: BlockId {:trigger g.blocks[b]} | b < |g.blocks| :: Sourced(g.blocks[b].insns)
  }

  ghost predicate SomewhereHoused(g: Graph, t: Temp) {
    exists b: BlockId :: b < |g.blocks| && Housed(g.blocks[b].insns, t)
  }

  /** The instructions of a block, but for where they lead, are those of another one. */
  ghost predicate SameInsns(x: seq<Insn>, y: seq<Insn>) {
    |x| == |y| && forall i {:trigger x[i]} {:trigger y[i]} | 0 <= i < |x| ::
      && Consumes(y[i]) == Consumes(x[i]) && (y[i].Alloc? <==> x[i].Alloc?)
      && (x[i].Alloc? ==> y[i] == x[i]) && forall t :: Produces(y[i], t) == Produces(x[i], t)
  }

  lemma SameInsnsSourced(x: seq<Insn>, y: seq<Insn>)
    requires SameInsns(x, y)
    ensures Sourced(x) ==> Sourced(y)
    ensures forall t :: Housed(x, t) ==> Housed(y, t)
  {
    if Sourced(x) {
      forall i: nat, t | i < |y| && t in Consumes(y[i]) ensures Produced(y, t) {
        assert t in Consumes(x[i]);
        var j :| 0 <= j < |x| && Produces(x[j], t);
        assert Produces(y[j], t);
      }
    }
    forall t | Housed(x, t) ensures Housed(y, t) {
      var j :| 0 <= j < |x| && x[j].Alloc? && x[j].id == t;
      assert y[j].Alloc? && y[j].id == t;
    }
  }

  lemma ItselfSame(x: seq<Insn>)
    ensures SameInsns(x, x)
  {
  }

  lemma RedirectSame(block: Block, e: BlockId, t: BlockId)
    ensures SameInsns(block.insns, Redirect(block, e, t).insns)
  {
    var x, y := block.insns, Redirect(block, e, t).insns;
    forall i | 0 <= i < |x| && i != |x| - 1 ensures y[i] == x[i] {
    }
  }

  lemma RemoveOneSame(f: Flow, e: BlockId, b: BlockId)
    requires b < |f.g.blocks|
    ensures |RemoveOne(f, e).g.blocks| == |f.g.blocks|
    ensures SameInsns(f.g.blocks[b].insns, RemoveOne(f, e).g.blocks[b].insns)
  {
    hide SameInsns, Redirect;
    var block, t := f.g.blocks[b], Onward(BlockOf(f.g, e));
    ItselfSame(block.insns);
    if t.Some? { RedirectSame(block, e, t.value); }
  }

  ghost predicate KeepsHomes(g: Graph, h: Graph) {
    AllSourced(h) && forall t :: SomewhereHoused(g, t) ==> SomewhereHoused(h, t)
  }

  lemma RemoveOneSourced(f: Flow, e: BlockId)
    requires AllSourced(f.g)
    ensures KeepsHomes(f.g, RemoveOne(f, e).g)
  {
    var r := RemoveOne(f, e);
    hide RemoveOne, Sourced, Housed, SameInsns;
    forall b: BlockId | b < |r.g.blocks|
      ensures Sourced(r.g.blocks[b].insns) && b < |f.g.blocks|
      ensures forall t :: Housed(f.g.blocks[b].insns, t) ==> Housed(r.g.blocks[b].insns, t)
    {
      LengthKept(f, e);
      RemoveOneSame(f, e, b);
      SameInsnsSourced(f.g.blocks[b].insns, r.g.blocks[b].insns);
    }
    LengthKept(f, e);
    forall t | SomewhereHoused(f.g, t) ensures SomewhereHoused(r.g, t) {
      var b: BlockId :| b < |f.g.blocks| && Housed(f.g.blocks[b].insns, t);
      assert Housed(r.g.blocks[b].insns, t);
    }
  }

  lemma LengthKept(f: Flow, e: BlockId)
    ensures |RemoveOne(f, e).g.blocks| == |f.g.blocks|
  {
  }

  lemma {:induction false} TraceSourced(es: seq<BlockId>, tr: seq<Flow>, k: nat)
    requires Trace(es, tr) && k <= |es| && AllSourced(tr[0].g)
    ensures KeepsHomes(tr[0].g, tr[k].g)
  {
    hide RemoveOne, AllSourced, SomewhereHoused;
    if k > 0 {
      TraceSourced(es, tr, k - 1);
      assert RemovedAt(es, tr, k - 1);
      RemoveOneSourced(tr[k - 1], es[k - 1]);
    }
  }

  // ----- one instruction -----

  /** A temporary that some instruction produces, as opposed to the allocation of a variable. */
  ghost predicate Temporary(g: Graph, t: Temp) {
    exists b: BlockId :: b < |g.blocks| && Produced(g.blocks[b].insns, t)
  }

  ghost predicate KeptIn(g: Graph, s: State, temps: seq<Temp>) {
    forall t {:trigger t in s.temps} | t in s.temps :: Temporary(g, t) || t in temps
  }

  lemma DropKeeps(temps: seq<Temp>, top: seq<Temp>, t: Temp)
    requires EndsWith(temps, top) && t in temps
    ensures t in top || t in Drop(temps, |top|)
  {
    var j :| 0 <= j < |temps| && temps[j] == t;
    if j >= |temps| - |top| {
      assert temps[|temps| - |top|..][j - (|temps| - |top|)] == t;
    } else {
      assert Drop(temps, |top|)[j] == t;
    }
  }

  lemma InsnTemporary(g: Graph, b: BlockId, i: nat)
    requires AllSourced(g) && b < |g.blocks| && i < |g.blocks[b].insns|
    ensures forall t | t in Consumes(g.blocks[b].insns[i]) :: Temporary(g, t)
    ensures forall t | Produces(g.blocks[b].insns[i], t) :: Temporary(g, t)
  {
    forall t | t in Consumes(g.blocks[b].insns[i]) ensures Temporary(g, t) {
      assert Produced(g.blocks[b].insns, t);
    }
    forall t | Produces(g.blocks[b].insns[i], t) ensures Temporary(g, t) {
      assert Produced(g.blocks[b].insns, t);
    }
  }

  /** What an instruction takes off the stack are temporaries. */
  lemma ConsumedAreTemporaries(g: Graph, insn: Insn, shape: Shape, params: nat, s: State)
    requires ShapeAfter(insn, shape, params, 0).Some? && KeptIn(g, s, shape.temps)
    requires forall t | t in Consumes(insn) :: Temporary(g, t)
    ensures KeptIn(g, s, Drop(shape.temps, Consumed(insn)))
  {
    if insn.Use? || insn.Branch? {
      var top := if insn.Use? then insn.sources else [insn.cond];
      forall t | t in s.temps && !Temporary(g, t) ensures t in Drop(shape.temps, |top|) {
        DropKeeps(shape.temps, top, t);
      }
    } else {
      assert Drop(shape.temps, 0) == shape.temps;
    }
  }

  lemma StepKeeps(g: Graph, sem: Semantics, insn: Insn, shape: Shape, params: nat, next: Shape, s: State)
    requires ShapeAfter(insn, shape, params, 0) == Some(next) && KeptIn(g, s, shape.temps)
    requires (forall t | t in Consumes(insn) :: Temporary(g, t)) && forall t | Produces(insn, t) :: Temporary(g, t)
    ensures match Perform(sem, insn, s)
            case Continue(s') => KeptIn(g, s', next.temps)
            case Enter(_, s') => KeptIn(g, s', next.temps)
            case Stop(Lost) => true
            case Stop(exit) => KeptIn(g, exit.state, Drop(shape.temps, Consumed(insn)))
  {
    ConsumedAreTemporaries(g, insn, shape, params, s);
    if insn.Alloc? || insn.Store? {
      var top := if insn.Store? then [insn.source] else if insn.initializer.Some? then [insn.initializer.value] else [];
      forall t | t in s.temps && !Temporary(g, t) ensures t in Drop(shape.temps, |top|) {
        if top == [] { assert Drop(shape.temps, 0) == shape.temps; } else { DropKeeps(shape.temps, top, t); }
      }
    }
    if Defines(insn).Some? && !insn.Alloc? { assert Produces(insn, Defines(insn).value); }
  }

  // ----- whole runs -----

  ghost predicate KeptAt(u: Unit, b: BlockId, i: nat, s: State) {
    && u.Valid() && AllSourced(u.f.g) && InBody(u.f, b) && b < |u.n.heads| && i <= |u.f.g.blocks[b].insns|
    && (i == |u.f.g.blocks[b].insns| ==> !EndsInReturn(u.f.g.blocks[b]))
    && ShapeTo(u.f.g.blocks[b].insns, u.n.heads[b], u.n.params, i).Some?
    && KeptIn(u.f.g, s, ShapeTo(u.f.g.blocks[b].insns, u.n.heads[b], u.n.params, i).value.temps)
  }

  /** Where a run of the graph stops, no variable has left the stack. */
  ghost predicate KeptAtEnd(u: Unit, w: Run<State, BlockId>, at: (BlockId, nat)) {
    w.Ended? && !w.exit.Lost? ==>
      && InBody(u.f, at.0) && at.1 < |u.f.g.blocks[at.0].insns| && at.0 < |u.n.heads|
      && ShapeTo(u.f.g.blocks[at.0].insns, u.n.heads[at.0], u.n.params, at.1).Some?
      && var shape := ShapeTo(u.f.g.blocks[at.0].insns, u.n.heads[at.0], u.n.params, at.1).value;
         KeptIn(u.f.g, w.exit.state, Drop(shape.temps, Consumed(u.f.g.blocks[at.0].insns[at.1])))
  }

  lemma ShapesThere(u: Unit, b: BlockId, i: nat)
    requires u.Valid() && InBody(u.f, b) && i < |u.f.g.blocks[b].insns|
    ensures b < |u.n.heads|
    ensures var insns, head := u.f.g.blocks[b].insns, u.n.heads[b];
            && ShapeTo(insns, head, u.n.params, i).Some? && ShapeTo(insns, head, u.n.params, i + 1).Some?
            && ShapeAfter(insns[i], ShapeTo(insns, head, u.n.params, i).value, u.n.params, 0)
               == ShapeTo(insns, head, u.n.params, i + 1)
  {
    BodyHasShapes(u, b);
    var insns, head := u.f.g.blocks[b].insns, u.n.heads[b];
    ShapeUntil(insns, head, u.n.params, i + 1, |insns|);
    ShapeUntil(insns, head, u.n.params, i, |insns|);
  }

  /** The stack at the end of a block is what its successors start with. */
  lemma EnteredKept(u: Unit, b: BlockId, c: BlockId, s: State)
    requires b < |u.f.g.blocks| && KeptAt(u, b, |u.f.g.blocks[b].insns|, s) && c in Succs(u.f.g.blocks[b])
    ensures KeptAt(u, c, 0, s)
  {
    hide Unit.Valid, AllSourced, KeptIn;
    BodyHasShapes(u, b);
    BodyHasShapes(u, c);
    assert ShapeTo(u.f.g.blocks[c].insns, u.n.heads[c], u.n.params, 0) == Some(u.n.heads[c]);
  }

  /** The cases of an instruction that is performed. */
  ghost predicate StepKept(u: Unit, sem: Semantics, b: BlockId, i: nat, s: State)
    requires b < |u.f.g.blocks| && i < |u.f.g.blocks[b].insns|
  {
    match Perform(sem, u.f.g.blocks[b].insns[i], s)
    case Continue(s') => KeptAt(u, b, i + 1, s')
    case Enter(t, s') => KeptAt(u, t, 0, s')
    case Stop(exit) => KeptAtEnd(u, Ended(exit), (b, i))
  }

  lemma EntersBehind(u: Unit, sem: Semantics, b: BlockId, i: nat, s: State)
    requires u.Valid() && InBody(u.f, b) && i < |u.f.g.blocks[b].insns|
    ensures WellFormedBlock(u.f.g.blocks[b])
    ensures var next := Perform(sem, u.f.g.blocks[b].insns[i], s);
            && (next.Continue? ==> !u.f.g.blocks[b].insns[i].Return?)
            && (next.Enter? ==> i == |u.f.g.blocks[b].insns| - 1 && next.block in Succs(u.f.g.blocks[b]))
            && (next.Enter? ==> !EndsInReturn(u.f.g.blocks[b]))
  {
    hide AllocsOf, Alone, Arity, Distinct, Enclosed, Exact, GetAll, HasCode, HasResult, Lively, Owned;
    assert TypedBlock(u.f, u.n, b);
    if Perform(sem, u.f.g.blocks[b].insns[i], s).Enter? {
      assert IsTerminator(u.f.g.blocks[b].insns[i]);
    }
  }

  lemma KeptStep(u: Unit, sem: Semantics, b: BlockId, i: nat, s: State)
    requires KeptAt(u, b, i, s) && i < |u.f.g.blocks[b].insns|
    ensures StepKept(u, sem, b, i, s)
  {
    hide Unit.Valid, AllSourced, KeptIn, ShapeTo, WellFormedBlock, InScope;
    var insns, head := u.f.g.blocks[b].insns, u.n.heads[b];
    ShapesThere(u, b, i);
    InsnTemporary(u.f.g, b, i);
    var shape, after := ShapeTo(insns, head, u.n.params, i).value, ShapeTo(insns, head, u.n.params, i + 1).value;
    StepKeeps(u.f.g, sem, insns[i], shape, u.n.params, after, s);
    EntersBehind(u, sem, b, i, s);
    var next := Perform(sem, insns[i], s);
    if next.Enter? { EnteredKept(u, b, next.block, next.state); }
  }

  lemma {:induction false} KeptFrom(u: Unit, sem: Semantics, b: BlockId, i: nat, s: State, fuel: nat)
    requires KeptAt(u, b, i, s)
    ensures KeptAtEnd(u, RunFrom(u.f.g, sem, b, i, s, fuel), EndSpot(u.f.g, sem, b, i, s, fuel))
    decreases fuel, (if b < |u.f.g.blocks| then |u.f.g.blocks[b].insns| - i else 0)
  {
    hide Unit.Valid, AllSourced, KeptIn, ShapeTo, Perform;
    var block := u.f.g.blocks[b];
    if i == |block.insns| {
      if block.succ0.Some? && fuel > 0 {
        EnteredKept(u, b, block.succ0.value, s);
        KeptFrom(u, sem, block.succ0.value, 0, s, fuel - 1);
      }
    } else {
      KeptStep(u, sem, b, i, s);
      match Perform(sem, block.insns[i], s)
      case Continue(s') => KeptFrom(u, sem, b, i + 1, s', fuel);
      case Enter(t, s') => if fuel > 0 { KeptFrom(u, sem, t, 0, s', fuel - 1); }
      case Stop(_) =>
    }
  }

  lemma RootKept(u: Unit, args: seq<Value>, h: History)
    requires u.Valid() && AllSourced(u.f.g)
    ensures KeptAt(u, u.root, 0, Called(args, h))
  {
    RootInBody(u);
    hide AllSourced, Unit.Valid;
    BodyHasShapes(u, u.root);
  }

  /** A call, from its start to its end. */
  lemma CallKeeps(u: Unit, sem: Semantics, args: seq<Value>, h: History, fuel: nat)
    requires u.Valid() && AllSourced(u.f.g)
    ensures KeptAtEnd(u, RunBlock(u.f.g, sem, u.root, Called(args, h), fuel),
            EndSpotIn(u.f.g, sem, u.root, Called(args, h), fuel))
  {
    hide Unit.Valid, AllSourced, KeptAt;
    if fuel > 0 {
      RootKept(u, args, h);
      KeptFrom(u, sem, u.root, 0, Called(args, h), fuel - 1);
    }
  }

  // ----- slots -----

  /** The slot of a temporary: the frame offset that loads and stores of it are given. */
  function SlotOf(v: View, t: Temp): int { FrameOf(v.frames, t) }

  /** The slot holds the value. */
  ghost predicate InSlot(v: View, t: Temp, f: Frame, value: Value) {
    0 <= SlotOf(v, t) < |f.stack| && f.stack[SlotOf(v, t)] == value
  }

  lemma MatchedInSlot(temps: seq<Temp>, s: State, f: Frame, v: View, t: Temp)
    requires Matches(Shape(temps, 0), s, f) && InPlace(temps, v.frames) && t in temps
    ensures t in s.temps && InSlot(v, t, f, s.temps[t])
  {
    var j: nat :| j < |temps| && temps[j] == t;
  }

  lemma DropInPlace(temps: seq<Temp>, n: nat, frames: map<Temp, int>)
    requires InPlace(temps, frames)
    ensures InPlace(Drop(temps, n), frames)
  {
    forall j: nat | j < |Drop(temps, n)| ensures Drop(temps, n)[j] in frames && frames[Drop(temps, n)[j]] == j {
      assert Drop(temps, n)[j] == temps[j];
    }
  }

  // ----- the end of a call -----

  /** Where a run of the code stops, the temporaries that are left are in their slots. */
  lemma StoppedInSlots(
      fn: Function, v: View, sem: Semantics, args: seq<Value>, s: State, f: Frame, at: (BlockId, nat), temps: seq<Temp>,
      t: Temp)
    requires fn.Compilable() && |args| == fn.params && v == fn.Laid()
    requires StoppedAt(Setup(fn.g, fn.shapes, fn.kills, ListingOf(fn.g, v), sem, args), s, f, at.0, at.1)
    requires fn.g.blocks[at.0].insns[at.1] != Return(None)
    requires temps == Drop(fn.shapes[at.0][at.1].temps, Consumed(fn.g.blocks[at.0].insns[at.1])) && t in temps
    ensures t in s.temps && InSlot(v, t, f, s.temps[t])
  {
    hide PlaceFunction, Matches, AllPayLate, Shaped, Regular;
    FunctionIsFramed(fn);
    assert Framed(fn.shapes, v, at.0);
    DropInPlace(fn.shapes[at.0][at.1].temps, Consumed(fn.g.blocks[at.0].insns[at.1]), v.frames);
    MatchedInSlot(temps, s, f, v, t);
  }
}
