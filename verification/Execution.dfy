/**
 The stack code of a faithful layout computes what the graph computes, for every semantics of the instructions,
 provided the graph has shapes: at each instruction the operands are on top of the stack.
 */
module Execution {
  import opened Options
  import opened Ir
  import opened Layout
  import opened Listings
  import opened Machine
  import opened StackShape

  /** The frame holds the values of the temporaries of the shape, and above them the arguments not bound yet. */
  ghost predicate Matches(shape: Shape, s: State, f: Frame) {
    && |s.pending| == shape.pending && |f.stack| == |shape.temps| + shape.pending && f.history == s.history
    && (forall j: nat {:trigger shape.temps[j]} | j < |shape.temps| ::
          shape.temps[j] in s.temps && f.stack[j] == s.temps[shape.temps[j]])
    && f.stack[|shape.temps|..] == s.pending
  }

  // ----- one instruction -----

  lemma TopMatches(shape: Shape, s: State, f: Frame, sources: seq<Temp>)
    requires Matches(shape, s, f) && shape.pending == 0 && EndsWith(shape.temps, sources)
    ensures |f.stack| >= |sources| && f.stack[|f.stack| - |sources|..] == GetAll(s, sources)
    ensures Matches(Shape(Drop(shape.temps, |sources|), 0), s, f.(stack := Replace(f.stack, |sources|, [])))
  {
    var n := |shape.temps| - |sources|;
    forall i | 0 <= i < |sources| ensures f.stack[n..][i] == GetAll(s, sources)[i] {
      assert sources[i] == shape.temps[n..][i] == shape.temps[n + i];
    }
  }

  lemma PushMatches(shape: Shape, s: State, f: Frame, id: Temp, v: Value)
    requires Matches(shape, s, f) && shape.pending == 0 && id !in shape.temps
    ensures Matches(Shape(shape.temps + [id], 0), Put(s, id, v), f.(stack := f.stack + [v]))
  {
  }

  /** What an instruction takes off the stack when it stops the run. */
  function Consumed(insn: Insn): nat {
    match insn
    case Use(_, _, sources) => |sources|
    case Branch(_, _, _) => 1
    case _ => 0
  }

  lemma UseMatches(
      sem: Semantics, code: FlatCode, args: seq<Value>, pc: nat, insn: Insn, shape: Shape, params: nat, kills: nat,
      next: Shape, s: State, f: Frame)
    requires insn.Use? && |insn.sources| == Arity(insn.kind) && pc < |code| && code[pc] == Plain(insn.kind)
    requires Matches(shape, s, f) && ShapeAfter(insn, shape, params, kills) == Some(next)
    ensures match Perform(sem, insn, s)
            case Continue(s') =>
              var a := Execute(sem, code, args, pc, f); a.Jumps? && a.pc == pc + 1 && Matches(next, s', a.frame)
            case Stop(Faulted(s')) =>
              var a := Execute(sem, code, args, pc, f);
              && a.Ends? && a.exit.Faulted?
              && Matches(Shape(Drop(shape.temps, Consumed(insn)), 0), s', a.exit.state)
            case _ => false
  {
    var n := Arity(insn.kind);
    TopMatches(shape, s, f, insn.sources);
    var low, g := Shape(Drop(shape.temps, n), 0), f.(stack := Replace(f.stack, n, []));
    match sem(insn.kind, GetAll(s, insn.sources), s.history)
    case Reply(v, h) =>
      if HasResult(insn.kind) {
        PushMatches(low, s, g, insn.id, v);
        assert g.stack + [v] == Replace(f.stack, n, [v]);
      } else {
        assert low.temps + [] == low.temps;
      }
    case Fault(h) =>
  }

  lemma LoadMatches(
      sem: Semantics, code: FlatCode, args: seq<Value>, pc: nat, insn: Insn, shape: Shape, params: nat, kills: nat,
      next: Shape, s: State, f: Frame, frames: map<Temp, int>)
    requires insn.Load? && pc < |code| && code[pc] == PlainCode(insn, frames)
    requires Matches(shape, s, f) && ShapeAfter(insn, shape, params, kills) == Some(next)
    requires InPlace(next.temps, frames)
    ensures var n, a := Perform(sem, insn, s), Execute(sem, code, args, pc, f);
            n.Continue? && a.Jumps? && a.pc == pc + 1 && Matches(next, n.state, a.frame)
  {
    var j: nat :| j < |shape.temps| && shape.temps[j] == insn.source;
    assert next.temps[j] == insn.source;
    PushMatches(shape, s, f, insn.id, Get(s, insn.source));
  }

  lemma StoreMatches(
      sem: Semantics, code: FlatCode, args: seq<Value>, pc: nat, insn: Insn, shape: Shape, params: nat, kills: nat,
      next: Shape, s: State, f: Frame, frames: map<Temp, int>)
    requires insn.Store? && pc < |code| && code[pc] == PlainCode(insn, frames)
    requires Matches(shape, s, f) && ShapeAfter(insn, shape, params, kills) == Some(next)
    requires InPlace(next.temps, frames)
    ensures var n, a := Perform(sem, insn, s), Execute(sem, code, args, pc, f);
            n.Continue? && a.Jumps? && a.pc == pc + 1 && Matches(next, n.state, a.frame)
  {
    var n := |shape.temps|;
    assert shape.temps[n - 1..][0] == insn.source;
    var j: nat :| j < n - 1 && next.temps[j] == insn.destination;
    forall i: nat | i < n - 1 && next.temps[i] == insn.destination ensures i == j {
      assert frames[next.temps[i]] == i && frames[next.temps[j]] == j;
    }
  }

  lemma AllocMatches(sem: Semantics, insn: Insn, shape: Shape, params: nat, kills: nat, next: Shape, s: State, f: Frame)
    requires insn.Alloc? && Matches(shape, s, f) && ShapeAfter(insn, shape, params, kills) == Some(next)
    ensures var n := Perform(sem, insn, s); n.Continue? && Matches(next, n.state, f)
  {
    var n := |shape.temps|;
    if insn.initializer.Some? {
      assert shape.temps[n - 1..][0] == insn.initializer.value;
    } else {
      assert f.stack[n] == f.stack[n..][0] == s.pending[0];
      assert f.stack[n..][1..] == f.stack[n + 1..];
    }
  }

  // ----- pops -----

  lemma {:induction false} PopsRun(
      sem: Semantics, l: Listing, args: seq<Value>, pc: nat, n: nat, f: Frame)
    requires OnlyPops(l, pc, n) && n <= |f.stack|
    ensures RunCode(sem, l.code, args, pc, f, n) == Going(pc + n, f.(stack := Replace(f.stack, n, [])))
    decreases n
  {
    if n > 0 {
      assert l.code[pc] == Pop;
      var f1 := f.(stack := f.stack[..|f.stack| - 1]);
      PopsRun(sem, l, args, pc + 1, n - 1, f1);
      assert Replace(f1.stack, n - 1, []) == Replace(f.stack, n, []);
    } else {
      assert Replace(f.stack, 0, []) == f.stack;
    }
  }

  lemma DropMatches(shape: Shape, s: State, f: Frame, n: nat)
    requires Matches(shape, s, f) && shape.pending == 0 && n <= |shape.temps|
    ensures Matches(Shape(Drop(shape.temps, n), 0), s, f.(stack := Replace(f.stack, n, [])))
  {
    TopMatches(shape, s, f, shape.temps[|shape.temps| - n..]);
  }

  // ----- whole runs -----

  /** The pops found at an instruction, or at the end of a block. */
  function PopsDue(block: Block, kills: nat, i: nat): nat {
    if i >= |block.insns| || LeadsWithPops(block.insns[i]) then kills else 0
  }

  ghost predicate StockedAt(g: Graph, shapes: Shapes, kills: map<BlockId, nat>, l: Listing, b: BlockId, i: nat)
    requires b < |g.blocks| && b in kills && b in shapes
  {
    && l.pops(b, i) == PopsDue(g.blocks[b], kills[b], i)
    && (i + 1 < |shapes[b]| ==> InPlace(shapes[b][i + 1].temps, l.frames(b, i)))
  }

  /** A listing of a graph with its shapes and pops, the semantics to run it under and the arguments. */
  datatype Setup = Setup(
    g: Graph, shapes: Shapes, kills: map<BlockId, nat>, l: Listing, sem: Semantics, args: seq<Value>)

  /** The blocks of the listing have shapes, and the frame offsets of the listing are positions in them. */
  ghost predicate Stocked(u: Setup) {
    && Realizes(u.g, u.l) && u.kills.Keys == BlockIds(u.g)
    && (forall b {:trigger ShapedBlock(u.g, u.shapes, |u.args|, u.kills, b)} | b in u.l.start && b < |u.g.blocks| ::
          ShapedBlock(u.g, u.shapes, |u.args|, u.kills, b))
    && (forall b: nat, i: nat {:trigger StockedAt(u.g, u.shapes, u.kills, u.l, b, i)} |
          b in u.l.start && b < |u.g.blocks| && b in u.shapes && i <= |u.g.blocks[b].insns| && Reached(u.g, b, i) ::
          StockedAt(u.g, u.shapes, u.kills, u.l, b, i))
  }

  /** Control is at instruction `i` of `b`, or at its end, with a matching frame. */
  ghost predicate Here(u: Setup, b: BlockId, i: nat, s: State, f: Frame) {
    && Stocked(u)
    && b in u.l.start && b < |u.g.blocks| && i <= |u.g.blocks[b].insns| && Reached(u.g, b, i)
    && b in u.shapes && |u.shapes[b]| == |u.g.blocks[b].insns| + 1 && Matches(u.shapes[b][i], s, f)
  }

  /** The frame still holds the temporaries that instruction `i` of `b` left when it stopped the run. */
  ghost predicate StoppedAt(u: Setup, s: State, f: Frame, b: BlockId, i: nat) {
    && b in u.l.start && b < |u.g.blocks| && i < |u.g.blocks[b].insns| && b in u.shapes && i < |u.shapes[b]|
    && var insn := u.g.blocks[b].insns[i];
       var gone := Consumed(insn) + if insn == Return(None) && b in u.kills then u.kills[b] else 0;
       Matches(Shape(Drop(u.shapes[b][i].temps, gone), 0), s, f)
  }

  /** Both runs have stopped at instruction `at` in the same way. */
  ghost predicate ExitsAlike(u: Setup, e: Exit<State>, x: Exit<Frame>, at: (BlockId, nat)) {
    match (e, x)
    case (Returned(v, s), Returned(w, f)) => v == w && StoppedAt(u, s, f, at.0, at.1)
    case (Faulted(s), Faulted(f)) => StoppedAt(u, s, f, at.0, at.1)
    case _ => false
  }

  /** A run of the stack code has followed a run of the graph to the same end, at `at`, or to the same block. */
  ghost predicate Tracks(u: Setup, w: Run<State, BlockId>, x: Run<Frame, nat>, at: (BlockId, nat)) {
    match w
    case Going(t, s) =>
      t in u.l.start && x.Going? && x.place == u.l.start[t] && Here(u, t, 0, s, x.state)
    case Ended(e) => x.Ended? && ExitsAlike(u, e, x.exit, at)
  }

  function Code(u: Setup, pc: nat, f: Frame, k: nat): Run<Frame, nat> {
    RunCode(u.sem, u.l.code, u.args, pc, f, k)
  }

  function Popped(f: Frame, n: nat): Frame
    requires n <= |f.stack|
  {
    f.(stack := Replace(f.stack, n, []))
  }

  /** Pops, one instruction of stack code, then a run that tracks. */
  lemma ThenRun(u: Setup, pc: nat, pops: nat, f: Frame, pc': nat, f': Frame, k: nat)
    requires OnlyPops(u.l, pc, pops) && pops <= |f.stack|
    requires Execute(u.sem, u.l.code, u.args, pc + pops, Popped(f, pops)) == Jumps(pc', f')
    ensures Code(u, pc, f, pops + (1 + k)) == Code(u, pc', f', k)
  {
    PopsRun(u.sem, u.l, u.args, pc, pops, f);
    RunCodeComposes(u.sem, u.l.code, u.args, pc, f, pops, 1 + k);
  }

  lemma AfterPops(u: Setup, pc: nat, pops: nat, f: Frame, k: nat)
    requires OnlyPops(u.l, pc, pops) && pops <= |f.stack|
    ensures Code(u, pc, f, pops + k) == Code(u, pc + pops, Popped(f, pops), k)
  {
    PopsRun(u.sem, u.l, u.args, pc, pops, f);
    RunCodeComposes(u.sem, u.l.code, u.args, pc, f, pops, k);
  }

  lemma Facts(u: Setup, b: BlockId, i: nat, s: State, f: Frame)
    requires Here(u, b, i, s, f)
    ensures ShapedBlock(u.g, u.shapes, |u.args|, u.kills, b)
    ensures Realized(u.g, u.l, b, i) && StockedAt(u.g, u.shapes, u.kills, u.l, b, i)
    ensures i < |u.g.blocks[b].insns| ==>
              && ShapeAfter(u.g.blocks[b].insns[i], u.shapes[b][i], |u.args|, u.kills[b]) == Some(u.shapes[b][i + 1])
              && WellFormedBlock(u.g.blocks[b])
  {
    assert ShapedBlock(u.g, u.shapes, |u.args|, u.kills, b);
    assert Realized(u.g, u.l, b, i) && StockedAt(u.g, u.shapes, u.kills, u.l, b, i);
    if i < |u.g.blocks[b].insns| { assert ShapedAt(u.g, u.shapes, |u.args|, u.kills, b, i); }
  }

  ghost predicate Leaves(u: Setup, b: BlockId, i: nat)
    requires b < |u.g.blocks|
  {
    i == |u.g.blocks[b].insns| || (i < |u.g.blocks[b].insns| && u.g.blocks[b].insns[i].Goto?)
  }

  /** Control leaves a block without a condition: the pops it owes bring the stack into the successor's shape. */
  lemma LeaveReady(u: Setup, b: BlockId, i: nat, s: State, f: Frame) returns (t: BlockId)
    requires Here(u, b, i, s, f) && Leaves(u, b, i)
    ensures u.g.blocks[b].succ0 == Some(t) && b in u.kills && u.kills[b] <= |f.stack|
    ensures Here(u, t, 0, s, Popped(f, u.kills[b]))
  {
    hide Arity, Below, HasResult, InPlace, Realized, Replace, ShapedAt;
    Facts(u, b, i, s, f);
    t := u.g.blocks[b].succ0.value;
    var n := |u.g.blocks[b].insns|;
    assert t in Succs(u.g.blocks[b]);
    assert u.shapes[b][i] == u.shapes[b][n];
    SuccessorEntry(u, b, t);
    DropMatches(u.shapes[b][n], s, f, u.kills[b]);
  }

  /** The exit block is not listed, so a listed successor has the shape its predecessors leave. */
  lemma SuccessorEntry(u: Setup, b: BlockId, t: BlockId)
    requires Stocked(u) && b in u.l.start && b < |u.g.blocks| && b in u.kills && t in Succs(u.g.blocks[b])
    requires t in u.l.start
    ensures t < |u.g.blocks| && t in u.shapes && |u.shapes[t]| == |u.g.blocks[t].insns| + 1 && Reached(u.g, t, 0)
    ensures b in u.shapes && |u.shapes[b]| == |u.g.blocks[b].insns| + 1
    ensures u.shapes[t][0] == Shape(Drop(u.shapes[b][|u.g.blocks[b].insns|].temps, u.kills[b]), 0)
  {
    assert ShapedBlock(u.g, u.shapes, |u.args|, u.kills, b);
    assert ShapedBlock(u.g, u.shapes, |u.args|, u.kills, t);
    var j :| Emits(u.g, t, j);
  }

  /** Behind the pops a block owes, control is at the successor, or at a jump to it. */
  lemma LeaveStep(u: Setup, b: BlockId, i: nat, s: State, f: Frame, t: BlockId)
    requires Here(u, b, i, s, f) && Leaves(u, b, i) && u.g.blocks[b].succ0 == Some(t) && t in u.l.start
    requires b in u.kills && u.kills[b] <= |f.stack|
    ensures OnlyPops(u.l, u.l.pos(b, i), u.kills[b])
    ensures (i == |u.g.blocks[b].insns| && u.l.pos(b, i) + u.kills[b] == u.l.start[t]) ||
            var f' := Popped(f, u.kills[b]);
            Execute(u.sem, u.l.code, u.args, u.l.pos(b, i) + u.kills[b], f') == Jumps(u.l.start[t], f')
  {
    hide Arity, HasResult, InPlace, PlainCode, Popped, Replace, ShapedAt;
    Facts(u, b, i, s, f);
  }

  lemma LeaveRuns(u: Setup, b: BlockId, i: nat, s: State, f: Frame, fuel: nat, t: BlockId)
    requires Here(u, b, i, s, f) && Leaves(u, b, i) && u.g.blocks[b].succ0 == Some(t)
    ensures RunFrom(u.g, u.sem, b, i, s, fuel) == RunBlock(u.g, u.sem, t, s, fuel)
    ensures EndSpot(u.g, u.sem, b, i, s, fuel) == EndSpotIn(u.g, u.sem, t, s, fuel)
  {
    hide Arity, Emits, EndSpotIn, GetAll, HasResult, Reached, Realized, RunBlock, ShapedBlock, StockedAt;
    if i < |u.g.blocks[b].insns| {
      Facts(u, b, i, s, f);
      assert Perform(u.sem, u.g.blocks[b].insns[i], s) == Enter(t, s);
    }
  }

  lemma LeaveTracks(u: Setup, b: BlockId, i: nat, s: State, f: Frame, fuel: nat, t: BlockId, k0: nat) returns (k: nat)
    requires Here(u, b, i, s, f) && Leaves(u, b, i) && u.g.blocks[b].succ0 == Some(t) && t in u.l.start
    requires b in u.kills && u.kills[b] <= |f.stack|
    requires Tracks(u, RunBlock(u.g, u.sem, t, s, fuel), Code(u, u.l.start[t], Popped(f, u.kills[b]), k0),
                    EndSpotIn(u.g, u.sem, t, s, fuel))
    ensures Tracks(u, RunFrom(u.g, u.sem, b, i, s, fuel), Code(u, u.l.pos(b, i), f, k),
                   EndSpot(u.g, u.sem, b, i, s, fuel))
    ensures k >= k0 && (i < |u.g.blocks[b].insns| ==> k > k0)
  {
    hide EndSpot, EndSpotIn, Execute, ExitsAlike, Layout.Code, Leaves, OnlyPops, Popped, Reached, Realized, RunBlock,
      RunFrom, ShapedBlock, StockedAt, WellFormed;
    LeaveRuns(u, b, i, s, f, fuel, t);
    LeaveStep(u, b, i, s, f, t);
    var pc, pops := u.l.pos(b, i), u.kills[b];
    if i == |u.g.blocks[b].insns| && pc + pops == u.l.start[t] {
      AfterPops(u, pc, pops, f, k0);
      k := pops + k0;
    } else {
      ThenRun(u, pc, pops, f, u.l.start[t], Popped(f, pops), k0);
      k := pops + (1 + k0);
    }
  }

  /** Behind the pops there is a return, which leaves the frame as it is. */
  lemma ReturnStep(u: Setup, b: BlockId, i: nat, s: State, f: Frame) returns (pops: nat)
    requires Here(u, b, i, s, f) && i < |u.g.blocks[b].insns| && u.g.blocks[b].insns[i].Return?
    ensures pops <= |f.stack| && OnlyPops(u.l, u.l.pos(b, i), pops) && StoppedAt(u, s, Popped(f, pops), b, i)
    ensures var v := u.g.blocks[b].insns[i].value;
            Execute(u.sem, u.l.code, u.args, u.l.pos(b, i) + pops, Popped(f, pops)) ==
            Ends(Returned(if v.Some? then Some(Get(s, v.value)) else None, Popped(f, pops)))
  {
    hide Arity, Below, Emits, HasResult, InPlace, PlainCode, Reached, ShapedBlock, WellFormed, WellFormedBlock;
    Facts(u, b, i, s, f);
    var insn, shape := u.g.blocks[b].insns[i], u.shapes[b][i];
    pops := if insn.value.Some? then 0 else u.kills[b];
    assert Drop(shape.temps, 0) == shape.temps && Replace(f.stack, 0, []) == f.stack;
    if insn.value.Some? {
      assert shape.temps[|shape.temps| - 1..][0] == insn.value.value;
    } else {
      DropMatches(shape, s, f, pops);
    }
  }

  lemma ReturnTracks(u: Setup, b: BlockId, i: nat, s: State, f: Frame, fuel: nat) returns (k: nat)
    requires Here(u, b, i, s, f) && i < |u.g.blocks[b].insns| && u.g.blocks[b].insns[i].Return?
    ensures Tracks(u, RunFrom(u.g, u.sem, b, i, s, fuel), Code(u, u.l.pos(b, i), f, k),
                   EndSpot(u.g, u.sem, b, i, s, fuel))
  {
    hide Realized, Stocked, Matches, StoppedAt, Execute;
    var pops := ReturnStep(u, b, i, s, f);
    AfterPops(u, u.l.pos(b, i), pops, f, 1);
    CodeStep(u, u.l.pos(b, i) + pops, Popped(f, pops), 0);
    k := pops + 1;
  }

  /** The instruction and its code both fault. */
  ghost predicate Fails(u: Setup, b: BlockId, i: nat, s: State, f: Frame) {
    && b < |u.g.blocks| && i < |u.g.blocks[b].insns|
    && var next, a := Perform(u.sem, u.g.blocks[b].insns[i], s), Execute(u.sem, u.l.code, u.args, u.l.pos(b, i), f);
       next.Stop? && next.exit.Faulted? && a.Ends? && a.exit.Faulted?
         && StoppedAt(u, next.exit.state, a.exit.state, b, i)
  }

  lemma FailTracks(u: Setup, b: BlockId, i: nat, s: State, f: Frame, fuel: nat)
    requires Fails(u, b, i, s, f)
    ensures Paced(RunFrom(u.g, u.sem, b, i, s, fuel), fuel + 1, 1)
    ensures Tracks(u, RunFrom(u.g, u.sem, b, i, s, fuel), Code(u, u.l.pos(b, i), f, 1),
                   EndSpot(u.g, u.sem, b, i, s, fuel))
  {
    CodeStep(u, u.l.pos(b, i), f, 0);
  }

  /** A condition leads to the block it chooses, or faults when it is no boolean. */
  lemma BranchStep(u: Setup, b: BlockId, i: nat, s: State, f: Frame) returns (t: Option<BlockId>)
    requires Here(u, b, i, s, f) && i < |u.g.blocks[b].insns| && u.g.blocks[b].insns[i].Branch?
    ensures 1 <= |f.stack|
    ensures t.Some? ==>
              && Here(u, t.value, 0, s, Popped(f, 1))
              && Perform(u.sem, u.g.blocks[b].insns[i], s) == Enter(t.value, s)
              && OnlyPops(u.l, u.l.pos(b, i), 0)
              && Execute(u.sem, u.l.code, u.args, u.l.pos(b, i), f) == Jumps(u.l.start[t.value], Popped(f, 1))
    ensures t.None? ==> Fails(u, b, i, s, f)
  {
    hide Arity, Below, GetAll, HasResult, InPlace, PlainCode, Reached, ShapedAt, WellFormed;
    Facts(u, b, i, s, f);
    var insn, shape := u.g.blocks[b].insns[i], u.shapes[b][i];
    TopMatches(shape, s, f, [insn.cond]);
    assert f.stack[|f.stack| - 1] == f.stack[|f.stack| - 1..][0] == GetAll(s, [insn.cond])[0];
    assert f.stack[..|f.stack| - 1] == Replace(f.stack, 1, []);
    var c := Get(s, insn.cond);
    if c.BoolValue? {
      t := Some(if c.b then insn.taken else insn.notTaken);
      assert t.value in Succs(u.g.blocks[b]);
      SuccessorEntry(u, b, t.value);
      assert Drop(u.shapes[b][i + 1].temps, 0) == u.shapes[b][i + 1].temps;
    } else {
      t := None;
      assert StoppedAt(u, s, Popped(f, 1), b, i);
    }
  }

  /** An instruction inside a block and its code lead to matching states, or both fault. */
  ghost predicate Agree(u: Setup, b: BlockId, i: nat, s: State, f: Frame)
    requires b < |u.g.blocks| && i < |u.g.blocks[b].insns|
  {
    var insn, pc := u.g.blocks[b].insns[i], u.l.pos(b, i);
    match Perform(u.sem, insn, s)
    case Continue(s') =>
      if insn.Alloc? then u.l.pos(b, i + 1) == pc && Here(u, b, i + 1, s', f)
      else
        var a := Execute(u.sem, u.l.code, u.args, pc, f);
        a.Jumps? && a.pc == u.l.pos(b, i + 1) && Here(u, b, i + 1, s', a.frame)
    case _ => !insn.Alloc? && Fails(u, b, i, s, f)
  }

  lemma InsnAgrees(u: Setup, b: BlockId, i: nat, s: State, f: Frame)
    requires Here(u, b, i, s, f) && i < |u.g.blocks[b].insns| && !IsTerminator(u.g.blocks[b].insns[i])
    ensures Agree(u, b, i, s, f)
  {
    Facts(u, b, i, s, f);
    var insn, shape, pc := u.g.blocks[b].insns[i], u.shapes[b][i], u.l.pos(b, i);
    var n, kills, after := |u.args|, u.kills[b], u.shapes[b][i + 1];
    match insn
    case Alloc(_, _) => AllocMatches(u.sem, insn, shape, n, kills, after, s, f);
    case Load(_, _) =>
      LoadMatches(u.sem, u.l.code, u.args, pc, insn, shape, n, kills, after, s, f, u.l.frames(b, i));
    case Store(_, _) =>
      StoreMatches(u.sem, u.l.code, u.args, pc, insn, shape, n, kills, after, s, f, u.l.frames(b, i));
    case Use(_, _, _) => UseMatches(u.sem, u.l.code, u.args, pc, insn, shape, n, kills, after, s, f);
  }

  lemma CodeStep(u: Setup, pc: nat, f: Frame, k: nat)
    ensures match Execute(u.sem, u.l.code, u.args, pc, f)
            case Jumps(pc', f') => Code(u, pc, f, 1 + k) == Code(u, pc', f', k)
            case Ends(exit) => Code(u, pc, f, 1 + k) == Ended(exit)
  {
  }

  /** The code has taken a step for every block the graph has entered. */
  ghost predicate Paced<S, P>(w: Run<S, P>, fuel: nat, k: nat) { w.Going? ==> k >= fuel }

  lemma EntersTracks(u: Setup, b: BlockId, i: nat, s: State, f: Frame, fuel: nat, t: BlockId, k: nat)
    requires Here(u, b, i, s, f) && i < |u.g.blocks[b].insns| && t in u.l.start && 1 <= |f.stack|
    requires Perform(u.sem, u.g.blocks[b].insns[i], s) == Enter(t, s)
    requires Execute(u.sem, u.l.code, u.args, u.l.pos(b, i), f) == Jumps(u.l.start[t], Popped(f, 1))
    requires Tracks(u, RunBlock(u.g, u.sem, t, s, fuel), Code(u, u.l.start[t], Popped(f, 1), k),
                    EndSpotIn(u.g, u.sem, t, s, fuel))
    requires Paced(RunBlock(u.g, u.sem, t, s, fuel), fuel, k)
    ensures Tracks(u, RunFrom(u.g, u.sem, b, i, s, fuel), Code(u, u.l.pos(b, i), f, 1 + k),
                   EndSpot(u.g, u.sem, b, i, s, fuel))
    ensures Paced(RunFrom(u.g, u.sem, b, i, s, fuel), fuel + 1, 1 + k)
  {
    CodeStep(u, u.l.pos(b, i), f, k);
  }

  /** Some instruction of `b` from `i` on has code. */
  ghost predicate EmitsFrom(g: Graph, b: BlockId, i: nat)
    requires b < |g.blocks|
  {
    exists j: nat :: i <= j && Emits(g, b, j)
  }

  /** A run of the stack code from the start of a block tracks the run of the graph that enters the block. */
  lemma {:induction false} BlockTracks(u: Setup, b: BlockId, s: State, f: Frame, fuel: nat) returns (k: nat)
    requires Here(u, b, 0, s, f)
    ensures Tracks(u, RunBlock(u.g, u.sem, b, s, fuel), Code(u, u.l.start[b], f, k),
                   EndSpotIn(u.g, u.sem, b, s, fuel))
    ensures Paced(RunBlock(u.g, u.sem, b, s, fuel), fuel, k)
    decreases fuel, 0, 0
  {
    hide Emits, EndSpot, Execute, ExitsAlike, Matches, Reached, Realized, Resolve, RunFrom, ShapedBlock, StockedAt,
      WellFormed;
    if fuel == 0 {
      k := 0;
    } else {
      var j :| Emits(u.g, b, j);
      k := RunTracks(u, b, 0, s, f, fuel - 1);
    }
  }

  lemma {:induction false} RunTracks(u: Setup, b: BlockId, i: nat, s: State, f: Frame, fuel: nat) returns (k: nat)
    requires Here(u, b, i, s, f)
    ensures Tracks(u, RunFrom(u.g, u.sem, b, i, s, fuel), Code(u, u.l.pos(b, i), f, k),
                   EndSpot(u.g, u.sem, b, i, s, fuel))
    ensures Paced(RunFrom(u.g, u.sem, b, i, s, fuel), fuel + if EmitsFrom(u.g, b, i) then 1 else 0, k)
    decreases fuel, |u.g.blocks[b].insns| - i, 1
  {
    hide EndSpot, EndSpotIn, GetAll, HasResult, Layout.Code, Matches, Popped, Reached, Realized, RunBlock,
      ShapedBlock, StockedAt, Tracks, WellFormed;
    if Leaves(u, b, i) {
      var t := LeaveReady(u, b, i, s, f);
      var k0 := BlockTracks(u, t, s, Popped(f, u.kills[b]), fuel);
      k := LeaveTracks(u, b, i, s, f, fuel, t, k0);
      LeaveRuns(u, b, i, s, f, fuel, t);
    } else if u.g.blocks[b].insns[i].Branch? {
      k := BranchTracks(u, b, i, s, f, fuel);
    } else if u.g.blocks[b].insns[i].Return? {
      k := ReturnTracks(u, b, i, s, f, fuel);
    } else {
      k := InsnTracks(u, b, i, s, f, fuel);
    }
  }

  lemma {:induction false} BranchTracks(u: Setup, b: BlockId, i: nat, s: State, f: Frame, fuel: nat) returns (k: nat)
    requires Here(u, b, i, s, f) && i < |u.g.blocks[b].insns| && u.g.blocks[b].insns[i].Branch?
    ensures Tracks(u, RunFrom(u.g, u.sem, b, i, s, fuel), Code(u, u.l.pos(b, i), f, k),
                   EndSpot(u.g, u.sem, b, i, s, fuel))
    ensures Paced(RunFrom(u.g, u.sem, b, i, s, fuel), fuel + 1, k)
    decreases fuel, |u.g.blocks[b].insns| - i, 0
  {
    var t := BranchStep(u, b, i, s, f);
    if t.Some? {
      k := BlockTracks(u, t.value, s, Popped(f, 1), fuel);
      EntersTracks(u, b, i, s, f, fuel, t.value, k);
      k := 1 + k;
    } else {
      FailTracks(u, b, i, s, f, fuel);
      k := 1;
    }
  }

  lemma {:induction false} InsnTracks(u: Setup, b: BlockId, i: nat, s: State, f: Frame, fuel: nat) returns (k: nat)
    requires Here(u, b, i, s, f) && i < |u.g.blocks[b].insns| && !IsTerminator(u.g.blocks[b].insns[i])
    ensures Tracks(u, RunFrom(u.g, u.sem, b, i, s, fuel), Code(u, u.l.pos(b, i), f, k),
                   EndSpot(u.g, u.sem, b, i, s, fuel))
    ensures Paced(RunFrom(u.g, u.sem, b, i, s, fuel), fuel + if EmitsFrom(u.g, b, i) then 1 else 0, k)
    decreases fuel, |u.g.blocks[b].insns| - i, 0
  {
    InsnAgrees(u, b, i, s, f);
    var a := Execute(u.sem, u.l.code, u.args, u.l.pos(b, i), f);
    var next := Perform(u.sem, u.g.blocks[b].insns[i], s);
    if next.Continue? {
      var alloc := u.g.blocks[b].insns[i].Alloc?;
      k := RunTracks(u, b, i + 1, next.state, if alloc then f else a.frame, fuel);
      if alloc {
        EmitsLater(u.g, b, i);
      } else {
        CodeStep(u, u.l.pos(b, i), f, k);
        k := 1 + k;
      }
    } else {
      FailTracks(u, b, i, s, f, fuel);
      k := 1;
    }
  }

  lemma EmitsLater(g: Graph, b: BlockId, i: nat)
    requires b < |g.blocks| && i < |g.blocks[b].insns| && IsPseudo(g.blocks[b].insns[i])
    ensures EmitsFrom(g, b, i) ==> EmitsFrom(g, b, i + 1)
  {
    if EmitsFrom(g, b, i) {
      var j: nat :| i <= j && Emits(g, b, j);
      assert i + 1 <= j;
    }
  }
}
