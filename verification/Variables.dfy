/**
 Where the variables of a function are at run time: each has one slot of the frame, which all loads and stores of it
 name, and which holds its value when the function ends.
 */
module Variables {
  import opened Options
  import opened Ir
  import opened Layout
  import opened Listings
  import opened Machine
  import opened StackShape
  import opened Execution
  import opened PopPoints
  import opened Simplifiers
  import opened SimplifyPaths
  import opened Typing
  import NoPops
  import opened LayoutTheorems
  import opened Pipeline
  import opened FunctionCode
  import opened Syntax
  import opened CodeGen
  import opened GeneratedFunction
  import opened GeneratedFlow
  import opened BodyMeaning
  import opened Slots
  import opened SlotRuns
  import opened Compiler

  // ----- variables are no temporaries -----

  /** The allocation of a variable is not produced by anything else. */
  lemma HomeIsNoTemporary(g: Graph, owner: Owner, t: Temp)
    requires Owned(g, owner) && SomewhereHoused(g, t)
    ensures !Temporary(g, t)
  {
    var b: BlockId :| b < |g.blocks| && Housed(g.blocks[b].insns, t);
    var j: nat :| j < |g.blocks[b].insns| && g.blocks[b].insns[j].Alloc? && g.blocks[b].insns[j].id == t;
    assert Defines(g.blocks[b].insns[j]) == Some(t);
    forall c: BlockId, i: nat | c < |g.blocks| && i < |g.blocks[c].insns| ensures !Produces(g.blocks[c].insns[i], t) {
    }
  }

  /** What the graph of a function keeps of its variables when its empty blocks are gone. */
  lemma SimplifiedHomes(params: seq<Symbol>, body: seq<Stmt>, f: Flow, r: Flow, tr: seq<Flow>)
    requires FlowOf(GenFunction(params, body).0, f) && Simplified(f, r, tr)
    ensures AllSourced(r.g)
    ensures var st := GenFunction(params, body).0; forall x | x in st.allocs :: SomewhereHoused(r.g, st.allocs[x])
  {
    hide GenFunction, Exact, Sourced, Housed, Trace;
    var st, es := GenFunction(params, body).0, EmptyOnes(f.g, f.order);
    FunctionSound(params, body);
    TraceIsLong(es, tr);
    TraceSourced(es, tr, |es|);
    forall x | x in st.allocs ensures SomewhereHoused(r.g, st.allocs[x]) {
      assert HasHome(st, st.allocs[x]);
      assert SomewhereHoused(f.g, st.allocs[x]);
    }
  }

  // ----- the end of a call -----

  function FinalFrame(run: Run<Frame, nat>): Frame {
    match run
    case Ended(Returned(_, f)) => f
    case Ended(Faulted(f)) => f
    case Ended(Lost) => Frame([], [])
    case Going(_, f) => f
  }

  /** A run of the graph that ends, and the run of the code that follows it. */
  lemma FollowedToTheEnd(
      fn: Function, sem: Semantics, args: seq<Value>, h: History, fuel: nat, exit: Exit<State>, k: nat)
    requires fn.Compilable() && |args| == fn.params && WellFormed(fn.g) && fn.kills.Keys == BlockIds(fn.g)
    requires GraphRun(fn, sem, args, h, fuel) == Ended(exit) && CodeRun(fn, sem, args, h, k).Ended?
    ensures var at := EndSpotIn(fn.g, sem, fn.root, Called(args, h), fuel);
            && !exit.Lost?
            && StoppedAt(Setup(fn.g, fn.shapes, fn.kills, ListingOf(fn.g, fn.Laid()), sem, args),
                         exit.state, FinalFrame(CodeRun(fn, sem, args, h, k)), at.0, at.1)
  {
    hide Function.Compilable, StoppedAt, EndSpotIn, RunBlock, RunCode, PlaceFunction, Layout.Code;
    var n := CodeFollowsGraph(fn, sem, args, h, fuel);
    EndsOnce(sem, fn.Code(), args, Frame([], h), k, n);
  }

  lemma NoBareReturn(u: Unit, b: BlockId, i: nat)
    requires u.Valid() && InBody(u.f, b) && i < |u.f.g.blocks[b].insns|
    ensures u.f.g.blocks[b].insns[i] != Return(None)
  {
    BodyHasShapes(u, b);
    hide Unit.Valid, ShapeTo;
  }

  /** A temporary that has not been consumed, when a call has ended. */
  lemma LeftInSlot(u: Unit, sem: Semantics, args: seq<Value>, h: History, fuel: nat, exit: Exit<State>, k: nat, t: Temp)
    requires u.Valid() && AllSourced(u.f.g) && |args| == u.n.params && !Temporary(u.f.g, t)
    requires WellFormed(u.f.g) && u.kills.Keys == BlockIds(u.f.g)
    requires GraphRun(FunctionOf(u), sem, args, h, fuel) == Ended(exit)
             && CodeRun(FunctionOf(u), sem, args, h, k).Ended?
    ensures !exit.Lost?
    ensures t in exit.state.temps ==>
              InSlot(FunctionOf(u).Laid(), t, FinalFrame(CodeRun(FunctionOf(u), sem, args, h, k)), exit.state.temps[t])
  {
    hide Unit.Valid, Function.Compilable, AllSourced, Temporary, RunBlock, RunCode, PlaceFunction, EndSpotIn, InSlot,
      Layout.Code,
         StoppedAt;
    var fn := FunctionOf(u);
    var at := EndSpotIn(fn.g, sem, fn.root, Called(args, h), fuel);
    UnitIsCompilable(u);
    FollowedToTheEnd(fn, sem, args, h, fuel, exit, k);
    CallKeeps(u, sem, args, h, fuel);
    if t in exit.state.temps {
      NoBareReturn(u, at.0, at.1);
      BodyHasShapes(u, at.0);
      ShapesAt(u.f.g, u.n, u.kills, at.0, at.1);
      var temps := Drop(fn.shapes[at.0][at.1].temps, Consumed(fn.g.blocks[at.0].insns[at.1]));
      assert t in temps;
      StoppedInSlots(fn, fn.Laid(), sem, args, exit.state, FinalFrame(CodeRun(fn, sem, args, h, k)), at, temps, t);
    }
  }

  /** The variables that the evaluator is left with, however it ends. */
  function FinalEnv(sem: Semantics, params: seq<Symbol>, body: seq<Stmt>, args: seq<Value>, h: History): Env
    requires |args| == |params|
  {
    ExecAll(sem, body, EnvOf(params, args), h).env
  }

  lemma VariableLeft(exit: Exit<State>, done: Done, allocs: map<Symbol, Temp>, x: Symbol)
    requires EndsAs(exit, done, allocs) && x in done.env
    ensures !exit.Lost? && x in allocs && allocs[x] in exit.state.temps && exit.state.temps[allocs[x]] == done.env[x]
  {
  }

  lemma VariableIsHoused(params: seq<Symbol>, body: seq<Stmt>, f: Flow, r: Flow, tr: seq<Flow>, m: Notes, x: Symbol)
    requires FlowOf(GenFunction(params, body).0, f) && Simplified(f, r, tr) && NoPops.Compact(r, m, START)
    requires x in GenFunction(params, body).0.allocs
    ensures AllSourced(r.g) && !Temporary(r.g, GenFunction(params, body).0.allocs[x])
  {
    hide GenFunction, Exact, AllSourced, Temporary, Simplified, FlowOf;
    SimplifiedHomes(params, body, f, r, tr);
    HomeIsNoTemporary(r.g, m.owner, GenFunction(params, body).0.allocs[x]);
  }

  /** The layout of a simplified function. */
  function LayoutFor(r: Flow, killed: map<BlockId, nat>, params: nat): View
    requires WellFormed(r.g)
  {
    PlaceFunction(r.g, KillsOf(r.g, killed), params)
  }

  /**
   When a call of the code ends, every variable of the function holds, in its slot, the value that evaluating the body
   leaves it with.
   */
  lemma VariablesAreInSlots(
      params: seq<Symbol>, body: seq<Stmt>, f: Flow, r: Flow, tr: seq<Flow>, gens: LocalSets, s: Sets,
      killed: map<BlockId, nat>, sem: Semantics, args: seq<Value>, h: History, k: nat, x: Symbol)
    requires Accepted(params, body) && FlowOf(GenFunction(params, body).0, f) && Simplified(f, r, tr)
    requires Analyzed(r, gens, s, killed) && |args| == |params| && WellFormed(r.g)
    requires CallCode(CodeFor(r, killed, |params|), sem, args, h, k).Ended? && x in FinalEnv(sem, params, body, args, h)
    ensures var allocs := GenFunction(params, body).0.allocs;
            && x in allocs
            && InSlot(LayoutFor(r, killed, |params|), allocs[x],
                      FinalFrame(CallCode(CodeFor(r, killed, |params|), sem, args, h, k)),
                        FinalEnv(sem, params, body, args, h)[x])
  {
    hide GenFunction, Accepted, Trace, ExecAll, Exact, EndsAs, NoPops.Compact, Analyzed, Unit.Valid, AllSourced,
      Temporary,
         InSlot, RunCode, RunBlock, Layout.Code, PlaceFunction, WellFormed;
    var m := SimplifiedIsCompact(params, body, f, r, tr);
    var u := Unit(r, m, START, KillsOf(r.g, killed));
    UnitIsValid(r, m, gens, s, killed);
    CodeOfUnit(u, killed, |params|);
    var fuel, exit := SimplifiedComputes(params, body, f, r, tr, sem, args, h);
    VariableLeft(exit, ExecAll(sem, body, EnvOf(params, args), h), GenFunction(params, body).0.allocs, x);
    VariableIsHoused(params, body, f, r, tr, m, x);
    LeftInSlot(u, sem, args, h, fuel, exit, k, GenFunction(params, body).0.allocs[x]);
  }

  // ----- loads and stores -----

  /** A temporary that is in place in both has the same frame offset in both. */
  lemma SameSlot(temps: seq<Temp>, frames: map<Temp, int>, v: View, t: Temp)
    requires InPlace(temps, frames) && InPlace(temps, v.frames) && t in temps
    ensures t in v.frames && FrameOf(frames, t) == SlotOf(v, t)
  {
    var j: nat :| j < |temps| && temps[j] == t;
  }

  lemma OnStackBehind(insn: Insn, shape: Shape, params: nat, next: Shape)
    requires ShapeAfter(insn, shape, params, 0) == Some(next)
    ensures insn.Load? ==> insn.source in next.temps
    ensures insn.Store? ==> insn.destination in next.temps
  {
  }

  lemma ListedInPlace(fn: Function, v: View, l: Listing, b: BlockId, i: nat)
    requires fn.Compilable() && v == fn.Laid() && l == ListingOf(fn.g, v) && b in v.placed && b in l.start
    requires b < |fn.g.blocks| && i < |fn.g.blocks[b].insns| && b in fn.shapes
             && |fn.shapes[b]| == |fn.g.blocks[b].insns| + 1
    ensures Realized(fn.g, l, b, i) && InPlace(fn.shapes[b][i + 1].temps, l.frames(b, i))
  {
    hide PlaceFunction, AllPayLate, Regular, Realized, Function.Compilable, ListingOf, ShapedBlock, InPlace,
      FaithfulFunction;
    var sem: Semantics, args: seq<Value> := (k, vs, h) => Reply(NullValue, h), seq(fn.params, _ => NullValue);
    var u := Setup(fn.g, fn.shapes, fn.kills, l, sem, args);
    FunctionIsStocked(fn, sem, args);
    assert StockedAt(u.g, u.shapes, u.kills, u.l, b, i);
  }

  lemma PlacedInPlace(fn: Function, v: View, b: BlockId, i: nat)
    requires fn.Compilable() && v == fn.Laid() && b in v.placed && b < |fn.g.blocks| && i <= |fn.g.blocks[b].insns|
    ensures b in ListingOf(fn.g, v).start
    ensures b in fn.shapes && |fn.shapes[b]| == |fn.g.blocks[b].insns| + 1 && InPlace(fn.shapes[b][i].temps, v.frames)
  {
    hide PlaceFunction, AllPayLate, Regular, InPlace, Owned;
    FunctionIsFramed(fn);
    assert Framed(fn.shapes, v, b) && ShapedBlock(fn.g, fn.shapes, fn.params, fn.kills, b);
  }

  /** The loads and stores that are emitted name the slots of what they load and store. */
  lemma LoadsNameSlots(u: Unit, v: View, l: Listing, b: BlockId, i: nat)
    requires u.Valid() && v == FunctionOf(u).Laid() && l == ListingOf(u.f.g, v)
    requires b in v.placed && b < |u.f.g.blocks| && i < |u.f.g.blocks[b].insns|
    ensures var insn, pc := u.f.g.blocks[b].insns[i], l.pos(b, i);
            && (insn.Load? ==>
               pc < |l.code| && l.code[pc] == LoadFrame(SlotOf(v, insn.source)) && insn.source in v.frames)
            && (insn.Store? ==>
               pc < |l.code| && l.code[pc] == StoreFrame(SlotOf(v, insn.destination)) && insn.destination in v.frames)
  {
    hide PlaceFunction, AllPayLate, Regular, Unit.Valid, Function.Compilable, ListingOf, InPlace, Gen.Graph,
      HasShapes, InBody, OnlyPops, ShapeAfter, ShapeTo, ShapesOf, TypedBlock, WellFormed;
    var fn, insn := FunctionOf(u), u.f.g.blocks[b].insns[i];
    UnitIsCompilable(u);
    PlacedInBody(u, b);
    PlacedInPlace(fn, v, b, i + 1);
    ListedInPlace(fn, v, l, b, i);
    ShapesThere(u, b, i);
    BodyHasShapes(u, b);
    ShapesAt(u.f.g, u.n, u.kills, b, i + 1);
    OnStackBehind(insn, ShapeTo(u.f.g.blocks[b].insns, u.n.heads[b], u.n.params, i).value, u.n.params,
      fn.shapes[b][i + 1]);
    if insn.Load? { SameSlot(fn.shapes[b][i + 1].temps, l.frames(b, i), v, insn.source); }
    if insn.Store? { SameSlot(fn.shapes[b][i + 1].temps, l.frames(b, i), v, insn.destination); }
  }

  /** In the code of a compiled body too, every load and every store names the slot of what it loads or stores. */
  lemma CompiledLoadsNameSlots(
      params: seq<Symbol>, body: seq<Stmt>, f: Flow, r: Flow, tr: seq<Flow>, gens: LocalSets, s: Sets,
      killed: map<BlockId, nat>, b: BlockId, i: nat)
    requires Accepted(params, body) && FlowOf(GenFunction(params, body).0, f) && Simplified(f, r, tr)
    requires Analyzed(r, gens, s, killed) && WellFormed(r.g)
    requires b in LayoutFor(r, killed, |params|).placed && b < |r.g.blocks| && i < |r.g.blocks[b].insns|
    ensures Tidy(r.g, LayoutFor(r, killed, |params|))
    ensures var v := LayoutFor(r, killed, |params|);
            var insn, pc, code := r.g.blocks[b].insns[i], ListingOf(r.g, v).pos(b, i), CodeFor(r, killed, |params|);
            && ListingOf(r.g, v).code == code
            && (insn.Load? ==>
                  pc < |code| && insn.source in v.frames && code[pc] == LoadFrame(SlotOf(v, insn.source)))
            && (insn.Store? ==>
                  pc < |code| && insn.destination in v.frames && code[pc] == StoreFrame(SlotOf(v, insn.destination)))
  {
    hide GenFunction, Accepted, Simplified, FlowOf, NoPops.Compact, Analyzed, Unit.Valid, Layout.Code, PlaceFunction,
         WellFormed, SlotOf, Tidy;
    var m := SimplifiedIsCompact(params, body, f, r, tr);
    var u := Unit(r, m, START, KillsOf(r.g, killed));
    UnitIsValid(r, m, gens, s, killed);
    CodeOfUnit(u, killed, |params|);
    var v := LayoutFor(r, killed, |params|);
    LaidOutTidily(r.g, u.kills, |params|);
    LoadsNameSlots(u, v, ListingOf(r.g, v), b, i);
  }

  lemma LaidOutTidily(g: Graph, kills: map<BlockId, nat>, params: nat)
    requires WellFormed(g) && kills.Keys == BlockIds(g)
    ensures Tidy(g, PlaceFunction(g, kills, params))
  {
  }
}
