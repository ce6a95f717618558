/**
 The compiler from statements to stack code: the graph is generated, rid of its empty blocks, analyzed for pops, and
 laid out. The code that comes out computes what the statements mean.
 */
module Compiler {
  import opened Options
  import opened Ir
  import opened Layout
  import opened Listings
  import opened Machine
  import opened StackShape
  import opened PopPoints
  import opened Simplify
  import opened SimplifyPaths
  import opened SimplifyRuns
  import opened Simplifiers
  import opened Typing
  import opened Drain
  import NoPops
  import opened Pipeline
  import opened FunctionCode
  import opened Syntax
  import opened CodeGen
  import opened Generated
  import opened Generation
  import opened GeneratedFunction
  import opened GeneratedFlow
  import opened GenMeaning
  import opened BodyMeaning
  import Generators
  import Emitters

  // ----- the graph without empty blocks -----

  /** The function `r` is what is left of `f` when its empty blocks are removed one by one, in their order. */
  ghost predicate Simplified(f: Flow, r: Flow, tr: seq<Flow>) {
    var es := EmptyOnes(f.g, f.order);
    Trace(es, tr) && tr[0] == f && r == tr[|es|]
  }

  /** There is one way to remove them. */
  lemma {:induction false} TracesAgree(es: seq<BlockId>, tr: seq<Flow>, tr': seq<Flow>, k: nat)
    requires Trace(es, tr) && Trace(es, tr') && tr[0] == tr'[0] && k <= |es|
    ensures tr[k] == tr'[k]
  {
    hide Linked, Removable, RemoveOne;
    if k > 0 {
      TracesAgree(es, tr, tr', k - 1);
      assert RemovedAt(es, tr, k - 1) && RemovedAt(es, tr', k - 1);
    }
  }

  ghost predicate EntersAt(g: Graph, entry: BlockId, root: BlockId) {
    entry < |g.blocks| && g.blocks[entry].succ0 == Some(root) && g.blocks[entry].succ1.None?
  }

  lemma {:induction false} EntryKept(es: seq<BlockId>, tr: seq<Flow>, k: nat, root: BlockId)
    requires Trace(es, tr) && k <= |es| && root !in es && EntersAt(tr[0].g, tr[0].g.entry, root)
    ensures tr[k].g.entry == tr[0].g.entry && EntersAt(tr[k].g, tr[0].g.entry, root)
  {
    hide Linked, RemoveOne, Removable, Removed;
    if k > 0 {
      EntryKept(es, tr, k - 1, root);
      assert RemovedAt(es, tr, k - 1) && es[k - 1] in es;
      EntryStays(tr[k - 1], es[k - 1], tr[k], root);
    }
  }

  lemma EntryStays(f: Flow, e: BlockId, r: Flow, root: BlockId)
    requires Removed(f, e, r) && root != e && EntersAt(f.g, f.g.entry, root)
    ensures r.g.entry == f.g.entry && EntersAt(r.g, f.g.entry, root)
  {
    RenamedSuccessors(f, e, f.g.entry);
  }

  lemma StartIsKept(params: seq<Symbol>, body: seq<Stmt>)
    requires Accepted(params, body)
    ensures var st := GenFunction(params, body).0; START < |st.blocks| && st.blocks[START].insns != []
  {
    FunctionCompiled(params, body);
  }

  /** The simplified function is typed, and starts with the first block of the body. */
  lemma SimplifiedIsCompact(params: seq<Symbol>, body: seq<Stmt>, f: Flow, r: Flow, tr: seq<Flow>) returns (m: Notes)
    requires Accepted(params, body) && FlowOf(GenFunction(params, body).0, f) && Simplified(f, r, tr)
    ensures NoPops.Compact(r, m, START) && m.params == |params|
    ensures START in r.order
  {
    hide Finished, Typed, Draining, GenFunction, Trace, Accepted, LeftOf, Removed;
    var x, es := GenFunction(params, body), EmptyOnes(f.g, f.order);
    var tr2: seq<Flow>;
    FunctionFinished(params, body);
    FinishedTyped(x.0, x.1, f);
    FinishedDrains(x.0, x.1, f);
    tr2, m := DrainAll(f, x.0.notes, es);
    TraceIsLong(es, tr2);
    TraceIsLong(es, tr);
    TracesAgree(es, tr, tr2, |es|);
    StartsThere(params, body, f);
    EntryKept(es, tr, |es|, START);
    DrainedIsCompact(f, x.0.notes, es, r, m, |params|);
  }

  lemma TraceIsLong(es: seq<BlockId>, tr: seq<Flow>)
    requires Trace(es, tr)
    ensures |tr| == |es| + 1
  {
  }

  lemma StartsThere(params: seq<Symbol>, body: seq<Stmt>, f: Flow)
    requires Accepted(params, body) && FlowOf(GenFunction(params, body).0, f)
    ensures var n := GenFunction(params, body).0.notes;
            && START in f.order && START !in EmptyOnes(f.g, f.order) && EntersAt(f.g, f.g.entry, START)
            && f.g.entry == ENTRY && f.g.exit == EXIT
            && START < |n.heads| && n.heads[START] == Shape([], n.params) && n.heads[ENTRY].temps == []
               && n.params == |params|
  {
    StartIsKept(params, body);
    FunctionFinished(params, body);
    FunctionCompiled(params, body);
    ParamsCounted(params);
    hide GenFunction, Compiled, AddParams, NewFunction;
    var x := GenFunction(params, body);
    InOrder(x.0, x.1, START);
    assert FrameOk(x.0);
    CompiledExtends(AddParams(NewFunction(|params|), params), START, x.0, x.1, ScopeAfterAll(body, set x | x in params),
      true, false);
  }

  lemma ParamsCounted(params: seq<Symbol>)
    requires Different(params)
    ensures AddParams(NewFunction(|params|), params).notes.params == |params|
  {
    AddParamsIs(|params|, params);
  }

  lemma DrainedIsCompact(f: Flow, n: Notes, es: seq<BlockId>, r: Flow, m: Notes, params: nat)
    requires LeftOf(f, es, r) && Drained(f, n, r, m) && forall b: BlockId | b in r.order :: !IsEmpty(r, b)
    requires START in f.order && START !in es && EntersAt(r.g, r.g.entry, START) && r.g.entry == ENTRY
             && r.g.exit == EXIT
    requires START < |n.heads| && n.heads[START] == Shape([], n.params) && n.heads[ENTRY].temps == []
             && n.params == params
    ensures NoPops.Compact(r, m, START) && m.params == params && START in r.order
  {
  }

  // ----- pops -----

  /** The pops of every block; those that are not part of the function owe none. */
  function KillsOf(g: Graph, killed: map<BlockId, nat>): map<BlockId, nat> {
    map b | b in BlockIds(g) :: if b in killed then killed[b] else 0
  }

  /** The pops that the analysis finds: the least solution of its equations, or any other. */
  ghost predicate Analyzed(r: Flow, gens: LocalSets, s: Sets, killed: map<BlockId, nat>) {
    Counted(r, gens) && Solves(r, gens, s) && KillsAre(r, s, killed)
  }

  lemma CompactLeads(r: Flow, m: Notes, b: BlockId)
    requires NoPops.Compact(r, m, START) && InScope(r, b)
    ensures b < |r.g.blocks| && Succs(r.g.blocks[b]) != {}
  {
    assert TypedBlock(r, m, b);
    if b != r.g.entry { assert r.g.blocks[b].succ0.value in Succs(r.g.blocks[b]); }
  }

  lemma UnitIsValid(r: Flow, m: Notes, gens: LocalSets, s: Sets, killed: map<BlockId, nat>)
    requires NoPops.Compact(r, m, START) && Analyzed(r, gens, s, killed)
    ensures Unit(r, m, START, KillsOf(r.g, killed)).Valid()
  {
    hide NoPops.Compact, Counted, Solves, KillsAre;
    var kills := KillsOf(r.g, killed);
    forall b: BlockId | InScope(r, b) && r.g.exit !in Succs(NoPops.BlockOf(r.g, b))
      ensures b in kills && kills[b] == 0 {
      CompactLeads(r, m, b);
      NoPops.NothingToPop(r, m, START, gens, s, killed, b);
    }
  }

  // ----- the whole compiler -----

  /** How a call ends, by the evaluator. */
  function OutcomeOfBody(sem: Semantics, params: seq<Symbol>, body: seq<Stmt>, args: seq<Value>, h: History): Outcome
    requires |args| == |params|
  {
    match ExecAll(sem, body, EnvOf(params, args), h)
    case Next(_, _) => Stuck
    case Result(v, _, h1) => Outcome.Result(Some(v), h1)
    case Fails(_, h1) => Failure(h1)
  }

  /** The stack code for a simplified function. */
  function CodeFor(r: Flow, killed: map<BlockId, nat>, params: nat): FlatCode
    requires WellFormed(r.g)
  {
    var v := PlaceFunction(r.g, KillsOf(r.g, killed), params);
    Layout.Code(v.items, v.labels)
  }

  /** A run of the code for a call. */
  function CallCode(code: FlatCode, sem: Semantics, args: seq<Value>, h: History, k: nat): Run<Frame, nat> {
    RunCode(sem, code, args, 0, Frame([], h), k)
  }

  lemma OutcomeAlike(
      exit: Exit<State>, params: seq<Symbol>, body: seq<Stmt>, sem: Semantics, args: seq<Value>, h: History,
      allocs: map<Symbol, Temp>)
    requires |args| == |params| && EndsAs(exit, ExecAll(sem, body, EnvOf(params, args), h), allocs)
    ensures OutcomeOfGraph(Ended(exit)) == OutcomeOfBody(sem, params, body, args, h)
    ensures !OutcomeOfGraph(Ended(exit)).Unfinished?
  {
  }

  /** The graph that is left computes what the body means. */
  lemma SimplifiedComputes(
      params: seq<Symbol>, body: seq<Stmt>, f: Flow, r: Flow, tr: seq<Flow>, sem: Semantics, args: seq<Value>,
      h: History)
    returns (fuel: nat, exit: Exit<State>)
    requires Accepted(params, body) && FlowOf(GenFunction(params, body).0, f) && Simplified(f, r, tr)
             && START in r.order
    requires |args| == |params|
    ensures RunBlock(r.g, sem, START, Called(args, h), fuel) == Ended(exit)
    ensures EndsAs(exit, ExecAll(sem, body, EnvOf(params, args), h), GenFunction(params, body).0.allocs)
  {
    hide RunBlock, EndsAs, GenFunction, Accepted, Trace, ExecAll, Exact;
    fuel, exit := BodyRuns(params, body, sem, args, h);
    var es := EmptyOnes(f.g, f.order);
    TraceIsLong(es, tr);
    assert EndsIn(f.g, sem, START, Called(args, h), exit);
    SameEnds(es, tr, |es|, sem, START, Called(args, h), exit);
    fuel :| RunBlock(r.g, sem, START, Called(args, h), fuel) == Ended(exit);
  }

  /** A call of the code ends, and only as the evaluation of the body does. */
  ghost predicate AnswersAs(
      code: FlatCode, params: seq<Symbol>, body: seq<Stmt>, sem: Semantics, args: seq<Value>, h: History)
    requires |args| == |params|
  {
    && (exists k :: CallCode(code, sem, args, h, k).Ended?)
    && forall k | CallCode(code, sem, args, h, k).Ended? ::
         OutcomeOfCode(CallCode(code, sem, args, h, k)) == OutcomeOfBody(sem, params, body, args, h)
  }

  /**
   The stack code of a function computes what its body means: every call ends, with the result, the history of
   instructions and calls, or the fault, that evaluating the body gives, and there is no other way for it to end.
   */
  lemma CompilerIsCorrect(
      params: seq<Symbol>, body: seq<Stmt>, f: Flow, r: Flow, tr: seq<Flow>, gens: LocalSets, s: Sets,
      killed: map<BlockId, nat>, sem: Semantics, args: seq<Value>, h: History)
    requires Accepted(params, body) && FlowOf(GenFunction(params, body).0, f) && Simplified(f, r, tr)
    requires Analyzed(r, gens, s, killed) && |args| == |params|
    ensures WellFormed(r.g)
    ensures AnswersAs(CodeFor(r, killed, |params|), params, body, sem, args, h)
  {
    hide GenFunction, Accepted, Trace, ExecAll, Exact, EndsAs, NoPops.Compact, Analyzed, Unit.Valid,
      Function.Compilable, RunCode,
         RunBlock, Layout.Code, PlaceFunction;
    var m := SimplifiedIsCompact(params, body, f, r, tr);
    var u := Unit(r, m, START, KillsOf(r.g, killed));
    UnitIsValid(r, m, gens, s, killed);
    UnitIsCompilable(u);
    var fuel, exit := SimplifiedComputes(params, body, f, r, tr, sem, args, h);
    OutcomeAlike(exit, params, body, sem, args, h, GenFunction(params, body).0.allocs);
    EndsOneWay(FunctionOf(u), sem, args, h, fuel, exit, OutcomeOfBody(sem, params, body, args, h));
    CodeOfUnit(u, killed, |params|);
  }

  lemma CodeOfUnit(u: Unit, killed: map<BlockId, nat>, params: nat)
    requires u.Valid() && u.kills == KillsOf(u.f.g, killed) && u.n.params == params && u.root == START
    ensures WellFormed(u.f.g) && FunctionOf(u).kills.Keys == BlockIds(u.f.g)
    ensures FunctionOf(u).Code() == CodeFor(u.f, killed, params)
  {
  }

  /** When the graph ends, the code ends in the same way, and in no other. */
  lemma EndsOneWay(
      fn: Function, sem: Semantics, args: seq<Value>, h: History, fuel: nat, exit: Exit<State>, end: Outcome)
    requires fn.Compilable() && |args| == fn.params && GraphRun(fn, sem, args, h, fuel) == Ended(exit)
    requires OutcomeOfGraph(Ended(exit)) == end && !end.Unfinished?
    ensures WellFormed(fn.g) && fn.kills.Keys == BlockIds(fn.g)
    ensures exists k :: CallCode(fn.Code(), sem, args, h, k).Ended?
    ensures forall k | CallCode(fn.Code(), sem, args, h, k).Ended? ::
            OutcomeOfCode(CallCode(fn.Code(), sem, args, h, k)) == end
  {
    CodeComputesGraph(fn, sem, args, h, end);
    var n: nat :| OutcomeOfCode(CodeRun(fn, sem, args, h, n)) == end;
    assert CallCode(fn.Code(), sem, args, h, n).Ended?;
    forall k | CallCode(fn.Code(), sem, args, h, k).Ended?
      ensures OutcomeOfCode(CallCode(fn.Code(), sem, args, h, k)) == end {
      EndsOnce(sem, fn.Code(), args, Frame([], h), k, n);
    }
  }

  /** Whatever the instructions mean, every call of the code ends as the evaluation of the body does. */
  ghost predicate Implements(code: FlatCode, params: seq<Symbol>, body: seq<Stmt>) {
    forall sem: Semantics, args: seq<Value>, h: History {:trigger AnswersAs(code, params, body, sem, args, h)} |
      |args| == |params| :: AnswersAs(code, params, body, sem, args, h)
  }

  /** The trace of the removals, and that they can be made. */
  lemma CanBeSimplified(params: seq<Symbol>, body: seq<Stmt>, f: Flow) returns (tr: seq<Flow>)
    requires Accepted(params, body) && FlowOf(GenFunction(params, body).0, f)
    ensures Linked(f) && Trace(EmptyOnes(f.g, f.order), tr) && tr[0] == f
  {
    hide Finished, Draining, GenFunction, Trace, Accepted, LeftOf, Removed, Drained;
    var x := GenFunction(params, body);
    FunctionFinished(params, body);
    FinishedTyped(x.0, x.1, f);
    FinishedDrains(x.0, x.1, f);
    var m: Notes;
    tr, m := DrainAll(f, x.0.notes, EmptyOnes(f.g, f.order));
  }

  lemma BlocksInRange(params: seq<Symbol>, body: seq<Stmt>)
    requires Accepted(params, body)
    ensures var st := GenFunction(params, body).0; forall i | 0 <= i < |st.Order()| :: st.Order()[i] < |st.blocks|
  {
    hide Finished, GenFunction, Accepted;
    FunctionFinished(params, body);
    FinishedOrder(GenFunction(params, body).0, GenFunction(params, body).1);
  }

  /** The compiler as it runs, one phase after the other. */
  method Compile(params: seq<Symbol>, body: seq<Stmt>) returns (code: FlatCode)
    requires Accepted(params, body)
    ensures Implements(code, params, body)
  {
    hide GenFunction, Accepted, Trace, Counted, Solves, KillsAre, EmptyOnes, LeftOf, Numbered, Least, Succs,
      OutcomeOfBody;
    var g, order, st := Generators.Generate(params, body);
    BlocksInRange(params, body);
    var simplifier := new Simplifier(g, order);
    simplifier.ComputePredecessors();
    ghost var f := simplifier.Current();
    ghost var tr := CanBeSimplified(params, body, f);
    simplifier.RemoveEmptyBlocks(tr);
    var r := simplifier.Current();
    LeftIsLinked(f, r, EmptyOnes(f.g, f.order));
    var analysis := StackPopPoints(r);
    var emitter := Emitters.SerializeFunction(r.g, KillsOf(r.g, analysis.killed), |params|);
    code := emitter.code;
    AllCallsCorrect(params, body, f, r, tr, analysis.gens, Sets(analysis.ins, analysis.outs), analysis.killed);
  }

  lemma LeftIsLinked(f: Flow, r: Flow, es: seq<BlockId>)
    requires LeftOf(f, es, r)
    ensures Linked(r) && WellFormed(r.g)
  {
  }

  lemma AllCallsCorrect(
      params: seq<Symbol>, body: seq<Stmt>, f: Flow, r: Flow, tr: seq<Flow>, gens: LocalSets, s: Sets,
      killed: map<BlockId, nat>)
    requires Accepted(params, body) && FlowOf(GenFunction(params, body).0, f) && Simplified(f, r, tr)
    requires Analyzed(r, gens, s, killed) && WellFormed(r.g)
    ensures Implements(CodeFor(r, killed, |params|), params, body)
  {
    hide GenFunction, Accepted, Simplified, Analyzed, CodeFor, FlowOf, AnswersAs;
    forall sem: Semantics, args: seq<Value>, h: History | |args| == |params|
      ensures AnswersAs(CodeFor(r, killed, |params|), params, body, sem, args, h)
    {
      CompilerIsCorrect(params, body, f, r, tr, gens, s, killed, sem, args, h);
    }
  }
}
