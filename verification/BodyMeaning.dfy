/** A call of the function that is generated for a body: arguments are bound, and the body is run to its end. */
module BodyMeaning {
  import opened Options
  import opened Ir
  import opened Machine
  import opened Syntax
  import opened CodeGen
  import opened Generation
  import opened GeneratedFunction
  import opened LineMeaning
  import opened GenMeaning

  // ----- arguments -----

  function EnvOf(params: seq<Symbol>, args: seq<Value>): Env
    requires |args| == |params|
  {
    if params == [] then map[]
    else EnvOf(params[..|params| - 1], args[..|args| - 1])[params[|params| - 1] := args[|args| - 1]]
  }

  lemma {:induction false} EnvHas(params: seq<Symbol>, args: seq<Value>)
    requires |args| == |params| && Different(params)
    ensures forall x {:trigger x in EnvOf(params, args)} :: x in EnvOf(params, args) <==> x in params
    ensures forall i: nat | i < |params| :: EnvOf(params, args)[params[i]] == args[i]
  {
    if params != [] {
      var before := params[..|params| - 1];
      EnvHas(before, args[..|args| - 1]);
      assert params == before + [params[|params| - 1]];
      forall i: nat | i < |before| ensures EnvOf(params, args)[params[i]] == args[i] {
        assert before[i] == params[i] && params[i] != params[|params| - 1];
      }
    }
  }

  /** The state when the first `k` parameters have been bound. */
  function BoundTo(args: seq<Value>, k: nat, h: History): State
    requires k <= |args|
  {
    State(map i: Temp | 0 <= i < k :: args[i], args[k..], h)
  }

  lemma {:induction false} ParamsPerform(sem: Semantics, args: seq<Value>, k: nat, h: History)
    requires k <= |args|
    ensures PerformAll(sem, ParamCode(k), BoundTo(args, 0, h)) == Continue(BoundTo(args, k, h))
  {
    hide GetAll, HasResult;
    if k > 0 {
      ParamsPerform(sem, args, k - 1, h);
      assert ParamCode(k) == ParamCode(k - 1) + [Alloc(k - 1, None)];
      PerformLast(sem, ParamCode(k - 1), Alloc(k - 1, None), BoundTo(args, 0, h));
      assert args[k - 1..][1..] == args[k..];
      assert BoundTo(args, k - 1, h).temps[k - 1 := args[k - 1]] == BoundTo(args, k, h).temps;
    } else {
      assert ParamCode(0) == [];
    }
  }

  lemma ParamsHold(st: Gen, params: seq<Symbol>, args: seq<Value>, h: History)
    requires ParamsIn(st, |params|, params) && |args| == |params| && Different(params)
    ensures Holds(EnvOf(params, args), st.allocs, BoundTo(args, |args|, h))
    ensures st.allocs.Keys == EnvOf(params, args).Keys == set x | x in params
  {
    var env := EnvOf(params, args);
    EnvHas(params, args);
    forall x | x in env
      ensures x in st.allocs && st.allocs[x] in BoundTo(args, |args|, h).temps
              && BoundTo(args, |args|, h).temps[st.allocs[x]] == env[x]
    {
      var i: nat :| i < |params| && params[i] == x;
    }
  }

  /** A call binds the parameters, and is then where the body starts. */
  lemma ParamsRun(st: Gen, params: seq<Symbol>, g: Graph, sem: Semantics, args: seq<Value>, h: History)
    requires ParamsIn(st, |params|, params) && |args| == |params| && Built(st, g)
    ensures Leads(g, sem, Spot(START, 0, BoundTo(args, 0, h)), Here(st, START, BoundTo(args, |args|, h)), 0)
  {
    var n := |params|;
    ParamsPerform(sem, args, n, h);
    assert [] + ParamCode(n) == ParamCode(n) && BuiltAt(st, g, START);
    CodeAtEnd(st, g, START, [], ParamCode(n));
    CodeLeads(g, sem, START, 0, ParamCode(n), BoundTo(args, 0, h));
  }

  // ----- the body -----

  lemma {:induction false} EndsInResult(sem: Semantics, s: Stmt, env: Env, h: History)
    requires Syntax.Ends(s)
    ensures !Exec(sem, s, env, h).Next?
    decreases s
  {
    if s.If? {
      var r := Eval(sem, s.condition, env, h);
      if r.Reply? {
        EndAllInResult(sem, s.yes, env, r.history);
        EndAllInResult(sem, s.no.stmts, env, r.history);
      }
    }
  }

  /** Where control does not get past the statements, they return or fault. */
  lemma {:induction false} EndAllInResult(sem: Semantics, ss: seq<Stmt>, env: Env, h: History)
    requires EndsAll(ss)
    ensures !ExecAll(sem, ss, env, h).Next?
    decreases ss
  {
    var d := ExecAll(sem, ss[..|ss| - 1], env, h);
    if d.Next? { EndsInResult(sem, ss[|ss| - 1], d.env, d.history); }
  }

  /** How a run ends that does what the evaluator says. */
  ghost predicate EndsAs(exit: Exit<State>, done: Done, allocs: map<Symbol, Temp>) {
    match done
    case Next(_, _) => false
    case Result(v, env, h) =>
      exit.Returned? && exit.value == Some(v) && exit.state.history == h && Holds(env, allocs, exit.state)
    case Fails(env, h) => exit.Faulted? && exit.state.history == h && Holds(env, allocs, exit.state)
  }

  lemma ItselfBuilt(st: Gen)
    ensures Built(st, st.Graph())
  {
    forall b: BlockId | b < |st.blocks| ensures BuiltAt(st, st.Graph(), b) {
    }
  }

  lemma CompiledStart(params: seq<Symbol>, body: seq<Stmt>)
    requires Accepted(params, body)
    ensures var st, r := AddParams(NewFunction(|params|), params), GenFunction(params, body).0;
            && ParamsIn(st, |params|, params) && Generation.Ready(st, START, set x | x in params) && Extends(st, r)
            && START < |st.blocks| && r == GenStmts(st, body, START).0
  {
    var st := AddParams(NewFunction(|params|), params);
    AddParamsIs(|params|, params);
    hide Generation.Ready, GenStmts, AddParams, NewFunction, Compiled, AddedSince;
    StartReady(st, params);
    FunctionCompiled(params, body);
    CompiledExtends(st, START, GenStmts(st, body, START).0, GenStmts(st, body, START).1,
                    ScopeAfterAll(body, set x | x in params), true, false);
  }

  lemma RunEnds(g: Graph, sem: Semantics, from: Spot, done: Done, st: Gen, cur: BlockId, n: nat, s: State)
    returns (exit: Exit<State>)
    requires Runs(g, sem, from, done, st, cur, n, s) && !done.Next?
    ensures RunSpot(g, sem, from, n) == Ended(exit) && EndsAs(exit, done, st.allocs)
  {
    exit := if done.Result? then Returned(Some(done.value), s) else Faulted(s);
  }

  /** A call of the function ends as the evaluation of its body does, with the values of its variables. */
  lemma BodyRuns(params: seq<Symbol>, body: seq<Stmt>, sem: Semantics, args: seq<Value>, h: History)
    returns (fuel: nat, exit: Exit<State>)
    requires Accepted(params, body) && |args| == |params|
    ensures RunBlock(GenFunction(params, body).0.Graph(), sem, START, State(map[], args, h), fuel) == Ended(exit)
    ensures EndsAs(exit, ExecAll(sem, body, EnvOf(params, args), h), GenFunction(params, body).0.allocs)
  {
    hide AddParams, NewFunction, GenStmts, EndsAs, Runs, Built, Extends, ParamsIn, Generation.Ready, ExecAll, RunFrom,
      Holds;
    var st, x, env := AddParams(NewFunction(|params|), params), GenFunction(params, body), EnvOf(params, args);
    var r, from := x.0, Spot(START, 0, BoundTo(args, 0, h));
    var s0, done := BoundTo(args, |args|, h), ExecAll(sem, body, env, h);
    CompiledStart(params, body);
    ItselfBuilt(r);
    ExtendsBuilt(st, r, r.Graph());
    ParamsHold(st, params, args, h);
    ParamsRun(st, params, r.Graph(), sem, args, h);
    var n, s := StmtsRuns(r.Graph(), sem, st, body, START, set x | x in params, false, env, s0);
    RunsOn(r.Graph(), sem, from, Here(st, START, s0), 0, done, r, x.1, n, s);
    EndAllInResult(sem, body, env, h);
    exit := RunEnds(r.Graph(), sem, from, done, r, x.1, n, s);
    fuel := n + 1;
    assert BoundTo(args, 0, h) == State(map[], args, h);
  }
}
