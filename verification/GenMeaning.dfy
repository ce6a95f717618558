/** The graph that is generated for statements does what the statements do. */
module GenMeaning {
  import opened Options
  import opened Ir
  import opened Machine
  import opened Typing
  import opened Syntax
  import opened CodeGen
  import opened GeneratedCode
  import opened Generated
  import opened GeneratedSteps
  import opened Generation
  import opened LineMeaning

  // ----- runs of a graph -----

  /** A place in the graph, before instruction `index` of a block, and a state. */
  datatype Spot = Spot(block: BlockId, index: nat, state: State)

  function RunSpot(g: Graph, sem: Semantics, a: Spot, fuel: nat): Run<State, BlockId> {
    RunFrom(g, sem, a.block, a.index, a.state, fuel)
  }

  /** A run from `a` gets to `b`, entering `n` blocks on the way. */
  ghost predicate Leads(g: Graph, sem: Semantics, a: Spot, b: Spot, n: nat) {
    forall fuel: nat {:trigger RunSpot(g, sem, b, fuel)} :: RunSpot(g, sem, a, fuel + n) == RunSpot(g, sem, b, fuel)
  }

  lemma LeadsOn(g: Graph, sem: Semantics, a: Spot, b: Spot, c: Spot, n: nat, m: nat)
    requires Leads(g, sem, a, b, n) && Leads(g, sem, b, c, m)
    ensures Leads(g, sem, a, c, n + m)
  {
    forall fuel: nat ensures RunSpot(g, sem, a, fuel + (n + m)) == RunSpot(g, sem, c, fuel) {
      assert RunSpot(g, sem, b, fuel + m) == RunSpot(g, sem, c, fuel);
      assert RunSpot(g, sem, a, (fuel + m) + n) == RunSpot(g, sem, b, fuel + m);
    }
  }

  lemma LeadsToEnd(g: Graph, sem: Semantics, a: Spot, b: Spot, n: nat, m: nat)
    requires Leads(g, sem, a, b, n)
    ensures RunSpot(g, sem, a, m + n) == RunSpot(g, sem, b, m)
  {
  }

  /** The code is found in the block from `i` on. */
  ghost predicate CodeIn(g: Graph, b: BlockId, i: nat, code: seq<Insn>) {
    b < |g.blocks| && i + |code| <= |g.blocks[b].insns| && g.blocks[b].insns[i..i + |code|] == code
  }

  /** How a run goes on from what an instruction in block `b`, or several, come to; `j` is the index behind them. */
  function GoOn(g: Graph, sem: Semantics, b: BlockId, j: nat, next: Machine.Next, fuel: nat): Run<State, BlockId> {
    match next
    case Continue(s1) => RunFrom(g, sem, b, j, s1, fuel)
    case Enter(t, s1) => RunBlock(g, sem, t, s1, fuel)
    case Stop(exit) => Ended(exit)
  }

  /** Straight code in a block is performed instruction by instruction. */
  lemma {:induction false} CodeRuns(g: Graph, sem: Semantics, b: BlockId, i: nat, code: seq<Insn>, s: State, fuel: nat)
    requires CodeIn(g, b, i, code) && Straight(code)
    ensures RunFrom(g, sem, b, i, s, fuel) == GoOn(g, sem, b, i + |code|, PerformAll(sem, code, s), fuel)
  {
    if code != [] {
      var before, last := code[..|code| - 1], code[|code| - 1];
      assert g.blocks[b].insns[i..i + |before|] == before by {
        assert g.blocks[b].insns[i..i + |code|][..|before|] == g.blocks[b].insns[i..i + |before|];
      }
      CodeRuns(g, sem, b, i, before, s, fuel);
      assert g.blocks[b].insns[i + |before|] == g.blocks[b].insns[i..i + |code|][|before|] == last;
    }
  }

  lemma CodeLeads(g: Graph, sem: Semantics, b: BlockId, i: nat, code: seq<Insn>, s: State)
    requires CodeIn(g, b, i, code) && Straight(code)
    ensures var next := PerformAll(sem, code, s);
            && (next.Continue? ==> Leads(g, sem, Spot(b, i, s), Spot(b, i + |code|, next.state), 0))
            && (next.Stop? ==> forall fuel: nat :: RunSpot(g, sem, Spot(b, i, s), fuel) == Ended(next.exit))
  {
    forall fuel: nat ensures RunFrom(g, sem, b, i, s, fuel)
      == GoOn(g, sem, b, i + |code|, PerformAll(sem, code, s), fuel) {
      CodeRuns(g, sem, b, i, code, s, fuel);
    }
  }

  // ----- graphs that contain what has been generated -----

  ghost predicate BuiltAt(st: Gen, g: Graph, b: BlockId)
    requires b < |st.blocks| <= |g.blocks|
  {
    st.blocks[b].insns <= g.blocks[b].insns && (Frozen(st, b) ==> g.blocks[b] == st.blocks[b])
  }

  /** What has been generated is in the graph. */
  ghost predicate Built(st: Gen, g: Graph) {
    |st.blocks| <= |g.blocks| && forall b: BlockId {:trigger BuiltAt(st, g, b)} | b < |st.blocks| :: BuiltAt(st, g, b)
  }

  lemma ExtendsBuilt(st: Gen, st': Gen, g: Graph)
    requires Extends(st, st') && Built(st', g)
    ensures Built(st, g)
  {
    forall b: BlockId | b < |st.blocks| ensures BuiltAt(st, g, b) {
      assert GrownAt(st, st', b) && BuiltAt(st', g, b);
    }
  }

  function Here(st: Gen, cur: BlockId, s: State): Spot
    requires cur < |st.blocks|
  {
    Spot(cur, |st.blocks[cur].insns|, s)
  }

  /** Where a run of statements gets, by what they do. */
  ghost predicate Runs(g: Graph, sem: Semantics, from: Spot, done: Done, st: Gen, cur: BlockId, n: nat, s: State) {
    match done
    case Next(env, h) =>
      cur < |st.blocks| && Leads(g, sem, from, Here(st, cur, s), n) && s.history == h && Holds(env, st.allocs, s)
    case Result(v, env, h) =>
      RunSpot(g, sem, from, n) == Ended(Returned(Some(v), s)) && s.history == h && Holds(env, st.allocs, s)
    case Fails(env, h) =>
      RunSpot(g, sem, from, n) == Ended(Faulted(s)) && s.history == h && Holds(env, st.allocs, s)
  }

  // ----- symbols -----

  /** The symbols that are bound are those in scope. */
  ghost predicate Bound(done: Done, scope: set<Symbol>) {
    done.env.Keys <= scope && (done.Next? ==> done.env.Keys == scope)
  }

  lemma {:induction false} ExecScope(sem: Semantics, s: Stmt, scope: set<Symbol>, branch: bool, env: Env, h: History)
    requires Proper(s, scope, branch) && scope == env.Keys
    ensures Bound(Exec(sem, s, env, h), ScopeAfter(s, scope))
    decreases s
  {
    match s
    case If(c, yes, no) =>
      var r := Eval(sem, c, env, h);
      if r.Reply? {
        ExecAllScope(sem, yes, scope, true, env, r.history);
        BranchScope(yes, scope);
        if no.Else? {
          ExecAllScope(sem, no.stmts, scope, true, env, r.history);
          BranchScope(no.stmts, scope);
        }
      }
    case _ =>
  }

  lemma {:induction false} ExecAllScope(
      sem: Semantics, ss: seq<Stmt>, scope: set<Symbol>, branch: bool, env: Env, h: History)
    requires ProperAll(ss, scope, branch) && scope == env.Keys
    ensures Bound(ExecAll(sem, ss, env, h), ScopeAfterAll(ss, scope))
    decreases ss
  {
    if ss != [] {
      var before, last := ss[..|ss| - 1], ss[|ss| - 1];
      ExecAllScope(sem, before, scope, branch, env, h);
      var d := ExecAll(sem, before, env, h);
      if d.Next? { ExecScope(sem, last, ScopeAfterAll(before, scope), branch, d.env, d.history); }
    }
  }

  lemma {:induction false} AddCodeKeepsAllocs(st: Gen, b: BlockId, code: seq<Insn>)
    requires b < |st.blocks|
    ensures AddCode(st, b, code).allocs == st.allocs
  {
    if code != [] { AddCodeKeepsAllocs(st, b, code[..|code| - 1]); }
  }

  /** Symbols in scope keep their allocations, and branches allocate nothing. */
  ghost predicate AllocsGrow(st: Gen, st': Gen, scope: set<Symbol>, scope': set<Symbol>, branch: bool) {
    && st'.allocs.Keys == scope' && scope <= scope' && (branch ==> st'.allocs == st.allocs)
    && forall x {:trigger x in scope} | x in scope :: x in st.allocs && x in st'.allocs && st'.allocs[x] == st.allocs[x]
  }

  lemma {:induction false} StmtAllocs(st: Gen, s: Stmt, cur: BlockId, scope: set<Symbol>, branch: bool)
    requires cur < |st.blocks| && Proper(s, scope, branch) && st.allocs.Keys == scope
    ensures AllocsGrow(st, GenStmt(st, s, cur).0, scope, ScopeAfter(s, scope), branch)
    decreases s, 2
  {
    match s
    case If(_, _, _) => IfAllocs(st, s, cur, scope, branch);
    case ReturnValue(e) => AddCodeKeepsAllocs(st, cur, ExprCode(e, st.allocs, st.next).code);
    case _ =>
      LineAllocs(s, st.allocs, st.next);
      AddCodeKeepsAllocs(st, cur, LineCode(s, st.allocs, st.next).code);
  }

  lemma EndKeepsAllocs(st: Gen, b: BlockId, join: BlockId, next: BlockId)
    requires b < |st.blocks|
    ensures EndBranch(st, b, join, next).allocs == st.allocs
  {
  }

  lemma ConditionKeepsAllocs(st: Gen, c: Expr, cur: BlockId, no: bool)
    requires cur < |st.blocks|
    ensures AddBlock(GenCondition(st, c, cur, no), |st.blocks|).allocs == st.allocs
  {
    AddCodeKeepsAllocs(st, cur, ExprCode(c, st.allocs, st.next).code);
  }

  lemma {:induction false} IfAllocs(st: Gen, s: Stmt, cur: BlockId, scope: set<Symbol>, branch: bool)
    requires s.If? && cur < |st.blocks| && Proper(s, scope, branch) && st.allocs.Keys == scope
    ensures GenStmt(st, s, cur).0.allocs == st.allocs && GenYes(st, s, cur).0.allocs == st.allocs
    ensures s.no.Else? ==> GenNo(st, s, cur).0.allocs == st.allocs
    decreases s, 1
  {
    hide GenStmt, GenYes, GenNo, GenStmts, EndBranch, GenCondition;
    var st1, x := AddBlock(GenCondition(st, s.condition, cur, s.no.Else?), |st.blocks|), GenYes(st, s, cur);
    ConditionKeepsAllocs(st, s.condition, cur, s.no.Else?);
    StmtsAllocs(st1, s.yes, |st.blocks|, scope, true);
    IfIs(st, s, cur);
    if s.no.NoElse? {
      EndKeepsAllocs(x.0, x.1, |st.blocks| + 1, |st.blocks| + 1);
    } else {
      var st3, y := EndBranch(x.0, x.1, |st.blocks| + 2, |st.blocks| + 1), GenNo(st, s, cur);
      NoIs(st, s, cur, x.0, x.1);
      EndKeepsAllocs(x.0, x.1, |st.blocks| + 2, |st.blocks| + 1);
      StmtsAllocs(st3, s.no.stmts, |st.blocks| + 1, scope, true);
      ElseIs(st, s, cur);
      EndKeepsAllocs(y.0, y.1, |st.blocks| + 2, |st.blocks| + 2);
    }
  }

  lemma {:induction false} StmtsAllocs(st: Gen, ss: seq<Stmt>, cur: BlockId, scope: set<Symbol>, branch: bool)
    requires cur < |st.blocks| && ProperAll(ss, scope, branch) && st.allocs.Keys == scope
    ensures AllocsGrow(st, GenStmts(st, ss, cur).0, scope, ScopeAfterAll(ss, scope), branch)
    decreases ss
  {
    if ss != [] {
      var before, last := ss[..|ss| - 1], ss[|ss| - 1];
      var x := GenStmts(st, before, cur);
      StmtsAllocs(st, before, cur, scope, branch);
      StmtAllocs(x.0, last, x.1, ScopeAfterAll(before, scope), branch);
    }
  }

  // ----- the steps -----

  lemma CodeAtEnd(st: Gen, g: Graph, b: BlockId, before: seq<Insn>, code: seq<Insn>)
    requires b < |st.blocks| && Built(st, g) && before + code <= st.blocks[b].insns
    ensures CodeIn(g, b, |before|, code)
  {
    assert BuiltAt(st, g, b);
    assert before + code <= g.blocks[b].insns;
    assert (before + code)[|before|..] == code;
    assert g.blocks[b].insns[..|before| + |code|] == before + code;
  }

  /** What a statement is compiled and run in: the symbols in scope have allocations, which hold their values. */
  ghost predicate Starts(st: Gen, cur: BlockId, scope: set<Symbol>, env: Env, s: State) {
    && cur < |st.blocks| && Generation.Ready(st, cur, scope) && st.allocs.Keys == scope == env.Keys
    && Holds(env, st.allocs, s)
  }

  lemma StartsTemps(st: Gen, cur: BlockId, scope: set<Symbol>, env: Env, s: State)
    requires Starts(st, cur, scope, env, s)
    ensures Within(env, st.allocs, st.next, s) && Apart(st.allocs)
  {
    assert TempsOk(st);
  }

  /** The code is appended to the block. */
  ghost predicate Appended(st: Gen, cur: BlockId, code: seq<Insn>, st': Gen) {
    cur < |st.blocks| && cur < |st'.blocks| && st.blocks[cur].insns + code <= st'.blocks[cur].insns
  }

  lemma AppendedCode(st: Gen, cur: BlockId, code: seq<Insn>, st': Gen, g: Graph)
    requires Appended(st, cur, code, st') && Built(st', g)
    ensures CodeIn(g, cur, |st.blocks[cur].insns|, code)
  {
    CodeAtEnd(st', g, cur, st.blocks[cur].insns, code);
  }

  // ----- plain statements -----

  lemma PlainAppends(st: Gen, s: Stmt, cur: BlockId, scope: set<Symbol>, branch: bool)
    requires Generation.Ready(st, cur, scope) && IsPlain(s) && Proper(s, scope, branch)
    ensures var line, st' := LineCode(s, st.allocs, st.next), GenStmt(st, s, cur).0;
            && Straight(line.code) && Appended(st, cur, line.code, st') && st'.allocs == line.allocs
            && st'.blocks[cur].insns == st.blocks[cur].insns + line.code && GenStmt(st, s, cur).1 == cur
  {
    hide AddCode, AllocsOf, Arity, Between, EndBranch, ExprCode, ExprsCode, GenNo, GenReturn, GenYes,
      GeneratedCode.Between, Good, InPlaceFor, Now, Numbered, OnStack, OrderOk, Proper, TempsOk;
    var line := LineCode(s, st.allocs, st.next);
    LinePushes(s, st.allocs, scope, branch, st.next, st.notes.params, Now(st, cur).temps);
    AddCodeAdds(st, cur, line.code);
  }

  /** Code that acts as a statement does, in its place. */
  lemma LineRuns(
      g: Graph, sem: Semantics, st: Gen, cur: BlockId, line: Line, state: State, done: Done, s': State, st': Gen)
    requires cur < |st.blocks| && Straight(line.code) && CodeIn(g, cur, |st.blocks[cur].insns|, line.code)
    requires Acts(sem, line, state, done, s') && st'.allocs == line.allocs && cur < |st'.blocks|
    requires st'.blocks[cur].insns == st.blocks[cur].insns + line.code
    ensures Runs(g, sem, Here(st, cur, state), done, st', cur, 0, s')
  {
    hide Holds, CodeIn, Straight, RunFrom;
    CodeLeads(g, sem, cur, |st.blocks[cur].insns|, line.code, state);
  }

  lemma PlainRuns(
      g: Graph, sem: Semantics, st: Gen, s: Stmt, cur: BlockId, scope: set<Symbol>, branch: bool, env: Env,
      state: State)
    returns (s': State)
    requires Starts(st, cur, scope, env, state) && IsPlain(s) && Proper(s, scope, branch)
             && Built(GenStmt(st, s, cur).0, g)
    ensures Runs(g, sem, Here(st, cur, state), Exec(sem, s, env, state.history), GenStmt(st, s, cur).0,
            GenStmt(st, s, cur).1, 0, s')
  {
    hide GenStmt, Exec, Proper, Acts, Generation.Ready, Runs, Holds, Built, Within, Apart;
    var line, st' := LineCode(s, st.allocs, st.next), GenStmt(st, s, cur).0;
    StartsTemps(st, cur, scope, env, state);
    s' := LineActs(sem, s, scope, branch, st.allocs, env, st.next, state);
    PlainAppends(st, s, cur, scope, branch);
    AppendedCode(st, cur, line.code, st', g);
    LineRuns(g, sem, st, cur, line, state, Exec(sem, s, env, state.history), s', st');
  }

  // ----- return -----

  lemma ReturnAppends(st: Gen, e: Expr, cur: BlockId)
    requires cur < |st.blocks| && Straight(ExprCode(e, st.allocs, st.next).code)
    ensures var p, st' := ExprCode(e, st.allocs, st.next), GenReturn(st, e, cur).0;
            && Appended(st, cur, p.code, st') && st'.allocs == st.allocs
            && st'.blocks[cur].insns == st.blocks[cur].insns + p.code + [Return(Some(p.temp))]
  {
    hide AddCode, Arity, ExprCode, Now;
    var p := ExprCode(e, st.allocs, st.next);
    AddCodeAdds(st, cur, p.code);
  }

  /** A terminator behind code that computes its operand. */
  lemma ThenLast(
      g: Graph, sem: Semantics, cur: BlockId, insns: seq<Insn>, p: Piece, last: Insn, s: State, next: Temp, v: Value,
      h: History, s': State)
    requires CodeIn(g, cur, |insns|, p.code) && CodeIn(g, cur, |insns| + |p.code|, [last]) && Straight(p.code)
    requires Computes(sem, p.code, p.temp, s, next, Reply(v, h), s')
    ensures Leads(g, sem, Spot(cur, |insns|, s), Spot(cur, |insns| + |p.code|, s'), 0)
    ensures Get(s', p.temp) == v
    ensures cur < |g.blocks| && |insns| + |p.code| < |g.blocks[cur].insns|
            && g.blocks[cur].insns[|insns| + |p.code|] == last
  {
    CodeLeads(g, sem, cur, |insns|, p.code, s);
    var j := |insns| + |p.code|;
    assert g.blocks[cur].insns[j] == g.blocks[cur].insns[j..j + 1][0];
  }

  lemma CodeFails(
      g: Graph, sem: Semantics, cur: BlockId, i: nat, p: Piece, s: State, next: Temp, h: History, s': State, n: nat)
    requires CodeIn(g, cur, i, p.code) && Straight(p.code) && Computes(sem, p.code, p.temp, s, next, Fault(h), s')
    ensures RunSpot(g, sem, Spot(cur, i, s), n) == Ended(Faulted(s')) && s'.history == h
  {
    CodeLeads(g, sem, cur, i, p.code, s);
  }

  /** A return statement ends the run with its value. */
  lemma ReturnEnds(
      g: Graph, sem: Semantics, st: Gen, cur: BlockId, p: Piece, env: Env, state: State, reply: Reply, s': State,
      st': Gen,
      cur': BlockId)
    requires cur < |st.blocks| && CodeIn(g, cur, |st.blocks[cur].insns|, p.code) && Straight(p.code)
    requires CodeIn(g, cur, |st.blocks[cur].insns| + |p.code|, [Return(Some(p.temp))])
    requires Computes(sem, p.code, p.temp, state, st.next, reply, s') && Holds(env, st'.allocs, s')
    ensures Runs(g, sem, Here(st, cur, state), match reply case Reply(v, h) => Result(v, env, h)
            case Fault(h) => Fails(env, h),
                 st', cur', 0, s')
  {
    hide Holds, CodeIn, Straight;
    var insns, last := st.blocks[cur].insns, Return(Some(p.temp));
    match reply
    case Reply(v, h) =>
      ThenLast(g, sem, cur, insns, p, last, state, st.next, v, h, s');
      LeadsToEnd(g, sem, Spot(cur, |insns|, state), Spot(cur, |insns| + |p.code|, s'), 0, 0);
    case Fault(h) => CodeFails(g, sem, cur, |insns|, p, state, st.next, h, s', 0);
  }

  lemma LastCode(st: Gen, cur: BlockId, code: seq<Insn>, last: Insn, st': Gen, g: Graph)
    requires cur < |st.blocks| && cur < |st'.blocks| && Built(st', g)
    requires st'.blocks[cur].insns == st.blocks[cur].insns + code + [last]
    ensures CodeIn(g, cur, |st.blocks[cur].insns|, code) && CodeIn(g, cur, |st.blocks[cur].insns| + |code|, [last])
  {
    CodeAtEnd(st', g, cur, st.blocks[cur].insns, code);
    CodeAtEnd(st', g, cur, st.blocks[cur].insns + code, [last]);
  }

  lemma StraightExpr(st: Gen, e: Expr, cur: BlockId, scope: set<Symbol>)
    requires Generation.Ready(st, cur, scope) && Uses(e, scope)
    ensures Straight(ExprCode(e, st.allocs, st.next).code)
  {
    ExprPushes(e, st.allocs, scope, st.next, st.notes.params, Now(st, cur).temps);
  }

  lemma ReturnRuns(g: Graph, sem: Semantics, st: Gen, s: Stmt, cur: BlockId, scope: set<Symbol>, env: Env, state: State)
    returns (s': State)
    requires Starts(st, cur, scope, env, state) && s.ReturnValue? && Uses(s.result, scope)
             && Built(GenStmt(st, s, cur).0, g)
    ensures Runs(g, sem, Here(st, cur, state), Exec(sem, s, env, state.history), GenStmt(st, s, cur).0,
            GenStmt(st, s, cur).1, 0, s')
  {
    hide GenReturn, Generation.Ready, Runs, Holds, Built, Apart, Computes, ExprCode, CodeIn, Straight, Eval, Uses;
    var p, st' := ExprCode(s.result, st.allocs, st.next), GenStmt(st, s, cur).0;
    StartsTemps(st, cur, scope, env, state);
    s' := ExprComputes(sem, s.result, st.allocs, env, st.next, state);
    StraightExpr(st, s.result, cur, scope);
    ReturnAppends(st, s.result, cur);
    LastCode(st, cur, p.code, Return(Some(p.temp)), st', g);
    ComputesHolds(sem, p, state, st.next, Eval(sem, s.result, env, state.history), s', env, st.allocs);
    ReturnEnds(g, sem, st, cur, p, env, state, Eval(sem, s.result, env, state.history), s', st', GenStmt(st, s, cur).1);
  }

  lemma ComputesHolds(
      sem: Semantics, p: Piece, s: State, next: Temp, reply: Reply, s': State, env: Env, allocs: map<Symbol, Temp>)
    requires Computes(sem, p.code, p.temp, s, next, reply, s') && Within(env, allocs, next, s)
    ensures Holds(env, allocs, s')
  {
    HoldsStill(env, allocs, s, s', next);
  }

  // ----- conditions -----

  /** A condition leads to the head of the branch it chooses, or faults. */
  ghost predicate Chooses(g: Graph, sem: Semantics, from: Spot, yes: BlockId, reply: Reply, s': State) {
    match reply
    case Reply(BoolValue(b), h) => s'.history == h && Leads(g, sem, from, Spot(if b then yes else yes + 1, 0, s'), 1)
    case Reply(_, h) => s'.history == h && RunSpot(g, sem, from, 0) == Ended(Faulted(s'))
    case Fault(h) => s'.history == h && RunSpot(g, sem, from, 0) == Ended(Faulted(s'))
  }

  lemma BranchLeads(g: Graph, sem: Semantics, cur: BlockId, j: nat, temp: Temp, yes: BlockId, s: State, b: bool)
    requires cur < |g.blocks| && j < |g.blocks[cur].insns| && g.blocks[cur].insns[j] == Branch(temp, yes, yes + 1)
    requires Get(s, temp) == BoolValue(b)
    ensures Leads(g, sem, Spot(cur, j, s), Spot(if b then yes else yes + 1, 0, s), 1)
  {
    var t := if b then yes else yes + 1;
    forall fuel: nat ensures RunSpot(g, sem, Spot(cur, j, s), fuel + 1) == RunSpot(g, sem, Spot(t, 0, s), fuel) {
      assert Perform(sem, g.blocks[cur].insns[j], s) == Enter(t, s);
      assert RunBlock(g, sem, t, s, fuel + 1) == RunFrom(g, sem, t, 0, s, fuel);
    }
  }

  lemma ConditionChooses(
      g: Graph, sem: Semantics, cur: BlockId, insns: seq<Insn>, p: Piece, yes: BlockId, s: State, next: Temp,
      reply: Reply, s': State)
    requires CodeIn(g, cur, |insns|, p.code) && CodeIn(g, cur, |insns| + |p.code|, [Branch(p.temp, yes, yes + 1)])
    requires Straight(p.code) && Computes(sem, p.code, p.temp, s, next, reply, s')
    ensures Chooses(g, sem, Spot(cur, |insns|, s), yes, reply, s')
  {
    var last, from, mid := Branch(p.temp, yes, yes + 1), Spot(cur, |insns|, s), Spot(cur, |insns| + |p.code|, s');
    match reply
    case Reply(v, h) =>
      ThenLast(g, sem, cur, insns, p, last, s, next, v, h, s');
      if v.BoolValue? {
        BranchLeads(g, sem, cur, |insns| + |p.code|, p.temp, yes, s', v.b);
        LeadsOn(g, sem, from, mid, Spot(if v.b then yes else yes + 1, 0, s'), 0, 1);
      } else {
        LeadsToEnd(g, sem, from, mid, 0, 0);
      }
    case Fault(h) => CodeFails(g, sem, cur, |insns|, p, s, next, h, s', 0);
  }

  lemma ConditionAppends(st: Gen, s: Stmt, cur: BlockId, scope: set<Symbol>)
    requires Generation.Ready(st, cur, scope) && s.If? && Uses(s.condition, scope)
    ensures var p, yes, st1 := ExprCode(s.condition, st.allocs, st.next), |st.blocks|, OpenedFor(st, s, cur);
            && cur < yes < |st1.blocks| && st1.allocs == st.allocs && st1.blocks[yes].insns == []
            && st1.blocks[cur].insns == st.blocks[cur].insns + p.code + [Branch(p.temp, yes, yes + 1)]
  {
    hide GenOk, GenCondition, Closes, Prepared;
    ConditionKeepsAllocs(st, s.condition, cur, s.no.Else?);
    ConditionSteps(st, s.condition, cur, scope, s.no.Else?);
    WithBranchesIs(st, Now(st, cur), s.no.Else?);
  }

  /** The condition chooses a branch, and the first one can be compiled. */
  lemma ConditionRuns(
      g: Graph, sem: Semantics, st: Gen, s: Stmt, cur: BlockId, scope: set<Symbol>, env: Env, state: State)
    returns (s': State)
    requires Starts(st, cur, scope, env, state) && s.If? && Uses(s.condition, scope) && Built(OpenedFor(st, s, cur), g)
    ensures Chooses(g, sem, Here(st, cur, state), |st.blocks|, Eval(sem, s.condition, env, state.history), s')
    ensures Holds(env, st.allocs, s')
  {
    hide OpenedFor, Generation.Ready, Holds, Built, Apart, Computes, ExprCode, CodeIn, Straight, Eval, Uses, Chooses;
    var p, st1 := ExprCode(s.condition, st.allocs, st.next), OpenedFor(st, s, cur);
    var reply := Eval(sem, s.condition, env, state.history);
    StartsTemps(st, cur, scope, env, state);
    s' := ExprComputes(sem, s.condition, st.allocs, env, st.next, state);
    ConditionAppends(st, s, cur, scope);
    LastCode(st, cur, p.code, Branch(p.temp, |st.blocks|, |st.blocks| + 1), st1, g);
    StraightExpr(st, s.condition, cur, scope);
    ComputesHolds(sem, p, state, st.next, reply, s', env, st.allocs);
    ConditionChooses(g, sem, cur, st.blocks[cur].insns, p, |st.blocks|, state, st.next, reply, s');
  }

  // ----- runs of several parts -----

  lemma RunsOn(g: Graph, sem: Semantics, a: Spot, b: Spot, k: nat, done: Done, st: Gen, cur: BlockId, n: nat, s: State)
    requires Leads(g, sem, a, b, k) && Runs(g, sem, b, done, st, cur, n, s)
    ensures Runs(g, sem, a, done, st, cur, k + n, s)
  {
    hide Holds, RunSpot;
    match done
    case Next(_, _) => LeadsOn(g, sem, a, b, Here(st, cur, s), k, n);
    case _ => LeadsToEnd(g, sem, a, b, k, n);
  }

  /** The end of a branch leads to the block it is linked to. */
  lemma LinkLeads(g: Graph, sem: Semantics, st2: Gen, b: BlockId, join: BlockId, next: BlockId, s: State)
    requires b < |st2.blocks| && Built(EndBranch(st2, b, join, next), g)
    ensures Leads(g, sem, Here(st2, b, s), Spot(join, 0, s), 1)
  {
    var st3 := EndBranch(st2, b, join, next);
    assert BuiltAt(st3, g, b) && Frozen(st3, b);
    forall fuel: nat ensures RunSpot(g, sem, Here(st2, b, s), fuel + 1) == RunSpot(g, sem, Spot(join, 0, s), fuel) {
      assert RunBlock(g, sem, join, s, fuel + 1) == RunFrom(g, sem, join, 0, s, fuel);
    }
  }

  /** The block is empty so far. */
  predicate Blank(st: Gen, b: BlockId) { b < |st.blocks| && st.blocks[b].insns == [] }

  /** A branch, and then the block that follows the conditional. */
  lemma BranchJoins(
      g: Graph, sem: Semantics, from: Spot, done: Done, st2: Gen, b: BlockId, next: BlockId, n: nat, s: State,
      r: Gen, join: BlockId) returns (m: nat)
    requires Runs(g, sem, from, done, st2, b, n, s) && b < |st2.blocks| && Built(EndBranch(st2, b, join, next), g)
    requires Blank(r, join) && r.allocs == st2.allocs
    ensures Runs(g, sem, from, done, r, join, m, s)
  {
    hide Built, Holds, RunSpot, EndBranch;
    m := n;
    if done.Next? {
      LinkLeads(g, sem, st2, b, join, next, s);
      LeadsOn(g, sem, from, Here(st2, b, s), Spot(join, 0, s), n, 1);
      m := n + 1;
    }
  }

  // ----- conditionals -----

  /** How the parts of an `if` follow each other; the second branch starts with `st3`, and ends with `st4`. */
  ghost predicate Chain(
      st: Gen, st1: Gen, st2: Gen, b: BlockId, join: BlockId, scope: set<Symbol>) {
    var yes := |st.blocks|;
    && Blank(st1, yes) && Generation.Ready(st1, yes, scope) && Extends(st1, st2)
    && b < |st2.blocks| && Extends(st2, EndBranch(st2, b, join, yes + 1))
       && Blank(EndBranch(st2, b, join, yes + 1), yes + 1)
  }

  ghost predicate ElseChain(st: Gen, st3: Gen, st4: Gen, d: BlockId, join: BlockId, scope: set<Symbol>) {
    && Generation.Ready(st3, |st.blocks| + 1, scope) && Extends(st3, st4)
    && d < |st4.blocks| && Extends(st4, EndBranch(st4, d, join, join)) && Blank(EndBranch(st4, d, join, join), join)
  }

  lemma FirstChain(st: Gen, cur: BlockId, st1: Gen, st2: Gen, b: BlockId, scope: set<Symbol>, ends: bool, no: bool)
    requires FirstDone(st, cur, st1, st2, b, scope, ends, no) && Blank(st1, |st.blocks|)
    ensures Chain(st, st1, st2, b, |st.blocks| + (if no then 2 else 1), scope)
    ensures no ==> Generation.Ready(EndBranch(st2, b, |st.blocks| + 2, |st.blocks| + 1), |st.blocks| + 1, scope)
  {
    hide Generation.Ready, EndBranch, GenOk, Extends, SparesAll, Behind, Awaits;
    BranchCloses(st, cur, st1, st2, b, scope, ends, no, |st.blocks| + if no then 2 else 1);
    if no { FirstToSecond(st, cur, st1, st2, b, scope, ends); }
  }

  lemma SecondChain(
      st: Gen, cur: BlockId, st2: Gen, b: BlockId, st3: Gen, st4: Gen, d: BlockId, scope: set<Symbol>, ends: bool)
    requires SecondDone(st, cur, st2, b, st3, st4, d, scope, ends) && Generation.Ready(st3, |st.blocks| + 1, scope)
    ensures ElseChain(st, st3, st4, d, |st.blocks| + 2, scope)
  {
    hide Generation.Ready, EndBranch, GenOk, Extends, SparesAll, Behind, Awaits;
    ElseCloses(st, cur, st2, b, st3, st4, d, scope, ends);
  }

  lemma IfChain(st: Gen, s: Stmt, cur: BlockId, scope: set<Symbol>, branch: bool)
    requires Generation.Ready(st, cur, scope) && s.If? && s.no.NoElse? && Proper(s, scope, branch) && cur < |st.blocks|
    requires Blank(OpenedFor(st, s, cur), |st.blocks|)
    ensures var x := GenYes(st, s, cur); Chain(st, OpenedFor(st, s, cur), x.0, x.1, |st.blocks| + 1, scope)
  {
    hide *;
    var x := GenYes(st, s, cur);
    var st1 := FirstBranch(st, s, cur, scope, branch);
    FirstChain(st, cur, st1, x.0, x.1, scope, EndsAll(s.yes), false);
  }

  lemma IfElseChain(st: Gen, s: Stmt, cur: BlockId, scope: set<Symbol>, branch: bool)
    requires Generation.Ready(st, cur, scope) && s.If? && s.no.Else? && Proper(s, scope, branch) && cur < |st.blocks|
    requires ProperAll(s.no.stmts, scope, true) && s.no.stmts != [] && Blank(OpenedFor(st, s, cur), |st.blocks|)
    ensures var x, y := GenYes(st, s, cur), GenNo(st, s, cur);
            && Chain(st, OpenedFor(st, s, cur), x.0, x.1, |st.blocks| + 2, scope)
            && ElseChain(st, EndBranch(x.0, x.1, |st.blocks| + 2, |st.blocks| + 1), y.0, y.1, |st.blocks| + 2, scope)
  {
    hide *;
    var x, y := GenYes(st, s, cur), GenNo(st, s, cur);
    var st1 := FirstBranch(st, s, cur, scope, branch);
    FirstChain(st, cur, st1, x.0, x.1, scope, EndsAll(s.yes), true);
    var st3 := SecondBranch(st, s, cur, st1, x.0, x.1, scope);
    SecondChain(st, cur, x.0, x.1, st3, y.0, y.1, scope, EndsAll(s.no.stmts));
  }

  /** What the graph contains of an `if`. */
  lemma ChainBuilt(st: Gen, st1: Gen, st2: Gen, b: BlockId, join: BlockId, scope: set<Symbol>, g: Graph)
    requires Chain(st, st1, st2, b, join, scope) && Built(EndBranch(st2, b, join, |st.blocks| + 1), g)
    ensures Built(st1, g) && Built(st2, g)
  {
    hide Built, Extends, EndBranch, Generation.Ready;
    ExtendsBuilt(st2, EndBranch(st2, b, join, |st.blocks| + 1), g);
    ExtendsBuilt(st1, st2, g);
  }

  lemma ElseChainBuilt(st: Gen, st3: Gen, st4: Gen, d: BlockId, join: BlockId, scope: set<Symbol>, g: Graph)
    requires ElseChain(st, st3, st4, d, join, scope) && Built(EndBranch(st4, d, join, join), g)
    ensures Built(st3, g) && Built(st4, g)
  {
    hide Built, Extends, EndBranch, Generation.Ready;
    ExtendsBuilt(st4, EndBranch(st4, d, join, join), g);
    ExtendsBuilt(st3, st4, g);
  }

  // ----- what statements do -----

  /** The run of a branch, from its head. */
  lemma BranchStarts(st: Gen, cur: BlockId, scope: set<Symbol>, env: Env, s: State, allocs: map<Symbol, Temp>)
    requires cur < |st.blocks| && Generation.Ready(st, cur, scope) && Blank(st, cur) && st.allocs == allocs
    requires allocs.Keys == scope == env.Keys && Holds(env, allocs, s)
    ensures Starts(st, cur, scope, env, s) && Here(st, cur, s) == Spot(cur, 0, s)
  {
  }

  lemma {:induction false} StmtRuns(
      g: Graph, sem: Semantics, st: Gen, s: Stmt, cur: BlockId, scope: set<Symbol>, branch: bool, env: Env,
      state: State)
    returns (n: nat, s': State)
    requires Starts(st, cur, scope, env, state) && Proper(s, scope, branch) && Built(GenStmt(st, s, cur).0, g)
    ensures Runs(g, sem, Here(st, cur, state), Exec(sem, s, env, state.history), GenStmt(st, s, cur).0,
            GenStmt(st, s, cur).1, n, s')
    decreases s, 2
  {
    hide Generation.Ready, Holds, Built, Runs, GenStmt, Exec;
    match s
    case If(_, _, NoElse) => n, s' := IfRuns(g, sem, st, s, cur, scope, branch, env, state);
    case If(_, _, Else(_)) => n, s' := IfElseRuns(g, sem, st, s, cur, scope, branch, env, state);
    case ReturnValue(_) =>
      n := 0;
      s' := ReturnRuns(g, sem, st, s, cur, scope, env, state);
    case _ =>
      n := 0;
      s' := PlainRuns(g, sem, st, s, cur, scope, branch, env, state);
  }

  /** What an `if` does, once its condition has been evaluated. */
  function Chosen(sem: Semantics, s: Stmt, reply: Reply, env: Env): Done
    requires s.If?
  {
    match reply
    case Reply(BoolValue(true), h) => ExecAll(sem, s.yes, env, h)
    case Reply(BoolValue(false), h) => if s.no.Else? then ExecAll(sem, s.no.stmts, env, h) else Done.Next(env, h)
    case Reply(_, h) => Fails(env, h)
    case Fault(h) => Fails(env, h)
  }

  lemma ExecIf(sem: Semantics, s: Stmt, env: Env, h: History)
    requires s.If?
    ensures Exec(sem, s, env, h) == Chosen(sem, s, Eval(sem, s.condition, env, h), env)
  {
  }

  /** The condition faults. */
  lemma FaultRuns(
      g: Graph, sem: Semantics, from: Spot, yes: BlockId, s: Stmt, reply: Reply, env: Env, r: Gen, join: BlockId,
      s': State)
    requires s.If? && Chooses(g, sem, from, yes, reply, s') && !(reply.Reply? && reply.value.BoolValue?)
             && Holds(env, r.allocs, s')
    ensures Runs(g, sem, from, Chosen(sem, s, reply, env), r, join, 0, s')
  {
    hide Holds;
  }

  lemma ChosenLeads(g: Graph, sem: Semantics, from: Spot, yes: BlockId, reply: Reply, s': State, b: bool)
    requires Chooses(g, sem, from, yes, reply, s') && reply.Reply? && reply.value == BoolValue(b)
    ensures s'.history == reply.history && Leads(g, sem, from, Spot(if b then yes else yes + 1, 0, s'), 1)
  {
  }

  /** The first branch is chosen. */
  lemma {:induction false} YesRuns(
      g: Graph, sem: Semantics, st: Gen, s: Stmt, cur: BlockId, scope: set<Symbol>, env: Env, from: Spot, state: State,
      join: BlockId, r: Gen) returns (n: nat, s': State)
    requires cur < |st.blocks| && s.If? && s.yes != [] && ProperAll(s.yes, scope, true)
    requires var st1, x := OpenedFor(st, s, cur), GenYes(st, s, cur);
             && Chain(st, st1, x.0, x.1, join, scope) && Built(EndBranch(x.0, x.1, join, |st.blocks| + 1), g)
             && Starts(st1, |st.blocks|, scope, env, state)
                && Here(st1, |st.blocks|, state) == Spot(|st.blocks|, 0, state)
             && x.0.allocs == r.allocs
    requires Blank(r, join) && Leads(g, sem, from, Spot(|st.blocks|, 0, state), 1)
    ensures Runs(g, sem, from, ExecAll(sem, s.yes, env, state.history), r, join, n, s')
    decreases s, 0
  {
    hide *;
    var st1, x, done := OpenedFor(st, s, cur), GenYes(st, s, cur), ExecAll(sem, s.yes, env, state.history);
    OpenedIs(st, s, cur);
    IfIs(st, s, cur);
    ChainBuilt(st, st1, x.0, x.1, join, scope, g);
    n, s' := StmtsRuns(g, sem, st1, s.yes, |st.blocks|, scope, true, env, state);
    RunsOn(g, sem, from, Spot(|st.blocks|, 0, state), 1, done, x.0, x.1, n, s');
    n := BranchJoins(g, sem, from, done, x.0, x.1, |st.blocks| + 1, 1 + n, s', r, join);
  }

  lemma OpenedIs(st: Gen, s: Stmt, cur: BlockId)
    requires cur < |st.blocks| && s.If?
    ensures OpenedFor(st, s, cur) == AddBlock(GenCondition(st, s.condition, cur, s.no.Else?), |st.blocks|)
  {
  }

  /** The second branch is chosen. */
  lemma {:induction false} NoRuns(
      g: Graph, sem: Semantics, st: Gen, s: Stmt, cur: BlockId, scope: set<Symbol>, env: Env, from: Spot, state: State,
      join: BlockId, r: Gen) returns (n: nat, s': State)
    requires cur < |st.blocks| && s.If? && s.no.Else? && s.no.stmts != [] && ProperAll(s.no.stmts, scope, true)
    requires var x, y := GenYes(st, s, cur), GenNo(st, s, cur);
             var st3 := EndBranch(x.0, x.1, |st.blocks| + 2, |st.blocks| + 1);
             && ElseChain(st, st3, y.0, y.1, join, scope) && Built(EndBranch(y.0, y.1, join, join), g)
             && Starts(st3, |st.blocks| + 1, scope, env, state)
             && Here(st3, |st.blocks| + 1, state) == Spot(|st.blocks| + 1, 0, state) && y.0.allocs == r.allocs
    requires Blank(r, join) && Leads(g, sem, from, Spot(|st.blocks| + 1, 0, state), 1)
    ensures Runs(g, sem, from, ExecAll(sem, s.no.stmts, env, state.history), r, join, n, s')
    decreases s, 0
  {
    hide *;
    var x, y, done := GenYes(st, s, cur), GenNo(st, s, cur), ExecAll(sem, s.no.stmts, env, state.history);
    var st3 := EndBranch(x.0, x.1, |st.blocks| + 2, |st.blocks| + 1);
    NoIs(st, s, cur, x.0, x.1);
    ElseChainBuilt(st, st3, y.0, y.1, join, scope, g);
    n, s' := StmtsRuns(g, sem, st3, s.no.stmts, |st.blocks| + 1, scope, true, env, state);
    RunsOn(g, sem, from, Spot(|st.blocks| + 1, 0, state), 1, done, y.0, y.1, n, s');
    n := BranchJoins(g, sem, from, done, y.0, y.1, join, 1 + n, s', r, join);
  }

  lemma ChosenIs(sem: Semantics, s: Stmt, reply: Reply, env: Env, b: bool)
    requires s.If? && reply.Reply? && reply.value == BoolValue(b)
    ensures Chosen(sem, s, reply, env) ==
            if b then ExecAll(sem, s.yes, env, reply.history)
            else if s.no.Else? then ExecAll(sem, s.no.stmts, env, reply.history)
            else Done.Next(env, reply.history)
  {
  }

  /** What an `if` without `else` is run with. */
  ghost predicate IfFacts(st: Gen, s: Stmt, cur: BlockId, scope: set<Symbol>, g: Graph)
    requires cur < |st.blocks| && s.If?
  {
    var st1, x, z := OpenedFor(st, s, cur), GenYes(st, s, cur), GenStmt(st, s, cur);
    && s.yes != [] && ProperAll(s.yes, scope, true) && Uses(s.condition, scope)
    && Chain(st, st1, x.0, x.1, z.1, scope) && Built(EndBranch(x.0, x.1, z.1, |st.blocks| + 1), g) && Built(st1, g)
    && Generation.Ready(st1, |st.blocks|, scope) && Blank(st1, |st.blocks|) && Blank(z.0, z.1)
    && st1.allocs == st.allocs && x.0.allocs == st.allocs && z.0.allocs == st.allocs
  }

  lemma ProperIf(s: Stmt, scope: set<Symbol>, branch: bool)
    requires s.If? && Proper(s, scope, branch)
    ensures s.yes != [] && ProperAll(s.yes, scope, true) && Uses(s.condition, scope)
    ensures s.no.Else? ==> s.no.stmts != [] && ProperAll(s.no.stmts, scope, true)
  {
  }

  lemma IfIsSo(st: Gen, s: Stmt, cur: BlockId, scope: set<Symbol>, branch: bool, g: Graph)
    requires cur < |st.blocks| && Generation.Ready(st, cur, scope) && s.If? && s.no.NoElse? && Proper(s, scope, branch)
    requires st.allocs.Keys == scope && Built(GenStmt(st, s, cur).0, g)
    ensures IfFacts(st, s, cur, scope, g) && GenStmt(st, s, cur).1 == |st.blocks| + 1
  {
    hide Generation.Ready, Proper, ProperAll, Uses, Built, Extends, OpenedFor, GenYes, GenStmt, EndBranch;
    var x := GenYes(st, s, cur);
    ProperIf(s, scope, branch);
    ConditionAppends(st, s, cur, scope);
    IfChain(st, s, cur, scope, branch);
    IfIs(st, s, cur);
    ChainBuilt(st, OpenedFor(st, s, cur), x.0, x.1, |st.blocks| + 1, scope, g);
    IfAllocs(st, s, cur, scope, branch);
  }

  /** The state before the run of the first branch. */
  lemma FirstStarts(st: Gen, s: Stmt, cur: BlockId, scope: set<Symbol>, g: Graph, env: Env, state: State)
    requires cur < |st.blocks| && s.If? && IfFacts(st, s, cur, scope, g) && st.allocs.Keys == scope == env.Keys
    requires Holds(env, st.allocs, state)
    ensures var st1 := OpenedFor(st, s, cur);
            && |st.blocks| < |st1.blocks| && Starts(st1, |st.blocks|, scope, env, state)
            && Here(st1, |st.blocks|, state) == Spot(|st.blocks|, 0, state)
  {
    hide Generation.Ready, ProperAll, Uses, Built, Chain, OpenedFor, GenYes, GenStmt, EndBranch, Holds;
    BranchStarts(OpenedFor(st, s, cur), |st.blocks|, scope, env, state, st.allocs);
  }

  /** No branch is chosen. */
  lemma SkipRuns(g: Graph, sem: Semantics, from: Spot, env: Env, r: Gen, join: BlockId, s: State)
    requires Blank(r, join) && Leads(g, sem, from, Spot(join, 0, s), 1) && Holds(env, r.allocs, s)
    ensures Runs(g, sem, from, Done.Next(env, s.history), r, join, 1, s)
  {
  }

  lemma IfChosen(st: Gen, s: Stmt, cur: BlockId, scope: set<Symbol>, g: Graph)
    requires cur < |st.blocks| && s.If? && IfFacts(st, s, cur, scope, g)
    ensures s.yes != [] && ProperAll(s.yes, scope, true) && Uses(s.condition, scope) && Built(OpenedFor(st, s, cur), g)
    ensures var x, z := GenYes(st, s, cur), GenStmt(st, s, cur);
            && Chain(st, OpenedFor(st, s, cur), x.0, x.1, z.1, scope)
               && Built(EndBranch(x.0, x.1, z.1, |st.blocks| + 1), g)
            && Blank(z.0, z.1) && x.0.allocs == st.allocs && z.0.allocs == st.allocs
  {
  }

  lemma {:induction false} IfRuns(
      g: Graph, sem: Semantics, st: Gen, s: Stmt, cur: BlockId, scope: set<Symbol>, branch: bool, env: Env,
      state: State)
    returns (n: nat, s': State)
    requires s.If? && s.no.NoElse? && Proper(s, scope, branch) && cur < |st.blocks|
    requires Starts(st, cur, scope, env, state) && Generation.Ready(st, cur, scope)
             && st.allocs.Keys == scope == env.Keys
    requires Built(GenStmt(st, s, cur).0, g)
    ensures Runs(g, sem, Here(st, cur, state), Exec(sem, s, env, state.history), GenStmt(st, s, cur).0,
            GenStmt(st, s, cur).1, n, s')
    decreases s, 1
  {
    hide *;
    var from, reply, z := Here(st, cur, state), Eval(sem, s.condition, env, state.history), GenStmt(st, s, cur);
    IfIsSo(st, s, cur, scope, branch, g);
    IfChosen(st, s, cur, scope, g);
    var s1 := ConditionRuns(g, sem, st, s, cur, scope, env, state);
    ExecIf(sem, s, env, state.history);
    if reply.Reply? && reply.value.BoolValue? {
      ChosenLeads(g, sem, from, |st.blocks|, reply, s1, reply.value.b);
      ChosenIs(sem, s, reply, env, reply.value.b);
      if reply.value.b {
        FirstStarts(st, s, cur, scope, g, env, s1);
        n, s' := YesRuns(g, sem, st, s, cur, scope, env, from, s1, z.1, z.0);
      } else {
        SkipRuns(g, sem, from, env, z.0, z.1, s1);
        n, s' := 1, s1;
      }
    } else {
      FaultRuns(g, sem, from, |st.blocks|, s, reply, env, z.0, z.1, s1);
      n, s' := 0, s1;
    }
  }

  /** What an `if` with `else` is run with. */
  ghost predicate ElseFacts(st: Gen, s: Stmt, cur: BlockId, scope: set<Symbol>, g: Graph)
    requires cur < |st.blocks| && s.If? && s.no.Else?
  {
    var x, y, z := GenYes(st, s, cur), GenNo(st, s, cur), GenStmt(st, s, cur);
    var st3 := EndBranch(x.0, x.1, |st.blocks| + 2, |st.blocks| + 1);
    && s.no.stmts != [] && ProperAll(s.no.stmts, scope, true) && z.1 == |st.blocks| + 2
    && ElseChain(st, st3, y.0, y.1, z.1, scope) && Built(EndBranch(y.0, y.1, z.1, z.1), g)
    && Generation.Ready(st3, |st.blocks| + 1, scope) && Blank(st3, |st.blocks| + 1)
    && st3.allocs == st.allocs && y.0.allocs == st.allocs
  }

  lemma EndBranchAllocs(st: Gen, b: BlockId, join: BlockId, next: BlockId)
    requires b < |st.blocks|
    ensures EndBranch(st, b, join, next).allocs == st.allocs
  {
  }

  lemma ElseChainFacts(
      st: Gen, st1: Gen, st2: Gen, b: BlockId, st4: Gen, d: BlockId, scope: set<Symbol>, r: Gen, g: Graph)
    requires Chain(st, st1, st2, b, |st.blocks| + 2, scope)
    requires ElseChain(st, EndBranch(st2, b, |st.blocks| + 2, |st.blocks| + 1), st4, d, |st.blocks| + 2, scope)
    requires r == EndBranch(st4, d, |st.blocks| + 2, |st.blocks| + 2) && Built(r, g)
    ensures var st3 := EndBranch(st2, b, |st.blocks| + 2, |st.blocks| + 1);
            && Built(st1, g) && Built(st3, g) && Blank(r, |st.blocks| + 2) && Blank(st3, |st.blocks| + 1)
            && Generation.Ready(st3, |st.blocks| + 1, scope) && Generation.Ready(st1, |st.blocks|, scope)
            && Blank(st1, |st.blocks|)
  {
    hide Built, Extends, EndBranch, Generation.Ready, Blank;
    ElseChainBuilt(st, EndBranch(st2, b, |st.blocks| + 2, |st.blocks| + 1), st4, d, |st.blocks| + 2, scope, g);
    ChainBuilt(st, st1, st2, b, |st.blocks| + 2, scope, g);
  }

  lemma IfElseIsSo(st: Gen, s: Stmt, cur: BlockId, scope: set<Symbol>, branch: bool, g: Graph)
    requires cur < |st.blocks| && Generation.Ready(st, cur, scope) && s.If? && s.no.Else? && Proper(s, scope, branch)
    requires st.allocs.Keys == scope && Built(GenStmt(st, s, cur).0, g)
    ensures IfFacts(st, s, cur, scope, g) && ElseFacts(st, s, cur, scope, g)
  {
    hide Generation.Ready, Proper, ProperAll, Uses, Built, Extends, OpenedFor, GenYes, GenNo, GenStmt, EndBranch, Chain,
      ElseChain, Blank;
    var x, y, z := GenYes(st, s, cur), GenNo(st, s, cur), GenStmt(st, s, cur);
    ProperIf(s, scope, branch);
    ConditionBlank(st, s, cur, scope);
    IfElseChain(st, s, cur, scope, branch);
    ElseIs(st, s, cur);
    ElseChainFacts(st, OpenedFor(st, s, cur), x.0, x.1, y.0, y.1, scope, z.0, g);
    IfAllocs(st, s, cur, scope, branch);
    EndBranchAllocs(x.0, x.1, |st.blocks| + 2, |st.blocks| + 1);
  }

  lemma ConditionBlank(st: Gen, s: Stmt, cur: BlockId, scope: set<Symbol>)
    requires cur < |st.blocks| && Generation.Ready(st, cur, scope) && s.If? && Uses(s.condition, scope)
    ensures Blank(OpenedFor(st, s, cur), |st.blocks|) && OpenedFor(st, s, cur).allocs == st.allocs
  {
    hide Generation.Ready, Uses, OpenedFor;
    ConditionAppends(st, s, cur, scope);
  }

  /** The state before the run of the second branch. */
  lemma SecondStarts(st: Gen, s: Stmt, cur: BlockId, scope: set<Symbol>, g: Graph, env: Env, state: State)
    requires cur < |st.blocks| && s.If? && s.no.Else? && ElseFacts(st, s, cur, scope, g)
    requires st.allocs.Keys == scope == env.Keys && Holds(env, st.allocs, state)
    ensures var x := GenYes(st, s, cur);
            var st3 := EndBranch(x.0, x.1, |st.blocks| + 2, |st.blocks| + 1);
            && |st.blocks| + 1 < |st3.blocks| && Starts(st3, |st.blocks| + 1, scope, env, state)
            && Here(st3, |st.blocks| + 1, state) == Spot(|st.blocks| + 1, 0, state)
  {
    hide Generation.Ready, ProperAll, Built, ElseChain, GenYes, GenNo, GenStmt, EndBranch, Holds;
    var x := GenYes(st, s, cur);
    BranchStarts(EndBranch(x.0, x.1, |st.blocks| + 2, |st.blocks| + 1), |st.blocks| + 1, scope, env, state, st.allocs);
  }

  lemma ElseChosen(st: Gen, s: Stmt, cur: BlockId, scope: set<Symbol>, g: Graph)
    requires cur < |st.blocks| && s.If? && s.no.Else? && ElseFacts(st, s, cur, scope, g)
    ensures var x, y, z := GenYes(st, s, cur), GenNo(st, s, cur), GenStmt(st, s, cur);
            var st3 := EndBranch(x.0, x.1, |st.blocks| + 2, |st.blocks| + 1);
            && s.no.stmts != [] && ProperAll(s.no.stmts, scope, true) && z.1 == |st.blocks| + 2
            && ElseChain(st, st3, y.0, y.1, z.1, scope) && Built(EndBranch(y.0, y.1, z.1, z.1), g)
            && y.0.allocs == st.allocs
  {
  }

  lemma {:induction false} IfElseRuns(
      g: Graph, sem: Semantics, st: Gen, s: Stmt, cur: BlockId, scope: set<Symbol>, branch: bool, env: Env,
      state: State)
    returns (n: nat, s': State)
    requires s.If? && s.no.Else? && Proper(s, scope, branch) && cur < |st.blocks|
    requires Starts(st, cur, scope, env, state) && Generation.Ready(st, cur, scope)
             && st.allocs.Keys == scope == env.Keys
    requires Built(GenStmt(st, s, cur).0, g)
    ensures Runs(g, sem, Here(st, cur, state), Exec(sem, s, env, state.history), GenStmt(st, s, cur).0,
            GenStmt(st, s, cur).1, n, s')
    decreases s, 1
  {
    hide *;
    var from, reply, z := Here(st, cur, state), Eval(sem, s.condition, env, state.history), GenStmt(st, s, cur);
    IfElseIsSo(st, s, cur, scope, branch, g);
    IfChosen(st, s, cur, scope, g);
    ElseChosen(st, s, cur, scope, g);
    var s1 := ConditionRuns(g, sem, st, s, cur, scope, env, state);
    ExecIf(sem, s, env, state.history);
    if reply.Reply? && reply.value.BoolValue? {
      ChosenLeads(g, sem, from, |st.blocks|, reply, s1, reply.value.b);
      ChosenIs(sem, s, reply, env, reply.value.b);
      if reply.value.b {
        FirstStarts(st, s, cur, scope, g, env, s1);
        n, s' := YesRuns(g, sem, st, s, cur, scope, env, from, s1, z.1, z.0);
      } else {
        SecondStarts(st, s, cur, scope, g, env, s1);
        n, s' := NoRuns(g, sem, st, s, cur, scope, env, from, s1, z.1, z.0);
      }
    } else {
      FaultRuns(g, sem, from, |st.blocks|, s, reply, env, z.0, z.1, s1);
      n, s' := 0, s1;
    }
  }

  // ----- several statements -----

  lemma NothingRuns(g: Graph, sem: Semantics, st: Gen, cur: BlockId, env: Env, s: State)
    requires cur < |st.blocks| && Holds(env, st.allocs, s)
    ensures Runs(g, sem, Here(st, cur, s), Done.Next(env, s.history), st, cur, 0, s)
  {
    assert forall fuel: nat :: RunSpot(g, sem, Here(st, cur, s), fuel + 0) == RunSpot(g, sem, Here(st, cur, s), fuel);
  }

  /** Where the first statements do not go on, the others do not matter. */
  lemma StaysEnded(
      g: Graph, sem: Semantics, from: Spot, done: Done, st: Gen, cur: BlockId, st': Gen, cur': BlockId, n: nat,
      s: State,
      scope: set<Symbol>, scope': set<Symbol>, branch: bool)
    requires Runs(g, sem, from, done, st, cur, n, s) && !done.Next? && AllocsGrow(st, st', scope, scope', branch)
    requires done.env.Keys <= scope
    ensures Runs(g, sem, from, done, st', cur', n, s)
  {
    hide RunSpot;
    assert Holds(done.env, st'.allocs, s);
  }

  lemma ExecLast(sem: Semantics, ss: seq<Stmt>, env: Env, h: History)
    requires ss != []
    ensures var d := ExecAll(sem, ss[..|ss| - 1], env, h);
            ExecAll(sem, ss, env, h) == if d.Next? then Exec(sem, ss[|ss| - 1], d.env, d.history) else d
  {
  }

  lemma GenLast(st: Gen, ss: seq<Stmt>, cur: BlockId)
    requires ss != [] && cur < |st.blocks|
    ensures var x := GenStmts(st, ss[..|ss| - 1], cur); GenStmts(st, ss, cur) == GenStmt(x.0, ss[|ss| - 1], x.1)
  {
  }

  /** Between the last statement and the others. */
  ghost predicate Between(st: Gen, ss: seq<Stmt>, cur: BlockId, scope: set<Symbol>, branch: bool)
    requires ss != [] && cur < |st.blocks|
  {
    var x, last, scope1 := GenStmts(st, ss[..|ss| - 1], cur), ss[|ss| - 1], ScopeAfterAll(ss[..|ss| - 1], scope);
    && ProperAll(ss[..|ss| - 1], scope, branch) && Proper(last, scope1, branch)
    && Generation.Ready(x.0, x.1, scope1) && x.0.allocs.Keys == scope1
    && Extends(x.0, GenStmts(st, ss, cur).0)
    && AllocsGrow(x.0, GenStmts(st, ss, cur).0, scope1, ScopeAfterAll(ss, scope), branch)
  }

  lemma CompiledExtends(st: Gen, cur: BlockId, st': Gen, cur': BlockId, scope: set<Symbol>, ends: bool, branch: bool)
    requires Compiled(st, cur, st', cur', scope, ends, branch)
    ensures Extends(st, st')
  {
  }

  lemma BeforeLast(st: Gen, ss: seq<Stmt>, cur: BlockId, scope: set<Symbol>, branch: bool)
    requires ss != [] && cur < |st.blocks| && Generation.Ready(st, cur, scope) && ProperAll(ss, scope, branch)
    requires st.allocs.Keys == scope
    ensures var before, scope1 := ss[..|ss| - 1], ScopeAfterAll(ss[..|ss| - 1], scope);
            var x := GenStmts(st, before, cur);
            && ProperAll(before, scope, branch) && Proper(ss[|ss| - 1], scope1, branch)
            && Generation.Ready(x.0, x.1, scope1) && x.0.allocs.Keys == scope1
  {
    hide Generation.Ready, Compiled, GenStmt, Proper, Syntax.Ends;
    var before := ss[..|ss| - 1];
    StmtsAllocs(st, before, cur, scope, branch);
    if before != [] {
      var x := GenStmts(st, before, cur);
      StmtsCompiled(st, before, cur, scope, branch);
      ReadyAgain(st, cur, x.0, x.1, ScopeAfterAll(before, scope), branch);
    }
  }

  lemma BetweenHolds(st: Gen, ss: seq<Stmt>, cur: BlockId, scope: set<Symbol>, branch: bool)
    requires ss != [] && cur < |st.blocks| && Generation.Ready(st, cur, scope) && ProperAll(ss, scope, branch)
    requires st.allocs.Keys == scope
    ensures Between(st, ss, cur, scope, branch)
  {
    hide Generation.Ready, Compiled, GenStmt, GenStmts, Proper, ProperAll, Syntax.Ends, Extends, AllocsGrow;
    var before, last, scope1 := ss[..|ss| - 1], ss[|ss| - 1], ScopeAfterAll(ss[..|ss| - 1], scope);
    var x := GenStmts(st, before, cur);
    BeforeLast(st, ss, cur, scope, branch);
    GenLast(st, ss, cur);
    StmtCompiled(x.0, last, x.1, scope1, branch);
    CompiledExtends(x.0, x.1, GenStmts(st, ss, cur).0, GenStmts(st, ss, cur).1, ScopeAfter(last, scope1),
      Syntax.Ends(last), branch);
    StmtAllocs(x.0, last, x.1, scope1, branch);
  }

  lemma BetweenGives(st: Gen, ss: seq<Stmt>, cur: BlockId, scope: set<Symbol>, branch: bool, g: Graph)
    requires ss != [] && cur < |st.blocks| && Between(st, ss, cur, scope, branch) && Built(GenStmts(st, ss, cur).0, g)
    ensures var x, scope1 := GenStmts(st, ss[..|ss| - 1], cur), ScopeAfterAll(ss[..|ss| - 1], scope);
            && ProperAll(ss[..|ss| - 1], scope, branch) && Proper(ss[|ss| - 1], scope1, branch)
            && AllocsGrow(x.0, GenStmts(st, ss, cur).0, scope1, ScopeAfterAll(ss, scope), branch) && Built(x.0, g)
  {
    hide Generation.Ready, GenStmts, Proper, ProperAll, AllocsGrow, Built, Extends;
    ExtendsBuilt(GenStmts(st, ss[..|ss| - 1], cur).0, GenStmts(st, ss, cur).0, g);
  }

  /** The last statement is run behind the others. */
  lemma LastStarts(
      g: Graph, sem: Semantics, from: Spot, st: Gen, ss: seq<Stmt>, cur: BlockId, scope: set<Symbol>, branch: bool,
      done: Done,
      n: nat, s: State)
    requires ss != [] && cur < |st.blocks| && Between(st, ss, cur, scope, branch)
    requires var x := GenStmts(st, ss[..|ss| - 1], cur); Runs(g, sem, from, done, x.0, x.1, n, s)
    requires done.Next? && Bound(done, ScopeAfterAll(ss[..|ss| - 1], scope))
    ensures var x, scope1 := GenStmts(st, ss[..|ss| - 1], cur), ScopeAfterAll(ss[..|ss| - 1], scope);
            && Starts(x.0, x.1, scope1, done.env, s) && s.history == done.history
            && Leads(g, sem, from, Here(x.0, x.1, s), n)
  {
    hide Generation.Ready, GenStmts, Proper, ProperAll, AllocsGrow, Extends, Holds, Leads;
  }

  lemma EndedRuns(
      g: Graph, sem: Semantics, from: Spot, st: Gen, ss: seq<Stmt>, cur: BlockId, scope: set<Symbol>, branch: bool,
      done: Done,
      n: nat, s: State, r: Gen, cur': BlockId)
    requires ss != [] && cur < |st.blocks|
    requires var x := GenStmts(st, ss[..|ss| - 1], cur);
             && AllocsGrow(x.0, r, ScopeAfterAll(ss[..|ss| - 1], scope), ScopeAfterAll(ss, scope), branch)
             && Runs(g, sem, from, done, x.0, x.1, n, s)
    requires !done.Next? && Bound(done, ScopeAfterAll(ss[..|ss| - 1], scope))
    ensures Runs(g, sem, from, done, r, cur', n, s)
  {
    hide GenStmts, AllocsGrow, Runs;
    var x := GenStmts(st, ss[..|ss| - 1], cur);
    StaysEnded(g, sem, from, done, x.0, x.1, r, cur', n, s, ScopeAfterAll(ss[..|ss| - 1], scope),
      ScopeAfterAll(ss, scope), branch);
  }

  /** Statements that are compiled do what the evaluator says, from the block they start in to the one behind them. */
  lemma {:induction false} StmtsRuns(
      g: Graph, sem: Semantics, st: Gen, ss: seq<Stmt>, cur: BlockId, scope: set<Symbol>, branch: bool, env: Env,
      state: State)
    returns (n: nat, s': State)
    requires Starts(st, cur, scope, env, state) && ProperAll(ss, scope, branch) && Built(GenStmts(st, ss, cur).0, g)
    ensures Runs(g, sem, Here(st, cur, state), ExecAll(sem, ss, env, state.history), GenStmts(st, ss, cur).0,
            GenStmts(st, ss, cur).1, n, s')
    decreases ss, 3
  {
    if ss == [] {
      NothingRuns(g, sem, st, cur, env, state);
      n, s' := 0, state;
    } else {
      n, s' := MoreRun(g, sem, st, ss, cur, scope, branch, env, state);
    }
  }

  lemma {:induction false} MoreRun(
      g: Graph, sem: Semantics, st: Gen, ss: seq<Stmt>, cur: BlockId, scope: set<Symbol>, branch: bool, env: Env,
      state: State)
    returns (n: nat, s': State)
    requires cur < |st.blocks| && Generation.Ready(st, cur, scope) && st.allocs.Keys == scope == env.Keys
    requires Starts(st, cur, scope, env, state) && ProperAll(ss, scope, branch) && Built(GenStmts(st, ss, cur).0, g)
    requires ss != []
    ensures Runs(g, sem, Here(st, cur, state), ExecAll(sem, ss, env, state.history), GenStmts(st, ss, cur).0,
            GenStmts(st, ss, cur).1, n, s')
    decreases ss, 2
  {
    hide *;
    var before, last, from, z := ss[..|ss| - 1], ss[|ss| - 1], Here(st, cur, state), GenStmts(st, ss, cur);
    var x, scope1, d := GenStmts(st, before, cur), ScopeAfterAll(before, scope),
      ExecAll(sem, before, env, state.history);
    BetweenHolds(st, ss, cur, scope, branch);
    BetweenGives(st, ss, cur, scope, branch, g);
    GenLast(st, ss, cur);
    ExecLast(sem, ss, env, state.history);
    ExecAllScope(sem, before, scope, branch, env, state.history);
    n, s' := StmtsRuns(g, sem, st, before, cur, scope, branch, env, state);
    if d.Next? {
      LastStarts(g, sem, from, st, ss, cur, scope, branch, d, n, s');
      var m, s2 := StmtRuns(g, sem, x.0, last, x.1, scope1, branch, d.env, s');
      RunsOn(g, sem, from, Here(x.0, x.1, s'), n, ExecAll(sem, ss, env, state.history), z.0, z.1, m, s2);
      n, s' := n + m, s2;
    } else {
      EndedRuns(g, sem, from, st, ss, cur, scope, branch, d, n, s', z.0, z.1);
    }
  }
}
