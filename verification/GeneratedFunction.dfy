/** The graph that is generated for a function is typed, and its empty blocks can be removed. */
module GeneratedFunction {
  import opened Options
  import opened Ir
  import opened StackShape
  import opened PopPoints
  import opened Typing
  import opened Syntax
  import opened CodeGen
  import opened GeneratedCode
  import opened Generated
  import opened Generation

  // ----- every block is added -----

  ghost predicate AddedSince(st: Gen, st': Gen) {
    && |st.blocks| <= |st'.blocks|
    && (forall b: BlockId {:trigger b in st'.notes.rank} | b in st.notes.rank :: b in st'.notes.rank)
    && forall b: BlockId {:trigger b in st'.notes.rank} | |st.blocks| <= b < |st'.blocks| :: b in st'.notes.rank
  }

  lemma {:induction false} AddCodeKeepsRank(st: Gen, b: BlockId, code: seq<Insn>)
    requires b < |st.blocks|
    ensures AddCode(st, b, code).notes.rank == st.notes.rank
  {
    if code != [] { AddCodeKeepsRank(st, b, code[..|code| - 1]); }
  }

  lemma ConditionKeepsRank(st: Gen, c: Expr, cur: BlockId, no: bool)
    requires cur < |st.blocks|
    ensures GenCondition(st, c, cur, no).notes.rank == st.notes.rank
  {
    hide Defines, ExprCode, Gen.Graph, WithInsn;
    AddCodeKeepsRank(st, cur, ExprCode(c, st.allocs, st.next).code);
  }

  lemma EndKeepsRank(st: Gen, b: BlockId, join: BlockId, next: BlockId)
    requires b < |st.blocks|
    ensures EndBranch(st, b, join, next).notes.rank == st.notes.rank[next := |st.added|]
  {
  }

  lemma {:induction false} StmtAdds(st: Gen, s: Stmt, cur: BlockId)
    requires cur < |st.blocks|
    ensures AddedSince(st, GenStmt(st, s, cur).0)
    decreases s, 3
  {
    match s
    case If(_, _, _) => IfAdds(st, s, cur);
    case ReturnValue(e) => AddCodeKeepsRank(st, cur, ExprCode(e, st.allocs, st.next).code);
    case _ => AddCodeKeepsRank(st, cur, LineCode(s, st.allocs, st.next).code);
  }

  lemma {:induction false} IfAdds(st: Gen, s: Stmt, cur: BlockId)
    requires cur < |st.blocks| && s.If?
    ensures AddedSince(st, GenStmt(st, s, cur).0)
    decreases s, 2
  {
    hide GenStmt, GenYes, GenNo, EndBranch, GenCondition, GenStmts;
    if s.no.NoElse? {
      YesAdds(st, s, cur);
      IfIs(st, s, cur);
      EndKeepsRank(GenYes(st, s, cur).0, GenYes(st, s, cur).1, |st.blocks| + 1, |st.blocks| + 1);
    } else {
      NoAdds(st, s, cur);
      ElseIs(st, s, cur);
      EndKeepsRank(GenNo(st, s, cur).0, GenNo(st, s, cur).1, |st.blocks| + 2, |st.blocks| + 2);
    }
  }

  /** All new blocks but the ones behind the first branch have been added. */
  lemma {:induction false} YesAdds(st: Gen, s: Stmt, cur: BlockId)
    requires cur < |st.blocks| && s.If?
    ensures var st2, n := GenYes(st, s, cur).0, |st.blocks| + if s.no.Else? then 3 else 2;
            && (forall b: BlockId | b in st.notes.rank :: b in st2.notes.rank) && |st.blocks| in st2.notes.rank
            && forall b: BlockId | n <= b < |st2.blocks| :: b in st2.notes.rank
    decreases s, 0
  {
    var st1 := AddBlock(GenCondition(st, s.condition, cur, s.no.Else?), |st.blocks|);
    ConditionKeepsRank(st, s.condition, cur, s.no.Else?);
    StmtsAdd(st1, s.yes, |st.blocks|);
    IfIs(st, s, cur);
    assert |st.blocks| in st1.notes.rank;
  }

  lemma {:induction false} NoAdds(st: Gen, s: Stmt, cur: BlockId)
    requires cur < |st.blocks| && s.If? && s.no.Else?
    ensures var st4 := GenNo(st, s, cur).0;
            && (forall b: BlockId | b in st.notes.rank :: b in st4.notes.rank)
            && (forall b: BlockId | |st.blocks| <= b < |st4.blocks| && b != |st.blocks| + 2 :: b in st4.notes.rank)
    decreases s, 1
  {
    hide EndBranch, GenYes, GenNo, GenStmts;
    var x := GenYes(st, s, cur);
    var st3 := EndBranch(x.0, x.1, |st.blocks| + 2, |st.blocks| + 1);
    YesAdds(st, s, cur);
    NoIs(st, s, cur, x.0, x.1);
    EndKeepsRank(x.0, x.1, |st.blocks| + 2, |st.blocks| + 1);
    StmtsAdd(st3, s.no.stmts, |st.blocks| + 1);
    assert |st.blocks| + 1 in st3.notes.rank;
  }

  lemma {:induction false} StmtsAdd(st: Gen, ss: seq<Stmt>, cur: BlockId)
    requires cur < |st.blocks|
    ensures AddedSince(st, GenStmts(st, ss, cur).0)
    decreases ss
  {
    if ss != [] {
      var x := GenStmts(st, ss[..|ss| - 1], cur);
      StmtsAdd(st, ss[..|ss| - 1], cur);
      StmtAdds(x.0, ss[|ss| - 1], x.1);
    }
  }

  // ----- the start of a function -----

  function ParamCode(n: nat): seq<Insn> { seq(n, i requires 0 <= i < n => Alloc(i, None)) }

  function ParamTemps(n: nat): seq<Temp> { seq(n, i requires 0 <= i < n => i) }

  lemma {:induction false} ParamsShape(n: nat, params: nat, k: nat)
    requires k <= n <= params
    ensures ShapeTo(ParamCode(n), Shape([], params), params, k) == Some(Shape(ParamTemps(k), params - k))
  {
    if k == 0 {
      assert ParamTemps(0) == [];
    } else {
      ParamsShape(n, params, k - 1);
      assert ParamTemps(k) == ParamTemps(k - 1) + [k - 1];
      assert ParamCode(n)[k - 1] == Alloc(k - 1, None) && k - 1 !in ParamTemps(k - 1);
    }
  }

  lemma {:induction false} ParamsAllocated(n: nat)
    ensures AllocsOf(ParamCode(n)) == ParamTemps(n)
  {
    if n > 0 {
      ParamsAllocated(n - 1);
      assert ParamCode(n)[..n - 1] == ParamCode(n - 1);
      assert ParamTemps(n) == ParamTemps(n - 1) + [n - 1];
    }
  }

  predicate Different(xs: seq<Symbol>) { forall i, j | 0 <= i < j < |xs| :: xs[i] != xs[j] }

  /** The state once the parameters have been allocated. */
  ghost predicate ParamsIn(st: Gen, total: nat, params: seq<Symbol>) {
    var empty := NewFunction(total);
    && st == empty.(blocks := empty.blocks[START := Block(ParamCode(|params|), None, None)], allocs := st.allocs,
                  next := |params|, notes := empty.notes.(owner := st.notes.owner))
    && OwnedBelow(st, |params|)
    && (forall x {:trigger x in st.allocs} :: x in st.allocs <==> x in params)
    && forall i: nat | i < |params| :: params[i] in st.allocs && st.allocs[params[i]] == i
  }

  lemma OneParam(st: Gen, total: nat, params: seq<Symbol>, x: Symbol)
    requires ParamsIn(st, total, params) && x !in params
    ensures ParamsIn(AddInsn(st, START, Alloc(st.next, None)).(allocs := st.allocs[x := st.next], next := st.next + 1),
                     total, params + [x])
  {
    var n := |params|;
    var st1 := AddInsn(st, START, Alloc(n, None));
    AddInsnOwned(st, START, Alloc(n, None), n, n + 1);
    assert ParamCode(n + 1) == ParamCode(n) + [Alloc(n, None)];
    assert OwnedBelow(st1.(allocs := st.allocs[x := n], next := n + 1), n + 1);
    assert st1.blocks == NewFunction(total).blocks[START := Block(ParamCode(n + 1), None, None)];
  }

  lemma {:induction false} AddParamsIs(total: nat, params: seq<Symbol>)
    requires Different(params)
    ensures ParamsIn(AddParams(NewFunction(total), params), total, params)
  {
    if params == [] {
      var st := NewFunction(total);
      assert ParamCode(0) == [] && st.blocks[START] == Block([], None, None);
      assert st.blocks == st.blocks[START := Block(ParamCode(0), None, None)];
    } else {
      var before, x := params[..|params| - 1], params[|params| - 1];
      AddParamsIs(total, before);
      OneParam(AddParams(NewFunction(total), before), total, before, x);
      assert params == before + [x];
    }
  }

  lemma StartGood(st: Gen, params: seq<Symbol>)
    requires ParamsIn(st, |params|, params)
    ensures |st.notes.heads| == |st.blocks| == 3 && Good(st, START, START)
    ensures Now(st, START) == Shape(ParamTemps(|params|), 0)
  {
    ParamsShape(|params|, |params|, |params|);
    ParamsAllocated(|params|);
    assert [] + ParamTemps(|params|) == ParamTemps(|params|);
    assert Straight(ParamCode(|params|));
  }

  lemma StartFrame(st: Gen, params: seq<Symbol>)
    requires ParamsIn(st, |params|, params)
    ensures FrameOk(st) && OrderOk(st) && st.added == [ENTRY, START]
  {
  }

  lemma StartReady(st: Gen, params: seq<Symbol>)
    requires ParamsIn(st, |params|, params)
    ensures Generation.Ready(st, START, set x | x in params) && |st.blocks| == 3
  {
    hide Ahead, Gen.Graph, LocalsIn, Lone, Now, OpenOk, OwnedBelow, ParamCode, ShutOk, Worked;
    StartFrame(st, params);
    StartGood(st, params);
    StartTemps(st, params);
    hide FrameOk, OrderOk, Good, TempsOk;
    forall x | x in params ensures x in st.allocs && st.allocs[x] in ParamTemps(|params|) {
      var i: nat :| i < |params| && params[i] == x;
      assert ParamTemps(|params|)[i] == i;
    }
  }

  lemma StartTemps(st: Gen, params: seq<Symbol>)
    requires ParamsIn(st, |params|, params)
    ensures TempsOk(st)
  {
    forall x | x in st.allocs ensures exists i: nat :: i < |params| && params[i] == x && st.allocs[x] == i {
      var i: nat :| i < |params| && params[i] == x;
    }
  }

  /** A function that is compiled: different parameters, and a body that ends in a return on every path. */
  ghost predicate Accepted(params: seq<Symbol>, body: seq<Stmt>) {
    Different(params) && ProperAll(body, set x | x in params, false) && EndsAll(body)
  }

  lemma FunctionCompiled(params: seq<Symbol>, body: seq<Stmt>)
    requires Accepted(params, body)
    ensures var st, (r, cur) := AddParams(NewFunction(|params|), params), GenFunction(params, body);
            && Compiled(st, START, r, cur, ScopeAfterAll(body, set x | x in params), true, false)
            && AddedSince(st, r) && |st.blocks| == 3
  {
    var st := AddParams(NewFunction(|params|), params);
    AddParamsIs(|params|, params);
    StartReady(st, params);
    hide Compiled, Generation.Ready, GenStmts, AddedSince, AddParams, NewFunction;
    StmtsCompiled(st, body, START, set x | x in params, false);
    StmtsAdd(st, body, START);
  }
}
