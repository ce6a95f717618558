/**
 Variables keep their slots. Instructions consume only temporaries that other instructions have produced, never the
 allocation of a variable, so that once a variable has been allocated its value stays where it is on the stack.
 */
module Slots {
  import opened Options
  import opened Ir
  import opened StackShape
  import opened Syntax
  import opened CodeGen
  import opened GeneratedCode
  import opened Generators
  import Generation

  // ----- what instructions consume -----

  /** The temporaries that the instruction takes off the stack. */
  function Consumes(insn: Insn): seq<Temp> {
    match insn
    case Use(_, _, sources) => sources
    case Alloc(_, Some(t)) => [t]
    case Store(t, _) => [t]
    case Branch(c, _, _) => [c]
    case Return(Some(t)) => [t]
    case _ => []
  }

  predicate Produces(insn: Insn, t: Temp) { (insn.Use? || insn.Load?) && Defines(insn) == Some(t) }

  ghost predicate Produced(insns: seq<Insn>, t: Temp) {
    exists j :: 0 <= j < |insns| && Produces(insns[j], t)
  }

  /** Whatever is consumed has been produced in the same code. */
  ghost predicate Sourced(insns: seq<Insn>) {
    forall i: nat, t {:trigger t in Consumes(insns[i])} | i < |insns| && t in Consumes(insns[i]) :: Produced(insns, t)
  }

  ghost predicate Housed(insns: seq<Insn>, t: Temp) {
    exists j :: 0 <= j < |insns| && insns[j].Alloc? && insns[j].id == t
  }

  lemma ProducedInMore(a: seq<Insn>, b: seq<Insn>, t: Temp)
    requires Produced(a, t) || Produced(b, t)
    ensures Produced(a + b, t)
  {
    if Produced(a, t) {
      var j :| 0 <= j < |a| && Produces(a[j], t);
      assert (a + b)[j] == a[j];
    } else {
      var j :| 0 <= j < |b| && Produces(b[j], t);
      assert (a + b)[|a| + j] == b[j];
    }
  }

  lemma SourcedConcat(a: seq<Insn>, b: seq<Insn>)
    requires Sourced(a) && forall i: nat, t {:trigger t in Consumes(b[i])} | i < |b| && t in Consumes(b[i]) ::
             Produced(a, t) || Produced(b, t)
    ensures Sourced(a + b)
  {
    forall i: nat, t | i < |a + b| && t in Consumes((a + b)[i]) ensures Produced(a + b, t) {
      if i < |a| { assert t in Consumes(a[i]); } else { assert t in Consumes(b[i - |a|]); }
      ProducedInMore(a, b, t);
    }
  }

  /** One more instruction, whose operands are there. */
  lemma SourcedMore(code: seq<Insn>, last: Insn)
    requires Sourced(code) && forall t | t in Consumes(last) :: Produced(code, t)
    ensures Sourced(code + [last])
  {
    SourcedConcat(code, [last]);
  }

  lemma ProducedLast(code: seq<Insn>, last: Insn, t: Temp)
    requires Produces(last, t)
    ensures Produced(code + [last], t)
  {
    assert (code + [last])[|code|] == last;
  }

  // ----- expressions -----

  ghost predicate PieceSourced(code: seq<Insn>, temps: seq<Temp>) {
    Sourced(code) && Straight(code) && forall t | t in temps :: Produced(code, t)
  }

  lemma ApplySourced(code: seq<Insn>, temps: seq<Temp>, id: Temp, kind: Kind)
    requires PieceSourced(code, temps) && |temps| == Arity(kind)
    ensures PieceSourced(code + [Use(id, kind, temps)], if HasResult(kind) then [id] else [])
  {
    var last := Use(id, kind, temps);
    SourcedMore(code, last);
    StraightConcat(code, [last]);
    if HasResult(kind) { ProducedLast(code, last, id); }
  }

  lemma BothSourced(a: seq<Insn>, xs: seq<Temp>, b: seq<Insn>, ys: seq<Temp>)
    requires PieceSourced(a, xs) && PieceSourced(b, ys)
    ensures PieceSourced(a + b, xs + ys)
  {
    SourcedConcat(a, b);
    StraightConcat(a, b);
    forall t | t in xs + ys ensures Produced(a + b, t) {
      ProducedInMore(a, b, t);
    }
  }

  lemma LeafSourced(insn: Insn)
    requires (insn.Load? || (insn.Use? && Arity(insn.kind) == 0)) && Consumes(insn) == [] && Defines(insn).Some?
    ensures PieceSourced([insn], [Defines(insn).value])
  {
    ProducedLast([], insn, Defines(insn).value);
    assert [] + [insn] == [insn];
  }

  lemma {:induction false} ExprSourced(e: Expr, allocs: map<Symbol, Temp>, next: Temp)
    ensures var p := ExprCode(e, allocs, next); PieceSourced(p.code, [p.temp])
    decreases e
  {
    match e
    case Literal(json) => LeafSourced(Use(next, Constant(json), []));
    case Variable(x) => LeafSourced(Load(next, AllocOf(allocs, x)));
    case UnaryExpr(op, inner) =>
      var p := ExprCode(inner, allocs, next);
      ExprSourced(inner, allocs, next);
      ApplySourced(p.code, [p.temp], p.next, Unary(UnaryOpcode(op)));
    case BinaryExpr(op, left, right) =>
      var p := ExprCode(left, allocs, next);
      var q := ExprCode(right, allocs, p.next);
      ExprSourced(left, allocs, next);
      ExprSourced(right, allocs, p.next);
      BothSourced(p.code, [p.temp], q.code, [q.temp]);
      ApplySourced(p.code + q.code, [p.temp, q.temp], q.next, Binary(Opcode(op)));
      var both := OperatorPiece(Opcode(op), p, q);
      if op.NotEquals? { ApplySourced(both.code, [both.temp], both.next, Unary(LogicalNot)); }
    case CallExpr(f, args) =>
      var ps := ExprsCode(args, allocs, next);
      ExprsSourced(args, allocs, next);
      ApplySourced(ps.code, ps.temps, ps.next, Call(f, |args|, true));
  }

  lemma {:induction false} ExprsSourced(es: seq<Expr>, allocs: map<Symbol, Temp>, next: Temp)
    ensures var ps := ExprsCode(es, allocs, next); PieceSourced(ps.code, ps.temps)
    decreases es
  {
    if es != [] {
      var ps := ExprsCode(es[..|es| - 1], allocs, next);
      var p := ExprCode(es[|es| - 1], allocs, ps.next);
      ExprsSourced(es[..|es| - 1], allocs, next);
      ExprSourced(es[|es| - 1], allocs, ps.next);
      BothSourced(ps.code, ps.temps, p.code, [p.temp]);
    }
  }

  // ----- statements -----

  /** Every block is sourced, and every symbol has its `Alloc` instruction. */
  ghost predicate Sound(st: Gen) {
    && (forall b: BlockId {:trigger st.blocks[b]} | b < |st.blocks| :: Sourced(st.blocks[b].insns))
    && forall x {:trigger x in st.allocs} | x in st.allocs :: HasHome(st, st.allocs[x])
  }

  ghost predicate HasHome(st: Gen, t: Temp) {
    exists b: BlockId :: b < |st.blocks| && Housed(st.blocks[b].insns, t)
  }

  /** Block `cur` has gained `code`, and there may be new blocks, which are empty. */
  ghost predicate Gains(st: Gen, st': Gen, cur: BlockId, code: seq<Insn>) {
    && cur < |st.blocks| <= |st'.blocks|
    && (forall b: BlockId {:trigger st'.blocks[b]} | b < |st'.blocks| ::
          st'.blocks[b].insns ==
            if b == cur then st.blocks[b].insns + code else if b < |st.blocks| then st.blocks[b].insns else [])
    && forall x {:trigger x in st'.allocs} | x in st'.allocs ::
         (x in st.allocs && st'.allocs[x] == st.allocs[x]) || Housed(code, st'.allocs[x])
  }

  lemma HousedInMore(a: seq<Insn>, b: seq<Insn>, t: Temp)
    requires Housed(a, t) || Housed(b, t)
    ensures Housed(a + b, t)
  {
    if Housed(a, t) {
      var j :| 0 <= j < |a| && a[j].Alloc? && a[j].id == t;
      assert (a + b)[j] == a[j];
    } else {
      var j :| 0 <= j < |b| && b[j].Alloc? && b[j].id == t;
      assert (a + b)[|a| + j] == b[j];
    }
  }

  lemma GainsSound(st: Gen, st': Gen, cur: BlockId, code: seq<Insn>)
    requires Sound(st) && Gains(st, st', cur, code) && Sourced(code)
    ensures Sound(st')
  {
    SourcedConcat(st.blocks[cur].insns, code);
    forall x | x in st'.allocs ensures HasHome(st', st'.allocs[x]) {
      if x in st.allocs && st'.allocs[x] == st.allocs[x] {
        var b: BlockId :| b < |st.blocks| && Housed(st.blocks[b].insns, st.allocs[x]);
        if b == cur { HousedInMore(st.blocks[b].insns, code, st.allocs[x]); }
        assert Housed(st'.blocks[b].insns, st'.allocs[x]);
      } else {
        HousedInMore(st.blocks[cur].insns, code, st'.allocs[x]);
        assert Housed(st'.blocks[cur].insns, st'.allocs[x]);
      }
    }
  }

  lemma LineSourced(s: Stmt, allocs: map<Symbol, Temp>, next: Temp)
    requires IsPlain(s)
    ensures Sourced(LineCode(s, allocs, next).code) && Straight(LineCode(s, allocs, next).code)
  {
    match s
    case Let(x, e) =>
      var p := ExprCode(e, allocs, next);
      ExprSourced(e, allocs, next);
      SourcedMore(p.code, Alloc(p.next, Some(p.temp)));
      StraightConcat(p.code, [Alloc(p.next, Some(p.temp))]);
    case Assign(x, e) =>
      var p := ExprCode(e, allocs, next);
      ExprSourced(e, allocs, next);
      SourcedMore(p.code, Store(p.temp, AllocOf(allocs, x)));
      StraightConcat(p.code, [Store(p.temp, AllocOf(allocs, x))]);
    case AssertThat(e) =>
      var p := ExprCode(e, allocs, next);
      ExprSourced(e, allocs, next);
      ApplySourced(p.code, [p.temp], p.next, Kind.Assert);
    case Do(f, args) =>
      var ps := ExprsCode(args, allocs, next);
      ExprsSourced(args, allocs, next);
      ApplySourced(ps.code, ps.temps, ps.next, Call(f, |args|, false));
  }

  lemma PlainSound(st: Gen, s: Stmt, cur: BlockId)
    requires cur < |st.blocks| && Sound(st) && IsPlain(s)
    ensures Sound(GenStmt(st, s, cur).0)
  {
    var line := LineCode(s, st.allocs, st.next);
    LineSourced(s, st.allocs, st.next);
    AddCodeAdds(st, cur, line.code);
    if s.Let? { assert line.code[|line.code| - 1].id == line.allocs[s.symbol]; }
    GainsSound(st, GenStmt(st, s, cur).0, cur, line.code);
  }

  lemma ReturnSound(st: Gen, e: Expr, cur: BlockId)
    requires cur < |st.blocks| && Sound(st)
    ensures Sound(GenReturn(st, e, cur).0)
  {
    hide ExprCode, Sound, GenReturn, Straight;
    var p := ExprCode(e, st.allocs, st.next);
    var last := Return(Some(p.temp));
    ExprSourced(e, st.allocs, st.next);
    SourcedMore(p.code, last);
    ReturnIs(st, e, cur);
    assert st.blocks[cur].insns + (p.code + [last]) == (st.blocks[cur].insns + p.code) + [last];
    GainsSound(st, GenReturn(st, e, cur).0, cur, p.code + [last]);
  }

  lemma ConditionSound(st: Gen, c: Expr, cur: BlockId, no: bool)
    requires cur < |st.blocks| && Sound(st)
    ensures Sound(AddBlock(GenCondition(st, c, cur, no), |st.blocks|))
  {
    hide ExprCode, Sound, GenCondition, Straight;
    var p := ExprCode(c, st.allocs, st.next);
    var last := Branch(p.temp, |st.blocks|, |st.blocks| + 1);
    ExprSourced(c, st.allocs, st.next);
    SourcedMore(p.code, last);
    ConditionBlocks(st, c, cur, no);
    assert st.blocks[cur].insns + (p.code + [last]) == (st.blocks[cur].insns + p.code) + [last];
    GainsSound(st, AddBlock(GenCondition(st, c, cur, no), |st.blocks|), cur, p.code + [last]);
  }

  lemma EndSound(st: Gen, b: BlockId, join: BlockId, next: BlockId)
    requires b < |st.blocks| && Sound(st)
    ensures Sound(EndBranch(st, b, join, next))
  {
    assert st.blocks[b].insns + [] == st.blocks[b].insns;
    GainsSound(st, EndBranch(st, b, join, next), b, []);
  }

  lemma {:induction false} StmtSound(st: Gen, s: Stmt, cur: BlockId)
    requires cur < |st.blocks| && Sound(st)
    ensures Sound(GenStmt(st, s, cur).0)
    decreases s, 1
  {
    hide GenStmts, GenYes, GenNo, EndBranch, Sound;
    match s
    case If(_, _, _) => IfSound(st, s, cur);
    case ReturnValue(e) => ReturnSound(st, e, cur);
    case _ => PlainSound(st, s, cur);
  }

  lemma {:induction false} IfSound(st: Gen, s: Stmt, cur: BlockId)
    requires cur < |st.blocks| && Sound(st) && s.If?
    ensures Sound(GenStmt(st, s, cur).0)
    decreases s, 0
  {
    hide GenStmt, GenStmts, GenYes, GenNo, EndBranch, GenCondition, Sound;
    var x, yes := GenYes(st, s, cur), |st.blocks|;
    ConditionSound(st, s.condition, cur, s.no.Else?);
    Generation.IfIs(st, s, cur);
    StmtsSound(AddBlock(GenCondition(st, s.condition, cur, s.no.Else?), yes), s.yes, yes);
    if s.no.NoElse? {
      EndSound(x.0, x.1, yes + 1, yes + 1);
    } else {
      var y := GenNo(st, s, cur);
      EndSound(x.0, x.1, yes + 2, yes + 1);
      Generation.NoIs(st, s, cur, x.0, x.1);
      StmtsSound(EndBranch(x.0, x.1, yes + 2, yes + 1), s.no.stmts, yes + 1);
      EndSound(y.0, y.1, yes + 2, yes + 2);
      Generation.ElseIs(st, s, cur);
    }
  }

  lemma {:induction false} StmtsSound(st: Gen, ss: seq<Stmt>, cur: BlockId)
    requires cur < |st.blocks| && Sound(st)
    ensures Sound(GenStmts(st, ss, cur).0)
    decreases ss
  {
    if ss != [] {
      var x := GenStmts(st, ss[..|ss| - 1], cur);
      StmtsSound(st, ss[..|ss| - 1], cur);
      StmtSound(x.0, ss[|ss| - 1], x.1);
    }
  }

  lemma {:induction false} ParamsSound(total: nat, params: seq<Symbol>)
    ensures Sound(AddParams(NewFunction(total), params))
  {
    if params != [] {
      var st := AddParams(NewFunction(total), params[..|params| - 1]);
      ParamsSound(total, params[..|params| - 1]);
      var last := Alloc(st.next, None);
      assert [last][0] == last;
      GainsSound(st, AddParams(NewFunction(total), params), START, [last]);
    }
  }

  /** In the graph of a function, whatever is consumed has been produced, and every symbol has its `Alloc`. */
  lemma FunctionSound(params: seq<Symbol>, body: seq<Stmt>)
    ensures Sound(GenFunction(params, body).0)
  {
    ParamsSound(|params|, params);
    StmtsSound(AddParams(NewFunction(|params|), params), body, START);
  }
}
