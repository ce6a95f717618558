/** The code of expressions and plain statements computes what the evaluator computes. */
module LineMeaning {
  import opened Options
  import opened Ir
  import opened Machine
  import opened Syntax
  import opened CodeGen

  // ----- straight code -----

  function PerformAll(sem: Semantics, code: seq<Insn>, s: State): Machine.Next {
    if code == [] then Continue(s)
    else match PerformAll(sem, code[..|code| - 1], s)
      case Continue(s1) => Perform(sem, code[|code| - 1], s1)
      case other => other
  }

  lemma {:induction false} PerformConcat(sem: Semantics, a: seq<Insn>, b: seq<Insn>, s: State)
    ensures PerformAll(sem, a + b, s) ==
            match PerformAll(sem, a, s)
            case Continue(s1) => PerformAll(sem, b, s1)
            case other => other
  {
    if b == [] {
      assert a + b == a;
    } else {
      PerformConcat(sem, a, b[..|b| - 1], s);
      assert (a + b)[..|a + b| - 1] == a + b[..|b| - 1];
    }
  }

  lemma PerformOne(sem: Semantics, insn: Insn, s: State)
    ensures PerformAll(sem, [insn], s) == Perform(sem, insn, s)
  {
    assert PerformAll(sem, [insn][..0], s) == Continue(s);
  }

  lemma PerformLast(sem: Semantics, code: seq<Insn>, insn: Insn, s: State)
    ensures PerformAll(sem, code + [insn], s) ==
            match PerformAll(sem, code, s)
            case Continue(s1) => Perform(sem, insn, s1)
            case other => other
  {
    assert (code + [insn])[..|code|] == code;
  }

  // ----- what is expected of a state -----

  /** The allocations of the symbols hold their values. */
  ghost predicate Holds(env: Env, allocs: map<Symbol, Temp>, s: State) {
    forall x {:trigger x in env} | x in env :: x in allocs && allocs[x] in s.temps && s.temps[allocs[x]] == env[x]
  }

  ghost predicate SameTemp(s: State, s': State, t: Temp) {
    (t in s'.temps <==> t in s.temps) && (t in s.temps ==> s'.temps[t] == s.temps[t])
  }

  /** Nothing below `next` has changed. */
  ghost predicate Preserves(s: State, s': State, next: Temp) {
    s'.pending == s.pending && forall t: Temp {:trigger SameTemp(s, s', t)} | t < next :: SameTemp(s, s', t)
  }

  lemma PreservesTransitive(a: State, b: State, c: State, lo: Temp, hi: Temp)
    requires Preserves(a, b, lo) && Preserves(b, c, hi) && lo <= hi
    ensures Preserves(a, c, lo)
  {
    forall t: Temp | t < lo ensures SameTemp(a, c, t) {
      assert SameTemp(a, b, t) && SameTemp(b, c, t);
    }
  }

  ghost predicate AllBelow(allocs: map<Symbol, Temp>, next: Temp) {
    forall x {:trigger x in allocs} | x in allocs :: allocs[x] < next
  }

  lemma HoldsStill(env: Env, allocs: map<Symbol, Temp>, s: State, s': State, next: Temp)
    requires Holds(env, allocs, s) && Preserves(s, s', next) && AllBelow(allocs, next)
    ensures Holds(env, allocs, s')
  {
    forall x | x in env ensures x in allocs && allocs[x] in s'.temps && s'.temps[allocs[x]] == env[x] {
      assert SameTemp(s, s', allocs[x]);
    }
  }

  // ----- expressions -----

  /** What running the code of an expression must come to: the value in `temp`, or a fault. */
  ghost predicate Computes(sem: Semantics, code: seq<Insn>, temp: Temp, s: State, next: Temp, reply: Reply, s': State) {
    match reply
    case Reply(v, h) =>
      && PerformAll(sem, code, s) == Continue(s') && s'.history == h && temp in s'.temps && s'.temps[temp] == v
      && Preserves(s, s', next)
    case Fault(h) => PerformAll(sem, code, s) == Stop(Faulted(s')) && s'.history == h && Preserves(s, s', next)
  }

  ghost predicate ComputesAll(
      sem: Semantics, code: seq<Insn>, temps: seq<Temp>, s: State, next: Temp, reply: Values, s': State)
  {
    match reply
    case Values(vs, h) =>
      && PerformAll(sem, code, s) == Continue(s') && s'.history == h && |vs| == |temps|
      && (forall i | 0 <= i < |temps| :: temps[i] in s'.temps && s'.temps[temps[i]] == vs[i])
      && Preserves(s, s', next)
    case Failed(h) => PerformAll(sem, code, s) == Stop(Faulted(s')) && s'.history == h && Preserves(s, s', next)
  }

  /** An instruction applied to operands that have been computed. */
  lemma Applies(
      sem: Semantics, code: seq<Insn>, temps: seq<Temp>, s: State, next: Temp, vs: seq<Value>, h: History, s1: State,
      id: Temp, kind: Kind) returns (s': State)
    requires ComputesAll(sem, code, temps, s, next, Values(vs, h), s1) && next <= id && HasResult(kind)
    ensures Computes(sem, code + [Use(id, kind, temps)], id, s, next, sem(kind, vs, h), s')
  {
    PerformLast(sem, code, Use(id, kind, temps), s);
    assert GetAll(s1, temps) == vs;
    match sem(kind, vs, h)
    case Reply(v, h1) =>
      s' := Put(s1, id, v).(history := h1);
      forall t: Temp | t < next ensures SameTemp(s, s', t) { assert SameTemp(s, s1, t); }
    case Fault(h1) =>
      s' := s1.(history := h1);
      forall t: Temp | t < next ensures SameTemp(s, s', t) { assert SameTemp(s, s1, t); }
  }

  lemma Stops(
      sem: Semantics, code: seq<Insn>, more: seq<Insn>, s: State, s': State)
    requires PerformAll(sem, code, s) == Stop(Faulted(s'))
    ensures PerformAll(sem, code + more, s) == Stop(Faulted(s'))
  {
    PerformConcat(sem, code, more, s);
  }

  function ApplyUnary(sem: Semantics, op: UnaryOp, reply: Reply): Reply {
    match reply
    case Reply(v, h) => sem(Unary(op), [v], h)
    case Fault(h) => Fault(h)
  }

  lemma UnaryComputes(sem: Semantics, op: UnaryOp, p: Piece, s: State, next: Temp, reply: Reply, s1: State)
    returns (s': State)
    requires Computes(sem, p.code, p.temp, s, next, reply, s1) && next <= p.next
    ensures Computes(sem, UnaryPiece(op, p).code, UnaryPiece(op, p).temp, s, next, ApplyUnary(sem, op, reply), s')
  {
    match reply
    case Reply(v, h) => s' := Applies(sem, p.code, [p.temp], s, next, [v], h, s1, p.next, Unary(op));
    case Fault(h) =>
      s' := s1;
      Stops(sem, p.code, [Use(p.next, Unary(op), [p.temp])], s, s1);
  }

  /** The second operand, behind the first. */
  lemma BothCompute(
      sem: Semantics, p: Piece, q: Piece, s: State, next: Temp, v: Value, h: History, s1: State, w: Value, k: History,
      s2: State)
    requires Computes(sem, p.code, p.temp, s, next, Reply(v, h), s1) && next <= p.temp < p.next
    requires Computes(sem, q.code, q.temp, s1, p.next, Reply(w, k), s2)
    ensures ComputesAll(sem, p.code + q.code, [p.temp, q.temp], s, next, Values([v, w], k), s2)
  {
    PerformConcat(sem, p.code, q.code, s);
    PreservesTransitive(s, s1, s2, next, p.next);
    assert SameTemp(s1, s2, p.temp);
  }

  lemma OperatorComputes(
      sem: Semantics, op: BinaryOp, p: Piece, q: Piece, s: State, next: Temp, v: Value, h: History, s1: State,
      second: Reply, s2: State) returns (s': State)
    requires Computes(sem, p.code, p.temp, s, next, Reply(v, h), s1) && next <= p.temp < p.next <= q.next
    requires Computes(sem, q.code, q.temp, s1, p.next, second, s2)
    ensures var r := OperatorPiece(op, p, q);
            Computes(sem, r.code, r.temp, s, next,
                     match second case Reply(w, k) => sem(Binary(op), [v, w], k) case Fault(k) => Fault(k), s')
  {
    match second
    case Reply(w, k) =>
      BothCompute(sem, p, q, s, next, v, h, s1, w, k, s2);
      s' := Applies(sem, p.code + q.code, [p.temp, q.temp], s, next, [v, w], k, s2, q.next, Binary(op));
    case Fault(k) =>
      s' := s2;
      PerformConcat(sem, p.code, q.code, s);
      PreservesTransitive(s, s1, s2, next, p.next);
      Stops(sem, p.code + q.code, [Use(q.next, Binary(op), [p.temp, q.temp])], s, s2);
  }

  /** The first operand faults. */
  lemma FirstFaults(sem: Semantics, op: BinaryOp, p: Piece, q: Piece, s: State, next: Temp, h: History, s1: State)
    requires Computes(sem, p.code, p.temp, s, next, Fault(h), s1)
    ensures var r := OperatorPiece(op, p, q); Computes(sem, r.code, r.temp, s, next, Fault(h), s1)
  {
    var last := [Use(q.next, Binary(op), [p.temp, q.temp])];
    Stops(sem, p.code, q.code, s, s1);
    Stops(sem, p.code + q.code, last, s, s1);
  }

  /** What an expression is compiled in: a scope whose symbols hold their values. */
  ghost predicate Within(env: Env, allocs: map<Symbol, Temp>, next: Temp, s: State) {
    Holds(env, allocs, s) && AllBelow(allocs, next)
  }

  lemma WithinStill(env: Env, allocs: map<Symbol, Temp>, next: Temp, s: State, s': State, hi: Temp)
    requires Within(env, allocs, next, s) && Preserves(s, s', next) && next <= hi
    ensures Within(env, allocs, hi, s')
  {
    HoldsStill(env, allocs, s, s', next);
  }

  lemma VariableComputes(
      sem: Semantics, x: Symbol, allocs: map<Symbol, Temp>, env: Env, next: Temp, s: State)
    returns (s': State)
    requires Within(env, allocs, next, s) && x in env
    ensures Computes(sem, [Load(next, AllocOf(allocs, x))], next, s, next, Reply(env[x], s.history), s')
  {
    PerformOne(sem, Load(next, AllocOf(allocs, x)), s);
    s' := Put(s, next, env[x]);
    assert Get(s, allocs[x]) == env[x];
    forall t: Temp | t < next ensures SameTemp(s, s', t) {
    }
  }

  lemma LiteralComputes(sem: Semantics, json: string, next: Temp, s: State) returns (s': State)
    ensures Computes(sem, [Use(next, Constant(json), [])], next, s, next, sem(Constant(json), [], s.history), s')
  {
    forall t: Temp | t < next ensures SameTemp(s, s, t) {
    }
    assert ComputesAll(sem, [], [], s, next, Values([], s.history), s);
    s' := Applies(sem, [], [], s, next, [], s.history, s, next, Constant(json));
    assert [] + [Use(next, Constant(json), [])] == [Use(next, Constant(json), [])];
  }

  /** The code of an expression computes its value, or faults when the expression does, with the same history. */
  lemma {:induction false} ExprComputes(
      sem: Semantics, e: Expr, allocs: map<Symbol, Temp>, env: Env, next: Temp, s: State) returns (s': State)
    requires Within(env, allocs, next, s) && Uses(e, env.Keys)
    ensures var p := ExprCode(e, allocs, next);
            Computes(sem, p.code, p.temp, s, next, Eval(sem, e, env, s.history), s')
    decreases e
  {
    match e
    case Literal(json) => s' := LiteralComputes(sem, json, next, s);
    case Variable(x) => s' := VariableComputes(sem, x, allocs, env, next, s);
    case UnaryExpr(op, inner) =>
      var s1 := ExprComputes(sem, inner, allocs, env, next, s);
      s' := UnaryComputes(sem, UnaryOpcode(op), ExprCode(inner, allocs, next), s, next,
        Eval(sem, inner, env, s.history), s1);
    case BinaryExpr(_, _, _) => s' := BinaryComputes(sem, e, allocs, env, next, s);
    case CallExpr(f, args) =>
      var ps := ExprsCode(args, allocs, next);
      s' := ExprsCompute(sem, args, allocs, env, next, s);
      match EvalAll(sem, args, env, s.history)
      case Values(vs, h) => s' := Applies(sem, ps.code, ps.temps, s, next, vs, h, s', ps.next, Call(f, |args|, true));
      case Failed(h) => Stops(sem, ps.code, [Use(ps.next, Call(f, |args|, true), ps.temps)], s, s');
  }

  lemma {:induction false} BinaryComputes(
      sem: Semantics, e: Expr, allocs: map<Symbol, Temp>, env: Env, next: Temp, s: State) returns (s': State)
    requires Within(env, allocs, next, s) && Uses(e, env.Keys) && e.BinaryExpr?
    ensures var p := ExprCode(e, allocs, next);
            Computes(sem, p.code, p.temp, s, next, Eval(sem, e, env, s.history), s')
    decreases e, 0
  {
    var p := ExprCode(e.left, allocs, next);
    var q := ExprCode(e.right, allocs, p.next);
    var op := Opcode(e.bop);
    var first := Eval(sem, e.left, env, s.history);
    var s1 := ExprComputes(sem, e.left, allocs, env, next, s);
    var both: Reply;
    match first {
      case Reply(v, h) =>
        WithinStill(env, allocs, next, s, s1, p.next);
        var second := Eval(sem, e.right, env, h);
        var s2 := ExprComputes(sem, e.right, allocs, env, p.next, s1);
        s' := OperatorComputes(sem, op, p, q, s, next, v, h, s1, second, s2);
        both := match second case Reply(w, k) => sem(Binary(op), [v, w], k) case Fault(k) => Fault(k);
      case Fault(h) =>
        FirstFaults(sem, op, p, q, s, next, h, s1);
        s', both := s1, Fault(h);
    }
    if e.bop.NotEquals? {
      s' := UnaryComputes(sem, LogicalNot, OperatorPiece(op, p, q), s, next, both, s');
    }
  }

  lemma {:induction false} ExprsCompute(
      sem: Semantics, es: seq<Expr>, allocs: map<Symbol, Temp>, env: Env, next: Temp, s: State) returns (s': State)
    requires Within(env, allocs, next, s) && forall e | e in es :: Uses(e, env.Keys)
    ensures var ps := ExprsCode(es, allocs, next);
            ComputesAll(sem, ps.code, ps.temps, s, next, EvalAll(sem, es, env, s.history), s')
    decreases es
  {
    if es == [] {
      s' := s;
      forall t: Temp | t < next ensures SameTemp(s, s, t) {
      }
    } else {
      var before, last := es[..|es| - 1], es[|es| - 1];
      var ps := ExprsCode(before, allocs, next);
      var s1 := ExprsCompute(sem, before, allocs, env, next, s);
      match EvalAll(sem, before, env, s.history) {
        case Values(vs, h) =>
          WithinStill(env, allocs, next, s, s1, ps.next);
          var s2 := ExprComputes(sem, last, allocs, env, ps.next, s1);
          OneMore(sem, ps, ExprCode(last, allocs, ps.next), s, next, vs, h, s1, Eval(sem, last, env, h), s2);
          s' := s2;
        case Failed(h) =>
          Stops(sem, ps.code, ExprCode(last, allocs, ps.next).code, s, s1);
          s' := s1;
      }
    }
  }

  /** One more argument. */
  lemma OneMore(
      sem: Semantics, ps: Pieces, p: Piece, s: State, next: Temp, vs: seq<Value>, h: History, s1: State, reply: Reply,
      s2: State)
    requires ComputesAll(sem, ps.code, ps.temps, s, next, Values(vs, h), s1) && next <= ps.next
    requires forall t | t in ps.temps :: t < ps.next
    requires Computes(sem, p.code, p.temp, s1, ps.next, reply, s2)
    ensures ComputesAll(sem, ps.code + p.code, ps.temps + [p.temp], s, next,
                        match reply case Reply(v, k) => Values(vs + [v], k) case Fault(k) => Failed(k), s2)
  {
    PerformConcat(sem, ps.code, p.code, s);
    PreservesTransitive(s, s1, s2, next, ps.next);
    forall i | 0 <= i < |ps.temps| && reply.Reply? ensures ps.temps[i] in s2.temps && s2.temps[ps.temps[i]] == vs[i] {
      assert ps.temps[i] in ps.temps && SameTemp(s1, s2, ps.temps[i]);
    }
  }

  // ----- plain statements -----

  ghost predicate Apart(allocs: map<Symbol, Temp>) {
    forall x, y {:trigger allocs[x], allocs[y]} | x in allocs && y in allocs && x != y :: allocs[x] != allocs[y]
  }

  /** What running the code of a statement must come to. */
  ghost predicate Acts(sem: Semantics, line: Line, s: State, done: Done, s': State) {
    s'.pending == s.pending &&
    match done
    case Next(env, h) => PerformAll(sem, line.code, s) == Continue(s') && s'.history == h && Holds(env, line.allocs, s')
    case Fails(env, h) => PerformAll(sem, line.code, s) == Stop(Faulted(s')) && s'.history == h
      && Holds(env, line.allocs, s')
    case Result(_, _, _) => false
  }

  /** An instruction that leaves no result. */
  lemma EffectActs(
      sem: Semantics, code: seq<Insn>, temps: seq<Temp>, s: State, next: Temp, vs: seq<Value>, h: History, s1: State,
      id: Temp, kind: Kind, env: Env, allocs: map<Symbol, Temp>) returns (s': State)
    requires ComputesAll(sem, code, temps, s, next, Values(vs, h), s1) && !HasResult(kind)
             && Within(env, allocs, next, s)
    ensures Acts(sem, Line(code + [Use(id, kind, temps)], allocs, id + 1), s,
                 match sem(kind, vs, h) case Reply(_, k) => Done.Next(env, k) case Fault(k) => Fails(env, k), s')
  {
    PerformLast(sem, code, Use(id, kind, temps), s);
    assert GetAll(s1, temps) == vs;
    HoldsStill(env, allocs, s, s1, next);
    match sem(kind, vs, h)
    case Reply(_, k) => s' := s1.(history := k);
    case Fault(k) => s' := s1.(history := k);
  }

  lemma LetActs(
      sem: Semantics, x: Symbol, p: Piece, s: State, next: Temp, reply: Reply, s1: State, env: Env, allocs: map<Symbol,
      Temp>)
    returns (s': State)
    requires Computes(sem, p.code, p.temp, s, next, reply, s1) && Within(env, allocs, next, s) && next <= p.next
             && x !in env
    ensures Acts(sem, Line(p.code + [Alloc(p.next, Some(p.temp))], allocs[x := p.next], p.next + 1), s,
                 match reply case Reply(v, k) => Done.Next(env[x := v], k) case Fault(k) => Fails(env, k), s')
  {
    PerformLast(sem, p.code, Alloc(p.next, Some(p.temp)), s);
    HoldsStill(env, allocs, s, s1, next);
    match reply
    case Reply(v, k) => s' := Put(s1, p.next, v);
    case Fault(k) => s' := s1;
  }

  lemma AssignActs(
      sem: Semantics, x: Symbol, p: Piece, s: State, next: Temp, reply: Reply, s1: State, env: Env, allocs: map<Symbol,
      Temp>)
    returns (s': State)
    requires Computes(sem, p.code, p.temp, s, next, reply, s1) && Within(env, allocs, next, s) && Apart(allocs)
             && x in env
    ensures Acts(sem, Line(p.code + [Store(p.temp, AllocOf(allocs, x))], allocs, p.next), s,
                 match reply case Reply(v, k) => Done.Next(env[x := v], k) case Fault(k) => Fails(env, k), s')
  {
    PerformLast(sem, p.code, Store(p.temp, AllocOf(allocs, x)), s);
    HoldsStill(env, allocs, s, s1, next);
    match reply
    case Reply(v, k) => s' := Put(s1, allocs[x], v);
    case Fault(k) => s' := s1;
  }

  /** The code of a plain statement does what the statement does. */
  lemma LineActs(
      sem: Semantics, stmt: Stmt, scope: set<Symbol>, branch: bool, allocs: map<Symbol, Temp>, env: Env, next: Temp,
      s: State)
    returns (s': State)
    requires IsPlain(stmt) && Proper(stmt, scope, branch) && scope == env.Keys && Within(env, allocs, next, s)
             && Apart(allocs)
    ensures Acts(sem, LineCode(stmt, allocs, next), s, Exec(sem, stmt, env, s.history), s')
  {
    match stmt
    case Let(x, e) =>
      var s1 := ExprComputes(sem, e, allocs, env, next, s);
      s' := LetActs(sem, x, ExprCode(e, allocs, next), s, next, Eval(sem, e, env, s.history), s1, env, allocs);
    case Assign(x, e) =>
      var s1 := ExprComputes(sem, e, allocs, env, next, s);
      s' := AssignActs(sem, x, ExprCode(e, allocs, next), s, next, Eval(sem, e, env, s.history), s1, env, allocs);
    case AssertThat(e) => s' := AssertActs(sem, e, allocs, env, next, s);
    case Do(f, args) => s' := DoActs(sem, f, args, allocs, env, next, s);
  }

  lemma AssertActs(
      sem: Semantics, e: Expr, allocs: map<Symbol, Temp>, env: Env, next: Temp, s: State)
    returns (s': State)
    requires Within(env, allocs, next, s) && Uses(e, env.Keys)
    ensures Acts(sem, LineCode(AssertThat(e), allocs, next), s, Exec(sem, AssertThat(e), env, s.history), s')
  {
    hide AllBelow, ComputesAll, Eval, EvalAll, ExecAll, ExprCode, ExprsCode, Holds, PerformAll, Uses;
    var p := ExprCode(e, allocs, next);
    s' := ExprComputes(sem, e, allocs, env, next, s);
    HoldsStill(env, allocs, s, s', next);
    match Eval(sem, e, env, s.history)
    case Reply(v, h) => s' := EffectActs(sem, p.code, [p.temp], s, next, [v], h, s', p.next, Kind.Assert, env, allocs);
    case Fault(h) => Stops(sem, p.code, [Use(p.next, Kind.Assert, [p.temp])], s, s');
  }

  lemma DoActs(
      sem: Semantics, f: nat, args: seq<Expr>, allocs: map<Symbol, Temp>, env: Env, next: Temp, s: State)
    returns (s': State)
    requires Within(env, allocs, next, s) && forall a | a in args :: Uses(a, env.Keys)
    ensures Acts(sem, LineCode(Do(f, args), allocs, next), s, Exec(sem, Do(f, args), env, s.history), s')
  {
    var ps, kind := ExprsCode(args, allocs, next), Call(f, |args|, false);
    s' := ExprsCompute(sem, args, allocs, env, next, s);
    HoldsStill(env, allocs, s, s', next);
    match EvalAll(sem, args, env, s.history)
    case Values(vs, h) => s' := EffectActs(sem, ps.code, ps.temps, s, next, vs, h, s', ps.next, kind, env, allocs);
    case Failed(h) => Stops(sem, ps.code, [Use(ps.next, kind, ps.temps)], s, s');
  }
}
