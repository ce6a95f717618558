/** The part of the language that is compiled here, and what it means. */
module Syntax {
  import opened Ir
  import opened Machine

  type Symbol = nat

  /** Binary operators other than the coalescing operator. */
  datatype BinaryOperator =
    | Plus | Minus | Multiply | Divide | Exponent | Modulo
    | AndBits | OrBits | XorBits | ShiftLeft | ShiftRight
    | And | Or
    | Less | LessOrEqual | Equals | NotEquals | Equivalent | Greater | GreaterOrEqual | IsIn

  datatype UnaryOperator = NotBits | Not | Minus1

  /** Names are resolved: a variable is the symbol it stands for, a callee is a function without captures. */
  datatype Expr =
    | Literal(json: string)
    | Variable(symbol: Symbol)
    | UnaryExpr(uop: UnaryOperator, inner: Expr)
    | BinaryExpr(bop: BinaryOperator, left: Expr, right: Expr)
    | CallExpr(callee: nat, arguments: seq<Expr>)

  datatype Stmt =
    | Let(symbol: Symbol, initializer: Expr)
    | Assign(symbol: Symbol, rhs: Expr)
    | AssertThat(condition: Expr)
    | Do(callee: nat, arguments: seq<Expr>)
    | If(condition: Expr, yes: seq<Stmt>, no: Alternative)
    | ReturnValue(result: Expr)

  datatype Alternative = NoElse | Else(stmts: seq<Stmt>)

  /** The instruction for an operator. `!=` has none; it is the negation of `==`. */
  function Opcode(op: BinaryOperator): BinaryOp {
    match op
    case Plus => Add
    case Minus => Sub
    case Multiply => Mul
    case Divide => Div
    case Exponent => Pow
    case Modulo => Mod
    case AndBits => BitAnd
    case OrBits => BitOr
    case XorBits => BitXor
    case ShiftLeft => LeftShift
    case ShiftRight => RightShift
    case And => LogicalAnd
    case Or => LogicalOr
    case Less => LessThan
    case LessOrEqual => LessThanEqual
    case Equals => Equal
    case NotEquals => Equal
    case Equivalent => Equal
    case Greater => GreaterThan
    case GreaterOrEqual => GreaterThanEqual
    case IsIn => In
  }

  function UnaryOpcode(op: UnaryOperator): UnaryOp {
    match op
    case NotBits => BitNot
    case Not => LogicalNot
    case Minus1 => Negate
  }

  // ----- what expressions mean -----

  type Env = map<Symbol, Value>

  function Lookup(env: Env, x: Symbol): Value {
    if x in env then env[x] else NullValue
  }

  datatype Values = Values(values: seq<Value>, history: History) | Failed(history: History)

  /** The value of an expression; operands are evaluated from left to right, and all of them. */
  function Eval(sem: Semantics, e: Expr, env: Env, h: History): Reply
    decreases e
  {
    match e
    case Literal(json) => sem(Constant(json), [], h)
    case Variable(x) => Reply(Lookup(env, x), h)
    case UnaryExpr(op, inner) =>
      (match Eval(sem, inner, env, h)
       case Reply(v, h1) => sem(Unary(UnaryOpcode(op)), [v], h1)
       case Fault(h1) => Fault(h1))
    case BinaryExpr(op, left, right) =>
      (match Eval(sem, left, env, h)
       case Reply(v, h1) =>
         (match Eval(sem, right, env, h1)
          case Reply(w, h2) => ApplyBinary(sem, op, v, w, h2)
          case Fault(h2) => Fault(h2))
       case Fault(h1) => Fault(h1))
    case CallExpr(f, args) =>
      (match EvalAll(sem, args, env, h)
       case Values(vs, h1) => sem(Call(f, |args|, true), vs, h1)
       case Failed(h1) => Fault(h1))
  }

  function ApplyBinary(sem: Semantics, op: BinaryOperator, v: Value, w: Value, h: History): Reply {
    match sem(Binary(Opcode(op)), [v, w], h)
    case Reply(r, h1) => if op.NotEquals? then sem(Unary(LogicalNot), [r], h1) else Reply(r, h1)
    case Fault(h1) => Fault(h1)
  }

  function EvalAll(sem: Semantics, es: seq<Expr>, env: Env, h: History): (r: Values)
    ensures r.Values? ==> |r.values| == |es|
    decreases es
  {
    if es == [] then Values([], h)
    else match EvalAll(sem, es[..|es| - 1], env, h)
      case Failed(h1) => Failed(h1)
      case Values(vs, h1) =>
        match Eval(sem, es[|es| - 1], env, h1)
        case Reply(v, h2) => Values(vs + [v], h2)
        case Fault(h2) => Failed(h2)
  }

  // ----- what statements mean -----

  datatype Done = Next(env: Env, history: History) | Result(value: Value, env: Env, history: History) | Fails(env: Env,
    history: History)

  function Exec(sem: Semantics, s: Stmt, env: Env, h: History): Done
    decreases s
  {
    match s
    case Let(x, e) =>
      (match Eval(sem, e, env, h)
       case Reply(v, h1) => Next(env[x := v], h1)
       case Fault(h1) => Fails(env, h1))
    case Assign(x, e) =>
      (match Eval(sem, e, env, h)
       case Reply(v, h1) => Next(env[x := v], h1)
       case Fault(h1) => Fails(env, h1))
    case AssertThat(e) =>
      (match Eval(sem, e, env, h)
       case Reply(v, h1) =>
         (match sem(Assert, [v], h1)
          case Reply(_, h2) => Next(env, h2)
          case Fault(h2) => Fails(env, h2))
       case Fault(h1) => Fails(env, h1))
    case Do(f, args) =>
      (match EvalAll(sem, args, env, h)
       case Values(vs, h1) =>
         (match sem(Call(f, |args|, false), vs, h1)
          case Reply(_, h2) => Next(env, h2)
          case Fault(h2) => Fails(env, h2))
       case Failed(h1) => Fails(env, h1))
    case If(c, yes, no) =>
      (match Eval(sem, c, env, h)
       case Reply(BoolValue(true), h1) => ExecAll(sem, yes, env, h1)
       case Reply(BoolValue(false), h1) => if no.Else? then ExecAll(sem, no.stmts, env, h1) else Next(env, h1)
       case Reply(_, h1) => Fails(env, h1)
       case Fault(h1) => Fails(env, h1))
    case ReturnValue(e) =>
      (match Eval(sem, e, env, h)
       case Reply(v, h1) => Result(v, env, h1)
       case Fault(h1) => Fails(env, h1))
  }

  function ExecAll(sem: Semantics, ss: seq<Stmt>, env: Env, h: History): Done
    decreases ss
  {
    if ss == [] then Next(env, h)
    else match ExecAll(sem, ss[..|ss| - 1], env, h)
      case Next(env1, h1) => Exec(sem, ss[|ss| - 1], env1, h1)
      case done => done
  }

  // ----- the bodies considered -----

  predicate Uses(e: Expr, scope: set<Symbol>)
    decreases e
  {
    match e
    case Literal(_) => true
    case Variable(x) => x in scope
    case UnaryExpr(_, inner) => Uses(inner, scope)
    case BinaryExpr(_, left, right) => Uses(left, scope) && Uses(right, scope)
    case CallExpr(_, args) => forall a | a in args :: Uses(a, scope)
  }

  /** The symbols in scope behind a statement. */
  function ScopeAfter(s: Stmt, scope: set<Symbol>): set<Symbol> {
    if s.Let? then scope + {s.symbol} else scope
  }

  function ScopeAfterAll(ss: seq<Stmt>, scope: set<Symbol>): set<Symbol> {
    if ss == [] then scope else ScopeAfter(ss[|ss| - 1], ScopeAfterAll(ss[..|ss| - 1], scope))
  }

  /** Control does not get past the statement. */
  predicate Ends(s: Stmt)
    decreases s
  {
    match s
    case ReturnValue(_) => true
    case If(_, yes, Else(no)) => EndsAll(yes) && EndsAll(no)
    case _ => false
  }

  predicate EndsAll(ss: seq<Stmt>)
    decreases ss
  {
    ss != [] && Ends(ss[|ss| - 1])
  }

  /**
   Variables are used within their scope and declared once, locals are declared outside of branches, branches are not
   empty, and nothing follows where control does not get.
   */
  predicate Proper(s: Stmt, scope: set<Symbol>, branch: bool)
    decreases s
  {
    match s
    case Let(x, e) => Uses(e, scope) && x !in scope && !branch
    case Assign(x, e) => Uses(e, scope) && x in scope
    case AssertThat(e) => Uses(e, scope)
    case Do(_, args) => forall a | a in args :: Uses(a, scope)
    case If(c, yes, no) =>
      && Uses(c, scope) && yes != [] && ProperAll(yes, scope, true)
      && (no.Else? ==> no.stmts != [] && ProperAll(no.stmts, scope, true))
    case ReturnValue(e) => Uses(e, scope)
  }

  predicate ProperAll(ss: seq<Stmt>, scope: set<Symbol>, branch: bool)
    decreases ss
  {
    ss == [] ||
    (var before, last := ss[..|ss| - 1], ss[|ss| - 1];
     ProperAll(before, scope, branch) && !EndsAll(before) && Proper(last, ScopeAfterAll(before, scope), branch))
  }
}
