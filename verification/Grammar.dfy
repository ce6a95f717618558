/** Tokens, expression trees, and the parsing of expressions as functions of the tokens and the cursor. */
module Grammar {
  import opened Options

  datatype Token =
    | Ident(name: string) | Lit(text: string)
    | Period | Comma | Colon | Semicolon | Question | Assignment | Arrow | Ellipsis
    | OpenParen | CloseParen | OpenBracket | CloseBracket | OpenBrace | CloseBrace
    | Bang | Tilde | Star | Slash | Percent | Plus | Minus | ShiftLeft | ShiftRight
    | Less | LessEqual | Greater | GreaterEqual | Equal | NotEqual | Equivalent
    | Ampersand | Caret | Bar | And | Or | Coalescer
    | KeywordIn | KeywordAsync | KeywordAwait | KeywordLet | KeywordFor | KeywordFun | KeywordEnum | KeywordInterface
    | KeywordType | KeywordReturn | KeywordIf | KeywordElse | KeywordAssert | KeywordConst | KeywordOf
    | Eof

  datatype UnaryOp = Negate | Not | Complement

  datatype BinaryOp =
    | Multiply | Divide | Modulo | Add | Subtract | LShift | RShift
    | LessThan | LessOrEqual | GreaterThan | GreaterOrEqual | Equals | NotEquals | IsEquivalent
    | BitAnd | BitXor | BitOr | In | LogicalAnd | LogicalOr | Coalesce

  datatype Expr =
    | Name(id: string)
    | Literal(value: string)
    | Member(inner: Expr, member: string)
    | Call(callee: Expr, arguments: seq<Expr>)
    | Element(base: Expr, indices: seq<Expr>)
    | UnaryExpr(uop: UnaryOp, operand: Expr)
    | BinaryExpr(bop: BinaryOp, left: Expr, right: Expr)
    | Conditional(condition: Expr, yes: Expr, no: Expr)

  // ----- precedence -----

  const PRIMARY: nat := 0
  const UNARY: nat := 1
  const IN: nat := 10
  const COALESCE: nat := 13
  const CONDITIONAL: nat := 14

  /** The levels of binary operators, tightest first. */
  function LevelOf(op: BinaryOp): (r: nat)
    ensures UNARY < r < CONDITIONAL
  {
    match op
    case Multiply => 2
    case Divide => 2
    case Modulo => 2
    case Add => 3
    case Subtract => 3
    case LShift => 4
    case RShift => 4
    case LessThan => 5
    case LessOrEqual => 5
    case GreaterThan => 5
    case GreaterOrEqual => 5
    case Equals => 6
    case NotEquals => 6
    case IsEquivalent => 6
    case BitAnd => 7
    case BitXor => 8
    case BitOr => 9
    case In => IN
    case LogicalAnd => 11
    case LogicalOr => 12
    case Coalesce => COALESCE
  }

  function UnaryOf(t: Token): Option<UnaryOp> {
    match t
    case Minus => Some(Negate)
    case Bang => Some(Not)
    case Tilde => Some(Complement)
    case _ => None
  }

  function BinaryOf(t: Token): Option<BinaryOp> {
    match t
    case Star => Some(Multiply)
    case Slash => Some(Divide)
    case Percent => Some(Modulo)
    case Plus => Some(Add)
    case Minus => Some(Subtract)
    case ShiftLeft => Some(LShift)
    case ShiftRight => Some(RShift)
    case Less => Some(LessThan)
    case LessEqual => Some(LessOrEqual)
    case Greater => Some(GreaterThan)
    case GreaterEqual => Some(GreaterOrEqual)
    case Equal => Some(Equals)
    case NotEqual => Some(NotEquals)
    case Equivalent => Some(IsEquivalent)
    case Ampersand => Some(BitAnd)
    case Caret => Some(BitXor)
    case Bar => Some(BitOr)
    case KeywordIn => Some(In)
    case And => Some(LogicalAnd)
    case Or => Some(LogicalOr)
    case Coalescer => Some(Coalesce)
    case _ => None
  }

  /** The operator of that level that the token stands for. */
  function OperatorAt(t: Token, level: nat): (r: Option<BinaryOp>)
    ensures r.Some? ==> t != Eof && LevelOf(r.value) == level
  {
    var op := BinaryOf(t);
    if op.Some? && LevelOf(op.value) == level then op else None
  }

  // ----- parsing -----

  /** A tree, an error, or a construct that is not part of this model; and where the cursor is. */
  datatype Outcome = Tree(expr: Expr, at: nat) | Broken(at: nat) | Elsewhere(at: nat)

  datatype Outcomes = Trees(exprs: seq<Expr>, at: nat) | NoTrees(failure: Outcome)

  /** Tokens end with the end of the file. */
  predicate Ended(ts: seq<Token>) { ts != [] && ts[|ts| - 1] == Eof }

  /** The scan of what may be the parameters of a lambda; a parameter with a type can be nothing else. */
  function AtParameters(ts: seq<Token>, i: nat): bool
    requires Ended(ts) && i < |ts|
    decreases |ts| - i
  {
    if ts[i].Ident? then
      if ts[i + 1] == Colon then true
      else if ts[i + 1] == Comma then AtParameters(ts, i + 2)
      else ts[i + 1] == CloseParen && ts[i + 2] == Arrow
    else ts[i] == CloseParen && ts[i + 1] == Arrow
  }

  /** Whether a lambda starts here. */
  function AtLambda(ts: seq<Token>, i: nat): bool
    requires Ended(ts) && i < |ts|
  {
    ts[i] == KeywordAsync || (ts[i] == OpenParen && AtParameters(ts, i + 1))
  }

  predicate Moves(r: Outcome, ts: seq<Token>, i: nat) {
    r.at < |ts| && i <= r.at && (r.Tree? ==> i < r.at)
  }

  function ParseExpression(ts: seq<Token>, i: nat): (r: Outcome)
    requires Ended(ts) && i < |ts|
    ensures Moves(r, ts, i)
    decreases |ts| - i, 20
  {
    if AtLambda(ts, i) then Elsewhere(i) else ParseLevel(ts, i, CONDITIONAL)
  }

  /** An expression of a level. */
  function ParseLevel(ts: seq<Token>, i: nat, level: nat): (r: Outcome)
    requires Ended(ts) && i < |ts| && level <= CONDITIONAL
    ensures Moves(r, ts, i)
    decreases |ts| - i, level + 2
  {
    if level == PRIMARY then ParsePrimary(ts, i)
    else if level == UNARY then ParseUnary(ts, i)
    else
      var first := ParseLevel(ts, i, level - 1);
      if !first.Tree? then first
      else if level == IN then InRest(ts, first.expr, first.at)
      else if level == COALESCE then CoalesceRest(ts, first.expr, first.at)
      else if level == CONDITIONAL then ConditionalRest(ts, first.expr, first.at)
      else LeftRest(ts, first.expr, first.at, level)
  }

  /** More operands of left-associative operators. */
  function LeftRest(ts: seq<Token>, left: Expr, i: nat, level: nat): (r: Outcome)
    requires Ended(ts) && i < |ts| && UNARY < level < CONDITIONAL
    ensures r.at < |ts| && i <= r.at
    decreases |ts| - i, 15
  {
    var op := OperatorAt(ts[i], level);
    if op.None? then Tree(left, i)
    else
      var right := ParseLevel(ts, i + 1, level - 1);
      if right.Tree? then LeftRest(ts, BinaryExpr(op.value, left, right.expr), right.at, level) else right
  }

  /** A second operand of `in`, of which there can be only one. */
  function InRest(ts: seq<Token>, left: Expr, i: nat): (r: Outcome)
    requires Ended(ts) && i < |ts|
    ensures r.at < |ts| && i <= r.at
    decreases |ts| - i, 15
  {
    if ts[i] != KeywordIn then Tree(left, i)
    else
      var right := ParseLevel(ts, i + 1, IN - 1);
      if right.Tree? then Tree(BinaryExpr(In, left, right.expr), right.at) else right
  }

  /** The right operand of the coalescing operator takes in all that follow. */
  function CoalesceRest(ts: seq<Token>, left: Expr, i: nat): (r: Outcome)
    requires Ended(ts) && i < |ts|
    ensures r.at < |ts| && i <= r.at
    decreases |ts| - i, 15
  {
    if ts[i] != Coalescer then Tree(left, i)
    else
      var right := ParseLevel(ts, i + 1, COALESCE);
      if right.Tree? then CoalesceRest(ts, BinaryExpr(Coalesce, left, right.expr), right.at) else right
  }

  function ConditionalRest(ts: seq<Token>, condition: Expr, i: nat): (r: Outcome)
    requires Ended(ts) && i < |ts|
    ensures r.at < |ts| && i <= r.at
    decreases |ts| - i, 15
  {
    if ts[i] != Question then Tree(condition, i)
    else
      var yes := ParseExpression(ts, i + 1);
      if !yes.Tree? then yes
      else if ts[yes.at] != Colon then Broken(yes.at)
      else
        var no := ParseExpression(ts, yes.at + 1);
        if no.Tree? then Tree(Conditional(condition, yes.expr, no.expr), no.at) else no
  }

  function ParseUnary(ts: seq<Token>, i: nat): (r: Outcome)
    requires Ended(ts) && i < |ts|
    ensures Moves(r, ts, i)
    decreases |ts| - i, 1
  {
    var op := UnaryOf(ts[i]);
    if op.None? then ParsePrimary(ts, i)
    else
      var inner := ParseUnary(ts, i + 1);
      if inner.Tree? then Tree(UnaryExpr(op.value, inner.expr), inner.at) else inner
  }

  function ParsePrimary(ts: seq<Token>, i: nat): (r: Outcome)
    requires Ended(ts) && i < |ts|
    ensures Moves(r, ts, i)
    decreases |ts| - i, 0
  {
    match ts[i]
    case Ident(name) => PostfixRest(ts, Name(name), i + 1)
    case Lit(text) => PostfixRest(ts, Literal(text), i + 1)
    case OpenParen =>
      var inner := ParseExpression(ts, i + 1);
      if !inner.Tree? then inner
      else if ts[inner.at] == CloseParen then PostfixRest(ts, inner.expr, inner.at + 1)
      else Broken(inner.at)
    case OpenBracket => Elsewhere(i)
    case OpenBrace => Elsewhere(i)
    case Ellipsis => Elsewhere(i)
    case KeywordAwait => Elsewhere(i)
    case _ => Broken(i)
  }

  /** Member accesses, calls and element accesses that follow. */
  function PostfixRest(ts: seq<Token>, inner: Expr, i: nat): (r: Outcome)
    requires Ended(ts) && i < |ts|
    ensures r.at < |ts| && i <= r.at
    decreases |ts| - i, 15
  {
    match ts[i]
    case Period => if ts[i + 1].Ident? then PostfixRest(ts, Member(inner, ts[i + 1].name), i + 2) else Broken(i + 1)
    case OpenParen =>
      if ts[i + 1] == CloseParen then PostfixRest(ts, Call(inner, []), i + 2)
      else
        (match ParseList(ts, i + 1)
         case Trees(args, j) => if ts[j] == CloseParen then PostfixRest(ts, Call(inner, args), j + 1) else Broken(j)
         case NoTrees(failure) => failure)
    case OpenBracket =>
      (match ParseList(ts, i + 1)
       case Trees(args, j) => if ts[j] == CloseBracket then PostfixRest(ts, Element(inner, args), j + 1) else Broken(j)
       case NoTrees(failure) => failure)
    case _ => Tree(inner, i)
  }

  /** Expressions with commas between them. */
  function ParseList(ts: seq<Token>, i: nat): (r: Outcomes)
    requires Ended(ts) && i < |ts|
    ensures r.Trees? ==> r.exprs != [] && i < r.at < |ts|
    ensures r.NoTrees? ==> !r.failure.Tree? && i <= r.failure.at < |ts|
    decreases |ts| - i, 21
  {
    var first := ParseExpression(ts, i);
    if !first.Tree? then NoTrees(first)
    else if ts[first.at] != Comma then Trees([first.expr], first.at)
    else
      match ParseList(ts, first.at + 1)
      case Trees(more, j) => Trees([first.expr] + more, j)
      case NoTrees(failure) => NoTrees(failure)
  }
}
