/** Expressions that are printed with as few parentheses as possible are parsed back. */
module RoundTrip {
  import opened Options
  import opened Grammar

  // ----- printing -----

  function UnaryToken(op: UnaryOp): Token {
    match op
    case Negate => Minus
    case Not => Bang
    case Complement => Tilde
  }

  function BinaryToken(op: BinaryOp): Token {
    match op
    case Multiply => Star
    case Divide => Slash
    case Modulo => Percent
    case Add => Plus
    case Subtract => Minus
    case LShift => ShiftLeft
    case RShift => ShiftRight
    case LessThan => Less
    case LessOrEqual => LessEqual
    case GreaterThan => Greater
    case GreaterOrEqual => GreaterEqual
    case Equals => Equal
    case NotEquals => NotEqual
    case IsEquivalent => Equivalent
    case BitAnd => Ampersand
    case BitXor => Caret
    case BitOr => Bar
    case In => KeywordIn
    case LogicalAnd => And
    case LogicalOr => Or
    case Coalesce => Coalescer
  }

  function Level(e: Expr): (r: nat)
    ensures r <= CONDITIONAL
  {
    match e
    case UnaryExpr(_, _) => UNARY
    case BinaryExpr(op, _, _) => LevelOf(op)
    case Conditional(_, _, _) => CONDITIONAL
    case _ => PRIMARY
  }

  /** The levels at which operands need no parentheses. */
  function LeftLevel(op: BinaryOp): nat {
    if op == In || op == Coalesce then LevelOf(op) - 1 else LevelOf(op)
  }

  function RightLevel(op: BinaryOp): nat {
    if op == Coalesce then LevelOf(op) else LevelOf(op) - 1
  }

  /** Every element access has an index. */
  predicate Complete(e: Expr)
    decreases e
  {
    match e
    case Name(_) => true
    case Literal(_) => true
    case Member(inner, _) => Complete(inner)
    case Call(f, args) => Complete(f) && forall a | a in args :: Complete(a)
    case Element(x, args) => Complete(x) && args != [] && forall a | a in args :: Complete(a)
    case UnaryExpr(_, x) => Complete(x)
    case BinaryExpr(_, x, y) => Complete(x) && Complete(y)
    case Conditional(c, x, y) => Complete(c) && Complete(x) && Complete(y)
  }

  /** The tokens of an expression, where one of a level up to `level` is expected. */
  function Print(e: Expr, level: nat): (r: seq<Token>)
    ensures r != []
    decreases e, 1
  {
    if Level(e) <= level then Bare(e) else [OpenParen] + Bare(e) + [CloseParen]
  }

  function Bare(e: Expr): (r: seq<Token>)
    ensures r != []
    decreases e, 0
  {
    match e
    case Name(id) => [Ident(id)]
    case Literal(text) => [Lit(text)]
    case Member(inner, name) => Print(inner, PRIMARY) + [Period, Ident(name)]
    case Call(f, args) => Print(f, PRIMARY) + [OpenParen] + PrintList(args) + [CloseParen]
    case Element(x, args) => Print(x, PRIMARY) + [OpenBracket] + PrintList(args) + [CloseBracket]
    case UnaryExpr(op, x) => [UnaryToken(op)] + Print(x, UNARY)
    case BinaryExpr(op, x, y) => Print(x, LeftLevel(op)) + [BinaryToken(op)] + Print(y, RightLevel(op))
    case Conditional(c, x, y) =>
      Print(c, COALESCE) + [Question] + Print(x, CONDITIONAL) + [Colon] + Print(y, CONDITIONAL)
  }

  function PrintList(es: seq<Expr>): (r: seq<Token>)
    ensures es != [] ==> r != []
    decreases es, 2
  {
    if es == [] then []
    else if |es| == 1 then Print(es[0], CONDITIONAL)
    else Print(es[0], CONDITIONAL) + [Comma] + PrintList(es[1..])
  }

  // ----- where printed expressions are found -----

  /** The tokens from `i` on start with those of `p`. */
  predicate Found(ts: seq<Token>, i: nat, p: seq<Token>) {
    i + |p| <= |ts| && ts[i..i + |p|] == p
  }

  lemma FoundParts(ts: seq<Token>, i: nat, p: seq<Token>, q: seq<Token>)
    requires Found(ts, i, p + q)
    ensures Found(ts, i, p) && Found(ts, i + |p|, q)
  {
    assert ts[i..i + |p + q|][..|p|] == p;
    assert ts[i..i + |p + q|][|p|..] == q;
  }

  lemma FoundToken(ts: seq<Token>, i: nat, t: Token)
    requires Found(ts, i, [t])
    ensures i < |ts| && ts[i] == t
  {
    assert ts[i..i + 1][0] == t;
  }

  /** The token goes on an expression of the level. */
  predicate Continues(t: Token, level: nat) {
    || t == Period || t == OpenParen || t == OpenBracket
    || (BinaryOf(t).Some? && LevelOf(BinaryOf(t).value) <= level)
    || (t == Question && level >= CONDITIONAL)
  }

  // ----- no lambda is mistaken for an expression -----

  /** An expression of more than one token that starts with a name does not go on like a list of parameters. */
  predicate NoParameter(p: seq<Token>) {
    |p| >= 2 && p[0].Ident? ==> p[1] != Colon && p[1] != Comma && p[1] != CloseParen
  }

  /** What is said below of the tokens of an expression. */
  predicate WellStarted(e: Expr) {
    && NoParameter(Bare(e)) && (|Bare(e)| == 1 <==> e.Name? || e.Literal?)
    && Bare(e)[0] != CloseParen && Bare(e)[0] != KeywordAsync
  }

  lemma GoesOnWell(e: Expr, x: Expr, level: nat, rest: seq<Token>)
    requires WellStarted(x) && Bare(e) == Print(x, level) + rest && !e.Name? && !e.Literal?
    requires rest != [] && rest[0] != Colon && rest[0] != Comma && rest[0] != CloseParen
    ensures WellStarted(e)
  {
  }

  lemma {:induction false} StartsWell(e: Expr)
    requires Complete(e)
    ensures WellStarted(e)
    decreases e
  {
    hide WellStarted, Print, PrintList, UnaryToken;
    match e
    case Name(_) => AtomStartsWell(e);
    case Literal(_) => AtomStartsWell(e);
    case Member(x, name) =>
      StartsWell(x);
      GoesOnWell(e, x, PRIMARY, [Period, Ident(name)]);
    case Call(x, args) =>
      StartsWell(x);
      GoesOnWell(e, x, PRIMARY, [OpenParen] + PrintList(args) + [CloseParen]);
    case Element(x, args) =>
      StartsWell(x);
      GoesOnWell(e, x, PRIMARY, [OpenBracket] + PrintList(args) + [CloseBracket]);
    case UnaryExpr(_, x) => AtomStartsWell(e);
    case BinaryExpr(op, x, y) =>
      StartsWell(x);
      GoesOnWell(e, x, LeftLevel(op), [BinaryToken(op)] + Print(y, RightLevel(op)));
    case Conditional(c, x, y) =>
      StartsWell(c);
      GoesOnWell(e, c, COALESCE, [Question] + Print(x, CONDITIONAL) + [Colon] + Print(y, CONDITIONAL));
  }

  lemma AtomStartsWell(e: Expr)
    requires e.Name? || e.Literal? || e.UnaryExpr?
    ensures WellStarted(e)
  {
  }

  /** The first tokens of a compound expression inside parentheses. */
  lemma ParenthesesAreNoLambda(ts: seq<Token>, i: nat, e: Expr)
    requires Ended(ts) && Complete(e) && Level(e) > PRIMARY && Found(ts, i, Bare(e))
    ensures i < |ts| && !AtParameters(ts, i)
  {
    StartsWell(e);
    assert ts[i] == ts[i..i + |Bare(e)|][0] && ts[i + 1] == ts[i..i + |Bare(e)|][1];
  }

  /** The parenthesis that an expression starts with belongs to a compound operand. */
  lemma {:induction false} NotAtLambda(ts: seq<Token>, i: nat, e: Expr, level: nat)
    requires Ended(ts) && Complete(e) && Found(ts, i, Print(e, level))
    ensures i < |ts| && !AtLambda(ts, i)
    decreases e, 1
  {
    if Level(e) <= level {
      BareNotAtLambda(ts, i, e);
    } else {
      assert Print(e, level) == [OpenParen] + (Bare(e) + [CloseParen]);
      FoundParts(ts, i, [OpenParen], Bare(e) + [CloseParen]);
      FoundParts(ts, i + 1, Bare(e), [CloseParen]);
      FoundToken(ts, i, OpenParen);
      ParenthesesAreNoLambda(ts, i + 1, e);
    }
  }

  lemma {:induction false} BareNotAtLambda(ts: seq<Token>, i: nat, e: Expr)
    requires Ended(ts) && Complete(e) && Found(ts, i, Bare(e))
    ensures i < |ts| && !AtLambda(ts, i)
    decreases e, 0
  {
    hide Print, Bare, Found, AtParameters, Complete;
    if e.Name? || e.Literal? || e.UnaryExpr? {
      FirstIsNoParenthesis(ts, i, e);
    } else {
      var x, level, rest := FirstOperand(e);
      FoundFirst(ts, i, Print(x, level), rest, Bare(e));
      NotAtLambda(ts, i, x, level);
    }
  }

  lemma FirstIsNoParenthesis(ts: seq<Token>, i: nat, e: Expr)
    requires Ended(ts) && Found(ts, i, Bare(e)) && (e.Name? || e.Literal? || e.UnaryExpr?)
    ensures i < |ts| && !AtLambda(ts, i)
  {
    hide AtParameters;
    FoundFirst(ts, i, Bare(e)[..1], Bare(e)[1..], Bare(e));
    FoundToken(ts, i, Bare(e)[0]);
  }

  /** What a compound expression starts with. */
  lemma FirstOperand(e: Expr) returns (x: Expr, level: nat, rest: seq<Token>)
    requires Complete(e) && !e.Name? && !e.Literal? && !e.UnaryExpr?
    ensures Complete(x) && x < e && Bare(e) == Print(x, level) + rest
  {
    match e
    case Member(inner, name) => x, level, rest := inner, PRIMARY, [Period, Ident(name)];
    case Call(f, args) => x, level, rest := f, PRIMARY, [OpenParen] + PrintList(args) + [CloseParen];
    case Element(b, args) => x, level, rest := b, PRIMARY, [OpenBracket] + PrintList(args) + [CloseBracket];
    case BinaryExpr(op, l, r) => x, level, rest := l, LeftLevel(op), [BinaryToken(op)] + Print(r, RightLevel(op));
    case Conditional(c, y, z) =>
      x, level := c, COALESCE;
      rest := [Question] + Print(y, CONDITIONAL) + [Colon] + Print(z, CONDITIONAL);
  }

  lemma FoundFirst(ts: seq<Token>, i: nat, p: seq<Token>, q: seq<Token>, all: seq<Token>)
    requires Found(ts, i, all) && all == p + q
    ensures Found(ts, i, p) && Found(ts, i + |p|, q)
  {
    FoundParts(ts, i, p, q);
  }

  // ----- levels -----

  lemma StopsBelow(t: Token, level: nat)
    requires 0 < level && !Continues(t, level)
    ensures !Continues(t, level - 1)
  {
  }

  lemma ClimbOne(ts: seq<Token>, i: nat, up: nat, e: Expr, j: nat)
    requires Ended(ts) && i < |ts| && 0 < up <= CONDITIONAL && j < |ts|
    requires ParseLevel(ts, i, up - 1) == Tree(e, j) && !Continues(ts[j], up)
    requires up == UNARY ==> UnaryOf(ts[i]).None?
    ensures ParseLevel(ts, i, up) == Tree(e, j)
  {
    hide UnaryOf, ParsePrimary, ParseExpression;
  }

  /** An expression of a tighter level is one of every level that the next token does not go on. */
  lemma {:induction false} Climb(ts: seq<Token>, i: nat, level: nat, up: nat, e: Expr, j: nat)
    requires Ended(ts) && i < |ts| && level <= up <= CONDITIONAL && j < |ts|
    requires ParseLevel(ts, i, level) == Tree(e, j) && !Continues(ts[j], up)
    requires level == PRIMARY && up >= UNARY ==> UnaryOf(ts[i]).None?
    ensures ParseLevel(ts, i, up) == Tree(e, j)
  {
    hide ParseLevel, Continues, UnaryOf;
    if level < up {
      StopsBelow(ts[j], up);
      Climb(ts, i, level, up - 1, e, j);
      ClimbOne(ts, i, up, e, j);
    }
  }

  // ----- the parts of a printed expression -----

  /** An expression is found from `i` to `j`, printed where one of the level is expected. */
  ghost predicate Here(ts: seq<Token>, i: nat, e: Expr, level: nat, j: nat) {
    && Ended(ts) && Complete(e) && level <= CONDITIONAL && Found(ts, i, Print(e, level))
       && j == i + |Print(e, level)| < |ts|
  }

  lemma FirstToken(ts: seq<Token>, i: nat, e: Expr, level: nat, j: nat)
    requires Here(ts, i, e, level, j)
    ensures Ended(ts) && i < j < |ts| && ts[i] == Print(e, level)[0]
  {
    assert ts[i..i + |Print(e, level)|][0] == ts[i];
  }

  lemma {:induction false} PrimaryStarts(e: Expr)
    requires Complete(e)
    ensures UnaryOf(Print(e, PRIMARY)[0]).None?
    decreases e
  {
    match e
    case Member(inner, _) => PrimaryStarts(inner);
    case Call(f, _) => PrimaryStarts(f);
    case Element(x, _) => PrimaryStarts(x);
    case _ =>
  }

  lemma PrintsBare(e: Expr, level: nat)
    requires Level(e) <= level
    ensures Print(e, level) == Bare(e)
  {
  }

  lemma PrintsWrapped(e: Expr, level: nat)
    requires Level(e) > level
    ensures Print(e, level) == [OpenParen] + Bare(e) + [CloseParen]
  {
  }

  lemma BareUnary(e: Expr)
    requires e.UnaryExpr?
    ensures Bare(e) == [UnaryToken(e.uop)] + Print(e.operand, UNARY) && Level(e) == UNARY
            && (Complete(e) ==> Complete(e.operand))
  {
  }

  lemma BareBinary(e: Expr)
    requires e.BinaryExpr?
    ensures Bare(e) == Print(e.left, LeftLevel(e.bop)) + [BinaryToken(e.bop)] + Print(e.right, RightLevel(e.bop))
    ensures LeftLevel(e.bop) <= CONDITIONAL && RightLevel(e.bop) <= CONDITIONAL
    ensures Complete(e) ==> Complete(e.left) && Complete(e.right)
  {
  }

  lemma Parenthesized(ts: seq<Token>, i: nat, e: Expr, level: nat, j: nat)
    requires Here(ts, i, e, level, j) && Level(e) > level
    ensures ts[i] == OpenParen && Here(ts, i + 1, e, CONDITIONAL, j - 1) && ts[j - 1] == CloseParen
  {
    hide Print, Bare, Complete, Found;
    PrintsWrapped(e, level);
    PrintsBare(e, CONDITIONAL);
    assert Print(e, level) == [OpenParen] + (Bare(e) + [CloseParen]);
    FoundParts(ts, i, [OpenParen], Bare(e) + [CloseParen]);
    FoundParts(ts, i + 1, Bare(e), [CloseParen]);
    FoundToken(ts, i, OpenParen);
    FoundToken(ts, j - 1, CloseParen);
  }

  lemma UnaryParts(ts: seq<Token>, i: nat, e: Expr, level: nat, j: nat)
    requires Here(ts, i, e, level, j) && e.UnaryExpr? && UNARY <= level
    ensures ts[i] == UnaryToken(e.uop) && Here(ts, i + 1, e.operand, UNARY, j)
  {
    hide Print, Bare, Complete, Found;
    BareUnary(e);
    PrintsBare(e, level);
    FoundParts(ts, i, [UnaryToken(e.uop)], Print(e.operand, UNARY));
    FoundToken(ts, i, UnaryToken(e.uop));
  }

  /** Two parts with a token between them. */
  lemma FoundThree(ts: seq<Token>, i: nat, p: seq<Token>, t: Token, q: seq<Token>)
    requires Found(ts, i, p + [t] + q)
    ensures Found(ts, i, p) && i + |p| < |ts| && ts[i + |p|] == t && Found(ts, i + |p| + 1, q)
  {
    FoundFirst(ts, i, p, [t] + q, p + [t] + q);
    FoundParts(ts, i + |p|, [t], q);
    FoundToken(ts, i + |p|, t);
  }

  lemma BinaryParts(ts: seq<Token>, i: nat, e: Expr, level: nat, j: nat) returns (k: nat)
    requires Here(ts, i, e, level, j) && e.BinaryExpr? && Level(e) <= level
    ensures Here(ts, i, e.left, LeftLevel(e.bop), k) && ts[k] == BinaryToken(e.bop)
    ensures Here(ts, k + 1, e.right, RightLevel(e.bop), j)
  {
    hide Print, Bare, Complete, Found, LeftLevel, RightLevel;
    BareBinary(e);
    PrintsBare(e, level);
    var p := Print(e.left, LeftLevel(e.bop));
    k := i + |p|;
    FoundThree(ts, i, p, BinaryToken(e.bop), Print(e.right, RightLevel(e.bop)));
  }

  lemma ConditionalParts(ts: seq<Token>, i: nat, e: Expr, level: nat, j: nat) returns (k: nat, l: nat)
    requires Here(ts, i, e, level, j) && e.Conditional? && CONDITIONAL <= level
    ensures Here(ts, i, e.condition, COALESCE, k) && ts[k] == Question
    ensures Here(ts, k + 1, e.yes, CONDITIONAL, l) && ts[l] == Colon && Here(ts, l + 1, e.no, CONDITIONAL, j)
  {
    hide BinaryToken, Level, PrintList, UnaryToken;
    var p, q, r := Print(e.condition, COALESCE), Print(e.yes, CONDITIONAL), Print(e.no, CONDITIONAL);
    k, l := i + |p|, i + |p| + 1 + |q|;
    assert Bare(e) == p + [Question] + (q + [Colon] + r);
    FoundThree(ts, i, p, Question, q + [Colon] + r);
    FoundThree(ts, k + 1, q, Colon, r);
  }

  lemma MemberParts(ts: seq<Token>, i: nat, e: Expr, j: nat) returns (k: nat)
    requires Here(ts, i, e, PRIMARY, j) && e.Member?
    ensures Here(ts, i, e.inner, PRIMARY, k) && j == k + 2 && ts[k] == Period && ts[k + 1] == Ident(e.member)
  {
    var p := Print(e.inner, PRIMARY);
    k := i + |p|;
    assert Bare(e) == p + [Period] + [Ident(e.member)];
    FoundThree(ts, i, p, Period, [Ident(e.member)]);
    FoundToken(ts, k + 1, Ident(e.member));
  }

  /** Expressions in a list, from `i` to `j`. */
  ghost predicate HereAll(ts: seq<Token>, i: nat, es: seq<Expr>, j: nat) {
    && Ended(ts) && (forall e | e in es :: Complete(e)) && Found(ts, i, PrintList(es))
       && j == i + |PrintList(es)| < |ts|
  }

  lemma BracketedParts(
      ts: seq<Token>, i: nat, all: seq<Token>, x: Expr, open: Token, es: seq<Expr>, close: Token, j: nat)
      returns (k: nat)
    requires Ended(ts) && Complete(x) && (forall e | e in es :: Complete(e)) && Found(ts, i, all)
             && j == i + |all| < |ts|
    requires all == Print(x, PRIMARY) + [open] + PrintList(es) + [close]
    ensures Here(ts, i, x, PRIMARY, k) && k < |ts| && ts[k] == open
    ensures HereAll(ts, k + 1, es, j - 1) && ts[j - 1] == close
  {
    hide BinaryToken, Complete, LevelOf, PrintList, UnaryToken;
    var p, q := Print(x, PRIMARY), PrintList(es);
    k := i + |p|;
    assert all == p + [open] + (q + [close]);
    FoundThree(ts, i, p, open, q + [close]);
    FoundParts(ts, k + 1, q, [close]);
    FoundToken(ts, j - 1, close);
  }

  lemma ListParts(ts: seq<Token>, i: nat, es: seq<Expr>, j: nat) returns (k: nat)
    requires HereAll(ts, i, es, j) && es != []
    ensures Here(ts, i, es[0], CONDITIONAL, k) && (|es| == 1 ==> k == j)
    ensures |es| > 1 ==> ts[k] == Comma && HereAll(ts, k + 1, es[1..], j)
  {
    k := i + |Print(es[0], CONDITIONAL)|;
    if |es| > 1 { FoundThree(ts, i, Print(es[0], CONDITIONAL), Comma, PrintList(es[1..])); }
  }

  // ----- reading back -----

  lemma Weaker(t: Token, level: nat, low: nat)
    requires !Continues(t, level) && low <= level
    ensures !Continues(t, low)
  {
  }

  lemma AtomReads(ts: seq<Token>, i: nat, e: Expr, j: nat)
    requires Here(ts, i, e, PRIMARY, j) && (e.Name? || e.Literal?)
    ensures ParsePrimary(ts, i) == PostfixRest(ts, e, j)
  {
    FirstToken(ts, i, e, PRIMARY, j);
  }

  lemma ParenthesesRead(ts: seq<Token>, i: nat, e: Expr, j: nat)
    requires Ended(ts) && i + 1 < j < |ts| && ts[i] == OpenParen && ts[j - 1] == CloseParen
    requires ParseExpression(ts, i + 1) == Tree(e, j - 1)
    ensures ParsePrimary(ts, i) == PostfixRest(ts, e, j)
  {
    hide ParseExpression, PostfixRest;
  }

  lemma MemberRead(ts: seq<Token>, e: Expr, k: nat)
    requires Ended(ts) && k + 2 < |ts| && e.Member? && ts[k] == Period && ts[k + 1] == Ident(e.member)
    ensures PostfixRest(ts, e.inner, k) == PostfixRest(ts, e, k + 2)
  {
  }

  lemma NoArguments(ts: seq<Token>, k: nat, e: Expr)
    requires Ended(ts) && k + 2 < |ts| && ts[k] == OpenParen && ts[k + 1] == CloseParen && e.Call? && e.arguments == []
    ensures PostfixRest(ts, e.callee, k) == PostfixRest(ts, e, k + 2)
  {
  }

  lemma ArgumentsRead(ts: seq<Token>, k: nat, e: Expr, j: nat)
    requires Ended(ts) && k + 1 < j < |ts| && ts[k] == OpenParen && ts[k + 1] != CloseParen && ts[j - 1] == CloseParen
    requires e.Call? && ParseList(ts, k + 1) == Trees(e.arguments, j - 1)
    ensures PostfixRest(ts, e.callee, k) == PostfixRest(ts, e, j)
  {
    hide ParseExpression, ParseList, ParseLevel;
  }

  lemma IndicesRead(ts: seq<Token>, k: nat, e: Expr, j: nat)
    requires Ended(ts) && k + 1 < j < |ts| && ts[k] == OpenBracket && ts[j - 1] == CloseBracket
    requires e.Element? && ParseList(ts, k + 1) == Trees(e.indices, j - 1)
    ensures PostfixRest(ts, e.base, k) == PostfixRest(ts, e, j)
  {
    hide ParseExpression, ParseList, ParseLevel;
  }

  /** A list does not start with a closing parenthesis. */
  lemma ListStarts(ts: seq<Token>, i: nat, es: seq<Expr>, j: nat)
    requires HereAll(ts, i, es, j) && es != []
    ensures i < j && ts[i] != CloseParen
  {
    var k := ListParts(ts, i, es, j);
    StartsWell(es[0]);
    FirstToken(ts, i, es[0], CONDITIONAL, k);
  }

  lemma EmptyList(ts: seq<Token>, i: nat, j: nat)
    requires HereAll(ts, i, [], j)
    ensures i == j
  {
  }

  /** A primary expression is followed by whatever goes on it. */
  lemma {:induction false} ReadsPrimary(ts: seq<Token>, i: nat, e: Expr, j: nat)
    requires Here(ts, i, e, PRIMARY, j) && j < |ts|
    ensures ParsePrimary(ts, i) == PostfixRest(ts, e, j)
    decreases e, Wrapped(e, PRIMARY), PRIMARY, 1
  {
    hide *;
    Constants();
    Kinds(e, PRIMARY);
    if Level(e) > PRIMARY {
      Parenthesized(ts, i, e, PRIMARY, j);
      ClosingStops(CONDITIONAL);
      FirstToken(ts, i, e, PRIMARY, j);
      FirstToken(ts, i + 1, e, CONDITIONAL, j - 1);
      ReadsExpression(ts, i + 1, e, j - 1);
      ParenthesesRead(ts, i, e, j);
    } else if e.Member? {
      var k := MemberParts(ts, i, e, j);
      ReadsPrimary(ts, i, e.inner, k);
      MemberRead(ts, e, k);
    } else if e.Call? {
      ReadsCall(ts, i, e, j);
    } else if e.Element? {
      ReadsElement(ts, i, e, j);
    } else {
      PrimaryKinds(e);
      AtomReads(ts, i, e, j);
    }
  }

  lemma PrimaryKinds(e: Expr)
    requires Level(e) <= PRIMARY
    ensures e.Name? || e.Literal? || e.Member? || e.Call? || e.Element?
  {
  }

  lemma ClosingStops(level: nat)
    ensures forall t | t == CloseParen || t == CloseBracket || t == Comma || t == Colon :: !Continues(t, level)
  {
  }

  lemma CallPrinted(ts: seq<Token>, i: nat, e: Expr, j: nat)
    requires Here(ts, i, e, PRIMARY, j) && e.Call?
    ensures Ended(ts) && Complete(e.callee) && (forall a | a in e.arguments :: Complete(a))
            && Found(ts, i, Print(e, PRIMARY))
    ensures Print(e, PRIMARY) == Print(e.callee, PRIMARY) + [OpenParen] + PrintList(e.arguments) + [CloseParen]
    ensures j == i + |Print(e, PRIMARY)| < |ts|
  {
  }

  lemma {:induction false} ReadsCall(ts: seq<Token>, i: nat, e: Expr, j: nat)
    requires Here(ts, i, e, PRIMARY, j) && e.Call? && j < |ts|
    ensures ParsePrimary(ts, i) == PostfixRest(ts, e, j)
    decreases e, 0, 0, 0
  {
    hide *;
    Constants();
    CallPrinted(ts, i, e, j);
    var k := BracketedParts(ts, i, Print(e, PRIMARY), e.callee, OpenParen, e.arguments, CloseParen, j);
    ReadsPrimary(ts, i, e.callee, k);
    if e.arguments == [] {
      EmptyList(ts, k + 1, j - 1);
      NoArguments(ts, k, e);
    } else {
      ListStarts(ts, k + 1, e.arguments, j - 1);
      ReadsList(ts, k + 1, e.arguments, j - 1);
      ArgumentsRead(ts, k, e, j);
    }
  }

  lemma ElementPrinted(ts: seq<Token>, i: nat, e: Expr, j: nat)
    requires Here(ts, i, e, PRIMARY, j) && e.Element?
    ensures Ended(ts) && Complete(e.base) && (forall a | a in e.indices :: Complete(a))
            && Found(ts, i, Print(e, PRIMARY))
    ensures Print(e, PRIMARY) == Print(e.base, PRIMARY) + [OpenBracket] + PrintList(e.indices) + [CloseBracket]
    ensures j == i + |Print(e, PRIMARY)| < |ts| && e.indices != []
  {
  }

  lemma {:induction false} ReadsElement(ts: seq<Token>, i: nat, e: Expr, j: nat)
    requires Here(ts, i, e, PRIMARY, j) && e.Element? && j < |ts|
    ensures ParsePrimary(ts, i) == PostfixRest(ts, e, j)
    decreases e, 0, 0, 0
  {
    hide *;
    Constants();
    ElementPrinted(ts, i, e, j);
    var k := BracketedParts(ts, i, Print(e, PRIMARY), e.base, OpenBracket, e.indices, CloseBracket, j);
    ReadsPrimary(ts, i, e.base, k);
    ListStarts(ts, k + 1, e.indices, j - 1);
    ReadsList(ts, k + 1, e.indices, j - 1);
    IndicesRead(ts, k, e, j);
  }

  lemma OneElement(ts: seq<Token>, i: nat, es: seq<Expr>, j: nat)
    requires Ended(ts) && i < j < |ts| && |es| == 1 && ParseExpression(ts, i) == Tree(es[0], j) && ts[j] != Comma
    ensures ParseList(ts, i) == Trees(es, j)
  {
    assert es == [es[0]];
  }

  lemma MoreElements(ts: seq<Token>, i: nat, es: seq<Expr>, k: nat, j: nat)
    requires Ended(ts) && i < k < |ts| && |es| > 1 && ParseExpression(ts, i) == Tree(es[0], k) && ts[k] == Comma
    requires k + 1 < |ts| && ParseList(ts, k + 1) == Trees(es[1..], j)
    ensures ParseList(ts, i) == Trees(es, j)
  {
    hide ParseExpression, ParseLevel;
    assert es == [es[0]] + es[1..];
  }

  lemma {:induction false} ReadsList(ts: seq<Token>, i: nat, es: seq<Expr>, j: nat)
    requires HereAll(ts, i, es, j) && es != [] && j < |ts| && i < |ts| && (ts[j] == CloseParen || ts[j] == CloseBracket)
    ensures ParseList(ts, i) == Trees(es, j)
    decreases es
  {
    hide *;
    Constants();
    var k := ListParts(ts, i, es, j);
    ClosingStops(CONDITIONAL);
    FirstToken(ts, i, es[0], CONDITIONAL, k);
    ReadsExpression(ts, i, es[0], k);
    if |es| == 1 {
      OneElement(ts, i, es, j);
    } else {
      ListStarts(ts, k + 1, es[1..], j);
      ReadsList(ts, k + 1, es[1..], j);
      MoreElements(ts, i, es, k, j);
    }
  }

  // ----- operators -----

  lemma StopsPostfix(ts: seq<Token>, e: Expr, j: nat, level: nat)
    requires Ended(ts) && j < |ts| && !Continues(ts[j], level)
    ensures PostfixRest(ts, e, j) == Tree(e, j)
  {
  }

  lemma PrimaryIsLevel(ts: seq<Token>, i: nat)
    requires Ended(ts) && i < |ts|
    ensures ParseLevel(ts, i, PRIMARY) == ParsePrimary(ts, i)
  {
  }

  lemma PrimaryFirst(ts: seq<Token>, i: nat, e: Expr, level: nat, j: nat)
    requires Here(ts, i, e, level, j) && (Level(e) == PRIMARY || Level(e) > level)
    ensures Here(ts, i, e, PRIMARY, j) && i < |ts| && UnaryOf(ts[i]).None?
  {
    PrimaryStarts(e);
    FirstToken(ts, i, e, level, j);
  }

  lemma UnaryRead(ts: seq<Token>, i: nat, e: Expr, j: nat)
    requires Ended(ts) && i + 1 < |ts| && e.UnaryExpr? && ts[i] == UnaryToken(e.uop)
    requires ParseLevel(ts, i + 1, UNARY) == Tree(e.operand, j)
    ensures ParseLevel(ts, i, UNARY) == Tree(e, j)
  {
  }

  lemma TokenIsOperator(op: BinaryOp)
    ensures OperatorAt(BinaryToken(op), LevelOf(op)) == Some(op)
  {
  }

  lemma LeftRead(ts: seq<Token>, e: Expr, k: nat, j: nat, level: nat)
    requires Ended(ts) && k + 1 < |ts| && e.BinaryExpr? && ts[k] == BinaryToken(e.bop) && j < |ts|
    requires level == LevelOf(e.bop) && level != IN && level != COALESCE
    requires ParseLevel(ts, k + 1, level - 1) == Tree(e.right, j)
    ensures LeftRest(ts, e.left, k, level) == LeftRest(ts, e, j, level)
  {
    hide ParseLevel, OperatorAt, BinaryToken, LevelOf, ParseExpression, PostfixRest, ParseList;
    TokenIsOperator(e.bop);
  }

  lemma LeftStops(ts: seq<Token>, e: Expr, j: nat, level: nat)
    requires Ended(ts) && j < |ts| && UNARY < level < CONDITIONAL && !Continues(ts[j], level)
    ensures LeftRest(ts, e, j, level) == Tree(e, j)
  {
  }

  lemma LevelIsRest(ts: seq<Token>, i: nat, e: Expr, j: nat, level: nat)
    requires Ended(ts) && i < |ts| && j < |ts| && UNARY < level < CONDITIONAL && level != IN && level != COALESCE
    requires ParseLevel(ts, i, level - 1) == Tree(e, j)
    ensures ParseLevel(ts, i, level) == LeftRest(ts, e, j, level)
  {
  }

  lemma InRead(ts: seq<Token>, i: nat, e: Expr, k: nat, j: nat)
    requires Ended(ts) && i < |ts| && k + 1 < |ts| && e.BinaryExpr? && e.bop == In && ts[k] == KeywordIn
    requires ParseLevel(ts, i, IN - 1) == Tree(e.left, k) && ParseLevel(ts, k + 1, IN - 1) == Tree(e.right, j)
    ensures ParseLevel(ts, i, IN) == Tree(e, j)
  {
    hide CoalesceRest, ConditionalRest, LeftRest, ParsePrimary, ParseUnary;
  }

  lemma CoalesceRead(ts: seq<Token>, i: nat, e: Expr, k: nat, j: nat)
    requires Ended(ts) && i < |ts| && k + 1 < |ts| && j < |ts| && e.BinaryExpr? && e.bop == Coalesce
             && ts[k] == Coalescer
    requires ParseLevel(ts, i, COALESCE - 1) == Tree(e.left, k) && ParseLevel(ts, k + 1, COALESCE) == Tree(e.right, j)
    requires !Continues(ts[j], COALESCE)
    ensures ParseLevel(ts, i, COALESCE) == Tree(e, j)
  {
    assert ts[j] != Coalescer;
    assert CoalesceRest(ts, e, j) == Tree(e, j);
    assert CoalesceRest(ts, e.left, k) == CoalesceRest(ts, e, j);
  }

  lemma ConditionalRead(ts: seq<Token>, i: nat, e: Expr, k: nat, l: nat, j: nat)
    requires Ended(ts) && i < |ts| && k + 1 < |ts| && l + 1 < |ts| && e.Conditional? && ts[k] == Question
             && ts[l] == Colon
    requires ParseLevel(ts, i, COALESCE) == Tree(e.condition, k) && ParseExpression(ts, k + 1) == Tree(e.yes, l)
    requires ParseExpression(ts, l + 1) == Tree(e.no, j)
    ensures ParseLevel(ts, i, CONDITIONAL) == Tree(e, j)
  {
    hide ParseExpression, PostfixRest, ParseList, LeftRest, ParseUnary, ParsePrimary, CoalesceRest, InRest;
  }

  /** Whether parentheses are printed. */
  function Wrapped(e: Expr, level: nat): nat { if Level(e) > level then 1 else 0 }

  lemma ExpressionIsLevel(ts: seq<Token>, i: nat, e: Expr, j: nat)
    requires Here(ts, i, e, CONDITIONAL, j) && i < |ts|
    ensures ParseExpression(ts, i) == ParseLevel(ts, i, CONDITIONAL)
  {
    NotAtLambda(ts, i, e, CONDITIONAL);
  }

  lemma {:induction false} ReadsExpression(ts: seq<Token>, i: nat, e: Expr, j: nat)
    requires Here(ts, i, e, CONDITIONAL, j) && i < j < |ts| && !Continues(ts[j], CONDITIONAL)
    ensures ParseExpression(ts, i) == Tree(e, j)
    decreases e, 0, CONDITIONAL, 3
  {
    hide *;
    Constants();
    Kinds(e, CONDITIONAL);
    BelowTop(e);
    ExpressionIsLevel(ts, i, e, j);
    ReadsLevel(ts, i, e, CONDITIONAL, j);
  }

  /** Where one of the level is expected, an expression is read back up to a token that does not go on it. */
  lemma {:induction false} ReadsLevel(ts: seq<Token>, i: nat, e: Expr, level: nat, j: nat)
    requires Here(ts, i, e, level, j) && level <= CONDITIONAL && i < j < |ts| && !Continues(ts[j], level)
    ensures ParseLevel(ts, i, level) == Tree(e, j)
    decreases e, Wrapped(e, level), level, 2
  {
    hide *;
    Kinds(e, level);
    FirstToken(ts, i, e, level, j);
    if Level(e) == PRIMARY || Level(e) > level {
      PrimaryFirst(ts, i, e, level, j);
      ReadsPrimary(ts, i, e, j);
      StopsPostfix(ts, e, j, level);
      PrimaryIsLevel(ts, i);
      Climb(ts, i, PRIMARY, level, e, j);
    } else if e.UnaryExpr? {
      UnaryParts(ts, i, e, level, j);
      Weaker(ts[j], level, UNARY);
      FirstToken(ts, i + 1, e.operand, UNARY, j);
      ReadsLevel(ts, i + 1, e.operand, UNARY, j);
      UnaryRead(ts, i, e, j);
      Climb(ts, i, UNARY, level, e, j);
    } else if e.BinaryExpr? {
      Weaker(ts[j], level, Level(e));
      ReadsBinary(ts, i, e, level, j);
      Climb(ts, i, Level(e), level, e, j);
    } else {
      ReadsConditional(ts, i, e, level, j);
    }
  }

  lemma Constants()
    ensures PRIMARY == 0 && UNARY == 1 && IN == 10 && COALESCE == 13 && CONDITIONAL == 14
  {
  }

  lemma BelowTop(e: Expr)
    ensures Level(e) <= CONDITIONAL && Wrapped(e, CONDITIONAL) == 0
  {
  }

  lemma Kinds(e: Expr, level: nat)
    requires level <= CONDITIONAL
    ensures PRIMARY == 0 && UNARY == 1 && IN == 10 && COALESCE == 13 && CONDITIONAL == 14
    ensures (Level(e) == PRIMARY || Level(e) > level) || e.UnaryExpr? || e.BinaryExpr? || e.Conditional?
    ensures e.UnaryExpr? ==> Level(e) == UNARY
    ensures e.BinaryExpr? ==> Level(e) == LevelOf(e.bop) > UNARY && Level(e) < CONDITIONAL
    ensures e.Conditional? ==> Level(e) == CONDITIONAL
    ensures Wrapped(e, level) == if Level(e) > level then 1 else 0
    ensures Wrapped(e, PRIMARY) == if Level(e) > PRIMARY then 1 else 0
    ensures Wrapped(e, CONDITIONAL) == 0
  {
  }

  /** The token of an operator goes on the expressions of its level and those above. */
  lemma TokenGoesOn(op: BinaryOp, level: nat)
    ensures Continues(BinaryToken(op), level) <==> LevelOf(op) <= level
  {
  }

  lemma OperatorLevels(op: BinaryOp)
    ensures LevelOf(op) > 0 && LeftLevel(op) == (if op == In || op == Coalesce then LevelOf(op) - 1 else LevelOf(op))
    ensures op == In ==> RightLevel(op) == IN - 1 && BinaryToken(op) == KeywordIn && LevelOf(op) == IN
    ensures op == Coalesce ==> RightLevel(op) == COALESCE && BinaryToken(op) == Coalescer && LevelOf(op) == COALESCE
    ensures op != In && op != Coalesce ==>
            RightLevel(op) == LevelOf(op) - 1 && LevelOf(op) != IN && LevelOf(op) != COALESCE
  {
  }

  lemma TokenStops(op: BinaryOp)
    ensures !Continues(BinaryToken(op), LeftLevel(op)) || (LeftLevel(op) == LevelOf(op)
            && !Continues(BinaryToken(op), LevelOf(op) - 1))
    ensures LeftLevel(op) == LevelOf(op) <==> LevelOf(op) != IN && LevelOf(op) != COALESCE
    ensures op == In ==>
            LeftLevel(op) == IN - 1 && RightLevel(op) == IN - 1 && BinaryToken(op) == KeywordIn && LevelOf(op) == IN
    ensures op == Coalesce ==>
            LeftLevel(op) == COALESCE - 1 && RightLevel(op) == COALESCE && BinaryToken(op) == Coalescer
            && LevelOf(op) == COALESCE
    ensures op != In && op != Coalesce ==> RightLevel(op) == LevelOf(op) - 1 && LeftLevel(op) == LevelOf(op)
    ensures op != In && op != Coalesce ==> LevelOf(op) != IN && LevelOf(op) != COALESCE
  {
    hide Continues, BinaryToken, LevelOf, LeftLevel, RightLevel;
    OperatorLevels(op);
    TokenGoesOn(op, LeftLevel(op));
    if LevelOf(op) > 0 { TokenGoesOn(op, LevelOf(op) - 1); }
  }

  /** A binary expression without parentheses is read back at its own level. */
  lemma {:induction false} ReadsBinary(ts: seq<Token>, i: nat, e: Expr, level: nat, j: nat)
    requires Here(ts, i, e, level, j) && e.BinaryExpr? && Level(e) <= level <= CONDITIONAL && i < j < |ts|
    requires !Continues(ts[j], Level(e))
    ensures ParseLevel(ts, i, Level(e)) == Tree(e, j)
    decreases e, 0, level, 1
  {
    hide *;
    Kinds(e, level);
    Kinds(e, Level(e));
    FirstToken(ts, i, e, level, j);
    TokenStops(e.bop);
    if e.bop == In {
      var k := BinaryParts(ts, i, e, level, j);
      Weaker(ts[j], IN, IN - 1);
      FirstToken(ts, i, e.left, IN - 1, k);
      FirstToken(ts, k + 1, e.right, IN - 1, j);
      ReadsLevel(ts, i, e.left, IN - 1, k);
      ReadsLevel(ts, k + 1, e.right, IN - 1, j);
      InRead(ts, i, e, k, j);
    } else if e.bop == Coalesce {
      var k := BinaryParts(ts, i, e, level, j);
      FirstToken(ts, i, e.left, COALESCE - 1, k);
      FirstToken(ts, k + 1, e.right, COALESCE, j);
      ReadsLevel(ts, i, e.left, COALESCE - 1, k);
      ReadsLevel(ts, k + 1, e.right, COALESCE, j);
      CoalesceRead(ts, i, e, k, j);
    } else {
      OwnLevel(ts, i, e, level, j);
      Weaker(ts[j], Level(e), Level(e) - 1);
      ReadsToRest(ts, i, e, Level(e), j);
      LeftStops(ts, e, j, Level(e));
    }
  }

  lemma OwnLevel(ts: seq<Token>, i: nat, e: Expr, level: nat, j: nat)
    requires Here(ts, i, e, level, j) && Level(e) <= level
    ensures Here(ts, i, e, Level(e), j)
  {
  }

  /** What is printed alike at two levels. */
  lemma TighterLevel(ts: seq<Token>, i: nat, e: Expr, level: nat, j: nat)
    requires Here(ts, i, e, level, j) && level > 0 && Level(e) != level
    ensures Here(ts, i, e, level - 1, j) && Wrapped(e, level - 1) == Wrapped(e, level)
  {
  }

  /** Where operands of a left-associative level are expected, an expression is followed by what goes on the level. */
  lemma {:induction false} ReadsToRest(ts: seq<Token>, i: nat, e: Expr, level: nat, j: nat)
    requires Here(ts, i, e, level, j) && UNARY < level < CONDITIONAL && level != IN && level != COALESCE && i < j < |ts|
    requires !Continues(ts[j], level - 1)
    ensures ParseLevel(ts, i, level) == LeftRest(ts, e, j, level)
    decreases e, Wrapped(e, level), level, 0
  {
    hide *;
    Kinds(e, level);
    FirstToken(ts, i, e, level, j);
    if Level(e) == level {
      LevelIsBinary(e, level);
      TokenStops(e.bop);
      var k := BinaryParts(ts, i, e, level, j);
      FirstToken(ts, i, e.left, level, k);
      FirstToken(ts, k + 1, e.right, level - 1, j);
      LeftTokenStops(e.bop);
      ReadsToRest(ts, i, e.left, level, k);
      ReadsLevel(ts, k + 1, e.right, level - 1, j);
      LeftRead(ts, e, k, j, level);
    } else {
      TighterLevel(ts, i, e, level, j);
      ReadsLevel(ts, i, e, level - 1, j);
      LevelIsRest(ts, i, e, j, level);
    }
  }

  lemma LeftTokenStops(op: BinaryOp)
    ensures !Continues(BinaryToken(op), LevelOf(op) - 1)
  {
  }

  lemma LevelIsBinary(e: Expr, level: nat)
    requires Level(e) == level && UNARY < level < CONDITIONAL && level != IN && level != COALESCE
    ensures e.BinaryExpr? && LevelOf(e.bop) == level && e.bop != In && e.bop != Coalesce
  {
  }

  lemma {:induction false} ReadsConditional(ts: seq<Token>, i: nat, e: Expr, level: nat, j: nat)
    requires Here(ts, i, e, level, j) && e.Conditional? && level == CONDITIONAL && i < j < |ts|
             && !Continues(ts[j], level)
    ensures ParseLevel(ts, i, level) == Tree(e, j)
    decreases e, 0, level, 0
  {
    hide *;
    Constants();
    var k, l := ConditionalParts(ts, i, e, level, j);
    QuestionStops();
    ClosingStops(CONDITIONAL);
    FirstToken(ts, i, e.condition, COALESCE, k);
    FirstToken(ts, k + 1, e.yes, CONDITIONAL, l);
    FirstToken(ts, l + 1, e.no, CONDITIONAL, j);
    ReadsLevel(ts, i, e.condition, COALESCE, k);
    ReadsExpression(ts, k + 1, e.yes, l);
    ReadsExpression(ts, l + 1, e.no, j);
    ConditionalRead(ts, i, e, k, l, j);
  }

  lemma QuestionStops()
    ensures !Continues(Question, COALESCE)
  {
  }

  /**
   An expression that is printed with as few parentheses as possible, and followed by a token that does not go on it,
   is parsed back, and the cursor is left on that token.
   */
  lemma PrintedIsParsed(before: seq<Token>, e: Expr, after: seq<Token>)
    requires Complete(e) && Ended(after) && after != [] && !Continues(after[0], CONDITIONAL)
    ensures Ended(before + Print(e, CONDITIONAL) + after)
    ensures ParseExpression(before + Print(e, CONDITIONAL) + after, |before|)
            == Tree(e, |before| + |Print(e, CONDITIONAL)|)
  {
    hide *;
    var p := Print(e, CONDITIONAL);
    Constants();
    Between(before, p, after);
    Printed(before, e, after);
    ReadsExpression(before + p + after, |before|, e, |before| + |p|);
  }

  lemma Between(before: seq<Token>, p: seq<Token>, after: seq<Token>)
    requires Ended(after) && p != []
    ensures var ts := before + p + after;
            Ended(ts) && Found(ts, |before|, p) && |before| + |p| < |ts| && ts[|before| + |p|] == after[0]
  {
    var ts := before + p + after;
    assert ts[|before|..|before| + |p|] == p && ts[|ts| - 1] == after[|after| - 1];
  }

  lemma Printed(before: seq<Token>, e: Expr, after: seq<Token>)
    requires Complete(e) && Ended(after)
    requires var ts, p := before + Print(e, CONDITIONAL) + after, Print(e, CONDITIONAL);
             Ended(ts) && Found(ts, |before|, p) && |before| + |p| < |ts|
    ensures Here(before + Print(e, CONDITIONAL) + after, |before|, e, CONDITIONAL, |before| + |Print(e, CONDITIONAL)|)
  {
    hide Complete, Found, Print;
  }

  lemma EofEnds()
    ensures Ended([Eof]) && !Continues(Eof, CONDITIONAL)
  {
  }

  /** Expressions that are printed alike are the same. */
  lemma PrintIsInjective(e: Expr, f: Expr)
    requires Complete(e) && Complete(f) && Print(e, CONDITIONAL) == Print(f, CONDITIONAL)
    ensures e == f
  {
    hide *;
    EofEnds();
    PrintedIsParsed([], e, [Eof]);
    PrintedIsParsed([], f, [Eof]);
  }
}
