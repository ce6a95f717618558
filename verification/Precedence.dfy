/**
 How operators bind and what is taken for a lambda, said token by token: without the levels that the parser looks
 operators up in, and without printing.
 */
module Precedence {
  import opened Options
  import opened Grammar
  import opened RoundTrip

  /** A token between two operands, and the operator that it stands for. */
  datatype Infix = Infix(token: Token, op: BinaryOp)

  /** The tiers of operators, the tightest first: each function of the parser calls the one for the tier before it. */
  predicate InTier(o: Infix, n: nat) {
    match n
    case 0 => o == Infix(Star, Multiply) || o == Infix(Slash, Divide) || o == Infix(Percent, Modulo)
    case 1 => o == Infix(Plus, Add) || o == Infix(Minus, Subtract)
    case 2 => o == Infix(ShiftLeft, LShift) || o == Infix(ShiftRight, RShift)
    case 3 =>
      || o == Infix(Less, LessThan) || o == Infix(LessEqual, LessOrEqual)
      || o == Infix(Greater, GreaterThan) || o == Infix(GreaterEqual, GreaterOrEqual)
    case 4 => o == Infix(Equal, Equals) || o == Infix(NotEqual, NotEquals) || o == Infix(Equivalent, IsEquivalent)
    case 5 => o == Infix(Ampersand, BitAnd)
    case 6 => o == Infix(Caret, BitXor)
    case 7 => o == Infix(Bar, BitOr)
    case 8 => o == Infix(KeywordIn, In)
    case 9 => o == Infix(And, LogicalAnd)
    case 10 => o == Infix(Or, LogicalOr)
    case 11 => o == Infix(Coalescer, Coalesce)
    case _ => false
  }

  /** The levels of the parser are these tiers. */
  lemma TierIsLevel(o: Infix, n: nat)
    requires InTier(o, n)
    ensures n < 12 && LevelOf(o.op) == n + 2
    ensures BinaryOf(o.token) == Some(o.op) && BinaryToken(o.op) == o.token
    ensures (o.op == In <==> n == 8) && (o.op == Coalesce <==> n == 11)
    ensures o.op == In ==> o.token == KeywordIn
  {
  }

  /** Every operator has its place in a tier, and no token goes between operands but these. */
  lemma TiersAreComplete(t: Token)
    ensures BinaryOf(t).Some? <==> exists n: nat, o: Infix :: InTier(o, n) && o.token == t
  {
    hide InTier;
    if BinaryOf(t).Some? {
      IsInTier(t);
    }
    forall n: nat, o: Infix | InTier(o, n) && o.token == t ensures BinaryOf(t).Some? { TierIsLevel(o, n); }
  }

  lemma IsInTier(t: Token)
    requires BinaryOf(t).Some?
    ensures LevelOf(BinaryOf(t).value) >= 2
    ensures InTier(Infix(t, BinaryOf(t).value), LevelOf(BinaryOf(t).value) - 2)
  {
    hide BinaryOf, BinaryToken, LevelOf, InTier;
    OperatorInTier(BinaryOf(t).value);
    TokenIsItsOwn(t);
  }

  lemma OperatorInTier(op: BinaryOp)
    ensures LevelOf(op) >= 2 && InTier(Infix(BinaryToken(op), op), LevelOf(op) - 2)
  {
  }

  lemma TokenIsItsOwn(t: Token)
    requires BinaryOf(t).Some?
    ensures BinaryToken(BinaryOf(t).value) == t
  {
    var op := BinaryOf(t).value;
    match op
    case Multiply => assert t == Star;
    case Divide => assert t == Slash;
    case Modulo => assert t == Percent;
    case _ =>
  }

  // ----- three operands -----

  /** `a s b t c` and the end of the file. */
  function Chain(a: string, s: Token, b: string, t: Token, c: string): seq<Token> {
    [Ident(a), s, Ident(b), t, Ident(c), Eof]
  }

  function Both(o: Infix, x: Expr, y: Expr): Expr { BinaryExpr(o.op, x, y) }

  /**
   Of two operators the one in the tighter tier binds first, and in the same tier the first one; but `??` binds to the
   right, and behind `a in b` an expression ends ahead of another `in`.
   */
  lemma BindsExactly(a: string, o: Infix, m: nat, b: string, p: Infix, n: nat, c: string)
    requires InTier(o, m) && InTier(p, n)
    ensures ParseExpression(Chain(a, o.token, b, p.token, c), 0) ==
            if n < m || o.op == p.op == Coalesce then Tree(Both(o, Name(a), Both(p, Name(b), Name(c))), 5)
            else if o.op == p.op == In then Tree(Both(o, Name(a), Name(b)), 3)
            else Tree(Both(p, Both(o, Name(a), Name(b)), Name(c)), 5)
  {
    hide InTier, LevelOf, ParseExpression, BinaryOf, BinaryToken;
    TierIsLevel(o, m);
    TierIsLevel(p, n);
    if n < m || o.op == p.op == Coalesce {
      ToTheRight(a, o, b, p, c);
    } else if o.op == p.op == In {
      assert o == p;
      SecondIn(a, b, c);
    } else {
      ToTheLeft(a, o, b, p, c);
    }
  }

  /** Where operands need no parentheses, the operator is printed between them. */
  lemma PrintsBoth(o: Infix, x: Expr, y: Expr)
    requires BinaryToken(o.op) == o.token && Level(x) <= LeftLevel(o.op) && Level(y) <= RightLevel(o.op)
    ensures Bare(Both(o, x, y)) == Bare(x) + [o.token] + Bare(y) && Level(Both(o, x, y)) == LevelOf(o.op)
  {
    hide BinaryToken, LevelOf, LeftLevel, RightLevel;
    PrintsBare(x, LeftLevel(o.op));
    PrintsBare(y, RightLevel(o.op));
  }

  lemma NamePrints(a: string)
    ensures Bare(Name(a)) == [Ident(a)] && Level(Name(a)) == 0 && Complete(Name(a))
  {
  }

  lemma OperandLevels(o: Infix)
    ensures LevelOf(o.op) < CONDITIONAL
    ensures LeftLevel(o.op) == LevelOf(o.op) - if o.op == In || o.op == Coalesce then 1 else 0
    ensures RightLevel(o.op) == LevelOf(o.op) - if o.op == Coalesce then 0 else 1
  {
  }

  lemma BothComplete(o: Infix, x: Expr, y: Expr)
    requires Complete(x) && Complete(y)
    ensures Complete(Both(o, x, y))
  {
  }

  lemma ToTheRight(a: string, o: Infix, b: string, p: Infix, c: string)
    requires LevelOf(p.op) < LevelOf(o.op) || o.op == p.op == Coalesce
    requires BinaryToken(o.op) == o.token && BinaryToken(p.op) == p.token
    ensures ParseExpression(Chain(a, o.token, b, p.token, c), 0)
         == Tree(Both(o, Name(a), Both(p, Name(b), Name(c))), 5)
  {
    hide ParseExpression, LevelOf, BinaryToken, LeftLevel, RightLevel, Bare, Print, Complete, Level, Both;
    var inner := Both(p, Name(b), Name(c));
    var e := Both(o, Name(a), inner);
    NamePrints(a);
    NamePrints(b);
    NamePrints(c);
    OperandLevels(o);
    OperandLevels(p);
    PrintsBoth(p, Name(b), Name(c));
    PrintsBoth(o, Name(a), inner);
    BothComplete(p, Name(b), Name(c));
    BothComplete(o, Name(a), inner);
    PrintsBare(e, CONDITIONAL);
    assert [Ident(a)] + [o.token] + ([Ident(b)] + [p.token] + [Ident(c)]) + [Eof]
        == Chain(a, o.token, b, p.token, c);
    IsParsed(e, Chain(a, o.token, b, p.token, c));
  }

  lemma ToTheLeft(a: string, o: Infix, b: string, p: Infix, c: string)
    requires if p.op == In || p.op == Coalesce then LevelOf(o.op) < LevelOf(p.op) else LevelOf(o.op) <= LevelOf(p.op)
    requires BinaryToken(o.op) == o.token && BinaryToken(p.op) == p.token
    ensures ParseExpression(Chain(a, o.token, b, p.token, c), 0)
         == Tree(Both(p, Both(o, Name(a), Name(b)), Name(c)), 5)
  {
    hide ParseExpression, LevelOf, BinaryToken, LeftLevel, RightLevel, Bare, Print, Complete, Level, Both;
    var inner := Both(o, Name(a), Name(b));
    var e := Both(p, inner, Name(c));
    NamePrints(a);
    NamePrints(b);
    NamePrints(c);
    OperandLevels(o);
    OperandLevels(p);
    PrintsBoth(o, Name(a), Name(b));
    PrintsBoth(p, inner, Name(c));
    BothComplete(o, Name(a), Name(b));
    BothComplete(p, inner, Name(c));
    PrintsBare(e, CONDITIONAL);
    assert ([Ident(a)] + [o.token] + [Ident(b)]) + [p.token] + [Ident(c)] + [Eof]
        == Chain(a, o.token, b, p.token, c);
    IsParsed(e, Chain(a, o.token, b, p.token, c));
  }

  lemma IsParsed(e: Expr, ts: seq<Token>)
    requires Complete(e) && ts == Print(e, CONDITIONAL) + [Eof]
    ensures Ended(ts) && ParseExpression(ts, 0) == Tree(e, |ts| - 1)
  {
    hide ParseExpression, Print, Complete;
    PrintedIsParsed([], e, [Eof]);
    assert [] + Print(e, CONDITIONAL) + [Eof] == ts;
  }

  /** The tiers above that of `in` do not go on at `in`. */
  lemma ClimbPastIn(ts: seq<Token>, e: Expr, j: nat, level: nat)
    requires Ended(ts) && j < |ts| && ts[j] == KeywordIn && IN <= level <= CONDITIONAL
    requires ParseLevel(ts, 0, IN) == Tree(e, j)
    ensures ParseLevel(ts, 0, level) == Tree(e, j)
  {
    if level > IN { ClimbPastIn(ts, e, j, level - 1); }
  }

  lemma SecondIn(a: string, b: string, c: string)
    ensures ParseExpression(Chain(a, KeywordIn, b, KeywordIn, c), 0) == Tree(BinaryExpr(In, Name(a), Name(b)), 3)
  {
    var ts := Chain(a, KeywordIn, b, KeywordIn, c);
    Operand(ts, 0, a);
    Operand(ts, 2, b);
    InRead(ts, 0, BinaryExpr(In, Name(a), Name(b)), 1, 3);
    ClimbPastIn(ts, BinaryExpr(In, Name(a), Name(b)), 3, CONDITIONAL);
  }

  /** A name ahead of `in`. */
  lemma Operand(ts: seq<Token>, i: nat, a: string)
    requires Ended(ts) && i + 1 < |ts| && ts[i] == Ident(a) && ts[i + 1] == KeywordIn
    ensures ParseLevel(ts, i, IN - 1) == Tree(Name(a), i + 1)
  {
    hide ParseLevel;
    NameIsPrimary(ts, i, a);
    Climb(ts, i, PRIMARY, IN - 1, Name(a), i + 1);
  }

  lemma NameIsPrimary(ts: seq<Token>, i: nat, a: string)
    requires Ended(ts) && i + 1 < |ts| && ts[i] == Ident(a) && ts[i + 1] == KeywordIn
    ensures ParseLevel(ts, i, PRIMARY) == Tree(Name(a), i + 1)
  {
    PrimaryIsLevel(ts, i);
    assert PostfixRest(ts, Name(a), i + 1) == Tree(Name(a), i + 1);
  }

  // ----- other operators -----

  /** Tokens ahead of an operand, and the operators that they stand for. */
  predicate IsPrefix(t: Token, op: UnaryOp) {
    (t == Minus && op == Negate) || (t == Bang && op == Not) || (t == Tilde && op == Complement)
  }

  lemma PrefixPrints(t: Token, op: UnaryOp, a: string)
    requires IsPrefix(t, op)
    ensures var e := UnaryExpr(op, Name(a)); Bare(e) == [t, Ident(a)] && Level(e) == UNARY && Complete(e)
  {
    NamePrints(a);
    PrintsBare(Name(a), UNARY);
  }

  /** An operator ahead of an operand binds tighter than any between two. */
  lemma PrefixBindsFirst(t: Token, op: UnaryOp, a: string, o: Infix, n: nat, b: string)
    requires IsPrefix(t, op) && InTier(o, n)
    ensures ParseExpression([t, Ident(a), o.token, Ident(b), Eof], 0)
         == Tree(BinaryExpr(o.op, UnaryExpr(op, Name(a)), Name(b)), 4)
    ensures ParseExpression([Ident(b), o.token, t, Ident(a), Eof], 0)
         == Tree(BinaryExpr(o.op, Name(b), UnaryExpr(op, Name(a))), 4)
  {
    hide InTier, LevelOf, ParseExpression, BinaryOf, BinaryToken, LeftLevel, RightLevel, Bare, Print, Complete, Level;
    TierIsLevel(o, n);
    OperandLevels(o);
    PrefixPrints(t, op, a);
    NamePrints(b);
    var x, y := UnaryExpr(op, Name(a)), Name(b);
    PrintsBoth(o, x, y);
    PrintsBoth(o, y, x);
    BothComplete(o, x, y);
    BothComplete(o, y, x);
    PrintsBare(Both(o, x, y), CONDITIONAL);
    PrintsBare(Both(o, y, x), CONDITIONAL);
    assert [t, Ident(a)] + [o.token] + [Ident(b)] + [Eof] == [t, Ident(a), o.token, Ident(b), Eof];
    assert [Ident(b)] + [o.token] + [t, Ident(a)] + [Eof] == [Ident(b), o.token, t, Ident(a), Eof];
    IsParsed(Both(o, x, y), [t, Ident(a), o.token, Ident(b), Eof]);
    IsParsed(Both(o, y, x), [Ident(b), o.token, t, Ident(a), Eof]);
  }

  lemma ConditionalPrints(c: Expr, x: Expr, y: Expr)
    requires Level(c) < CONDITIONAL && Complete(c) && Complete(x) && Complete(y)
    ensures var e := Conditional(c, x, y);
            Print(e, CONDITIONAL) == Bare(c) + [Question] + Bare(x) + [Colon] + Bare(y) && Complete(e)
  {
    PrintsBare(c, COALESCE);
    PrintsBare(x, CONDITIONAL);
    PrintsBare(y, CONDITIONAL);
  }

  /** The conditional operator binds last, on both sides. */
  lemma ConditionalBindsLast(a: string, b: string, c: string, d: string, o: Infix, n: nat)
    requires InTier(o, n)
    ensures ParseExpression([Ident(a), o.token, Ident(b), Question, Ident(c), Colon, Ident(d), Eof], 0)
         == Tree(Conditional(BinaryExpr(o.op, Name(a), Name(b)), Name(c), Name(d)), 7)
    ensures ParseExpression([Ident(a), Question, Ident(b), Colon, Ident(c), o.token, Ident(d), Eof], 0)
         == Tree(Conditional(Name(a), Name(b), BinaryExpr(o.op, Name(c), Name(d))), 7)
  {
    hide InTier, ParseExpression;
    ConditionalAfter(a, b, c, d, o, n);
    ConditionalBefore(a, b, c, d, o, n);
  }

  lemma BothNames(a: string, b: string, o: Infix, n: nat)
    requires InTier(o, n)
    ensures var e := Both(o, Name(a), Name(b));
            Bare(e) == [Ident(a), o.token, Ident(b)] && Level(e) < CONDITIONAL && Complete(e)
  {
    hide InTier, LevelOf, BinaryOf, BinaryToken, LeftLevel, RightLevel, Bare, Print, Complete, Level;
    TierIsLevel(o, n);
    OperandLevels(o);
    NamePrints(a);
    NamePrints(b);
    PrintsBoth(o, Name(a), Name(b));
    BothComplete(o, Name(a), Name(b));
  }

  lemma ConditionalAfter(a: string, b: string, c: string, d: string, o: Infix, n: nat)
    requires InTier(o, n)
    ensures ParseExpression([Ident(a), o.token, Ident(b), Question, Ident(c), Colon, Ident(d), Eof], 0)
         == Tree(Conditional(Both(o, Name(a), Name(b)), Name(c), Name(d)), 7)
  {
    hide *;
    var e, ts := Both(o, Name(a), Name(b)), [Ident(a), o.token, Ident(b), Question, Ident(c), Colon, Ident(d), Eof];
    BothNames(a, b, o, n);
    NamePrints(c);
    NamePrints(d);
    ConditionalPrints(e, Name(c), Name(d));
    assert [Ident(a), o.token, Ident(b)] + [Question] + [Ident(c)] + [Colon] + [Ident(d)] + [Eof] == ts;
    IsParsed(Conditional(e, Name(c), Name(d)), ts);
  }

  lemma ConditionalBefore(a: string, b: string, c: string, d: string, o: Infix, n: nat)
    requires InTier(o, n)
    ensures ParseExpression([Ident(a), Question, Ident(b), Colon, Ident(c), o.token, Ident(d), Eof], 0)
         == Tree(Conditional(Name(a), Name(b), Both(o, Name(c), Name(d))), 7)
  {
    hide *;
    var e, ts := Both(o, Name(c), Name(d)), [Ident(a), Question, Ident(b), Colon, Ident(c), o.token, Ident(d), Eof];
    NameIsLow(a);
    NamePrints(b);
    BothNames(c, d, o, n);
    ConditionalPrints(Name(a), Name(b), e);
    assert [Ident(a)] + [Question] + [Ident(b)] + [Colon] + [Ident(c), o.token, Ident(d)] + [Eof] == ts;
    IsParsed(Conditional(Name(a), Name(b), e), ts);
  }

  lemma NameIsLow(a: string)
    ensures Bare(Name(a)) == [Ident(a)] && Level(Name(a)) < CONDITIONAL && Complete(Name(a))
  {
  }

  lemma NamesPrint(a: string, b: string, c: string, d: string)
    ensures forall x | x in [a, b, c, d] :: Bare(Name(x)) == [Ident(x)] && Level(Name(x)) == 0 && Complete(Name(x))
  {
  }

  lemma ConditionalsNest(a: string, b: string, c: string, d: string, e: string)
    ensures ParseExpression(
              [Ident(a), Question, Ident(b), Colon, Ident(c), Question, Ident(d), Colon, Ident(e), Eof], 0)
         == Tree(Conditional(Name(a), Name(b), Conditional(Name(c), Name(d), Name(e))), 9)
  {
    hide ParseExpression, Bare, Print, Complete, Level;
    NamesPrint(a, b, c, d);
    NamePrints(e);
    var y := Conditional(Name(c), Name(d), Name(e));
    ConditionalPrints(Name(c), Name(d), Name(e));
    ConditionalPrints(Name(a), Name(b), y);
    ConditionalIsBare(y);
    var ts := [Ident(a), Question, Ident(b), Colon, Ident(c), Question, Ident(d), Colon, Ident(e), Eof];
    assert [Ident(a)] + [Question] + [Ident(b)] + [Colon]
        + ([Ident(c)] + [Question] + [Ident(d)] + [Colon] + [Ident(e)]) + [Eof] == ts;
    IsParsed(Conditional(Name(a), Name(b), y), ts);
  }

  lemma ConditionalIsBare(e: Expr)
    requires e.Conditional?
    ensures Print(e, CONDITIONAL) == Bare(e)
  {
  }

  /** What follows an operand binds before what is ahead of it, and from the left: `-a.m(b)[c]` */
  lemma PostfixBindsFirst(t: Token, op: UnaryOp, a: string, m: string, b: string, c: string)
    requires IsPrefix(t, op)
    ensures ParseExpression(
              [t, Ident(a), Period, Ident(m), OpenParen, Ident(b), CloseParen, OpenBracket, Ident(c), CloseBracket,
               Eof], 0)
         == Tree(UnaryExpr(op, Element(Call(Member(Name(a), m), [Name(b)]), [Name(c)])), 10)
  {
    hide ParseExpression, Bare, Print, PrintList, Complete, Level, IsPrefix;
    var e := Element(Call(Member(Name(a), m), [Name(b)]), [Name(c)]);
    ElementPrints(a, m, b, c);
    PrefixOf(t, op, e);
    var ts := [t, Ident(a), Period, Ident(m), OpenParen, Ident(b), CloseParen, OpenBracket, Ident(c), CloseBracket,
      Eof];
    assert [t] + Bare(e) + [Eof] == ts;
    IsParsed(UnaryExpr(op, e), ts);
  }

  lemma ElementPrints(a: string, m: string, b: string, c: string)
    ensures var e := Element(Call(Member(Name(a), m), [Name(b)]), [Name(c)]);
            && Bare(e) == [Ident(a), Period, Ident(m), OpenParen, Ident(b), CloseParen, OpenBracket, Ident(c),
                           CloseBracket]
            && Level(e) == PRIMARY && Complete(e)
  {
    hide Bare, Print, PrintList, Complete, Level;
    var member := Member(Name(a), m);
    var call := Call(member, [Name(b)]);
    NamesPrint(a, b, c, a);
    PostfixPrints(Name(a), m, Name(a));
    PostfixPrints(member, m, Name(b));
    PostfixPrints(call, m, Name(c));
  }

  lemma PostfixPrints(x: Expr, m: string, y: Expr)
    requires Level(x) == PRIMARY && Complete(x) && Complete(y)
    ensures Bare(Member(x, m)) == Bare(x) + [Period, Ident(m)]
    ensures Bare(Call(x, [y])) == Bare(x) + [OpenParen] + Bare(y) + [CloseParen]
    ensures Bare(Element(x, [y])) == Bare(x) + [OpenBracket] + Bare(y) + [CloseBracket]
    ensures Complete(Member(x, m)) && Complete(Call(x, [y])) && Complete(Element(x, [y]))
    ensures Level(Member(x, m)) == Level(Call(x, [y])) == Level(Element(x, [y])) == PRIMARY
  {
    PrintsBare(x, PRIMARY);
    PrintsBare(y, CONDITIONAL);
    assert PrintList([y]) == Print(y, CONDITIONAL);
  }

  lemma PrefixOf(t: Token, op: UnaryOp, x: Expr)
    requires IsPrefix(t, op) && Level(x) == PRIMARY && Complete(x)
    ensures var e := UnaryExpr(op, x); Print(e, CONDITIONAL) == [t] + Bare(x) && Complete(e)
  {
    PrintsBare(x, UNARY);
    PrintsBare(UnaryExpr(op, x), CONDITIONAL);
  }

  // ----- lambdas -----

  /**
   `n` names with a comma behind each; and then what can only be the end of parameters, or a parameter with a type.
   */
  ghost predicate LooksLikeParameters(ts: seq<Token>, i: nat, n: nat) {
    var j := i + 2 * n;
    && j + 1 < |ts|
    && (forall k: nat | k < n :: ts[i + 2 * k].Ident? && ts[i + 2 * k + 1] == Comma)
    && ((ts[j].Ident? && ts[j + 1] == Colon)
        || (ts[j].Ident? && ts[j + 1] == CloseParen && j + 2 < |ts| && ts[j + 2] == Arrow)
        || (ts[j] == CloseParen && ts[j + 1] == Arrow))
  }

  ghost predicate StartsLikeParameters(ts: seq<Token>, i: nat) {
    exists n: nat :: LooksLikeParameters(ts, i, n)
  }

  /** A lambda is taken to start exactly at `async`, and at a parenthesis with such tokens behind it. */
  lemma LambdaExactly(ts: seq<Token>, i: nat)
    requires Ended(ts) && i < |ts|
    ensures AtLambda(ts, i) <==>
              ts[i] == KeywordAsync || (ts[i] == OpenParen && StartsLikeParameters(ts, i + 1))
  {
    hide AtParameters, LooksLikeParameters;
    if ts[i] == OpenParen { ParametersExactly(ts, i + 1); }
  }

  lemma {:induction false} ParametersExactly(ts: seq<Token>, i: nat)
    requires Ended(ts) && i < |ts|
    ensures AtParameters(ts, i) <==> StartsLikeParameters(ts, i)
    decreases |ts| - i
  {
    hide LooksLikeParameters;
    if ts[i].Ident? && ts[i + 1] == Comma {
      ParametersExactly(ts, i + 2);
      forall n: nat | LooksLikeParameters(ts, i, n) ensures n > 0 && LooksLikeParameters(ts, i + 2, n - 1) {
        OneLess(ts, i, n);
      }
      var j := i + 2;
      if n: nat :| LooksLikeParameters(ts, j, n) { OneMore(ts, i, n); }
    } else {
      NoneAhead(ts, i);
      forall n: nat | LooksLikeParameters(ts, i, n) ensures n == 0 { OnlyBehindComma(ts, i, n); }
    }
  }

  lemma NoneAhead(ts: seq<Token>, i: nat)
    requires Ended(ts) && i < |ts| && !(ts[i].Ident? && ts[i + 1] == Comma)
    ensures LooksLikeParameters(ts, i, 0) <==> AtParameters(ts, i)
  {
  }

  lemma OnlyBehindComma(ts: seq<Token>, i: nat, n: nat)
    requires Ended(ts) && i < |ts| && LooksLikeParameters(ts, i, n) && !(ts[i].Ident? && ts[i + 1] == Comma)
    ensures n == 0
  {
    if n > 0 { FirstIsName(ts, i, n); }
  }

  lemma FirstIsName(ts: seq<Token>, i: nat, n: nat)
    requires LooksLikeParameters(ts, i, n) && n > 0
    ensures ts[i].Ident? && ts[i + 1] == Comma
  {
    assert ts[i + 2 * 0].Ident?;
  }

  lemma OneLess(ts: seq<Token>, i: nat, n: nat)
    requires LooksLikeParameters(ts, i, n) && i + 1 < |ts| && ts[i + 1] == Comma && ts[i].Ident?
    ensures n > 0 && LooksLikeParameters(ts, i + 2, n - 1)
  {
    forall k: nat | k < n - 1 ensures ts[i + 2 + 2 * k].Ident? && ts[i + 2 + 2 * k + 1] == Comma {
      assert ts[i + 2 * (k + 1)].Ident?;
    }
  }

  lemma OneMore(ts: seq<Token>, i: nat, n: nat)
    requires LooksLikeParameters(ts, i + 2, n) && i + 1 < |ts| && ts[i + 1] == Comma && ts[i].Ident?
    ensures LooksLikeParameters(ts, i, n + 1)
  {
    forall k: nat | k < n + 1 ensures ts[i + 2 * k].Ident? && ts[i + 2 * k + 1] == Comma {
      if k > 0 { assert ts[i + 2 + 2 * (k - 1)].Ident?; }
    }
  }

  // ----- what is no expression -----

  /** What the primary level makes of a token that no prefix operator is, every level makes of it. */
  lemma {:induction false} FailsAtEveryLevel(ts: seq<Token>, i: nat, level: nat)
    requires Ended(ts) && i < |ts| && level <= CONDITIONAL
    requires UnaryOf(ts[i]).None? && !ParsePrimary(ts, i).Tree?
    ensures ParseLevel(ts, i, level) == ParsePrimary(ts, i)
  {
    hide ParsePrimary, UnaryOf;
    if level > UNARY { FailsAtEveryLevel(ts, i, level - 1); }
  }

  /** An expression that starts well does not fail right where it starts. */
  lemma {:induction false} MovesAtEveryLevel(ts: seq<Token>, i: nat, level: nat)
    requires Ended(ts) && i < |ts| && level <= CONDITIONAL
    requires if level == PRIMARY then ParsePrimary(ts, i).at > i else ParseUnary(ts, i).at > i
    ensures ParseLevel(ts, i, level).at > i
  {
    hide ParsePrimary, ParseUnary;
    if level > UNARY { MovesAtEveryLevel(ts, i, level - 1); }
  }

  /** Tokens at which an expression of this model can start, and those at which one of another kind starts. */
  predicate StartsExpression(t: Token) {
    t.Ident? || t.Lit? || t in {OpenParen, Minus, Bang, Tilde}
  }

  predicate StartsOther(t: Token) {
    t in {OpenBracket, OpenBrace, Ellipsis, KeywordAwait, KeywordAsync}
  }

  /** No expression starts at any other token, and this is where the error is; these fail further on, if at all. */
  lemma BreaksExactly(ts: seq<Token>, i: nat)
    requires Ended(ts) && i < |ts|
    ensures ParseExpression(ts, i) == Broken(i) <==> !StartsExpression(ts[i]) && !StartsOther(ts[i])
    ensures StartsOther(ts[i]) ==> ParseExpression(ts, i) == Elsewhere(i)
  {
    hide ParseLevel, ParseExpression, ParseUnary, ParsePrimary, AtLambda, ParseList, PostfixRest;
    FirstOfExpression(ts, i);
    UnlessLambda(ts, i);
    if !AtLambda(ts, i) {
      if StartsExpression(ts[i]) {
        MovesAtEveryLevel(ts, i, CONDITIONAL);
      } else {
        FailsAtEveryLevel(ts, i, CONDITIONAL);
      }
    }
  }

  lemma UnlessLambda(ts: seq<Token>, i: nat)
    requires Ended(ts) && i < |ts|
    ensures ParseExpression(ts, i) == if AtLambda(ts, i) then Elsewhere(i) else ParseLevel(ts, i, CONDITIONAL)
    ensures AtLambda(ts, i) ==> ts[i] == KeywordAsync || ts[i] == OpenParen
    ensures ts[i] == KeywordAsync ==> AtLambda(ts, i)
  {
    hide ParseLevel;
  }

  lemma FirstOfExpression(ts: seq<Token>, i: nat)
    requires Ended(ts) && i < |ts|
    ensures StartsExpression(ts[i]) ==> ParseUnary(ts, i).at > i
    ensures !StartsExpression(ts[i]) ==> UnaryOf(ts[i]).None? && !ParsePrimary(ts, i).Tree?
    ensures StartsOther(ts[i]) && ts[i] != KeywordAsync ==> ParsePrimary(ts, i) == Elsewhere(i)
    ensures !StartsExpression(ts[i]) && !StartsOther(ts[i]) ==> ParsePrimary(ts, i) == Broken(i)
  {
    hide PostfixRest, ParseExpression, ParseList;
  }

  /** A name is read up to a token that cannot go on it. */
  lemma NameIsRead(ts: seq<Token>, i: nat, a: string)
    requires Ended(ts) && i + 1 < |ts| && ts[i] == Ident(a) && !Continues(ts[i + 1], CONDITIONAL)
    ensures ParseExpression(ts, i) == Tree(Name(a), i + 1)
  {
    hide ParseExpression, Continues, Complete;
    NamePrints(a);
    PrintsBare(Name(a), CONDITIONAL);
    assert ts[..i] + [Ident(a)] + ts[i + 1..] == ts;
    PrintedIsParsed(ts[..i], Name(a), ts[i + 1..]);
  }

  /** A parenthesis has to be closed, a period needs a name, and a conditional a colon. */
  lemma BreaksThere(a: string, b: string, t: Token)
    requires t in {Semicolon, CloseBrace, CloseBracket, Eof}
    ensures ParseExpression([OpenParen, Ident(a), t, Eof], 0) == Broken(2)
    ensures ParseExpression([Ident(a), Period, t, Eof], 0) == Broken(2)
    ensures ParseExpression([Ident(a), Question, Ident(b), t, Eof], 0) == Broken(3)
  {
    hide ParseExpression, ParseLevel;
    Unclosed(a, t);
    FailsAtEveryLevel([OpenParen, Ident(a), t, Eof], 0, CONDITIONAL);
    UnlessLambda([OpenParen, Ident(a), t, Eof], 0);
    WithoutName(a, t);
    FailsAtEveryLevel([Ident(a), Period, t, Eof], 0, CONDITIONAL);
    UnlessLambda([Ident(a), Period, t, Eof], 0);
    WithoutColon(a, b, t);
    UnlessLambda([Ident(a), Question, Ident(b), t, Eof], 0);
  }

  lemma Unclosed(a: string, t: Token)
    requires t in {Semicolon, CloseBrace, CloseBracket, Eof}
    ensures var ts := [OpenParen, Ident(a), t, Eof];
            ParsePrimary(ts, 0) == Broken(2) && UnaryOf(ts[0]).None? && !AtLambda(ts, 0)
  {
    hide ParseExpression, ParseList, PostfixRest, Complete;
    NameIsRead([OpenParen, Ident(a), t, Eof], 1, a);
  }

  lemma WithoutName(a: string, t: Token)
    requires !t.Ident?
    ensures var ts := [Ident(a), Period, t, Eof];
            ParsePrimary(ts, 0) == Broken(2) && UnaryOf(ts[0]).None? && !AtLambda(ts, 0)
  {
    hide ParseExpression, ParseList;
    assert PostfixRest([Ident(a), Period, t, Eof], Name(a), 1) == Broken(2);
  }

  lemma WithoutColon(a: string, b: string, t: Token)
    requires t in {Semicolon, CloseBrace, CloseBracket, Eof}
    ensures var ts := [Ident(a), Question, Ident(b), t, Eof];
            ParseLevel(ts, 0, CONDITIONAL) == Broken(3) && !AtLambda(ts, 0)
  {
    hide ParseExpression, ParseList, ParsePrimary, ParseUnary, PostfixRest, LeftRest, InRest, CoalesceRest;
    var ts := [Ident(a), Question, Ident(b), t, Eof];
    NameIsRead(ts, 2, b);
    NameAheadOfQuestion(a, ts);
    Climb(ts, 0, PRIMARY, COALESCE, Name(a), 1);
  }

  lemma NameAheadOfQuestion(a: string, ts: seq<Token>)
    requires Ended(ts) && |ts| > 1 && ts[0] == Ident(a) && ts[1] == Question
    ensures ParseLevel(ts, 0, PRIMARY) == Tree(Name(a), 1)
  {
    hide ParseExpression, ParseList;
    PrimaryIsLevel(ts, 0);
    assert PostfixRest(ts, Name(a), 1) == Tree(Name(a), 1);
  }
}
