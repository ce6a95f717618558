/** The parser as it runs: a cursor moves over the tokens, is set back after a look ahead, and loops gather operands. */
module Parsers {
  import opened Grammar
  import Recovery

  class Parser {
    const tokens: seq<Token>
    var index: nat                    // of the current token

    constructor (tokens: seq<Token>)
      requires Ended(tokens)
      ensures this.tokens == tokens && index == 0 && Valid()
    {
      this.tokens, index := tokens, 0;
    }

    predicate Valid()
      reads this
    {
      Ended(tokens) && index < |tokens|
    }

    // ----- the cursor -----

    function Current(): Token
      requires Valid()
      reads this
    {
      tokens[index]
    }

    method Next()
      requires Valid() && Current() != Eof
      modifies this
      ensures Valid() && index == old(index) + 1
    {
      index := index + 1;
    }

    /** Moves on if the current token is the expected one. */
    method Accept(t: Token) returns (accepted: bool)
      requires Valid() && t != Eof
      modifies this
      ensures Valid() && accepted == (old(Current()) == t) && index == old(index) + if accepted then 1 else 0
    {
      accepted := Current() == t;
      if accepted { Next(); }
    }

    method AcceptIdentifier() returns (accepted: bool)
      requires Valid()
      modifies this
      ensures Valid() && accepted == old(Current()).Ident? && index == old(index) + if accepted then 1 else 0
    {
      accepted := Current().Ident?;
      if accepted { Next(); }
    }

    // ----- look ahead -----

    /** Skips what may be the parameters of a lambda, and sets the cursor back. */
    method AtLambdaExpression() returns (atLambda: bool)
      requires Valid()
      modifies this
      ensures Valid() && index == old(index) && atLambda == AtLambda(tokens, index)
    {
      var saved := index;
      atLambda := Accept(KeywordAsync);
      if !atLambda {
        var open := Accept(OpenParen);
        if open {
          atLambda := SkipParameters();
        }
      }
      index := saved;
    }

    method SkipParameters() returns (atLambda: bool)
      requires Valid()
      modifies this
      ensures Valid() && atLambda == AtParameters(tokens, old(index))
    {
      ghost var start := index;
      var more := true;
      while more
        invariant Valid() && start <= index
        invariant more ==> AtParameters(tokens, start) == AtParameters(tokens, index)
        invariant !more ==> AtParameters(tokens, start) == ClosesSignature(tokens, index)
        decreases |tokens| - index, more
      {
        more := AcceptIdentifier();
        if more {
          if Current() == Colon {
            return true;
          }
          more := Accept(Comma);
        }
      }
      atLambda := Accept(CloseParen);
      if atLambda {
        atLambda := Accept(Arrow);
      }
    }

    // ----- expressions -----

    method ParseExpression() returns (r: Outcome)
      requires Valid()
      modifies this
      ensures Valid() && index == r.at && r == Grammar.ParseExpression(tokens, old(index))
      decreases |tokens| - index, 20
    {
      var lambda := AtLambdaExpression();
      if lambda {
        r := Elsewhere(index);
      } else {
        r := ParseConditional();
      }
    }

    method ParseConditional() returns (r: Outcome)
      requires Valid()
      modifies this
      ensures Valid() && index == r.at && r == ParseLevel(tokens, old(index), CONDITIONAL)
      decreases |tokens| - index, CONDITIONAL + 2
    {
      hide Grammar.ParseExpression, LeftRest, InRest, CoalesceRest, Grammar.ParseUnary, Grammar.ParsePrimary,
        PostfixRest, Grammar.ParseList;
      r := ParseBinary(COALESCE);
      if !r.Tree? { return; }
      ghost var start := index;
      var condition := r.expr;
      var question := Accept(Question);
      if question {
        r := ParseExpression();
        if !r.Tree? { return; }
        var yes := r.expr;
        var colon := Accept(Colon);
        if !colon { return Broken(index); }
        r := ParseExpression();
        if r.Tree? { r := Tree(Conditional(condition, yes, r.expr), index); }
      }
      assert r == ConditionalRest(tokens, condition, start);
    }

    /** An expression of a level of binary operators. */
    method ParseBinary(level: nat) returns (r: Outcome)
      requires Valid() && UNARY <= level < CONDITIONAL
      modifies this
      ensures Valid() && index == r.at && r == ParseLevel(tokens, old(index), level)
      decreases |tokens| - index, level + 2
    {
      if level == UNARY {
        r := ParseUnary();
        return;
      }
      r := ParseBinary(level - 1);
      if r.Tree? {
        if level == IN {
          r := ParseIn(r.expr);
        } else if level == COALESCE {
          r := ParseCoalescing(r.expr);
        } else {
          r := ParseLeft(r.expr, level);
        }
      }
    }

    /** The loop of the left-associative operators. */
    method ParseLeft(first: Expr, level: nat) returns (r: Outcome)
      requires Valid() && UNARY < level < CONDITIONAL
      modifies this
      ensures Valid() && index == r.at && r == LeftRest(tokens, first, old(index), level)
      decreases |tokens| - index, 15
    {
      hide Grammar.ParseExpression, ParseLevel, InRest, CoalesceRest, ConditionalRest, Grammar.ParseUnary,
        Grammar.ParsePrimary, PostfixRest, Grammar.ParseList, OperatorAt;
      r := Tree(first, index);
      var op := OperatorAt(Current(), level);
      while op.Some?
        invariant Valid() && old(index) <= index && r.Tree? && index == r.at && op == OperatorAt(Current(), level)
        invariant LeftRest(tokens, first, old(index), level) == LeftRest(tokens, r.expr, index, level)
        decreases |tokens| - index
      {
        var left := r.expr;
        Next();
        r := ParseBinary(level - 1);
        if !r.Tree? { return; }
        r := Tree(BinaryExpr(op.value, left, r.expr), index);
        op := OperatorAt(Current(), level);
      }
    }

    /** At most one `in`. */
    method ParseIn(first: Expr) returns (r: Outcome)
      requires Valid()
      modifies this
      ensures Valid() && index == r.at && r == InRest(tokens, first, old(index))
      decreases |tokens| - index, 15
    {
      r := Tree(first, index);
      var found := Accept(KeywordIn);
      if found {
        r := ParseBinary(IN - 1);
        if r.Tree? { r := Tree(BinaryExpr(In, first, r.expr), index); }
      }
    }

    /** The right operand of the coalescing operator is parsed at the same level. */
    method ParseCoalescing(first: Expr) returns (r: Outcome)
      requires Valid()
      modifies this
      ensures Valid() && index == r.at && r == CoalesceRest(tokens, first, old(index))
      decreases |tokens| - index, 15
    {
      r := Tree(first, index);
      while Current() == Coalescer
        invariant Valid() && old(index) <= index && r.Tree? && index == r.at
        invariant CoalesceRest(tokens, first, old(index)) == CoalesceRest(tokens, r.expr, index)
        decreases |tokens| - index
      {
        var left := r.expr;
        Next();
        r := ParseBinary(COALESCE);
        if !r.Tree? { return; }
        r := Tree(BinaryExpr(Coalesce, left, r.expr), index);
      }
    }

    method ParseUnary() returns (r: Outcome)
      requires Valid()
      modifies this
      ensures Valid() && index == r.at && r == Grammar.ParseUnary(tokens, old(index))
      decreases |tokens| - index, 1
    {
      var op := UnaryOf(Current());
      if op.None? {
        r := ParsePrimary();
      } else {
        Next();
        r := ParseUnary();
        if r.Tree? { r := Tree(UnaryExpr(op.value, r.expr), index); }
      }
    }

    method ParsePrimary() returns (r: Outcome)
      requires Valid()
      modifies this
      ensures Valid() && index == r.at && r == Grammar.ParsePrimary(tokens, old(index))
      decreases |tokens| - index, 0
    {
      hide Grammar.ParseExpression, ParseLevel, LeftRest, InRest, CoalesceRest, ConditionalRest, Grammar.ParseUnary,
        PostfixRest, Grammar.ParseList;
      match Current()
      case Ident(name) =>
        Next();
        r := ParsePostfix(Name(name));
      case Lit(text) =>
        Next();
        r := ParsePostfix(Literal(text));
      case OpenParen =>
        Next();
        r := ParseExpression();
        if r.Tree? {
          var inner := r.expr;
          var closed := Accept(CloseParen);
          if closed {
            r := ParsePostfix(inner);
          } else {
            r := Broken(index);
          }
        }
      case OpenBracket => r := Elsewhere(index);
      case OpenBrace => r := Elsewhere(index);
      case Ellipsis => r := Elsewhere(index);
      case KeywordAwait => r := Elsewhere(index);
      case _ => r := Broken(index);
    }

    /** The loop over what follows a primary expression. */
    method ParsePostfix(first: Expr) returns (r: Outcome)
      requires Valid()
      modifies this
      ensures Valid() && index == r.at && r == PostfixRest(tokens, first, old(index))
      decreases |tokens| - index, 15
    {
      r := Tree(first, index);
      var more := true;
      while more
        invariant Valid() && old(index) <= index && r.Tree? && index == r.at
        invariant PostfixRest(tokens, first, old(index)) == if more then PostfixRest(tokens, r.expr, index) else r
        decreases |tokens| - index, more
      {
        match Current() {
          case Period => r := ParseMember(r.expr);
          case OpenParen => r := ParseCall(r.expr);
          case OpenBracket => r := ParseElement(r.expr);
          case _ => more := false;
        }
        if !r.Tree? { return; }
      }
    }

    /** One step of the loop: afterwards, what follows is what followed before, or there is an error. */
    ghost predicate OneMore(r: Outcome, inner: Expr, start: nat)
      requires Valid() && start < |tokens|
      reads this
    {
      && index == r.at && start < index
      && PostfixRest(tokens, inner, start) == if r.Tree? then PostfixRest(tokens, r.expr, index) else r
    }

    method ParseMember(inner: Expr) returns (r: Outcome)
      requires Valid() && Current() == Period
      modifies this
      ensures Valid() && OneMore(r, inner, old(index))
      decreases |tokens| - index, 14
    {
      Next();
      if !Current().Ident? { return Broken(index); }
      var name := Current().name;
      Next();
      r := Tree(Member(inner, name), index);
    }

    method ParseCall(callee: Expr) returns (r: Outcome)
      requires Valid() && Current() == OpenParen
      modifies this
      ensures Valid() && OneMore(r, callee, old(index))
      decreases |tokens| - index, 14
    {
      hide Grammar.ParseExpression, ParseLevel, LeftRest, InRest, CoalesceRest, ConditionalRest, Grammar.ParseUnary,
        Grammar.ParsePrimary, Grammar.ParseList;
      Next();
      var args: seq<Expr> := [];
      if Current() != CloseParen {
        var list := ParseList();
        if list.NoTrees? { return list.failure; }
        args := list.exprs;
      }
      var closed := Accept(CloseParen);
      r := if closed then Tree(Call(callee, args), index) else Broken(index);
    }

    method ParseElement(inner: Expr) returns (r: Outcome)
      requires Valid() && Current() == OpenBracket
      modifies this
      ensures Valid() && OneMore(r, inner, old(index))
      decreases |tokens| - index, 14
    {
      hide Parser.Valid;
      Next();
      var list := ParseList();
      if list.NoTrees? { return list.failure; }
      var closed := Accept(CloseBracket);
      r := if closed then Tree(Element(inner, list.exprs), index) else Broken(index);
    }

    /** Expressions with commas between them. */
    method ParseList() returns (r: Outcomes)
      requires Valid()
      modifies this
      ensures Valid() && r == Grammar.ParseList(tokens, old(index))
      ensures index == if r.Trees? then r.at else r.failure.at
      decreases |tokens| - index, 21
    {
      hide Grammar.ParseList, Grammar.ParseExpression;
      var es: seq<Expr> := [];
      var more := true;
      NothingBefore(Grammar.ParseList(tokens, index));
      while more
        invariant Valid() && old(index) <= index
        invariant Grammar.ParseList(tokens, old(index)) ==
                  if more then After(es, Grammar.ParseList(tokens, index)) else Trees(es, index)
        decreases |tokens| - index, more
      {
        ghost var start, before := index, es;
        var e := ParseExpression();
        ListStep(tokens, start, e);
        if !e.Tree? { return NoTrees(e); }
        es := es + [e.expr];
        more := Accept(Comma);
        if more { AfterMore(before, e.expr, Grammar.ParseList(tokens, index)); }
      }
      r := Trees(es, index);
    }

    // ----- recovery -----

    /** Skips a statement that has an error. */
    method Recover()
      requires Valid()
      modifies this
      ensures Valid() && index == Recovery.Recovered(tokens, old(index))
    {
      hide Recovery.SkipFrom;
      var possibleStart, unmatched: nat := false, 0;
      while (!possibleStart || unmatched > 0) && Current() != Eof
        invariant Valid()
        invariant Recovery.Recovered(tokens, old(index)) == Recovery.SkipFrom(tokens, index, possibleStart, unmatched)
        decreases |tokens| - index, !possibleStart || unmatched > 0
      {
        possibleStart, unmatched := SkipOne(possibleStart, unmatched);
      }
      Stops(tokens, index, possibleStart, unmatched);
    }

    /** One round of skipping. */
    method SkipOne(started: bool, braces: nat) returns (possibleStart: bool, unmatched: nat)
      requires Valid() && (!started || braces > 0) && Current() != Eof
      modifies this
      ensures Valid() && old(index) <= index && (index == old(index) ==> possibleStart && unmatched == 0)
      ensures Recovery.SkipFrom(tokens, old(index), started, braces)
              == Recovery.SkipFrom(tokens, index, possibleStart, unmatched)
    {
      possibleStart, unmatched := started, braces;
      var advanced := false;
      if Recovery.StartsByKeyword(Current()) {
        possibleStart := true;
      } else if Current().Ident? {
        possibleStart := Recovery.StartsByName(tokens, index);
      } else if Current() == Semicolon {
        Next();
        possibleStart, advanced := true, true;
      } else if Current() == OpenBrace {
        unmatched := unmatched + 1;
      } else if Current() == CloseBrace {
        if unmatched > 0 { unmatched := unmatched - 1; }
        Next();
        advanced := true;
      }
      if (!possibleStart || unmatched > 0) && !advanced {
        Next();
      }
    }
  }

  /** A list, once its first expression has been parsed. */
  lemma ListStep(ts: seq<Token>, i: nat, first: Outcome)
    requires Ended(ts) && i < |ts| && first == Grammar.ParseExpression(ts, i)
    ensures first.at < |ts| && (!first.Tree? ==> Grammar.ParseList(ts, i) == NoTrees(first))
    ensures first.Tree? && ts[first.at] != Comma ==> Grammar.ParseList(ts, i) == Trees([first.expr], first.at)
    ensures first.Tree? && ts[first.at] == Comma ==>
              first.at + 1 < |ts| && Grammar.ParseList(ts, i)
                == After([first.expr], Grammar.ParseList(ts, first.at + 1))
  {
    hide Grammar.ParseExpression;
  }

  lemma NothingBefore(rest: Outcomes)
    ensures After([], rest) == rest
  {
    if rest.Trees? { assert [] + rest.exprs == rest.exprs; }
  }

  lemma Stops(ts: seq<Token>, i: nat, started: bool, braces: nat)
    requires Ended(ts) && i < |ts| && ((started && braces == 0) || ts[i] == Eof)
    ensures Recovery.SkipFrom(ts, i, started, braces) == i
  {
  }

  /** The end of the parameters, and the arrow. */
  function ClosesSignature(ts: seq<Token>, i: nat): bool
    requires Ended(ts) && i < |ts|
  {
    ts[i] == CloseParen && ts[i + 1] == Arrow
  }

  /** A list behind expressions that have been parsed already. */
  function After(es: seq<Expr>, rest: Outcomes): Outcomes {
    match rest
    case Trees(more, j) => Trees(es + more, j)
    case NoTrees(failure) => rest
  }

  lemma AfterMore(es: seq<Expr>, e: Expr, rest: Outcomes)
    ensures After(es, After([e], rest)) == After(es + [e], rest)
  {
    if rest.Trees? { assert es + ([e] + rest.exprs) == (es + [e]) + rest.exprs; }
  }
}
