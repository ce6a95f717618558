/**
 What compiled code computes, said operator by operator and without the tables that the compiler looks them up in: first
 for instructions of any meaning, then with the numbers that the virtual machine answers with.
 */
module OperatorMeaning {
  import opened Options
  import opened Ir
  import opened Layout
  import opened Machine
  import opened FunctionCode
  import opened Syntax
  import opened GeneratedFunction
  import opened BodyMeaning
  import opened Compiler
  import opened VirtualMachine

  /** A call of the code ends in this way, and in no other. */
  ghost predicate EndsWith(code: Listings.FlatCode, sem: Semantics, args: seq<Value>, h: History, end: Outcome) {
    && (exists k :: CallCode(code, sem, args, h, k).Ended?)
    && forall k | CallCode(code, sem, args, h, k).Ended? :: OutcomeOfCode(CallCode(code, sem, args, h, k)) == end
  }

  /** On the virtual machine, whatever is left open there: calls return the value, or they all fault. */
  ghost predicate Gives(code: Listings.FlatCode, args: seq<Value>, v: Value) {
    forall other: Semantics, h: History {:trigger EndsWith(code, OnMachine(other), args, h,
      Outcome.Result(Some(v), h))} ::
      EndsWith(code, OnMachine(other), args, h, Outcome.Result(Some(v), h))
  }

  ghost predicate Faults(code: Listings.FlatCode, args: seq<Value>) {
    forall other: Semantics, h: History {:trigger EndsWith(code, OnMachine(other), args, h, Failure(h))} ::
      EndsWith(code, OnMachine(other), args, h, Failure(h))
  }

  /** A call that ends as the instruction does. */
  function Afterwards(r: Reply): Outcome {
    match r
    case Reply(v, h) => Outcome.Result(Some(v), h)
    case Fault(h) => Failure(h)
  }

  /** The negative of what an instruction gives. */
  function Negated(sem: Semantics, r: Reply): Reply {
    match r
    case Reply(v, h) => sem(Unary(LogicalNot), [v], h)
    case Fault(h) => Fault(h)
  }

  /** `return x op y;` in a function of x and y. */
  const BOTH: seq<Symbol> := [0, 1]

  function OfBoth(op: BinaryOperator): seq<Stmt> { [ReturnValue(BinaryExpr(op, Variable(0), Variable(1)))] }

  /** `return op x;` in a function of x. */
  const ONE: seq<Symbol> := [0]

  function OfOne(op: UnaryOperator): seq<Stmt> { [ReturnValue(UnaryExpr(op, Variable(0)))] }

  // ----- what the evaluator says -----

  lemma CallEnds(
      code: Listings.FlatCode, params: seq<Symbol>, body: seq<Stmt>, sem: Semantics, args: seq<Value>, h: History)
    requires Implements(code, params, body) && |args| == |params|
    ensures EndsWith(code, sem, args, h, OutcomeOfBody(sem, params, body, args, h))
  {
    hide CallCode, OutcomeOfCode, OutcomeOfBody;
    assert AnswersAs(code, params, body, sem, args, h);
  }

  lemma BothBound(a: Value, b: Value)
    ensures EnvOf(BOTH, [a, b]) == map[0 := a, 1 := b]
  {
    assert BOTH[..1] == [0] && [a, b][..1] == [a];
    assert [0][..0] == [] && [a][..0] == [];
    assert EnvOf([0], [a]) == map[0 := a];
  }

  lemma OneBound(a: Value)
    ensures EnvOf(ONE, [a]) == map[0 := a]
  {
    assert ONE[..0] == [] && [a][..0] == [];
  }

  lemma OneStatement(sem: Semantics, s: Stmt, env: Env, h: History)
    ensures ExecAll(sem, [s], env, h) == Exec(sem, s, env, h)
  {
    assert [s][..0] == [];
  }

  lemma OfBothMeans(op: BinaryOperator, sem: Semantics, a: Value, b: Value, h: History)
    ensures OutcomeOfBody(sem, BOTH, OfBoth(op), [a, b], h) == Afterwards(ApplyBinary(sem, op, a, b, h))
  {
    hide EnvOf, ExecAll, ApplyBinary;
    BothBound(a, b);
    OneStatement(sem, OfBoth(op)[0], map[0 := a, 1 := b], h);
  }

  lemma OfOneMeans(op: UnaryOperator, sem: Semantics, a: Value, h: History)
    ensures OutcomeOfBody(sem, ONE, OfOne(op), [a], h) == Afterwards(sem(Unary(UnaryOpcode(op)), [a], h))
  {
    hide EnvOf, ExecAll, UnaryOpcode;
    OneBound(a);
    OneStatement(sem, OfOne(op)[0], map[0 := a], h);
  }

  /** Such bodies are compiled. */
  lemma AreAccepted(op: BinaryOperator, uop: UnaryOperator)
    ensures Accepted(BOTH, OfBoth(op)) && Accepted(ONE, OfOne(uop))
  {
    assert OfBoth(op)[..0] == [] && OfOne(uop)[..0] == [];
  }

  // ----- operators, for instructions of any meaning -----

  /** Each binary operator is the instruction of its name; `!=` is the negation of what is equal. */
  lemma BinaryOperatorsExactly(
      op: BinaryOperator, code: Listings.FlatCode, sem: Semantics, a: Value, b: Value, h: History)
    requires Implements(code, BOTH, OfBoth(op))
    ensures Accepted(BOTH, OfBoth(op))
    ensures op.Plus? ==> EndsWith(code, sem, [a, b], h, Afterwards(sem(Binary(Add), [a, b], h)))
    ensures op.Minus? ==> EndsWith(code, sem, [a, b], h, Afterwards(sem(Binary(Sub), [a, b], h)))
    ensures op.Multiply? ==> EndsWith(code, sem, [a, b], h, Afterwards(sem(Binary(Mul), [a, b], h)))
    ensures op.Divide? ==> EndsWith(code, sem, [a, b], h, Afterwards(sem(Binary(Div), [a, b], h)))
    ensures op.Exponent? ==> EndsWith(code, sem, [a, b], h, Afterwards(sem(Binary(Pow), [a, b], h)))
    ensures op.Modulo? ==> EndsWith(code, sem, [a, b], h, Afterwards(sem(Binary(Mod), [a, b], h)))
    ensures op.AndBits? ==> EndsWith(code, sem, [a, b], h, Afterwards(sem(Binary(BitAnd), [a, b], h)))
    ensures op.OrBits? ==> EndsWith(code, sem, [a, b], h, Afterwards(sem(Binary(BitOr), [a, b], h)))
    ensures op.XorBits? ==> EndsWith(code, sem, [a, b], h, Afterwards(sem(Binary(BitXor), [a, b], h)))
    ensures op.ShiftLeft? ==> EndsWith(code, sem, [a, b], h, Afterwards(sem(Binary(LeftShift), [a, b], h)))
    ensures op.ShiftRight? ==> EndsWith(code, sem, [a, b], h, Afterwards(sem(Binary(RightShift), [a, b], h)))
    ensures op.And? ==> EndsWith(code, sem, [a, b], h, Afterwards(sem(Binary(LogicalAnd), [a, b], h)))
    ensures op.Or? ==> EndsWith(code, sem, [a, b], h, Afterwards(sem(Binary(LogicalOr), [a, b], h)))
    ensures op.Less? ==> EndsWith(code, sem, [a, b], h, Afterwards(sem(Binary(LessThan), [a, b], h)))
    ensures op.LessOrEqual? ==> EndsWith(code, sem, [a, b], h, Afterwards(sem(Binary(LessThanEqual), [a, b], h)))
    ensures op.Greater? ==> EndsWith(code, sem, [a, b], h, Afterwards(sem(Binary(GreaterThan), [a, b], h)))
    ensures op.GreaterOrEqual? ==>
              EndsWith(code, sem, [a, b], h, Afterwards(sem(Binary(GreaterThanEqual), [a, b], h)))
    ensures op.Equals? || op.Equivalent? ==>
              EndsWith(code, sem, [a, b], h, Afterwards(sem(Binary(Equal), [a, b], h)))
    ensures op.NotEquals? ==>
              EndsWith(code, sem, [a, b], h, Afterwards(Negated(sem, sem(Binary(Equal), [a, b], h))))
    ensures op.IsIn? ==> EndsWith(code, sem, [a, b], h, Afterwards(sem(Binary(In), [a, b], h)))
  {
    hide EndsWith, Implements, OfBoth, Accepted, OutcomeOfBody;
    AreAccepted(op, Not);
    CallEnds(code, BOTH, OfBoth(op), sem, [a, b], h);
    OfBothMeans(op, sem, a, b, h);
  }

  lemma UnaryOperatorsExactly(op: UnaryOperator, code: Listings.FlatCode, sem: Semantics, a: Value, h: History)
    requires Implements(code, ONE, OfOne(op))
    ensures Accepted(ONE, OfOne(op))
    ensures op.Not? ==> EndsWith(code, sem, [a], h, Afterwards(sem(Unary(LogicalNot), [a], h)))
    ensures op.NotBits? ==> EndsWith(code, sem, [a], h, Afterwards(sem(Unary(BitNot), [a], h)))
    ensures op.Minus1? ==> EndsWith(code, sem, [a], h, Afterwards(sem(Unary(Negate), [a], h)))
  {
    hide EndsWith, Implements, OfOne, Accepted, OutcomeOfBody;
    AreAccepted(Plus, op);
    CallEnds(code, ONE, OfOne(op), sem, [a], h);
    OfOneMeans(op, sem, a, h);
  }

  // ----- operators on the virtual machine -----

  /** What the machine answers to a source operator. */
  function OperatorAnswer(op: BinaryOperator, v: Value, w: Value): Answer {
    if op.NotEquals? then
      var same := BinaryAnswer(Equal, v, w);
      if same.Known? then UnaryAnswer(LogicalNot, same.value) else same
    else BinaryAnswer(Opcode(op), v, w)
  }

  lemma OperatorAnswered(op: BinaryOperator, other: Semantics, v: Value, w: Value, h: History)
    ensures var r := ApplyBinary(OnMachine(other), op, v, w, h);
            && (OperatorAnswer(op, v, w).Known? ==> r == Reply(OperatorAnswer(op, v, w).value, h))
            && (OperatorAnswer(op, v, w).Rejected? ==> r == Fault(h))
  {
    hide BinaryAnswer;
  }

  lemma CodeAnswers(op: BinaryOperator, code: Listings.FlatCode, v: Value, w: Value)
    requires Implements(code, BOTH, OfBoth(op))
    ensures OperatorAnswer(op, v, w).Known? ==> Gives(code, [v, w], OperatorAnswer(op, v, w).value)
    ensures OperatorAnswer(op, v, w).Rejected? ==> Faults(code, [v, w])
  {
    hide EndsWith, Implements, OfBoth, OutcomeOfBody, OperatorAnswer, ApplyBinary, OnMachine;
    forall other: Semantics, h: History
      ensures var r := ApplyBinary(OnMachine(other), op, v, w, h);
              EndsWith(code, OnMachine(other), [v, w], h, Afterwards(r))
    {
      CallEnds(code, BOTH, OfBoth(op), OnMachine(other), [v, w], h);
      OfBothMeans(op, OnMachine(other), v, w, h);
    }
    if OperatorAnswer(op, v, w).Known? {
      forall other: Semantics, h: History
        ensures EndsWith(code, OnMachine(other), [v, w], h, Outcome.Result(Some(OperatorAnswer(op, v, w).value), h))
      {
        OperatorAnswered(op, other, v, w, h);
        assert EndsWith(code, OnMachine(other), [v, w], h, Afterwards(ApplyBinary(OnMachine(other), op, v, w, h)));
      }
    }
    if OperatorAnswer(op, v, w).Rejected? {
      forall other: Semantics, h: History
        ensures EndsWith(code, OnMachine(other), [v, w], h, Failure(h))
      {
        OperatorAnswered(op, other, v, w, h);
        assert EndsWith(code, OnMachine(other), [v, w], h, Afterwards(ApplyBinary(OnMachine(other), op, v, w, h)));
      }
    }
  }

  /** Operators compute what they are written for, in the range of 64 bits. */
  lemma NumbersExactly(op: BinaryOperator, code: Listings.FlatCode, a: int, b: int)
    requires Implements(code, BOTH, OfBoth(op))
    ensures var args := [IntValue(a), IntValue(b)];
            && (op.Plus? && Fits(a + b) ==> Gives(code, args, IntValue(a + b)))
            && (op.Minus? && Fits(a - b) ==> Gives(code, args, IntValue(a - b)))
            && (op.Multiply? && Fits(a * b) ==> Gives(code, args, IntValue(a * b)))
            && (op.Divide? && b != 0 && Fits(Quotient(a, b)) ==> Gives(code, args, IntValue(Quotient(a, b))))
            && (op.Modulo? && b != 0 && Fits(Quotient(a, b)) && Fits(b) ==>
                  Gives(code, args, IntValue(Remainder(a, b))))
            && (op.Exponent? && b >= 0 && Fits(RaisedTo(a, 2 * b)) && Fits(RaisedTo(a, b)) ==>
                  Gives(code, args, IntValue(RaisedTo(a, b))))
            && (op.Less? ==> Gives(code, args, BoolValue(a < b)))
            && (op.LessOrEqual? ==> Gives(code, args, BoolValue(a <= b)))
            && (op.Greater? ==> Gives(code, args, BoolValue(a > b)))
            && (op.GreaterOrEqual? ==> Gives(code, args, BoolValue(a >= b)))
            && (op.Equals? || op.Equivalent? ==> Gives(code, args, BoolValue(a == b)))
            && (op.NotEquals? ==> Gives(code, args, BoolValue(a != b)))
  {
    hide Implements, OfBoth, Gives, Faults, Quotient, Remainder, RaisedTo;
    CodeAnswers(op, code, IntValue(a), IntValue(b));
    if b != 0 { RoundsTowardZero(a, b); }
  }

  /** The same of the bits of integers; shifts are by less than 64. */
  lemma BitsExactly(op: BinaryOperator, code: Listings.FlatCode, a: int, b: int)
    requires Implements(code, BOTH, OfBoth(op)) && Fits(a) && Fits(b)
    ensures var args := [IntValue(a), IntValue(b)];
            && (op.AndBits? ==> Gives(code, args, IntValue(BitsInBoth(a, b))))
            && (op.OrBits? ==> Gives(code, args, IntValue(BitsInEither(a, b))))
            && (op.XorBits? ==> Gives(code, args, IntValue(BitsInOne(a, b))))
            && (op.ShiftLeft? && 0 <= b < 64 ==> Gives(code, args, IntValue(ShiftedLeft(a, b))))
            && (op.ShiftRight? && 0 <= b < 64 ==> Gives(code, args, IntValue(ShiftedRight(a, b))))
  {
    hide Implements, OfBoth, Gives, Faults, BitsInBoth, BitsInEither, BitsInOne, ShiftedLeft, ShiftedRight;
    CodeAnswers(op, code, IntValue(a), IntValue(b));
  }

  /** Both operands are evaluated, and of booleans all operators are computed that there are. */
  lemma BooleansExactly(op: BinaryOperator, code: Listings.FlatCode, a: bool, b: bool)
    requires Implements(code, BOTH, OfBoth(op))
    ensures var args := [BoolValue(a), BoolValue(b)];
            && (op.And? ==> Gives(code, args, BoolValue(a && b)))
            && (op.Or? ==> Gives(code, args, BoolValue(a || b)))
            && (op.Equals? || op.Equivalent? ==> Gives(code, args, BoolValue(a == b)))
            && (op.NotEquals? ==> Gives(code, args, BoolValue(a != b)))
            && (!(op.And? || op.Or? || op.Equals? || op.Equivalent? || op.NotEquals?) ==> Faults(code, args))
  {
    hide Implements, OfBoth, Gives, Faults;
    CodeAnswers(op, code, BoolValue(a), BoolValue(b));
  }

  predicate IsArithmetic(op: BinaryOperator) {
    op.Plus? || op.Minus? || op.Multiply? || op.Divide? || op.Exponent?
  }

  predicate IsOrder(op: BinaryOperator) {
    op.Less? || op.LessOrEqual? || op.Greater? || op.GreaterOrEqual?
  }

  predicate IsOfBits(op: BinaryOperator) {
    op.AndBits? || op.OrBits? || op.XorBits? || op.ShiftLeft? || op.ShiftRight?
  }

  /** Operands of wrong types are faults; the remainder alone takes one of them. */
  lemma WrongTypesFault(op: BinaryOperator, code: Listings.FlatCode, v: Value, w: Value)
    requires Implements(code, BOTH, OfBoth(op))
    ensures (IsArithmetic(op) || IsOrder(op)) && (NotNumber(v) || NotNumber(w)) ==> Faults(code, [v, w])
    ensures op.Modulo? && NotNumber(v) && NotNumber(w) ==> Faults(code, [v, w])
    ensures IsOfBits(op) && !(v.IntValue? && w.IntValue?) ==> Faults(code, [v, w])
    ensures (op.And? || op.Or?) && !(v.BoolValue? && w.BoolValue?) ==> Faults(code, [v, w])
  {
    hide Implements, OfBoth, Gives, Faults;
    CodeAnswers(op, code, v, w);
  }

  lemma CodeAnswersOne(op: UnaryOperator, code: Listings.FlatCode, v: Value)
    requires Implements(code, ONE, OfOne(op))
    ensures var answer := UnaryAnswer(UnaryOpcode(op), v);
            (answer.Known? ==> Gives(code, [v], answer.value)) && (answer.Rejected? ==> Faults(code, [v]))
  {
    hide EndsWith, Implements, OfOne, OutcomeOfBody, UnaryAnswer, UnaryOpcode;
    forall other: Semantics, h: History
      ensures EndsWith(code, OnMachine(other), [v], h,
                       Afterwards(Respond(other, Unary(UnaryOpcode(op)), [v], h)))
    {
      CallEnds(code, ONE, OfOne(op), OnMachine(other), [v], h);
      OfOneMeans(op, OnMachine(other), v, h);
    }
    var answer := UnaryAnswer(UnaryOpcode(op), v);
    if answer.Known? {
      forall other: Semantics, h: History
        ensures EndsWith(code, OnMachine(other), [v], h, Outcome.Result(Some(answer.value), h))
      {
        assert Respond(other, Unary(UnaryOpcode(op)), [v], h) == Reply(answer.value, h);
      }
    }
    if answer.Rejected? {
      forall other: Semantics, h: History
        ensures EndsWith(code, OnMachine(other), [v], h, Failure(h))
      {
        assert Respond(other, Unary(UnaryOpcode(op)), [v], h) == Fault(h);
      }
    }
  }

  /** A negation is computed of booleans, and of nothing else. */
  lemma NegationExactly(code: Listings.FlatCode, v: Value)
    requires Implements(code, ONE, OfOne(Not))
    ensures v.BoolValue? ==> Gives(code, [v], BoolValue(!v.b))
    ensures !v.BoolValue? ==> Faults(code, [v])
  {
    hide Implements, OfOne, Gives, Faults;
    CodeAnswersOne(Not, code, v);
  }

  lemma InNeverAnswers(code: Listings.FlatCode, v: Value, w: Value, u: Value)
    requires Implements(code, BOTH, OfBoth(IsIn))
    ensures Faults(code, [v, w]) && !Gives(code, [v, w], u)
  {
    hide Implements, OfBoth, Gives, Faults;
    CodeAnswers(IsIn, code, v, w);
    NotBoth(code, [v, w], u);
  }

  lemma OtherAnswers(op: BinaryOperator, code: Listings.FlatCode) returns (v: Value, u: Value)
    requires op != IsIn && Implements(code, BOTH, OfBoth(op))
    ensures Gives(code, [v, v], u) && !Faults(code, [v, v])
  {
    hide Implements, OfBoth, Gives, Faults, OperatorAnswer;
    v := if op.And? || op.Or? then BoolValue(true) else IntValue(1);
    CodeAnswers(op, code, v, v);
    OnesAreAnswered(op);
    u := OperatorAnswer(op, v, v).value;
    NotBoth(code, [v, v], u);
  }

  /** Of the operators ahead of an operand, only the negation ever gives a value; the others always fault. */
  lemma UnaryOnMachineExactly(op: UnaryOperator, code: Listings.FlatCode)
    requires Implements(code, ONE, OfOne(op))
    ensures (exists v: Value, u: Value :: Gives(code, [v], u)) <==> op == Not
    ensures (forall v: Value :: Faults(code, [v])) <==> op != Not
  {
    hide Implements, OfOne, Gives, Faults;
    if op == Not {
      NegationExactly(code, BoolValue(true));
      NotBoth(code, [BoolValue(true)], BoolValue(false));
    } else {
      forall v: Value ensures Faults(code, [v]) { CodeAnswersOne(op, code, v); }
      forall v: Value, u: Value ensures !Gives(code, [v], u) {
        CodeAnswersOne(op, code, v);
        NotBoth(code, [v], u);
      }
    }
  }

  /** It is only `in` that has no operands it gives a value of. */
  lemma OnMachineExactly(op: BinaryOperator, code: Listings.FlatCode)
    requires Implements(code, BOTH, OfBoth(op))
    ensures (exists v: Value, w: Value, u: Value :: Gives(code, [v, w], u)) <==> op != IsIn
    ensures (forall v: Value, w: Value :: Faults(code, [v, w])) <==> op == IsIn
  {
    hide Implements, OfBoth, Gives, Faults;
    if op == IsIn {
      forall v: Value, w: Value ensures Faults(code, [v, w]) { InNeverAnswers(code, v, w, v); }
      forall v: Value, w: Value, u: Value ensures !Gives(code, [v, w], u) { InNeverAnswers(code, v, w, u); }
    } else {
      var v, u := OtherAnswers(op, code);
    }
  }

  lemma OnesAreAnswered(op: BinaryOperator)
    requires op != IsIn
    ensures var v := if op.And? || op.Or? then BoolValue(true) else IntValue(1); OperatorAnswer(op, v, v).Known?
  {
    hide BitsInBoth, BitsInEither, BitsInOne, ShiftedLeft, ShiftedRight, RaisedTo;
    PowersOfOne();
  }

  lemma PowersOfOne()
    ensures RaisedTo(1, 1) == 1 && RaisedTo(1, 2) == 1
  {
    assert RaisedTo(1, 2) == 1 * RaisedTo(1, 1) && RaisedTo(1, 1) == 1 * RaisedTo(1, 0);
  }

  /** No call both faults and gives a value. */
  lemma NotBoth(code: Listings.FlatCode, args: seq<Value>, u: Value)
    ensures !(Gives(code, args, u) && Faults(code, args))
  {
    hide OnMachine, CallCode, OutcomeOfCode;
    var sem: Semantics := (kind, values, h) => Fault(h);
    if Gives(code, args, u) {
      assert EndsWith(code, OnMachine(sem), args, [], Outcome.Result(Some(u), []));
      var k :| CallCode(code, OnMachine(sem), args, [], k).Ended?;
      assert OutcomeOfCode(CallCode(code, OnMachine(sem), args, [], k)) != Failure([]);
      assert !EndsWith(code, OnMachine(sem), args, [], Failure([]));
    }
  }

  // ----- statements -----

  /** `if x { return y; } else { return z; }` */
  const THREE: seq<Symbol> := [0, 1, 2]

  const Choice: seq<Stmt> :=
    [If(Variable(0), [ReturnValue(Variable(1))], Alternative.Else([ReturnValue(Variable(2))]))]

  lemma ThreeBound(a: Value, b: Value, c: Value)
    ensures EnvOf(THREE, [a, b, c]) == map[0 := a, 1 := b, 2 := c]
  {
    assert THREE[..2] == BOTH && [a, b, c][..2] == [a, b];
    BothBound(a, b);
  }

  lemma ChoiceIsAccepted()
    ensures Accepted(THREE, Choice)
  {
    assert Choice[..0] == [];
    assert [ReturnValue(Variable(1))][..0] == [] && [ReturnValue(Variable(2))][..0] == [];
  }

  /** A condition takes its first branch if it is true and its second if it is false; what is no boolean is a fault. */
  lemma ChoosesExactly(code: Listings.FlatCode, sem: Semantics, x: Value, y: Value, z: Value, h: History)
    requires Implements(code, THREE, Choice)
    ensures Accepted(THREE, Choice)
    ensures x == BoolValue(true) ==> EndsWith(code, sem, [x, y, z], h, Outcome.Result(Some(y), h))
    ensures x == BoolValue(false) ==> EndsWith(code, sem, [x, y, z], h, Outcome.Result(Some(z), h))
    ensures !x.BoolValue? ==> EndsWith(code, sem, [x, y, z], h, Failure(h))
  {
    hide EndsWith, Implements, Accepted, EnvOf, ExecAll;
    ChoiceIsAccepted();
    CallEnds(code, THREE, Choice, sem, [x, y, z], h);
    ThreeBound(x, y, z);
    var env := map[0 := x, 1 := y, 2 := z];
    OneStatement(sem, Choice[0], env, h);
    OneStatement(sem, ReturnValue(Variable(1)), env, h);
    OneStatement(sem, ReturnValue(Variable(2)), env, h);
  }

  /** `let m = x; if m < y { m = y; } return m;` */
  const Greatest: seq<Stmt> := [
    Let(2, Variable(0)),
    If(BinaryExpr(Less, Variable(2), Variable(1)), [Assign(2, Variable(1))], NoElse),
    ReturnValue(Variable(2))]

  lemma Lengthened(before: seq<Stmt>, last: Stmt, scope: set<Symbol>, branch: bool)
    ensures ScopeAfterAll([], scope) == scope && ProperAll([], scope, branch)
    ensures var ss, now := before + [last], ScopeAfterAll(before, scope);
            && ScopeAfterAll(ss, scope) == ScopeAfter(last, now)
            && (ProperAll(ss, scope, branch) <==>
                  ProperAll(before, scope, branch) && !EndsAll(before) && Proper(last, now, branch))
  {
    assert (before + [last])[..|before|] == before;
  }

  lemma AcceptedIn(params: seq<Symbol>, body: seq<Stmt>, scope: set<Symbol>)
    requires Different(params) && ProperAll(body, scope, false) && EndsAll(body)
    requires scope == set x | x in params
    ensures Accepted(params, body)
  {
    var s: set<Symbol> := set x | x in params;
    assert s == scope && ProperAll(body, s, false);
  }

  lemma GreatestIsAccepted()
    ensures Accepted(BOTH, Greatest)
  {
    hide ProperAll, ScopeAfterAll;
    var scope: set<Symbol> := {0, 1};
    Lengthened([], Greatest[0], scope, false);
    Lengthened([Greatest[0]], Greatest[1], scope, false);
    Lengthened([Greatest[0], Greatest[1]], Greatest[2], scope, false);
    Lengthened([], Assign(2, Variable(1)), scope + {2}, true);
    assert [] + [Greatest[0]] == [Greatest[0]] && [Greatest[0]] + [Greatest[1]] == [Greatest[0], Greatest[1]];
    assert [Greatest[0], Greatest[1]] + [Greatest[2]] == Greatest;
    assert [] + [Assign(2, Variable(1))] == [Assign(2, Variable(1))];
    assert Proper(Greatest[1], scope + {2}, false) && Proper(Greatest[2], scope + {2}, false);
    assert ProperAll([Greatest[0]], scope, false) && ProperAll([Greatest[0], Greatest[1]], scope, false);
    AcceptedIn(BOTH, Greatest, scope);
  }

  /** A local is declared, compared, assigned to in a branch, and returned: this is the greater of two integers. */
  lemma GivesTheGreater(code: Listings.FlatCode, a: int, b: int)
    requires Implements(code, BOTH, Greatest)
    ensures Accepted(BOTH, Greatest) && Gives(code, [IntValue(a), IntValue(b)], IntValue(if a < b then b else a))
  {
    hide EndsWith, Implements, Accepted;
    GreatestIsAccepted();
    var m := IntValue(if a < b then b else a);
    forall other: Semantics, h: History
      ensures EndsWith(code, OnMachine(other), [IntValue(a), IntValue(b)], h, Outcome.Result(Some(m), h))
    {
      CallEnds(code, BOTH, Greatest, OnMachine(other), [IntValue(a), IntValue(b)], h);
      GreatestIsFound(other, a, b, h);
    }
  }

  lemma GreatestIsFound(other: Semantics, a: int, b: int, h: History)
    ensures OutcomeOfBody(OnMachine(other), BOTH, Greatest, [IntValue(a), IntValue(b)], h)
         == Outcome.Result(Some(IntValue(if a < b then b else a)), h)
  {
    hide EnvOf, ExecAll;
    var sem, v, w := OnMachine(other), IntValue(a), IntValue(b);
    BothBound(v, w);
    var env := map[0 := v, 1 := w, 2 := v];
    assert Greatest[..2][..1] == [Greatest[0]];
    OneStatement(sem, Greatest[0], map[0 := v, 1 := w], h);
    OneStatement(sem, Assign(2, Variable(1)), env, h);
    Unfolds(sem, Greatest, map[0 := v, 1 := w], h);
    Unfolds(sem, Greatest[..2], map[0 := v, 1 := w], h);
    assert Eval(sem, BinaryExpr(Less, Variable(2), Variable(1)), env, h) == Reply(BoolValue(a < b), h);
  }

  lemma Unfolds(sem: Semantics, ss: seq<Stmt>, env: Env, h: History)
    requires ss != []
    ensures var d := ExecAll(sem, ss[..|ss| - 1], env, h);
            ExecAll(sem, ss, env, h) == if d.Next? then Exec(sem, ss[|ss| - 1], d.env, d.history) else d
  {
  }

  /** `return f(x, y) op g(y);`, with functions 0 and 1. */
  function OfCalls(op: BinaryOperator): seq<Stmt> {
    [ReturnValue(BinaryExpr(op, CallExpr(0, [Variable(0), Variable(1)]), CallExpr(1, [Variable(1)])))]
  }

  /** Operands are evaluated from left to right, and so are arguments, which are handed over in that order. */
  lemma OperandsInOrder(op: BinaryOperator, code: Listings.FlatCode, sem: Semantics, a: Value, b: Value, h: History)
    requires Implements(code, BOTH, OfCalls(op)) && op != NotEquals
    requires sem(Call(0, 2, true), [a, b], h).Reply?
    ensures Accepted(BOTH, OfCalls(op))
    ensures var left := sem(Call(0, 2, true), [a, b], h);
            var right := sem(Call(1, 1, true), [b], left.history);
            EndsWith(code, sem, [a, b], h,
                     if right.Fault? then Failure(right.history)
                     else Afterwards(sem(Binary(Opcode(op)), [left.value, right.value], right.history)))
  {
    hide EndsWith, Implements, Accepted, EnvOf, ExecAll, Opcode;
    CallsAreAccepted(op);
    CallEnds(code, BOTH, OfCalls(op), sem, [a, b], h);
    BothBound(a, b);
    var env := map[0 := a, 1 := b];
    OneStatement(sem, OfCalls(op)[0], env, h);
    assert [Variable(0), Variable(1)][..1] == [Variable(0)] && [Variable(0)][..0] == [] && [Variable(1)][..0] == [];
    assert [] + [a] == [a] && [a] + [b] == [a, b] && [] + [b] == [b];
  }

  lemma CallsAreAccepted(op: BinaryOperator)
    ensures Accepted(BOTH, OfCalls(op))
  {
    assert OfCalls(op)[..0] == [];
    assert (set x | x in BOTH) == {0, 1};
  }

  /** `f(x, y); assert x; return y;`, with function 0. */
  const Effects: seq<Stmt> :=
    [Do(0, [Variable(0), Variable(1)]), AssertThat(Variable(0)), ReturnValue(Variable(1))]

  lemma EffectsAreAccepted()
    ensures Accepted(BOTH, Effects)
  {
    hide ProperAll, ScopeAfterAll;
    var scope: set<Symbol> := {0, 1};
    Lengthened([], Effects[0], scope, false);
    Lengthened([Effects[0]], Effects[1], scope, false);
    Lengthened([Effects[0], Effects[1]], Effects[2], scope, false);
    assert [] + [Effects[0]] == [Effects[0]] && [Effects[0]] + [Effects[1]] == [Effects[0], Effects[1]];
    assert [Effects[0], Effects[1]] + [Effects[2]] == Effects;
    assert Proper(Effects[0], scope, false) && Proper(Effects[1], scope, false) && Proper(Effects[2], scope, false);
    assert ProperAll([Effects[0]], scope, false) && ProperAll([Effects[0], Effects[1]], scope, false);
    AcceptedIn(BOTH, Effects, scope);
  }

  /** A call is made for its effect, and an assertion fails exactly if the instruction refuses it. */
  lemma EffectsInOrder(code: Listings.FlatCode, sem: Semantics, a: Value, b: Value, h: History)
    requires Implements(code, BOTH, Effects)
    ensures Accepted(BOTH, Effects)
    ensures var called := sem(Call(0, 2, false), [a, b], h);
            var asserted := sem(Kind.Assert, [a], called.history);
            EndsWith(code, sem, [a, b], h,
                     if called.Fault? then Failure(called.history)
                     else if asserted.Fault? then Failure(asserted.history)
                     else Outcome.Result(Some(b), asserted.history))
  {
    hide EndsWith, Implements, Accepted, EnvOf, ExecAll;
    EffectsAreAccepted();
    CallEnds(code, BOTH, Effects, sem, [a, b], h);
    BothBound(a, b);
    var env := map[0 := a, 1 := b];
    assert Effects[..2][..1] == [Effects[0]];
    OneStatement(sem, Effects[0], env, h);
    Unfolds(sem, Effects, env, h);
    Unfolds(sem, Effects[..2], env, h);
    assert [Variable(0), Variable(1)][..1] == [Variable(0)] && [Variable(0)][..0] == [];
    assert [] + [a] == [a] && [a] + [b] == [a, b];
  }
}
