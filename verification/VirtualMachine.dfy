/**
 What the instructions of the virtual machine compute on integers, booleans, texts and null. Integers have 64 bits. What
 a program does behind an overflow, a division by zero or a shift by too much is left open, and so is what it does with
 other values.
 */
module VirtualMachine {
  import opened Options
  import opened Ir
  import opened Layout
  import opened Listings
  import opened Machine

  /** The result, a fault, or nothing that is said here. */
  datatype Answer = Known(value: Value) | Rejected | Open

  predicate Fits(n: int) { -0x8000_0000_0000_0000 <= n < 0x8000_0000_0000_0000 }

  function Within(n: int): Answer { if Fits(n) then Known(IntValue(n)) else Open }

  /** Division rounds toward zero. */
  function Quotient(a: int, b: int): int
    requires b != 0
  {
    if a >= 0 then a / b else -(-a / b)
  }

  function Remainder(a: int, b: int): int
    requires b != 0
  {
    if a >= 0 then a % b else -(-a % b)
  }

  function RaisedTo(a: int, n: nat): int {
    if n == 0 then 1 else a * RaisedTo(a, n - 1)
  }

  function Bits(n: int): bv64
    requires Fits(n)
  {
    (if n < 0 then n + 0x1_0000_0000_0000_0000 else n) as bv64
  }

  function Signed(w: bv64): int {
    if w as int < 0x8000_0000_0000_0000 then w as int else w as int - 0x1_0000_0000_0000_0000
  }

  function BitsInBoth(a: int, b: int): int
    requires Fits(a) && Fits(b)
  {
    Signed(Bits(a) & Bits(b))
  }

  function BitsInEither(a: int, b: int): int
    requires Fits(a) && Fits(b)
  {
    Signed(Bits(a) | Bits(b))
  }

  function BitsInOne(a: int, b: int): int
    requires Fits(a) && Fits(b)
  {
    Signed(Bits(a) ^ Bits(b))
  }

  function ShiftedLeft(a: int, n: int): int
    requires Fits(a) && 0 <= n < 64
  {
    Signed(Bits(a) << n)
  }

  /** Zeros are shifted in, for negative numbers too. */
  function ShiftedRight(a: int, n: int): int
    requires Fits(a) && 0 <= n < 64
  {
    Signed(Bits(a) >> n)
  }

  /** Not an integer, nor a floating-point number. */
  predicate NotNumber(v: Value) { v.NullValue? || v.BoolValue? || v.TextValue? }

  function Logical(op: BinaryOp, v: Value, w: Value): Answer
    requires op.LogicalAnd? || op.LogicalOr?
  {
    if !v.BoolValue? || !w.BoolValue? then Rejected
    else Known(BoolValue(if op.LogicalAnd? then v.b && w.b else v.b || w.b))
  }

  function Compared(op: BinaryOp, v: Value, w: Value): Answer
    requires op.LessThan? || op.LessThanEqual? || op.GreaterThan? || op.GreaterThanEqual?
  {
    if NotNumber(v) || NotNumber(w) then Rejected
    else if !v.IntValue? || !w.IntValue? then Open
    else
      match op
      case LessThan => Known(BoolValue(v.n < w.n))
      case LessThanEqual => Known(BoolValue(v.n <= w.n))
      case GreaterThan => Known(BoolValue(v.n > w.n))
      case GreaterThanEqual => Known(BoolValue(v.n >= w.n))
  }

  /** Values of different types cannot be compared. */
  function SameValue(v: Value, w: Value): Answer {
    if v.RefValue? || w.RefValue? then Open
    else if v.IntValue? == w.IntValue? && v.BoolValue? == w.BoolValue? && v.TextValue? == w.TextValue? then
      Known(BoolValue(v == w))
    else Rejected
  }

  /** A power is computed by repeated squaring, once more than the result needs. */
  function Computed(op: BinaryOp, v: Value, w: Value): Answer
    requires op.Add? || op.Sub? || op.Mul? || op.Div? || op.Pow?
  {
    if NotNumber(v) || NotNumber(w) then Rejected
    else if !v.IntValue? || !w.IntValue? then Open
    else
      match op
      case Add => Within(v.n + w.n)
      case Sub => Within(v.n - w.n)
      case Mul => Within(v.n * w.n)
      case Div => if w.n == 0 then Open else Within(Quotient(v.n, w.n))
      case Pow => if w.n < 0 || !Fits(RaisedTo(v.n, 2 * w.n)) then Open else Within(RaisedTo(v.n, w.n))
  }

  /** The remainder is only refused when neither operand is a number. */
  function Modulus(v: Value, w: Value): Answer {
    if NotNumber(v) && NotNumber(w) then Rejected
    else if !v.IntValue? || !w.IntValue? || w.n == 0 then Open
    else if Fits(Quotient(v.n, w.n)) then Within(Remainder(v.n, w.n))
    else Open
  }

  function Bitwise(op: BinaryOp, v: Value, w: Value): Answer
    requires op.BitAnd? || op.BitOr? || op.BitXor? || op.LeftShift? || op.RightShift?
  {
    if !v.IntValue? || !w.IntValue? then Rejected
    else if !Fits(v.n) || !Fits(w.n) then Open
    else
      match op
      case BitAnd => Known(IntValue(BitsInBoth(v.n, w.n)))
      case BitOr => Known(IntValue(BitsInEither(v.n, w.n)))
      case BitXor => Known(IntValue(BitsInOne(v.n, w.n)))
      case LeftShift => if 0 <= w.n < 64 then Known(IntValue(ShiftedLeft(v.n, w.n))) else Open
      case RightShift => if 0 <= w.n < 64 then Known(IntValue(ShiftedRight(v.n, w.n))) else Open
  }

  /** The machine has no instruction for `in`, which is refused whatever the operands are. */
  function BinaryAnswer(op: BinaryOp, v: Value, w: Value): Answer {
    match op
    case In => Rejected
    case Mod => Modulus(v, w)
    case Equal => SameValue(v, w)
    case LogicalAnd | LogicalOr => Logical(op, v, w)
    case LessThan | LessThanEqual | GreaterThan | GreaterThanEqual => Compared(op, v, w)
    case Add | Sub | Mul | Div | Pow => Computed(op, v, w)
    case BitAnd | BitOr | BitXor | LeftShift | RightShift => Bitwise(op, v, w)
  }

  /** Nor has it one for the complement or the negative. */
  function UnaryAnswer(op: UnaryOp, v: Value): Answer {
    match op
    case BitNot => Rejected
    case Negate => Rejected
    case LogicalNot => if v.BoolValue? then Known(BoolValue(!v.b)) else Rejected
    case Truth =>
      match v
      case NullValue => Known(BoolValue(false))
      case BoolValue(b) => Known(BoolValue(b))
      case IntValue(n) => Known(BoolValue(n != 0))
      case TextValue(s) => Known(BoolValue(s != ""))
      case RefValue(_) => Open
  }

  function AnswerTo(kind: Kind, values: seq<Value>): Answer {
    if |values| != Arity(kind) then Open
    else
      match kind
      case Binary(op) => BinaryAnswer(op, values[0], values[1])
      case Unary(op) => UnaryAnswer(op, values[0])
      case Assert => if values[0] == BoolValue(true) then Known(NullValue) else Rejected
      case _ => Open
  }

  /** What is left open is as `other` says. */
  function Respond(other: Semantics, kind: Kind, values: seq<Value>, h: History): Reply {
    match AnswerTo(kind, values)
    case Known(v) => Reply(v, h)
    case Rejected => Fault(h)
    case Open => other(kind, values, h)
  }

  function OnMachine(other: Semantics): Semantics {
    (kind, values, h) => Respond(other, kind, values, h)
  }

  /** Rounding toward zero: what remains is smaller than the divisor, and has the sign of the dividend. */
  lemma RoundsTowardZero(a: int, b: int)
    requires b != 0
    ensures a == Quotient(a, b) * b + Remainder(a, b)
    ensures -b < Remainder(a, b) < b || b < Remainder(a, b) < -b
    ensures if a >= 0 then Remainder(a, b) >= 0 else Remainder(a, b) <= 0
  {
    if a >= 0 {
      assert a == a / b * b + a % b;
    } else {
      assert -a == -a / b * b + -a % b;
    }
  }

  // ----- powers -----

  lemma {:induction false} PowersAdd(a: int, m: nat, n: nat)
    ensures RaisedTo(a, m + n) == RaisedTo(a, m) * RaisedTo(a, n)
  {
    if m > 0 { PowersAdd(a, m - 1, n); }
  }

  lemma {:induction false} SquareRaised(a: int, n: nat)
    ensures RaisedTo(a * a, n) == RaisedTo(a, 2 * n)
  {
    if n > 0 {
      SquareRaised(a, n - 1);
      assert RaisedTo(a, 2 * n) == a * RaisedTo(a, 2 * n - 1) && RaisedTo(a, 2 * n - 1) == a * RaisedTo(a, 2 * n - 2);
      assert a * a * RaisedTo(a, 2 * n - 2) == a * (a * RaisedTo(a, 2 * n - 2));
    }
  }

  /** The power as it is computed: by repeated squaring. */
  method PowInt(base: int, expo: nat) returns (result: int)
    ensures result == RaisedTo(base, expo)
  {
    result := 1;
    var b, e := base, expo;
    while e > 0
      invariant result * RaisedTo(b, e) == RaisedTo(base, expo)
    {
      SquareRaised(b, e / 2);
      if e % 2 == 1 {
        assert RaisedTo(b, e) == b * RaisedTo(b, 2 * (e / 2));
        assert result * (b * RaisedTo(b, 2 * (e / 2))) == result * b * RaisedTo(b, 2 * (e / 2));
        result := result * b;
      } else {
        assert e == 2 * (e / 2);
      }
      b, e := b * b, e / 2;
    }
  }

  // ----- what instructions do to the stack -----

  /** The next instruction is performed, with this stack. */
  predicate Leaves(a: After, pc: nat, stack: seq<Value>, h: History) {
    a == Jumps(pc, Frame(stack, h))
  }

  /** Operators take their operands off the stack, the first of them lowest, and leave their result. */
  lemma OperatorsOnStack(
      sem: Semantics, code: FlatCode, args: seq<Value>, pc: nat, below: seq<Value>, v: Value, w: Value, op: BinaryOp,
      uop: UnaryOp, h: History)
    requires pc < |code|
    ensures var r := sem(Binary(op), [v, w], h);
            code[pc] == Plain(Binary(op)) && r.Reply? ==>
              Leaves(Execute(sem, code, args, pc, Frame(below + [v, w], h)), pc + 1, below + [r.value], r.history)
    ensures var r := sem(Unary(uop), [v], h);
            code[pc] == Plain(Unary(uop)) && r.Reply? ==>
              Leaves(Execute(sem, code, args, pc, Frame(below + [v], h)), pc + 1, below + [r.value], r.history)
  {
    TopOf(below, [v, w]);
    TopOf(below, [v]);
  }

  lemma TopOf(below: seq<Value>, top: seq<Value>)
    ensures (below + top)[|below + top| - |top|..] == top && (below + top)[..|below + top| - |top|] == below
  {
  }

  /** An assertion leaves nothing, a constant its value, and a call its result, if it has one. */
  lemma KindsOnStack(
      sem: Semantics, code: FlatCode, args: seq<Value>, pc: nat, below: seq<Value>, vs: seq<Value>, kind: Kind,
      h: History)
    requires pc < |code| && code[pc] == Plain(kind) && sem(kind, vs, h).Reply?
    ensures var r, a := sem(kind, vs, h), Execute(sem, code, args, pc, Frame(below + vs, h));
            && (kind == Assert && |vs| == 1 ==> Leaves(a, pc + 1, below, r.history))
            && (kind.Constant? && vs == [] ==> Leaves(a, pc + 1, below + [r.value], r.history))
            && (kind.Call? && kind.argc == |vs| && kind.result ==> Leaves(a, pc + 1, below + [r.value], r.history))
            && (kind.Call? && kind.argc == |vs| && !kind.result ==> Leaves(a, pc + 1, below, r.history))
  {
    TopOf(below, vs);
  }

  /** Loads and stores, pops, jumps and returns. */
  lemma MovesOnStack(
      sem: Semantics, code: FlatCode, args: seq<Value>, pc: nat, below: seq<Value>, v: Value, h: History)
    requires pc < |code|
    ensures var a, op := Execute(sem, code, args, pc, Frame(below + [v], h)), code[pc];
            && (op.LoadFrame? && 0 <= op.offset < |below| ==>
                  Leaves(a, pc + 1, below + [v] + [below[op.offset]], h))
            && (op.StoreFrame? && 0 <= op.offset < |below| ==> Leaves(a, pc + 1, below[op.offset := v], h))
            && (op.Pop? ==> Leaves(a, pc + 1, below, h))
            && (op.Params? && op.count == |args| ==> Leaves(a, pc + 1, below + [v] + args, h))
            && (op.Jump? && op.target.Some? ==> Leaves(a, op.target.value, below + [v], h))
            && (op.Else? && v == BoolValue(true) ==> Leaves(a, pc + 1, below, h))
            && (op.Else? && v == BoolValue(false) && op.target.Some? ==> Leaves(a, op.target.value, below, h))
            && (op.Else? && !v.BoolValue? ==> a == Ends(Faulted(Frame(below, h))))
            && (op.Ret? && |below| >= |args| ==> a == Ends(Returned(Some(v), Frame(below + [v], h))))
            && (op.Ret? && |below| < |args| ==> a == Ends(Returned(None, Frame(below + [v], h))))
  {
    TopOf(below, [v]);
    assert (below + [v])[|below|] == v;
  }
}
