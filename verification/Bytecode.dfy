/**
 Bytecode instructions and their encoding: an opcode, and operands whose number and width depend on it.

 An instruction refers to functions and to instructions of its own function; in an encoded instruction both are
 offsets into the code section.
 */
module Bytecode {
  import opened Options
  import opened Bytes

  /** Instructions without operands. */
  datatype PlainOp =
    | Pop | Get | Set | Append | In | CallIndirect | Return
    | Bool | LogicalAnd | LogicalOr | LogicalNot
    | LessThan | LessThanEqual | Equal | GreaterThan | GreaterThanEqual
    | Add | Sub | Mul | Div | Pow | Mod | Neg
    | And | Or | Xor | LeftShift | RightShift | Not
    | Print | GetOpt | Assert

  datatype Upvalue = Upvalue(isLocal: bool, index: Int64)

  datatype Instr<F, J> =
    | LoadFrame(frame: Int64)
    | LoadData(data: Uint64)
    | LoadCode(fn: F)
    | LoadExpression(text: seq<Byte>)
    | StoreFrame(frame: Int64)
    | Params(count: Byte)
    | Call(fn: F)
    | Schedule(fn: F, count: Byte)
    | ScheduleIndirect(count: Byte)
    | Closure(fn: F, upvalues: seq<Upvalue>)
    | UpGet(id: Byte)
    | UpSet(id: Byte)
    | VmCall(code: Byte)
    | Else(target: J)
    | Jump(target: J)
    | Exit(code: Byte)
    | Plain(op: PlainOp)

  type Wire = Instr<Uint64, Uint64>

  function PlainNumber(op: PlainOp): Byte {
    match op
    case Pop => 6
    case Get => 7
    case Set => 8
    case Append => 9
    case In => 10
    case CallIndirect => 13
    case Return => 16
    case Bool => 23
    case LogicalAnd => 24
    case LogicalOr => 25
    case LogicalNot => 26
    case LessThan => 27
    case LessThanEqual => 28
    case Equal => 29
    case GreaterThan => 30
    case GreaterThanEqual => 31
    case Add => 32
    case Sub => 33
    case Mul => 34
    case Div => 35
    case Pow => 36
    case Mod => 37
    case Neg => 38
    case And => 39
    case Or => 40
    case Xor => 41
    case LeftShift => 42
    case RightShift => 43
    case Not => 44
    case Print => 45
    case GetOpt => 46
    case Assert => 48
  }

  function Opcode<F, J>(i: Instr<F, J>): Byte {
    match i
    case LoadFrame(_) => 1
    case LoadData(_) => 2
    case LoadCode(_) => 3
    case LoadExpression(_) => 4
    case StoreFrame(_) => 5
    case Params(_) => 11
    case Call(_) => 12
    case Schedule(_, _) => 14
    case ScheduleIndirect(_) => 15
    case Closure(_, _) => 17
    case UpGet(_) => 18
    case UpSet(_) => 19
    case VmCall(_) => 20
    case Else(_) => 21
    case Jump(_) => 22
    case Exit(_) => 47
    case Plain(op) => PlainNumber(op)
  }

  /** The size that the layout counts for an instruction. */
  function ComputeSize<F, J>(i: Instr<F, J>): (r: nat)
    ensures r > 0
  {
    match i
    case LoadFrame(_) => 1 + 8
    case LoadData(_) => 1 + 8
    case LoadCode(_) => 1 + 8
    case LoadExpression(text) => 1 + |text| + 1
    case StoreFrame(_) => 1 + 8
    case Params(_) => 1 + 1
    case Call(_) => 1 + 8
    case Schedule(_, _) => 1 + 8 + 1
    case ScheduleIndirect(_) => 1 + 1
    case Closure(_, upvalues) => 1 + 1 + 8 + |upvalues| * (1 + 8)
    case UpGet(_) => 1 + 1
    case UpSet(_) => 1 + 1
    case VmCall(_) => 1 + 1
    case Else(_) => 1 + 8
    case Jump(_) => 1 + 8
    case Exit(_) => 1 + 1
    case Plain(_) => 1
  }

  /** Texts have no NUL in them, and the number of upvalues fits a byte. */
  predicate Encodable<F, J>(i: Instr<F, J>) {
    (i.LoadExpression? ==> 0 !in i.text) && (i.Closure? ==> |i.upvalues| < 0x100)
  }

  // ----- encoding -----

  function EncodeUpvalue(u: Upvalue): seq<Byte> { [if u.isLocal then 1 else 0] + SignedWord(u.index) }

  function EncodeUpvalues(us: seq<Upvalue>): (r: seq<Byte>)
    ensures |r| == 9 * |us|
  {
    if us == [] then [] else EncodeUpvalues(us[..|us| - 1]) + EncodeUpvalue(us[|us| - 1])
  }

  function Operands(i: Wire): seq<Byte>
    requires Encodable(i)
  {
    match i
    case LoadFrame(n) => SignedWord(n)
    case LoadData(n) => Word(n)
    case LoadCode(a) => Word(a)
    case LoadExpression(text) => text + [0]
    case StoreFrame(n) => SignedWord(n)
    case Params(n) => [n]
    case Call(a) => Word(a)
    case Schedule(a, n) => Word(a) + [n]
    case ScheduleIndirect(n) => [n]
    case Closure(a, us) => [|us|] + Word(a) + EncodeUpvalues(us)
    case UpGet(n) => [n]
    case UpSet(n) => [n]
    case VmCall(n) => [n]
    case Else(a) => Word(a)
    case Jump(a) => Word(a)
    case Exit(n) => [n]
    case Plain(_) => []
  }

  function Encode(i: Wire): seq<Byte>
    requires Encodable(i)
  {
    [Opcode(i)] + Operands(i)
  }

  /** The size that is counted is the number of bytes that are written. */
  lemma SizeIsLength(i: Wire)
    requires Encodable(i)
    ensures |Encode(i)| == ComputeSize(i)
  {
  }

  // ----- decoding -----

  function DecodeUpvalue(bytes: seq<Byte>): Option<Upvalue> {
    if bytes == [] || bytes[0] > 1 then None
    else
      match ReadSignedWord(bytes[1..])
      case Some(n) => Some(Upvalue(bytes[0] == 1, n))
      case None => None
  }

  function DecodeUpvalues(bytes: seq<Byte>, n: nat): Option<seq<Upvalue>> {
    if n == 0 then Some([])
    else if |bytes| < 9 * (n - 1) then None
    else
      match (DecodeUpvalues(bytes, n - 1), DecodeUpvalue(bytes[9 * (n - 1)..]))
      case (Some(us), Some(u)) => Some(us + [u])
      case _ => None
  }

  function PlainOf(b: Byte): Option<PlainOp> {
    match b
    case 6 => Some(Pop)
    case 7 => Some(Get)
    case 8 => Some(Set)
    case 9 => Some(Append)
    case 10 => Some(In)
    case 13 => Some(CallIndirect)
    case 16 => Some(Return)
    case 23 => Some(Bool)
    case 24 => Some(LogicalAnd)
    case 25 => Some(LogicalOr)
    case 26 => Some(LogicalNot)
    case 27 => Some(LessThan)
    case 28 => Some(LessThanEqual)
    case 29 => Some(Equal)
    case 30 => Some(GreaterThan)
    case 31 => Some(GreaterThanEqual)
    case 32 => Some(Add)
    case 33 => Some(Sub)
    case 34 => Some(Mul)
    case 35 => Some(Div)
    case 36 => Some(Pow)
    case 37 => Some(Mod)
    case 38 => Some(Neg)
    case 39 => Some(And)
    case 40 => Some(Or)
    case 41 => Some(Xor)
    case 42 => Some(LeftShift)
    case 43 => Some(RightShift)
    case 44 => Some(Not)
    case 45 => Some(Print)
    case 46 => Some(GetOpt)
    case 48 => Some(Assert)
    case _ => None
  }

  function WithSigned(n: Option<Int64>, make: Int64 -> Wire): Option<Wire> {
    match n case Some(x) => Some(make(x)) case None => None
  }

  function WithWord(n: Option<Uint64>, make: Uint64 -> Wire): Option<Wire> {
    match n case Some(x) => Some(make(x)) case None => None
  }

  function WithByte(n: Option<Byte>, make: Byte -> Wire): Option<Wire> {
    match n case Some(x) => Some(make(x)) case None => None
  }

  function DecodeSchedule(bytes: seq<Byte>): Option<Wire> {
    if |bytes| < 9 then None else WithWord(ReadWord(bytes), (a: Uint64) => Schedule(a, bytes[8]))
  }

  function DecodeClosure(bytes: seq<Byte>): Option<Wire> {
    if |bytes| < 9 then None
    else
      match (ReadWord(bytes[1..]), DecodeUpvalues(bytes[9..], bytes[0]))
      case (Some(a), Some(us)) => Some(Closure(a, us))
      case _ => None
  }

  /** The instruction at the start of `bytes`. */
  function Decode(bytes: seq<Byte>): Option<Wire> {
    if bytes == [] then None else DecodeOperands(bytes[0], bytes[1..])
  }

  /** The instruction with this opcode, given what follows the opcode. */
  function DecodeOperands(opcode: Byte, rest: seq<Byte>): Option<Wire> {
    match opcode
    case 1 => WithSigned(ReadSignedWord(rest), (n: Int64) => LoadFrame(n))
    case 2 => WithWord(ReadWord(rest), (n: Uint64) => LoadData(n))
    case 3 => WithWord(ReadWord(rest), (n: Uint64) => LoadCode(n))
    case 4 => (match ReadText(rest) case Some(text) => Some(LoadExpression(text)) case None => None)
    case 5 => WithSigned(ReadSignedWord(rest), (n: Int64) => StoreFrame(n))
    case 11 => WithByte(ReadByte(rest), (n: Byte) => Params(n))
    case 12 => WithWord(ReadWord(rest), (n: Uint64) => Call(n))
    case 14 => DecodeSchedule(rest)
    case 15 => WithByte(ReadByte(rest), (n: Byte) => ScheduleIndirect(n))
    case 17 => DecodeClosure(rest)
    case 18 => WithByte(ReadByte(rest), (n: Byte) => UpGet(n))
    case 19 => WithByte(ReadByte(rest), (n: Byte) => UpSet(n))
    case 20 => WithByte(ReadByte(rest), (n: Byte) => VmCall(n))
    case 21 => WithWord(ReadWord(rest), (n: Uint64) => Else(n))
    case 22 => WithWord(ReadWord(rest), (n: Uint64) => Jump(n))
    case 47 => WithByte(ReadByte(rest), (n: Byte) => Exit(n))
    case b => (match PlainOf(b) case Some(op) => Some(Plain(op)) case None => None)
  }

  // ----- an instruction is read back -----

  lemma UpvalueReads(u: Upvalue, rest: seq<Byte>)
    ensures DecodeUpvalue(EncodeUpvalue(u) + rest) == Some(u)
  {
    hide SignedWord, ReadSignedWord;
    assert (EncodeUpvalue(u) + rest)[1..] == SignedWord(u.index) + rest;
    SignedWordReads(u.index, rest);
  }

  lemma {:induction false} UpvaluesRead(us: seq<Upvalue>, rest: seq<Byte>)
    ensures DecodeUpvalues(EncodeUpvalues(us) + rest, |us|) == Some(us)
  {
    hide EncodeUpvalue, DecodeUpvalue;
    if us != [] {
      var before, last := us[..|us| - 1], us[|us| - 1];
      var bytes := EncodeUpvalues(us) + rest;
      assert bytes == EncodeUpvalues(before) + (EncodeUpvalue(last) + rest);
      UpvaluesRead(before, EncodeUpvalue(last) + rest);
      assert bytes[9 * |before|..] == EncodeUpvalue(last) + rest;
      UpvalueReads(last, rest);
      assert before + [last] == us;
    }
  }

  lemma ThreeParts<A>(x: A, a: seq<A>, b: seq<A>, rest: seq<A>)
    ensures var all := [x] + a + b + rest;
            all[0] == x && all[1..] == a + (b + rest) && all[1 + |a|..] == b + rest
  {
  }

  lemma ClosureReads(a: Uint64, us: seq<Upvalue>, rest: seq<Byte>)
    requires |us| < 0x100
    ensures DecodeClosure([|us|] + Word(a) + EncodeUpvalues(us) + rest) == Some(Closure(a, us))
  {
    hide Word, ReadWord, EncodeUpvalues, DecodeUpvalues;
    ThreeParts(|us|, Word(a), EncodeUpvalues(us), rest);
    WordReads(a, EncodeUpvalues(us) + rest);
    UpvaluesRead(us, rest);
  }

  lemma ScheduleReads(a: Uint64, n: Byte, rest: seq<Byte>)
    ensures DecodeSchedule(Word(a) + [n] + rest) == Some(Schedule(a, n))
  {
    assert Word(a) + [n] + rest == Word(a) + ([n] + rest);
    WordReads(a, [n] + rest);
  }

  lemma PlainReads(op: PlainOp)
    ensures PlainOf(PlainNumber(op)) == Some(op) && forall rest ::
            DecodeOperands(PlainNumber(op), rest) == Some(Plain(op))
  {
    hide DecodeClosure, ReadSignedWord, ReadText, ReadWord, WithByte, WithSigned, WithWord;
  }

  lemma WordOperandReads(i: Wire, rest: seq<Byte>)
    requires i.LoadData? || i.LoadCode? || i.Call? || i.Else? || i.Jump?
    ensures DecodeOperands(Opcode(i), Operands(i) + rest) == Some(i)
  {
    hide Word, ReadWord;
    WordReads(match i case LoadData(n) => n case LoadCode(n) => n case Call(n) => n case Else(n) => n
      case Jump(n) => n, rest);
  }

  lemma SignedOperandReads(i: Wire, rest: seq<Byte>)
    requires i.LoadFrame? || i.StoreFrame?
    ensures DecodeOperands(Opcode(i), Operands(i) + rest) == Some(i)
  {
    hide SignedWord, ReadSignedWord;
    SignedWordReads(i.frame, rest);
  }

  lemma ByteOperandReads(i: Wire, rest: seq<Byte>)
    requires i.Params? || i.ScheduleIndirect? || i.UpGet? || i.UpSet? || i.VmCall? || i.Exit?
    ensures DecodeOperands(Opcode(i), Operands(i) + rest) == Some(i)
  {
    assert (Operands(i) + rest)[0] == Operands(i)[0];
  }

  lemma OperandsRead(i: Wire, rest: seq<Byte>)
    requires Encodable(i)
    ensures DecodeOperands(Opcode(i), Operands(i) + rest) == Some(i)
  {
    hide Word, SignedWord, EncodeUpvalues, DecodeClosure, DecodeSchedule, ReadText, ReadWord, ReadSignedWord;
    match i
    case LoadExpression(text) => TextReads(text, rest);
    case Schedule(a, n) => ScheduleReads(a, n, rest);
    case Closure(a, us) => ClosureReads(a, us, rest);
    case Plain(op) => PlainReads(op);
    case LoadFrame(_) => SignedOperandReads(i, rest);
    case StoreFrame(_) => SignedOperandReads(i, rest);
    case LoadData(_) => WordOperandReads(i, rest);
    case LoadCode(_) => WordOperandReads(i, rest);
    case Call(_) => WordOperandReads(i, rest);
    case Else(_) => WordOperandReads(i, rest);
    case Jump(_) => WordOperandReads(i, rest);
    case _ => ByteOperandReads(i, rest);
  }

  /** Whatever follows it, an encoded instruction is read back. */
  lemma DecodesBack(i: Wire, rest: seq<Byte>)
    requires Encodable(i)
    ensures Decode(Encode(i) + rest) == Some(i)
  {
    hide Operands, DecodeOperands, Opcode;
    OperandsRead(i, rest);
    assert (Encode(i) + rest)[1..] == Operands(i) + rest;
  }

  // ----- streams of instructions -----

  predicate AllEncodable(xs: seq<Wire>) { forall k | 0 <= k < |xs| :: Encodable(xs[k]) }

  function EncodeAll(xs: seq<Wire>): seq<Byte>
    requires AllEncodable(xs)
  {
    if xs == [] then [] else EncodeAll(xs[..|xs| - 1]) + Encode(xs[|xs| - 1])
  }

  /** Reads instructions until the bytes are used up. */
  function DecodeAll(bytes: seq<Byte>): Option<seq<Wire>>
    decreases |bytes|
  {
    if bytes == [] then Some([])
    else
      match Decode(bytes)
      case None => None
      case Some(i) =>
        if ComputeSize(i) > |bytes| then None
        else
          match DecodeAll(bytes[ComputeSize(i)..])
          case Some(xs) => Some([i] + xs)
          case None => None
  }

  lemma AllButOneEncodable(xs: seq<Wire>)
    requires AllEncodable(xs) && xs != []
    ensures AllEncodable(xs[1..]) && AllEncodable(xs[..|xs| - 1]) && Encodable(xs[0]) && Encodable(xs[|xs| - 1])
  {
  }

  lemma EncodeNone()
    ensures EncodeAll([]) == []
  {
  }

  lemma EncodeLast(xs: seq<Wire>)
    requires AllEncodable(xs) && xs != []
    ensures EncodeAll(xs) == EncodeAll(xs[..|xs| - 1]) + Encode(xs[|xs| - 1])
  {
  }

  lemma FirstAndLast<A>(s: seq<A>)
    requires |s| > 1
    ensures s[1..][..|s[1..]| - 1] == s[..|s| - 1][1..] && s[1..][|s[1..]| - 1] == s[|s| - 1] && s[..|s| - 1][0] == s[0]
  {
  }

  lemma {:induction false} EncodeFirst(xs: seq<Wire>)
    requires AllEncodable(xs) && xs != []
    ensures AllEncodable(xs[1..]) && EncodeAll(xs) == Encode(xs[0]) + EncodeAll(xs[1..])
  {
    hide Encode, Encodable, AllEncodable, EncodeAll;
    AllButOneEncodable(xs);
    EncodeLast(xs);
    var before, last := xs[..|xs| - 1], xs[|xs| - 1];
    if |xs| == 1 {
      assert before == xs[1..] == [];
      EncodeNone();
    } else {
      FirstAndLast(xs);
      EncodeFirst(before);
      EncodeLast(xs[1..]);
    }
  }

  /** The instructions are recovered from the bytes. */
  lemma {:induction false} StreamDecodesBack(xs: seq<Wire>)
    requires AllEncodable(xs)
    ensures DecodeAll(EncodeAll(xs)) == Some(xs)
    decreases |xs|
  {
    hide Encode, Decode, Encodable;
    if xs != [] {
      EncodeFirst(xs);
      DecodesBack(xs[0], EncodeAll(xs[1..]));
      SizeIsLength(xs[0]);
      assert EncodeAll(xs)[ComputeSize(xs[0])..] == EncodeAll(xs[1..]);
      StreamDecodesBack(xs[1..]);
      assert [xs[0]] + xs[1..] == xs;
    }
  }

  /** Different streams of instructions are encoded differently. */
  lemma UniquelyDecodable(xs: seq<Wire>, ys: seq<Wire>)
    requires AllEncodable(xs) && AllEncodable(ys) && EncodeAll(xs) == EncodeAll(ys)
    ensures xs == ys
  {
    StreamDecodesBack(xs);
    StreamDecodesBack(ys);
  }
}
