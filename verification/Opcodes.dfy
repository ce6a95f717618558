/** The bytes of compiled code, said number by number: opcodes as the virtual machine lists them, and their operands. */
module Opcodes {
  import opened Options
  import opened Bytes
  import opened Ir
  import opened Layout
  import opened Listings
  import opened Assembly
  import Bytecode
  import Binary
  import Loader

  /** The code section from an instruction on. */
  ghost function From(p: Binary.Program, f: nat, pc: nat): seq<Byte>
    requires Binary.Linked(p) && f < |p.functions| && pc < |p.functions[f].code|
  {
    var offset := Binary.OffsetOf(p, f, pc);
    if offset <= |Binary.CodeBytes(p)| then Binary.CodeBytes(p)[offset..] else []
  }

  /** There are at least nine bytes: an opcode, and a number of eight bytes. */
  predicate HasWord(b: seq<Byte>, opcode: Byte, n: int) {
    |b| >= 9 && b[0] == opcode && Loader.NumberAt(b[1..]) == n
  }

  predicate HasOpcode(b: seq<Byte>, opcode: Byte) { b != [] && b[0] == opcode }

  lemma EncodedThere(p: Binary.Program, f: nat, pc: nat) returns (rest: seq<Byte>)
    requires Binary.Linked(p) && f < |p.functions| && pc < |p.functions[f].code|
    ensures Binary.CodeSize(p) < WORD && Binary.Bound(p, f, p.functions[f].code[pc])
    ensures Bytecode.Encodable(Binary.Resolve(p, f, p.functions[f].code[pc]))
    ensures From(p, f, pc) == Bytecode.Encode(Binary.Resolve(p, f, p.functions[f].code[pc])) + rest
  {
    Binary.InstructionFits(p, f, pc);
    hide Binary.Linked, Binary.Resolve, Bytecode.Encodable, Binary.CodeBytes, Binary.Written, Binary.OffsetOf,
      Bytecode.Encode, Binary.Bound;
    var x := Binary.Resolve(p, f, p.functions[f].code[pc]);
    rest := Binary.CodeFrom(p, f, pc);
    Binary.WrittenLength(p, f, pc);
    Binary.AfterPrefix(Binary.Written(p, f, pc), Bytecode.Encode(x) + rest);
    assert Binary.CodeBytes(p) == Binary.Written(p, f, pc) + (Bytecode.Encode(x) + rest);
  }

  lemma WordThere(opcode: Byte, n: Uint64, rest: seq<Byte>)
    ensures HasWord([opcode] + Word(n) + rest, opcode, n)
  {
    hide Word, Loader.NumberAt;
    Loader.NumberIsRead(n, rest);
    assert ([opcode] + Word(n) + rest)[1..] == Word(n) + rest;
  }

  /** What is written for an instruction. */
  lemma AssembledThere(
      p: Binary.Program, f: nat, code: FlatCode, pc: nat, sigs: Signatures, texts: Texts)
    returns (rest: seq<Byte>)
    requires Binary.Linked(p) && AssembledFrom(p, f, code, sigs, texts) && pc < |code|
    ensures Fits(code[pc], sigs) && Binary.CodeSize(p) < WORD
    ensures var x := Assembled(code[pc], sigs, texts);
            && Binary.Bound(p, f, x) && Bytecode.Encodable(Binary.Resolve(p, f, x))
            && From(p, f, pc) == Bytecode.Encode(Binary.Resolve(p, f, x)) + rest
  {
    hide Binary.Linked, Binary.Resolve, Bytecode.Encodable, Bytecode.Encode, Binary.Bound, Assembled, Fits, From,
      Binary.CodeSize;
    rest := EncodedThere(p, f, pc);
  }

  /** The byte of each operator of the machine. */
  lemma OperatorBytes(
      p: Binary.Program, f: nat, code: FlatCode, pc: nat, kind: Kind, sigs: Signatures, texts: Texts)
    requires Binary.Linked(p) && AssembledFrom(p, f, code, sigs, texts) && pc < |code| && code[pc] == Plain(kind)
    ensures kind == Binary(In) ==> HasOpcode(From(p, f, pc), 10)
    ensures kind == Unary(Truth) ==> HasOpcode(From(p, f, pc), 23)
    ensures kind == Binary(LogicalAnd) ==> HasOpcode(From(p, f, pc), 24)
    ensures kind == Binary(LogicalOr) ==> HasOpcode(From(p, f, pc), 25)
    ensures kind == Unary(LogicalNot) ==> HasOpcode(From(p, f, pc), 26)
    ensures kind == Binary(LessThan) ==> HasOpcode(From(p, f, pc), 27)
    ensures kind == Binary(LessThanEqual) ==> HasOpcode(From(p, f, pc), 28)
    ensures kind == Binary(Equal) ==> HasOpcode(From(p, f, pc), 29)
    ensures kind == Binary(GreaterThan) ==> HasOpcode(From(p, f, pc), 30)
    ensures kind == Binary(GreaterThanEqual) ==> HasOpcode(From(p, f, pc), 31)
    ensures kind == Binary(Add) ==> HasOpcode(From(p, f, pc), 32)
    ensures kind == Binary(Sub) ==> HasOpcode(From(p, f, pc), 33)
    ensures kind == Binary(Mul) ==> HasOpcode(From(p, f, pc), 34)
    ensures kind == Binary(Div) ==> HasOpcode(From(p, f, pc), 35)
    ensures kind == Binary(Pow) ==> HasOpcode(From(p, f, pc), 36)
    ensures kind == Binary(Mod) ==> HasOpcode(From(p, f, pc), 37)
    ensures kind == Unary(Negate) ==> HasOpcode(From(p, f, pc), 38)
    ensures kind == Binary(BitAnd) ==> HasOpcode(From(p, f, pc), 39)
    ensures kind == Binary(BitOr) ==> HasOpcode(From(p, f, pc), 40)
    ensures kind == Binary(BitXor) ==> HasOpcode(From(p, f, pc), 41)
    ensures kind == Binary(LeftShift) ==> HasOpcode(From(p, f, pc), 42)
    ensures kind == Binary(RightShift) ==> HasOpcode(From(p, f, pc), 43)
    ensures kind == Unary(BitNot) ==> HasOpcode(From(p, f, pc), 44)
  {
    hide Binary.Linked, AssembledFrom, From, HasOpcode;
    OpcodeThere(p, f, code, pc, kind, sigs, texts);
  }

  lemma OpcodeThere(
      p: Binary.Program, f: nat, code: FlatCode, pc: nat, kind: Kind, sigs: Signatures, texts: Texts)
    requires Binary.Linked(p) && AssembledFrom(p, f, code, sigs, texts) && pc < |code| && code[pc] == Plain(kind)
    ensures kind.Binary? ==> HasOpcode(From(p, f, pc), Bytecode.PlainNumber(BinaryCode(kind.bin)))
    ensures kind.Unary? ==> HasOpcode(From(p, f, pc), Bytecode.PlainNumber(UnaryCode(kind.un)))
  {
    hide Binary.Linked, AssembledFrom, From, Binary.CodeSize, Word, BinaryCode, UnaryCode, Bytecode.PlainNumber;
    var rest := AssembledThere(p, f, code, pc, sigs, texts);
  }

  /** The bytes of the other instructions: numbers have eight bytes, and negative ones are taken modulo 2^64. */
  lemma InstructionBytes(p: Binary.Program, f: nat, code: FlatCode, pc: nat, sigs: Signatures, texts: Texts)
    requires Binary.Linked(p) && AssembledFrom(p, f, code, sigs, texts) && pc < |code|
    ensures var b, op := From(p, f, pc), code[pc];
            && (op.LoadFrame? ==> HasWord(b, 1, if op.offset < 0 then op.offset + WORD else op.offset))
            && (op.StoreFrame? ==> HasWord(b, 5, if op.offset < 0 then op.offset + WORD else op.offset))
            && (op.Pop? ==> HasOpcode(b, 6))
            && (op.Params? ==> |b| >= 2 && b[..2] == [11, op.count])
            && (op.Ret? ==> HasOpcode(b, 16))
            && (op.Else? ==> op.target.Some? && op.target.value < |code|
                             && HasWord(b, 21, Binary.OffsetOf(p, f, op.target.value)))
            && (op.Jump? ==> op.target.Some? && op.target.value < |code|
                             && HasWord(b, 22, Binary.OffsetOf(p, f, op.target.value)))
  {
    hide Binary.Linked, From, Binary.CodeSize, Word, Binary.OffsetOf, AssembledKind, HasWord;
    var rest := AssembledThere(p, f, code, pc, sigs, texts);
    var op := code[pc];
    if op.LoadFrame? {
      WordThere(1, if op.offset < 0 then op.offset + WORD else op.offset, rest);
    } else if op.StoreFrame? {
      WordThere(5, if op.offset < 0 then op.offset + WORD else op.offset, rest);
    } else if op.Else? {
      WordThere(21, Binary.StartOf(p, f, op.target.value), rest);
    } else if op.Jump? {
      WordThere(22, Binary.StartOf(p, f, op.target.value), rest);
    } else if op.Params? {
      assert ([11] + [op.count] + rest)[..2] == [11, op.count];
    }
  }

  /** The bytes of constants, calls and accesses. */
  lemma KindBytes(
      p: Binary.Program, f: nat, code: FlatCode, pc: nat, kind: Kind, sigs: Signatures, texts: Texts)
    requires Binary.Linked(p) && AssembledFrom(p, f, code, sigs, texts) && pc < |code| && code[pc] == Plain(kind)
    ensures var b := From(p, f, pc);
            && (kind.LoadFunction? ==> Binary.HasStart(p, kind.fn) && HasWord(b, 3, Binary.OffsetOf(p, kind.fn, 0)))
            && (kind.Constant? ==> [4] + texts(kind.json) + [0] <= b)
            && (kind.GetElement? ==> HasOpcode(b, 7))
            && (kind.SetElement? ==> HasOpcode(b, 8))
            && (kind.Append? ==> HasOpcode(b, 9))
            && (kind.Call? ==> Binary.HasStart(p, kind.callee) && HasWord(b, 12, Binary.OffsetOf(p, kind.callee, 0)))
            && (kind.Assert? ==> HasOpcode(b, 48))
  {
    hide Binary.Linked, From, Binary.CodeSize, Word, Binary.OffsetOf, BinaryCode, UnaryCode, AssembledFrom, HasWord;
    var rest := AssembledThere(p, f, code, pc, sigs, texts);
    if kind.LoadFunction? {
      WordThere(3, Binary.StartOf(p, kind.fn, 0), rest);
    } else if kind.Call? {
      WordThere(12, Binary.StartOf(p, kind.callee, 0), rest);
    }
  }

  /** The bytes of the instructions that the modelled compiler does not emit. */
  lemma OtherBytes(p: Binary.Program, f: nat, pc: nat)
    requires Binary.Linked(p) && f < |p.functions| && pc < |p.functions[f].code|
    ensures var b, i := From(p, f, pc), p.functions[f].code[pc];
            && (i.LoadData? ==> HasWord(b, 2, i.data))
            && (i == Bytecode.Plain(Bytecode.CallIndirect) ==> HasOpcode(b, 13))
            && (i.Schedule? ==> Binary.HasStart(p, i.fn) && HasWord(b, 14, Binary.OffsetOf(p, i.fn, 0))
                                && |b| >= 10 && b[9] == i.count)
            && (i.ScheduleIndirect? ==> [15, i.count] <= b)
            && (i.UpGet? ==> [18, i.id] <= b)
            && (i.UpSet? ==> [19, i.id] <= b)
            && (i.VmCall? ==> [20, i.code] <= b)
            && (i == Bytecode.Plain(Bytecode.Print) ==> HasOpcode(b, 45))
            && (i == Bytecode.Plain(Bytecode.GetOpt) ==> HasOpcode(b, 46))
            && (i.Exit? ==> [47, i.code] <= b)
  {
    hide Binary.Linked, From, Binary.CodeSize, Word, Binary.OffsetOf, HasWord;
    var rest := EncodedThere(p, f, pc);
    var i := p.functions[f].code[pc];
    if i.LoadData? {
      WordThere(2, i.data, rest);
    } else if i.Schedule? {
      var start := Binary.StartOf(p, i.fn, 0);
      WordThere(14, start, [i.count] + rest);
      assert [14] + (Word(start) + [i.count]) + rest == [14] + Word(start) + ([i.count] + rest);
    }
  }

  /** What `k` captured variables look like behind the address of a closure. */
  predicate HasUpvalue(b: seq<Byte>, k: nat, u: Bytecode.Upvalue) {
    && |b| >= 9 * k + 9 && b[9 * k] == (if u.isLocal then 1 else 0)
    && Loader.NumberAt(b[9 * k + 1..]) == if u.index < 0 then u.index + WORD else u.index
  }

  lemma {:induction false} UpvaluesThere(us: seq<Bytecode.Upvalue>, rest: seq<Byte>)
    ensures forall k: nat | k < |us| :: HasUpvalue(Bytecode.EncodeUpvalues(us) + rest, k, us[k])
  {
    hide Word, Loader.NumberAt, HasUpvalue;
    if us != [] {
      var n := |us| - 1;
      var b := Bytecode.EncodeUpvalues(us) + rest;
      var before, u := us[..n], us[n];
      assert b == Bytecode.EncodeUpvalues(before) + (Bytecode.EncodeUpvalue(u) + rest);
      UpvaluesThere(before, Bytecode.EncodeUpvalue(u) + rest);
      UpvalueThere(Bytecode.EncodeUpvalues(before), n, u, rest);
    }
  }

  lemma UpvalueThere(before: seq<Byte>, n: nat, u: Bytecode.Upvalue, rest: seq<Byte>)
    requires |before| == 9 * n
    ensures HasUpvalue(before + (Bytecode.EncodeUpvalue(u) + rest), n, u)
  {
    hide Word, Loader.NumberAt;
    var w: Uint64 := if u.index < 0 then u.index + WORD else u.index;
    var b := before + (Bytecode.EncodeUpvalue(u) + rest);
    assert b[9 * n] == Bytecode.EncodeUpvalue(u)[0];
    assert b[9 * n + 1..] == Word(w) + rest;
    Loader.NumberIsRead(w, rest);
  }

  /** A closure: how many variables it captures, its address, and whether each is local and which it is. */
  lemma ClosureBytes(p: Binary.Program, f: nat, pc: nat)
    requires Binary.Linked(p) && f < |p.functions| && pc < |p.functions[f].code| && p.functions[f].code[pc].Closure?
    ensures var b, i := From(p, f, pc), p.functions[f].code[pc];
            && |b| >= 10 && b[0] == 17 && b[1] == |i.upvalues|
            && Binary.HasStart(p, i.fn) && Loader.NumberAt(b[2..]) == Binary.OffsetOf(p, i.fn, 0)
            && forall k: nat | k < |i.upvalues| :: HasUpvalue(b[10..], k, i.upvalues[k])
  {
    hide Binary.Linked, From, Binary.CodeSize, Word, Binary.OffsetOf, HasUpvalue, Bytecode.EncodeUpvalues,
      Loader.NumberAt;
    var rest := EncodedThere(p, f, pc);
    var i, b := p.functions[f].code[pc], From(p, f, pc);
    var start := Binary.StartOf(p, i.fn, 0);
    var behind := Bytecode.EncodeUpvalues(i.upvalues) + rest;
    assert b == [17] + [|i.upvalues|] + (Word(start) + behind);
    assert b[2..] == Word(start) + behind && b[10..] == behind;
    Loader.NumberIsRead(start, behind);
    UpvaluesThere(i.upvalues, rest);
  }
}
