/**
 From stack code to bytecode, and back: what the instruction at an offset of the binary stands for. An encoded call
 does not say how many operands it takes and whether it leaves a result; that is known of the function it calls.
 */
module Assembly {
  import opened Options
  import opened Bytes
  import opened Ir
  import opened Layout
  import opened Listings
  import opened Syntax
  import Bytecode
  import Binary
  import Compiler

  /** The number of operands of a function, and whether it has a result. */
  type Signatures = nat -> (nat, bool)

  /** JSON values as they are written. */
  type Texts = string -> seq<Byte>

  ghost predicate Injective(texts: Texts) {
    forall a, b {:trigger texts(a), texts(b)} :: texts(a) == texts(b) ==> a == b
  }

  function BinaryCode(op: Ir.BinaryOp): Bytecode.PlainOp {
    match op
    case Add => Bytecode.Add
    case Sub => Bytecode.Sub
    case Mul => Bytecode.Mul
    case Div => Bytecode.Div
    case Pow => Bytecode.Pow
    case Mod => Bytecode.Mod
    case BitAnd => Bytecode.And
    case BitOr => Bytecode.Or
    case BitXor => Bytecode.Xor
    case LeftShift => Bytecode.LeftShift
    case RightShift => Bytecode.RightShift
    case LogicalAnd => Bytecode.LogicalAnd
    case LogicalOr => Bytecode.LogicalOr
    case LessThan => Bytecode.LessThan
    case LessThanEqual => Bytecode.LessThanEqual
    case Equal => Bytecode.Equal
    case GreaterThan => Bytecode.GreaterThan
    case GreaterThanEqual => Bytecode.GreaterThanEqual
    case In => Bytecode.In
  }

  function UnaryCode(op: Ir.UnaryOp): Bytecode.PlainOp {
    match op
    case BitNot => Bytecode.Not
    case LogicalNot => Bytecode.LogicalNot
    case Negate => Bytecode.Neg
    case Truth => Bytecode.Bool
  }

  /** Kinds of instructions that the code of an instruction tells apart. */
  predicate PlainKind(kind: Kind, sigs: Signatures) {
    match kind
    case Call(g, n, r) => sigs(g) == (n, r)
    case IndirectCall(_, _) => false
    case Schedule(_, _, _) => false
    case IndirectSchedule(_, _) => false
    case Match => false
    case _ => true
  }

  /** Operands fit the width that there is for them, jumps are resolved, and calls agree with what they call. */
  predicate Fits(op: Op<Option<nat>>, sigs: Signatures) {
    match op
    case Plain(kind) => PlainKind(kind, sigs)
    case LoadFrame(n) => -0x8000_0000_0000_0000 <= n < 0x8000_0000_0000_0000
    case StoreFrame(n) => -0x8000_0000_0000_0000 <= n < 0x8000_0000_0000_0000
    case Else(t) => t.Some?
    case Jump(t) => t.Some?
    case Params(n) => n < 0x100
    case _ => true
  }

  function AssembledKind(kind: Kind, sigs: Signatures, texts: Texts): Bytecode.Instr<nat, Option<nat>>
    requires PlainKind(kind, sigs)
  {
    match kind
    case Constant(json) => Bytecode.LoadExpression(texts(json))
    case LoadFunction(g) => Bytecode.LoadCode(g)
    case Binary(op) => Bytecode.Plain(BinaryCode(op))
    case Unary(op) => Bytecode.Plain(UnaryCode(op))
    case Call(g, _, _) => Bytecode.Call(g)
    case GetElement => Bytecode.Plain(Bytecode.Get)
    case SetElement => Bytecode.Plain(Bytecode.Set)
    case Append => Bytecode.Plain(Bytecode.Append)
    case Assert => Bytecode.Plain(Bytecode.Assert)
  }

  /** The bytecode instruction for an instruction of the stack code. */
  function Assembled(op: Op<Option<nat>>, sigs: Signatures, texts: Texts): Bytecode.Instr<nat, Option<nat>>
    requires Fits(op, sigs)
  {
    match op
    case Plain(kind) => AssembledKind(kind, sigs, texts)
    case LoadFrame(n) => Bytecode.LoadFrame(n)
    case StoreFrame(n) => Bytecode.StoreFrame(n)
    case Pop => Bytecode.Plain(Bytecode.Pop)
    case Else(t) => Bytecode.Else(t)
    case Jump(t) => Bytecode.Jump(t)
    case Ret => Bytecode.Plain(Bytecode.Return)
    case Params(n) => Bytecode.Params(n)
  }

  /** Function `f` of the program is the assembled code. */
  ghost predicate AssembledFrom(p: Binary.Program, f: nat, code: FlatCode, sigs: Signatures, texts: Texts) {
    && f < |p.functions| && |p.functions[f].code| == |code|
    && forall pc: nat {:trigger code[pc]} | pc < |code| ::
         Fits(code[pc], sigs) && p.functions[f].code[pc] == Assembled(code[pc], sigs, texts)
  }

  // ----- what an encoded instruction stands for -----

  /** The offset is that of instruction `i` of function `g`. */
  predicate Starts(p: Binary.Program, g: nat, i: nat, offset: nat) {
    g < |p.functions| && i < |p.functions[g].code| && offset == Binary.OffsetOf(p, g, i)
  }

  predicate StandsForKind(p: Binary.Program, w: Bytecode.Wire, kind: Kind, sigs: Signatures, texts: Texts) {
    match w
    case LoadExpression(text) => kind.Constant? && texts(kind.json) == text
    case LoadCode(a) => kind.LoadFunction? && Starts(p, kind.fn, 0, a)
    case Call(a) => kind.Call? && Starts(p, kind.callee, 0, a) && sigs(kind.callee) == (kind.argc, kind.result)
    case Plain(op) =>
      || (kind.Binary? && BinaryCode(kind.bin) == op) || (kind.Unary? && UnaryCode(kind.un) == op)
      || (kind.GetElement? && op == Bytecode.Get) || (kind.SetElement? && op == Bytecode.Set)
      || (kind.Append? && op == Bytecode.Append) || (kind.Assert? && op == Bytecode.Assert)
    case _ => false
  }

  /** What an instruction in the binary, in function `f`, stands for. */
  predicate StandsFor(
      p: Binary.Program, f: nat, w: Bytecode.Wire, op: Op<Option<nat>>, sigs: Signatures, texts: Texts)
  {
    match op
    case Plain(kind) => StandsForKind(p, w, kind, sigs, texts)
    case LoadFrame(n) => w.LoadFrame? && w.frame == n
    case StoreFrame(n) => w.StoreFrame? && w.frame == n
    case Pop => w == Bytecode.Plain(Bytecode.Pop)
    case Else(t) => w.Else? && t.Some? && Starts(p, f, t.value, w.target)
    case Jump(t) => w.Jump? && t.Some? && Starts(p, f, t.value, w.target)
    case Ret => w == Bytecode.Plain(Bytecode.Return)
    case Params(n) => w.Params? && w.count == n
  }

  lemma StartsOnce(p: Binary.Program, g: nat, i: nat, h: nat, j: nat, offset: nat)
    requires Starts(p, g, i, offset) && Starts(p, h, j, offset)
    ensures g == h && i == j
  {
    if (g, i) != (h, j) { Binary.OffsetsDiffer(p, g, i, h, j); }
  }

  lemma KindIsPlain(op: Bytecode.PlainOp, a: Kind, b: Kind, p: Binary.Program, sigs: Signatures, texts: Texts)
    requires StandsForKind(p, Bytecode.Plain(op), a, sigs, texts)
             && StandsForKind(p, Bytecode.Plain(op), b, sigs, texts)
    ensures a == b
  {
  }

  lemma OneKind(p: Binary.Program, w: Bytecode.Wire, a: Kind, b: Kind, sigs: Signatures, texts: Texts)
    requires Injective(texts) && StandsForKind(p, w, a, sigs, texts) && StandsForKind(p, w, b, sigs, texts)
    ensures a == b
  {
    hide BinaryCode, UnaryCode, Starts;
    match w
    case LoadCode(offset) => StartsOnce(p, a.fn, 0, b.fn, 0, offset);
    case Call(offset) => StartsOnce(p, a.callee, 0, b.callee, 0, offset);
    case Plain(op) => KindIsPlain(op, a, b, p, sigs, texts);
    case _ =>
  }

  lemma NoPlainKind(p: Binary.Program, w: Bytecode.Wire, kind: Kind, sigs: Signatures, texts: Texts)
    requires StandsForKind(p, w, kind, sigs, texts)
    ensures w.LoadExpression? || w.LoadCode? || w.Call? || (w.Plain? && w.op != Bytecode.Pop && w.op != Bytecode.Return)
  {
  }

  /** An instruction in the binary stands for one instruction of the stack code only. */
  lemma StandsForOne(
      p: Binary.Program, f: nat, w: Bytecode.Wire, a: Op<Option<nat>>, b: Op<Option<nat>>, sigs: Signatures,
      texts: Texts)
    requires Injective(texts) && StandsFor(p, f, w, a, sigs, texts) && StandsFor(p, f, w, b, sigs, texts)
    ensures a == b
  {
    hide StandsForKind, Starts, Injective;
    if a.Plain? { NoPlainKind(p, w, a.kind, sigs, texts); }
    if b.Plain? { NoPlainKind(p, w, b.kind, sigs, texts); }
    if a.Plain? && b.Plain? {
      OneKind(p, w, a.kind, b.kind, sigs, texts);
    } else if a.Else? || a.Jump? {
      StartsOnce(p, f, a.target.value, f, b.target.value, w.target);
    }
  }

  lemma KindStands(p: Binary.Program, f: nat, kind: Kind, sigs: Signatures, texts: Texts)
    requires PlainKind(kind, sigs) && f < |p.functions| && Binary.CodeSize(p) < WORD
    requires Binary.Bound(p, f, AssembledKind(kind, sigs, texts))
    ensures StandsForKind(p, Binary.Resolve(p, f, AssembledKind(kind, sigs, texts)), kind, sigs, texts)
  {
    hide Binary.OffsetOf, Binary.CodeSize, BinaryCode, UnaryCode;
  }

  /** Where the code of an instruction is, there is what stands for the instruction. */
  lemma InstructionStands(
      p: Binary.Program, f: nat, code: FlatCode, pc: nat, sigs: Signatures, texts: Texts)
    requires Binary.Linked(p) && AssembledFrom(p, f, code, sigs, texts) && pc < |code|
    ensures Binary.ReadAt(p, Binary.OffsetOf(p, f, pc)).Some?
    ensures StandsFor(p, f, Binary.ReadAt(p, Binary.OffsetOf(p, f, pc)).value, code[pc], sigs, texts)
  {
    hide Binary.OffsetOf, Binary.ReadAt, Binary.CodeSize, AssembledKind, StandsForKind;
    Binary.InstructionAtOffset(p, f, pc);
    assert Binary.Bound(p, f, p.functions[f].code[pc]);
    if code[pc].Plain? { KindStands(p, f, code[pc].kind, sigs, texts); }
  }

  /** The stack code that can be read from the binary at the offsets of function `f`. */
  ghost predicate ReadFrom(p: Binary.Program, f: nat, code: FlatCode, sigs: Signatures, texts: Texts)
    requires Binary.Linked(p)
  {
    && f < |p.functions| && |p.functions[f].code| == |code|
    && forall pc: nat {:trigger code[pc]} | pc < |code| ::
         var w := Binary.ReadAt(p, Binary.OffsetOf(p, f, pc));
         w.Some? && StandsFor(p, f, w.value, code[pc], sigs, texts)
  }

  /**
   The stack code that can be read back from the binary is the code that was assembled, and no other; so it still
   computes what the body means.
   */
  lemma BinaryImplements(
      p: Binary.Program, f: nat, code: FlatCode, read: FlatCode, sigs: Signatures, texts: Texts,
      params: seq<Symbol>, body: seq<Stmt>)
    requires Binary.Linked(p) && AssembledFrom(p, f, code, sigs, texts) && Injective(texts)
    requires Compiler.Implements(code, params, body)
    ensures ReadFrom(p, f, code, sigs, texts)
    ensures ReadFrom(p, f, read, sigs, texts) ==> read == code && Compiler.Implements(read, params, body)
  {
    hide Binary.Linked, Binary.ReadAt, Binary.OffsetOf, StandsFor, Fits, Assembled, Compiler.Implements, Injective;
    forall pc: nat | pc < |code|
      ensures Binary.ReadAt(p, Binary.OffsetOf(p, f, pc)).Some?
      ensures StandsFor(p, f, Binary.ReadAt(p, Binary.OffsetOf(p, f, pc)).value, code[pc], sigs, texts)
      ensures ReadFrom(p, f, read, sigs, texts) ==> read[pc] == code[pc]
    {
      InstructionStands(p, f, code, pc, sigs, texts);
      if ReadFrom(p, f, read, sigs, texts) {
        StandsForOne(p, f, Binary.ReadAt(p, Binary.OffsetOf(p, f, pc)).value, read[pc], code[pc], sigs, texts);
      }
    }
  }
}
