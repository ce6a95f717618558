/**
 The intermediate representation of a function: a control-flow graph whose basic blocks hold
 instructions that name their operands by the instruction that produced them.

 A reference to an instruction (a `Temp`) and a reference to a basic block (a `BlockId`) are indices;
 the program they come from uses pointers.
 */
module Options {
  datatype Option<+T> = None | Some(value: T)
}

module Ir {
  import opened Options

  type BlockId = nat
  type Temp = nat

  /** Operators of the virtual machine that take two operands. */
  datatype BinaryOp =
    | Add | Sub | Mul | Div | Pow | Mod
    | BitAnd | BitOr | BitXor | LeftShift | RightShift
    | LogicalAnd | LogicalOr
    | LessThan | LessThanEqual | Equal | GreaterThan | GreaterThanEqual | In

  /** Operators of the virtual machine that take one operand. */
  datatype UnaryOp = BitNot | LogicalNot | Negate | Truth

  /** What an instruction does that consumes its operands from the top of the stack. */
  datatype Kind =
    | Constant(json: string)
    | LoadFunction(fn: nat)
    | Binary(bin: BinaryOp)
    | Unary(un: UnaryOp)
    | Call(callee: nat, argc: nat, result: bool)
    | IndirectCall(argc: nat, result: bool)
    | Schedule(callee: nat, argc: nat, result: bool)
    | IndirectSchedule(argc: nat, result: bool)
    | GetElement
    | SetElement
    | Match
    | Append
    | Assert

  /** Number of operands that the instruction takes off the stack. */
  function Arity(kind: Kind): nat {
    match kind
    case Constant(_) => 0
    case LoadFunction(_) => 0
    case Binary(_) => 2
    case Unary(_) => 1
    case Call(_, n, _) => n
    case IndirectCall(n, _) => n + 1
    case Schedule(_, n, _) => n
    case IndirectSchedule(n, _) => n + 1
    case GetElement => 2
    case SetElement => 3
    case Match => 2
    case Append => 2
    case Assert => 1
  }

  /** Whether the instruction leaves one value on the stack. */
  predicate HasResult(kind: Kind) {
    match kind
    case Call(_, _, r) => r
    case IndirectCall(_, r) => r
    case Schedule(_, _, r) => r
    case IndirectSchedule(_, r) => r
    case SetElement => false
    case Append => false
    case Assert => false
    case _ => true
  }

  /**
   An instruction. A branch either has no condition and one target, or a condition and two targets,
   which is what the constructor of branches insists on.
   */
  datatype Insn =
    | Use(id: Temp, kind: Kind, sources: seq<Temp>)
    | Alloc(id: Temp, initializer: Option<Temp>)
    | Load(id: Temp, source: Temp)
    | Store(source: Temp, destination: Temp)
    | Goto(taken: BlockId)
    | Branch(cond: Temp, taken: BlockId, notTaken: BlockId)
    | Return(value: Option<Temp>)

  predicate IsBranch(insn: Insn) { insn.Goto? || insn.Branch? }

  predicate IsTerminator(insn: Insn) { IsBranch(insn) || insn.Return? }

  /** `Alloc` is a pseudo-instruction: nothing is emitted for it. */
  predicate IsPseudo(insn: Insn) { insn.Alloc? }

  datatype Block = Block(insns: seq<Insn>, succ0: Option<BlockId>, succ1: Option<BlockId>)

  datatype Graph = Graph(blocks: seq<Block>, entry: BlockId, exit: BlockId)

  predicate EndsInBranch(b: Block) { b.insns != [] && IsBranch(b.insns[|b.insns| - 1]) }

  predicate EndsInReturn(b: Block) { b.insns != [] && b.insns[|b.insns| - 1].Return? }

  /** A terminator can only be the last instruction, and a branch fixes the successors. */
  predicate WellFormedBlock(b: Block) {
    && (forall i | 0 <= i < |b.insns| - 1 :: !IsTerminator(b.insns[i]))
    && (forall i | 0 <= i < |b.insns| && b.insns[i].Use? :: |b.insns[i].sources| == Arity(b.insns[i].kind))
    && (EndsInBranch(b) ==>
          match b.insns[|b.insns| - 1]
          case Goto(t) => b.succ0 == Some(t) && b.succ1 == None
          case Branch(_, t, n) => b.succ0 == Some(t) && b.succ1 == Some(n)
          case _ => true)
    && (!EndsInBranch(b) ==> b.succ1 == None)
  }

  predicate ValidSucc(g: Graph, s: Option<BlockId>) { s.Some? ==> s.value < |g.blocks| }

  predicate WellFormed(g: Graph) {
    && g.entry < |g.blocks|
    && g.exit < |g.blocks|
    && forall b | 0 <= b < |g.blocks| ::
         WellFormedBlock(g.blocks[b]) && ValidSucc(g, g.blocks[b].succ0) && ValidSucc(g, g.blocks[b].succ1)
  }

  /** The successors of a block, as a set. */
  function Succs(b: Block): set<BlockId> {
    (if b.succ0.Some? then {b.succ0.value} else {}) + (if b.succ1.Some? then {b.succ1.value} else {})
  }
}
