/**
 The generation of a control-flow graph from the statements of a function. The state keeps, next to the graph, the
 notes that are taken of it; they play no part in what is generated.
 */
module CodeGen {
  import opened Options
  import opened Ir
  import opened StackShape
  import opened Typing
  import opened Syntax

  const ENTRY: BlockId := 0
  const EXIT: BlockId := 1
  const START: BlockId := 2

  /** The allocation that a symbol stands for. */
  function AllocOf(allocs: map<Symbol, Temp>, x: Symbol): Temp {
    if x in allocs then allocs[x] else 0
  }

  // ----- expressions -----

  /** Code that leaves its result on the stack, in `temp`. */
  datatype Piece = Piece(code: seq<Insn>, temp: Temp, next: Temp)

  datatype Pieces = Pieces(code: seq<Insn>, temps: seq<Temp>, next: Temp)

  /** Two operands and the instruction that takes them. */
  function OperatorPiece(op: BinaryOp, p: Piece, q: Piece): Piece {
    Piece(p.code + q.code + [Use(q.next, Binary(op), [p.temp, q.temp])], q.next, q.next + 1)
  }

  function UnaryPiece(op: UnaryOp, p: Piece): Piece {
    Piece(p.code + [Use(p.next, Unary(op), [p.temp])], p.next, p.next + 1)
  }

  function ExprCode(e: Expr, allocs: map<Symbol, Temp>, next: Temp): (r: Piece)
    ensures next <= r.temp < r.next && r.code != []
    decreases e
  {
    match e
    case Literal(json) => Piece([Use(next, Constant(json), [])], next, next + 1)
    case Variable(x) => Piece([Load(next, AllocOf(allocs, x))], next, next + 1)
    case UnaryExpr(op, inner) =>
      UnaryPiece(UnaryOpcode(op), ExprCode(inner, allocs, next))
    case BinaryExpr(op, left, right) =>
      var p := ExprCode(left, allocs, next);
      var both := OperatorPiece(Opcode(op), p, ExprCode(right, allocs, p.next));
      if op.NotEquals? then UnaryPiece(LogicalNot, both) else both
    case CallExpr(f, args) =>
      var ps := ExprsCode(args, allocs, next);
      Piece(ps.code + [Use(ps.next, Call(f, |args|, true), ps.temps)], ps.next, ps.next + 1)
  }

  function ExprsCode(es: seq<Expr>, allocs: map<Symbol, Temp>, next: Temp): (r: Pieces)
    ensures next <= r.next && |r.temps| == |es| && forall t | t in r.temps :: t < r.next
    decreases es
  {
    if es == [] then Pieces([], [], next)
    else
      var ps := ExprsCode(es[..|es| - 1], allocs, next);
      var p := ExprCode(es[|es| - 1], allocs, ps.next);
      Pieces(ps.code + p.code, ps.temps + [p.temp], p.next)
  }

  // ----- statements without control flow -----

  datatype Line = Line(code: seq<Insn>, allocs: map<Symbol, Temp>, next: Temp)

  predicate IsPlain(s: Stmt) { s.Let? || s.Assign? || s.AssertThat? || s.Do? }

  function LineCode(s: Stmt, allocs: map<Symbol, Temp>, next: Temp): (r: Line)
    requires IsPlain(s)
    ensures next <= r.next
  {
    match s
    case Let(x, e) =>
      var p := ExprCode(e, allocs, next);
      Line(p.code + [Alloc(p.next, Some(p.temp))], allocs[x := p.next], p.next + 1)
    case Assign(x, e) =>
      var p := ExprCode(e, allocs, next);
      Line(p.code + [Store(p.temp, AllocOf(allocs, x))], allocs, p.next)
    case AssertThat(e) =>
      var p := ExprCode(e, allocs, next);
      Line(p.code + [Use(p.next, Kind.Assert, [p.temp])], allocs, p.next + 1)
    case Do(f, args) =>
      var ps := ExprsCode(args, allocs, next);
      Line(ps.code + [Use(ps.next, Call(f, |args|, false), ps.temps)], allocs, ps.next + 1)
  }

  // ----- the state of the generator -----

  datatype Gen = Gen(
    blocks: seq<Block>,             // the blocks created so far
    added: seq<BlockId>,            // the blocks of the function, but for the exit, which is kept last
    allocs: map<Symbol, Temp>,      // the allocations of the locals
    next: Temp,
    notes: Notes)
  {
    function Graph(): Ir.Graph { Ir.Graph(blocks, ENTRY, EXIT) }

    function Order(): seq<BlockId> { added + [EXIT] }
  }

  /** A block with one more instruction; a branch sets the successors. */
  function WithInsn(block: Block, insn: Insn): Block {
    match insn
    case Goto(t) => Block(block.insns + [insn], Some(t), None)
    case Branch(_, t, n) => Block(block.insns + [insn], Some(t), Some(n))
    case _ => block.(insns := block.insns + [insn])
  }

  function AddInsn(st: Gen, b: BlockId, insn: Insn): (r: Gen)
    requires b < |st.blocks|
    ensures |r.blocks| == |st.blocks|
  {
    var owner, id, i := st.notes.owner, Defines(insn), |st.blocks[b].insns|;
    st.(blocks := st.blocks[b := WithInsn(st.blocks[b], insn)],
        notes := st.notes.(owner := if id.Some? then owner[id.value := (b, i)] else owner))
  }

  function AddCode(st: Gen, b: BlockId, code: seq<Insn>): (r: Gen)
    requires b < |st.blocks|
    ensures |r.blocks| == |st.blocks|
  {
    if code == [] then st else AddInsn(AddCode(st, b, code[..|code| - 1]), b, code[|code| - 1])
  }

  /** A new block, which is not part of the function yet. */
  function NewBlock(st: Gen, head: Shape): Gen {
    st.(blocks := st.blocks + [Block([], None, None)], notes := st.notes.(heads := st.notes.heads + [head]))
  }

  /** Adds a block to the function, ahead of the exit. */
  function AddBlock(st: Gen, b: BlockId): Gen {
    st.(added := st.added + [b], notes := st.notes.(rank := st.notes.rank[b := |st.added|]))
  }

  /** Notes that `t` is reached from `b`, if `b` is reached and `t` was not. */
  function Reach(st: Gen, b: BlockId, t: BlockId): Gen {
    if Live(st.Graph(), st.notes, b) && t !in st.notes.parent then
      st.(notes := st.notes.(parent := st.notes.parent[t := b]))
    else st
  }

  function Link(st: Gen, b: BlockId, t: BlockId): (r: Gen)
    requires b < |st.blocks|
    ensures |r.blocks| == |st.blocks|
  {
    st.(blocks := st.blocks[b := st.blocks[b].(succ0 := Some(t))])
  }

  /** The stack at the end of the instructions of a block so far. */
  function Now(st: Gen, b: BlockId): Shape {
    if b < |st.blocks| && b < |st.notes.heads| then
      var s := ShapeOf(st.blocks[b].insns, st.notes.heads[b], st.notes.params);
      if s.Some? then s.value else Shape([], 0)
    else Shape([], 0)
  }

  // ----- statements -----

  function GenReturn(st: Gen, e: Expr, cur: BlockId): (r: (Gen, BlockId))
    requires cur < |st.blocks|
    ensures r.1 < |r.0.blocks|
  {
    var p := ExprCode(e, st.allocs, st.next);
    var st1 := AddInsn(AddCode(st, cur, p.code), cur, Return(Some(p.temp)));
    var st2 := Link(st1, cur, EXIT).(next := p.next);
    var dead := |st2.blocks|;
    (AddBlock(NewBlock(st2, Now(st, cur)), dead), dead)
  }

  /** The blocks for the branches of a condition, and for what follows it. */
  function WithBranches(st: Gen, head: Shape, no: bool): (r: Gen)
    ensures |r.blocks| == |st.blocks| + if no then 3 else 2
  {
    if no then NewBlock(NewBlock(NewBlock(st, head), head), head) else NewBlock(NewBlock(st, head), head)
  }

  /** The branch that follows a condition. */
  function BranchOff(st: Gen, cur: BlockId, temp: Temp, yes: BlockId): (r: Gen)
    requires cur < |st.blocks|
    ensures |r.blocks| == |st.blocks|
  {
    Reach(Reach(AddInsn(st, cur, Branch(temp, yes, yes + 1)), cur, yes), cur, yes + 1)
  }

  /** The condition of an `if`, and the branch that follows it. */
  function GenCondition(st: Gen, c: Expr, cur: BlockId, no: bool): (r: Gen)
    requires cur < |st.blocks|
    ensures |r.blocks| == |st.blocks| + if no then 3 else 2
  {
    var p := ExprCode(c, st.allocs, st.next);
    BranchOff(WithBranches(AddCode(st, cur, p.code).(next := p.next), Now(st, cur), no), cur, p.temp, |st.blocks|)
  }

  /** The end of a branch leads to `join`; block `next` comes next. */
  function EndBranch(st: Gen, b: BlockId, join: BlockId, next: BlockId): (r: Gen)
    requires b < |st.blocks|
    ensures |r.blocks| == |st.blocks|
  {
    AddBlock(Reach(Link(st, b, join), b, join), next)
  }

  /** The condition and the first branch of an `if`. */
  function GenYes(st: Gen, s: Stmt, cur: BlockId): (r: (Gen, BlockId))
    requires cur < |st.blocks| && s.If?
    ensures r.1 < |r.0.blocks| && |st.blocks| + (if s.no.Else? then 3 else 2) <= |r.0.blocks|
    decreases s, 0
  {
    GenStmts(AddBlock(GenCondition(st, s.condition, cur, s.no.Else?), |st.blocks|), s.yes, |st.blocks|)
  }

  /** The end of the first branch, and the second one. */
  function GenNo(st: Gen, s: Stmt, cur: BlockId): (r: (Gen, BlockId))
    requires cur < |st.blocks| && s.If? && s.no.Else?
    ensures r.1 < |r.0.blocks| && |st.blocks| + 3 <= |r.0.blocks|
    decreases s, 1
  {
    var (st2, b) := GenYes(st, s, cur);
    GenStmts(EndBranch(st2, b, |st.blocks| + 2, |st.blocks| + 1), s.no.stmts, |st.blocks| + 1)
  }

  function GenStmt(st: Gen, s: Stmt, cur: BlockId): (r: (Gen, BlockId))
    requires cur < |st.blocks|
    ensures r.1 < |r.0.blocks| && |st.blocks| <= |r.0.blocks|
    decreases s, 2
  {
    match s
    case If(_, _, NoElse) =>
      var (st2, b) := GenYes(st, s, cur);
      (EndBranch(st2, b, |st.blocks| + 1, |st.blocks| + 1), |st.blocks| + 1)
    case If(_, _, Else(_)) =>
      var (st4, b) := GenNo(st, s, cur);
      (EndBranch(st4, b, |st.blocks| + 2, |st.blocks| + 2), |st.blocks| + 2)
    case ReturnValue(e) => GenReturn(st, e, cur)
    case _ =>
      var line := LineCode(s, st.allocs, st.next);
      (AddCode(st, cur, line.code).(allocs := line.allocs, next := line.next), cur)
  }

  function GenStmts(st: Gen, ss: seq<Stmt>, cur: BlockId): (r: (Gen, BlockId))
    requires cur < |st.blocks|
    ensures r.1 < |r.0.blocks| && |st.blocks| <= |r.0.blocks|
    decreases ss
  {
    if ss == [] then (st, cur)
    else
      var (st1, cur1) := GenStmts(st, ss[..|ss| - 1], cur);
      GenStmt(st1, ss[|ss| - 1], cur1)
  }

  // ----- functions -----

  /** A new function has an entry and an exit, and then the block its body starts in. */
  function NewFunction(params: nat): (r: Gen)
    ensures |r.blocks| == START + 1
  {
    var entry, exit := Block([], Some(START), None), Block([], None, None);
    var notes := Notes(map[], [Shape([], params), Shape([], 0)], params, map[ENTRY := 0], map[START := ENTRY]);
    AddBlock(NewBlock(Gen([entry, exit], [ENTRY], map[], 0, notes), Shape([], params)), START)
  }

  /** Parameters are allocated first. */
  function AddParams(st: Gen, params: seq<Symbol>): (r: Gen)
    requires START < |st.blocks|
    ensures |r.blocks| == |st.blocks|
  {
    if params == [] then st
    else
      var st1 := AddParams(st, params[..|params| - 1]);
      AddInsn(st1, START, Alloc(st1.next, None))
        .(allocs := st1.allocs[params[|params| - 1] := st1.next], next := st1.next + 1)
  }

  /** The graph of a function whose body ends in a return statement on every path. */
  function GenFunction(params: seq<Symbol>, body: seq<Stmt>): (Gen, BlockId) {
    GenStmts(AddParams(NewFunction(|params|), params), body, START)
  }
}
