/**
 The generation of a graph as the program performs it: blocks gain instructions and successors in place, and the
 set of blocks of the function is kept with the exit last.
 */
module Generators {
  import opened Options
  import opened Ir
  import opened Syntax
  import opened CodeGen
  import opened GeneratedCode
  import Generation

  predicate Terminated(block: Block) { block.insns != [] && IsTerminator(block.insns[|block.insns| - 1]) }

  /** A block keeps its terminator last, and its successors those of its branch. */
  lemma WithInsnWellFormed(block: Block, insn: Insn)
    requires WellFormedBlock(block) && !Terminated(block) && (insn.Use? ==> |insn.sources| == Arity(insn.kind))
    ensures WellFormedBlock(WithInsn(block, insn))
    ensures Terminated(WithInsn(block, insn)) <==> IsTerminator(insn)
  {
    var r := WithInsn(block, insn);
    forall i | 0 <= i < |r.insns| - 1 ensures !IsTerminator(r.insns[i]) {
      assert r.insns[i] == block.insns[i];
    }
  }

  /** Blocks of which `b` has more code. */
  function Longer(blocks: seq<Block>, b: BlockId, code: seq<Insn>): seq<Block>
    requires b < |blocks|
  {
    blocks[b := blocks[b].(insns := blocks[b].insns + code)]
  }

  lemma LongerTwice(blocks: seq<Block>, b: BlockId, x: seq<Insn>, y: seq<Insn>)
    requires b < |blocks|
    ensures Longer(Longer(blocks, b, x), b, y) == Longer(blocks, b, x + y)
  {
    assert (blocks[b].insns + x) + y == blocks[b].insns + (x + y);
  }

  lemma LongerByNothing(blocks: seq<Block>, b: BlockId)
    requires b < |blocks|
    ensures Longer(blocks, b, []) == blocks
  {
    assert blocks[b].insns + [] == blocks[b].insns;
  }

  lemma StraightEnd(a: seq<Insn>, b: seq<Insn>)
    requires Straight(a + b)
    ensures Straight(b)
  {
    assert forall i | 0 <= i < |b| :: (a + b)[|a| + i] == b[i];
  }

  lemma AddCodeIsLonger(st: Gen, b: BlockId, code: seq<Insn>)
    requires b < |st.blocks| && Straight(code)
    ensures var r := AddCode(st, b, code);
            r == st.(blocks := Longer(st.blocks, b, code), notes := st.notes.(owner := r.notes.owner))
  {
    AddCodeAdds(st, b, code);
  }

  /** What a return statement makes of the state. */
  lemma ReturnIs(st: Gen, e: Expr, cur: BlockId)
    requires cur < |st.blocks| && Straight(ExprCode(e, st.allocs, st.next).code)
    ensures var p, (r, dead) := ExprCode(e, st.allocs, st.next), GenReturn(st, e, cur);
            var blocks := Longer(st.blocks, cur, p.code);
            && dead == |st.blocks| && r.added == st.added + [dead] && r.allocs == st.allocs && r.next == p.next
            && r.blocks == blocks[cur := WithInsn(blocks[cur], Return(Some(p.temp))).(succ0 := Some(EXIT))] + [Block([],
               None, None)]
  {
    hide Longer, ExprCode, Now, AddCode, Straight;
    AddCodeIsLonger(st, cur, ExprCode(e, st.allocs, st.next).code);
  }

  /** What a condition makes of the state. */
  lemma ConditionBlocks(st: Gen, c: Expr, cur: BlockId, no: bool)
    requires cur < |st.blocks| && Straight(ExprCode(c, st.allocs, st.next).code)
    ensures var p, r, yes := ExprCode(c, st.allocs, st.next), GenCondition(st, c, cur, no), |st.blocks|;
            var empty, blocks := Block([], None, None), Longer(st.blocks, cur, p.code);
            && r.added == st.added && r.allocs == st.allocs && r.next == p.next
            && r.blocks == (blocks + if no then [empty, empty, empty] else [empty, empty])
                           [cur := WithInsn(blocks[cur], Branch(p.temp, yes, yes + 1))]
  {
    hide Longer, ExprCode, Now, AddCode, Straight;
    AddCodeIsLonger(st, cur, ExprCode(c, st.allocs, st.next).code);
  }

  class Generator {
    var blocks: seq<Block>
    var order: seq<BlockId>           // the blocks of the function
    var allocs: map<Symbol, Temp>
    var next: Temp
    var current: BlockId              // the block that is worked on
    ghost var st: Gen

    /** A function with its entry and exit, and the block the body starts in. */
    constructor (params: nat)
      ensures Valid() && Open() && st == NewFunction(params) && current == START
    {
      blocks := [Block([], Some(START), None), Block([], None, None), Block([], None, None)];
      order, allocs, next, current := [ENTRY, START, EXIT], map[], 0, START;
      st := NewFunction(params);
    }

    ghost predicate Current()
      reads this
    {
      && blocks == st.blocks && order == st.Order() && allocs == st.allocs && next == st.next
      && forall b | b in order :: b < |blocks|
    }

    ghost predicate Valid()
      reads this
    {
      Current() && START <= current < |blocks|
    }

    /** The block that is worked on has no terminator. */
    ghost predicate Open()
      reads this
    {
      current < |blocks| && Straight(blocks[current].insns) && blocks[current].succ1.None?
    }

    /**
     Nothing but the block that is worked on and new blocks have changed, and only new blocks have been added; the one
     that is worked on now is the same or a new one.
     */
    ghost predicate Around(was: seq<Block>, had: seq<BlockId>, at: BlockId)
      reads this
    {
      && |was| <= |blocks| && (forall b | 0 <= b < |was| && b != at :: blocks[b] == was[b])
      && (forall b | b in order :: b in had || |was| <= b)
      && (current == at || |was| <= current)
    }

    // ----- blocks -----

    /** Appends an instruction to a block that does not end in a branch or a return. */
    method AddInstruction(b: BlockId, insn: Insn)
      requires b < |blocks| && !Terminated(blocks[b])
      modifies this`blocks
      ensures blocks == old(blocks)[b := WithInsn(old(blocks)[b], insn)]
    {
      var block := blocks[b];
      if insn.Goto? {
        block := block.(succ0 := Some(insn.taken), succ1 := None);
      } else if insn.Branch? {
        block := block.(succ0 := Some(insn.taken), succ1 := Some(insn.notTaken));
      }
      blocks := blocks[b := block.(insns := block.insns + [insn])];
    }

    method CreateBlock() returns (b: BlockId)
      modifies this`blocks
      ensures b == |old(blocks)| && blocks == old(blocks) + [Block([], None, None)]
    {
      b := |blocks|;
      blocks := blocks + [Block([], None, None)];
    }

    /** Adds a block, which must not have been added before; the exit block is taken out and put last again. */
    method AddBasicBlock(b: BlockId)
      requires b !in order && order != [] && order[|order| - 1] == EXIT
      modifies this`order
      ensures order == old(order)[..|old(order)| - 1] + [b, EXIT]
      ensures forall x :: x in order <==> x in old(order) || x == b
    {
      assert order == order[..|order| - 1] + [EXIT];
      order := order[..|order| - 1];
      order := order + [b];
      order := order + [EXIT];
    }

    // ----- expressions -----

    method NewTemp() returns (t: Temp)
      modifies this`next
      ensures t == old(next) && next == t + 1
    {
      t := next;
      next := next + 1;
    }

    /** Appends straight code to the block that is worked on. */
    method Emit(insn: Insn)
      requires Open() && Straight([insn])
      modifies this`blocks
      ensures blocks == Longer(old(blocks), current, [insn]) && Open()
    {
      assert !IsTerminator([insn][0]);
      StraightConcat(blocks[current].insns, [insn]);
      AddInstruction(current, insn);
    }

    /** Generates code that leaves the value of an expression on the stack. */
    method VisitExpression(e: Expr) returns (t: Temp)
      requires Open()
      modifies this`blocks, this`next
      ensures var p := ExprCode(e, allocs, old(next));
              t == p.temp && next == p.next && blocks == Longer(old(blocks), current, p.code) && Open()
      decreases e
    {
      match e
      case Literal(json) =>
        t := NewTemp();
        Emit(Use(t, Constant(json), []));
      case Variable(x) =>
        t := NewTemp();
        Emit(Load(t, AllocOf(allocs, x)));
      case UnaryExpr(op, inner) =>
        t := VisitExpression(inner);
        t := EmitUnary(UnaryOpcode(op), t, old(blocks), ExprCode(inner, allocs, old(next)));
      case BinaryExpr(op, left, right) => t := VisitBinary(e);
      case CallExpr(f, args) =>
        var ts := VisitArguments(args);
        t := NewTemp();
        LongerTwice(old(blocks), current, ExprsCode(args, allocs, old(next)).code, [Use(t, Call(f, |args|, true), ts)]);
        Emit(Use(t, Call(f, |args|, true), ts));
    }

    method EmitUnary(op: UnaryOp, operand: Temp, ghost was: seq<Block>, ghost p: Piece) returns (t: Temp)
      requires Open() && current < |was| && blocks == Longer(was, current, p.code) && operand == p.temp
               && next == p.next
      modifies this`blocks, this`next
      ensures var r := UnaryPiece(op, p);
              t == r.temp && next == r.next && blocks == Longer(was, current, r.code) && Open()
    {
      t := NewTemp();
      LongerTwice(was, current, p.code, [Use(t, Unary(op), [operand])]);
      Emit(Use(t, Unary(op), [operand]));
    }

    method EmitBinary(
        op: BinaryOp, x: Temp, y: Temp, ghost was: seq<Block>, ghost p: Piece, ghost q: Piece)
      returns (t: Temp)
      requires Open() && current < |was| && blocks == Longer(was, current, p.code + q.code)
      requires x == p.temp && y == q.temp && next == q.next
      modifies this`blocks, this`next
      ensures var r := OperatorPiece(op, p, q);
              t == r.temp && next == r.next && blocks == Longer(was, current, r.code) && Open()
    {
      t := NewTemp();
      LongerTwice(was, current, p.code + q.code, [Use(t, Binary(op), [x, y])]);
      Emit(Use(t, Binary(op), [x, y]));
    }

    method VisitBinary(e: Expr) returns (t: Temp)
      requires Open() && e.BinaryExpr?
      modifies this`blocks, this`next
      ensures var p := ExprCode(e, allocs, old(next));
              t == p.temp && next == p.next && blocks == Longer(old(blocks), current, p.code) && Open()
      decreases e, 0
    {
      ghost var was, p := blocks, ExprCode(e.left, allocs, next);
      ghost var q := ExprCode(e.right, allocs, p.next);
      var x := VisitExpression(e.left);
      var y := VisitExpression(e.right);
      LongerTwice(was, current, p.code, q.code);
      t := EmitBinary(Opcode(e.bop), x, y, was, p, q);
      if e.bop.NotEquals? {
        t := EmitUnary(LogicalNot, t, was, OperatorPiece(Opcode(e.bop), p, q));
      }
    }

    method VisitArguments(es: seq<Expr>) returns (ts: seq<Temp>)
      requires Open()
      modifies this`blocks, this`next
      ensures var ps := ExprsCode(es, allocs, old(next));
              ts == ps.temps && next == ps.next && blocks == Longer(old(blocks), current, ps.code) && Open()
      decreases es
    {
      ts := [];
      LongerByNothing(blocks, current);
      for k := 0 to |es|
        invariant var ps := ExprsCode(es[..k], allocs, old(next));
                  ts == ps.temps && next == ps.next && blocks == Longer(old(blocks), current, ps.code) && Open()
      {
        assert es[..k + 1][..k] == es[..k] && es[k] in es;
        ghost var ps := ExprsCode(es[..k], allocs, old(next));
        var t := VisitExpression(es[k]);
        LongerTwice(old(blocks), current, ps.code, ExprCode(es[k], allocs, ps.next).code);
        ts := ts + [t];
      }
      assert es[..|es|] == es;
    }

    // ----- statements without control flow -----

    method EmitEffect(kind: Kind, operands: seq<Temp>, ghost was: seq<Block>, ghost code: seq<Insn>)
      requires Open() && current < |was| && blocks == Longer(was, current, code) && !HasResult(kind)
               && |operands| == Arity(kind)
      modifies this`blocks, this`next
      ensures blocks == Longer(was, current, code + [Use(old(next), kind, operands)]) && next == old(next) + 1 && Open()
    {
      var id := NewTemp();
      LongerTwice(was, current, code, [Use(id, kind, operands)]);
      Emit(Use(id, kind, operands));
    }

    /** A local stands for the value of its initializer; an `Alloc` marks where that value is on the stack. */
    method VisitLine(s: Stmt)
      requires Open() && IsPlain(s)
      modifies this`blocks, this`next, this`allocs
      ensures var line := LineCode(s, old(allocs), old(next));
              blocks == Longer(old(blocks), current, line.code) && allocs == line.allocs && next == line.next && Open()
    {
      match s
      case Let(x, e) =>
        ghost var p := ExprCode(e, allocs, next);
        var t := VisitExpression(e);
        var a := NewTemp();
        LongerTwice(old(blocks), current, p.code, [Alloc(a, Some(t))]);
        Emit(Alloc(a, Some(t)));
        allocs := allocs[x := a];
      case Assign(x, e) =>
        ghost var p := ExprCode(e, allocs, next);
        var t := VisitExpression(e);
        LongerTwice(old(blocks), current, p.code, [Store(t, AllocOf(allocs, x))]);
        Emit(Store(t, AllocOf(allocs, x)));
      case AssertThat(e) =>
        var t := VisitExpression(e);
        EmitEffect(Kind.Assert, [t], old(blocks), ExprCode(e, old(allocs), old(next)).code);
      case Do(f, args) =>
        var ts := VisitArguments(args);
        EmitEffect(Call(f, |args|, false), ts, old(blocks), ExprsCode(args, old(allocs), old(next)).code);
    }

    method VisitPlain(s: Stmt)
      requires Valid() && Open() && IsPlain(s)
      modifies this
      ensures Valid() && Open() && (st, current) == GenStmt(old(st), s, old(current))
      ensures Around(old(blocks), old(order), old(current))
    {
      hide LineCode, AddCode, Straight;
      VisitLine(s);
      StraightEnd(st.blocks[current].insns, LineCode(s, st.allocs, st.next).code);
      AddCodeIsLonger(st, current, LineCode(s, st.allocs, st.next).code);
      st := GenStmt(st, s, current).0;
    }

    // ----- statements with control flow -----

    /** Leads block `b` to `t`. */
    method LinkTo(b: BlockId, t: BlockId)
      requires b < |blocks|
      modifies this`blocks
      ensures blocks == old(blocks)[b := old(blocks)[b].(succ0 := Some(t))]
    {
      blocks := blocks[b := blocks[b].(succ0 := Some(t))];
    }

    /** A return leads to the exit, and is followed by a block that nothing leads to. */
    method VisitReturn(e: Expr)
      requires Valid() && Open()
      modifies this
      ensures Valid() && Open() && (st, current) == GenReturn(old(st), e, old(current))
      ensures Around(old(blocks), old(order), old(current))
    {
      hide ExprCode, GenReturn;
      var t := VisitExpression(e);
      StraightEnd(st.blocks[current].insns, ExprCode(e, st.allocs, st.next).code);
      ReturnIs(st, e, current);
      AddInstruction(current, Return(Some(t)));
      LinkTo(current, EXIT);
      var dead := CreateBlock();
      AddBasicBlock(dead);
      st := GenReturn(st, e, current).0;
      current := dead;
      assert order == st.Order();
    }

    /** A condition is followed by a branch to new blocks; block `current` gets its terminator. */
    method VisitCondition(c: Expr, no: bool) returns (yes: BlockId)
      requires Valid() && Open()
      modifies this`blocks, this`next, this`st
      ensures yes == |old(blocks)| && st == GenCondition(old(st), c, current, no)
      ensures Current()
      ensures forall b | 0 <= b < |old(blocks)| && b != current :: blocks[b] == old(blocks)[b]
      ensures forall b | yes <= b < |blocks| :: blocks[b] == Block([], None, None)
    {
      hide ExprCode, GenCondition;
      var t := VisitExpression(c);
      StraightEnd(st.blocks[current].insns, ExprCode(c, st.allocs, st.next).code);
      ConditionBlocks(st, c, current, no);
      yes := CreateBlock();
      var _ := CreateBlock();
      if no {
        var _ := CreateBlock();
      }
      AddInstruction(current, Branch(t, yes, yes + 1));
      st := GenCondition(st, c, current, no);
    }

    /** Work goes on in a block that has been created but not added yet. */
    method StartBlock(b: BlockId)
      requires Current() && b !in order && START <= b < |blocks| && blocks[b] == Block([], None, None)
      modifies this`order, this`current, this`st
      ensures Valid() && Open() && st == AddBlock(old(st), b) && current == b
      ensures forall x | x in order :: x in old(order) || x == b
    {
      AddBasicBlock(b);
      current := b;
      st := AddBlock(st, b);
      assert order == st.Order();
    }

    /** A block that has been created, but neither added nor worked on. */
    ghost predicate Awaits(w: BlockId)
      reads this
    {
      START <= w < |blocks| && w !in order && w != current && blocks[w] == Block([], None, None)
    }

    /** The end of a branch: control goes on at `join`, and work in block `b`. */
    method FinishBranch(join: BlockId, b: BlockId, ghost was: seq<Block>, ghost had: seq<BlockId>, ghost at: BlockId)
      requires Valid() && Awaits(b) && Around(was, had, at) && |was| <= b
      modifies this`blocks, this`order, this`current, this`st
      ensures Valid() && Open() && st == EndBranch(old(st), old(current), join, b) && current == b
      ensures Around(was, had, at) && forall w | old(Awaits(w)) && w != b :: Awaits(w)
    {
      LinkTo(current, join);
      st := Reach(Link(st, current, join), current, join);
      StartBlock(b);
    }

    /** The condition and the first branch of an `if`. */
    method VisitYes(s: Stmt) returns (yes: BlockId)
      requires Valid() && Open() && s.If?
      modifies this
      ensures Valid() && Open() && (st, current) == GenYes(old(st), s, old(current))
      ensures Around(old(blocks), old(order), old(current))
      ensures yes == |old(blocks)| && Awaits(yes + 1) && (s.no.Else? ==> Awaits(yes + 2))
      decreases s, 0
    {
      hide GenCondition, GenStmts;
      yes := VisitCondition(s.condition, s.no.Else?);
      StartBlock(yes);
      ghost var was, had := blocks, order;
      VisitStatements(s.yes);
      assert blocks[yes + 1] == was[yes + 1] && yes + 1 !in had;
    }

    /** The second branch of an `if`. */
    method VisitNo(s: Stmt, yes: BlockId, ghost was: seq<Block>, ghost had: seq<BlockId>, ghost at: BlockId)
      requires Valid() && s.If? && s.no.Else? && Awaits(yes + 1) && Awaits(yes + 2) && Around(was, had, at)
               && |was| <= yes
      modifies this
      ensures Valid() && Open()
      ensures (st, current) == GenStmts(EndBranch(old(st), old(current), yes + 2, yes + 1), s.no.stmts, yes + 1)
      ensures Around(was, had, at) && Awaits(yes + 2)
      decreases s, 0
    {
      hide GenStmts, EndBranch;
      FinishBranch(yes + 2, yes + 1, was, had, at);
      VisitStatements(s.no.stmts);
    }

    method VisitIf(s: Stmt)
      requires Valid() && Open() && s.If?
      modifies this
      ensures Valid() && Open() && (st, current) == GenStmt(old(st), s, old(current))
      ensures Around(old(blocks), old(order), old(current))
      decreases s, 1
    {
      hide GenYes, GenNo, GenStmt, EndBranch, GenStmts, AddCode, BranchOff, ExprCode, Generator.Around,
        Generator.Open;
      ghost var st0, cur := st, current;
      Generation.IfIs(st0, s, cur);
      var yes := VisitYes(s);
      if s.no.Else? {
        Generation.NoIs(st0, s, cur, st, current);
        Generation.ElseIs(st0, s, cur);
        VisitNo(s, yes, old(blocks), old(order), cur);
        FinishBranch(yes + 2, yes + 2, old(blocks), old(order), cur);
      } else {
        FinishBranch(yes + 1, yes + 1, old(blocks), old(order), cur);
      }
    }

    method VisitStatement(s: Stmt)
      requires Valid() && Open()
      modifies this
      ensures Valid() && Open() && (st, current) == GenStmt(old(st), s, old(current))
      ensures Around(old(blocks), old(order), old(current))
      decreases s, 2
    {
      match s
      case If(_, _, _) => VisitIf(s);
      case ReturnValue(e) => VisitReturn(e);
      case _ => VisitPlain(s);
    }

    method VisitStatements(ss: seq<Stmt>)
      requires Valid() && Open()
      modifies this
      ensures Valid() && Open() && (st, current) == GenStmts(old(st), ss, old(current))
      ensures Around(old(blocks), old(order), old(current))
      decreases ss
    {
      for k := 0 to |ss|
        invariant Valid() && Open() && (st, current) == GenStmts(old(st), ss[..k], old(current))
        invariant Around(old(blocks), old(order), old(current))
      {
        assert ss[..k + 1][..k] == ss[..k] && ss[k] in ss;
        VisitStatement(ss[k]);
      }
      assert ss[..|ss|] == ss;
    }

    // ----- functions -----

    method VisitParameter(x: Symbol)
      requires Valid() && Open()
      modifies this`blocks, this`allocs, this`next
      ensures blocks == Longer(old(blocks), current, [Alloc(old(next), None)]) && Open()
      ensures allocs == old(allocs)[x := old(next)] && next == old(next) + 1
    {
      var a := NewTemp();
      Emit(Alloc(a, None));
      allocs := allocs[x := a];
    }

    method VisitFunction(params: seq<Symbol>, body: seq<Stmt>)
      requires Valid() && Open() && st == NewFunction(|params|) && current == START
      modifies this
      ensures Valid() && (st, current) == GenFunction(params, body)
    {
      for k := 0 to |params|
        invariant Valid() && Open() && st == AddParams(NewFunction(|params|), params[..k]) && current == START
      {
        assert params[..k + 1][..k] == params[..k];
        VisitParameter(params[k]);
        st := AddParams(NewFunction(|params|), params[..k + 1]);
      }
      assert params[..|params|] == params;
      VisitStatements(body);
    }
  }

  /** The graph of a function. No assertion of the generator fails on the way. */
  method Generate(params: seq<Symbol>, body: seq<Stmt>) returns (g: Graph, order: seq<BlockId>, ghost st: Gen)
    ensures st == GenFunction(params, body).0 && g == st.Graph() && order == st.Order()
  {
    var generator := new Generator(|params|);
    generator.VisitFunction(params, body);
    g, order, st := Graph(generator.blocks, ENTRY, EXIT), generator.order, generator.st;
  }
}
