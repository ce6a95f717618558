/** The code of expressions and plain statements: what it does to the stack, and which temporaries it defines. */
module GeneratedCode {
  import opened Options
  import opened Ir
  import opened StackShape
  import opened Typing
  import opened Syntax
  import opened CodeGen

  // ----- lists of instructions -----

  /** Instructions that control passes through, with as many operands as they take. */
  predicate Straight(code: seq<Insn>) {
    forall i | 0 <= i < |code| ::
      !IsTerminator(code[i]) && (code[i].Use? ==> |code[i].sources| == Arity(code[i].kind))
  }

  /** Each temporary is defined once, and numbered from `lo` to below `hi`. */
  predicate Numbered(code: seq<Insn>, lo: Temp, hi: Temp) {
    && (forall i | 0 <= i < |code| && Defines(code[i]).Some? :: lo <= Defines(code[i]).value < hi)
    && forall i, j | 0 <= i < j < |code| && Defines(code[i]).Some? && Defines(code[j]).Some? ::
         Defines(code[i]).value < Defines(code[j]).value
  }

  lemma NumberedConcat(a: seq<Insn>, b: seq<Insn>, lo: Temp, mid: Temp, hi: Temp)
    requires Numbered(a, lo, mid) && Numbered(b, mid, hi) && lo <= mid <= hi
    ensures Numbered(a + b, lo, hi)
  {
  }

  lemma StraightConcat(a: seq<Insn>, b: seq<Insn>)
    requires Straight(a) && Straight(b)
    ensures Straight(a + b)
  {
  }

  lemma {:induction false} ShapePrefix(a: seq<Insn>, b: seq<Insn>, head: Shape, params: nat, n: nat)
    requires n <= |a|
    ensures ShapeTo(a + b, head, params, n) == ShapeTo(a, head, params, n)
  {
    if n > 0 { ShapePrefix(a, b, head, params, n - 1); }
  }

  lemma {:induction false} ShapeConcat(a: seq<Insn>, b: seq<Insn>, head: Shape, params: nat, n: nat)
    requires n <= |b| && ShapeOf(a, head, params).Some?
    ensures ShapeTo(a + b, head, params, |a| + n) == ShapeTo(b, ShapeOf(a, head, params).value, params, n)
  {
    hide ShapeAfter;
    if n == 0 {
      ShapePrefix(a, b, head, params, |a|);
    } else {
      ShapeConcat(a, b, head, params, n - 1);
      assert (a + b)[|a| + n - 1] == b[n - 1];
    }
  }

  lemma {:induction false} AllocsConcat(a: seq<Insn>, b: seq<Insn>)
    ensures AllocsOf(a + b) == AllocsOf(a) + AllocsOf(b)
  {
    if b == [] {
      assert a + b == a;
    } else {
      AllocsConcat(a, b[..|b| - 1]);
      assert (a + b)[..|a + b| - 1] == a + b[..|b| - 1];
    }
  }

  // ----- code for the stack -----

  /** Run on a stack that holds `temps`, the code leaves a stack that holds `after`. */
  ghost predicate Turns(code: seq<Insn>, params: nat, temps: seq<Temp>, after: seq<Temp>) {
    ShapeOf(code, Shape(temps, 0), params) == Some(Shape(after, 0))
  }

  lemma TurnsConcat(a: seq<Insn>, b: seq<Insn>, params: nat, temps: seq<Temp>, mid: seq<Temp>, after: seq<Temp>)
    requires Turns(a, params, temps, mid) && Turns(b, params, mid, after)
    ensures Turns(a + b, params, temps, after)
  {
    ShapeConcat(a, b, Shape(temps, 0), params, |b|);
  }

  lemma TurnsOne(insn: Insn, params: nat, temps: seq<Temp>, after: seq<Temp>)
    requires ShapeAfter(insn, Shape(temps, 0), params, 0) == Some(Shape(after, 0))
    ensures Turns([insn], params, temps, after)
  {
    assert ShapeTo([insn], Shape(temps, 0), params, 0) == Some(Shape(temps, 0));
  }

  /** Code that allocates nothing, and does not begin with a pseudo-instruction. */
  ghost predicate Neat(code: seq<Insn>, lo: Temp, hi: Temp) {
    && Straight(code) && Numbered(code, lo, hi) && lo <= hi && AllocsOf(code) == []
    && (code != [] ==> !IsPseudo(code[0]))
  }

  lemma NeatConcat(a: seq<Insn>, b: seq<Insn>, lo: Temp, mid: Temp, hi: Temp)
    requires Neat(a, lo, mid) && Neat(b, mid, hi)
    ensures Neat(a + b, lo, hi)
  {
    StraightConcat(a, b);
    NumberedConcat(a, b, lo, mid, hi);
    AllocsConcat(a, b);
    if a == [] { assert a + b == b; } else { assert (a + b)[0] == a[0]; }
  }

  lemma NeatUse(id: Temp, kind: Kind, operands: seq<Temp>)
    requires |operands| == Arity(kind)
    ensures Neat([Use(id, kind, operands)], id, id + 1)
  {
    assert [Use(id, kind, operands)][..0] == [];
  }

  ghost predicate Between(ts: seq<Temp>, lo: Temp, hi: Temp) { forall t | t in ts :: lo <= t < hi }

  /** The code keeps what is on the stack and adds `results`. */
  ghost predicate Pushes(code: seq<Insn>, params: nat, temps: seq<Temp>, results: seq<Temp>, lo: Temp, hi: Temp) {
    Turns(code, params, temps, temps + results) && Neat(code, lo, hi) && Between(results, lo, hi)
  }

  lemma PushesConcat(
      a: seq<Insn>, b: seq<Insn>, params: nat, temps: seq<Temp>, r: seq<Temp>, q: seq<Temp>,
      lo: Temp, mid: Temp, hi: Temp)
    requires Pushes(a, params, temps, r, lo, mid) && Pushes(b, params, temps + r, q, mid, hi)
    ensures Pushes(a + b, params, temps, r + q, lo, hi)
  {
    assert temps + r + q == temps + (r + q);
    TurnsConcat(a, b, params, temps, temps + r, temps + (r + q));
    NeatConcat(a, b, lo, mid, hi);
  }

  lemma UseTurns(id: Temp, kind: Kind, operands: seq<Temp>, params: nat, temps: seq<Temp>)
    requires HasResult(kind) ==> id !in temps
    ensures Turns([Use(id, kind, operands)], params, temps + operands, temps + if HasResult(kind) then [id] else [])
  {
    var all := temps + operands;
    assert all[|all| - |operands|..] == operands && Drop(all, |operands|) == temps;
    TurnsOne(Use(id, kind, operands), params, all, temps + if HasResult(kind) then [id] else []);
  }

  /** An instruction that consumes `operands` from the top of the stack and leaves a result. */
  lemma ApplyPushes(
      code: seq<Insn>, params: nat, temps: seq<Temp>, operands: seq<Temp>, lo: Temp, mid: Temp, kind: Kind)
    requires Pushes(code, params, temps, operands, lo, mid) && HasResult(kind) && |operands| == Arity(kind)
    requires forall t | t in temps :: t < lo
    ensures Pushes(code + [Use(mid, kind, operands)], params, temps, [mid], lo, mid + 1)
  {
    UseTurns(mid, kind, operands, params, temps);
    NeatUse(mid, kind, operands);
    TurnsConcat(code, [Use(mid, kind, operands)], params, temps, temps + operands, temps + [mid]);
    NeatConcat(code, [Use(mid, kind, operands)], lo, mid, mid + 1);
  }

  lemma NothingPushes(params: nat, temps: seq<Temp>, lo: Temp)
    ensures Pushes([], params, temps, [], lo, lo)
  {
    assert temps + [] == temps;
  }

  /** The allocations of the symbols in scope are on the stack. */
  ghost predicate OnStack(allocs: map<Symbol, Temp>, scope: set<Symbol>, temps: seq<Temp>) {
    forall x | x in scope :: x in allocs && allocs[x] in temps
  }

  lemma OnStackGrows(allocs: map<Symbol, Temp>, scope: set<Symbol>, temps: seq<Temp>, more: seq<Temp>)
    requires OnStack(allocs, scope, temps)
    ensures OnStack(allocs, scope, temps + more)
  {
  }

  ghost predicate PieceOk(p: Piece, next: Temp, params: nat, temps: seq<Temp>) {
    Pushes(p.code, params, temps, [p.temp], next, p.next)
  }

  lemma LiteralPushes(json: string, allocs: map<Symbol, Temp>, next: Temp, params: nat, temps: seq<Temp>)
    requires forall t | t in temps :: t < next
    ensures PieceOk(ExprCode(Literal(json), allocs, next), next, params, temps)
  {
    NothingPushes(params, temps, next);
    ApplyPushes([], params, temps, [], next, next, Constant(json));
    assert [] + [Use(next, Constant(json), [])] == [Use(next, Constant(json), [])];
  }

  lemma VariablePushes(x: Symbol, allocs: map<Symbol, Temp>, next: Temp, params: nat, temps: seq<Temp>)
    requires x in allocs && allocs[x] in temps && forall t | t in temps :: t < next
    ensures PieceOk(ExprCode(Variable(x), allocs, next), next, params, temps)
  {
    var insn := Load(next, allocs[x]);
    TurnsOne(insn, params, temps, temps + [next]);
    assert [insn][..0] == [];
  }

  lemma OperatorPushes(op: BinaryOp, p: Piece, q: Piece, next: Temp, params: nat, temps: seq<Temp>)
    requires PieceOk(p, next, params, temps) && PieceOk(q, p.next, params, temps + [p.temp])
    requires forall t | t in temps :: t < next
    ensures PieceOk(OperatorPiece(op, p, q), next, params, temps)
  {
    hide Pushes;
    PushesConcat(p.code, q.code, params, temps, [p.temp], [q.temp], next, p.next, q.next);
    assert [p.temp] + [q.temp] == [p.temp, q.temp];
    ApplyPushes(p.code + q.code, params, temps, [p.temp, q.temp], next, q.next, Binary(op));
  }

  lemma UnaryPushes(op: UnaryOp, p: Piece, next: Temp, params: nat, temps: seq<Temp>)
    requires PieceOk(p, next, params, temps) && forall t | t in temps :: t < next
    ensures PieceOk(UnaryPiece(op, p), next, params, temps)
  {
    hide Pushes;
    ApplyPushes(p.code, params, temps, [p.temp], next, p.next, Unary(op));
  }

  /** The code of an expression leaves its result on the stack, and nothing else. */
  lemma {:induction false} ExprPushes(
      e: Expr, allocs: map<Symbol, Temp>, scope: set<Symbol>, next: Temp, params: nat, temps: seq<Temp>)
    requires Uses(e, scope) && OnStack(allocs, scope, temps) && forall t | t in temps :: t < next
    ensures PieceOk(ExprCode(e, allocs, next), next, params, temps)
    decreases e
  {
    match e
    case Literal(json) => LiteralPushes(json, allocs, next, params, temps);
    case Variable(x) => VariablePushes(x, allocs, next, params, temps);
    case UnaryExpr(op, inner) =>
      ExprPushes(inner, allocs, scope, next, params, temps);
      UnaryPushes(UnaryOpcode(op), ExprCode(inner, allocs, next), next, params, temps);
    case BinaryExpr(op, left, right) =>
      var p := ExprCode(left, allocs, next);
      ExprPushes(left, allocs, scope, next, params, temps);
      OnStackGrows(allocs, scope, temps, [p.temp]);
      ExprPushes(right, allocs, scope, p.next, params, temps + [p.temp]);
      OperatorPushes(Opcode(op), p, ExprCode(right, allocs, p.next), next, params, temps);
      if op.NotEquals? {
        UnaryPushes(LogicalNot, OperatorPiece(Opcode(op), p, ExprCode(right, allocs, p.next)), next, params, temps);
      }
    case CallExpr(f, args) =>
      var ps := ExprsCode(args, allocs, next);
      ExprsPush(args, allocs, scope, next, params, temps);
      ApplyPushes(ps.code, params, temps, ps.temps, next, ps.next, Call(f, |args|, true));
  }

  lemma {:induction false} ExprsPush(
      es: seq<Expr>, allocs: map<Symbol, Temp>, scope: set<Symbol>, next: Temp, params: nat, temps: seq<Temp>)
    requires (forall e | e in es :: Uses(e, scope)) && OnStack(allocs, scope, temps) && forall t | t in temps ::
             t < next
    ensures var ps := ExprsCode(es, allocs, next);
            Pushes(ps.code, params, temps, ps.temps, next, ps.next)
    decreases es
  {
    if es == [] {
      NothingPushes(params, temps, next);
    } else {
      var before, last := es[..|es| - 1], es[|es| - 1];
      var ps := ExprsCode(before, allocs, next);
      ExprsPush(before, allocs, scope, next, params, temps);
      OnStackGrows(allocs, scope, temps, ps.temps);
      ExprPushes(last, allocs, scope, ps.next, params, temps + ps.temps);
      var p := ExprCode(last, allocs, ps.next);
      PushesConcat(ps.code, p.code, params, temps, ps.temps, [p.temp], next, ps.next, p.next);
    }
  }

  // ----- plain statements -----

  /** The code of a statement keeps what is on the stack, and adds the local it allocates. */
  ghost predicate LineOk(line: Line, next: Temp, params: nat, temps: seq<Temp>, locals: seq<Temp>) {
    && Turns(line.code, params, temps, temps + locals) && Straight(line.code) && Numbered(line.code, next, line.next)
    && AllocsOf(line.code) == locals && Between(locals, next, line.next)
    && line.code != [] && !IsPseudo(line.code[0])
  }

  function LocalOf(s: Stmt, line: Line): seq<Temp> {
    if s.Let? && s.symbol in line.allocs then [line.allocs[s.symbol]] else []
  }

  /** An instruction behind the code that computes its operands. */
  lemma LastPushes(
      code: seq<Insn>, operands: seq<Temp>, insn: Insn, next: Temp, mid: Temp, hi: Temp, params: nat, temps: seq<Temp>,
      locals: seq<Temp>)
    requires Pushes(code, params, temps, operands, next, mid) && mid <= hi
    requires Turns([insn], params, temps + operands, temps + locals) && Straight([insn]) && Numbered([insn], mid, hi)
    requires AllocsOf([insn]) == locals && Between(locals, next, hi) && (code == [] ==> !IsPseudo(insn))
    ensures forall allocs :: LineOk(Line(code + [insn], allocs, hi), next, params, temps, locals)
  {
    TurnsConcat(code, [insn], params, temps, temps + operands, temps + locals);
    StraightConcat(code, [insn]);
    NumberedConcat(code, [insn], next, mid, hi);
    AllocsConcat(code, [insn]);
    assert (code + [insn])[0] == if code == [] then insn else code[0];
  }

  lemma AllocsOfOne(insn: Insn)
    ensures AllocsOf([insn]) == if insn.Alloc? then [insn.id] else []
  {
    assert [insn][..0] == [];
  }

  lemma LetPushes(x: Symbol, p: Piece, allocs: map<Symbol, Temp>, next: Temp, params: nat, temps: seq<Temp>)
    requires PieceOk(p, next, params, temps) && forall t | t in temps :: t < next
    ensures LineOk(Line(p.code + [Alloc(p.next, Some(p.temp))], allocs[x := p.next], p.next + 1), next, params, temps,
            [p.next])
  {
    var insn, all := Alloc(p.next, Some(p.temp)), temps + [p.temp];
    assert all[|all| - 1..] == [p.temp] && Drop(all, 1) == temps;
    TurnsOne(insn, params, all, temps + [p.next]);
    AllocsOfOne(insn);
    LastPushes(p.code, [p.temp], insn, next, p.next, p.next + 1, params, temps, [p.next]);
  }

  lemma AssignPushes(d: Temp, p: Piece, allocs: map<Symbol, Temp>, next: Temp, params: nat, temps: seq<Temp>)
    requires PieceOk(p, next, params, temps) && d in temps && p.code != []
    ensures LineOk(Line(p.code + [Store(p.temp, d)], allocs, p.next), next, params, temps, [])
  {
    var insn, all := Store(p.temp, d), temps + [p.temp];
    assert all[|all| - 1..] == [p.temp] && Drop(all, 1) == temps && temps + [] == temps;
    TurnsOne(insn, params, all, temps);
    AllocsOfOne(insn);
    LastPushes(p.code, [p.temp], insn, next, p.next, p.next, params, temps, []);
  }

  /** An instruction without a result. */
  lemma EffectPushes(
      code: seq<Insn>, operands: seq<Temp>, kind: Kind, allocs: map<Symbol, Temp>, next: Temp, mid: Temp, params: nat,
      temps: seq<Temp>)
    requires Pushes(code, params, temps, operands, next, mid) && !HasResult(kind) && |operands| == Arity(kind)
    ensures LineOk(Line(code + [Use(mid, kind, operands)], allocs, mid + 1), next, params, temps, [])
  {
    UseTurns(mid, kind, operands, params, temps);
    AllocsOfOne(Use(mid, kind, operands));
    LastPushes(code, operands, Use(mid, kind, operands), next, mid, mid + 1, params, temps, []);
  }

  /** What is expected where a statement is compiled. */
  ghost predicate InPlaceFor(
      s: Stmt, allocs: map<Symbol, Temp>, scope: set<Symbol>, branch: bool, next: Temp, temps: seq<Temp>)
  {
    IsPlain(s) && Proper(s, scope, branch) && OnStack(allocs, scope, temps) && forall t | t in temps :: t < next
  }

  ghost predicate StmtOk(s: Stmt, allocs: map<Symbol, Temp>, next: Temp, params: nat, temps: seq<Temp>)
    requires IsPlain(s)
  {
    var line := LineCode(s, allocs, next);
    LineOk(line, next, params, temps, LocalOf(s, line))
  }

  lemma LetOk(
      s: Stmt, allocs: map<Symbol, Temp>, scope: set<Symbol>, branch: bool, next: Temp, params: nat, temps: seq<Temp>)
    requires InPlaceFor(s, allocs, scope, branch, next, temps) && s.Let?
    ensures StmtOk(s, allocs, next, params, temps)
  {
    hide AllocsOf, Defines, ExprCode, ExprsCode, OnStack, ProperAll, Straight, Uses;
    ExprPushes(s.initializer, allocs, scope, next, params, temps);
    LetPushes(s.symbol, ExprCode(s.initializer, allocs, next), allocs, next, params, temps);
  }

  lemma AssignOk(
      s: Stmt, allocs: map<Symbol, Temp>, scope: set<Symbol>, branch: bool, next: Temp, params: nat, temps: seq<Temp>)
    requires InPlaceFor(s, allocs, scope, branch, next, temps) && s.Assign?
    ensures StmtOk(s, allocs, next, params, temps)
  {
    ExprPushes(s.rhs, allocs, scope, next, params, temps);
    AssignPushes(allocs[s.symbol], ExprCode(s.rhs, allocs, next), allocs, next, params, temps);
  }

  lemma EffectOk(
      s: Stmt, allocs: map<Symbol, Temp>, scope: set<Symbol>, branch: bool, next: Temp, params: nat, temps: seq<Temp>)
    requires InPlaceFor(s, allocs, scope, branch, next, temps) && (s.AssertThat? || s.Do?)
    ensures StmtOk(s, allocs, next, params, temps)
  {
    hide AllocsOf, Between, Defines, ExprCode, ExprsCode, OnStack, ProperAll, Straight;
    if s.AssertThat? {
      ExprPushes(s.condition, allocs, scope, next, params, temps);
      var p := ExprCode(s.condition, allocs, next);
      EffectPushes(p.code, [p.temp], Kind.Assert, allocs, next, p.next, params, temps);
    } else {
      ExprsPush(s.arguments, allocs, scope, next, params, temps);
      var ps := ExprsCode(s.arguments, allocs, next);
      EffectPushes(ps.code, ps.temps, Call(s.callee, |s.arguments|, false), allocs, next, ps.next, params, temps);
    }
  }

  lemma LinePushes(
      s: Stmt, allocs: map<Symbol, Temp>, scope: set<Symbol>, branch: bool, next: Temp, params: nat, temps: seq<Temp>)
    requires InPlaceFor(s, allocs, scope, branch, next, temps)
    ensures StmtOk(s, allocs, next, params, temps)
  {
    if s.Let? { LetOk(s, allocs, scope, branch, next, params, temps); }
    else if s.Assign? { AssignOk(s, allocs, scope, branch, next, params, temps); }
    else { EffectOk(s, allocs, scope, branch, next, params, temps); }
  }

  lemma LineAllocs(s: Stmt, allocs: map<Symbol, Temp>, next: Temp)
    requires IsPlain(s)
    ensures var line := LineCode(s, allocs, next);
            if s.Let? then line.next > next && line.allocs == allocs[s.symbol := line.next - 1]
              else line.allocs == allocs
  {
  }

  // ----- adding code to a block -----

  function WithCode(st: Gen, b: BlockId, code: seq<Insn>): seq<Block>
    requires b < |st.blocks|
  {
    st.blocks[b := st.blocks[b].(insns := st.blocks[b].insns + code)]
  }

  lemma {:induction false} AddCodeAdds(st: Gen, b: BlockId, code: seq<Insn>)
    requires b < |st.blocks| && forall i | 0 <= i < |code| :: !IsBranch(code[i])
    ensures var r := AddCode(st, b, code);
            r == st.(blocks := WithCode(st, b, code), notes := st.notes.(owner := r.notes.owner))
  {
    var block := st.blocks[b];
    if code == [] {
      assert block.insns + code == block.insns;
    } else {
      AddCodeAdds(st, b, code[..|code| - 1]);
      assert code == code[..|code| - 1] + [code[|code| - 1]];
      assert block.insns + code == (block.insns + code[..|code| - 1]) + [code[|code| - 1]];
    }
  }

  ghost predicate OwnedBelow(st: Gen, hi: Temp) {
    Owned(st.Graph(), st.notes.owner) && forall t | t in st.notes.owner :: t < hi
  }

  lemma AddInsnOwned(st: Gen, b: BlockId, insn: Insn, lo: Temp, hi: Temp)
    requires b < |st.blocks| && OwnedBelow(st, lo) && lo <= hi
             && (Defines(insn).Some? ==> lo <= Defines(insn).value < hi)
    ensures OwnedBelow(AddInsn(st, b, insn), hi)
  {
    var r := AddInsn(st, b, insn);
    forall c: nat, i: nat | c < |r.blocks| && i < |r.blocks[c].insns|
      ensures var t := Defines(r.blocks[c].insns[i]);
              t.Some? ==> t.value in r.notes.owner && r.notes.owner[t.value] == (c, i)
    {
      if c != b || i < |st.blocks[b].insns| { assert r.blocks[c].insns[i] == st.blocks[c].insns[i]; }
    }
  }

  lemma {:induction false} AddCodeOwned(st: Gen, b: BlockId, code: seq<Insn>, lo: Temp, hi: Temp)
    requires b < |st.blocks| && OwnedBelow(st, lo) && lo <= hi && Numbered(code, lo, hi)
    ensures OwnedBelow(AddCode(st, b, code), hi)
  {
    if code != [] {
      var last, before := code[|code| - 1], code[..|code| - 1];
      var mid := if Defines(last).Some? then Defines(last).value else hi;
      assert Numbered(before, lo, mid);
      AddCodeOwned(st, b, before, lo, mid);
      AddInsnOwned(AddCode(st, b, before), b, last, mid, hi);
    }
  }
}
