/** Every statement keeps the graph as it should be while it is generated. */
module GeneratedSteps {
  import opened Options
  import opened Ir
  import opened StackShape
  import opened PopPoints
  import opened Typing
  import opened Syntax
  import opened CodeGen
  import opened GeneratedCode
  import opened Generated

  // ----- the last instructions of a block -----

  /** An open block with an expression and a terminator behind it. */
  lemma TerminatedShape(
      insns: seq<Insn>, code: seq<Insn>, last: Insn, temp: Temp, head: Shape, params: nat, lo: Temp, hi: Temp)
    requires Stacked(insns, head, params) && Pushes(code, params, ShapeOf(insns, head, params).value.temps, [temp], lo,
             hi)
    ensures var temps := ShapeOf(insns, head, params).value.temps;
            ShapeOf(insns + code + [last], head, params) == ShapeAfter(last, Shape(temps + [temp], 0), params, 0)
  {
    var temps := ShapeOf(insns, head, params).value.temps;
    ShapeBehind(insns, code, head, params, temps + [temp]);
    ShapeConcat(insns + code, [last], head, params, 1);
    assert ShapeTo([last], Shape(temps + [temp], 0), params, 0) == Some(Shape(temps + [temp], 0));
  }

  lemma TerminatedAllocs(insns: seq<Insn>, code: seq<Insn>, last: Insn)
    requires AllocsOf(code) == [] && IsTerminator(last)
    ensures AllocsOf(insns + code + [last]) == AllocsOf(insns)
  {
    AllocsConcat(insns, code);
    AllocsConcat(insns + code, [last]);
    AllocsOfOne(last);
  }

  lemma TerminatedFirst(insns: seq<Insn>, code: seq<Insn>, last: Insn)
    requires IsTerminator(last) && (code != [] ==> !IsPseudo(code[0]))
    ensures var all := insns + code + [last];
            && all[0] == (if insns != [] then insns[0] else if code != [] then code[0] else last)
            && all[|all| - 1] == last
            && exists i | 0 <= i < |all| :: !IsPseudo(all[i])
  {
    var all := insns + code + [last];
    assert !IsPseudo(all[|all| - 1]);
  }

  lemma TerminatedStraight(insns: seq<Insn>, code: seq<Insn>, last: Insn)
    requires Straight(insns) && Straight(code) && IsTerminator(last)
    ensures var all := insns + code + [last];
            && (forall i | 0 <= i < |all| - 1 :: !IsTerminator(all[i]))
            && (forall i | 0 <= i < |all| && all[i].Use? :: |all[i].sources| == Arity(all[i].kind))
  {
    StraightConcat(insns, code);
    var all := insns + code + [last];
    assert forall i | 0 <= i < |all| - 1 :: all[i] == (insns + code)[i];
  }

  // ----- return -----

  /** The block that a return statement ends. */
  function Returned(block: Block, p: Piece): Block {
    Block(block.insns + p.code + [Return(Some(p.temp))], Some(EXIT), block.succ1)
  }

  lemma ReturnedShut(st: Gen, st': Gen, cur: BlockId, p: Piece, lo: Temp)
    requires cur < |st.blocks| == |st.notes.heads| && OpenOk(st, cur, cur) && cur in st.notes.rank
    requires PieceOk(p, lo, st.notes.params, Now(st, cur).temps) && |Now(st, cur).temps| >= st.notes.params
    requires |st'.blocks| == |st'.notes.heads| == |st.blocks| && st'.blocks[cur] == Returned(st.blocks[cur], p)
    requires st'.notes == st.notes.(owner := st'.notes.owner, parent := st'.notes.parent)
    ensures ShutOk(st', cur) && st'.blocks[cur].insns != [] && !TwoWay(st'.blocks[cur])
    ensures st.blocks[cur].insns == [] ==> !IsPseudo(st'.blocks[cur].insns[0])
    ensures st.blocks[cur].insns != [] ==> st'.blocks[cur].insns[0] == st.blocks[cur].insns[0]
  {
    var insns, last := st.blocks[cur].insns, Return(Some(p.temp));
    TerminatedShape(insns, p.code, last, p.temp, st.notes.heads[cur], st.notes.params, lo, p.next);
    TerminatedFirst(insns, p.code, last);
    TerminatedStraight(insns, p.code, last);
    var all := Now(st, cur).temps + [p.temp];
    assert all[|all| - 1..] == [p.temp];
  }

  /** The graph with the return in it, ahead of the block behind it. */
  function AfterReturn(st: Gen, cur: BlockId, p: Piece): Gen
    requires cur < |st.blocks|
  {
    Link(AddInsn(AddCode(st, cur, p.code), cur, Return(Some(p.temp))), cur, EXIT).(next := p.next)
  }

  lemma AfterReturnIs(st: Gen, cur: BlockId, p: Piece, lo: Temp)
    requires cur < |st.blocks| && PieceOk(p, lo, st.notes.params, Now(st, cur).temps)
    ensures var r := AfterReturn(st, cur, p);
            r == st.(blocks := st.blocks[cur := Returned(st.blocks[cur], p)], next := p.next,
                     notes := st.notes.(owner := r.notes.owner))
  {
    AddCodeAdds(st, cur, p.code);
  }

  lemma AfterReturnTemps(st: Gen, cur: BlockId, p: Piece)
    requires cur < |st.blocks| && TempsOk(st) && PieceOk(p, st.next, st.notes.params, Now(st, cur).temps)
    ensures TempsOk(AfterReturn(st, cur, p))
  {
    var st1 := AddCode(st, cur, p.code);
    AddCodeOwned(st, cur, p.code, st.next, p.next);
    AddInsnOwned(st1, cur, Return(Some(p.temp)), p.next, p.next);
    AfterReturnIs(st, cur, p, st.next);
    LinkOwned(AddInsn(st1, cur, Return(Some(p.temp))), cur, EXIT, p.next);
  }

  lemma LinkOwned(st: Gen, b: BlockId, t: BlockId, hi: Temp)
    requires b < |st.blocks| && OwnedBelow(st, hi)
    ensures OwnedBelow(Link(st, b, t), hi)
  {
    var r := Link(st, b, t);
    forall c: nat, i: nat | c < |r.blocks| && i < |r.blocks[c].insns|
      ensures var t := Defines(r.blocks[c].insns[i]);
              t.Some? ==> t.value in r.notes.owner && r.notes.owner[t.value] == (c, i)
    {
      assert r.blocks[c].insns[i] == st.blocks[c].insns[i];
    }
  }

  lemma ReturnCloses(st: Gen, cur: BlockId, p: Piece)
    requires GenOk(st, cur) && cur < |st.blocks| && !Frozen(st, cur) && LiveIn(st, cur)
    requires PieceOk(p, st.next, st.notes.params, Now(st, cur).temps) && |Now(st, cur).temps| >= st.notes.params
    ensures GenOk(AfterReturn(st, cur, p), cur) && Closes(st, AfterReturn(st, cur, p), cur)
  {
    hide AddCode, Ahead, AllocsOf, Between, Defines, Distinct, GeneratedCode.Numbered, Lone, NotTaken, Now,
      PopPoints.Numbered, ShutOk, Stacked, Straight, TempsOk, WithInsn;
    var r := AfterReturn(st, cur, p);
    assert Good(st, cur, cur);
    AfterReturnIs(st, cur, p, st.next);
    AfterReturnTemps(st, cur, p);
    assert Succs(r.blocks[cur]) == {EXIT};
    ReturnedShut(st, r, cur, p, st.next);
    ClosingOk(st, r, cur);
  }

  // ----- conditions -----

  lemma WithBranchesIs(st: Gen, head: Shape, no: bool)
    ensures var r, n := WithBranches(st, head, no), if no then 3 else 2;
            && r == st.(blocks := r.blocks, notes := st.notes.(heads := r.notes.heads))
            && |r.notes.heads| == |st.notes.heads| + n
            && (forall b: BlockId | b < |st.blocks| :: r.blocks[b] == st.blocks[b])
            && (forall b: BlockId | |st.blocks| <= b < |r.blocks| :: r.blocks[b] == Block([], None, None))
            && (forall b: BlockId | b < |st.notes.heads| :: r.notes.heads[b] == st.notes.heads[b])
            && (forall b: BlockId | |st.notes.heads| <= b < |r.notes.heads| :: r.notes.heads[b] == head)
  {
  }

  lemma WithBranchesOk(st: Gen, cur: BlockId, head: Shape, no: bool)
    requires GenOk(st, cur) && head.pending == 0
    ensures GenOk(WithBranches(st, head, no), cur)
  {
    NewBlockOk(st, cur, head);
    NewBlockOk(NewBlock(st, head), cur, head);
    if no { NewBlockOk(NewBlock(NewBlock(st, head), head), cur, head); }
  }

  /** The block that a condition ends. */
  function Branched(block: Block, p: Piece, yes: BlockId): Block {
    Block(block.insns + p.code + [Branch(p.temp, yes, yes + 1)], Some(yes), Some(yes + 1))
  }

  lemma BranchedShut(st: Gen, st': Gen, cur: BlockId, p: Piece, yes: BlockId, lo: Temp)
    requires cur < |st.blocks| == |st.notes.heads| && OpenOk(st, cur, cur) && cur in st.notes.rank
    requires PieceOk(p, lo, st.notes.params, Now(st, cur).temps)
    requires |st'.blocks| == |st'.notes.heads| == |st.blocks| && st'.blocks[cur] == Branched(st.blocks[cur], p, yes)
    requires st'.notes == st.notes.(owner := st'.notes.owner, parent := st'.notes.parent)
    requires START < yes && yes + 1 < |st.blocks|
    requires st.notes.heads[yes] == st.notes.heads[yes + 1] == Now(st, cur)
    ensures ShutOk(st', cur)
    ensures st.blocks[cur].insns == [] ==> !IsPseudo(st'.blocks[cur].insns[0])
    ensures st.blocks[cur].insns != [] ==> st'.blocks[cur].insns[0] == st.blocks[cur].insns[0]
  {
    hide WellFormedBlock, HasCode, EndsInReturn, Succs, Branched, PieceOk, Straight, ShapeOf, AllocsOf, IsPseudo;
    PieceFacts(p, lo, st.notes.params, Now(st, cur).temps);
    BranchedIsWellFormed(st.blocks[cur], p, yes);
    BranchedStacks(st.blocks[cur], p, yes, st.notes.heads[cur], st.notes.params, lo);
  }

  lemma PieceFacts(p: Piece, lo: Temp, params: nat, temps: seq<Temp>)
    requires PieceOk(p, lo, params, temps)
    ensures Straight(p.code) && AllocsOf(p.code) == [] && (p.code != [] ==> !IsPseudo(p.code[0]))
  {
  }

  lemma BranchedIsWellFormed(block: Block, p: Piece, yes: BlockId)
    requires Straight(block.insns) && Straight(p.code) && (p.code != [] ==> !IsPseudo(p.code[0]))
    ensures var r := Branched(block, p, yes);
            && WellFormedBlock(r) && HasCode(r) && !EndsInReturn(r) && Succs(r) == {yes, yes + 1} && r.insns != []
            && (block.insns == [] ==> !IsPseudo(r.insns[0])) && (block.insns != [] ==> r.insns[0] == block.insns[0])
  {
    var last := Branch(p.temp, yes, yes + 1);
    TerminatedFirst(block.insns, p.code, last);
    TerminatedStraight(block.insns, p.code, last);
  }

  /** The branch takes its condition off the stack, and leaves it as it was ahead of the condition. */
  lemma BranchedStacks(block: Block, p: Piece, yes: BlockId, head: Shape, params: nat, lo: Temp)
    requires Stacked(block.insns, head, params) && PieceOk(p, lo, params,
             ShapeOf(block.insns, head, params).value.temps)
    ensures var r := Branched(block, p, yes);
            Stacked(r.insns, head, params) && ShapeOf(r.insns, head, params) == ShapeOf(block.insns, head, params)
  {
    hide Straight, GeneratedCode.Numbered;
    var insns, last := block.insns, Branch(p.temp, yes, yes + 1);
    var temps := ShapeOf(insns, head, params).value.temps;
    PieceFacts(p, lo, params, temps);
    TerminatedShape(insns, p.code, last, p.temp, head, params, lo, p.next);
    TerminatedAllocs(insns, p.code, last);
    var all := temps + [p.temp];
    assert all[|all| - 1..] == [p.temp] && Drop(all, 1) == temps;
  }

  /** What a condition makes of `w`, the state with the new blocks. */
  ghost predicate Conditioned(st: Gen, w: Gen, r: Gen, cur: BlockId, p: Piece) {
    var yes := |st.blocks|;
    && cur < yes && |w.blocks| > yes + 1 && w.blocks[cur] == st.blocks[cur]
    && r == w.(blocks := w.blocks[cur := Branched(st.blocks[cur], p, yes)], next := p.next,
               notes := w.notes.(owner := r.notes.owner, parent := r.notes.parent))
    && forall b: BlockId {:trigger b in r.notes.parent} ::
         && (b in r.notes.parent <==> b in st.notes.parent || (LiveIn(st, cur) && (b == yes || b == yes + 1)))
         && (b in r.notes.parent ==> r.notes.parent[b] == if b in st.notes.parent then st.notes.parent[b] else cur)
  }

  lemma BranchOffIs(w: Gen, cur: BlockId, temp: Temp, yes: BlockId)
    requires cur < |w.blocks| && yes !in w.notes.parent && yes + 1 !in w.notes.parent && cur != yes && cur != yes + 1
    ensures var r, block := BranchOff(w, cur, temp, yes), w.blocks[cur];
            && r == w.(blocks := w.blocks[cur := Block(block.insns + [Branch(temp, yes, yes + 1)], Some(yes),
               Some(yes + 1))],
                       notes := w.notes.(owner := r.notes.owner, parent := r.notes.parent))
            && forall b: BlockId ::
                 && (b in r.notes.parent <==> b in w.notes.parent || (LiveIn(w, cur) && (b == yes || b == yes + 1)))
                 && (b in r.notes.parent ==>
                    r.notes.parent[b] == if b in w.notes.parent then w.notes.parent[b] else cur)
  {
  }

  lemma ConditionIs(st: Gen, c: Expr, cur: BlockId, no: bool, params: nat, temps: seq<Temp>)
    requires cur < |st.blocks| && PieceOk(ExprCode(c, st.allocs, st.next), st.next, params, temps)
    requires forall x: BlockId {:trigger x in st.notes.parent} | x in st.notes.parent :: x < |st.blocks|
    ensures Conditioned(st, WithBranches(st, Now(st, cur), no), GenCondition(st, c, cur, no), cur,
            ExprCode(c, st.allocs, st.next))
  {
    hide ExprCode, AddCode, WithBranches, BranchOff, NewBlock, Now, Pushes;
    var p, head, yes := ExprCode(c, st.allocs, st.next), Now(st, cur), |st.blocks|;
    PieceFacts(p, st.next, params, temps);
    var st1 := AddCode(st, cur, p.code).(next := p.next);
    var block := st.blocks[cur].(insns := st.blocks[cur].insns + p.code);
    AddCodeAdds(st, cur, p.code);
    assert st1 == Changed(st, cur, block, p.next, st1.notes.owner);
    BranchesCommute(st, cur, block, p.next, st1.notes.owner, head, no);
    WithBranchesIs(st, head, no);
    BranchOffIs(WithBranches(st1, head, no), cur, p.temp, yes);
  }

  /** A change to one block, on the other side of new blocks. */
  function Changed(st: Gen, cur: BlockId, block: Block, next: Temp, owner: Owner): Gen
    requires cur < |st.blocks|
  {
    st.(blocks := st.blocks[cur := block], next := next, notes := st.notes.(owner := owner))
  }

  lemma NewBlockCommutes(st: Gen, cur: BlockId, block: Block, next: Temp, owner: Owner, head: Shape)
    requires cur < |st.blocks|
    ensures NewBlock(Changed(st, cur, block, next, owner), head) == Changed(NewBlock(st, head), cur, block, next, owner)
  {
    assert st.blocks[cur := block] + [Block([], None, None)] == (st.blocks + [Block([], None, None)])[cur := block];
  }

  lemma BranchesCommute(st: Gen, cur: BlockId, block: Block, next: Temp, owner: Owner, head: Shape, no: bool)
    requires cur < |st.blocks|
    ensures WithBranches(Changed(st, cur, block, next, owner), head, no) ==
            Changed(WithBranches(st, head, no), cur, block, next, owner)
  {
    NewBlockCommutes(st, cur, block, next, owner, head);
    NewBlockCommutes(NewBlock(st, head), cur, block, next, owner, head);
    if no { NewBlockCommutes(NewBlock(NewBlock(st, head), head), cur, block, next, owner, head); }
  }

  lemma NewBlockOwned(st: Gen, head: Shape, hi: Temp)
    requires OwnedBelow(st, hi)
    ensures OwnedBelow(NewBlock(st, head), hi)
  {
    var r := NewBlock(st, head);
    forall c: nat, i: nat | c < |r.blocks| && i < |r.blocks[c].insns|
      ensures var t := Defines(r.blocks[c].insns[i]);
              t.Some? ==> t.value in r.notes.owner && r.notes.owner[t.value] == (c, i)
    {
      assert r.blocks[c].insns[i] == st.blocks[c].insns[i];
    }
  }

  lemma ReachOwned(st: Gen, b: BlockId, t: BlockId, hi: Temp)
    requires OwnedBelow(st, hi)
    ensures OwnedBelow(Reach(st, b, t), hi)
  {
  }

  lemma WithBranchesOwned(st: Gen, head: Shape, no: bool, hi: Temp)
    requires OwnedBelow(st, hi)
    ensures OwnedBelow(WithBranches(st, head, no), hi)
  {
    NewBlockOwned(st, head, hi);
    NewBlockOwned(NewBlock(st, head), head, hi);
    if no { NewBlockOwned(NewBlock(NewBlock(st, head), head), head, hi); }
  }

  lemma BranchOwned(st: Gen, cur: BlockId, temp: Temp, yes: BlockId, hi: Temp)
    requires cur < |st.blocks| && OwnedBelow(st, hi)
    ensures OwnedBelow(BranchOff(st, cur, temp, yes), hi)
  {
    var st1 := AddInsn(st, cur, Branch(temp, yes, yes + 1));
    AddInsnOwned(st, cur, Branch(temp, yes, yes + 1), hi, hi);
    ReachOwned(st1, cur, yes, hi);
    ReachOwned(Reach(st1, cur, yes), cur, yes + 1, hi);
  }

  lemma ConditionTemps(st: Gen, c: Expr, cur: BlockId, no: bool)
    requires cur < |st.blocks| && OwnedBelow(st, st.next)
    requires PieceOk(ExprCode(c, st.allocs, st.next), st.next, st.notes.params, Now(st, cur).temps)
    ensures OwnedBelow(GenCondition(st, c, cur, no), ExprCode(c, st.allocs, st.next).next)
  {
    var p := ExprCode(c, st.allocs, st.next);
    AddCodeOwned(st, cur, p.code, st.next, p.next);
    var st1 := AddCode(st, cur, p.code).(next := p.next);
    assert OwnedBelow(st1, p.next);
    WithBranchesOwned(st1, Now(st, cur), no, p.next);
    BranchOwned(WithBranches(st1, Now(st, cur), no), cur, p.temp, |st.blocks|, p.next);
  }

  /** Nothing leads to a block that has not been created. */
  lemma SuccessorsCreated(st: Gen, cur: BlockId, a: BlockId)
    requires GenOk(st, cur) && a < |st.blocks|
    ensures forall s | s in Succs(st.blocks[a]) :: s < |st.blocks|
  {
    if a >= START { assert Good(st, cur, a); }
  }

  lemma FreshNotTaken(st: Gen, cur: BlockId, head: Shape, no: bool, t: BlockId)
    requires GenOk(st, cur) && |st.blocks| <= t
    ensures NotTaken(WithBranches(st, head, no), t)
    ensures forall a: BlockId | a < |WithBranches(st, head, no).blocks| ::
            t !in Succs(WithBranches(st, head, no).blocks[a])
  {
    var w := WithBranches(st, head, no);
    WithBranchesIs(st, head, no);
    forall a: BlockId | a < |w.blocks| ensures t !in Succs(w.blocks[a]) {
      if a < |st.blocks| { SuccessorsCreated(st, cur, a); }
    }
    forall b: BlockId | b < |w.blocks| && TwoWay(w.blocks[b]) ensures w.blocks[b].succ0.value != t {
      assert w.blocks[b].succ0.value in Succs(w.blocks[b]);
    }
  }

  lemma ConditionCloses(st: Gen, w: Gen, r: Gen, cur: BlockId, p: Piece)
    requires GenOk(st, cur) && GenOk(w, cur) && !Frozen(st, cur) && Conditioned(st, w, r, cur, p)
    requires w.added == st.added && w.allocs == st.allocs && w.notes == st.notes.(heads := w.notes.heads)
    requires !Frozen(w, |st.blocks|) && !Frozen(w, |st.blocks| + 1)
    requires NotTaken(w, |st.blocks|) && NotTaken(w, |st.blocks| + 1)
    ensures Closes(w, r, cur)
  {
    hide Distinct, Lone, ShutOk, Stacked, Straight, TempsOk, Worked;
    assert Good(w, cur, cur) && OrderOk(st);
    assert Succs(r.blocks[cur]) == {|st.blocks|, |st.blocks| + 1};
  }

  lemma ConditionClosesWell(st: Gen, w: Gen, r: Gen, cur: BlockId, p: Piece)
    requires GenOk(w, cur) && !Frozen(w, cur) && LiveIn(w, cur) && Conditioned(st, w, r, cur, p) && Closes(w, r, cur)
    requires PieceOk(p, st.next, w.notes.params, Now(w, cur).temps) && START < |st.blocks|
    requires w.notes.heads[|st.blocks|] == w.notes.heads[|st.blocks| + 1] == Now(w, cur)
    requires forall a: BlockId | a < |w.blocks| :: |st.blocks| !in Succs(w.blocks[a])
    ensures |r.notes.heads| == |r.blocks| && ClosedWell(w, r, cur)
  {
    hide Ahead, Closes, Lone, Now, OpenOk, Reaches, ShutOk;
    assert Good(w, cur, cur);
    BranchedShut(w, r, cur, p, |st.blocks|, st.next);
  }

  ghost predicate Prepared(st: Gen, w: Gen, cur: BlockId) {
    var yes := |st.blocks|;
    && cur < yes && |w.blocks| > yes + 1 && |w.notes.heads| == |w.blocks|
    && w == st.(blocks := w.blocks, notes := st.notes.(heads := w.notes.heads))
    && !Frozen(w, yes) && !Frozen(w, yes + 1) && NotTaken(w, yes) && NotTaken(w, yes + 1)
    && Now(w, cur) == Now(st, cur) && w.notes.heads[yes] == w.notes.heads[yes + 1] == Now(st, cur)
    && forall a: BlockId | a < |w.blocks| :: yes !in Succs(w.blocks[a])
  }

  lemma BranchesPrepared(st: Gen, cur: BlockId, no: bool)
    requires GenOk(st, cur) && cur < |st.blocks|
    ensures Prepared(st, WithBranches(st, Now(st, cur), no), cur)
  {
    var head, yes := Now(st, cur), |st.blocks|;
    WithBranchesIs(st, head, no);
    FreshNotTaken(st, cur, head, no, yes);
    FreshNotTaken(st, cur, head, no, yes + 1);
  }

  lemma ConditionOk(st: Gen, c: Expr, cur: BlockId, no: bool)
    requires GenOk(st, cur) && cur < |st.blocks| && !Frozen(st, cur) && LiveIn(st, cur)
    requires PieceOk(ExprCode(c, st.allocs, st.next), st.next, st.notes.params, Now(st, cur).temps)
    ensures GenOk(GenCondition(st, c, cur, no), cur)
    ensures Closes(WithBranches(st, Now(st, cur), no), GenCondition(st, c, cur, no), cur)
  {
    var p, w, r := ExprCode(c, st.allocs, st.next), WithBranches(st, Now(st, cur), no), GenCondition(st, c, cur, no);
    assert Good(st, cur, cur);
    WithBranchesOk(st, cur, Now(st, cur), no);
    BranchesPrepared(st, cur, no);
    ConditionIs(st, c, cur, no, st.notes.params, Now(st, cur).temps);
    ConditionTemps(st, c, cur, no);
    ConditionFinish(st, w, r, cur, p);
  }

  lemma ConditionFinish(st: Gen, w: Gen, r: Gen, cur: BlockId, p: Piece)
    requires GenOk(st, cur) && GenOk(w, cur) && cur < |st.blocks| && !Frozen(st, cur) && LiveIn(st, cur)
    requires Prepared(st, w, cur) && Conditioned(st, w, r, cur, p) && OwnedBelow(r, p.next)
    requires PieceOk(p, st.next, w.notes.params, Now(w, cur).temps)
    ensures GenOk(r, cur) && Closes(w, r, cur)
  {
    ConditionCloses(st, w, r, cur, p);
    ConditionClosesWell(st, w, r, cur, p);
    assert TempsOk(r);
    ClosingOk(w, r, cur);
  }

  // ----- the end of a branch -----

  function AfterLink(st: Gen, b: BlockId, t: BlockId): (r: Gen)
    requires b < |st.blocks|
    ensures |r.blocks| == |st.blocks|
  {
    Reach(Link(st, b, t), b, t)
  }

  lemma LinkShut(st: Gen, st': Gen, cur: BlockId, join: BlockId)
    requires START < cur < |st.blocks| == |st.notes.heads| && Good(st, cur, cur) && !Frozen(st, cur)
             && cur in st.notes.rank
    requires |st'.blocks| == |st.blocks| && st'.notes == st.notes.(parent := st'.notes.parent)
    requires st'.blocks[cur] == st.blocks[cur].(succ0 := Some(join))
    requires START < join < |st.blocks| && st.notes.heads[join] == Now(st, cur)
    ensures ShutOk(st', cur)
  {
    var insns := st.blocks[cur].insns;
    if insns != [] { assert !IsPseudo(insns[0]); }
  }

  /** A branch that control leaves at its end is led to what follows the `if`. */
  lemma LinkOk(st: Gen, cur: BlockId, join: BlockId)
    requires GenOk(st, cur) && START < cur < |st.blocks| && !Frozen(st, cur)
    requires Waits(st, join) && !Frozen(st, join) && NotTaken(st, join) && join != cur
             && st.notes.heads[join] == Now(st, cur)
    ensures GenOk(AfterLink(st, cur, join), cur) && Closes(st, AfterLink(st, cur, join), cur)
  {
    hide AllocsOf, Distinct, Lone, Now, Owned, ShutOk, Straight;
    var r := AfterLink(st, cur, join);
    assert Good(st, cur, cur);
    LinkOwned(st, cur, join, st.next);
    ReachOwned(Link(st, cur, join), cur, join, st.next);
    assert Succs(r.blocks[cur]) == {join};
    assert TempsOk(r) && Closes(st, r, cur);
    LinkShut(st, r, cur, join);
    ClosingOk(st, r, cur);
  }
}
