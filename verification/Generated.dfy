/** What holds of the graph while it is generated. */
module Generated {
  import opened Options
  import opened Ir
  import opened StackShape
  import opened PopPoints
  import opened Typing
  import opened Syntax
  import opened CodeGen
  import opened GeneratedCode

  /** A block is frozen once it has a successor. */
  predicate Frozen(st: Gen, b: BlockId)
    requires b < |st.blocks|
  {
    st.blocks[b].succ0.Some?
  }

  /** A block that has been created but not added to the function yet. */
  predicate Waits(st: Gen, b: BlockId) { START < b < |st.blocks| && b !in st.notes.rank }

  predicate LiveIn(st: Gen, b: BlockId) { b == ENTRY || b in st.notes.parent }

  // ----- the state as a whole -----

  ghost predicate FrameOk(st: Gen) {
    && |st.notes.heads| == |st.blocks| > START
    && st.blocks[ENTRY] == Block([], Some(START), None) && st.blocks[EXIT] == Block([], None, None)
    && EXIT !in st.notes.parent && ENTRY !in st.notes.parent
    && START in st.notes.parent && st.notes.parent[START] == ENTRY
    && st.notes.heads[ENTRY].temps == [] && st.notes.heads[START] == Shape([], st.notes.params)
    && forall b: BlockId {:trigger b in st.notes.parent} | b in st.notes.parent :: b < |st.blocks|
  }

  ghost predicate OrderOk(st: Gen) {
    && Distinct(st.added) && (forall b: BlockId {:trigger b in st.added} :: b in st.added <==> b in st.notes.rank)
    && EXIT !in st.notes.rank && ENTRY in st.notes.rank && START in st.notes.rank
       && st.notes.rank[ENTRY] < st.notes.rank[START]
    && forall b: BlockId {:trigger b in st.notes.rank} | b in st.notes.rank ::
       b < |st.blocks| && st.notes.rank[b] < |st.added|
  }

  ghost predicate TempsOk(st: Gen) {
    && OwnedBelow(st, st.next)
    && (forall x {:trigger x in st.allocs} | x in st.allocs :: st.allocs[x] < st.next)
    && forall x, y {:trigger st.allocs[x], st.allocs[y]} | x in st.allocs && y in st.allocs && x != y ::
       st.allocs[x] != st.allocs[y]
  }

  // ----- one block -----

  /** The stack holds what it held at the head of the block, and what the block has allocated. */
  ghost predicate Stacked(insns: seq<Insn>, head: Shape, params: nat) {
    && ShapeOf(insns, head, params).Some?
    && var end := ShapeOf(insns, head, params).value;
       end.pending == 0 && end.temps == head.temps + AllocsOf(insns)
  }

  /** A block that is worked on holds nothing but straight code; one that waits is empty. */
  ghost predicate OpenOk(st: Gen, cur: BlockId, b: BlockId)
    requires b < |st.blocks| == |st.notes.heads|
  {
    var block := st.blocks[b];
    && block.succ1.None? && Straight(block.insns) && (b == cur || (block.insns == [] && b !in st.notes.rank))
    && Stacked(block.insns, st.notes.heads[b], st.notes.params)
  }

  /** A frozen block leaves behind what its successors expect. */
  ghost predicate ShutOk(st: Gen, b: BlockId)
    requires b < |st.blocks| == |st.notes.heads|
  {
    var block := st.blocks[b];
    && WellFormedBlock(block) && b in st.notes.rank && (block.insns != [] ==> HasCode(block))
    && ShapeOf(block.insns, st.notes.heads[b], st.notes.params).Some?
    && if EndsInReturn(block) then block.insns[|block.insns| - 1].value.Some? && Succs(block) == {EXIT}
       else
         && Stacked(block.insns, st.notes.heads[b], st.notes.params)
         && forall s | s in Succs(block) ::
              START < s < |st.blocks| && st.notes.heads[s]
                == ShapeOf(block.insns, st.notes.heads[b], st.notes.params).value
  }

  /** Successors come later. */
  ghost predicate Ahead(st: Gen, b: BlockId)
    requires b < |st.blocks|
  {
    forall s | s in Succs(st.blocks[b]) && s != EXIT ::
      START < s < |st.blocks| && (s in st.notes.rank ==> b in st.notes.rank && st.notes.rank[b] < st.notes.rank[s])
  }

  ghost predicate Worked(st: Gen, b: BlockId)
    requires b < |st.blocks|
  {
    st.blocks[b].insns != [] ==> LiveIn(st, b) && (b == START || !IsPseudo(st.blocks[b].insns[0]))
  }

  predicate TwoWay(block: Block) { block.succ0.Some? && block.succ1.Some? }

  /** Nothing else leads to the taken block of a condition, which is about to be filled if it is empty. */
  ghost predicate Lone(st: Gen, cur: BlockId, b: BlockId)
    requires b < |st.blocks|
  {
    TwoWay(st.blocks[b]) ==>
      var t := st.blocks[b].succ0.value;
      && t < |st.blocks| && (st.blocks[t].insns != [] || t == cur || Waits(st, t))
      && forall a: BlockId | a < |st.blocks| && t in Succs(st.blocks[a]) :: a == b
  }

  ghost predicate Reaches(st: Gen, b: BlockId)
    requires b < |st.blocks|
  {
    && (LiveIn(st, b) ==> forall s | s in Succs(st.blocks[b]) && s != EXIT :: LiveIn(st, s))
    && (b in st.notes.parent ==>
          var p := st.notes.parent[b]; p < |st.blocks| && LiveIn(st, p) && b in Succs(st.blocks[p]))
  }

  ghost predicate Good(st: Gen, cur: BlockId, b: BlockId)
    requires b < |st.blocks| == |st.notes.heads|
  {
    && (if Frozen(st, b) then ShutOk(st, b) else OpenOk(st, cur, b))
    && Ahead(st, b) && Worked(st, b) && Lone(st, cur, b) && Reaches(st, b)
  }

  ghost predicate GenOk(st: Gen, cur: BlockId) {
    && FrameOk(st) && OrderOk(st) && TempsOk(st) && START <= cur && cur in st.notes.rank
    && |st.added| > 0 && st.added[|st.added| - 1] == cur
    && forall b: BlockId {:trigger Good(st, cur, b)} | START <= b < |st.blocks| :: Good(st, cur, b)
  }

  // ----- blocks that a change does not touch -----

  /** Nothing changes but that some blocks gain instructions. */
  ghost predicate SameEdges(st: Gen, st': Gen) {
    && |st'.blocks| == |st.blocks| && st'.notes == st.notes.(owner := st'.notes.owner)
    && forall b {:trigger st'.blocks[b]} | 0 <= b < |st.blocks| ::
         Succs(st'.blocks[b]) == Succs(st.blocks[b]) && (st.blocks[b].insns != [] ==> st'.blocks[b].insns != [])
  }

  lemma UntouchedGood(st: Gen, st': Gen, cur: BlockId, b: BlockId)
    requires b < |st.blocks| == |st.notes.heads| && SameEdges(st, st') && st'.blocks[b] == st.blocks[b]
    requires Good(st, cur, b)
    ensures Good(st', cur, b)
  {
    if b in st.notes.parent { assert st.notes.parent[b] < |st.blocks|; }
  }

  // ----- plain statements -----

  lemma ShapeBehind(insns: seq<Insn>, code: seq<Insn>, head: Shape, params: nat, after: seq<Temp>)
    requires Stacked(insns, head, params)
    requires Turns(code, params, ShapeOf(insns, head, params).value.temps, after)
    ensures ShapeOf(insns + code, head, params) == Some(Shape(after, 0))
  {
    ShapeConcat(insns, code, head, params, |code|);
  }

  /** A block that is worked on, with more straight code. */
  lemma MoreCode(st: Gen, st': Gen, cur: BlockId, code: seq<Insn>, locals: seq<Temp>)
    requires cur < |st.blocks| == |st.notes.heads| && OpenOk(st, cur, cur) && Straight(code)
    requires |st'.blocks| == |st'.notes.heads| == |st.blocks| && st'.notes.heads == st.notes.heads
    requires st'.blocks[cur] == st.blocks[cur].(insns := st.blocks[cur].insns + code)
    requires st'.notes.params == st.notes.params && AllocsOf(code) == locals
    requires Turns(code, st.notes.params, Now(st, cur).temps, Now(st, cur).temps + locals)
    ensures OpenOk(st', cur, cur) && Now(st', cur) == Shape(Now(st, cur).temps + locals, 0)
  {
    hide Turns, Straight, ShapeOf, AllocsOf;
    var insns, head := st.blocks[cur].insns, st.notes.heads[cur];
    ShapeBehind(insns, code, head, st.notes.params, Now(st, cur).temps + locals);
    AllocsConcat(insns, code);
    StraightConcat(insns, code);
    assert head.temps + AllocsOf(insns) + locals == head.temps + (AllocsOf(insns) + locals);
  }

  /** The state behind a plain statement. */
  function AfterLine(st: Gen, cur: BlockId, line: Line): (r: Gen)
    requires cur < |st.blocks|
    ensures |r.blocks| == |st.blocks|
  {
    AddCode(st, cur, line.code).(allocs := line.allocs, next := line.next)
  }

  /** A statement adds at most one local, under the symbol `x`. */
  ghost predicate LocalsOk(st: Gen, line: Line, locals: seq<Temp>, x: Symbol) {
    || (locals == [] && line.allocs == st.allocs)
    || (|locals| == 1 && st.next <= locals[0] && line.allocs == st.allocs[x := locals[0]])
  }

  lemma AfterLineAdds(st: Gen, cur: BlockId, line: Line, locals: seq<Temp>)
    requires cur < |st.blocks| && LineOk(line, st.next, st.notes.params, Now(st, cur).temps, locals)
    ensures var r := AfterLine(st, cur, line);
            && r == st.(blocks := WithCode(st, cur, line.code), allocs := line.allocs, next := line.next,
                        notes := st.notes.(owner := r.notes.owner))
            && SameEdges(st, r)
  {
    AddCodeAdds(st, cur, line.code);
  }

  lemma AfterLineTemps(st: Gen, cur: BlockId, line: Line, locals: seq<Temp>, x: Symbol)
    requires cur < |st.blocks| && TempsOk(st) && LocalsOk(st, line, locals, x)
    requires LineOk(line, st.next, st.notes.params, Now(st, cur).temps, locals) && st.next <= line.next
    ensures TempsOk(AfterLine(st, cur, line))
  {
    var r := AfterLine(st, cur, line);
    AddCodeOwned(st, cur, line.code, st.next, line.next);
    assert OwnedBelow(r, r.next);
    if locals != [] { assert locals[0] in locals; }
  }

  lemma AfterLineGood(st: Gen, cur: BlockId, line: Line, locals: seq<Temp>)
    requires START <= cur < |st.blocks| == |st.notes.heads| && Good(st, cur, cur) && !Frozen(st, cur) && LiveIn(st, cur)
    requires LineOk(line, st.next, st.notes.params, Now(st, cur).temps, locals)
    ensures SameEdges(st, AfterLine(st, cur, line)) && Good(AfterLine(st, cur, line), cur, cur)
    ensures Now(AfterLine(st, cur, line), cur) == Shape(Now(st, cur).temps + locals, 0)
  {
    var r, insns := AfterLine(st, cur, line), st.blocks[cur].insns;
    AfterLineAdds(st, cur, line, locals);
    MoreCode(st, r, cur, line.code, locals);
    assert (insns + line.code)[0] == if insns == [] then line.code[0] else insns[0];
  }

  /** A plain statement keeps everything as it should be. */
  lemma AfterLineOk(st: Gen, cur: BlockId, line: Line, locals: seq<Temp>, x: Symbol)
    requires GenOk(st, cur) && cur < |st.blocks| && !Frozen(st, cur) && LiveIn(st, cur) && st.next <= line.next
    requires LineOk(line, st.next, st.notes.params, Now(st, cur).temps, locals) && LocalsOk(st, line, locals, x)
    ensures GenOk(AfterLine(st, cur, line), cur)
    ensures Now(AfterLine(st, cur, line), cur) == Shape(Now(st, cur).temps + locals, 0)
  {
    hide AfterLine, Ahead, AllocsOf, Distinct, HasCode, LineOk, LocalsOk, Lone, Now, Reaches, SameEdges, Straight,
      TempsOk, WellFormedBlock;
    var r := AfterLine(st, cur, line);
    assert Good(st, cur, cur);
    AfterLineAdds(st, cur, line, locals);
    AfterLineTemps(st, cur, line, locals, x);
    AfterLineGood(st, cur, line, locals);
    forall b: BlockId | START <= b < |r.blocks| ensures Good(r, cur, b) {
      if b != cur {
        assert Good(st, cur, b);
        UntouchedGood(st, r, cur, b);
      }
    }
  }

  // ----- new blocks -----

  lemma NewBlockGood(st: Gen, cur: BlockId, head: Shape, b: BlockId)
    requires START <= b < |st.blocks| == |st.notes.heads| && START < |st.blocks| && Good(st, cur, b)
    ensures |NewBlock(st, head).notes.heads| == |NewBlock(st, head).blocks|
    ensures Good(NewBlock(st, head), cur, b)
  {
    var r := NewBlock(st, head);
    assert r.blocks[b] == st.blocks[b] && r.notes.heads[b] == st.notes.heads[b];
    if b in st.notes.parent { assert r.blocks[st.notes.parent[b]] == st.blocks[st.notes.parent[b]]; }
    forall a: BlockId | a < |r.blocks| && Succs(r.blocks[a]) != {}
      ensures a < |st.blocks| && r.blocks[a] == st.blocks[a] {
    }
  }

  lemma NewestGood(st: Gen, cur: BlockId, head: Shape)
    requires |st.blocks| == |st.notes.heads| && START < |st.blocks| && head.pending == 0
             && |st.blocks| !in st.notes.parent && |st.blocks| !in st.notes.rank
    ensures |NewBlock(st, head).notes.heads| == |NewBlock(st, head).blocks|
    ensures Good(NewBlock(st, head), cur, |st.blocks|)
  {
    assert head.temps + [] == head.temps;
  }

  lemma NewBlockTemps(st: Gen, head: Shape)
    requires TempsOk(st)
    ensures TempsOk(NewBlock(st, head))
  {
    var r := NewBlock(st, head);
    forall c: nat, i: nat | c < |r.blocks| && i < |r.blocks[c].insns|
      ensures var t := Defines(r.blocks[c].insns[i]);
              t.Some? ==> t.value in r.notes.owner && r.notes.owner[t.value] == (c, i)
    {
      assert r.blocks[c].insns[i] == st.blocks[c].insns[i];
    }
    assert OwnedBelow(r, r.next);
  }

  lemma NewBlockOk(st: Gen, cur: BlockId, head: Shape)
    requires GenOk(st, cur) && head.pending == 0
    ensures GenOk(NewBlock(st, head), cur)
  {
    var r := NewBlock(st, head);
    NewBlockTemps(st, head);
    NewestGood(st, cur, head);
    forall b: BlockId | START <= b < |r.blocks| ensures Good(r, cur, b) {
      if b < |st.blocks| {
        assert Good(st, cur, b);
        NewBlockGood(st, cur, head, b);
      }
    }
  }

  // ----- adding a block to the function -----

  /** No condition has `t` as its taken block. */
  ghost predicate NotTaken(st: Gen, t: BlockId) {
    forall b: BlockId {:trigger TwoWay(st.blocks[b])} | b < |st.blocks| && TwoWay(st.blocks[b]) ::
      st.blocks[b].succ0.value != t
  }

  lemma AddBlockOrder(st: Gen, w: BlockId)
    requires OrderOk(st) && Waits(st, w)
    ensures OrderOk(AddBlock(st, w))
  {
    assert w !in st.added;
  }

  lemma AddBlockGood(st: Gen, cur: BlockId, w: BlockId, b: BlockId)
    requires START <= b < |st.blocks| == |st.notes.heads| && Good(st, cur, b) && Waits(st, w) && OrderOk(st)
    requires cur < |st.blocks| && Frozen(st, cur)
    requires st.blocks[cur].insns != [] || NotTaken(st, cur)
    ensures Good(AddBlock(st, w), w, b)
  {
    var r := AddBlock(st, w);
    assert r.blocks == st.blocks && r.notes.heads == st.notes.heads;
    if TwoWay(st.blocks[b]) {
      var t := st.blocks[b].succ0.value;
      assert st.blocks[t].insns != [] || t != cur;
    }
  }

  /** A block that is added becomes the one that is worked on, once the last one is frozen. */
  lemma AddBlockOk(st: Gen, cur: BlockId, w: BlockId)
    requires GenOk(st, cur) && Waits(st, w) && cur < |st.blocks| && Frozen(st, cur)
    requires st.blocks[cur].insns != [] || NotTaken(st, cur)
    ensures GenOk(AddBlock(st, w), w)
  {
    AddBlockOrder(st, w);
    forall b: BlockId | START <= b < |st.blocks| ensures Good(AddBlock(st, w), w, b) {
      assert Good(st, cur, b);
      AddBlockGood(st, cur, w, b);
    }
  }

  // ----- freezing a block -----

  /** Block `cur` is frozen, and what it leads to is reached if it is. */
  ghost predicate Closes(st: Gen, st': Gen, cur: BlockId) {
    && |st'.blocks| == |st.blocks| == |st.notes.heads| && START <= cur < |st.blocks| && Succs(st.blocks[cur]) == {}
    && st'.added == st.added && st'.allocs == st.allocs
    && st'.notes == st.notes.(owner := st'.notes.owner, parent := st'.notes.parent)
    && st'.blocks == st.blocks[cur := st'.blocks[cur]]
    && (forall s | s in Succs(st'.blocks[cur]) && s != EXIT :: Waits(st, s) && !Frozen(st, s) && NotTaken(st, s))
    && forall b: BlockId {:trigger b in st'.notes.parent} ::
         (b in st'.notes.parent <==>
            b in st.notes.parent || (LiveIn(st, cur) && b in Succs(st'.blocks[cur]) && b != EXIT))
         && (b in st'.notes.parent ==> st'.notes.parent[b] == if b in st.notes.parent then st.notes.parent[b] else cur)
  }

  lemma OthersAfterClosing(st: Gen, st': Gen, cur: BlockId, b: BlockId)
    requires Closes(st, st', cur) && START <= b < |st.blocks| && b != cur && Good(st, cur, b)
    ensures Good(st', cur, b)
  {
    assert st'.blocks[b] == st.blocks[b];
    if b in st.notes.parent {
      var p := st.notes.parent[b];
      assert p != cur && st'.blocks[p] == st.blocks[p];
    }
    if TwoWay(st.blocks[b]) {
      var t := st.blocks[b].succ0.value;
      assert t !in Succs(st'.blocks[cur]) || t == EXIT;
    }
  }

  /** What is asked of the block that is frozen. */
  ghost predicate ClosedWell(st: Gen, st': Gen, cur: BlockId)
    requires Closes(st, st', cur) && |st'.notes.heads| == |st'.blocks|
  {
    && Frozen(st', cur) && ShutOk(st', cur)
    && (st'.blocks[cur].insns != [] ==> LiveIn(st, cur) && (cur == START || !IsPseudo(st'.blocks[cur].insns[0])))
    && (TwoWay(st'.blocks[cur]) ==>
          st'.blocks[cur].succ0 != st'.blocks[cur].succ1 && st'.blocks[cur].succ0.value != EXIT &&
          forall a: BlockId | a < |st.blocks| :: st'.blocks[cur].succ0.value !in Succs(st.blocks[a]))
  }

  lemma ClosedIsGood(st: Gen, st': Gen, cur: BlockId)
    requires Closes(st, st', cur) && |st'.notes.heads| == |st'.blocks| && Good(st, cur, cur) && ClosedWell(st, st', cur)
    ensures Good(st', cur, cur)
  {
    var block := st'.blocks[cur];
    assert forall s | s in Succs(block) && s != EXIT :: Waits(st, s);
    if TwoWay(block) {
      var t := block.succ0.value;
      assert t in Succs(block) && Waits(st', t);
      forall a: BlockId | a < |st'.blocks| && a != cur ensures t !in Succs(st'.blocks[a]) {
        assert st'.blocks[a] == st.blocks[a];
      }
    }
    if cur in st.notes.parent {
      var p := st.notes.parent[cur];
      assert p != cur && st'.blocks[p] == st.blocks[p];
    }
  }

  /** Freezing a block keeps everything as it should be. */
  lemma ClosingOk(st: Gen, st': Gen, cur: BlockId)
    requires GenOk(st, cur) && Closes(st, st', cur) && |st'.notes.heads| == |st'.blocks| && ClosedWell(st, st', cur)
    requires TempsOk(st')
    ensures GenOk(st', cur)
  {
    hide Distinct, Frozen, HasCode, Lone, NotTaken, OpenOk, Reaches, Stacked, TempsOk, WellFormedBlock, Worked;
    assert Good(st, cur, cur);
    ClosedIsGood(st, st', cur);
    forall b: BlockId | START <= b < |st'.blocks| ensures Good(st', cur, b) {
      assert Good(st, cur, b);
      if b != cur { OthersAfterClosing(st, st', cur, b); }
    }
    assert START in st'.notes.parent && EXIT !in st'.notes.parent;
  }
}
