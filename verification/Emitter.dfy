/**
 The layout as the program performs it: one instruction is appended at a time, a jump to a block that has no label
 yet waits in a list kept for that block, and the list is worked off when the block gets its label.
 */
module Emitters {
  import opened Options
  import opened Ir
  import opened Layout
  import opened Listings

  predicate Names(op: Op<BlockId>, t: BlockId) { op == Jump(t) || op == Else(t) }

  function Waiting(waiting: map<BlockId, seq<nat>>, t: BlockId): seq<nat> {
    if t in waiting then waiting[t] else []
  }

  /** A new label of `b` changes nothing for code that does not name `b`. */
  lemma NotRenamed(op: Op<BlockId>, b: BlockId, slot: nat, known: map<BlockId, nat>)
    requires !Names(op, b)
    ensures Resolve(op, known[b := slot]) == Resolve(op, known)
  {
  }

  class Emitter {
    const graph: Graph
    ghost const owed: map<BlockId, nat>

    var code: FlatCode                       // the instructions of the bytecode function
    var labels: map<BlockId, nat>            // the first bytecode instruction of each block
    var waiting: map<BlockId, seq<nat>>      // the unresolved jumps to each block
    var serialized: set<BlockId>
    var frames: map<Temp, int>
    var killed: map<BlockId, nat>
    var ok: bool
    ghost var view: View

    constructor (g: Graph, kills: map<BlockId, nat>, params: nat)
      requires WellFormed(g) && kills.Keys == BlockIds(g)
      ensures graph == g && owed == kills && Valid() && view == Initial(params)
    {
      graph, owed := g, kills;
      code, labels, waiting := [Params(params)], map[], map[];
      serialized, frames, killed, ok := {}, map[], kills, true;
      view := Initial(params);
    }

    /** The code is what `items` and `labels` say, and the unresolved jumps are the ones that wait. */
    ghost predicate Consistent(items: seq<Item>, known: map<BlockId, nat>)
      reads this
    {
      && code == Code(items, known) && labels == known
      && forall t {:trigger Waiting(waiting, t)} | t !in known ::
           && (forall p | p in Waiting(waiting, t) :: p < |items| && Names(items[p].op, t))
           && (forall p | 0 <= p < |items| && Names(items[p].op, t) :: p in Waiting(waiting, t))
    }

    ghost predicate Valid()
      reads this
    {
      && WellFormed(graph) && owed.Keys == BlockIds(graph) && killed.Keys == owed.Keys
      && Tidy(graph, view) && Consistent(view.items, view.labels)
      && serialized == view.placed && frames == view.frames && ok == view.ok
      && forall b | b in owed && b !in serialized :: killed[b] == owed[b]
    }

    method AddInstruction(op: Op<Option<nat>>) returns (slot: nat)
      modifies this`code
      ensures slot == |old(code)| && code == old(code) + [op]
    {
      slot := |code|;
      code := code + [op];
    }

    /** Emits `n` pops. */
    method AddPops(n: nat, ghost items: seq<Item>, ghost known: map<BlockId, nat>)
      requires Consistent(items, known)
      modifies this`code
      ensures Consistent(items + Pops(n), known)
    {
      for k := 0 to n
        invariant Consistent(items + Pops(k), known)
      {
        var _ := AddInstruction(Pop);
        assert Pops(k + 1) == Pops(k) + [Item(Pop, None)];
        assert (items + Pops(k)) + [Item(Pop, None)] == items + Pops(k + 1);
      }
      assert items + Pops(0) == items;
    }

    /** Emits a jump, which waits for the label of its target if there is none yet. */
    method AddJump(
        op: Op<BlockId>, t: BlockId, ghost items: seq<Item>, ghost known: map<BlockId, nat>, ghost item: Item)
      returns (slot: nat)
      requires Consistent(items, known) && Names(op, t) && item.op == op
      modifies this`code, this`waiting
      ensures slot == |items| && Consistent(items + [item], known)
    {
      var target := if t in labels then Some(labels[t]) else None;
      slot := AddInstruction(if op.Jump? then Jump(target) else Else(target));
      if target.None? {
        waiting := waiting[t := Waiting(waiting, t) + [slot]];
      }
      forall t' | t' !in known
        ensures forall p | p in Waiting(waiting, t') :: p < |items| + 1 && Names((items + [item])[p].op, t')
        ensures forall p | 0 <= p < |items| + 1 && Names((items + [item])[p].op, t') :: p in Waiting(waiting, t')
      {
        assert t' != t ==> Waiting(waiting, t') == Waiting(old(waiting), t');
      }
    }

    /** Emits code that is no jump. */
    method AddPlain(op: Op<BlockId>, ghost items: seq<Item>, ghost known: map<BlockId, nat>, ghost item: Item)
      returns (slot: nat)
      requires Consistent(items, known) && !op.Jump? && !op.Else? && item.op == op
      modifies this`code
      ensures slot == |items| && Consistent(items + [item], known)
    {
      slot := AddInstruction(Resolve(op, map[]));
    }

    lemma LabelsAreKnown(items: seq<Item>, known: map<BlockId, nat>)
      requires Consistent(items, known)
      ensures labels == known
    {
    }

    /** Gives `b` its label, and resolves the jumps that wait for it. */
    method SetLabel(b: BlockId, slot: nat, ghost items: seq<Item>, ghost known: map<BlockId, nat>)
      requires Consistent(items, known) && b !in known
      modifies this`code, this`labels
      ensures Consistent(items, known[b := slot])
    {
      labels := labels[b := slot];
      var refs := Waiting(waiting, b);
      for k := 0 to |refs|
        invariant |code| == |items| && labels == known[b := slot]
        invariant forall p | 0 <= p < |items| ::
                    code[p] == Resolve(items[p].op, if p in refs[..k] then known[b := slot] else known)
      {
        assert refs[k] in refs && Names(items[refs[k]].op, b);
        assert refs[..k + 1] == refs[..k] + [refs[k]];
        var jump := code[refs[k]];
        code := code[refs[k] := if jump.Jump? then Jump(Some(slot)) else Else(Some(slot))];
      }
      assert refs[..|refs|] == refs;
      forall p | 0 <= p < |items| ensures code[p] == Resolve(items[p].op, known[b := slot]) {
        if Names(items[p].op, b) { assert p in refs; } else { NotRenamed(items[p].op, b, slot, known); }
      }
      assert code == Code(items, known[b := slot]);
    }

    /** Emits the code of an instruction, and labels the block with it if it is the block's first. */
    method AddCode(b: BlockId, op: Op<BlockId>, ghost i: nat, ghost c: Cursor)
      requires Consistent(c.items, c.labels)
      modifies this`code, this`labels, this`waiting
      ensures var d := Emit(b, i, Some(op), c); Consistent(d.items, d.labels)
    {
      hide Consistent, Waiting, Code, Resolve;
      ghost var item := Item(op, Some((b, i)));
      var slot: nat;
      match op {
        case Jump(t) => slot := AddJump(op, t, c.items, c.labels, item);
        case Else(t) => slot := AddJump(op, t, c.items, c.labels, item);
        case _ => slot := AddPlain(op, c.items, c.labels, item);
      }
      LabelsAreKnown(c.items + [item], c.labels);
      if b !in labels {
        SetLabel(b, slot, c.items + [item], c.labels);
      }
    }

    /** The state of the layout inside block `b` is that of the cursor. */
    ghost predicate AtCursor(b: BlockId, offset: int, c: Cursor)
      reads this
    {
      && Consistent(c.items, c.labels) && frames == c.frames && ok == c.ok
      && offset == c.offset && b in killed && killed[b] == c.kills
    }

    /** Emits the pops that `b` owes. */
    method AddDeallocations(b: BlockId, offset: int, ghost c: Cursor)
      requires AtCursor(b, offset, c)
      modifies this`code, this`killed
      ensures AtCursor(b, offset, Flush(c)) && killed == old(killed)[b := 0]
    {
      AddPops(killed[b], c.items, c.labels);
      killed := killed[b := 0];
    }

    /** Lays out one instruction. */
    method SerializeInstruction(
        b: BlockId, insn: Insn, offset: int, ghost i: nat, ghost c: Cursor)
      returns (offset': int)
      requires AtCursor(b, offset, c)
      modifies this`code, this`labels, this`waiting, this`frames, this`killed, this`ok
      ensures AtCursor(b, offset', Step(b, i, insn, c)) && killed == old(killed)[b := killed[b]]
    {
      hide Consistent, Code, Waiting, Emit, Define, Delta, Check, OpOf;
      if killed[b] > 0 && LeadsWithPops(insn) {
        AddDeallocations(b, offset, c);
      }
      ghost var c' := if LeadsWithPops(insn) then Flush(c) else c;
      assert AtCursor(b, offset, c') by { assert c.items + Pops(0) == c.items; }
      offset' := SerializeFlushed(b, insn, offset, i, c');
    }

    /** Gives an instruction its frame offset and emits its code. */
    method SerializeFlushed(b: BlockId, insn: Insn, offset: int, ghost i: nat, ghost c: Cursor) returns (offset': int)
      requires AtCursor(b, offset, c)
      modifies this`code, this`labels, this`waiting, this`frames, this`ok
      ensures var d := c.(frames := Define(insn, c.frames, c.offset), offset := c.offset + Delta(insn),
                          ok := c.ok && Check(insn, c.frames, c.offset));
              AtCursor(b, offset', Emit(b, i, OpOf(insn, d.frames), d))
    {
      hide Code, Waiting, Define, Delta, Check, OpOf;
      ok := ok && Check(insn, frames, offset);
      frames := Define(insn, frames, offset);
      offset' := offset + Delta(insn);
      ghost var d := c.(frames := frames, offset := offset', ok := ok);
      var op := OpOf(insn, frames);
      if op.Some? {
        AddCode(b, op.value, i, d);
      }
    }

    /** Lays out the instructions of a block, and what follows them in the block. */
    method SerializeBlockCode(b: BlockId, offset: int) returns (after: int)
      requires Valid() && b < |graph.blocks| && b !in serialized && b != graph.exit
      modifies this`code, this`labels, this`waiting, this`frames, this`killed, this`ok
      ensures var c := SiteOf(b, graph.blocks[b], StartOf(view, offset, owed[b]), view.placed).end;
              && Consistent(c.items, c.labels) && frames == c.frames && after == c.offset
              && ok == (c.ok && graph.blocks[b].insns != [])
      ensures killed == old(killed)[b := 0]
    {
      hide Below, Emitter.Consistent, Finish, Step, SubMap, Tidy, WellFormed;
      var block := graph.blocks[b];
      ghost var start := StartOf(view, offset, owed[b]);
      after := offset;
      for i := 0 to |block.insns|
        invariant AtCursor(b, after, StepTo(b, block.insns, start, i)) && killed == old(killed)[b := killed[b]]
      {
        after := SerializeInstruction(b, block.insns[i], after, i, StepTo(b, block.insns, start, i));
      }
      EndBlock(b, after, StepTo(b, block.insns, start, |block.insns|));
    }

    /** The end of a block: pops, and a jump when control falls through to a block laid out before. */
    method EndBlock(b: BlockId, offset: int, ghost c: Cursor)
      requires b < |graph.blocks| && AtCursor(b, offset, c)
      modifies this`code, this`labels, this`waiting, this`killed, this`ok
      ensures var d := Finish(graph.blocks[b], c, serialized);
              && Consistent(d.items, d.labels) && frames == d.frames && offset == d.offset
              && ok == (d.ok && graph.blocks[b].insns != [])
      ensures killed == old(killed)[b := 0]
    {
      var block := graph.blocks[b];
      AddDeallocations(b, offset, c);
      if block.succ0.Some? && block.succ0.value in serialized && !EndsInBranch(block) {
        var s := block.succ0.value;
        ok := ok && s in labels;
        var _ := AddJump(Jump(s), s, Flush(c).items, c.labels, Item(Jump(s), None));
      }
      ok := ok && block.insns != [];
    }

    /** Lays out a block and what is reachable from it, depth first. */
    method SerializeBasicBlock(s: Option<BlockId>, offset: int)
      requires Valid() && ValidSucc(graph, s)
      modifies this
      ensures Valid() && view == Place(graph, owed, old(view), s, offset)
      decreases BlockIds(graph) - serialized
    {
      if s.None? || s.value in serialized || s.value == graph.exit {
        return;
      }
      var b := s.value;
      assert b in BlockIds(graph) - serialized;
      var after := SerializeBlockCode(b, offset);
      serialized := serialized + {b};
      view := PlaceBlock(graph, owed, view, b, offset);
      assert Valid();
      ghost var v1 := view;
      SerializeBasicBlock(graph.blocks[b].succ0, after);
      assert ViewGrows(v1, view);
      SerializeBasicBlock(graph.blocks[b].succ1, after);
    }
  }

  /** The layout of a function: afterwards every jump holds the position of the label of its target. */
  method SerializeFunction(g: Graph, kills: map<BlockId, nat>, params: nat) returns (e: Emitter)
    requires WellFormed(g) && kills.Keys == BlockIds(g)
    ensures fresh(e) && e.Valid() && e.graph == g && e.view == PlaceFunction(g, kills, params)
    ensures e.code == Code(PlaceFunction(g, kills, params).items, PlaceFunction(g, kills, params).labels)
  {
    e := new Emitter(g, kills, params);
    e.SerializeBasicBlock(g.blocks[g.entry].succ0, 0);
  }
}
