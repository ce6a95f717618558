/**
 In a typed function every block leaves behind the locals that its successors expect, so that only blocks that
 return have locals to pop.
 */
module NoPops {
  import opened Options
  import opened Ir
  import opened StackShape
  import opened PopPoints
  import opened PopTheorems
  import opened Typing

  /** The typed functions without empty blocks other than the entry and the exit. */
  ghost predicate Compact(f: Flow, n: Notes, root: BlockId) {
    && Typed(f, n) && (forall b: BlockId | InScope(f, b) && b != f.g.entry :: BlockOf(f.g, b).insns != [])
    && f.g.blocks[f.g.entry].succ0 == Some(root) && root != f.g.exit
    && root < |f.g.blocks| && n.heads[root] == Shape([], n.params)
    && Succs(f.g.blocks[f.g.entry]) == {root} && n.heads[f.g.entry].temps == []
  }

  function BlockOf(g: Graph, b: BlockId): Block {
    if b < |g.blocks| then g.blocks[b] else Block([], None, None)
  }

  ghost function RankOf(n: Notes): BlockId -> nat {
    (b: BlockId) => if b in n.rank then n.rank[b] else 0
  }

  lemma TypedIsRanked(f: Flow, n: Notes)
    requires Typed(f, n)
    ensures Ranked(f, RankOf(n))
  {
    var rank := RankOf(n);
    forall a, b | a in f.order && a < |f.g.blocks| && b in Succs(f.g.blocks[a]) && b != f.g.exit
      ensures rank(a) < rank(b)
    {
      assert TypedBlock(f, n, a);
    }
  }

  lemma NothingLeadsToEntry(f: Flow, n: Notes)
    requires Typed(f, n)
    ensures PredsOf(f, f.g.entry) == []
  {
    var ps := PredsOf(f, f.g.entry);
    assert ps == [] || ps[0] in ps;
    forall a: BlockId ensures a !in ps {
      if InScope(f, a) { assert TypedBlock(f, n, a); }
    }
  }

  lemma CompactIsEntered(f: Flow, n: Notes, root: BlockId)
    requires Compact(f, n, root)
    ensures Entered(f)
  {
    NothingLeadsToEntry(f, n);
    forall b | InScope(f, b) && b != f.g.entry ensures PredsOf(f, b) != [] {
      assert TypedBlock(f, n, b);
    }
  }

  // ----- the locals on the stack -----

  /** The first local that a block allocates, if it allocates any. */
  function FirstLocal(insns: seq<Insn>): (r: Option<Temp>)
    ensures r.None? <==> LocalsIn(insns) == 0
    ensures r.Some? ==> r.value in AllocsOf(insns)
    ensures r.Some? ==> exists i | 0 <= i < |insns| :: Defines(insns[i]) == r
  {
    if insns == [] then None
    else
      var last := insns[|insns| - 1];
      var first := FirstLocal(insns[..|insns| - 1]);
      assert first.Some? ==> forall i | 0 <= i < |insns| - 1 :: insns[..|insns| - 1][i] == insns[i];
      if first.Some? then first
      else if IsLocal(last) then assert Defines(insns[|insns| - 1]) == Some(last.id); Some(last.id)
      else None
  }

  /** The blocks whose locals are on the stack at the head of `b`. */
  ghost function Behind(f: Flow, n: Notes, b: BlockId): set<BlockId>
    requires b < |n.heads|
  {
    set x: BlockId | x in f.order && x != f.g.exit && FirstLocal(BlockOf(f.g, x).insns).Some? &&
            FirstLocal(BlockOf(f.g, x).insns).value in n.heads[b].temps
  }

  function Union(gens: LocalSets, blocks: set<BlockId>): (r: set<Local>)
    requires forall b | b in blocks :: b in gens
    ensures forall k :: k in r <==> exists b | b in blocks :: k in gens[b]
  {
    set b, k | b in blocks && k in gens[b] :: k
  }

  lemma {:induction false} AllocDefined(insns: seq<Insn>, t: Temp)
    requires t in AllocsOf(insns)
    ensures exists i | 0 <= i < |insns| :: Defines(insns[i]) == Some(t)
  {
    var last := insns[|insns| - 1];
    if last.Alloc? && last.id == t {
      assert Defines(insns[|insns| - 1]) == Some(t);
    } else {
      AllocDefined(insns[..|insns| - 1], t);
      var i :| 0 <= i < |insns| - 1 && Defines(insns[..|insns| - 1][i]) == Some(t);
      assert insns[..|insns| - 1][i] == insns[i];
    }
  }

  /** A temporary that two blocks define is defined in one block. */
  lemma SameOwner(f: Flow, n: Notes, x: BlockId, y: BlockId, t: Temp)
    requires Owned(f.g, n.owner) && x < |f.g.blocks| && y < |f.g.blocks|
    requires exists i | 0 <= i < |f.g.blocks[x].insns| :: Defines(f.g.blocks[x].insns[i]) == Some(t)
    requires exists i | 0 <= i < |f.g.blocks[y].insns| :: Defines(f.g.blocks[y].insns[i]) == Some(t)
    ensures x == y
  {
    var i :| 0 <= i < |f.g.blocks[x].insns| && Defines(f.g.blocks[x].insns[i]) == Some(t);
    var j :| 0 <= j < |f.g.blocks[y].insns| && Defines(f.g.blocks[y].insns[j]) == Some(t);
    assert n.owner[t] == (x, i) && n.owner[t] == (y, j);
  }

  /** The first local of `x` is among the allocations of `b` only if the blocks are the same. */
  lemma FirstLocalOf(f: Flow, n: Notes, x: BlockId, b: BlockId)
    requires Typed(f, n) && x < |f.g.blocks| && b < |f.g.blocks| && FirstLocal(f.g.blocks[x].insns).Some?
    ensures FirstLocal(f.g.blocks[x].insns).value in AllocsOf(f.g.blocks[b].insns) <==> x == b
  {
    var t := FirstLocal(f.g.blocks[x].insns).value;
    if t in AllocsOf(f.g.blocks[b].insns) {
      AllocDefined(f.g.blocks[b].insns, t);
      SameOwner(f, n, x, b, t);
    }
  }

  ghost predicate Follows(f: Flow, n: Notes, b: BlockId, s: BlockId)
    requires b < |f.g.blocks| == |n.heads| && s < |n.heads|
  {
    n.heads[s].temps == n.heads[b].temps + AllocsOf(f.g.blocks[b].insns)
  }

  lemma BehindGrows(f: Flow, n: Notes, b: BlockId, s: BlockId)
    requires Typed(f, n) && InScope(f, b) && b < |f.g.blocks| && s < |f.g.blocks| && Follows(f, n, b, s)
    ensures Behind(f, n, s) == Behind(f, n, b) + if LocalsIn(f.g.blocks[b].insns) > 0 then {b} else {}
  {
    forall x: BlockId | x in f.order && x != f.g.exit && FirstLocal(BlockOf(f.g, x).insns).Some?
      ensures x in Behind(f, n, s) <==> x in Behind(f, n, b) || x == b
    {
      FirstLocalOf(f, n, x, b);
    }
  }

  // ----- the solution of the equations -----

  ghost function StackSets(f: Flow, n: Notes, gens: LocalSets): Sets
    requires Typed(f, n) && OverScope(f, gens)
  {
    Sets(map b: BlockId | b in f.order && b < |n.heads| :: Union(gens, Behind(f, n, b)),
         map b: BlockId | b in f.order && b < |n.heads| && b != f.g.exit :: Union(gens, Behind(f, n, b)) + gens[b])
  }

  lemma NextFollows(f: Flow, n: Notes, root: BlockId, b: BlockId, s: BlockId)
    requires Compact(f, n, root) && InScope(f, b) && s in Succs(f.g.blocks[b]) && s != f.g.exit
    ensures s < |f.g.blocks| && Follows(f, n, b, s)
  {
    assert TypedBlock(f, n, b);
    if b != f.g.entry {
      assert ShapeOf(f.g.blocks[b].insns, n.heads[b], n.params).Some?;
    }
  }

  lemma UnionGrows(f: Flow, n: Notes, gens: LocalSets, b: BlockId, s: BlockId)
    requires Typed(f, n) && OverScope(f, gens) && Counted(f, gens) && InScope(f, b) && s < |f.g.blocks|
    requires Follows(f, n, b, s)
    ensures Union(gens, Behind(f, n, s)) == Union(gens, Behind(f, n, b)) + gens[b]
  {
    hide Distinct, Enclosed, Exact, FirstLocal, Follows, Owned, TypedBlock, WellFormed;
    BehindGrows(f, n, b, s);
    var u, v := Union(gens, Behind(f, n, s)), Union(gens, Behind(f, n, b));
    if LocalsIn(f.g.blocks[b].insns) > 0 {
      assert b in Behind(f, n, s);
    } else {
      assert |gens[b]| == 0;
    }
  }

  lemma TypedFrame(f: Flow, n: Notes)
    requires Typed(f, n)
    ensures Linked(f) && |n.heads| == |f.g.blocks| && forall b | b in f.order :: b < |f.g.blocks|
  {
  }

  lemma StackSetsAre(f: Flow, n: Notes, root: BlockId, gens: LocalSets)
    requires Compact(f, n, root) && OverScope(f, gens)
    ensures var t := StackSets(f, n, gens);
            && Typed(f, n) && Linked(f) && Entered(f) && |n.heads| == |f.g.blocks|
            && OverScope(f, t.ins) && OverScope(f, t.outs)
            && forall b: BlockId {:trigger t.ins[b]} {:trigger t.outs[b]} | InScope(f, b) :: b < |n.heads|
                 && t.ins[b] == Union(gens, Behind(f, n, b)) && t.outs[b] == t.ins[b] + gens[b]
  {
    hide Typed, TypedBlock, Linked, WellFormed, Union, Behind, Succs, Entered;
    CompactIsEntered(f, n, root);
    TypedFrame(f, n);
  }

  lemma MeetOfSame(outs: LocalSets, ps: seq<BlockId>, s: set<Local>)
    requires ps != [] && forall p | p in ps :: p in outs && outs[p] == s
    ensures Meet(outs, ps) == s
  {
    assert ps[0] in ps;
  }

  lemma NothingBehindEntry(f: Flow, n: Notes, root: BlockId)
    requires Compact(f, n, root)
    ensures f.g.entry < |n.heads| && Behind(f, n, f.g.entry) == {}
  {
    assert TypedBlock(f, n, f.g.entry);
  }

  lemma StackSetsSolveAt(f: Flow, n: Notes, root: BlockId, gens: LocalSets, b: BlockId)
    requires Compact(f, n, root) && OverScope(f, gens) && Counted(f, gens) && InScope(f, b)
    requires Linked(f) && OverScope(f, StackSets(f, n, gens).outs)
    ensures SolvesAt(f, gens, StackSets(f, n, gens), b)
  {
    hide Compact, Typed, TypedBlock, Linked, StackSets, Counted, Behind, Follows, Succs, Union, Meet;
    StackSetsAre(f, n, root, gens);
    var t, ps := StackSets(f, n, gens), PredsOf(f, b);
    if b == f.g.entry {
      NothingBehindEntry(f, n, root);
    } else {
      forall p | p in ps ensures p in t.outs && t.outs[p] == t.ins[b] {
        PredIsInScope(f, b, p);
        NextFollows(f, n, root, p, b);
        UnionGrows(f, n, gens, p, b);
      }
      MeetOfSame(t.outs, ps, t.ins[b]);
    }
  }

  lemma StackSetsSolve(f: Flow, n: Notes, root: BlockId, gens: LocalSets)
    requires Compact(f, n, root) && OverScope(f, gens) && Counted(f, gens)
    ensures Solves(f, gens, StackSets(f, n, gens))
  {
    hide Compact, Typed, TypedBlock, Linked, StackSets, Counted, Entered;
    StackSetsAre(f, n, root, gens);
    var t := StackSets(f, n, gens);
    forall b | InScope(f, b) ensures SolvesAt(f, gens, t, b) {
      StackSetsSolveAt(f, n, root, gens, b);
    }
  }

  lemma SuccessorExpectsAll(f: Flow, n: Notes, root: BlockId, gens: LocalSets, s: Sets, b: BlockId, x: BlockId)
    requires Compact(f, n, root) && Counted(f, gens) && Solves(f, gens, s)
    requires InScope(f, b) && x in Succs(f.g.blocks[b]) && x != f.g.exit
    ensures s.ins[x] == s.outs[b]
  {
    var t := StackSets(f, n, gens);
    StackSetsSolve(f, n, root, gens);
    TypedIsRanked(f, n);
    OneSolution(f, gens, s, t, RankOf(n), b);
    OneSolution(f, gens, s, t, RankOf(n), x);
    NextFollows(f, n, root, b, x);
    UnionGrows(f, n, gens, b, x);
  }

  lemma AllAlive(g: Graph, ins: LocalSets, b: BlockId, locals: set<Local>)
    requires b < |g.blocks| && Succs(g.blocks[b]) != {} && g.exit !in Succs(g.blocks[b])
    requires forall x | x in Succs(g.blocks[b]) :: x in ins && ins[x] == locals
    ensures Alive(g, ins, b) == locals
  {
    var block := g.blocks[b];
    assert block.succ0.Some? ==> block.succ0.value in Succs(block);
    assert block.succ1.Some? ==> block.succ1.value in Succs(block);
  }

  lemma SuccessorsExpectAll(f: Flow, n: Notes, root: BlockId, gens: LocalSets, s: Sets, b: BlockId)
    requires Compact(f, n, root) && Counted(f, gens) && Solves(f, gens, s)
    requires InScope(f, b) && Succs(f.g.blocks[b]) != {} && f.g.exit !in Succs(f.g.blocks[b])
    ensures Alive(f.g, s.ins, b) == s.outs[b]
  {
    forall y | y in Succs(f.g.blocks[b]) ensures y in s.ins && s.ins[y] == s.outs[b] {
      SuccessorExpectsAll(f, n, root, gens, s, b, y);
    }
    AllAlive(f.g, s.ins, b, s.outs[b]);
  }

  /** In a typed function without empty blocks, only blocks that return have locals to pop. */
  lemma NothingToPop(f: Flow, n: Notes, root: BlockId, gens: LocalSets, s: Sets, kills: map<BlockId, nat>, b: BlockId)
    requires Compact(f, n, root) && Counted(f, gens) && Solves(f, gens, s) && KillsAre(f, s, kills)
    requires InScope(f, b) && Succs(f.g.blocks[b]) != {} && f.g.exit !in Succs(f.g.blocks[b])
    ensures b in kills && kills[b] == 0
  {
    SuccessorsExpectAll(f, n, root, gens, s, b);
    assert b in kills;
    assert s.outs[b] - Alive(f.g, s.ins, b) == {};
  }
}
