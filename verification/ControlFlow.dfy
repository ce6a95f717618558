/**
 The depth-first layout simulates the graph. A walk resolves conditions from a given list of outcomes and
 records the instructions it visits; walks of the flat code and walks of the graph visit the same ones.
 */
module ControlFlow {
  import opened Ir
  import opened Layout
  import opened Listings

  /** Where a walk ends: out of fuel at some place, or for good. */
  datatype Halt<+P> = At(place: P, rest: seq<bool>) | Returned | NeedsOutcome | Stuck

  datatype Walk<+P> = Walk(visited: seq<(BlockId, nat)>, halt: Halt<P>)

  function Visit<P>(insn: (BlockId, nat), w: Walk<P>): Walk<P> { Walk([insn] + w.visited, w.halt) }

  /** Walks the graph from instruction `i` of `b`, entering at most `fuel` further blocks. */
  function GraphWalk(g: Graph, b: BlockId, i: nat, outcomes: seq<bool>, fuel: nat): Walk<BlockId>
    requires WellFormed(g) && b < |g.blocks| && i <= |g.blocks[b].insns|
    decreases fuel, |g.blocks[b].insns| - i, 1
  {
    var block := g.blocks[b];
    if i == |block.insns| then
      if block.succ0.Some? then EnterBlock(g, block.succ0.value, outcomes, fuel) else Walk([], Stuck)
    else
      match block.insns[i]
      case Alloc(_, _) => GraphWalk(g, b, i + 1, outcomes, fuel)
      case Goto(_) => if i + 1 == |block.insns| then
        Visit((b, i), EnterBlock(g, block.succ0.value, outcomes, fuel)) else Walk([], Stuck)
      case Branch(_, _, _) =>
        if i + 1 != |block.insns| then Walk([], Stuck)
        else if outcomes == [] then Walk([(b, i)], NeedsOutcome)
        else Visit((b, i), EnterBlock(g, if outcomes[0] then block.succ0.value else block.succ1.value, outcomes[1..],
          fuel))
      case Return(_) => Walk([(b, i)], Returned)
      case _ => Visit((b, i), GraphWalk(g, b, i + 1, outcomes, fuel))
  }

  function EnterBlock(g: Graph, b: BlockId, outcomes: seq<bool>, fuel: nat): Walk<BlockId>
    requires WellFormed(g) && b < |g.blocks|
    decreases fuel, 0, 0
  {
    if fuel == 0 then Walk([], At(b, outcomes)) else GraphWalk(g, b, 0, outcomes, fuel - 1)
  }

  datatype Move = Go(pc: nat, rest: seq<bool>) | Done(halt: Halt<nat>)

  /** Where control goes from position `pc` of flat code. */
  function Advance(code: FlatCode, pc: nat, outcomes: seq<bool>): Move {
    if pc >= |code| then Done(Stuck)
    else match code[pc]
      case Ret => Done(Returned)
      case Jump(t) => if t.Some? then Go(t.value, outcomes) else Done(Stuck)
      case Else(t) =>
        if outcomes == [] then Done(NeedsOutcome)
        else if outcomes[0] then Go(pc + 1, outcomes[1..])
        else if t.Some? then Go(t.value, outcomes[1..])
        else Done(Stuck)
      case _ => Go(pc + 1, outcomes)
  }

  function Mark(origins: Origins, pc: nat): seq<(BlockId, nat)> {
    if pc < |origins| && origins[pc].Some? then [origins[pc].value] else []
  }

  /** Walks flat code from position `pc` for at most `fuel` steps. */
  function FlatWalk(code: FlatCode, origins: Origins, pc: nat, outcomes: seq<bool>, fuel: nat): Walk<nat>
    decreases fuel
  {
    if fuel == 0 then Walk([], At(pc, outcomes))
    else match Advance(code, pc, outcomes)
      case Done(halt) => Walk(Mark(origins, pc), halt)
      case Go(pc', rest) =>
        var w := FlatWalk(code, origins, pc', rest, fuel - 1);
        Walk(Mark(origins, pc) + w.visited, w.halt)
  }

  // ----- walks of flat code compose -----

  lemma EndsNowhere(code: FlatCode, pc: nat, outcomes: seq<bool>)
    ensures var m := Advance(code, pc, outcomes); m.Done? ==> !m.halt.At?
  {
  }

  lemma {:induction false} FlatWalkComposes(
      code: FlatCode, origins: Origins, pc: nat, outcomes: seq<bool>, k: nat, more: nat)
    requires FlatWalk(code, origins, pc, outcomes, k).halt.At?
    ensures var w := FlatWalk(code, origins, pc, outcomes, k);
            var x := FlatWalk(code, origins, w.halt.place, w.halt.rest, more);
            FlatWalk(code, origins, pc, outcomes, k + more) == Walk(w.visited + x.visited, x.halt)
    decreases k
  {
    hide Advance, Mark;
    if k > 0 {
      EndsNowhere(code, pc, outcomes);
      var m := Advance(code, pc, outcomes);
      FlatWalkComposes(code, origins, m.pc, m.rest, k - 1, more);
      var w := FlatWalk(code, origins, m.pc, m.rest, k - 1);
      var x := FlatWalk(code, origins, w.halt.place, w.halt.rest, more);
      assert Mark(origins, pc) + (w.visited + x.visited) == (Mark(origins, pc) + w.visited) + x.visited;
    } else {
      var x := FlatWalk(code, origins, pc, outcomes, more);
      assert [] + x.visited == x.visited;
    }
  }

  lemma {:induction false} FlatWalkStops(
      code: FlatCode, origins: Origins, pc: nat, outcomes: seq<bool>, k: nat, more: nat)
    requires !FlatWalk(code, origins, pc, outcomes, k).halt.At?
    ensures FlatWalk(code, origins, pc, outcomes, k + more) == FlatWalk(code, origins, pc, outcomes, k)
    decreases k
  {
    var m := Advance(code, pc, outcomes);
    if m.Go? { FlatWalkStops(code, origins, m.pc, m.rest, k - 1, more); }
  }

  // ----- simulation -----

  function Run(l: Listing, pc: nat, outcomes: seq<bool>, fuel: nat): Walk<nat> {
    FlatWalk(l.code, l.origins, pc, outcomes, fuel)
  }

  /** A walk of the flat code has followed a walk of the graph to the same end. */
  ghost predicate Follows(l: Listing, w: Walk<BlockId>, x: Walk<nat>) {
    && x.visited == w.visited
    && match w.halt
       case At(t, rest) => t in l.start && x.halt == At(l.start[t], rest)
       case Returned => x.halt.Returned?
       case NeedsOutcome => x.halt.NeedsOutcome?
       case Stuck => false
  }

  lemma {:induction false} WalkPops(l: Listing, pc: nat, n: nat, outcomes: seq<bool>)
    requires OnlyPops(l, pc, n)
    ensures Run(l, pc, outcomes, n) == Walk([], At(pc + n, outcomes))
    decreases n
  {
    if n > 0 {
      assert l.code[pc] == Pop;
      WalkPops(l, pc + 1, n - 1, outcomes);
    }
  }

  /** Pops, then a walk that follows. */
  lemma AfterPops(l: Listing, pc: nat, n: nat, outcomes: seq<bool>, k: nat)
    requires OnlyPops(l, pc, n)
    ensures Run(l, pc, outcomes, n + k) == Run(l, pc + n, outcomes, k)
  {
    WalkPops(l, pc, n, outcomes);
    FlatWalkComposes(l.code, l.origins, pc, outcomes, n, k);
    var x := Run(l, pc + n, outcomes, k);
    assert [] + x.visited == x.visited;
  }

  /** Pops, one step of flat code, then a walk that follows. */
  lemma ThenFollow(l: Listing, pc: nat, pops: nat, outcomes: seq<bool>, target: nat, rest: seq<bool>, k: nat)
    requires OnlyPops(l, pc, pops) && pc + pops < |l.code| <= |l.origins|
    requires Advance(l.code, pc + pops, outcomes) == Go(target, rest)
    ensures var x := Run(l, target, rest, k);
            Run(l, pc, outcomes, pops + (1 + k)) == Walk(Mark(l.origins, pc + pops) + x.visited, x.halt)
  {
    AfterPops(l, pc, pops, outcomes, 1 + k);
  }

  /** How many instructions have code of their own. */
  function Emitting(insns: seq<Insn>): nat {
    if insns == [] then 0 else (if IsPseudo(insns[0]) then 0 else 1) + Emitting(insns[1..])
  }

  lemma {:induction false} EmittingPositive(insns: seq<Insn>, j: nat)
    requires j < |insns| && !IsPseudo(insns[j])
    ensures Emitting(insns) > 0
  {
    if j > 0 { EmittingPositive(insns[1..], j - 1); }
  }

  /** The flat walk from the start of a block follows the walk that enters the block. */
  lemma {:induction false} EnterFollows(g: Graph, l: Listing, b: BlockId, outcomes: seq<bool>, fuel: nat)
    returns (k: nat)
    requires Realizes(g, l) && b in l.start && b < |g.blocks|
    ensures Follows(l, EnterBlock(g, b, outcomes, fuel), Run(l, l.start[b], outcomes, k))
    ensures EnterBlock(g, b, outcomes, fuel).halt.At? ==> k >= fuel
    decreases fuel, 0, 0
  {
    if fuel == 0 {
      k := 0;
    } else {
      var j :| Emits(g, b, j);
      EmittingPositive(g.blocks[b].insns, j);
      assert g.blocks[b].insns[0..] == g.blocks[b].insns;
      k := WalkFollows(g, l, b, 0, outcomes, fuel - 1);
    }
  }

  lemma {:induction false} WalkFollows(g: Graph, l: Listing, b: BlockId, i: nat, outcomes: seq<bool>, fuel: nat)
    returns (k: nat)
    requires Realizes(g, l) && b in l.start && b < |g.blocks| && i <= |g.blocks[b].insns| && Reached(g, b, i)
    ensures Follows(l, GraphWalk(g, b, i, outcomes, fuel), Run(l, l.pos(b, i), outcomes, k))
    ensures GraphWalk(g, b, i, outcomes, fuel).halt.At? ==> k >= fuel + Emitting(g.blocks[b].insns[i..])
    decreases fuel, |g.blocks[b].insns| - i, 1
  {
    hide Arity, CodeIs, Emits, EnterBlock, Follows, OnlyPops, PlainCode;
    var block := g.blocks[b];
    if i == |block.insns| {
      assert Realized(g, l, b, i);
      k := EnterFollows(g, l, block.succ0.value, outcomes, fuel);
      k := EndFollows(g, l, b, outcomes, fuel, k);
    } else if IsBranch(block.insns[i]) && (block.insns[i].Branch? ==> outcomes != []) {
      assert Realized(g, l, b, i) && WellFormedBlock(block);
      assert block.insns[i..] == [block.insns[i]];
      var t, rest := Chosen(block, block.insns[i], outcomes);
      k := EnterFollows(g, l, t, rest, fuel);
      k := BranchFollows(g, l, b, i, outcomes, fuel, t, rest, k);
    } else if IsTerminator(block.insns[i]) {
      assert Realized(g, l, b, i);
      k := StopFollows(g, l, b, i, outcomes, fuel);
    } else {
      assert Realized(g, l, b, i);
      assert block.insns[i..] == [block.insns[i]] + block.insns[i + 1..];
      k := WalkFollows(g, l, b, i + 1, outcomes, fuel);
      k := PlainFollows(g, l, b, i, outcomes, fuel, k);
    }
  }

  lemma Chosen(block: Block, insn: Insn, outcomes: seq<bool>) returns (t: BlockId, rest: seq<bool>)
    requires IsBranch(insn) && (insn.Branch? ==> outcomes != [])
    ensures t == if insn.Branch? && !outcomes[0] then insn.notTaken else insn.taken
    ensures rest == if insn.Branch? then outcomes[1..] else outcomes
  {
    t := if insn.Branch? && !outcomes[0] then insn.notTaken else insn.taken;
    rest := if insn.Branch? then outcomes[1..] else outcomes;
  }

  lemma EndFollows(g: Graph, l: Listing, b: BlockId, outcomes: seq<bool>, fuel: nat, k0: nat) returns (k: nat)
    requires WellFormed(g) && b < |g.blocks| && Realized(g, l, b, |g.blocks[b].insns|)
    requires var s := g.blocks[b].succ0.value;
             Follows(l, EnterBlock(g, s, outcomes, fuel), Run(l, l.start[s], outcomes, k0))
    ensures var n := |g.blocks[b].insns|;
            Follows(l, GraphWalk(g, b, n, outcomes, fuel), Run(l, l.pos(b, n), outcomes, k))
    ensures k >= k0
  {
    var n, s := |g.blocks[b].insns|, g.blocks[b].succ0.value;
    var pc, pops := l.pos(b, n), l.pops(b, n);
    if pc + pops != l.start[s] {
      ThenFollow(l, pc, pops, outcomes, l.start[s], outcomes, k0);
      assert Mark(l.origins, pc + pops) + Run(l, l.start[s], outcomes, k0).visited
          == Run(l, l.start[s], outcomes, k0).visited;
      k := pops + (1 + k0);
    } else {
      AfterPops(l, pc, pops, outcomes, k0);
      k := pops + k0;
    }
  }

  lemma BranchFollows(
      g: Graph, l: Listing, b: BlockId, i: nat, outcomes: seq<bool>, fuel: nat,
      t: BlockId, rest: seq<bool>, k0: nat) returns (k: nat)
    requires WellFormed(g) && b < |g.blocks| && i < |g.blocks[b].insns| && Realized(g, l, b, i)
    requires var insn := g.blocks[b].insns[i];
             && IsBranch(insn) && (insn.Branch? ==> outcomes != [])
             && t == (if insn.Branch? && !outcomes[0] then insn.notTaken else insn.taken)
             && rest == if insn.Branch? then outcomes[1..] else outcomes
    requires t < |g.blocks| && Follows(l, EnterBlock(g, t, rest, fuel), Run(l, l.start[t], rest, k0))
    ensures Follows(l, GraphWalk(g, b, i, outcomes, fuel), Run(l, l.pos(b, i), outcomes, k))
    ensures k >= k0 + 1
  {
    assert WellFormedBlock(g.blocks[b]);
    var pc, pops := l.pos(b, i), l.pops(b, i);
    assert Advance(l.code, pc + pops, outcomes) == Go(l.start[t], rest);
    ThenFollow(l, pc, pops, outcomes, l.start[t], rest, k0);
    k := pops + (1 + k0);
  }

  lemma StopFollows(g: Graph, l: Listing, b: BlockId, i: nat, outcomes: seq<bool>, fuel: nat) returns (k: nat)
    requires WellFormed(g) && b < |g.blocks| && i < |g.blocks[b].insns| && Realized(g, l, b, i)
    requires var insn := g.blocks[b].insns[i]; insn.Return? || (insn.Branch? && outcomes == [])
    ensures Follows(l, GraphWalk(g, b, i, outcomes, fuel), Run(l, l.pos(b, i), outcomes, k))
    ensures !GraphWalk(g, b, i, outcomes, fuel).halt.At?
  {
    AfterPops(l, l.pos(b, i), l.pops(b, i), outcomes, 1);
    k := l.pops(b, i) + 1;
  }

  lemma PlainFollows(g: Graph, l: Listing, b: BlockId, i: nat, outcomes: seq<bool>, fuel: nat, k0: nat)
    returns (k: nat)
    requires WellFormed(g) && b < |g.blocks| && i < |g.blocks[b].insns| && Realized(g, l, b, i)
    requires !IsTerminator(g.blocks[b].insns[i])
    requires Follows(l, GraphWalk(g, b, i + 1, outcomes, fuel), Run(l, l.pos(b, i + 1), outcomes, k0))
    ensures Follows(l, GraphWalk(g, b, i, outcomes, fuel), Run(l, l.pos(b, i), outcomes, k))
    ensures k == if IsPseudo(g.blocks[b].insns[i]) then k0 else 1 + k0
  {
    k := k0;
    if !IsPseudo(g.blocks[b].insns[i]) {
      var pc := l.pos(b, i);
      ThenFollow(l, pc, 0, outcomes, pc + 1, outcomes, k0);
      k := 1 + k0;
    }
  }
}
