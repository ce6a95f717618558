/**
 Where locals are popped. A forward analysis finds the locals that have been allocated on every way into a block;
 a block owes a pop for each local it leaves behind that no successor keeps.
 */
module PopPoints {
  import opened Ir
  import opened Layout

  type Local = nat

  type LocalSets = map<BlockId, set<Local>>

  /** The blocks of a function in the order they are iterated in, and the predecessors recorded for each. */
  datatype Flow = Flow(g: Graph, order: seq<BlockId>, preds: map<BlockId, seq<BlockId>>)

  function PredsOf(f: Flow, b: BlockId): seq<BlockId> {
    if b in f.preds then f.preds[b] else []
  }

  ghost predicate Distinct(s: seq<BlockId>) {
    forall i, j | 0 <= i < j < |s| :: s[i] != s[j]
  }

  ghost predicate ExactAt(f: Flow, b: BlockId, a: BlockId) {
    b in f.order ==> (a in PredsOf(f, b) <==> a in f.order && a < |f.g.blocks| && b in Succs(f.g.blocks[a]))
  }

  /** The predecessors are the exact inverse of the successors. */
  ghost predicate Exact(f: Flow) {
    forall b, a {:trigger a in PredsOf(f, b)} {:trigger ExactAt(f, b, a)} :: ExactAt(f, b, a)
  }

  ghost predicate Enclosed(f: Flow)
    requires forall b | b in f.order :: b < |f.g.blocks|
  {
    forall a | a in f.order :: Succs(f.g.blocks[a]) <= set b | b in f.order
  }

  /** The predecessors are the exact inverse of the successors, and the exit block leads nowhere. */
  ghost predicate Linked(f: Flow) {
    && WellFormed(f.g) && (forall i | 0 <= i < |f.order| :: f.order[i] < |f.g.blocks|)
    && Distinct(f.order)
    && f.g.entry in f.order && f.g.exit in f.order && f.g.entry != f.g.exit
    && Succs(f.g.blocks[f.g.exit]) == {}
    && Enclosed(f) && Exact(f)
  }

  /** The blocks that are analyzed. */
  ghost predicate InScope(f: Flow, b: BlockId) { b in f.order && b != f.g.exit }

  ghost predicate OverScope(f: Flow, sets: LocalSets) {
    forall b {:trigger b in sets} | InScope(f, b) :: b in sets
  }

  lemma PredIsInScope(f: Flow, b: BlockId, p: BlockId)
    requires Linked(f) && b in f.order && p in PredsOf(f, b)
    ensures InScope(f, p) && p < |f.g.blocks| && b in Succs(f.g.blocks[p])
  {
  }

  // ----- the equations -----

  /** The locals in all the sets of `ps`. */
  function Meet(outs: LocalSets, ps: seq<BlockId>): (r: set<Local>)
    requires ps != [] && forall p | p in ps :: p in outs
    ensures forall n :: n in r <==> forall p | p in ps :: n in outs[p]
  {
    if |ps| == 1 then outs[ps[0]]
    else
      var last := |ps| - 1;
      assert ps == ps[..last] + [ps[last]];
      Meet(outs, ps[..last]) * outs[ps[last]]
  }

  /** IN: what every predecessor leaves behind; nothing, if there is none. */
  ghost function Incoming(f: Flow, outs: LocalSets, b: BlockId): set<Local>
    requires Linked(f) && OverScope(f, outs) && b in f.order
  {
    if PredsOf(f, b) == [] then {} else Meet(outs, PredsOf(f, b))
  }

  datatype Sets = Sets(ins: LocalSets, outs: LocalSets)

  ghost predicate SolvesAt(f: Flow, gens: LocalSets, s: Sets, b: BlockId)
    requires Linked(f) && OverScope(f, s.outs) && b in f.order
  {
    b in s.ins && b in s.outs && b in gens && s.ins[b] == Incoming(f, s.outs, b) && s.outs[b] == s.ins[b] + gens[b]
  }

  ghost predicate Solves(f: Flow, gens: LocalSets, s: Sets) {
    && Linked(f) && OverScope(f, gens) && OverScope(f, s.ins) && OverScope(f, s.outs)
    && forall b {:trigger SolvesAt(f, gens, s, b)} | InScope(f, b) :: SolvesAt(f, gens, s, b)
  }

  ghost predicate Within(f: Flow, s: LocalSets, t: LocalSets) {
    OverScope(f, s) && OverScope(f, t) && forall b {:trigger s[b]} {:trigger t[b]} | InScope(f, b) :: s[b] <= t[b]
  }

  /** Sets that hold at least what the equations ask for; every solution is of this kind. */
  ghost predicate CoversAt(f: Flow, gens: LocalSets, t: LocalSets, b: BlockId)
    requires Linked(f) && OverScope(f, t) && b in f.order
  {
    b in t && b in gens && Incoming(f, t, b) + gens[b] <= t[b]
  }

  ghost predicate Covers(f: Flow, gens: LocalSets, t: LocalSets) {
    && Linked(f) && OverScope(f, gens) && OverScope(f, t)
    && forall b {:trigger CoversAt(f, gens, t, b)} | InScope(f, b) :: CoversAt(f, gens, t, b)
  }

  lemma SolutionCovers(f: Flow, gens: LocalSets, s: Sets)
    requires Solves(f, gens, s)
    ensures Covers(f, gens, s.outs)
  {
    forall b | InScope(f, b) ensures CoversAt(f, gens, s.outs, b) {
      assert SolvesAt(f, gens, s, b);
    }
  }

  ghost predicate Least(f: Flow, gens: LocalSets, s: Sets) {
    Solves(f, gens, s) && forall t :: Covers(f, gens, t) ==> Within(f, s.outs, t)
  }

  /** No solution reports less. */
  lemma LeastOfSolutions(f: Flow, gens: LocalSets, s: Sets, t: Sets)
    requires Least(f, gens, s) && Solves(f, gens, t)
    ensures Within(f, s.outs, t.outs)
  {
    SolutionCovers(f, gens, t);
  }

  // ----- the iteration -----

  /** Every OUT has grown from nothing: recomputing it can only add to it. */
  ghost predicate GrowingAt(f: Flow, gens: LocalSets, s: Sets, b: BlockId)
    requires Linked(f) && OverScope(f, s.outs) && b in f.order
  {
    b in s.ins && b in s.outs && b in gens && s.ins[b] <= Incoming(f, s.outs, b) && s.outs[b] <= s.ins[b] + gens[b]
  }

  ghost predicate Growing(f: Flow, gens: LocalSets, s: Sets) {
    && Linked(f) && OverScope(f, gens) && OverScope(f, s.ins) && OverScope(f, s.outs)
    && forall b {:trigger GrowingAt(f, gens, s, b)} | InScope(f, b) :: GrowingAt(f, gens, s, b)
  }

  ghost predicate BelowCovers(f: Flow, gens: LocalSets, s: Sets) {
    forall t :: Covers(f, gens, t) ==> Within(f, s.outs, t)
  }

  ghost function Updated(f: Flow, gens: LocalSets, s: Sets, b: BlockId): Sets
    requires Linked(f) && OverScope(f, s.outs) && InScope(f, b) && b in gens
  {
    var incoming := Incoming(f, s.outs, b);
    Sets(s.ins[b := incoming], s.outs[b := incoming + gens[b]])
  }

  lemma MeetMono(f: Flow, s: LocalSets, t: LocalSets, b: BlockId)
    requires Linked(f) && Within(f, s, t) && b in f.order
    ensures Incoming(f, s, b) <= Incoming(f, t, b)
  {
    var ps := PredsOf(f, b);
    if ps != [] {
      forall n | n in Meet(s, ps) ensures n in Meet(t, ps) {
        forall p | p in ps ensures n in t[p] {
          assert InScope(f, p) && s[p] <= t[p];
        }
      }
    }
  }

  lemma UpdateGrows(f: Flow, gens: LocalSets, s: Sets, b: BlockId)
    requires Growing(f, gens, s) && InScope(f, b)
    ensures var t := Updated(f, gens, s, b); Growing(f, gens, t) && Within(f, s.outs, t.outs)
  {
    var t := Updated(f, gens, s, b);
    assert GrowingAt(f, gens, s, b);
    assert Within(f, s.outs, t.outs);
    forall c | InScope(f, c) ensures GrowingAt(f, gens, t, c) {
      assert GrowingAt(f, gens, s, c);
      MeetMono(f, s.outs, t.outs, c);
    }
  }

  lemma UpdateStaysBelow(f: Flow, gens: LocalSets, s: Sets, b: BlockId)
    requires Growing(f, gens, s) && InScope(f, b) && BelowCovers(f, gens, s)
    ensures BelowCovers(f, gens, Updated(f, gens, s, b))
  {
    var u := Updated(f, gens, s, b);
    forall t | Covers(f, gens, t) ensures Within(f, u.outs, t) {
      assert Within(f, s.outs, t) && CoversAt(f, gens, t, b);
      MeetMono(f, s.outs, t, b);
    }
  }

  /** What is still missing from the OUT sets, out of the locals below `count`; it shrinks while the sets change. */
  ghost function Missing(f: Flow, outs: LocalSets, count: nat): set<(BlockId, Local)>
    requires OverScope(f, outs)
  {
    set b, n | b in f.order && n in Below(count) && InScope(f, b) && n !in outs[b] :: (b, n)
  }

  ghost predicate Numbered(f: Flow, gens: LocalSets, count: nat) {
    && OverScope(f, gens)
    && (forall b {:trigger gens[b]} | InScope(f, b) :: gens[b] <= Below(count))
    && forall b, c {:trigger gens[b], gens[c]} | InScope(f, b) && InScope(f, c) && b != c :: gens[b] !! gens[c]
  }

  ghost predicate Bounded(f: Flow, outs: LocalSets, count: nat) {
    OverScope(f, outs) && forall b {:trigger outs[b]} | InScope(f, b) :: outs[b] <= Below(count)
  }

  lemma IncomingBounded(f: Flow, outs: LocalSets, count: nat, b: BlockId)
    requires Linked(f) && Bounded(f, outs, count) && b in f.order
    ensures Incoming(f, outs, b) <= Below(count)
  {
    var ps := PredsOf(f, b);
    if ps != [] {
      forall n | n in Meet(outs, ps) ensures n in Below(count) {
        assert ps[0] in ps && InScope(f, ps[0]) && n in outs[ps[0]];
      }
    }
  }

  /** The locals of a block are the ones its instructions allocate. */
  ghost predicate Counted(f: Flow, gens: LocalSets) {
    forall b: BlockId {:trigger gens[b]} | InScope(f, b) ::
      b < |f.g.blocks| && b in gens && |gens[b]| == LocalsIn(f.g.blocks[b].insns)
  }

  function LocalsIn(insns: seq<Insn>): nat {
    if insns == [] then 0
    else LocalsIn(insns[..|insns| - 1]) + if IsLocal(insns[|insns| - 1]) then 1 else 0
  }

  /** An `Alloc` with an initializer allocates a local; one without binds a parameter. */
  predicate IsLocal(insn: Insn) { insn.Alloc? && insn.initializer.Some? }

  function LocalsAt(insns: seq<Insn>): set<nat> {
    set i: nat | i < |insns| && insns[i].Alloc? && insns[i].initializer.Some?
  }

  /** As many locals are counted as there are allocations with an initializer. */
  lemma {:induction false} LocalsAreAllocations(insns: seq<Insn>)
    ensures LocalsIn(insns) == |LocalsAt(insns)|
  {
    if insns == [] {
      assert LocalsAt(insns) == {};
    } else {
      var before, n := insns[..|insns| - 1], |insns| - 1;
      LocalsAreAllocations(before);
      assert n !in LocalsAt(before);
      assert LocalsAt(insns) == LocalsAt(before) + if IsLocal(insns[n]) then {n} else {};
    }
  }

  function Alive(g: Graph, ins: LocalSets, b: BlockId): set<Local>
    requires b < |g.blocks| && forall s | s in Succs(g.blocks[b]) && s != g.exit :: s in ins
  {
    var block := g.blocks[b];
    (if block.succ0.Some? && block.succ0.value != g.exit then ins[block.succ0.value] else {}) +
    (if block.succ1.Some? && block.succ1.value != g.exit then ins[block.succ1.value] else {})
  }

  /** A block owes a pop for each local that it leaves behind and no successor expects. */
  ghost predicate KillsAt(f: Flow, s: Sets, b: BlockId, kills: nat)
    requires Linked(f) && OverScope(f, s.ins) && OverScope(f, s.outs) && InScope(f, b)
  {
    kills == |s.outs[b] - Alive(f.g, s.ins, b)|
  }

  ghost predicate KillsAre(f: Flow, s: Sets, kills: map<BlockId, nat>) {
    && Linked(f) && OverScope(f, s.ins) && OverScope(f, s.outs)
    && forall b {:trigger kills[b]} {:trigger b in kills} | InScope(f, b) :: b in kills && KillsAt(f, s, b, kills[b])
  }

  class Analysis {
    const flow: Flow
    var gens: LocalSets
    var ins: LocalSets
    var outs: LocalSets
    var count: nat                  // the number of locals
    var killed: map<BlockId, nat>   // the pops each block owes

    constructor (f: Flow)
      ensures flow == f && gens == map[] && ins == map[] && outs == map[] && count == 0 && killed == map[]
    {
      flow, gens, ins, outs, count, killed := f, map[], map[], map[], 0, map[];
    }

    ghost function Current(): Sets
      reads this
    {
      Sets(ins, outs)
    }

    /** The blocks of `done` have their locals, and empty sets. */
    ghost predicate Prepared(done: seq<BlockId>)
      reads this
    {
      forall b {:trigger Ready(b)} | b in done && b != flow.g.exit :: Ready(b)
    }

    ghost predicate Ready(b: BlockId)
      reads this
    {
      && b < |flow.g.blocks| && b in gens && b in ins && b in outs && ins[b] == outs[b] == {}
      && gens[b] <= Below(count) && |gens[b]| == LocalsIn(flow.g.blocks[b].insns)
    }

    ghost predicate Apart(done: seq<BlockId>)
      reads this
    {
      forall b, c {:trigger gens[b], gens[c]} |
        b in done && c in done && b != c && b in gens && c in gens :: gens[b] !! gens[c]
    }

    /** Numbers the locals of the function in the order of its blocks. */
    method Initialize()
      requires Linked(flow) && gens == map[] && count == 0
      modifies this`gens, this`ins, this`outs, this`count
      ensures Numbered(flow, gens, count) && Counted(flow, gens)
      ensures OverScope(flow, ins) && OverScope(flow, outs)
      ensures forall b {:trigger ins[b]} {:trigger outs[b]} | InScope(flow, b) :: ins[b] == outs[b] == {}
    {
      for k := 0 to |flow.order|
        invariant Prepared(flow.order[..k]) && Apart(flow.order[..k]) && flow.g.exit !in gens
      {
        var b := flow.order[k];
        assert flow.order[..k + 1] == flow.order[..k] + [b];
        if b != flow.g.exit {
          InitializeBlock(b, flow.order[..k]);
        }
      }
      assert flow.order[..|flow.order|] == flow.order;
      forall b | InScope(flow, b) ensures Ready(b) {
      }
    }

    /** Prepares one more block. */
    method InitializeBlock(b: BlockId, ghost done: seq<BlockId>)
      requires Prepared(done) && Apart(done) && b !in done && b < |flow.g.blocks| && b != flow.g.exit
      requires flow.g.exit !in gens
      modifies this`gens, this`ins, this`outs, this`count
      ensures Prepared(done + [b]) && Apart(done + [b]) && flow.g.exit !in gens
    {
      ins, outs := ins[b := {}], outs[b := {}];
      var gen := NumberLocals(b);
      gens := gens[b := gen];
      forall c | c in done && c != flow.g.exit ensures Ready(c) && gens[c] !! gens[b] {
        assert old(Ready(c));
      }
    }

    /** Gives the next numbers to the locals of one block. */
    method NumberLocals(b: BlockId) returns (gen: set<Local>)
      requires b < |flow.g.blocks|
      modifies this`count
      ensures old(count) <= count && gen == Below(count) - Below(old(count))
      ensures |gen| == LocalsIn(flow.g.blocks[b].insns)
    {
      var insns := flow.g.blocks[b].insns;
      gen := {};
      for i := 0 to |insns|
        invariant old(count) <= count && |gen| == LocalsIn(insns[..i])
        invariant forall n :: n in gen <==> old(count) <= n < count
      {
        assert insns[..i + 1][..i] == insns[..i];
        if IsLocal(insns[i]) {
          gen := gen + {count};
          count := count + 1;
        }
      }
      assert insns[..|insns|] == insns;
    }

    /** Recomputes the sets of one block. It is enough to compare sizes, because the sets only grow. */
    method Update(b: BlockId) returns (changed: bool)
      requires Growing(flow, gens, Current()) && InScope(flow, b)
      modifies this`ins, this`outs
      ensures Current() == Updated(flow, gens, old(Current()), b)
      ensures changed <==> outs[b] != old(outs[b])
    {
      ghost var s := Current();
      assert GrowingAt(flow, gens, s, b);
      UpdateGrows(flow, gens, s, b);
      var oldCount := |outs[b]|;
      if b in flow.preds {
        Intersect(b, flow.preds[b]);
      }
      if PredsOf(flow, b) == [] { assert s.ins[b] == {} && s.ins == s.ins[b := s.ins[b]]; }
      outs := outs[b := ins[b] + gens[b]];
      changed := |outs[b]| != oldCount;
      SubsetCount(s.outs[b], outs[b]);
    }

    /** IN becomes the intersection of the OUT sets of the predecessors; it stays as it is if there is none. */
    method Intersect(b: BlockId, ps: seq<BlockId>)
      requires forall p | p in ps :: p in outs
      modifies this`ins
      ensures ins == if ps == [] then old(ins) else old(ins)[b := Meet(outs, ps)]
    {
      for k := 0 to |ps|
        invariant k == 0 ==> ins == old(ins)
        invariant k > 0 ==> ins == old(ins)[b := Meet(outs, ps[..k])]
      {
        var p := ps[k];
        assert ps[..k + 1][..k] == ps[..k] && (k == 0 ==> ps[..1] == [p]);
        ins := ins[b := if k == 0 then outs[p] else ins[b] * outs[p]];
      }
      assert ps[..|ps|] == ps;
    }

    /** One pass over the blocks. */
    method Pass() returns (changed: bool)
      requires Growing(flow, gens, Current()) && BelowCovers(flow, gens, Current())
      requires Numbered(flow, gens, count) && Bounded(flow, outs, count)
      modifies this`ins, this`outs
      ensures Growing(flow, gens, Current()) && BelowCovers(flow, gens, Current()) && Bounded(flow, outs, count)
      ensures Missing(flow, outs, count) <= Missing(flow, old(outs), count)
      ensures changed ==> Missing(flow, outs, count) != Missing(flow, old(outs), count)
      ensures !changed ==> Solves(flow, gens, Current())
    {
      changed := false;
      for k := 0 to |flow.order|
        invariant Growing(flow, gens, Current()) && BelowCovers(flow, gens, Current()) && Bounded(flow, outs, count)
        invariant Missing(flow, outs, count) <= Missing(flow, old(outs), count)
        invariant changed ==> Missing(flow, outs, count) < Missing(flow, old(outs), count)
        invariant !changed ==> forall i | 0 <= i < k && InScope(flow, flow.order[i]) ::
                                 SolvesAt(flow, gens, Current(), flow.order[i])
      {
        var b := flow.order[k];
        if b != flow.g.exit {
          ghost var s := Current();
          var grew := Visit(b);
          if !grew { SameOuts(flow, gens, s, b); }
          changed := changed || grew;
        }
      }
    }

    method Visit(b: BlockId) returns (grew: bool)
      requires Growing(flow, gens, Current()) && BelowCovers(flow, gens, Current()) && InScope(flow, b)
      requires Numbered(flow, gens, count) && Bounded(flow, outs, count)
      modifies this`ins, this`outs
      ensures Current() == Updated(flow, gens, old(Current()), b) && (grew <==> outs[b] != old(outs[b]))
      ensures Growing(flow, gens, Current()) && BelowCovers(flow, gens, Current()) && Bounded(flow, outs, count)
      ensures Missing(flow, outs, count) <= Missing(flow, old(outs), count)
      ensures grew ==> Missing(flow, outs, count) != Missing(flow, old(outs), count)
    {
      ghost var s := Current();
      UpdateGrows(flow, gens, s, b);
      UpdateStaysBelow(flow, gens, s, b);
      IncomingBounded(flow, outs, count, b);
      grew := Update(b);
      MissingShrinks(flow, s.outs, outs, count, b);
    }

    /** Iterates until nothing changes. */
    method Iterate()
      requires Growing(flow, gens, Current()) && BelowCovers(flow, gens, Current())
      requires Numbered(flow, gens, count) && Bounded(flow, outs, count)
      modifies this`ins, this`outs
      ensures Least(flow, gens, Current())
    {
      var changed := true;
      while changed
        invariant Growing(flow, gens, Current()) && BelowCovers(flow, gens, Current()) && Bounded(flow, outs, count)
        invariant !changed ==> Solves(flow, gens, Current())
        decreases Missing(flow, outs, count), changed
      {
        changed := Pass();
      }
    }

    /** Counts the pops that each block owes. */
    method CountPops()
      requires Solves(flow, gens, Current())
      modifies this`killed
      ensures KillsAre(flow, Current(), killed)
    {
      hide Distinct, Enclosed, Exact, KillsAt, SolvesAt, WellFormed;
      ghost var s := Current();
      for k := 0 to |flow.order|
        invariant forall b {:trigger InScope(flow, b)} | b in flow.order[..k] && b != flow.g.exit ::
                    b in killed && InScope(flow, b) && KillsAt(flow, s, b, killed[b])
      {
        var b := flow.order[k];
        assert flow.order[..k + 1] == flow.order[..k] + [b];
        if b != flow.g.exit {
          CountPopsOf(b);
        }
      }
      assert flow.order[..|flow.order|] == flow.order;
    }

    method CountPopsOf(b: BlockId)
      requires Solves(flow, gens, Current()) && InScope(flow, b)
      modifies this`killed
      ensures b in killed && killed == old(killed)[b := killed[b]] && KillsAt(flow, Current(), b, killed[b])
    {
      hide Alive, Distinct, Exact, Incoming, WellFormedBlock;
      assert SolvesAt(flow, gens, Current(), b);
      assert outs[b] + gens[b] == outs[b];
      var alive := AliveInSuccessors(b);
      killed := killed[b := |(outs[b] + gens[b]) - alive|];
    }

    method AliveInSuccessors(b: BlockId) returns (alive: set<Local>)
      requires b < |flow.g.blocks| && forall s | s in Succs(flow.g.blocks[b]) && s != flow.g.exit :: s in ins
      ensures alive == Alive(flow.g, ins, b)
    {
      var block := flow.g.blocks[b];
      alive := {};
      if block.succ0.Some? && block.succ0.value != flow.g.exit {
        alive := alive + ins[block.succ0.value];
      }
      if block.succ1.Some? && block.succ1.value != flow.g.exit {
        alive := alive + ins[block.succ1.value];
      }
    }
  }

  lemma SubsetCount(s: set<Local>, t: set<Local>)
    requires s <= t
    ensures |s| == |t| <==> s == t
    ensures |s| <= |t|
  {
    assert t == s + (t - s);
  }

  lemma MissingShrinks(f: Flow, s: LocalSets, t: LocalSets, count: nat, b: BlockId)
    requires Within(f, s, t) && InScope(f, b) && Bounded(f, t, count)
    ensures Missing(f, t, count) <= Missing(f, s, count)
    ensures s[b] != t[b] ==> Missing(f, t, count) != Missing(f, s, count)
  {
    if s[b] != t[b] {
      var n :| n in t[b] && n !in s[b];
      assert (b, n) in Missing(f, s, count) && (b, n) !in Missing(f, t, count);
    }
  }

  lemma SameOuts(f: Flow, gens: LocalSets, s: Sets, b: BlockId)
    requires Growing(f, gens, s) && InScope(f, b) && Updated(f, gens, s, b).outs[b] == s.outs[b]
    ensures SolvesAt(f, gens, Updated(f, gens, s, b), b)
    ensures forall c | InScope(f, c) && SolvesAt(f, gens, s, c) :: SolvesAt(f, gens, Updated(f, gens, s, b), c)
  {
    var t := Updated(f, gens, s, b);
    assert t.outs == s.outs;
  }

  /** The analysis ends on every graph, at the least solution of its equations, and counts the pops by it. */
  method StackPopPoints(f: Flow) returns (a: Analysis)
    requires Linked(f)
    ensures fresh(a) && a.flow == f && Numbered(f, a.gens, a.count) && Least(f, a.gens, a.Current())
    ensures Counted(f, a.gens) && KillsAre(f, a.Current(), a.killed)
  {
    a := new Analysis(f);
    a.Initialize();
    NothingYet(f, a.gens, a.Current());
    a.Iterate();
    ghost var s := a.Current();
    a.CountPops();
    assert a.Current() == s;
  }

  lemma NothingYet(f: Flow, gens: LocalSets, s: Sets)
    requires Linked(f) && OverScope(f, gens) && OverScope(f, s.ins) && OverScope(f, s.outs)
    requires forall b {:trigger s.ins[b]} {:trigger s.outs[b]} | InScope(f, b) :: s.ins[b] == s.outs[b] == {}
    ensures Growing(f, gens, s) && BelowCovers(f, gens, s)
  {
  }
}
