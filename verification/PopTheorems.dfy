/** What the analysis of pops means for the paths through a function. */
module PopTheorems {
  import opened Options
  import opened Ir
  import opened Paths
  import opened PopPoints

  /** The locals allocated along a path. */
  function Allocated(gens: LocalSets, p: seq<BlockId>): set<Local> {
    if p == [] then {}
    else Allocated(gens, p[..|p| - 1]) + if Last(p) in gens then gens[Last(p)] else {}
  }

  /** A path from the entry of the function to a block that is analyzed, or to the exit. */
  ghost predicate FromEntry(f: Flow, p: seq<BlockId>) {
    IsPath(f.g, p) && p[0] == f.g.entry
  }

  lemma PathPrefix(f: Flow, p: seq<BlockId>)
    requires Linked(f) && FromEntry(f, p) && |p| > 1
    ensures FromEntry(f, p[..|p| - 1]) && Last(p) in Succs(f.g.blocks[Last(p[..|p| - 1])])
  {
    var q := p[..|p| - 1];
    forall k {:trigger q[k + 1]} | 0 <= k < |q| - 1 ensures q[k + 1] in Succs(f.g.blocks[q[k]]) {
      assert q[k + 1] == p[k + 1];
    }
    var k := |p| - 2;
    assert p[k + 1] in Succs(f.g.blocks[p[k]]);
  }

  lemma PathExtends(f: Flow, p: seq<BlockId>, b: BlockId)
    requires Linked(f) && FromEntry(f, p) && b in Succs(f.g.blocks[Last(p)]) && b < |f.g.blocks|
    ensures FromEntry(f, p + [b])
  {
    var q := p + [b];
    forall k {:trigger q[k + 1]} | 0 <= k < |q| - 1 ensures q[k + 1] in Succs(f.g.blocks[q[k]]) {
      if k < |p| - 1 { assert q[k + 1] == p[k + 1]; }
    }
  }

  /** Every block on a path from the entry belongs to the function, and only its last block can be the exit. */
  lemma {:induction false} PathInScope(f: Flow, p: seq<BlockId>)
    requires Linked(f) && FromEntry(f, p)
    ensures Last(p) in f.order && (|p| > 1 ==> InScope(f, Last(p[..|p| - 1])))
  {
    if |p| > 1 {
      PathPrefix(f, p);
      PathInScope(f, p[..|p| - 1]);
    }
  }

  lemma {:induction false} AllInScope(f: Flow, p: seq<BlockId>)
    requires Linked(f) && FromEntry(f, p) && InScope(f, Last(p))
    ensures forall b | b in p :: InScope(f, b)
  {
    if |p| > 1 {
      PathPrefix(f, p);
      PathInScope(f, p);
      AllInScope(f, p[..|p| - 1]);
      assert p == p[..|p| - 1] + [Last(p)];
    }
  }

  lemma MeetIsIncluded(f: Flow, gens: LocalSets, s: Sets, a: BlockId, b: BlockId)
    requires Solves(f, gens, s) && InScope(f, a) && InScope(f, b) && b in Succs(f.g.blocks[a])
    ensures s.ins[b] <= s.outs[a]
  {
    assert SolvesAt(f, gens, s, b);
    assert a in PredsOf(f, b);
  }

  // ----- soundness -----

  /** Whatever the analysis reports for the last block of a path has been allocated on the path. */
  lemma {:induction false} ReportedIsAllocated(f: Flow, gens: LocalSets, s: Sets, p: seq<BlockId>)
    requires Solves(f, gens, s) && s.ins[f.g.entry] <= gens[f.g.entry]
    requires FromEntry(f, p) && InScope(f, Last(p))
    ensures s.outs[Last(p)] <= Allocated(gens, p)
  {
    var b := Last(p);
    assert SolvesAt(f, gens, s, b);
    if |p| > 1 {
      PathPrefix(f, p);
      PathInScope(f, p);
      var q := p[..|p| - 1];
      MeetIsIncluded(f, gens, s, Last(q), b);
      ReportedIsAllocated(f, gens, s, q);
    }
  }

  ghost predicate Sound(f: Flow, gens: LocalSets, s: Sets)
    requires OverScope(f, s.outs)
  {
    forall p | FromEntry(f, p) && InScope(f, Last(p)) :: s.outs[Last(p)] <= Allocated(gens, p)
  }

  /**
   What the analysis reports has been allocated on every path from the entry, exactly when nothing flows into the
   entry that the entry does not allocate itself.
   */
  lemma SoundExactly(f: Flow, gens: LocalSets, s: Sets)
    requires Solves(f, gens, s)
    ensures Sound(f, gens, s) <==> s.ins[f.g.entry] <= gens[f.g.entry]
  {
    if s.ins[f.g.entry] <= gens[f.g.entry] {
      forall p | FromEntry(f, p) && InScope(f, Last(p)) ensures s.outs[Last(p)] <= Allocated(gens, p) {
        ReportedIsAllocated(f, gens, s, p);
      }
    }
    if Sound(f, gens, s) {
      SoundAtEntry(f, gens, s);
    }
  }

  lemma SoundAtEntry(f: Flow, gens: LocalSets, s: Sets)
    requires Solves(f, gens, s) && Sound(f, gens, s)
    ensures s.ins[f.g.entry] <= gens[f.g.entry]
  {
    var e := f.g.entry;
    assert FromEntry(f, [e]) && SolvesAt(f, gens, s, e);
    assert [e][..0] == [];
    assert s.outs[e] <= Allocated(gens, [e]) == gens[e];
  }

  /** No block leads to the entry of a function, so nothing flows into it. */
  lemma NothingFlowsIntoEntry(f: Flow, gens: LocalSets, s: Sets)
    requires Solves(f, gens, s) && PredsOf(f, f.g.entry) == []
    ensures s.ins[f.g.entry] == {}
  {
    assert SolvesAt(f, gens, s, f.g.entry);
  }

  /** So on a function whose entry nothing leads to, what is reported has been allocated on every path. */
  lemma SoundFunctions(f: Flow, gens: LocalSets, s: Sets)
    requires Solves(f, gens, s) && PredsOf(f, f.g.entry) == []
    ensures Sound(f, gens, s)
  {
    NothingFlowsIntoEntry(f, gens, s);
    SoundExactly(f, gens, s);
  }

  /** A function whose second block allocates a local and may lead back to the entry. */
  const BackToEntry := Flow(
    Graph([Block([], Some(1), None),
           Block([Use(0, Constant("0"), []), Alloc(1, Some(0)), Use(2, Constant("true"), []), Branch(2, 0, 2)],
                 Some(0), Some(2)),
           Block([], None, None)], 0, 2),
    [0, 1, 2],
    map[0 := [1], 1 := [0], 2 := [1]])

  /** The local is reported at the entry, where it has not been allocated when control first gets there. */
  lemma UnsoundAtLoopedEntry(f: Flow, gens: LocalSets, s: Sets)
    requires f == BackToEntry && Solves(f, gens, s) && Counted(f, gens)
    ensures !Sound(f, gens, s)
  {
    hide Arity, Distinct, Exact, Sound;
    var insns := f.g.blocks[1].insns;
    assert insns[..3][..2][1] == Alloc(1, Some(0)) && insns[..3][..2][..1][..0] == [];
    assert LocalsIn(insns[..3][..2]) >= 1 && LocalsIn(insns) == LocalsIn(insns[..3]) == LocalsIn(insns[..3][..2]);
    assert f.order[0] == 0 && f.order[1] == 1;
    assert InScope(f, 0) && InScope(f, 1);
    assert SolvesAt(f, gens, s, 0) && SolvesAt(f, gens, s, 1);
    assert |gens[1]| >= 1 && |gens[0]| == 0;
    assert PredsOf(f, 0) == [1] && s.ins[0] == s.outs[1];
    var n :| n in gens[1];
    assert n in s.ins[0] && n !in gens[0];
    SoundExactly(f, gens, s);
  }

  // ----- completeness without cycles -----

  ghost predicate Ranked(f: Flow, rank: BlockId -> nat) {
    forall a, b {:trigger rank(a), rank(b)} |
      a in f.order && a < |f.g.blocks| && b in Succs(f.g.blocks[a]) && b != f.g.exit :: rank(a) < rank(b)
  }

  /** Every block but the entry has a predecessor. */
  ghost predicate Entered(f: Flow) {
    PredsOf(f, f.g.entry) == [] && forall b {:trigger PredsOf(f, b)} | InScope(f, b) && b != f.g.entry ::
      PredsOf(f, b) != []
  }

  lemma {:induction false} AvoidingPath(f: Flow, gens: LocalSets, s: Sets, rank: BlockId -> nat, b: BlockId, n: Local)
    returns (p: seq<BlockId>)
    requires Solves(f, gens, s) && Ranked(f, rank) && Entered(f) && InScope(f, b) && n !in s.outs[b]
    ensures FromEntry(f, p) && Last(p) == b && n !in Allocated(gens, p)
    decreases rank(b)
  {
    assert SolvesAt(f, gens, s, b);
    if b == f.g.entry {
      p := [b];
      assert p[..0] == [];
    } else {
      var a :| a in PredsOf(f, b) && n !in s.outs[a];
      assert rank(a) < rank(b);
      var q := AvoidingPath(f, gens, s, rank, a, n);
      PathExtends(f, q, b);
      p := q + [b];
      assert p[..|p| - 1] == q;
    }
  }

  /** Without cycles, the analysis reports exactly the locals that have been allocated on every path to a block. */
  lemma ExactWithoutCycles(f: Flow, gens: LocalSets, s: Sets, rank: BlockId -> nat, b: BlockId, n: Local)
    requires Solves(f, gens, s) && Ranked(f, rank) && Entered(f) && InScope(f, b)
    ensures n in s.outs[b] <==> forall p | FromEntry(f, p) && Last(p) == b :: n in Allocated(gens, p)
  {
    NothingFlowsIntoEntry(f, gens, s);
    if n in s.outs[b] {
      forall p | FromEntry(f, p) && Last(p) == b ensures n in Allocated(gens, p) {
        ReportedIsAllocated(f, gens, s, p);
      }
    } else {
      var p := AvoidingPath(f, gens, s, rank, b, n);
    }
  }

  /** Without cycles the equations have one solution. */
  lemma {:induction false} OneSolution(f: Flow, gens: LocalSets, s: Sets, t: Sets, rank: BlockId -> nat, b: BlockId)
    requires Solves(f, gens, s) && Solves(f, gens, t) && Ranked(f, rank) && InScope(f, b)
    ensures s.ins[b] == t.ins[b] && s.outs[b] == t.outs[b]
    decreases rank(b)
  {
    assert SolvesAt(f, gens, s, b) && SolvesAt(f, gens, t, b);
    forall a | a in PredsOf(f, b) ensures InScope(f, a) && s.outs[a] == t.outs[a] {
      assert rank(a) < rank(b);
      OneSolution(f, gens, s, t, rank, a);
    }
  }

  // ----- the height of the stack -----

  /** How many locals are on the stack behind a path: those allocated, less those popped, before its last block. */
  function Height(gens: LocalSets, kills: map<BlockId, nat>, p: seq<BlockId>): int {
    if |p| <= 1 then 0
    else
      var q := p[..|p| - 1];
      var b := Last(q);
      Height(gens, kills, q) + (if b in gens then |gens[b]| else 0) - if b in kills then kills[b] else 0
  }

  predicate Leads(g: Graph, s: Option<BlockId>) { s.Some? && s.value != g.exit }

  /** The successors of a block, the exit aside, expect the same locals. */
  ghost predicate BalancedAt(f: Flow, s: Sets, b: BlockId)
    requires Linked(f) && OverScope(f, s.ins) && b in f.order
  {
    var block := f.g.blocks[b];
    Leads(f.g, block.succ0) && Leads(f.g, block.succ1) ==>
      assert block.succ0.value in Succs(block) && block.succ1.value in Succs(block);
      s.ins[block.succ0.value] == s.ins[block.succ1.value]
  }

  lemma AliveIsIncluded(f: Flow, gens: LocalSets, s: Sets, b: BlockId)
    requires Solves(f, gens, s) && InScope(f, b)
    ensures Alive(f.g, s.ins, b) <= s.outs[b]
  {
    forall x | x in Succs(f.g.blocks[b]) && InScope(f, x) ensures s.ins[x] <= s.outs[b] {
      MeetIsIncluded(f, gens, s, b, x);
    }
  }

  lemma CountMinus(s: set<Local>, t: set<Local>)
    requires t <= s
    ensures |s - t| == |s| - |t|
  {
    assert s == (s - t) + t;
  }

  lemma SameCount(s: set<Local>, t: set<Local>)
    requires s <= t && |s| == |t|
    ensures s == t
  {
    SubsetCount(s, t);
  }

  lemma LeftBehind(f: Flow, gens: LocalSets, s: Sets, kills: map<BlockId, nat>, b: BlockId)
    requires Solves(f, gens, s) && KillsAre(f, s, kills) && InScope(f, b)
    ensures b in kills && |s.outs[b]| - kills[b] == |Alive(f.g, s.ins, b)|
  {
    AliveIsIncluded(f, gens, s, b);
    assert b in kills;
    CountMinus(s.outs[b], Alive(f.g, s.ins, b));
  }

  /** The size of a union is the size of each of two sets exactly when they are the same. */
  lemma UnionCount(s: set<Local>, t: set<Local>)
    ensures |s + t| == |s| == |t| <==> s == t
  {
    if s == t { assert s + t == s; } else { OneIsMissing(s, t, s + t); }
  }

  /** What successors keep between them is what each keeps, exactly when they keep the same. */
  lemma AliveCount(g: Graph, ins: LocalSets, b: BlockId)
    requires b < |g.blocks| && forall x | x in Succs(g.blocks[b]) && x != g.exit :: x in ins
    ensures var block := g.blocks[b];
            (Leads(g, block.succ0) && Leads(g, block.succ1) ==> ins[block.succ0.value] == ins[block.succ1.value])
            <==> forall x | x in Succs(block) && x != g.exit :: |Alive(g, ins, b)| == |ins[x]|
  {
    var block := g.blocks[b];
    if Leads(g, block.succ0) && Leads(g, block.succ1) {
      assert block.succ0.value in Succs(block) && block.succ1.value in Succs(block);
      UnionCount(ins[block.succ0.value], ins[block.succ1.value]);
    }
  }

  /** The pops of a block leave each successor with the locals it expects, if and only if all expect the same. */
  lemma BalancedExactly(f: Flow, gens: LocalSets, s: Sets, kills: map<BlockId, nat>, b: BlockId)
    requires Solves(f, gens, s) && KillsAre(f, s, kills) && InScope(f, b)
    ensures b in kills
    ensures BalancedAt(f, s, b) <==>
            forall x | x in Succs(f.g.blocks[b]) && x != f.g.exit :: |s.outs[b]| - kills[b] == |s.ins[x]|
  {
    LeftBehind(f, gens, s, kills, b);
    AliveCount(f.g, s.ins, b);
  }

  lemma OneIsMissing(s: set<Local>, t: set<Local>, u: set<Local>)
    requires s != t && s <= u && t <= u
    ensures |s| != |u| || |t| != |u|
  {
    if |s| == |u| { SameCount(s, u); }
    if |t| == |u| { SameCount(t, u); }
  }

  /** A block allocates locals of its own, which are never there already when control reaches it. */
  lemma NewLocals(f: Flow, gens: LocalSets, count: nat, s: Sets, p: seq<BlockId>)
    requires Solves(f, gens, s) && Numbered(f, gens, count) && PredsOf(f, f.g.entry) == []
    requires FromEntry(f, p) && InScope(f, Last(p))
    ensures s.ins[Last(p)] !! gens[Last(p)]
    decreases |p|
  {
    var b := Last(p);
    NothingFlowsIntoEntry(f, gens, s);
    if |p| > 1 {
      PathPrefix(f, p);
      PathInScope(f, p);
      var q := p[..|p| - 1];
      if b in q {
        var k :| 0 <= k < |q| && q[k] == b;
        TakePath(f, q, k + 1);
        NewLocals(f, gens, count, s, q[..k + 1]);
      } else {
        MeetIsIncluded(f, gens, s, Last(q), b);
        ReportedIsAllocated(f, gens, s, q);
        AllInScope(f, q);
        AllocatedElsewhere(f, gens, count, q, b);
      }
    }
  }

  lemma {:induction false} TakePath(f: Flow, p: seq<BlockId>, n: nat)
    requires Linked(f) && FromEntry(f, p) && 0 < n <= |p|
    ensures FromEntry(f, p[..n])
  {
    if n < |p| {
      PathPrefix(f, p);
      TakePath(f, p[..|p| - 1], n);
      assert p[..|p| - 1][..n] == p[..n];
    } else {
      assert p[..n] == p;
    }
  }

  lemma {:induction false} AllocatedElsewhere(f: Flow, gens: LocalSets, count: nat, p: seq<BlockId>, b: BlockId)
    requires Numbered(f, gens, count) && InScope(f, b) && b !in p && Linked(f)
    requires forall x | x in p :: InScope(f, x)
    ensures Allocated(gens, p) !! gens[b]
  {
    if p != [] {
      AllocatedElsewhere(f, gens, count, p[..|p| - 1], b);
      assert Last(p) in p;
    }
  }

  /** The stack is as high as the locals that the last block of a path expects. */
  ghost predicate Level(f: Flow, gens: LocalSets, s: Sets, kills: map<BlockId, nat>, p: seq<BlockId>)
    requires OverScope(f, s.ins)
  {
    p != [] && InScope(f, Last(p)) ==> Height(gens, kills, p) == |s.ins[Last(p)]|
  }

  ghost predicate Reached(f: Flow, b: BlockId) {
    exists p :: FromEntry(f, p) && Last(p) == b
  }

  /** One more block changes the height by the locals it allocates and pops. */
  lemma HeightGrows(
      f: Flow, gens: LocalSets, count: nat, s: Sets, kills: map<BlockId, nat>, p: seq<BlockId>, b: BlockId)
    requires Solves(f, gens, s) && KillsAre(f, s, kills) && Numbered(f, gens, count) && PredsOf(f, f.g.entry) == []
    requires FromEntry(f, p) && InScope(f, Last(p)) && Level(f, gens, s, kills, p)
    ensures Last(p) in kills && Height(gens, kills, p + [b]) == |s.outs[Last(p)]| - kills[Last(p)]
  {
    var q, a := p + [b], Last(p);
    assert q[..|q| - 1] == p && a in kills;
    NewLocals(f, gens, count, s, p);
    assert SolvesAt(f, gens, s, a);
    CountMinus(s.outs[a], gens[a]);
    assert s.outs[a] - gens[a] == s.ins[a];
  }

  lemma {:induction false} BalancedIsLevel(
      f: Flow, gens: LocalSets, count: nat, s: Sets, kills: map<BlockId, nat>, p: seq<BlockId>)
    requires Solves(f, gens, s) && KillsAre(f, s, kills) && Numbered(f, gens, count) && PredsOf(f, f.g.entry) == []
    requires forall b | InScope(f, b) && Reached(f, b) :: BalancedAt(f, s, b)
    requires FromEntry(f, p)
    ensures Level(f, gens, s, kills, p)
  {
    hide BalancedAt, KillsAre, Linked, Numbered, OverScope, Reached;
    NothingFlowsIntoEntry(f, gens, s);
    if |p| > 1 && InScope(f, Last(p)) {
      var q := p[..|p| - 1];
      PathPrefix(f, p);
      PathInScope(f, p);
      BalancedIsLevel(f, gens, count, s, kills, q);
      LevelGrows(f, gens, count, s, kills, q, Last(p));
      assert p == q + [Last(p)];
    }
  }

  lemma LevelGrows(f: Flow, gens: LocalSets, count: nat, s: Sets, kills: map<BlockId, nat>, q: seq<BlockId>, b: BlockId)
    requires Solves(f, gens, s) && KillsAre(f, s, kills) && Numbered(f, gens, count) && PredsOf(f, f.g.entry) == []
    requires forall b | InScope(f, b) && Reached(f, b) :: BalancedAt(f, s, b)
    requires FromEntry(f, q) && InScope(f, Last(q)) && b in Succs(f.g.blocks[Last(q)]) && InScope(f, b)
    requires Level(f, gens, s, kills, q)
    ensures Level(f, gens, s, kills, q + [b])
  {
    HeightGrows(f, gens, count, s, kills, q, b);
    assert Reached(f, Last(q));
    BalancedExactly(f, gens, s, kills, Last(q));
  }

  /**
   The locals allocated less the locals popped come to the same whichever path control takes to a block, namely the
   number of locals the block expects, if and only if every block that can be reached has successors that expect
   the same locals. Loops are allowed.
   */
  lemma HeightsAgreeExactly(f: Flow, gens: LocalSets, count: nat, s: Sets, kills: map<BlockId, nat>)
    requires Solves(f, gens, s) && KillsAre(f, s, kills) && Numbered(f, gens, count) && PredsOf(f, f.g.entry) == []
    ensures (forall p | FromEntry(f, p) :: Level(f, gens, s, kills, p))
            <==> forall b | InScope(f, b) && Reached(f, b) :: BalancedAt(f, s, b)
  {
    if forall b | InScope(f, b) && Reached(f, b) :: BalancedAt(f, s, b) {
      forall p | FromEntry(f, p) ensures Level(f, gens, s, kills, p) {
        BalancedIsLevel(f, gens, count, s, kills, p);
      }
    }
    if forall p | FromEntry(f, p) :: Level(f, gens, s, kills, p) {
      forall b | InScope(f, b) && Reached(f, b) ensures BalancedAt(f, s, b) {
        LevelIsBalanced(f, gens, count, s, kills, b);
      }
    }
  }

  lemma LevelIsBalanced(f: Flow, gens: LocalSets, count: nat, s: Sets, kills: map<BlockId, nat>, b: BlockId)
    requires Solves(f, gens, s) && KillsAre(f, s, kills) && Numbered(f, gens, count) && PredsOf(f, f.g.entry) == []
    requires forall p | FromEntry(f, p) :: Level(f, gens, s, kills, p)
    requires InScope(f, b) && Reached(f, b)
    ensures BalancedAt(f, s, b)
  {
    hide BalancedAt, Distinct, Exact, Height, KillsAt, Numbered, Solves, WellFormed;
    var p :| FromEntry(f, p) && Last(p) == b;
    forall x | x in Succs(f.g.blocks[b]) && x != f.g.exit ensures |s.outs[b]| - kills[b] == |s.ins[x]| {
      PathExtends(f, p, x);
      HeightGrows(f, gens, count, s, kills, p, x);
      assert Level(f, gens, s, kills, p + [x]);
    }
    BalancedExactly(f, gens, s, kills, b);
  }

  /** Nothing is left on the stack when control reaches the exit from a block that leads nowhere else. */
  lemma NothingIsLeft(
      f: Flow, gens: LocalSets, count: nat, s: Sets, kills: map<BlockId, nat>, p: seq<BlockId>)
    requires Solves(f, gens, s) && KillsAre(f, s, kills) && Numbered(f, gens, count) && PredsOf(f, f.g.entry) == []
    requires forall b | InScope(f, b) && Reached(f, b) :: BalancedAt(f, s, b)
    requires FromEntry(f, p) && Succs(f.g.blocks[Last(p)]) == {f.g.exit}
    ensures Height(gens, kills, p + [f.g.exit]) == 0
  {
    PathInScope(f, p);
    BalancedIsLevel(f, gens, count, s, kills, p);
    HeightGrows(f, gens, count, s, kills, p, f.g.exit);
    assert f.g.blocks[Last(p)].succ0.Some? ==> f.g.blocks[Last(p)].succ0.value in Succs(f.g.blocks[Last(p)]);
    assert f.g.blocks[Last(p)].succ1.Some? ==> f.g.blocks[Last(p)].succ1.value in Succs(f.g.blocks[Last(p)]);
    assert s.outs[Last(p)] - Alive(f.g, s.ins, Last(p)) == s.outs[Last(p)];
  }

  /** A block that leads to several blocks leads to them alone. */
  ghost predicate NotCritical(f: Flow, b: BlockId)
    requires b < |f.g.blocks|
  {
    f.g.blocks[b].succ0.Some? && f.g.blocks[b].succ1.Some? && f.g.blocks[b].succ0 != f.g.blocks[b].succ1 ==>
      forall x | x in Succs(f.g.blocks[b]) && InScope(f, x) :: forall a | a in PredsOf(f, x) :: a == b
  }

  /** Where no edge joins a block with several successors to one with several predecessors, the stack is balanced. */
  lemma NotCriticalIsBalanced(f: Flow, gens: LocalSets, s: Sets, b: BlockId)
    requires Solves(f, gens, s) && InScope(f, b) && NotCritical(f, b)
    ensures BalancedAt(f, s, b)
  {
    var block := f.g.blocks[b];
    if block.succ0.Some? && block.succ1.Some? && block.succ0 != block.succ1 {
      forall x | x in Succs(block) && InScope(f, x) ensures s.ins[x] == s.outs[b] {
        assert SolvesAt(f, gens, s, x);
        assert b in PredsOf(f, x);
      }
    }
  }

  // ----- balance without cycles, on the graph alone -----

  /** The local is allocated on every path from the entry that can go on to `x`. */
  ghost predicate OnEveryPathTo(f: Flow, gens: LocalSets, x: BlockId, n: Local) {
    forall p | FromEntry(f, p) && InScope(f, Last(p)) && Last(p) < |f.g.blocks| && x in Succs(f.g.blocks[Last(p)]) ::
      n in Allocated(gens, p)
  }

  /** The successors of a block, the exit aside, are reached with the same locals, as far as paths tell. */
  ghost predicate SameOnPaths(f: Flow, gens: LocalSets, b: BlockId)
    requires b < |f.g.blocks|
  {
    var block := f.g.blocks[b];
    Leads(f.g, block.succ0) && Leads(f.g, block.succ1) ==>
      forall n :: OnEveryPathTo(f, gens, block.succ0.value, n) <==> OnEveryPathTo(f, gens, block.succ1.value, n)
  }

  /** What a block expects is what has been allocated on every path to it. */
  lemma ExpectedExactly(f: Flow, gens: LocalSets, s: Sets, rank: BlockId -> nat, x: BlockId, n: Local)
    requires Solves(f, gens, s) && Ranked(f, rank) && Entered(f) && InScope(f, x) && x != f.g.entry
    ensures n in s.ins[x] <==> OnEveryPathTo(f, gens, x, n)
  {
    assert SolvesAt(f, gens, s, x);
    if n in s.ins[x] {
      forall p | FromEntry(f, p) && InScope(f, Last(p)) && Last(p) < |f.g.blocks| && x in Succs(f.g.blocks[Last(p)])
        ensures n in Allocated(gens, p)
      {
        MeetIsIncluded(f, gens, s, Last(p), x);
        ExactWithoutCycles(f, gens, s, rank, Last(p), n);
      }
    } else {
      var a :| a in PredsOf(f, x) && n !in s.outs[a];
      PredIsInScope(f, x, a);
      var p := AvoidingPath(f, gens, s, rank, a, n);
    }
  }

  lemma NotToEntry(f: Flow, b: BlockId, x: BlockId)
    requires Linked(f) && PredsOf(f, f.g.entry) == [] && InScope(f, b) && x in Succs(f.g.blocks[b]) && x != f.g.exit
    ensures x != f.g.entry && InScope(f, x)
  {
    assert x in f.order && ExactAt(f, x, b);
  }

  lemma BalancedOnPaths(f: Flow, gens: LocalSets, s: Sets, rank: BlockId -> nat, b: BlockId)
    requires Solves(f, gens, s) && Ranked(f, rank) && Entered(f) && InScope(f, b)
    ensures BalancedAt(f, s, b) <==> SameOnPaths(f, gens, b)
  {
    hide Solves, Linked, Ranked, OnEveryPathTo, Entered;
    EnteredIsLinked(f, gens, s);
    var block := f.g.blocks[b];
    if Leads(f.g, block.succ0) && Leads(f.g, block.succ1) {
      var x, y := block.succ0.value, block.succ1.value;
      assert x in Succs(block) && y in Succs(block);
      NotToEntry(f, b, x);
      NotToEntry(f, b, y);
      forall n
        ensures n in s.ins[x] <==> OnEveryPathTo(f, gens, x, n)
        ensures n in s.ins[y] <==> OnEveryPathTo(f, gens, y, n)
      {
        ExpectedExactly(f, gens, s, rank, x, n);
        ExpectedExactly(f, gens, s, rank, y, n);
      }
    }
  }

  lemma EnteredIsLinked(f: Flow, gens: LocalSets, s: Sets)
    requires Solves(f, gens, s) && Entered(f)
    ensures Linked(f) && PredsOf(f, f.g.entry) == [] && OverScope(f, s.ins) && forall b | b in f.order ::
            b < |f.g.blocks|
  {
  }

  /**
   The stack is balanced on every path if and only if, wherever control divides between two blocks that can be
   reached, the same locals have been allocated on all the paths to the one as on all the paths to the other. The
   condition speaks of the graph alone.
   */
  lemma LevelExactlyOnGraph(
      f: Flow, gens: LocalSets, count: nat, s: Sets, kills: map<BlockId, nat>, rank: BlockId -> nat)
    requires Solves(f, gens, s) && KillsAre(f, s, kills) && Numbered(f, gens, count)
    requires Ranked(f, rank) && Entered(f)
    ensures (forall p | FromEntry(f, p) :: Level(f, gens, s, kills, p))
            <==> forall b: BlockId | InScope(f, b) && Reached(f, b) :: b < |f.g.blocks| && SameOnPaths(f, gens, b)
  {
    hide Solves, KillsAre, Numbered, Ranked, Level, SameOnPaths, BalancedAt, Linked, Reached, FromEntry, Entered;
    EnteredIsLinked(f, gens, s);
    HeightsAgreeExactly(f, gens, count, s, kills);
    forall b: BlockId | InScope(f, b)
      ensures b < |f.g.blocks| && (BalancedAt(f, s, b) <==> SameOnPaths(f, gens, b))
    {
      BalancedOnPaths(f, gens, s, rank, b);
    }
  }
}
