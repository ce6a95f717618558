/** Functions in which locals are popped at the wrong place. */
module PopLimits {
  import opened Options
  import opened Ir
  import opened Layout
  import opened PopPoints
  import opened PopTheorems

  // ----- loops -----

  ghost predicate FedAt(f: Flow, loop: set<BlockId>, b: BlockId) { exists a :: a in PredsOf(f, b) && a in loop }

  /** Blocks each of which follows another one of them, such as those of a loop. */
  ghost predicate Feeds(f: Flow, loop: set<BlockId>) {
    forall b {:trigger b in loop} | b in loop :: InScope(f, b) && FedAt(f, loop, b)
  }

  function AllocatedIn(gens: LocalSets, loop: set<BlockId>): (r: set<Local>)
    requires forall b | b in loop :: b in gens
    ensures forall n :: n in r <==> exists b | b in loop :: n in gens[b]
  {
    set b, n | b in loop && n in gens[b] :: n
  }

  /** In the loop, what is allocated in the loop; everywhere else, anything. */
  ghost function Envelope(f: Flow, gens: LocalSets, count: nat, loop: set<BlockId>): LocalSets
    requires forall b | b in loop :: b in gens
  {
    map b | b in f.order :: if b in loop then AllocatedIn(gens, loop) else Below(count)
  }

  lemma EnvelopeBounded(f: Flow, gens: LocalSets, count: nat, loop: set<BlockId>)
    requires Numbered(f, gens, count) && Feeds(f, loop) && forall b | b in loop :: b in gens
    ensures Bounded(f, Envelope(f, gens, count, loop), count)
  {
    forall n | n in AllocatedIn(gens, loop) ensures n in Below(count) {
      var b :| b in loop && n in gens[b];
      assert gens[b] <= Below(count);
    }
  }

  lemma EnvelopeCovers(f: Flow, gens: LocalSets, count: nat, loop: set<BlockId>, b: BlockId)
    requires Linked(f) && Numbered(f, gens, count) && Feeds(f, loop) && InScope(f, b)
    requires forall x | x in loop :: x in gens
    ensures CoversAt(f, gens, Envelope(f, gens, count, loop), b)
  {
    var t := Envelope(f, gens, count, loop);
    assert gens[b] <= Below(count);
    if b in loop {
      assert FedAt(f, loop, b);
      var a :| a in PredsOf(f, b) && a in loop;
      assert Incoming(f, t, b) <= t[a];
    } else {
      EnvelopeBounded(f, gens, count, loop);
      IncomingBounded(f, t, count, b);
    }
  }

  /**
   The analysis forgets in a loop whatever was allocated outside of it, because the sets it starts from are empty:
   a local that is allocated ahead of a loop is popped there.
   */
  lemma LoopsForget(f: Flow, gens: LocalSets, count: nat, s: Sets, loop: set<BlockId>, b: BlockId)
    requires Least(f, gens, s) && Numbered(f, gens, count) && Feeds(f, loop) && b in loop
    requires forall x | x in loop :: x in gens
    ensures s.outs[b] <= AllocatedIn(gens, loop)
  {
    var t := Envelope(f, gens, count, loop);
    forall x | InScope(f, x) ensures CoversAt(f, gens, t, x) {
      EnvelopeCovers(f, gens, count, loop, x);
    }
    assert Covers(f, gens, t) && InScope(f, b);
  }

  lemma LeastSolves(f: Flow, gens: LocalSets, s: Sets)
    requires Least(f, gens, s)
    ensures Solves(f, gens, s)
  {
  }

  lemma FedIsInScope(f: Flow, loop: set<BlockId>, b: BlockId)
    requires Feeds(f, loop) && b in loop
    ensures InScope(f, b)
  {
  }

  /** A block pops what its only successor does not report. */
  lemma PoppedWhenForgotten(
      f: Flow, gens: LocalSets, s: Sets, kills: map<BlockId, nat>, a: BlockId, b: BlockId, n: Local)
    requires Solves(f, gens, s) && KillsAre(f, s, kills) && InScope(f, a) && InScope(f, b)
    requires Succs(f.g.blocks[a]) == {b} && n in s.outs[a] && n !in s.outs[b]
    ensures a in kills && kills[a] > 0
  {
    assert SolvesAt(f, gens, s, b) && a in kills;
    assert forall x | x in Succs(f.g.blocks[a]) :: x == b;
    assert n in s.outs[a] - Alive(f.g, s.ins, a);
  }

  /** So the block ahead of the loop pops it, if it leads nowhere else. */
  lemma PoppedAheadOfLoop(
      f: Flow, gens: LocalSets, count: nat, s: Sets, kills: map<BlockId, nat>, loop: set<BlockId>, a: BlockId,
      b: BlockId, n: Local)
    requires Least(f, gens, s) && Numbered(f, gens, count) && KillsAre(f, s, kills) && Feeds(f, loop) && b in loop
    requires forall x | x in loop :: x in gens
    requires InScope(f, a) && Succs(f.g.blocks[a]) == {b} && n in s.outs[a] && n !in AllocatedIn(gens, loop)
    ensures a in kills && kills[a] > 0
  {
    hide Solves, Numbered, KillsAre, Feeds, AllocatedIn, Succs, InScope, Least;
    LoopsForget(f, gens, count, s, loop, b);
    LeastSolves(f, gens, s);
    FedIsInScope(f, loop, b);
    PoppedWhenForgotten(f, gens, s, kills, a, b, n);
  }

  // ----- conditionals -----

  /**
   A block is not balanced when it leads to a block of its own and to one that is also reached without the locals
   of this one.
   */
  lemma UnbalancedAtCriticalEdge(f: Flow, gens: LocalSets, s: Sets, b: BlockId, x: BlockId, y: BlockId, a: BlockId)
    requires Solves(f, gens, s) && InScope(f, b) && InScope(f, x) && InScope(f, y)
    requires f.g.blocks[b].succ0 == Some(x) && f.g.blocks[b].succ1 == Some(y)
    requires (forall p | p in PredsOf(f, x) :: p == b) && a in PredsOf(f, y) && !(s.outs[b] <= s.outs[a])
    ensures !BalancedAt(f, s, b)
  {
    assert SolvesAt(f, gens, s, x) && SolvesAt(f, gens, s, y);
    assert x in Succs(f.g.blocks[b]) && b in PredsOf(f, x);
    assert s.ins[x] == s.outs[b];
  }

  lemma HasLocal(insns: seq<Insn>, i: nat)
    requires i < |insns| && IsLocal(insns[i])
    ensures LocalsIn(insns) > 0
  {
    if i < |insns| - 1 {
      assert insns[..|insns| - 1][i] == insns[i];
      HasLocal(insns[..|insns| - 1], i);
    }
  }

  lemma NoneAt(f: Flow, gens: LocalSets, s: Sets, b: BlockId)
    requires Solves(f, gens, s) && Counted(f, gens) && InScope(f, b) && LocalsIn(f.g.blocks[b].insns) == 0
    requires PredsOf(f, b) == [] || exists p :: p in PredsOf(f, b) && InScope(f, p) && s.outs[p] == {}
    ensures s.outs[b] == {}
  {
    assert SolvesAt(f, gens, s, b) && |gens[b]| == 0;
    if PredsOf(f, b) != [] {
      var p :| p in PredsOf(f, b) && InScope(f, p) && s.outs[p] == {};
      assert Incoming(f, s.outs, b) <= s.outs[p];
    }
  }
}
