/**
 What the analysis of pops reports on any graph, with loops or without: its least solution, in terms of the graph alone.
 */
module LeastPops {
  import opened Options
  import opened Ir
  import opened Layout
  import opened Paths
  import opened PopPoints
  import opened PopTheorems

  /** Each block leads to the next. */
  ghost predicate Leading(f: Flow, p: seq<BlockId>) {
    forall k {:trigger p[k + 1]} | 0 <= k < |p| - 1 :: p[k] in PredsOf(f, p[k + 1])
  }

  lemma LeadingFrom(f: Flow, a: BlockId, p: seq<BlockId>)
    requires Leading(f, p) && p != [] && a in PredsOf(f, p[0])
    ensures Leading(f, [a] + p)
  {
    var r := [a] + p;
    forall j {:trigger r[j + 1]} | 0 <= j < |r| - 1 ensures r[j] in PredsOf(f, r[j + 1]) {
      if j > 0 {
        var k := j - 1;
        assert p[k + 1] == r[j + 1] && p[k] == r[j];
      }
    }
  }

  /**
   A way back from the last block of `p`, free of allocations of the local, that ends where no block leads to,
     or that can
   go on for ever because it has come to a block again.
   */
  ghost predicate Avoids(f: Flow, gens: LocalSets, p: seq<BlockId>, n: Local)
    requires Linked(f) && OverScope(f, gens)
  {
    && p != [] && (forall b | b in p :: InScope(f, b) && n !in gens[b]) && Leading(f, p)
    && (PredsOf(f, p[0]) == [] || p[0] in p[1..])
  }

  ghost predicate Avoidable(f: Flow, gens: LocalSets, b: BlockId, n: Local)
    requires Linked(f) && OverScope(f, gens)
  {
    exists p :: Avoids(f, gens, p, n) && Last(p) == b
  }

  // ----- nothing is reported that can be avoided -----

  /** The locals that cannot be avoided on the way to a block. */
  ghost function Unavoidable(f: Flow, gens: LocalSets, count: nat): LocalSets
    requires Linked(f) && OverScope(f, gens)
  {
    map b | b in f.order && b != f.g.exit :: set n | n in Below(count) && !Avoidable(f, gens, b, n)
  }

  /** The way to a block starts with a way to one that leads to it. */
  lemma StepBack(f: Flow, gens: LocalSets, p: seq<BlockId>, n: Local) returns (q: seq<BlockId>)
    requires Linked(f) && OverScope(f, gens) && Avoids(f, gens, p, n) && PredsOf(f, Last(p)) != []
    ensures Avoids(f, gens, q, n) && Last(q) in PredsOf(f, Last(p))
  {
    assert |p| > 1;
    var b, k := Last(p), |p| - 2;
    q := p[..|p| - 1];
    assert p[k] in PredsOf(f, p[k + 1]);
    forall j {:trigger q[j + 1]} | 0 <= j < |q| - 1 ensures q[j] in PredsOf(f, q[j + 1]) {
      assert p[j + 1] == q[j + 1];
    }
    if PredsOf(f, p[0]) != [] && p[0] !in q[1..] {
      assert p[1..] == q[1..] + [b];
      q := AroundAgain(f, gens, q, n);
    }
  }

  lemma AroundAgain(f: Flow, gens: LocalSets, q: seq<BlockId>, n: Local) returns (r: seq<BlockId>)
    requires Linked(f) && OverScope(f, gens) && q != [] && (forall b | b in q :: InScope(f, b) && n !in gens[b])
    requires Leading(f, q)
    requires Last(q) in PredsOf(f, q[0])
    ensures Avoids(f, gens, r, n) && Last(r) == Last(q)
  {
    r := [Last(q)] + q;
    LeadingFrom(f, Last(q), q);
    assert r[1..] == q && Last(q) in q;
  }

  lemma UnavoidableCovers(f: Flow, gens: LocalSets, count: nat, b: BlockId)
    requires Linked(f) && Numbered(f, gens, count) && InScope(f, b)
    ensures CoversAt(f, gens, Unavoidable(f, gens, count), b)
  {
    var t := Unavoidable(f, gens, count);
    assert Bounded(f, t, count);
    IncomingBounded(f, t, count, b);
    forall n | n in Incoming(f, t, b) + gens[b] ensures n in t[b] {
      if Avoidable(f, gens, b, n) {
        var p :| Avoids(f, gens, p, n) && Last(p) == b;
        assert b in p;
        CannotComeIn(f, gens, count, p, n);
      }
    }
  }

  lemma CannotComeIn(f: Flow, gens: LocalSets, count: nat, p: seq<BlockId>, n: Local)
    requires Linked(f) && Numbered(f, gens, count) && Avoids(f, gens, p, n) && InScope(f, Last(p))
    ensures OverScope(f, Unavoidable(f, gens, count)) && n !in Incoming(f, Unavoidable(f, gens, count), Last(p))
  {
    if PredsOf(f, Last(p)) != [] {
      var q := StepBack(f, gens, p, n);
      var a := Last(q);
      assert Avoidable(f, gens, a, n);
      PredIsInScope(f, Last(p), a);
    }
  }

  // ----- what can be avoided is all that is not reported -----

  lemma WayBackStep(f: Flow, gens: LocalSets, s: Sets, p: seq<BlockId>, n: Local)
    requires Solves(f, gens, s) && p != [] && forall b | b in p :: InScope(f, b) && n !in s.outs[b]
    ensures Linked(f) && OverScope(f, gens) && forall b | b in p :: n !in gens[b]
    ensures PredsOf(f, p[0]) == [] || exists a :: a in PredsOf(f, p[0]) && InScope(f, a) && n !in s.outs[a]
  {
    forall b | b in p ensures n !in gens[b] {
      assert SolvesAt(f, gens, s, b);
    }
    assert p[0] in p && SolvesAt(f, gens, s, p[0]);
    forall a | a in PredsOf(f, p[0]) ensures InScope(f, a) {
      PredIsInScope(f, p[0], a);
    }
  }

  /** From a block that does not report the local, the way back goes on until it ends or comes round. */
  lemma {:induction false} WayBack(
      f: Flow, gens: LocalSets, s: Sets, p: seq<BlockId>, n: Local, left: set<BlockId>)
    returns (q: seq<BlockId>)
    requires Solves(f, gens, s) && p != [] && forall b | b in p :: InScope(f, b) && n !in s.outs[b]
    requires Leading(f, p)
    requires forall b | b in f.order :: b in p || b in left
    ensures Avoids(f, gens, q, n) && Last(q) == Last(p)
    decreases left
  {
    hide Leading, Linked;
    WayBackStep(f, gens, s, p, n);
    if PredsOf(f, p[0]) == [] {
      q := p;
    } else {
      var a :| a in PredsOf(f, p[0]) && InScope(f, a) && n !in s.outs[a];
      LeadingFrom(f, a, p);
      q := [a] + p;
      if a in p {
        assert q[1..] == p;
      } else {
        q := WayBack(f, gens, s, q, n, left - {a});
      }
    }
  }

  lemma NotReportedIsAvoidable(f: Flow, gens: LocalSets, s: Sets, b: BlockId, n: Local)
    requires Solves(f, gens, s) && InScope(f, b) && n !in s.outs[b]
    ensures Avoidable(f, gens, b, n)
  {
    var q := WayBack(f, gens, s, [b], n, set x | x in f.order);
  }

  /**
   A local is reported for a block exactly if there is no way back from it that the local is not allocated on. This is
   so on every graph, for the solution that the analysis finds.
   */
  lemma ReportedExactly(f: Flow, gens: LocalSets, count: nat, s: Sets, b: BlockId, n: Local)
    requires Least(f, gens, s) && Numbered(f, gens, count) && InScope(f, b)
    ensures n in s.outs[b] <==> !Avoidable(f, gens, b, n)
  {
    if n in s.outs[b] {
      forall x | InScope(f, x) ensures CoversAt(f, gens, Unavoidable(f, gens, count), x) {
        UnavoidableCovers(f, gens, count, x);
      }
      assert Covers(f, gens, Unavoidable(f, gens, count));
    } else {
      NotReportedIsAvoidable(f, gens, s, b, n);
    }
  }

  // ----- soundness -----

  /**
   What the analysis reports has been allocated on every path from the entry exactly if every local that the entry does
   not allocate can be avoided on the way back from it.
   */
  lemma SoundExactlyOnGraph(f: Flow, gens: LocalSets, count: nat, s: Sets)
    requires Least(f, gens, s) && Numbered(f, gens, count)
    ensures Sound(f, gens, s) <==> forall n :: n in gens[f.g.entry] || Avoidable(f, gens, f.g.entry, n)
  {
    hide Avoidable;
    var e := f.g.entry;
    SoundExactly(f, gens, s);
    assert SolvesAt(f, gens, s, e);
    forall n ensures n in s.outs[e] <==> !Avoidable(f, gens, e, n) {
      ReportedExactly(f, gens, count, s, e, n);
    }
  }

  // ----- balance, with loops -----

  /** The local cannot be avoided on the way to any block that leads to `x`. */
  ghost predicate Inevitable(f: Flow, gens: LocalSets, x: BlockId, n: Local)
    requires Linked(f) && OverScope(f, gens)
  {
    forall a | a in PredsOf(f, x) :: !Avoidable(f, gens, a, n)
  }

  /** Control divides between blocks for which the same locals are inevitable. */
  ghost predicate SameInevitable(f: Flow, gens: LocalSets, b: BlockId)
    requires Linked(f) && OverScope(f, gens) && b < |f.g.blocks|
  {
    var block := f.g.blocks[b];
    Leads(f.g, block.succ0) && Leads(f.g, block.succ1) ==>
      forall n :: Inevitable(f, gens, block.succ0.value, n) <==> Inevitable(f, gens, block.succ1.value, n)
  }

  lemma ExpectedIsInevitable(f: Flow, gens: LocalSets, count: nat, s: Sets, x: BlockId, n: Local)
    requires Least(f, gens, s) && Numbered(f, gens, count) && InScope(f, x) && PredsOf(f, x) != []
    ensures n in s.ins[x] <==> Inevitable(f, gens, x, n)
  {
    hide Avoidable, Linked;
    assert SolvesAt(f, gens, s, x);
    forall a | a in PredsOf(f, x) ensures InScope(f, a) && (n in s.outs[a] <==> !Avoidable(f, gens, a, n)) {
      PredIsInScope(f, x, a);
      ReportedExactly(f, gens, count, s, a, n);
    }
  }

  lemma BalancedAsInevitable(f: Flow, gens: LocalSets, count: nat, s: Sets, b: BlockId)
    requires Least(f, gens, s) && Numbered(f, gens, count) && InScope(f, b)
    ensures b < |f.g.blocks| && (BalancedAt(f, s, b) <==> SameInevitable(f, gens, b))
  {
    hide Inevitable;
    var block := f.g.blocks[b];
    if Leads(f.g, block.succ0) && Leads(f.g, block.succ1) {
      var x, y := block.succ0.value, block.succ1.value;
      assert x in Succs(block) && y in Succs(block);
      assert b in PredsOf(f, x) && b in PredsOf(f, y);
      forall n
        ensures n in s.ins[x] <==> Inevitable(f, gens, x, n)
        ensures n in s.ins[y] <==> Inevitable(f, gens, y, n)
      {
        ExpectedIsInevitable(f, gens, count, s, x, n);
        ExpectedIsInevitable(f, gens, count, s, y, n);
      }
    }
  }

  lemma LeastIsLinked(f: Flow, gens: LocalSets, s: Sets)
    requires Least(f, gens, s)
    ensures Solves(f, gens, s) && Linked(f) && OverScope(f, gens) && forall b | b in f.order :: b < |f.g.blocks|
  {
  }

  /**
   On any graph whose entry nothing leads to, the stack is balanced on every path if and only if, wherever control
   divides between two blocks, the same locals are inevitable for both.
   */
  lemma LevelExactly(f: Flow, gens: LocalSets, count: nat, s: Sets, kills: map<BlockId, nat>)
    requires Least(f, gens, s) && KillsAre(f, s, kills) && Numbered(f, gens, count) && PredsOf(f, f.g.entry) == []
    ensures Linked(f)
    ensures (forall p | FromEntry(f, p) :: Level(f, gens, s, kills, p))
            <==> forall b: BlockId | InScope(f, b) && Reached(f, b) :: b < |f.g.blocks| && SameInevitable(f, gens, b)
  {
    hide Least, Solves, KillsAre, Numbered, Level, SameInevitable, BalancedAt, Linked, Reached, FromEntry;
    LeastIsLinked(f, gens, s);
    HeightsAgreeExactly(f, gens, count, s, kills);
    forall b: BlockId | InScope(f, b)
      ensures b < |f.g.blocks| && (BalancedAt(f, s, b) <==> SameInevitable(f, gens, b))
    {
      BalancedAsInevitable(f, gens, count, s, b);
    }
  }
}
