/** The generation of a whole body keeps the graph as it should be. */
module Generation {
  import opened Options
  import opened Ir
  import opened StackShape
  import opened PopPoints
  import opened Typing
  import opened Syntax
  import opened CodeGen
  import opened GeneratedCode
  import opened Generated
  import opened GeneratedSteps

  // ----- what later steps leave alone -----

  ghost predicate GrownAt(st: Gen, st': Gen, b: BlockId)
    requires b < |st.blocks| <= |st'.blocks|
  {
    && st.blocks[b].insns <= st'.blocks[b].insns
    && (Frozen(st, b) ==> st'.blocks[b] == st.blocks[b])
  }

  /** Blocks only gain instructions, and none once they are frozen. */
  ghost predicate Extends(st: Gen, st': Gen) {
    && |st.blocks| <= |st'.blocks| && st.notes.heads <= st'.notes.heads && st'.notes.params == st.notes.params
    && st.next <= st'.next
    && (forall b: BlockId {:trigger GrownAt(st, st', b)} | b < |st.blocks| :: GrownAt(st, st', b))
    && (forall b: BlockId {:trigger b in st'.notes.rank} | b in st.notes.rank :: b in st'.notes.rank)
    && forall b: BlockId {:trigger b in st'.notes.parent} | b in st.notes.parent :: b in st'.notes.parent
  }

  lemma ExtendsTransitive(a: Gen, b: Gen, c: Gen)
    requires Extends(a, b) && Extends(b, c)
    ensures Extends(a, c)
  {
    forall x: BlockId | x < |a.blocks| ensures GrownAt(a, c, x) {
      assert GrownAt(a, b, x) && GrownAt(b, c, x);
    }
  }

  /** Block `w` still waits, and nothing has come to lead to it. */
  ghost predicate Spared(st: Gen, st': Gen, w: BlockId) {
    && Waits(st, w) && Waits(st', w) && w < |st.notes.heads| && w < |st'.notes.heads|
    && st'.blocks[w] == st.blocks[w] && st'.notes.heads[w] == st.notes.heads[w]
    && (w in st'.notes.parent <==> w in st.notes.parent)
    && (NotTaken(st, w) ==> NotTaken(st', w))
  }

  lemma SparedTransitive(a: Gen, b: Gen, c: Gen, w: BlockId)
    requires Spared(a, b, w) && Spared(b, c, w)
    ensures Spared(a, c, w)
  {
  }

  // ----- what is asked, and what is given -----

  ghost predicate Ready(st: Gen, cur: BlockId, scope: set<Symbol>) {
    && GenOk(st, cur) && cur < |st.blocks| && !Frozen(st, cur) && LiveIn(st, cur)
    && OnStack(st.allocs, scope, Now(st, cur).temps) && |Now(st, cur).temps| >= st.notes.params
    && forall t | t in Now(st, cur).temps :: t < st.next
  }

  /** The block worked on next: the same one, or a later one; if it is empty, no condition takes it. */
  ghost predicate GoesOn(st: Gen, cur: BlockId, st': Gen, cur': BlockId) {
    && GenOk(st', cur') && cur' < |st'.blocks| && !Frozen(st', cur') && Extends(st, st')
    && (cur' == cur || |st.blocks| <= cur') && (st'.blocks[cur'].insns != [] || NotTaken(st', cur'))
    && cur < |st.blocks| && st'.blocks[cur].insns != []
  }

  /** The stack, and whether control gets here. */
  ghost predicate Behind(st': Gen, cur': BlockId, scope: set<Symbol>, ends: bool)
    requires cur' < |st'.blocks|
  {
    && OnStack(st'.allocs, scope, Now(st', cur').temps) && |Now(st', cur').temps| >= st'.notes.params
    && (forall t | t in Now(st', cur').temps :: t < st'.next)
    && if ends then !LiveIn(st', cur') && st'.blocks[cur'].insns == [] else LiveIn(st', cur')
  }

  ghost predicate SparesAll(st: Gen, st': Gen) {
    forall w: BlockId {:trigger Spared(st, st', w)} | Waits(st, w) :: Spared(st, st', w)
  }

  /** What compiling statements from `st` at `cur` leads to. */
  ghost predicate Compiled(
      st: Gen, cur: BlockId, st': Gen, cur': BlockId, scope: set<Symbol>, ends: bool, branch: bool)
  {
    && GoesOn(st, cur, st', cur') && Behind(st', cur', scope, ends) && SparesAll(st, st')
    && (branch ==> Now(st', cur') == Now(st, cur))
  }

  // ----- plain statements -----

  lemma LineExtends(st: Gen, cur: BlockId, line: Line, locals: seq<Temp>)
    requires GenOk(st, cur) && cur < |st.blocks| && !Frozen(st, cur) && st.next <= line.next
    requires LineOk(line, st.next, st.notes.params, Now(st, cur).temps, locals)
    ensures Extends(st, AfterLine(st, cur, line))
  {
    var r := AfterLine(st, cur, line);
    AfterLineAdds(st, cur, line, locals);
    forall b: BlockId | b < |st.blocks| ensures GrownAt(st, r, b) {
      assert b == cur || r.blocks[b] == st.blocks[b];
    }
  }

  lemma LineSpares(st: Gen, cur: BlockId, line: Line, locals: seq<Temp>, w: BlockId)
    requires GenOk(st, cur) && cur < |st.blocks| && Waits(st, w)
    requires LineOk(line, st.next, st.notes.params, Now(st, cur).temps, locals)
    ensures Spared(st, AfterLine(st, cur, line), w)
  {
    var r := AfterLine(st, cur, line);
    AfterLineAdds(st, cur, line, locals);
    forall b: BlockId | b < |r.blocks| && TwoWay(r.blocks[b])
      ensures TwoWay(st.blocks[b]) && r.blocks[b].succ0 == st.blocks[b].succ0 {
    }
  }

  lemma PlainGoesOn(st: Gen, s: Stmt, cur: BlockId, scope: set<Symbol>, branch: bool)
    requires Ready(st, cur, scope) && IsPlain(s) && Proper(s, scope, branch)
    ensures var (st', cur') := GenStmt(st, s, cur);
            GoesOn(st, cur, st', cur') && SparesAll(st, st')
    ensures var (st', cur') := GenStmt(st, s, cur);
            && LiveIn(st', cur')
            && Now(st', cur') == Shape(Now(st, cur).temps + LocalOf(s, LineCode(s, st.allocs, st.next)), 0)
  {
    hide AddCode, AllocsOf, Between, EndBranch, ExprCode, ExprsCode, Extends, Gen.Graph, GenNo, GenReturn, GenYes,
      GeneratedCode.Numbered, Good, InPlaceFor, LocalsIn, NotTaken, OnStack, OrderOk, PopPoints.Numbered, Proper,
      SameEdges, Spared, Straight, TempsOk;
    var line, temps := LineCode(s, st.allocs, st.next), Now(st, cur).temps;
    var locals := LocalOf(s, line);
    LinePushes(s, st.allocs, scope, branch, st.next, st.notes.params, temps);
    LineAllocs(s, st.allocs, st.next);
    AfterLineOk(st, cur, line, locals, if s.Let? then s.symbol else 0);
    LineExtends(st, cur, line, locals);
    AfterLineAdds(st, cur, line, locals);
    forall w: BlockId | Waits(st, w) ensures Spared(st, AfterLine(st, cur, line), w) {
      LineSpares(st, cur, line, locals, w);
    }
  }

  lemma PlainCompiled(st: Gen, s: Stmt, cur: BlockId, scope: set<Symbol>, branch: bool)
    requires Ready(st, cur, scope) && IsPlain(s) && Proper(s, scope, branch)
    ensures var (st', cur') := GenStmt(st, s, cur);
            Compiled(st, cur, st', cur', ScopeAfter(s, scope), false, branch)
  {
    var (st', cur') := GenStmt(st, s, cur);
    var line := LineCode(s, st.allocs, st.next);
    PlainGoesOn(st, s, cur, scope, branch);
    LineAllocs(s, st.allocs, st.next);
    PlainNow(st, s, cur, scope, branch);
  }

  /** The stack behind a plain statement. */
  lemma PlainNow(st: Gen, s: Stmt, cur: BlockId, scope: set<Symbol>, branch: bool)
    requires Ready(st, cur, scope) && IsPlain(s) && Proper(s, scope, branch)
    requires var (st', cur') := GenStmt(st, s, cur);
             Now(st', cur') == Shape(Now(st, cur).temps + LocalOf(s, LineCode(s, st.allocs, st.next)), 0)
    ensures var (st', cur') := GenStmt(st, s, cur);
            && OnStack(st'.allocs, ScopeAfter(s, scope), Now(st', cur').temps)
            && (forall t | t in Now(st', cur').temps :: t < st'.next)
            && (branch ==> Now(st', cur') == Now(st, cur))
  {
    hide AddCode, Ahead, AllocsOf, EndBranch, ExprCode, ExprsCode, Gen.Graph, GenNo, GenReturn, GenYes, LocalsIn,
      Lone, OrderOk, Reaches, ShutOk, Straight, TempsOk, Worked;
    var line := LineCode(s, st.allocs, st.next);
    LineAllocs(s, st.allocs, st.next);
    assert Good(st, cur, cur);
    assert Now(st, cur).temps + [] == Now(st, cur).temps;
  }

  // ----- steps between blocks -----

  lemma ClosesExtends(st: Gen, r: Gen, cur: BlockId)
    requires Closes(st, r, cur) && st.blocks[cur].insns <= r.blocks[cur].insns && st.next <= r.next
    ensures Extends(st, r)
  {
    forall b: BlockId | b < |st.blocks| ensures GrownAt(st, r, b) {
      assert b == cur || r.blocks[b] == st.blocks[b];
    }
  }

  lemma ClosesSpares(st: Gen, r: Gen, cur: BlockId, w: BlockId)
    requires Closes(st, r, cur) && Waits(st, w) && w !in Succs(r.blocks[cur]) && cur in st.notes.rank
    ensures Spared(st, r, w)
  {
    assert r.blocks[w] == st.blocks[w];
    assert w in r.notes.parent <==> w in st.notes.parent;
    forall b: BlockId | b < |r.blocks| && TwoWay(r.blocks[b]) && NotTaken(st, w) ensures r.blocks[b].succ0.value != w {
      assert b == cur || r.blocks[b] == st.blocks[b];
      assert r.blocks[b].succ0.value in Succs(r.blocks[b]);
    }
  }

  lemma NewBlockExtends(st: Gen, head: Shape)
    ensures Extends(st, NewBlock(st, head))
  {
    var r := NewBlock(st, head);
    forall b: BlockId | b < |st.blocks| ensures GrownAt(st, r, b) {
      assert r.blocks[b] == st.blocks[b];
    }
  }

  lemma NewBlockSpares(st: Gen, head: Shape, w: BlockId)
    requires Waits(st, w) && |st.notes.heads| == |st.blocks|
    ensures Spared(st, NewBlock(st, head), w)
  {
    var r := NewBlock(st, head);
    forall b: BlockId | b < |r.blocks| && TwoWay(r.blocks[b]) ensures b < |st.blocks| && r.blocks[b] == st.blocks[b] {
    }
  }

  lemma AddBlockExtends(st: Gen, w: BlockId)
    ensures Extends(st, AddBlock(st, w))
  {
    forall b: BlockId | b < |st.blocks| ensures GrownAt(st, AddBlock(st, w), b) {
    }
  }

  lemma AddBlockSpares(st: Gen, x: BlockId, w: BlockId)
    requires Waits(st, w) && |st.notes.heads| == |st.blocks| && w != x
    ensures Spared(st, AddBlock(st, x), w)
  {
    assert NotTaken(st, w) ==> NotTaken(AddBlock(st, x), w);
  }

  lemma NewestNotTaken(st: Gen, cur: BlockId, head: Shape)
    requires GenOk(st, cur)
    ensures NotTaken(NewBlock(st, head), |st.blocks|) && Waits(NewBlock(st, head), |st.blocks|)
    ensures |st.blocks| !in st.notes.parent
  {
    var r := NewBlock(st, head);
    forall b: BlockId | b < |r.blocks| && TwoWay(r.blocks[b]) ensures r.blocks[b].succ0.value != |st.blocks| {
      assert r.blocks[b] == st.blocks[b] && st.blocks[b].succ0.value in Succs(st.blocks[b]);
      SuccessorsCreated(st, cur, b);
    }
    assert |st.blocks| !in st.notes.rank;
  }

  // ----- return -----

  lemma ReturnSteps(st: Gen, e: Expr, cur: BlockId, scope: set<Symbol>)
    requires Ready(st, cur, scope) && Uses(e, scope)
    ensures var p := ExprCode(e, st.allocs, st.next);
            var r := AfterReturn(st, cur, p);
            && GenOk(r, cur) && Closes(st, r, cur) && Extends(st, r) && Frozen(r, cur) && r.blocks[cur].insns != []
            && Succs(r.blocks[cur]) == {EXIT}
  {
    hide AddCode, Ahead, Defines, ExprCode, Extends, Gen.Graph, LocalsIn, Lone, NotTaken, Now, OnStack, OrderOk,
      Reaches, ShutOk, Stacked, Straight, TempsOk, Uses, WithInsn, Worked;
    var p := ExprCode(e, st.allocs, st.next);
    ExprPushes(e, st.allocs, scope, st.next, st.notes.params, Now(st, cur).temps);
    ReturnCloses(st, cur, p);
    AfterReturnIs(st, cur, p, st.next);
    assert Good(st, cur, cur);
    ClosesExtends(st, AfterReturn(st, cur, p), cur);
  }

  lemma ReturnCompiled(st: Gen, e: Expr, cur: BlockId, scope: set<Symbol>, branch: bool)
    requires Ready(st, cur, scope) && Uses(e, scope)
    ensures var (st', cur') := GenReturn(st, e, cur);
            Compiled(st, cur, st', cur', scope, true, branch)
  {
    hide AddCode, AddInsn, Ahead, AllocsOf, Behind, ExprCode, Gen.Graph, GrownAt, Link, LocalsIn, Lone, OnStack,
      OrderOk, Reaches, ShutOk, Straight, TempsOk, Uses, Worked;
    var r, head := AfterReturn(st, cur, ExprCode(e, st.allocs, st.next)), Now(st, cur);
    var n, dead := NewBlock(r, head), |r.blocks|;
    assert Good(st, cur, cur);
    ReturnSteps(st, e, cur, scope);
    NewBlockOk(r, cur, head);
    NewestNotTaken(r, cur, head);
    AddBlockOk(n, cur, dead);
    DeadBlock(st, r, cur, head, scope);
    forall w: BlockId | Waits(st, w) ensures Spared(st, AddBlock(n, dead), w) {
      ClosesSpares(st, r, cur, w);
      NewBlockSpares(r, head, w);
      AddBlockSpares(n, dead, w);
    }
  }

  /** The block behind a return statement cannot be reached. */
  lemma DeadBlock(st: Gen, r: Gen, cur: BlockId, head: Shape, scope: set<Symbol>)
    requires Ready(st, cur, scope) && head == Now(st, cur) && Extends(st, r) && |r.notes.heads| == |r.blocks|
    requires r.allocs == st.allocs && |r.blocks| !in r.notes.parent
    ensures var n, dead := NewBlock(r, head), |r.blocks|;
            && Extends(st, AddBlock(n, dead)) && Behind(AddBlock(n, dead), dead, scope, true)
            && Now(AddBlock(n, dead), dead) == head && !Frozen(AddBlock(n, dead), dead)
  {
    var n, dead := NewBlock(r, head), |r.blocks|;
    NewBlockExtends(r, head);
    AddBlockExtends(n, dead);
    ExtendsTransitive(st, r, n);
    ExtendsTransitive(st, n, AddBlock(n, dead));
  }

  // ----- conditionals -----

  /** A block that waits to be added, with nothing in it. */
  ghost predicate Awaits(st: Gen, w: BlockId, head: Shape) {
    && Waits(st, w) && st.blocks[w] == Block([], None, None) && NotTaken(st, w)
    && |st.notes.heads| == |st.blocks| && st.notes.heads[w] == head
  }

  lemma AwaitsStill(st: Gen, st': Gen, w: BlockId, head: Shape)
    requires Awaits(st, w, head) && Spared(st, st', w) && |st'.notes.heads| == |st'.blocks|
    ensures Awaits(st', w, head)
  {
  }

  /** A condition has been compiled, and its first branch is about to be. */
  ghost predicate Opened(st: Gen, cur: BlockId, st1: Gen, scope: set<Symbol>, no: bool) {
    var yes, head := |st.blocks|, Now(st, cur);
    && Ready(st1, yes, scope) && Extends(st, st1) && SparesAll(st, st1) && Now(st1, yes) == head
    && |st1.blocks| == yes + (if no then 3 else 2) && cur < yes && st1.blocks[cur].insns != []
    && Awaits(st1, yes + 1, head) && yes + 1 in st1.notes.parent
    && (no ==> Awaits(st1, yes + 2, head) && yes + 2 !in st1.notes.parent)
  }

  lemma ConditionSteps(st: Gen, c: Expr, cur: BlockId, scope: set<Symbol>, no: bool)
    requires Ready(st, cur, scope) && Uses(c, scope)
    ensures var w, r := WithBranches(st, Now(st, cur), no), GenCondition(st, c, cur, no);
            && GenOk(r, cur) && Closes(w, r, cur) && Prepared(st, w, cur)
            && Conditioned(st, w, r, cur, ExprCode(c, st.allocs, st.next))
            && st.next <= r.next && r.allocs == st.allocs && r.notes.params == st.notes.params
  {
    ExprPushes(c, st.allocs, scope, st.next, st.notes.params, Now(st, cur).temps);
    ConditionOk(st, c, cur, no);
    BranchesPrepared(st, cur, no);
    ConditionIs(st, c, cur, no, st.notes.params, Now(st, cur).temps);
  }

  lemma WithBranchesExtends(st: Gen, head: Shape, no: bool)
    requires |st.notes.heads| == |st.blocks|
    ensures Extends(st, WithBranches(st, head, no)) && SparesAll(st, WithBranches(st, head, no))
  {
    var n1 := NewBlock(st, head);
    var n2 := NewBlock(n1, head);
    NewBlockExtends(st, head);
    NewBlockExtends(n1, head);
    NewBlockExtends(n2, head);
    ExtendsTransitive(st, n1, n2);
    ExtendsTransitive(st, n2, NewBlock(n2, head));
    forall w: BlockId | Waits(st, w) ensures Spared(st, WithBranches(st, head, no), w) {
      NewBlockSpares(st, head, w);
      NewBlockSpares(n1, head, w);
      NewBlockSpares(n2, head, w);
    }
  }

  lemma ConditionExtends(st: Gen, w: Gen, r: Gen, cur: BlockId, p: Piece)
    requires Closes(w, r, cur) && Conditioned(st, w, r, cur, p) && Extends(st, w) && w.next <= r.next
    ensures Extends(st, r) && r.blocks[cur].insns != []
  {
    ClosesExtends(w, r, cur);
    ExtendsTransitive(st, w, r);
  }

  lemma BranchAwaits(st: Gen, w: Gen, r: Gen, cur: BlockId, p: Piece, t: BlockId)
    requires Closes(w, r, cur) && Conditioned(st, w, r, cur, p) && |w.notes.heads| == |w.blocks|
    requires START < |st.blocks| < t < |w.blocks| && t !in w.notes.rank && NotTaken(w, t)
    requires w.blocks[t] == Block([], None, None)
    ensures Awaits(r, t, w.notes.heads[t])
  {
    assert r.blocks[t] == w.blocks[t];
    forall b: BlockId | b < |r.blocks| && TwoWay(r.blocks[b]) ensures r.blocks[b].succ0.value != t {
      assert b == cur || r.blocks[b] == w.blocks[b];
    }
  }

  lemma BranchReady(st: Gen, w: Gen, r: Gen, cur: BlockId, p: Piece, scope: set<Symbol>)
    requires Ready(st, cur, scope) && GenOk(r, cur) && Closes(w, r, cur) && Prepared(st, w, cur)
    requires Conditioned(st, w, r, cur, p) && st.next <= r.next && r.allocs == st.allocs
             && r.notes.params == st.notes.params
    requires w.blocks[|st.blocks|] == Block([], None, None)
    ensures Ready(AddBlock(r, |st.blocks|), |st.blocks|, scope)
    ensures Now(AddBlock(r, |st.blocks|), |st.blocks|) == Now(st, cur)
  {
    var yes := |st.blocks|;
    assert OrderOk(st) && r.blocks[yes] == w.blocks[yes];
    assert yes in r.notes.parent;
    AddBlockOk(r, cur, yes);
  }

  lemma BranchSpares(st: Gen, w: Gen, r: Gen, cur: BlockId, p: Piece, x: BlockId)
    requires GenOk(st, cur) && Closes(w, r, cur) && Conditioned(st, w, r, cur, p) && Waits(st, x) && Spared(st, w, x)
    requires w.notes.rank == st.notes.rank && |r.notes.heads| == |r.blocks|
    ensures Spared(st, AddBlock(r, |st.blocks|), x)
  {
    assert Succs(r.blocks[cur]) == {|st.blocks|, |st.blocks| + 1};
    ClosesSpares(w, r, cur, x);
    AddBlockSpares(r, |st.blocks|, x);
    SparedTransitive(st, w, r, x);
    SparedTransitive(st, r, AddBlock(r, |st.blocks|), x);
  }

  lemma OpenBranch(st: Gen, c: Expr, cur: BlockId, scope: set<Symbol>, no: bool)
    requires Ready(st, cur, scope) && Uses(c, scope)
    ensures Opened(st, cur, AddBlock(GenCondition(st, c, cur, no), |st.blocks|), scope, no)
  {
    var w, r, p, yes := WithBranches(st, Now(st, cur), no), GenCondition(st, c, cur, no),
      ExprCode(c, st.allocs, st.next), |st.blocks|;
    ConditionSteps(st, c, cur, scope, no);
    WithBranchesIs(st, Now(st, cur), no);
    WithBranchesExtends(st, Now(st, cur), no);
    FreshNotTaken(st, cur, Now(st, cur), no, yes + 2);
    BranchOpened(st, w, r, cur, p, scope, no);
  }

  lemma BranchOpened(st: Gen, w: Gen, r: Gen, cur: BlockId, p: Piece, scope: set<Symbol>, no: bool)
    requires Ready(st, cur, scope) && GenOk(r, cur) && Closes(w, r, cur) && Prepared(st, w, cur)
    requires Conditioned(st, w, r, cur, p) && st.next <= r.next && r.allocs == st.allocs
             && r.notes.params == st.notes.params
    requires Extends(st, w) && SparesAll(st, w) && |w.blocks| == |st.blocks| + (if no then 3 else 2)
    requires forall b: BlockId | |st.blocks| <= b < |w.blocks| :: w.blocks[b] == Block([], None, None)
    requires forall b: BlockId | |st.blocks| <= b < |w.blocks| :: w.notes.heads[b] == Now(st, cur)
    requires NotTaken(w, |st.blocks| + 2)
    ensures Opened(st, cur, AddBlock(r, |st.blocks|), scope, no)
  {
    hide Analysis.Prepared, Distinct, Extends, Gen.Graph, Good, LocalsIn, Now, OnStack, SparesAll, TempsOk;
    var yes := |st.blocks|;
    BranchReady(st, w, r, cur, p, scope);
    BranchGrows(st, w, r, cur, p);
    BranchesAwait(st, w, r, cur, p, yes + 1);
    if no { BranchesAwait(st, w, r, cur, p, yes + 2); }
    assert yes + 1 in r.notes.parent;
  }

  lemma BranchGrows(st: Gen, w: Gen, r: Gen, cur: BlockId, p: Piece)
    requires GenOk(st, cur) && Closes(w, r, cur) && Conditioned(st, w, r, cur, p) && st.next <= r.next
    requires Extends(st, w) && SparesAll(st, w) && w.notes.rank == st.notes.rank && |r.notes.heads| == |r.blocks|
    requires w.next == st.next
    ensures Extends(st, AddBlock(r, |st.blocks|)) && SparesAll(st, AddBlock(r, |st.blocks|))
            && r.blocks[cur].insns != []
  {
    var yes := |st.blocks|;
    ConditionExtends(st, w, r, cur, p);
    AddBlockExtends(r, yes);
    ExtendsTransitive(st, r, AddBlock(r, yes));
    forall x: BlockId | Waits(st, x) ensures Spared(st, AddBlock(r, yes), x) {
      BranchSpares(st, w, r, cur, p, x);
    }
  }

  lemma BranchesAwait(st: Gen, w: Gen, r: Gen, cur: BlockId, p: Piece, t: BlockId)
    requires GenOk(st, cur) && Closes(w, r, cur) && Conditioned(st, w, r, cur, p) && Prepared(st, w, cur)
    requires |st.blocks| < t < |w.blocks| && (t == |st.blocks| + 1 || NotTaken(w, t))
    requires w.blocks[t] == Block([], None, None) && w.notes.heads[t] == Now(st, cur) && |r.notes.heads| == |r.blocks|
    ensures Awaits(AddBlock(r, |st.blocks|), t, Now(st, cur))
  {
    assert OrderOk(st) && t !in w.notes.rank;
    BranchAwaits(st, w, r, cur, p, t);
    AddBlockSpares(r, |st.blocks|, t);
  }

  /** What is behind a branch: block `x` comes next, and `join` is reached if the end of the branch is. */
  ghost predicate Joined(st2: Gen, b: BlockId, r: Gen, join: BlockId, x: BlockId, head: Shape) {
    && GenOk(r, x) && x < |r.blocks| == |st2.blocks| && Extends(st2, r) && r.blocks[x] == Block([], None, None)
    && NotTaken(r, x) && Now(r, x) == head && r.allocs == st2.allocs && r.next == st2.next
    && (x != join ==> Awaits(r, join, head))
    && (forall t: BlockId :: t in r.notes.parent <==> t in st2.notes.parent || (t == join && LiveIn(st2, b)))
    && forall w: BlockId {:trigger Spared(st2, r, w)} | Waits(st2, w) && w != join && w != x :: Spared(st2, r, w)
  }

  lemma LinkedAwaits(st2: Gen, b: BlockId, st3: Gen, join: BlockId, x: BlockId, head: Shape)
    requires Closes(st2, st3, b) && Awaits(st2, x, head) && b in st2.notes.rank && Succs(st3.blocks[b]) == {join}
    requires st3.blocks[b].succ1.None?
    ensures Awaits(st3, x, head)
  {
    assert st3.blocks[x] == st2.blocks[x];
    forall c: BlockId | c < |st3.blocks| && TwoWay(st3.blocks[c]) ensures c != b && st3.blocks[c] == st2.blocks[c] {
    }
  }

  lemma CloseBranch(st2: Gen, b: BlockId, join: BlockId, x: BlockId, head: Shape)
    requires GenOk(st2, b) && START < b < |st2.blocks| && !Frozen(st2, b)
    requires st2.blocks[b].insns != [] || NotTaken(st2, b)
    requires Awaits(st2, join, head) && Awaits(st2, x, head) && Now(st2, b) == head
    ensures Joined(st2, b, EndBranch(st2, b, join, x), join, x, head)
  {
    hide Ahead, Gen.Graph, GrownAt, Lone, NotTaken, Now, OrderOk, Reaches, ShutOk, Stacked, Straight, TempsOk;
    var st3 := AfterLink(st2, b, join);
    assert Good(st2, b, b);
    LinkOk(st2, b, join);
    assert Succs(st3.blocks[b]) == {join};
    LinkedAwaits(st2, b, st3, join, x, head);
    LinkedAwaits(st2, b, st3, join, join, head);
    LinkedNotTaken(st2, b, st3);
    AddBlockOk(st3, b, x);
    ClosesExtends(st2, st3, b);
    AddBlockExtends(st3, x);
    ExtendsTransitive(st2, st3, AddBlock(st3, x));
    if x != join { AddBlockSpares(st3, x, join); }
    forall w: BlockId | Waits(st2, w) && w != join && w != x ensures Spared(st2, AddBlock(st3, x), w) {
      ClosesSpares(st2, st3, b, w);
      AddBlockSpares(st3, x, w);
    }
    LinkedNow(st3, x, head);
  }

  lemma LinkedNow(st3: Gen, x: BlockId, head: Shape)
    requires Awaits(st3, x, head)
    ensures Now(AddBlock(st3, x), x) == head && NotTaken(AddBlock(st3, x), x)
  {
  }

  lemma LinkedNotTaken(st2: Gen, b: BlockId, st3: Gen)
    requires Closes(st2, st3, b) && st3.blocks[b].succ1.None? && st3.blocks[b].insns == st2.blocks[b].insns
    requires st2.blocks[b].insns != [] || NotTaken(st2, b)
    ensures st3.blocks[b].insns != [] || NotTaken(st3, b)
  {
    forall c: BlockId | c < |st3.blocks| && TwoWay(st3.blocks[c]) ensures c != b && st3.blocks[c] == st2.blocks[c] {
    }
  }

  // ----- all statements -----

  lemma {:induction false} BranchScope(ss: seq<Stmt>, scope: set<Symbol>)
    requires ProperAll(ss, scope, true)
    ensures ScopeAfterAll(ss, scope) == scope
  {
    if ss != [] { BranchScope(ss[..|ss| - 1], scope); }
  }

  /** The end of an `if` without `else`. */
  lemma IfJoined(
      st: Gen, cur: BlockId, st1: Gen, st2: Gen, b: BlockId, r: Gen, scope: set<Symbol>, ends: bool, branch: bool)
    requires START < |st.blocks| && Opened(st, cur, st1, scope, false)
    requires Compiled(st1, |st.blocks|, st2, b, scope, ends, true)
    requires Joined(st2, b, r, |st.blocks| + 1, |st.blocks| + 1, Now(st, cur))
    ensures Compiled(st, cur, r, |st.blocks| + 1, scope, false, branch)
  {
    hide Gen.Graph, Good, LocalsIn, NotTaken, Now, OnStack, OrderOk, TempsOk;
    var join := |st.blocks| + 1;
    ExtendsTransitive(st, st1, st2);
    ExtendsTransitive(st, st2, r);
    assert Spared(st1, st2, join);
    assert GrownAt(st1, r, cur) by { ExtendsTransitive(st1, st2, r); }
    forall w: BlockId | Waits(st, w) ensures Spared(st, r, w) {
      assert Spared(st, st1, w) && Spared(st1, st2, w) && Spared(st2, r, w);
      SparedTransitive(st, st1, st2, w);
      SparedTransitive(st, st2, r, w);
    }
  }

  /** The second branch starts with the stack that the first one started with. */
  lemma ElseReady(st: Gen, cur: BlockId, st1: Gen, st2: Gen, b: BlockId, st3: Gen, scope: set<Symbol>, ends: bool)
    requires START < |st.blocks| && Opened(st, cur, st1, scope, true)
    requires Compiled(st1, |st.blocks|, st2, b, scope, ends, true)
    requires Joined(st2, b, st3, |st.blocks| + 2, |st.blocks| + 1, Now(st, cur))
    ensures Ready(st3, |st.blocks| + 1, scope)
    ensures |st.blocks| + 2 in st3.notes.parent <==> !ends
  {
    hide GenOk;
    assert Spared(st1, st2, |st.blocks| + 1) && Spared(st1, st2, |st.blocks| + 2);
  }

  lemma ElseExtends(st: Gen, cur: BlockId, st1: Gen, st2: Gen, st3: Gen, st4: Gen, r: Gen)
    requires Extends(st, st1) && Extends(st1, st2) && Extends(st2, st3) && Extends(st3, st4) && Extends(st4, r)
    requires cur < |st.blocks| && st1.blocks[cur].insns != []
    ensures Extends(st, r) && r.blocks[cur].insns != []
  {
    ExtendsTransitive(st1, st2, st3);
    ExtendsTransitive(st3, st4, r);
    ExtendsTransitive(st1, st3, r);
    ExtendsTransitive(st, st1, r);
    assert GrownAt(st1, r, cur);
  }

  lemma ElseSpares(
      st: Gen, cur: BlockId, st1: Gen, st2: Gen, b: BlockId, st3: Gen, st4: Gen, d: BlockId, r: Gen, w: BlockId)
    requires SparesAll(st, st1) && SparesAll(st1, st2) && SparesAll(st3, st4) && Waits(st, w)
    requires Joined(st2, b, st3, |st.blocks| + 2, |st.blocks| + 1, Now(st, cur))
    requires Joined(st4, d, r, |st.blocks| + 2, |st.blocks| + 2, Now(st, cur))
    ensures Spared(st, r, w)
  {
    assert Spared(st, st1, w) && Spared(st1, st2, w) && Spared(st2, st3, w) && Spared(st3, st4, w) && Spared(st4, r, w);
    SparedTransitive(st, st1, st2, w);
    SparedTransitive(st, st2, st3, w);
    SparedTransitive(st, st3, st4, w);
    SparedTransitive(st, st4, r, w);
  }

  /** The end of an `if` with `else`. */
  lemma ElseBehind(
      st: Gen, cur: BlockId, st1: Gen, st2: Gen, b: BlockId, st3: Gen, st4: Gen, d: BlockId, r: Gen, scope: set<Symbol>,
      e1: bool, e2: bool)
    requires START < |st.blocks| && Opened(st, cur, st1, scope, true)
    requires Compiled(st1, |st.blocks|, st2, b, scope, e1, true)
    requires Joined(st2, b, st3, |st.blocks| + 2, |st.blocks| + 1, Now(st, cur))
    requires Compiled(st3, |st.blocks| + 1, st4, d, scope, e2, true)
    requires Joined(st4, d, r, |st.blocks| + 2, |st.blocks| + 2, Now(st, cur))
    ensures Behind(r, |st.blocks| + 2, scope, e1 && e2)
  {
    hide FrameOk, Frozen, Gen.Graph, Good, GrownAt, LocalsIn, NotTaken, Now, OnStack, OrderOk, TempsOk;
    ElseReady(st, cur, st1, st2, b, st3, scope, e1);
    assert Spared(st3, st4, |st.blocks| + 2);
  }

  lemma ElseJoined(
      st: Gen, cur: BlockId, st1: Gen, st2: Gen, b: BlockId, st3: Gen, st4: Gen, d: BlockId, r: Gen, scope: set<Symbol>,
      e1: bool, e2: bool, branch: bool)
    requires START < |st.blocks| && Opened(st, cur, st1, scope, true)
    requires Compiled(st1, |st.blocks|, st2, b, scope, e1, true)
    requires Joined(st2, b, st3, |st.blocks| + 2, |st.blocks| + 1, Now(st, cur))
    requires Compiled(st3, |st.blocks| + 1, st4, d, scope, e2, true)
    requires Joined(st4, d, r, |st.blocks| + 2, |st.blocks| + 2, Now(st, cur))
    ensures Compiled(st, cur, r, |st.blocks| + 2, scope, e1 && e2, branch)
  {
    ElseBehind(st, cur, st1, st2, b, st3, st4, d, r, scope, e1, e2);
    ElseExtends(st, cur, st1, st2, st3, st4, r);
    forall w: BlockId | Waits(st, w) ensures Spared(st, r, w) {
      ElseSpares(st, cur, st1, st2, b, st3, st4, d, r, w);
    }
  }

  /** Statements that control gets past leave everything ready for the next one. */
  lemma ReadyAgain(st: Gen, cur: BlockId, st': Gen, cur': BlockId, scope: set<Symbol>, branch: bool)
    requires Compiled(st, cur, st', cur', scope, false, branch)
    ensures Ready(st', cur', scope)
  {
  }

  lemma OneAfterAnother(
      st: Gen, cur: BlockId, st1: Gen, cur1: BlockId, st2: Gen, cur2: BlockId, s1: set<Symbol>, s2: set<Symbol>,
      ends: bool, branch: bool)
    requires Compiled(st, cur, st1, cur1, s1, false, branch) && Compiled(st1, cur1, st2, cur2, s2, ends, branch)
    ensures Compiled(st, cur, st2, cur2, s2, ends, branch)
  {
    ExtendsTransitive(st, st1, st2);
    assert GrownAt(st1, st2, cur);
    forall w: BlockId | Waits(st, w) ensures Spared(st, st2, w) {
      assert Spared(st, st1, w) && Spared(st1, st2, w);
      SparedTransitive(st, st1, st2, w);
    }
  }

  /** Compiling a statement keeps the graph as it should be. */
  lemma {:induction false} StmtCompiled(st: Gen, s: Stmt, cur: BlockId, scope: set<Symbol>, branch: bool)
    requires Ready(st, cur, scope) && Proper(s, scope, branch)
    ensures Compiled(st, cur, GenStmt(st, s, cur).0, GenStmt(st, s, cur).1, ScopeAfter(s, scope), Ends(s), branch)
    decreases s, 2
  {
    match s
    case If(_, _, NoElse) => IfCompiled(st, s, cur, scope, branch);
    case If(_, _, Else(_)) => ElseCompiled(st, s, cur, scope, branch);
    case ReturnValue(e) => ReturnCompiled(st, e, cur, scope, branch);
    case _ => PlainCompiled(st, s, cur, scope, branch);
  }

  /** The first branch of an `if`. */
  ghost predicate FirstDone(
      st: Gen, cur: BlockId, st1: Gen, st2: Gen, b: BlockId, scope: set<Symbol>, ends: bool, no: bool)
  {
    START < |st.blocks| && Opened(st, cur, st1, scope, no) && Compiled(st1, |st.blocks|, st2, b, scope, ends, true)
  }

  /** The state in which the first branch is generated. */
  function OpenedFor(st: Gen, s: Stmt, cur: BlockId): Gen
    requires cur < |st.blocks| && s.If?
  {
    AddBlock(GenCondition(st, s.condition, cur, s.no.Else?), |st.blocks|)
  }

  lemma {:induction false} FirstBranch(
      st: Gen, s: Stmt, cur: BlockId, scope: set<Symbol>, branch: bool)
    returns (st1: Gen)
    requires s.If? && Ready(st, cur, scope) && Proper(s, scope, branch)
    ensures st1 == OpenedFor(st, s, cur)
    ensures FirstDone(st, cur, st1, GenYes(st, s, cur).0, GenYes(st, s, cur).1, scope, EndsAll(s.yes), s.no.Else?)
    decreases s, 0
  {
    st1 := AddBlock(GenCondition(st, s.condition, cur, s.no.Else?), |st.blocks|);
    OpenBranch(st, s.condition, cur, scope, s.no.Else?);
    BranchCompiled(st1, s.yes, |st.blocks|, scope, GenYes(st, s, cur).0, GenYes(st, s, cur).1);
  }

  lemma IfDone(
      st: Gen, cur: BlockId, st1: Gen, st2: Gen, b: BlockId, r: Gen, scope: set<Symbol>, ends: bool, branch: bool)
    requires FirstDone(st, cur, st1, st2, b, scope, ends, false)
             && r == EndBranch(st2, b, |st.blocks| + 1, |st.blocks| + 1)
    ensures Compiled(st, cur, r, |st.blocks| + 1, scope, false, branch)
  {
    hide Awaits, Behind, Frozen, Gen.Graph, Good, GrownAt, NotTaken, OrderOk, Spared, SparesAll, TempsOk;
    BranchCloses(st, cur, st1, st2, b, scope, ends, false, |st.blocks| + 1);
    IfJoined(st, cur, st1, st2, b, r, scope, ends, branch);
  }

  lemma IfIs(st: Gen, s: Stmt, cur: BlockId)
    requires s.If? && cur < |st.blocks|
    ensures GenYes(st, s, cur) == GenStmts(AddBlock(GenCondition(st, s.condition, cur, s.no.Else?), |st.blocks|), s.yes,
            |st.blocks|)
    ensures var (st2, b) := GenYes(st, s, cur);
            s.no.NoElse? ==>
              GenStmt(st, s, cur) == (EndBranch(st2, b, |st.blocks| + 1, |st.blocks| + 1), |st.blocks| + 1)
  {
  }

  lemma NoIs(st: Gen, s: Stmt, cur: BlockId, st2: Gen, b: BlockId)
    requires s.If? && s.no.Else? && cur < |st.blocks| && (st2, b) == GenYes(st, s, cur)
    ensures GenNo(st, s, cur) == GenStmts(EndBranch(st2, b, |st.blocks| + 2, |st.blocks| + 1), s.no.stmts,
            |st.blocks| + 1)
  {
  }

  lemma ElseIs(st: Gen, s: Stmt, cur: BlockId)
    requires s.If? && s.no.Else? && cur < |st.blocks|
    ensures var (st4, d) := GenNo(st, s, cur);
            GenStmt(st, s, cur) == (EndBranch(st4, d, |st.blocks| + 2, |st.blocks| + 2), |st.blocks| + 2)
  {
  }

  lemma {:induction false} IfCompiled(st: Gen, s: Stmt, cur: BlockId, scope: set<Symbol>, branch: bool)
    requires s.If? && s.no.NoElse? && cur < |st.blocks| && Ready(st, cur, scope) && Proper(s, scope, branch)
    ensures Compiled(st, cur, GenStmt(st, s, cur).0, GenStmt(st, s, cur).1, scope, false, branch)
    decreases s, 1
  {
    hide *;
    var st1 := FirstBranch(st, s, cur, scope, branch);
    IfIs(st, s, cur);
    IfDone(st, cur, st1, GenYes(st, s, cur).0, GenYes(st, s, cur).1, GenStmt(st, s, cur).0, scope, EndsAll(s.yes),
      branch);
  }

  /** The end of the first branch. */
  lemma BranchCloses(
      st: Gen, cur: BlockId, st1: Gen, st2: Gen, b: BlockId, scope: set<Symbol>, ends: bool, no: bool, join: BlockId)
    requires START < |st.blocks| && Opened(st, cur, st1, scope, no) && join == |st.blocks| + if no then 2 else 1
    requires Compiled(st1, |st.blocks|, st2, b, scope, ends, true)
    ensures Joined(st2, b, EndBranch(st2, b, join, |st.blocks| + 1), join, |st.blocks| + 1, Now(st, cur))
  {
    hide Behind, EndBranch, Frozen, Good, GrownAt, Joined, NotTaken, Now, OrderOk, TempsOk;
    assert Spared(st1, st2, |st.blocks| + 1) && Spared(st1, st2, join);
    AwaitsStill(st1, st2, |st.blocks| + 1, Now(st, cur));
    AwaitsStill(st1, st2, join, Now(st, cur));
    CloseBranch(st2, b, join, |st.blocks| + 1, Now(st, cur));
  }

  /** The second branch of an `if` can be compiled behind the first. */
  lemma FirstToSecond(st: Gen, cur: BlockId, st1: Gen, st2: Gen, b: BlockId, scope: set<Symbol>, ends: bool)
    requires FirstDone(st, cur, st1, st2, b, scope, ends, true)
    ensures var st3 := EndBranch(st2, b, |st.blocks| + 2, |st.blocks| + 1);
            Joined(st2, b, st3, |st.blocks| + 2, |st.blocks| + 1, Now(st, cur)) && Ready(st3, |st.blocks| + 1, scope)
  {
    BranchCloses(st, cur, st1, st2, b, scope, ends, true, |st.blocks| + 2);
    ElseReady(st, cur, st1, st2, b, EndBranch(st2, b, |st.blocks| + 2, |st.blocks| + 1), scope, ends);
  }

  ghost predicate SecondDone(
      st: Gen, cur: BlockId, st2: Gen, b: BlockId, st3: Gen, st4: Gen, d: BlockId, scope: set<Symbol>, ends: bool)
  {
    && START < |st.blocks| && Joined(st2, b, st3, |st.blocks| + 2, |st.blocks| + 1, Now(st, cur))
    && Compiled(st3, |st.blocks| + 1, st4, d, scope, ends, true)
  }

  lemma {:induction false} BranchCompiled(
      st3: Gen, ss: seq<Stmt>, first: BlockId, scope: set<Symbol>, st4: Gen, d: BlockId)
    requires Ready(st3, first, scope) && ProperAll(ss, scope, true) && ss != [] && (st4, d) == GenStmts(st3, ss, first)
    ensures Compiled(st3, first, st4, d, scope, EndsAll(ss), true)
    decreases ss, 3
  {
    StmtsCompiled(st3, ss, first, scope, true);
    BranchScope(ss, scope);
  }

  lemma ElseDone(
      st: Gen, cur: BlockId, st1: Gen, st2: Gen, b: BlockId, st3: Gen, st4: Gen, d: BlockId, r: Gen, scope: set<Symbol>,
      e1: bool, e2: bool, branch: bool)
    requires FirstDone(st, cur, st1, st2, b, scope, e1, true) && SecondDone(st, cur, st2, b, st3, st4, d, scope, e2)
    requires r == EndBranch(st4, d, |st.blocks| + 2, |st.blocks| + 2)
    ensures Compiled(st, cur, r, |st.blocks| + 2, scope, e1 && e2, branch)
  {
    ElseCloses(st, cur, st2, b, st3, st4, d, scope, e2);
    ElseJoined(st, cur, st1, st2, b, st3, st4, d, r, scope, e1, e2, branch);
  }

  lemma {:induction false} SecondBranch(
      st: Gen, s: Stmt, cur: BlockId, st1: Gen, st2: Gen, b: BlockId, scope: set<Symbol>) returns (st3: Gen)
    requires s.If? && s.no.Else? && cur < |st.blocks| && (st2, b) == GenYes(st, s, cur)
    requires ProperAll(s.no.stmts, scope, true) && s.no.stmts != []
    requires FirstDone(st, cur, st1, st2, b, scope, EndsAll(s.yes), true)
    ensures SecondDone(st, cur, st2, b, st3, GenNo(st, s, cur).0, GenNo(st, s, cur).1, scope, EndsAll(s.no.stmts))
    ensures st3 == EndBranch(st2, b, |st.blocks| + 2, |st.blocks| + 1)
    decreases s, 0
  {
    hide Compiled, Joined, Ready, Opened, EndBranch, EndsAll, GenNo, GenStmts, GenYes, Now, ProperAll;
    st3 := EndBranch(st2, b, |st.blocks| + 2, |st.blocks| + 1);
    FirstToSecond(st, cur, st1, st2, b, scope, EndsAll(s.yes));
    NoIs(st, s, cur, st2, b);
    BranchCompiled(st3, s.no.stmts, |st.blocks| + 1, scope, GenNo(st, s, cur).0, GenNo(st, s, cur).1);
  }

  lemma {:induction false} ElseCompiled(st: Gen, s: Stmt, cur: BlockId, scope: set<Symbol>, branch: bool)
    requires s.If? && s.no.Else? && cur < |st.blocks| && Ready(st, cur, scope) && Proper(s, scope, branch)
    requires ProperAll(s.no.stmts, scope, true) && s.no.stmts != []
    ensures Compiled(st, cur, GenStmt(st, s, cur).0, GenStmt(st, s, cur).1, scope, EndsAll(s.yes)
            && EndsAll(s.no.stmts), branch)
    decreases s, 1
  {
    hide *;
    var x, y, z := GenYes(st, s, cur), GenNo(st, s, cur), GenStmt(st, s, cur);
    var st1 := FirstBranch(st, s, cur, scope, branch);
    var st3 := SecondBranch(st, s, cur, st1, x.0, x.1, scope);
    ElseIs(st, s, cur);
    ElseDone(st, cur, st1, x.0, x.1, st3, y.0, y.1, z.0, scope, EndsAll(s.yes), EndsAll(s.no.stmts), branch);
  }

  /** The end of the second branch. */
  lemma ElseCloses(
      st: Gen, cur: BlockId, st2: Gen, b: BlockId, st3: Gen, st4: Gen, d: BlockId, scope: set<Symbol>, ends: bool)
    requires START < |st.blocks| && Joined(st2, b, st3, |st.blocks| + 2, |st.blocks| + 1, Now(st, cur))
    requires Compiled(st3, |st.blocks| + 1, st4, d, scope, ends, true)
    ensures Joined(st4, d, EndBranch(st4, d, |st.blocks| + 2, |st.blocks| + 2),
                   |st.blocks| + 2, |st.blocks| + 2, Now(st, cur))
  {
    assert Spared(st3, st4, |st.blocks| + 2);
    AwaitsStill(st3, st4, |st.blocks| + 2, Now(st, cur));
    CloseBranch(st4, d, |st.blocks| + 2, |st.blocks| + 2, Now(st, cur));
  }

  lemma {:induction false} StmtsCompiled(st: Gen, ss: seq<Stmt>, cur: BlockId, scope: set<Symbol>, branch: bool)
    requires Ready(st, cur, scope) && ProperAll(ss, scope, branch) && ss != []
    ensures Compiled(st, cur, GenStmts(st, ss, cur).0, GenStmts(st, ss, cur).1, ScopeAfterAll(ss, scope), EndsAll(ss),
            branch)
    decreases ss, 2
  {
    var before, last := ss[..|ss| - 1], ss[|ss| - 1];
    var (st1, cur1) := GenStmts(st, before, cur);
    var scope1 := ScopeAfterAll(before, scope);
    if before != [] {
      StmtsCompiled(st, before, cur, scope, branch);
      ReadyAgain(st, cur, st1, cur1, scope1, branch);
    }
    StmtCompiled(st1, last, cur1, scope1, branch);
    var (st2, cur2) := GenStmt(st1, last, cur1);
    if before != [] {
      OneAfterAnother(st, cur, st1, cur1, st2, cur2, scope1, ScopeAfter(last, scope1), Ends(last), branch);
    }
  }
}
