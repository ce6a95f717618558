/** The stack code of a whole function computes what its graph computes. */
module FunctionCode {
  import opened Options
  import opened Ir
  import opened Layout
  import opened LayoutFacts
  import opened Listings
  import opened LayoutTheorems
  import opened Machine
  import opened StackShape
  import opened Execution

  // ----- every block starts out owing its pops -----

  ghost predicate Owing(kills: map<BlockId, nat>, v: View) {
    forall b {:trigger v.sites[b]} | b in v.sites :: b in kills && v.sites[b].start.kills == kills[b]
  }

  lemma {:induction false} PlaceOwes(g: Graph, kills: map<BlockId, nat>, v: View, s: Option<BlockId>, offset: int)
    requires WellFormed(g) && ValidSucc(g, s) && kills.Keys == BlockIds(g) && Tidy(g, v) && Owing(kills, v)
    ensures Owing(kills, Place(g, kills, v, s, offset))
    decreases BlockIds(g) - v.placed
  {
    if s.Some? && s.value !in v.placed && s.value != g.exit {
      var b := s.value;
      var v1 := PlaceBlock(g, kills, v, b, offset);
      var after := v1.sites[b].end.offset;
      assert b in BlockIds(g) - v.placed && b !in BlockIds(g) - v1.placed;
      PlaceOwes(g, kills, v1, g.blocks[b].succ0, after);
      PlaceOwes(g, kills, Place(g, kills, v1, g.blocks[b].succ0, after), g.blocks[b].succ1, after);
    }
  }

  lemma {:induction false} OwesUntil(g: Graph, v: View, b: BlockId, n: nat)
    requires Laid(g, v, b) && n <= |g.blocks[b].insns|
    requires forall j | 0 <= j < n :: !LeadsWithPops(g.blocks[b].insns[j])
    ensures v.sites[b].cursors[n].kills == v.sites[b].start.kills
  {
    if n > 0 {
      OwesUntil(g, v, b, n - 1);
      assert Stepped(g.blocks[b], b, v.sites[b], n - 1);
      StepShape(b, n - 1, g.blocks[b].insns[n - 1], v.sites[b].cursors[n - 1], v.sites[b].cursors[n]);
    }
  }

  // ----- a framed layout is a stocked listing -----

  ghost predicate AllShaped(g: Graph, shapes: Shapes, params: nat, kills: map<BlockId, nat>, blocks: set<BlockId>) {
    forall b {:trigger ShapedBlock(g, shapes, params, kills, b)} | b in blocks && b < |g.blocks| ::
      b in kills && ShapedBlock(g, shapes, params, kills, b)
  }

  lemma BlockStocked(g: Graph, shapes: Shapes, kills: map<BlockId, nat>, v: View, b: BlockId, i: nat)
    requires Faithful(g, v) && b in v.placed && Owing(kills, v) && Framed(shapes, v, b)
    requires b < |g.blocks| && i <= |g.blocks[b].insns| && Reached(g, b, i) && b in kills
    ensures StockedAt(g, shapes, kills, ListingOf(g, v), b, i)
  {
    LaidBlock(g, v, b);
    assert WellFormedBlock(g.blocks[b]);
    OwesUntil(g, v, b, i);
    if i + 1 < |shapes[b]| { assert FramedAt(shapes[b][i + 1], v.sites[b].cursors[i + 1]); }
  }

  lemma LayoutStocked(g: Graph, shapes: Shapes, kills: map<BlockId, nat>, v: View, sem: Semantics, args: seq<Value>)
    requires Faithful(g, v) && kills.Keys == BlockIds(g) && Owing(kills, v)
    requires AllShaped(g, shapes, |args|, kills, v.placed) && AllFramed(shapes, v, v.placed)
    ensures Stocked(Setup(g, shapes, kills, ListingOf(g, v), sem, args))
  {
    var l := ListingOf(g, v);
    FaithfulRealizes(g, v);
    forall b: nat, i: nat | b in l.start && b < |g.blocks| && b in shapes && i <= |g.blocks[b].insns|
      && Reached(g, b, i)
      ensures StockedAt(g, shapes, kills, l, b, i)
    {
      assert Framed(shapes, v, b);
      BlockStocked(g, shapes, kills, v, b, i);
    }
  }

  // ----- functions -----

  /** A function that can be compiled: its graph, and what is known of it. */
  datatype Function = Function(
    g: Graph, owner: Owner, shapes: Shapes, kills: map<BlockId, nat>, params: nat, root: BlockId)
  {
    ghost predicate Valid() {
      && WellFormed(g) && kills.Keys == BlockIds(g)
      && g.blocks[g.entry].succ0 == Some(root) && root != g.exit
      && root in shapes && shapes[root] != [] && shapes[root][0] == Shape([], params)
    }

    function Laid(): View
      requires WellFormed(g) && kills.Keys == BlockIds(g)
    {
      PlaceFunction(g, kills, params)
    }

    /** Every block that is laid out is regular, has shapes, and pays its pops where the layout allows for it. */
    ghost predicate Compilable() {
      && Valid()
      && (forall b | b in Laid().placed :: b < |g.blocks| && b in Laid().sites && Regular(g, Laid(), b))
      && Shaped(g, owner, shapes, params, kills, Laid().placed)
      && AllPayLate(g, kills, Laid(), Laid().placed)
    }

    function Code(): FlatCode
      requires WellFormed(g) && kills.Keys == BlockIds(g)
    {
      Layout.Code(Laid().items, Laid().labels)
    }
  }

  /** No assertion of the layout fails, and every offset in the code is the position of what it names. */
  lemma FunctionIsFramed(f: Function)
    requires f.Compilable()
    ensures f.Laid().ok && AllFramed(f.shapes, f.Laid(), f.Laid().placed)
  {
    hide Framed, PaysLate, Place, Recorded, Regular, Shaped, SubMap, WellFormedBlock;
    PlaceFramed(f.g, f.owner, f.shapes, f.params, f.kills, Initial(f.params), Some(f.root), 0, f.Laid());
  }

  lemma FunctionIsStocked(f: Function, sem: Semantics, args: seq<Value>)
    requires f.Compilable() && |args| == f.params
    ensures FaithfulFunction(f.g, f.Laid(), f.root)
    ensures Stocked(Setup(f.g, f.shapes, f.kills, ListingOf(f.g, f.Laid()), sem, args))
  {
    RegularIsFaithful(f.g, f.kills, f.params, f.root);
    FunctionIsFramed(f);
    PlaceOwes(f.g, f.kills, Initial(f.params), Some(f.root), 0);
    LayoutStocked(f.g, f.shapes, f.kills, f.Laid(), sem, args);
  }

  function Called(args: seq<Value>, history: History): State { State(map[], args, history) }

  function CodeRun(f: Function, sem: Semantics, args: seq<Value>, history: History, k: nat): Run<Frame, nat>
    requires WellFormed(f.g) && f.kills.Keys == BlockIds(f.g)
  {
    RunCode(sem, f.Code(), args, 0, Frame([], history), k)
  }

  function GraphRun(f: Function, sem: Semantics, args: seq<Value>, history: History, fuel: nat): Run<State, BlockId> {
    RunBlock(f.g, sem, f.root, Called(args, history), fuel)
  }

  /** How a call of the function ends: the result and the history, whichever way it was run. */
  datatype Outcome = Result(value: Option<Value>, history: History) | Failure(history: History) | Stuck | Unfinished

  function OutcomeOfCode(r: Run<Frame, nat>): Outcome {
    match r
    case Ended(Returned(v, f)) => Result(v, f.history)
    case Ended(Faulted(f)) => Failure(f.history)
    case Ended(Lost) => Stuck
    case Going(_, _) => Unfinished
  }

  function OutcomeOfGraph(r: Run<State, BlockId>): Outcome {
    match r
    case Ended(Returned(v, s)) => Result(v, s.history)
    case Ended(Faulted(s)) => Failure(s.history)
    case Ended(Lost) => Stuck
    case Going(_, _) => Unfinished
  }

  lemma StartsWithParams(f: Function)
    requires f.Valid()
    ensures |f.Code()| > 0 && f.Code()[0] == Params(f.params)
  {
    FirstBlock(f.g, f.kills, f.params, f.root);
    assert f.Code()[0] == Resolve(f.Laid().items[0].op, f.Laid().labels);
  }

  lemma SkipParams(sem: Semantics, code: FlatCode, args: seq<Value>, history: History, k: nat)
    requires |code| > 0 && code[0] == Params(|args|)
    ensures RunCode(sem, code, args, 0, Frame([], history), k + 1)
            == RunCode(sem, code, args, 1, Frame(args, history), k)
  {
    assert [] + args == args;
  }

  /**
   Every run of the graph is followed by a run of the code, to the same end or to the same block, with the values
   of the temporaries on the stack.
   */
  lemma CodeFollowsGraph(f: Function, sem: Semantics, args: seq<Value>, history: History, fuel: nat) returns (k: nat)
    requires f.Compilable() && |args| == f.params
    ensures Tracks(Setup(f.g, f.shapes, f.kills, ListingOf(f.g, f.Laid()), sem, args),
                   GraphRun(f, sem, args, history, fuel), CodeRun(f, sem, args, history, k),
                   EndSpotIn(f.g, sem, f.root, Called(args, history), fuel))
    ensures GraphRun(f, sem, args, history, fuel).Going? ==> k > fuel
  {
    FunctionIsStocked(f, sem, args);
    var u := Setup(f.g, f.shapes, f.kills, ListingOf(f.g, f.Laid()), sem, args);
    assert ShapedBlock(f.g, f.shapes, f.params, f.kills, f.root);
    assert Here(u, f.root, 0, Called(args, history), Frame(args, history));
    k := BlockTracks(u, f.root, Called(args, history), Frame(args, history), fuel);
    StartsWithParams(f);
    SkipParams(sem, f.Code(), args, history, k);
    k := k + 1;
  }

  /**
   A function that can be compiled computes the same either way, for every semantics of its instructions: the code
   ends if and only if the graph does, with the same result and the same history, and is never stuck.
   */
  lemma CodeComputesGraph(f: Function, sem: Semantics, args: seq<Value>, history: History, end: Outcome)
    requires f.Compilable() && |args| == f.params && !end.Unfinished?
    ensures (exists k :: OutcomeOfCode(CodeRun(f, sem, args, history, k)) == end)
            <==> exists fuel :: OutcomeOfGraph(GraphRun(f, sem, args, history, fuel)) == end
    ensures end.Stuck? ==> forall k :: OutcomeOfCode(CodeRun(f, sem, args, history, k)) != end
  {
    hide AllPayLate, CodeRun, Consumed, EndSpotIn, Function.Laid, Here, LayoutFacts.Laid, ListingOf, Regular, Shaped,
      WellFormed;
    forall k | OutcomeOfCode(CodeRun(f, sem, args, history, k)) == end
      ensures OutcomeOfGraph(GraphRun(f, sem, args, history, k)) == end && !end.Stuck?
    {
      GraphEndsToo(f, sem, args, history, k);
    }
    if fuel :| OutcomeOfGraph(GraphRun(f, sem, args, history, fuel)) == end {
      var k := CodeFollowsGraph(f, sem, args, history, fuel);
      assert OutcomeOfCode(CodeRun(f, sem, args, history, k)) == end;
    }
  }

  lemma GraphEndsToo(f: Function, sem: Semantics, args: seq<Value>, history: History, k: nat)
    requires f.Compilable() && |args| == f.params && CodeRun(f, sem, args, history, k).Ended?
    ensures OutcomeOfGraph(GraphRun(f, sem, args, history, k)) == OutcomeOfCode(CodeRun(f, sem, args, history, k))
    ensures !OutcomeOfCode(CodeRun(f, sem, args, history, k)).Stuck?
  {
    hide AllPayLate, Consumed, EndSpotIn, Function.Laid, Here, LayoutFacts.Laid, ListingOf, Regular, Resolve, RunCode,
      Shaped, WellFormed;
    var n := CodeFollowsGraph(f, sem, args, history, k);
    EndsOnce(sem, f.Code(), args, Frame([], history), k, n);
    var w, x := GraphRun(f, sem, args, history, k), CodeRun(f, sem, args, history, n);
    assert w.Ended? && x.Ended?;
  }

  /** A run that has ended stays as it is. */
  lemma EndsOnce(sem: Semantics, code: FlatCode, args: seq<Value>, start: Frame, k: nat, n: nat)
    requires RunCode(sem, code, args, 0, start, k).Ended?
    ensures n >= k || RunCode(sem, code, args, 0, start, n).Ended? ==>
              RunCode(sem, code, args, 0, start, n) == RunCode(sem, code, args, 0, start, k)
  {
    if k <= n {
      RunCodeEnds(sem, code, args, 0, start, k, n - k);
    } else if RunCode(sem, code, args, 0, start, n).Ended? {
      RunCodeEnds(sem, code, args, 0, start, n, k - n);
    }
  }
}
