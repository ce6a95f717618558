/**
 Which temporaries are on the stack at each instruction. A graph whose instructions take their operands from the
 top of the stack, in order, gets frame offsets from the layout that are the positions of those temporaries.
 */
module StackShape {
  import opened Options
  import opened Ir
  import opened Layout
  import opened LayoutFacts

  /** The temporaries on the stack, bottom first, and how many parameters have yet to be given a temporary. */
  datatype Shape = Shape(temps: seq<Temp>, pending: nat)

  predicate EndsWith(temps: seq<Temp>, top: seq<Temp>) {
    |top| <= |temps| && temps[|temps| - |top|..] == top
  }

  function Drop(temps: seq<Temp>, n: nat): seq<Temp> {
    if n <= |temps| then temps[..|temps| - n] else []
  }

  /** The shape after an instruction, if the instruction finds its operands. `params` values stay for the caller. */
  function ShapeAfter(insn: Insn, s: Shape, params: nat, kills: nat): Option<Shape> {
    match insn
    case Alloc(id, None) =>
      if s.pending > 0 && id !in s.temps then Some(Shape(s.temps + [id], s.pending - 1)) else None
    case Alloc(id, Some(t)) =>
      if s.pending == 0 && EndsWith(s.temps, [t]) && id !in Drop(s.temps, 1)
      then Some(Shape(Drop(s.temps, 1) + [id], 0)) else None
    case Load(id, t) =>
      if s.pending == 0 && t in s.temps && id !in s.temps then Some(Shape(s.temps + [id], 0)) else None
    case Store(t, d) =>
      if s.pending == 0 && EndsWith(s.temps, [t]) && d in Drop(s.temps, 1) then Some(Shape(Drop(s.temps, 1), 0))
        else None
    case Use(id, kind, sources) =>
      if s.pending == 0 && EndsWith(s.temps, sources) && (HasResult(kind) ==> id !in Drop(s.temps, |sources|))
      then Some(Shape(Drop(s.temps, |sources|) + if HasResult(kind) then [id] else [], 0)) else None
    case Goto(_) => if s.pending == 0 then Some(s) else None
    case Branch(c, _, _) =>
      if s.pending == 0 && EndsWith(s.temps, [c]) && kills == 0 then Some(Shape(Drop(s.temps, 1), 0)) else None
    case Return(Some(t)) => if s.pending == 0 && EndsWith(s.temps, [t]) && |s.temps| > params then Some(s) else None
    case Return(None) => if s.pending == 0 && kills <= |s.temps| <= params + kills then Some(s) else None
  }

  /** For each block, the shape before each instruction and behind the last. */
  type Shapes = map<BlockId, seq<Shape>>

  ghost predicate ShapedAt(g: Graph, shapes: Shapes, params: nat, kills: map<BlockId, nat>, b: BlockId, i: nat)
    requires b < |g.blocks| && i < |g.blocks[b].insns| && b in shapes && |shapes[b]| == |g.blocks[b].insns| + 1
    requires b in kills
  {
    ShapeAfter(g.blocks[b].insns[i], shapes[b][i], params, kills[b]) == Some(shapes[b][i + 1])
  }

  /** Block `b` leaves the stack, less the pops it owes, in the shape in which its successors expect it. */
  ghost predicate ShapedBlock(g: Graph, shapes: Shapes, params: nat, kills: map<BlockId, nat>, b: BlockId)
    requires b < |g.blocks| && b in kills
  {
    var n := |g.blocks[b].insns|;
    && b in shapes && |shapes[b]| == n + 1
    && (forall i: nat {:trigger ShapedAt(g, shapes, params, kills, b, i)} | i < n ::
       ShapedAt(g, shapes, params, kills, b, i))
    && (!EndsInReturn(g.blocks[b]) ==> shapes[b][n].pending == 0 && kills[b] <= |shapes[b][n].temps|)
    && forall s | s in Succs(g.blocks[b]) && s != g.exit ::
         s in shapes && shapes[s] != [] && shapes[s][0] == Shape(Drop(shapes[b][n].temps, kills[b]), 0)
  }

  /** The instruction that defines each temporary. */
  type Owner = map<Temp, (BlockId, nat)>

  function Defines(insn: Insn): Option<Temp> {
    match insn
    case Alloc(id, _) => Some(id)
    case Load(id, _) => Some(id)
    case Use(id, kind, _) => if HasResult(kind) then Some(id) else None
    case _ => None
  }

  /** No temporary is defined twice. */
  ghost predicate Owned(g: Graph, owner: Owner) {
    forall b: nat, i: nat {:trigger g.blocks[b].insns[i]} | b < |g.blocks| && i < |g.blocks[b].insns| ::
      var t := Defines(g.blocks[b].insns[i]);
      t.Some? ==> t.value in owner && owner[t.value] == (b, i)
  }

  // ----- frame offsets are positions in the shape -----

  ghost predicate InPlace(temps: seq<Temp>, frames: map<Temp, int>) {
    forall j: nat {:trigger temps[j]} | j < |temps| :: temps[j] in frames && frames[temps[j]] == j
  }

  ghost predicate FramedAt(shape: Shape, c: Cursor) {
    InPlace(shape.temps, c.frames) && c.offset == |shape.temps|
  }

  ghost predicate AllInPlace(shapes: seq<Shape>, frames: map<Temp, int>) {
    forall i: nat {:trigger shapes[i]} | i < |shapes| :: InPlace(shapes[i].temps, frames)
  }

  /** In the record of a placed block, every shape is in place, and it still is when the layout is complete. */
  ghost predicate Framed(shapes: Shapes, v: View, b: BlockId) {
    && b in shapes && b in v.sites && |v.sites[b].cursors| == |shapes[b]| && AllInPlace(shapes[b], v.frames)
    && forall i: nat {:trigger shapes[b][i]} | i < |shapes[b]| :: FramedAt(shapes[b][i], v.sites[b].cursors[i])
  }

  lemma DefineInPlace(
      insn: Insn, shape: Shape, params: nat, kills: nat, next: Shape, frames: map<Temp, int>, offset: int)
    requires InPlace(shape.temps, frames) && offset == |shape.temps|
    requires ShapeAfter(insn, shape, params, kills) == Some(next)
    requires Defines(insn).Some? ==> Defines(insn).value !in shape.temps
    ensures InPlace(next.temps, Define(insn, frames, offset)) && offset + Delta(insn) == |next.temps|
    ensures Check(insn, frames, offset)
  {
    match insn
    case Alloc(id, Some(t)) => assert shape.temps[|shape.temps| - 1..][0] == t;
    case Store(t, d) => assert shape.temps[|shape.temps| - 1..][0] == t;
    case _ =>
  }

  lemma StepFramed(b: BlockId, i: nat, insn: Insn, shape: Shape, params: nat, kills: nat, c: Cursor, next: Shape)
    requires FramedAt(shape, c) && ShapeAfter(insn, shape, params, kills) == Some(next)
    requires Defines(insn).Some? ==> Defines(insn).value !in shape.temps
    ensures FramedAt(next, Step(b, i, insn, c))
    ensures c.ok ==> Step(b, i, insn, c).ok
  {
    DefineInPlace(insn, shape, params, kills, next, c.frames, c.offset);
    StepShape(b, i, insn, c, Step(b, i, insn, c));
  }

  /** Temporaries with a frame offset are defined by placed blocks, or before instruction `n` of `b`. */
  ghost predicate FramesOwned(owner: Owner, frames: map<Temp, int>, placed: set<BlockId>, b: BlockId, n: nat) {
    forall t {:trigger t in frames} | t in frames ::
      t in owner && (owner[t].0 in placed || (owner[t].0 == b && owner[t].1 < n))
  }

  lemma InPlaceInFrames(temps: seq<Temp>, frames: map<Temp, int>, t: Temp)
    requires InPlace(temps, frames) && t in temps
    ensures t in frames
  {
  }

  lemma StepFrames(b: BlockId, i: nat, insn: Insn, c: Cursor)
    ensures var d := Step(b, i, insn, c);
            d.frames.Keys == c.frames.Keys + (if Defines(insn).Some? then {Defines(insn).value} else {})
    ensures forall t | t in c.frames && Defines(insn) != Some(t) :: Step(b, i, insn, c).frames[t] == c.frames[t]
  {
    StepShape(b, i, insn, c, Step(b, i, insn, c));
  }

  /** One more instruction keeps the shape in place, and defines only temporaries of its own. */
  lemma OneFramed(
      g: Graph, owner: Owner, shapes: Shapes, params: nat, kills: map<BlockId, nat>, b: BlockId,
      c: Cursor, placed: set<BlockId>, i: nat)
    requires b < |g.blocks| && b in kills && ShapedBlock(g, shapes, params, kills, b) && Owned(g, owner)
    requires i < |g.blocks[b].insns| && b !in placed
    requires FramedAt(shapes[b][i], c) && FramesOwned(owner, c.frames, placed, b, i)
    ensures var d := Step(b, i, g.blocks[b].insns[i], c);
            && FramedAt(shapes[b][i + 1], d) && FramesOwned(owner, d.frames, placed, b, i + 1)
            && SubMap(c.frames, d.frames) && (c.ok ==> d.ok)
  {
    var insn := g.blocks[b].insns[i];
    assert ShapedAt(g, shapes, params, kills, b, i);
    if Defines(insn).Some? && Defines(insn).value in shapes[b][i].temps {
      InPlaceInFrames(shapes[b][i].temps, c.frames, Defines(insn).value);
    }
    StepFramed(b, i, insn, shapes[b][i], params, kills[b], c, shapes[b][i + 1]);
    StepFrames(b, i, insn, c);
  }

  lemma {:induction false} BlockFramed(
      g: Graph, owner: Owner, shapes: Shapes, params: nat, kills: map<BlockId, nat>, b: BlockId,
      start: Cursor, placed: set<BlockId>, n: nat)
    requires b < |g.blocks| && b in kills && ShapedBlock(g, shapes, params, kills, b) && Owned(g, owner)
    requires FramedAt(shapes[b][0], start) && b !in placed && FramesOwned(owner, start.frames, placed, b, 0)
    requires n <= |g.blocks[b].insns|
    ensures var c := StepTo(b, g.blocks[b].insns, start, n);
            && FramedAt(shapes[b][n], c) && FramesOwned(owner, c.frames, placed, b, n)
            && SubMap(start.frames, c.frames) && (start.ok ==> c.ok)
  {
    if n > 0 {
      BlockFramed(g, owner, shapes, params, kills, b, start, placed, n - 1);
      OneFramed(g, owner, shapes, params, kills, b, StepTo(b, g.blocks[b].insns, start, n - 1), placed, n - 1);
    }
  }

  /** Frame offsets that have been given stay as they are. */
  lemma {:induction false} LaterFrames(
      g: Graph, owner: Owner, shapes: Shapes, params: nat, kills: map<BlockId, nat>, b: BlockId,
      start: Cursor, placed: set<BlockId>, i: nat, n: nat)
    requires b < |g.blocks| && b in kills && ShapedBlock(g, shapes, params, kills, b) && Owned(g, owner)
    requires FramedAt(shapes[b][0], start) && b !in placed && FramesOwned(owner, start.frames, placed, b, 0)
    requires i <= n <= |g.blocks[b].insns|
    ensures InPlace(shapes[b][i].temps, StepTo(b, g.blocks[b].insns, start, n).frames)
  {
    hide Owned, FramesOwned, Step;
    assert |shapes[b]| == |g.blocks[b].insns| + 1;
    if i < n {
      LaterFrames(g, owner, shapes, params, kills, b, start, placed, i, n - 1);
      BlockFramed(g, owner, shapes, params, kills, b, start, placed, n - 1);
      OneFramed(g, owner, shapes, params, kills, b, StepTo(b, g.blocks[b].insns, start, n - 1), placed, n - 1);
    } else {
      BlockFramed(g, owner, shapes, params, kills, b, start, placed, n);
    }
  }

  // ----- the whole layout -----

  /** What is assumed of the graph that is laid out. */
  ghost predicate Shaped(
      g: Graph, owner: Owner, shapes: Shapes, params: nat, kills: map<BlockId, nat>, blocks: set<BlockId>)
  {
    && WellFormed(g) && kills.Keys == BlockIds(g) && Owned(g, owner)
    && forall b {:trigger ShapedBlock(g, shapes, params, kills, b)} | b in blocks && b < |g.blocks| ::
         ShapedBlock(g, shapes, params, kills, b) && HasCode(g.blocks[b])
  }

  predicate HasCode(block: Block) { exists i | 0 <= i < |block.insns| :: !IsPseudo(block.insns[i]) }

  /**
   A block that owes pops is followed by blocks laid out before it: the frame offset handed to a successor that
   is laid out next does not take the pops into account.
   */
  ghost predicate PaysLate(g: Graph, kills: map<BlockId, nat>, v: View, b: BlockId) {
    && b < |g.blocks| && b in v.sites && b in kills
    && (kills[b] > 0 ==> forall s | s in Succs(g.blocks[b]) && s != g.exit :: s in v.sites[b].seen)
  }

  ghost predicate AllPayLate(g: Graph, kills: map<BlockId, nat>, v: View, blocks: set<BlockId>) {
    forall b {:trigger PaysLate(g, kills, v, b)} | b in blocks :: PaysLate(g, kills, v, b)
  }

  ghost predicate AllFramed(shapes: Shapes, v: View, blocks: set<BlockId>) {
    forall b {:trigger Framed(shapes, v, b)} | b in blocks :: Framed(shapes, v, b)
  }

  /** The frame offsets, labels and assertions of a layout so far are as they should be. */
  ghost predicate Healthy(owner: Owner, v: View) {
    && v.ok && v.placed <= v.labels.Keys
    && forall t {:trigger t in v.frames} | t in v.frames :: t in owner && owner[t].0 in v.placed
  }

  ghost predicate Ready(g: Graph, shapes: Shapes, v: View, s: Option<BlockId>, offset: int) {
    s.Some? && s.value !in v.placed && s.value != g.exit ==>
      s.value in shapes && shapes[s.value] != [] && FramedAt(shapes[s.value][0], StartOf(v, offset, 0))
  }

  lemma {:induction false} StepToLabels(b: BlockId, insns: seq<Insn>, c: Cursor, n: nat, i: nat)
    requires i < n <= |insns| && !IsPseudo(insns[i])
    ensures b in StepTo(b, insns, c, n).labels
  {
    if i < n - 1 { StepToLabels(b, insns, c, n - 1, i); }
    StepShape(b, n - 1, insns[n - 1], StepTo(b, insns, c, n - 1), StepTo(b, insns, c, n));
  }

  lemma PlaceBlockFramed(
      g: Graph, owner: Owner, shapes: Shapes, params: nat, kills: map<BlockId, nat>, v: View, b: BlockId, offset: int)
    requires b < |g.blocks| && b !in v.placed && b != g.exit && Tidy(g, v)
    requires Shaped(g, owner, shapes, params, kills, {b}) && Healthy(owner, v) && Ready(g, shapes, v, Some(b), offset)
    ensures var r := PlaceBlock(g, kills, v, b, offset);
            && Healthy(owner, r) && Framed(shapes, r, b) && SubMap(v.frames, r.frames)
            && FramedAt(shapes[b][|g.blocks[b].insns|], StartOf(r, r.sites[b].end.offset, 0))
  {
    hide Below, Grows, InPlace, Owned, Pops, ShapedAt, Step, WellFormed, StepTo;
    var block, start := g.blocks[b], StartOf(v, offset, kills[b]);
    assert ShapedBlock(g, shapes, params, kills, b);
    forall i: nat | i <= |block.insns|
      ensures FramedAt(shapes[b][i], StepTo(b, block.insns, start, i))
      ensures InPlace(shapes[b][i].temps, StepTo(b, block.insns, start, |block.insns|).frames)
    {
      BlockFramed(g, owner, shapes, params, kills, b, start, v.placed, i);
      LaterFrames(g, owner, shapes, params, kills, b, start, v.placed, i, |block.insns|);
    }
    BlockFramed(g, owner, shapes, params, kills, b, start, v.placed, |block.insns|);
    var i :| 0 <= i < |block.insns| && !IsPseudo(block.insns[i]);
    StepToLabels(b, block.insns, start, |block.insns|, i);
  }

  lemma SuccessorReady(
      g: Graph, owner: Owner, shapes: Shapes, params: nat, kills: map<BlockId, nat>,
      v1: View, r: View, b: BlockId, s: Option<BlockId>)
    requires b < |g.blocks| && Shaped(g, owner, shapes, params, kills, {b})
    requires s == g.blocks[b].succ0 || s == g.blocks[b].succ1
    requires b in v1.sites && b in shapes && |shapes[b]| == |g.blocks[b].insns| + 1
    requires FramedAt(shapes[b][|g.blocks[b].insns|], StartOf(v1, v1.sites[b].end.offset, 0))
    requires PaysLate(g, kills, r, b) && r.sites[b].seen <= v1.placed
    ensures Ready(g, shapes, v1, s, v1.sites[b].end.offset)
  {
    if s.Some? && s.value !in v1.placed && s.value != g.exit {
      assert ShapedBlock(g, shapes, params, kills, b);
      assert s.value in Succs(g.blocks[b]);
      var n := |g.blocks[b].insns|;
      assert Drop(shapes[b][n].temps, 0) == shapes[b][n].temps;
    }
  }

  lemma FramesKept(shape: Shape, v1: View, v2: View, offset: int)
    requires FramedAt(shape, StartOf(v1, offset, 0)) && SubMap(v1.frames, v2.frames)
    ensures FramedAt(shape, StartOf(v2, offset, 0))
  {
  }

  /**
   In every block laid out, each temporary on the stack has its position as frame offset, and no assertion of the
   layout fails.
   */
  lemma {:induction false} PlaceFramed(
      g: Graph, owner: Owner, shapes: Shapes, params: nat, kills: map<BlockId, nat>,
      v: View, s: Option<BlockId>, offset: int, r: View)
    requires WellFormed(g) && ValidSucc(g, s) && kills.Keys == BlockIds(g) && Tidy(g, v)
    requires r == Place(g, kills, v, s, offset)
    requires Healthy(owner, v) && Ready(g, shapes, v, s, offset)
    requires Shaped(g, owner, shapes, params, kills, r.placed) && AllPayLate(g, kills, r, r.placed - v.placed)
    ensures Healthy(owner, r) && SubMap(v.frames, r.frames) && AllFramed(shapes, r, r.placed - v.placed)
    decreases BlockIds(g) - v.placed, 0
  {
    hide Finish, Framed, Grows, Healthy, PaysLate, Shaped, StepTo, WellFormedBlock;
    if s.Some? && s.value !in v.placed && s.value != g.exit {
      var b := s.value;
      var block := g.blocks[b];
      var v1 := PlaceBlock(g, kills, v, b, offset);
      var after := v1.sites[b].end.offset;
      assert b in BlockIds(g) - v.placed && b !in BlockIds(g) - v1.placed;
      var v2 := Place(g, kills, v1, block.succ0, after);
      BeforeSuccessors(g, owner, shapes, params, kills, v, offset, b, v1, v2, r);
      SuccessorsFramed(g, owner, shapes, params, kills, b, v1, v2, r);
      FramedMono(shapes, v1, v2, r, v.placed, b);
    }
  }

  lemma FramedStill(shapes: Shapes, v: View, r: View, b: BlockId)
    requires Framed(shapes, v, b) && ViewGrows(v, r) && SubMap(v.frames, r.frames)
    ensures Framed(shapes, r, b)
  {
  }

  lemma {:induction false} SuccessorsFramed(
      g: Graph, owner: Owner, shapes: Shapes, params: nat, kills: map<BlockId, nat>, b: BlockId,
      v1: View, v2: View, r: View)
    requires WellFormed(g) && b < |g.blocks| && kills.Keys == BlockIds(g) && Tidy(g, v1) && Tidy(g, v2)
    requires b in v1.sites && b in shapes && |shapes[b]| == |g.blocks[b].insns| + 1
    requires v2 == Place(g, kills, v1, g.blocks[b].succ0, v1.sites[b].end.offset)
    requires r == Place(g, kills, v2, g.blocks[b].succ1, v1.sites[b].end.offset)
    requires Shaped(g, owner, shapes, params, kills, r.placed) && PaysLate(g, kills, r, b)
             && r.sites[b].seen <= v1.placed
    requires AllPayLate(g, kills, v2, v2.placed - v1.placed) && AllPayLate(g, kills, r, r.placed - v2.placed)
    requires FramedAt(shapes[b][|g.blocks[b].insns|], StartOf(v1, v1.sites[b].end.offset, 0))
    requires Healthy(owner, v1) && Ready(g, shapes, v1, g.blocks[b].succ0, v1.sites[b].end.offset)
    ensures Healthy(owner, r) && SubMap(v1.frames, v2.frames) && SubMap(v2.frames, r.frames)
    ensures AllFramed(shapes, v2, v2.placed - v1.placed) && AllFramed(shapes, r, r.placed - v2.placed)
    decreases BlockIds(g) - v1.placed, 1
  {
    hide AllFramed, AllPayLate, HasCode, Healthy, Owned, PlaceBlock, Ready, ShapedBlock;
    var after := v1.sites[b].end.offset;
    PlaceFramed(g, owner, shapes, params, kills, v1, g.blocks[b].succ0, after, v2);
    BetweenSuccessors(g, owner, shapes, params, kills, v1, v2, r, b);
    PlaceFramed(g, owner, shapes, params, kills, v2, g.blocks[b].succ1, after, r);
  }

  lemma BeforeSuccessors(
      g: Graph, owner: Owner, shapes: Shapes, params: nat, kills: map<BlockId, nat>, v: View, offset: int, b: BlockId,
      v1: View, v2: View, r: View)
    requires b < |g.blocks| && b !in v.placed && b != g.exit && Tidy(g, v) && Tidy(g, v2)
    requires kills.Keys == BlockIds(g) && v1 == PlaceBlock(g, kills, v, b, offset)
    requires ViewGrows(v1, v2) && ViewGrows(v2, r)
    requires Healthy(owner, v) && Ready(g, shapes, v, Some(b), offset)
    requires Shaped(g, owner, shapes, params, kills, r.placed) && AllPayLate(g, kills, r, r.placed - v.placed)
    ensures Healthy(owner, v1) && Framed(shapes, v1, b) && SubMap(v.frames, v1.frames)
    ensures FramedAt(shapes[b][|g.blocks[b].insns|], StartOf(v1, v1.sites[b].end.offset, 0))
    ensures Ready(g, shapes, v1, g.blocks[b].succ0, v1.sites[b].end.offset)
    ensures AllPayLate(g, kills, v2, v2.placed - v1.placed) && AllPayLate(g, kills, r, r.placed - v2.placed)
  {
    assert b in r.placed;
    assert ShapedBlock(g, shapes, params, kills, b) && PaysLate(g, kills, r, b);
    PlaceBlockFramed(g, owner, shapes, params, kills, v, b, offset);
    SuccessorReady(g, owner, shapes, params, kills, v1, r, b, g.blocks[b].succ0);
    SubLayout(g, kills, v1, v2, r, v.placed);
  }

  lemma BetweenSuccessors(
      g: Graph, owner: Owner, shapes: Shapes, params: nat, kills: map<BlockId, nat>,
      v1: View, v2: View, r: View, b: BlockId)
    requires b < |g.blocks| && Shaped(g, owner, shapes, params, kills, {b})
    requires b in v1.sites && b in shapes && |shapes[b]| == |g.blocks[b].insns| + 1
    requires FramedAt(shapes[b][|g.blocks[b].insns|], StartOf(v1, v1.sites[b].end.offset, 0))
    requires ViewGrows(v1, v2) && SubMap(v1.frames, v2.frames)
    requires PaysLate(g, kills, r, b) && r.sites[b].seen <= v1.placed
    ensures Ready(g, shapes, v2, g.blocks[b].succ1, v1.sites[b].end.offset)
  {
    FramesKept(shapes[b][|g.blocks[b].insns|], v1, v2, v1.sites[b].end.offset);
    SuccessorReady(g, owner, shapes, params, kills, v2, r, b, g.blocks[b].succ1);
  }

  lemma SubLayout(g: Graph, kills: map<BlockId, nat>, v1: View, v2: View, r: View, before: set<BlockId>)
    requires ViewGrows(v1, v2) && ViewGrows(v2, r) && Tidy(g, v2) && before <= v1.placed
    requires AllPayLate(g, kills, r, r.placed - before)
    ensures AllPayLate(g, kills, v2, v2.placed - v1.placed) && AllPayLate(g, kills, r, r.placed - v2.placed)
  {
    forall b | b in v2.placed - v1.placed ensures PaysLate(g, kills, v2, b) {
      assert PaysLate(g, kills, r, b);
    }
  }

  lemma FramedMono(shapes: Shapes, v1: View, v2: View, r: View, before: set<BlockId>, b: BlockId)
    requires ViewGrows(v1, v2) && ViewGrows(v2, r) && v1.placed == before + {b}
    requires SubMap(v1.frames, v2.frames) && SubMap(v2.frames, r.frames)
    requires Framed(shapes, v1, b)
    requires AllFramed(shapes, v2, v2.placed - v1.placed) && AllFramed(shapes, r, r.placed - v2.placed)
    ensures AllFramed(shapes, r, r.placed - before)
  {
    hide Framed;
    forall t | t in r.placed - before ensures Framed(shapes, r, t) {
      if t == b {
        FramedStill(shapes, v1, v2, t);
        FramedStill(shapes, v2, r, t);
      } else if t in v2.placed {
        assert Framed(shapes, v2, t);
        FramedStill(shapes, v2, r, t);
      }
    }
  }
}
