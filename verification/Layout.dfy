/**
 Depth-first layout of a control-flow graph as stack code.

 `Place` is the layout as a function on views. A view keeps the code with jumps that still name blocks,
 together with the position each block is labelled with; `Code` replaces the names by positions. The
 class `Emitter` (in Emitter.dfy) is the layout as the program performs it, with jumps patched in place.
 */
module Layout {
  import opened Options
  import opened Ir

  /** Stack code; `T` is what a jump names: a block, or a position that may not be known yet. */
  datatype Op<+T> =
    | Plain(kind: Kind)
    | LoadFrame(offset: int)
    | StoreFrame(offset: int)
    | Pop
    | Else(target: T)
    | Jump(target: T)
    | Ret
    | Params(count: nat)

  /** A piece of emitted code, and the instruction it was emitted for unless it is a pop or an added jump. */
  datatype Item = Item(op: Op<BlockId>, origin: Option<(BlockId, nat)>)

  /** The frame offset of an instruction that has not been laid out. */
  const UNPLACED: int := -0x8000_0000

  function FrameOf(frames: map<Temp, int>, t: Temp): int {
    if t in frames then frames[t] else UNPLACED
  }

  /** What laying out one instruction reads and changes. `kills` counts the pops still owed by the block. */
  datatype Cursor = Cursor(
    items: seq<Item>,
    labels: map<BlockId, nat>,
    frames: map<Temp, int>,
    offset: int,
    kills: nat,
    ok: bool)

  ghost predicate SubMap<K(!new), T>(m: map<K, T>, n: map<K, T>) {
    forall k | k in m :: k in n && n[k] == m[k]
  }

  /** Layout only appends code and labels, and a failed assertion is final. */
  ghost predicate Grows(c: Cursor, d: Cursor) {
    c.items <= d.items && SubMap(c.labels, d.labels) && (d.ok ==> c.ok)
  }

  function Pops(n: nat): (r: seq<Item>)
    ensures |r| == n && forall i | 0 <= i < n :: r[i] == Item(Pop, None)
  {
    seq(n, _ => Item(Pop, None))
  }

  /** Emits the pops the block owes. */
  function Flush(c: Cursor): Cursor {
    c.(items := c.items + Pops(c.kills), kills := 0)
  }

  /** Pops are emitted ahead of a branch, and ahead of a return that returns no value. */
  predicate LeadsWithPops(insn: Insn) {
    IsBranch(insn) || (insn.Return? && insn.value.None?)
  }

  /** How the frame grows or shrinks over an instruction. */
  function Delta(insn: Insn): int {
    match insn
    case Alloc(_, init) => if init.Some? then 0 else 1
    case Load(_, _) => 1
    case Store(_, _) => -1
    case Use(_, kind, sources) => (if HasResult(kind) then 1 else 0) - |sources|
    case Goto(_) => 0
    case Branch(_, _, _) => -1
    case Return(_) => 0
  }

  /** The frame offsets once an instruction has been given its own. */
  function Define(insn: Insn, frames: map<Temp, int>, offset: int): map<Temp, int> {
    match insn
    case Alloc(id, init) => frames[id := if init.Some? then FrameOf(frames, init.value) else offset]
    case Load(id, _) => frames[id := offset]
    case Use(id, kind, sources) => if HasResult(kind) then frames[id := offset - |sources|] else frames
    case _ => frames
  }

  /** The assertions of the program: a variable aliases the top of the frame, a store takes its source from there. */
  predicate Check(insn: Insn, frames: map<Temp, int>, offset: int) {
    match insn
    case Alloc(_, Some(t)) => FrameOf(frames, t) + 1 == offset
    case Store(t, _) => FrameOf(frames, t) == offset - 1
    case _ => true
  }

  /** The code for an instruction, under the frame offsets that hold once it has its own. */
  function OpOf(insn: Insn, frames: map<Temp, int>): Option<Op<BlockId>> {
    match insn
    case Alloc(_, _) => None
    case Load(_, t) => Some(LoadFrame(FrameOf(frames, t)))
    case Store(_, d) => Some(StoreFrame(FrameOf(frames, d)))
    case Use(_, kind, _) => Some(Plain(kind))
    case Goto(t) => Some(Jump(t))
    case Branch(_, _, n) => Some(Else(n))
    case Return(_) => Some(Ret)
  }

  /** Adds code for instruction `i` of `b`, if it has any; the first such code becomes the label of `b`. */
  function Emit(b: BlockId, i: nat, op: Option<Op<BlockId>>, c: Cursor): Cursor {
    if op.None? then c
    else
      c.(items := c.items + [Item(op.value, Some((b, i)))],
         labels := if b in c.labels then c.labels else c.labels[b := |c.items|])
  }

  /** Lays out instruction `i` of block `b`. */
  function Step(b: BlockId, i: nat, insn: Insn, c0: Cursor): (r: Cursor)
    ensures Grows(c0, r) && r.labels.Keys <= c0.labels.Keys + {b}
  {
    var c := if LeadsWithPops(insn) then Flush(c0) else c0;
    var frames := Define(insn, c.frames, c.offset);
    Emit(b, i, OpOf(insn, frames),
         c.(frames := frames, offset := c.offset + Delta(insn), ok := c.ok && Check(insn, c.frames, c.offset)))
  }

  /** The cursor after the first `n` instructions. */
  function StepTo(b: BlockId, insns: seq<Insn>, c: Cursor, n: nat): (r: Cursor)
    requires n <= |insns|
    ensures Grows(c, r) && r.labels.Keys <= c.labels.Keys + {b}
  {
    if n == 0 then c else Step(b, n - 1, insns[n - 1], StepTo(b, insns, c, n - 1))
  }

  /**
   The end of a block: the pops it still owes, and a jump when it falls through to a block in `seen`,
   the blocks already laid out. The jump needs that block's label.
   */
  function Finish(block: Block, c0: Cursor, seen: set<BlockId>): Cursor {
    var c := Flush(c0);
    if block.succ0.Some? && block.succ0.value in seen && !EndsInBranch(block) then
      c.(items := c.items + [Item(Jump(block.succ0.value), None)], ok := c.ok && block.succ0.value in c.labels)
    else c
  }

  /**
   A record of how a block was laid out: the cursor before each of its instructions and behind the last, the
   cursor behind the whole block, and the blocks that had been laid out before.
   */
  datatype Site = Site(start: Cursor, cursors: seq<Cursor>, end: Cursor, seen: set<BlockId>)

  function SiteOf(b: BlockId, block: Block, start: Cursor, seen: set<BlockId>): (r: Site)
    ensures r.start == start && r.seen == seen
    ensures Grows(start, r.end) && r.end.labels.Keys <= start.labels.Keys + {b}
  {
    var n := |block.insns|;
    Site(start,
         seq(n + 1, i requires 0 <= i <= n => StepTo(b, block.insns, start, i)),
         Finish(block, StepTo(b, block.insns, start, n), seen),
         seen)
  }

  datatype View = View(
    items: seq<Item>,
    labels: map<BlockId, nat>,
    frames: map<Temp, int>,
    placed: set<BlockId>,
    ok: bool,
    sites: map<BlockId, Site>)

  ghost predicate ViewGrows(v: View, w: View) {
    && v.items <= w.items && SubMap(v.labels, w.labels) && SubMap(v.sites, w.sites)
    && v.placed <= w.placed && (w.ok ==> v.ok)
  }

  /** Sites are recorded for exactly the placed blocks, none of them the exit; only placed blocks have labels. */
  ghost predicate Tidy(g: Graph, v: View) {
    && v.sites.Keys == v.placed && v.placed <= BlockIds(g) && g.exit !in v.placed
    && v.labels.Keys <= v.placed
  }

  function Below(n: nat): (r: set<nat>)
    ensures forall i: nat :: i in r <==> i < n
  {
    if n == 0 then {} else Below(n - 1) + {n - 1}
  }

  function BlockIds(g: Graph): set<BlockId> { Below(|g.blocks|) }

  function StartOf(v: View, offset: int, kills: nat): Cursor {
    Cursor(v.items, v.labels, v.frames, offset, kills, v.ok)
  }

  /** Block `b` is laid out; its successors are not. */
  function PlaceBlock(g: Graph, kills: map<BlockId, nat>, v: View, b: BlockId, offset: int): (r: View)
    requires b < |g.blocks| && b in kills && b !in v.placed && b != g.exit && Tidy(g, v)
    ensures ViewGrows(v, r) && Tidy(g, r) && r.placed == v.placed + {b}
  {
    var site := SiteOf(b, g.blocks[b], StartOf(v, offset, kills[b]), v.placed);
    var c := site.end;
    View(c.items, c.labels, c.frames, v.placed + {b}, c.ok && g.blocks[b].insns != [], v.sites[b := site])
  }

  /** Lays out block `s`, if there is one, and everything reachable from it that is not laid out yet, depth first. */
  function Place(g: Graph, kills: map<BlockId, nat>, v: View, s: Option<BlockId>, offset: int): (r: View)
    requires WellFormed(g) && ValidSucc(g, s) && kills.Keys == BlockIds(g) && Tidy(g, v)
    ensures ViewGrows(v, r) && Tidy(g, r)
    ensures s.Some? ==> s.value in r.placed || s.value == g.exit
    decreases BlockIds(g) - v.placed
  {
    if s.None? || s.value in v.placed || s.value == g.exit then v
    else
      var b := s.value;
      var v1 := PlaceBlock(g, kills, v, b, offset);
      var after := v1.sites[b].end.offset;
      assert b in BlockIds(g) - v.placed && b !in BlockIds(g) - v1.placed;
      var v2 := Place(g, kills, v1, g.blocks[b].succ0, after);
      Place(g, kills, v2, g.blocks[b].succ1, after)
  }

  /** The layout of a function starts after the instruction that loads the parameters. */
  function Initial(params: nat): View {
    View([Item(Params(params), None)], map[], map[], {}, true, map[])
  }

  function PlaceFunction(g: Graph, kills: map<BlockId, nat>, params: nat): View
    requires WellFormed(g) && kills.Keys == BlockIds(g)
  {
    Place(g, kills, Initial(params), g.blocks[g.entry].succ0, 0)
  }

  /** Replaces the block a jump names by the block's label. */
  function Resolve(op: Op<BlockId>, labels: map<BlockId, nat>): Op<Option<nat>> {
    match op
    case Else(t) => Else(if t in labels then Some(labels[t]) else None)
    case Jump(t) => Jump(if t in labels then Some(labels[t]) else None)
    case Plain(k) => Plain(k)
    case LoadFrame(n) => LoadFrame(n)
    case StoreFrame(n) => StoreFrame(n)
    case Pop => Pop
    case Ret => Ret
    case Params(n) => Params(n)
  }

  function Code(items: seq<Item>, labels: map<BlockId, nat>): (r: seq<Op<Option<nat>>>)
    ensures |r| == |items|
    ensures forall i | 0 <= i < |items| :: r[i] == Resolve(items[i].op, labels)
  {
    seq(|items|, i requires 0 <= i < |items| => Resolve(items[i].op, labels))
  }
}
