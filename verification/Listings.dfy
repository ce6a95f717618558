/**
 The flat code of a faithful layout, as a reader of the listing sees it: where each instruction of each block
 is, and where control goes from there.
 */
module Listings {
  import opened Options
  import opened Ir
  import opened Layout
  import opened LayoutFacts

  type FlatCode = seq<Op<Option<nat>>>

  type Origins = seq<Option<(BlockId, nat)>>

  /** The instruction each position of the view's code was emitted for. */
  function OriginsOf(items: seq<Item>): (r: Origins)
    ensures |r| == |items| && forall i | 0 <= i < |items| :: r[i] == items[i].origin
  {
    seq(|items|, i requires 0 <= i < |items| => items[i].origin)
  }

  // ----- the graphs whose layout is faithful -----

  /** The first code of the block is emitted for an instruction of it, not a pop. */
  predicate LabelFirst(block: Block, kills: nat) {
    exists i | 0 <= i < |block.insns| :: FirstEmitting(block, i) && (kills == 0 || !LeadsWithPops(block.insns[i]))
  }

  predicate FirstEmitting(block: Block, i: nat)
    requires i < |block.insns|
  {
    !IsPseudo(block.insns[i]) && forall j | 0 <= j < i :: IsPseudo(block.insns[j])
  }

  /** Control leaves the block by a return, or to blocks other than the exit. */
  predicate LeavesWell(g: Graph, block: Block) {
    EndsInReturn(block) ||
    (block.succ0.Some? && block.succ0.value != g.exit && (block.succ1.Some? ==> block.succ1.value != g.exit))
  }

  /**
   Control falls from `b` into its first successor, which must then come next: the taken block of a condition
   must not have been laid out yet, and a block must not fall through to itself.
   */
  ghost predicate FallsWell(g: Graph, v: View, b: BlockId)
    requires b < |g.blocks| && b in v.sites
  {
    var block := g.blocks[b];
    && (block.succ0.Some? && block.succ1.Some? ==> Fresh(v, b, block.succ0.value))
    && (block.succ0.Some? && !EndsInBranch(block) && !EndsInReturn(block) ==> block.succ0.value != b)
  }

  ghost predicate Regular(g: Graph, v: View, b: BlockId)
    requires b < |g.blocks| && b in v.sites
  {
    LabelFirst(g.blocks[b], v.sites[b].start.kills) && LeavesWell(g, g.blocks[b]) && FallsWell(g, v, b)
  }

  ghost predicate Sound(g: Graph, v: View, b: BlockId) {
    Closed(g, v, b) && Regular(g, v, b)
  }

  /** A complete layout in which every placed block is regular. */
  ghost predicate Faithful(g: Graph, v: View) {
    WellFormed(g) && Tidy(g, v) && forall b {:trigger Sound(g, v, b)} | b in v.placed :: Sound(g, v, b)
  }

  // ----- where the code of a placed block is -----

  ghost predicate PopsAt(items: seq<Item>, pc: nat, n: nat) {
    pc + n <= |items| && forall j | pc <= j < pc + n :: items[j] == Item(Pop, None)
  }

  /** The code of instruction `i` of a placed block: the pops ahead of it, then the instruction itself. */
  lemma CodeAt(g: Graph, v: View, b: BlockId, i: nat)
    requires Laid(g, v, b) && i < |g.blocks[b].insns|
    ensures var insn, c, d := g.blocks[b].insns[i], v.sites[b].cursors[i], v.sites[b].cursors[i + 1];
            var pc := |c.items| + PopsBefore(insn, c);
            var op := OpOf(insn, d.frames);
            && PopsAt(v.items, |c.items|, PopsBefore(insn, c))
            && (op.Some? ==> pc < |v.items| && v.items[pc] == Item(op.value, Some((b, i))) && |d.items| == pc + 1)
            && (op.None? ==> |d.items| == pc)
            && d.kills == c.kills - PopsBefore(insn, c)
  {
    var insn, c, d := g.blocks[b].insns[i], v.sites[b].cursors[i], v.sites[b].cursors[i + 1];
    assert Stepped(g.blocks[b], b, v.sites[b], i);
    StepShape(b, i, insn, c, d);
    assert d.items <= v.items;
    forall j | |c.items| <= j < |c.items| + PopsBefore(insn, c) ensures v.items[j] == Item(Pop, None) {
      assert v.items[j] == d.items[j];
    }
  }

  /** The end of a placed block: the pops it still owes, then the jump to a first successor placed before it. */
  lemma CodeAtEnd(g: Graph, v: View, b: BlockId)
    requires Laid(g, v, b)
    ensures var c := v.sites[b].cursors[|g.blocks[b].insns|];
            var end := |c.items| + c.kills;
            var s := g.blocks[b].succ0;
            && PopsAt(v.items, |c.items|, c.kills)
            && (s.Some? && s.value in v.sites[b].seen && !EndsInBranch(g.blocks[b]) ==>
                  end < |v.items| && v.items[end] == Item(Jump(s.value), None))
            && (s.Some? && Fresh(v, b, s.value) && Adjacent(g, v, b, s.value) ==>
                  |v.sites[s.value].start.items| == end)
  {
    var c, d := v.sites[b].cursors[|g.blocks[b].insns|], v.sites[b].end;
    forall j | |c.items| <= j < |c.items| + c.kills ensures v.items[j] == Item(Pop, None) {
      assert v.items[j] == d.items[j];
    }
  }

  // ----- labels -----

  lemma {:induction false} BeforeFirst(g: Graph, v: View, b: BlockId, n: nat)
    requires Laid(g, v, b) && n <= |g.blocks[b].insns|
    requires forall j | 0 <= j < n :: IsPseudo(g.blocks[b].insns[j])
    ensures var c, d := v.sites[b].start, v.sites[b].cursors[n];
            d.items == c.items && d.labels == c.labels && d.kills == c.kills
  {
    if n > 0 {
      BeforeFirst(g, v, b, n - 1);
      assert Stepped(g.blocks[b], b, v.sites[b], n - 1);
      StepShape(b, n - 1, g.blocks[b].insns[n - 1], v.sites[b].cursors[n - 1], v.sites[b].cursors[n]);
    }
  }

  /** A placed block is labelled with the position where its code starts exactly when no pops lead it. */
  lemma LabelIsStart(g: Graph, v: View, b: BlockId)
    requires Laid(g, v, b)
    ensures (b in v.sites[b].end.labels && v.labels[b] == |v.sites[b].start.items|)
            <==> LabelFirst(g.blocks[b], v.sites[b].start.kills)
  {
    var block, site := g.blocks[b], v.sites[b];
    var n := |block.insns|;
    if i :| 0 <= i < n && !IsPseudo(block.insns[i]) {
      var f := FindFirst(block, i);
      BeforeFirst(g, v, b, f);
      assert Stepped(block, b, site, f);
      StepShape(b, f, block.insns[f], site.cursors[f], site.cursors[f + 1]);
      assert site.cursors[f + 1].labels[b] == |site.start.items| + PopsBefore(block.insns[f], site.start);
    } else {
      BeforeFirst(g, v, b, n);
    }
  }

  lemma FindFirst(block: Block, i: nat) returns (f: nat)
    requires i < |block.insns| && !IsPseudo(block.insns[i])
    ensures f <= i && FirstEmitting(block, f)
  {
    f := 0;
    while IsPseudo(block.insns[f])
      invariant f <= i && forall j | 0 <= j < f :: IsPseudo(block.insns[j])
      decreases i - f
    {
      f := f + 1;
    }
  }

  // ----- the listing -----

  /**
   Flat code with, for every block, the position it starts at; for instruction `i` of block `b` (or its end), the
   position `pos(b, i)` reached when the instructions before it are done, the number of pops found there, and the
   frame offsets under which the code of the instruction was chosen.
   */
  datatype Listing = Listing(
    code: FlatCode,
    origins: Origins,
    start: map<BlockId, nat>,
    pos: (BlockId, nat) -> nat,
    pops: (BlockId, nat) -> nat,
    frames: (BlockId, nat) -> map<Temp, int>)

  /** The code of an instruction that is neither a pseudo-instruction nor a terminator. */
  function PlainCode(insn: Insn, frames: map<Temp, int>): Op<Option<nat>> {
    match insn
    case Load(_, t) => LoadFrame(FrameOf(frames, t))
    case Store(_, d) => StoreFrame(FrameOf(frames, d))
    case Use(_, kind, _) => Plain(kind)
    case _ => Pop
  }

  ghost predicate OnlyPops(l: Listing, pc: nat, n: nat) {
    pc + n <= |l.code| <= |l.origins| && forall j | pc <= j < pc + n :: l.code[j] == Pop && l.origins[j] == None
  }

  ghost predicate CodeIs(l: Listing, pc: nat, op: Op<Option<nat>>, origin: Option<(BlockId, nat)>) {
    pc < |l.code| <= |l.origins| && l.code[pc] == op && l.origins[pc] == origin
  }

  /** The code at instruction `i` of `b`, or at its end, does what the graph says comes next. */
  ghost predicate Realized(g: Graph, l: Listing, b: BlockId, i: nat)
    requires b < |g.blocks| && i <= |g.blocks[b].insns|
  {
    var block := g.blocks[b];
    var pc := l.pos(b, i) + l.pops(b, i);
    var origin := Some((b, i));
    && OnlyPops(l, l.pos(b, i), l.pops(b, i))
    && if i == |block.insns| then
         && block.succ0.Some? && block.succ0.value in l.start
         && (pc == l.start[block.succ0.value] || CodeIs(l, pc, Jump(Some(l.start[block.succ0.value])), None))
       else match block.insns[i]
         case Alloc(_, _) => l.pops(b, i) == 0 && l.pos(b, i + 1) == pc
         case Goto(t) => t in l.start && CodeIs(l, pc, Jump(Some(l.start[t])), origin)
         case Branch(_, t, n) =>
           t in l.start && n in l.start && CodeIs(l, pc, Else(Some(l.start[n])), origin) && pc + 1 == l.start[t]
         case Return(_) => CodeIs(l, pc, Ret, origin)
         case insn =>
           && l.pops(b, i) == 0 && l.pos(b, i + 1) == pc + 1
           && CodeIs(l, pc, PlainCode(insn, l.frames(b, i)), origin)
  }

  /** Every instruction of every listed block is realized, and so is the end of every block that falls through. */
  ghost predicate Realizes(g: Graph, l: Listing) {
    && WellFormed(g) && |l.origins| == |l.code| && g.exit !in l.start
    && (forall b {:trigger b in l.start} | b in l.start ::
          b < |g.blocks| && l.start[b] == l.pos(b, 0) && exists j :: Emits(g, b, j))
    && (forall b: nat, i: nat {:trigger Realized(g, l, b, i)} |
          b in l.start && b < |g.blocks| && i <= |g.blocks[b].insns| && Reached(g, b, i) :: Realized(g, l, b, i))
  }

  ghost predicate Emits(g: Graph, b: BlockId, i: nat)
    requires b < |g.blocks|
  {
    i < |g.blocks[b].insns| && !IsPseudo(g.blocks[b].insns[i])
  }

  /** Control gets to an instruction, and to the end of a block that does not end in a terminator. */
  ghost predicate Reached(g: Graph, b: BlockId, i: nat)
    requires b < |g.blocks|
  {
    i == |g.blocks[b].insns| ==> !EndsInBranch(g.blocks[b]) && !EndsInReturn(g.blocks[b])
  }

  ghost function ListingOf(g: Graph, v: View): (r: Listing)
    requires WellFormed(g) && Tidy(g, v)
    ensures |r.origins| == |r.code| == |v.items|
    ensures r.code == Code(v.items, v.labels)
  {
    Listing(
      Code(v.items, v.labels), OriginsOf(v.items), map b | b in v.placed :: |v.sites[b].start.items|,
      (b: nat, i: nat) => |CursorAt(v, b, i).items|,
      (b: nat, i: nat) =>
        if b < |g.blocks| && i < |g.blocks[b].insns| then PopsBefore(g.blocks[b].insns[i], CursorAt(v, b, i))
        else CursorAt(v, b, i).kills,
      (b: nat, i: nat) => CursorAt(v, b, i + 1).frames)
  }

  function CursorAt(v: View, b: BlockId, i: nat): Cursor {
    if b in v.sites && i < |v.sites[b].cursors| then v.sites[b].cursors[i] else Cursor([], map[], map[], 0, 0, false)
  }

  lemma SoundBlock(g: Graph, v: View, b: BlockId)
    requires Faithful(g, v) && b in v.placed
    ensures b < |g.blocks| && Sound(g, v, b) && WellFormedBlock(g.blocks[b])
  {
    assert Sound(g, v, b);
  }

  lemma LabelOf(g: Graph, v: View, b: BlockId)
    requires Faithful(g, v) && b in v.placed
    ensures b in v.labels && v.labels[b] == |v.sites[b].start.items|
  {
    SoundBlock(g, v, b);
    LabelIsStart(g, v, b);
  }

  lemma LaidBlock(g: Graph, v: View, b: BlockId)
    requires Faithful(g, v) && b in v.placed
    ensures b < |g.blocks| && Laid(g, v, b)
  {
    assert Sound(g, v, b);
  }

  lemma HasCursors(g: Graph, v: View, b: BlockId)
    requires Laid(g, v, b)
    ensures b < |g.blocks| && b in v.sites && |v.sites[b].cursors| == |g.blocks[b].insns| + 1
  {
  }

  /** What is in the listing at an instruction. */
  lemma InListing(g: Graph, v: View, b: BlockId, i: nat)
    requires WellFormed(g) && Tidy(g, v) && Laid(g, v, b) && i < |g.blocks[b].insns|
    ensures var l := ListingOf(g, v);
            var pc := l.pos(b, i) + l.pops(b, i);
            var op := OpOf(g.blocks[b].insns[i], l.frames(b, i));
            && OnlyPops(l, l.pos(b, i), l.pops(b, i))
            && (!LeadsWithPops(g.blocks[b].insns[i]) ==> l.pops(b, i) == 0)
            && (op.Some? ==> CodeIs(l, pc, Resolve(op.value, v.labels), Some((b, i))) && l.pos(b, i + 1) == pc + 1)
            && (op.None? ==> l.pos(b, i + 1) == pc)
  {
    hide Laid, Tidy, WellFormed, OpOf;
    HasCursors(g, v, b);
    CodeAt(g, v, b, i);
  }

  /** What is in the listing at the end of a block. */
  lemma InListingAtEnd(g: Graph, v: View, b: BlockId)
    requires WellFormed(g) && Tidy(g, v) && Laid(g, v, b)
    ensures var l := ListingOf(g, v);
            var n, s := |g.blocks[b].insns|, g.blocks[b].succ0;
            var pc := l.pos(b, n) + l.pops(b, n);
            && OnlyPops(l, l.pos(b, n), l.pops(b, n))
            && (s.Some? && s.value in v.sites[b].seen && !EndsInBranch(g.blocks[b]) ==>
                  CodeIs(l, pc, Resolve(Jump(s.value), v.labels), None))
            && (s.Some? && Fresh(v, b, s.value) && Adjacent(g, v, b, s.value) ==>
                  |v.sites[s.value].start.items| == pc)
  {
    hide Tidy, WellFormed, EndsInBranch, Adjacent;
    CodeAtEnd(g, v, b);
  }

  lemma EndRealized(g: Graph, v: View, b: BlockId)
    requires Faithful(g, v) && b in v.placed && b < |g.blocks| && Reached(g, b, |g.blocks[b].insns|)
    ensures Realized(g, ListingOf(g, v), b, |g.blocks[b].insns|)
  {
    hide Laid, Tidy, ListingOf, OnlyPops, Sound, WellFormed;
    LaidBlock(g, v, b);
    FaithfulFrame(g, v);
    InListingAtEnd(g, v, b);
    var s := SuccessorsPlaced(g, v, b);
    StartIs(g, v, s);
  }

  /** A block that does not end in a return leads to placed blocks, the first of them fresh or laid out before. */
  lemma SuccessorsPlaced(g: Graph, v: View, b: BlockId) returns (s: BlockId)
    requires Faithful(g, v) && b in v.placed && b < |g.blocks| && !EndsInReturn(g.blocks[b])
    ensures WellFormedBlock(g.blocks[b]) && b in v.sites
    ensures g.blocks[b].succ0 == Some(s) && s in v.placed
    ensures g.blocks[b].succ1.Some? ==> g.blocks[b].succ1.value in v.placed && Fresh(v, b, s)
    ensures !EndsInBranch(g.blocks[b]) && s !in v.sites[b].seen ==> Fresh(v, b, s)
    ensures Fresh(v, b, s) ==> Adjacent(g, v, b, s)
  {
    SoundBlock(g, v, b);
    s := g.blocks[b].succ0.value;
    assert s in Succs(g.blocks[b]);
    if g.blocks[b].succ1.Some? { assert g.blocks[b].succ1.value in Succs(g.blocks[b]); }
  }

  lemma FaithfulFrame(g: Graph, v: View)
    requires Faithful(g, v)
    ensures WellFormed(g) && Tidy(g, v)
  {
  }

  lemma StartIs(g: Graph, v: View, b: BlockId)
    requires Faithful(g, v) && b in v.placed
    ensures var l := ListingOf(g, v);
            && b in l.start && b in v.labels && b in v.sites
            && l.start[b] == v.labels[b] == |v.sites[b].start.items|
  {
    LabelOf(g, v, b);
  }

  /** The terminator of a block comes behind all the pops of the block. */
  lemma NothingOwedBehind(g: Graph, v: View, b: BlockId, i: nat)
    requires WellFormed(g) && Tidy(g, v) && Laid(g, v, b) && i + 1 == |g.blocks[b].insns|
    requires LeadsWithPops(g.blocks[b].insns[i])
    ensures ListingOf(g, v).pops(b, i + 1) == 0
  {
    hide Laid, Tidy, WellFormed;
    HasCursors(g, v, b);
    CodeAt(g, v, b, i);
  }

  lemma BranchIsLast(g: Graph, b: BlockId, i: nat)
    requires WellFormed(g) && b < |g.blocks| && i < |g.blocks[b].insns| && IsBranch(g.blocks[b].insns[i])
    ensures i + 1 == |g.blocks[b].insns| && EndsInBranch(g.blocks[b]) && !EndsInReturn(g.blocks[b])
  {
    assert WellFormedBlock(g.blocks[b]);
  }

  lemma BranchRealized(g: Graph, v: View, b: BlockId, i: nat)
    requires Faithful(g, v) && b in v.placed && b < |g.blocks| && i < |g.blocks[b].insns|
    requires IsBranch(g.blocks[b].insns[i])
    ensures Realized(g, ListingOf(g, v), b, i)
  {
    hide Laid, Tidy, ListingOf, OnlyPops, Sound, WellFormed, Adjacent, Fresh;
    LaidBlock(g, v, b);
    FaithfulFrame(g, v);
    BranchIsLast(g, b, i);
    InListing(g, v, b, i);
    var s := SuccessorsPlaced(g, v, b);
    StartIs(g, v, s);
    if g.blocks[b].insns[i].Branch? {
      StartIs(g, v, g.blocks[b].succ1.value);
      InListingAtEnd(g, v, b);
      NothingOwedBehind(g, v, b, i);
    }
  }

  lemma InsnRealized(g: Graph, v: View, b: BlockId, i: nat)
    requires Faithful(g, v) && b in v.placed && b < |g.blocks| && i < |g.blocks[b].insns|
    requires !IsBranch(g.blocks[b].insns[i])
    ensures Realized(g, ListingOf(g, v), b, i)
  {
    hide Code, Laid, OriginsOf, Tidy, WellFormed;
    LaidBlock(g, v, b);
    InListing(g, v, b, i);
  }

  /** The code of a faithful layout realizes the graph. */
  lemma FaithfulRealizes(g: Graph, v: View)
    requires Faithful(g, v)
    ensures Realizes(g, ListingOf(g, v))
  {
    var l := ListingOf(g, v);
    forall b | b in l.start ensures b < |g.blocks| && l.start[b] == l.pos(b, 0) && exists j :: Emits(g, b, j) {
      SoundBlock(g, v, b);
      var j :| 0 <= j < |g.blocks[b].insns| && FirstEmitting(g.blocks[b], j);
      assert Emits(g, b, j);
    }
    forall b: nat, i: nat | b in l.start && b < |g.blocks| && i <= |g.blocks[b].insns| && Reached(g, b, i)
      ensures Realized(g, l, b, i)
    {
      if i == |g.blocks[b].insns| { EndRealized(g, v, b); }
      else if IsBranch(g.blocks[b].insns[i]) { BranchRealized(g, v, b, i); }
      else { InsnRealized(g, v, b, i); }
    }
  }
}
