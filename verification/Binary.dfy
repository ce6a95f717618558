/**
 The binary form of a program: a header, the data, and the code of all functions. Offsets into the code are computed
 before any of it is written.
 */
module Binary {
  import opened Options
  import opened Bytes
  import opened Bytecode

  type Code = seq<Instr<nat, Option<nat>>>

  /** Functions in the order in which they were added; they refer to each other by their place in it. */
  datatype Function = Function(name: string, code: Code)

  datatype Program = Program(functions: seq<Function>, data: seq<Byte>)

  // ----- offsets -----

  function SizeOf(code: Code, i: nat): nat
    requires i <= |code|
  {
    if i == 0 then 0 else SizeOf(code, i - 1) + ComputeSize(code[i - 1])
  }

  function SizeBefore(p: Program, f: nat): nat
    requires f <= |p.functions|
  {
    if f == 0 then 0 else SizeBefore(p, f - 1) + SizeOf(p.functions[f - 1].code, |p.functions[f - 1].code|)
  }

  function CodeSize(p: Program): nat { SizeBefore(p, |p.functions|) }

  /** The offset of instruction `i` of function `f`, or of the end of `f`. */
  function OffsetOf(p: Program, f: nat, i: nat): nat
    requires f < |p.functions| && i <= |p.functions[f].code|
  {
    SizeBefore(p, f) + SizeOf(p.functions[f].code, i)
  }

  lemma {:induction false} SizeOfGrows(code: Code, i: nat, j: nat)
    requires i < j <= |code|
    ensures SizeOf(code, i) + ComputeSize(code[i]) <= SizeOf(code, j)
  {
    if i + 1 < j { SizeOfGrows(code, i, j - 1); }
  }

  lemma {:induction false} SizeBeforeGrows(p: Program, f: nat, g: nat)
    requires f < g <= |p.functions|
    ensures OffsetOf(p, f, |p.functions[f].code|) <= SizeBefore(p, g)
  {
    if f + 1 < g { SizeBeforeGrows(p, f, g - 1); }
  }

  /** An offset is that of one instruction only. */
  lemma OffsetsDiffer(p: Program, f: nat, i: nat, g: nat, j: nat)
    requires f < |p.functions| && i < |p.functions[f].code| && g < |p.functions| && j < |p.functions[g].code|
    requires (f, i) != (g, j)
    ensures OffsetOf(p, f, i) != OffsetOf(p, g, j)
  {
    var a, b := p.functions[f].code, p.functions[g].code;
    if f == g {
      if i < j { SizeOfGrows(a, i, j); } else { SizeOfGrows(a, j, i); }
    } else if f < g {
      SizeOfGrows(a, i, |a|);
      SizeBeforeGrows(p, f, g);
    } else {
      SizeOfGrows(b, j, |b|);
      SizeBeforeGrows(p, g, f);
    }
  }

  lemma OffsetInCode(p: Program, f: nat, i: nat)
    requires f < |p.functions| && i <= |p.functions[f].code|
    ensures OffsetOf(p, f, i) + (if i < |p.functions[f].code| then ComputeSize(p.functions[f].code[i])
            else 0) <= CodeSize(p)
  {
    SizeBeforeGrows(p, f, |p.functions|);
    if i < |p.functions[f].code| { SizeOfGrows(p.functions[f].code, i, |p.functions[f].code|); }
  }

  // ----- programs that can be written -----

  predicate HasStart(p: Program, f: nat) { f < |p.functions| && p.functions[f].code != [] }

  /**
   The function that is referred to has instructions, and the jump has been resolved to an instruction of its function.
   */
  predicate Bound(p: Program, f: nat, i: Instr<nat, Option<nat>>)
    requires f < |p.functions|
  {
    match i
    case LoadCode(g) => HasStart(p, g)
    case Call(g) => HasStart(p, g)
    case Schedule(g, _) => HasStart(p, g)
    case Closure(g, _) => HasStart(p, g)
    case Else(t) => t.Some? && t.value < |p.functions[f].code|
    case Jump(t) => t.Some? && t.value < |p.functions[f].code|
    case _ => true
  }

  /** Every reference can be resolved, and offsets fit 64 bits. */
  ghost predicate Linked(p: Program) {
    && CodeSize(p) < WORD && |p.data| < WORD
    && forall f: nat, i: nat {:trigger p.functions[f].code[i]} | f < |p.functions| && i < |p.functions[f].code| ::
         Bound(p, f, p.functions[f].code[i]) && Encodable(p.functions[f].code[i])
  }

  /** The instruction with offsets in place of references. */
  function Resolve(p: Program, f: nat, i: Instr<nat, Option<nat>>): (r: Wire)
    requires CodeSize(p) < WORD && f < |p.functions| && Bound(p, f, i)
    ensures ComputeSize(r) == ComputeSize(i) && Opcode(r) == Opcode(i) && (Encodable(i) ==> Encodable(r))
  {
    match i
    case LoadFrame(n) => LoadFrame(n)
    case LoadData(n) => LoadData(n)
    case LoadCode(g) => LoadCode(StartOf(p, g, 0))
    case LoadExpression(text) => LoadExpression(text)
    case StoreFrame(n) => StoreFrame(n)
    case Params(n) => Params(n)
    case Call(g) => Call(StartOf(p, g, 0))
    case Schedule(g, n) => Schedule(StartOf(p, g, 0), n)
    case ScheduleIndirect(n) => ScheduleIndirect(n)
    case Closure(g, us) => Closure(StartOf(p, g, 0), us)
    case UpGet(n) => UpGet(n)
    case UpSet(n) => UpSet(n)
    case VmCall(n) => VmCall(n)
    case Else(t) => Else(StartOf(p, f, t.value))
    case Jump(t) => Jump(StartOf(p, f, t.value))
    case Exit(n) => Exit(n)
    case Plain(op) => Plain(op)
  }

  /** An offset, as a 64-bit number. */
  function StartOf(p: Program, f: nat, i: nat): (r: Uint64)
    requires CodeSize(p) < WORD && f < |p.functions| && i < |p.functions[f].code|
    ensures r == OffsetOf(p, f, i)
  {
    OffsetInCode(p, f, i);
    OffsetOf(p, f, i)
  }

  // ----- the code section -----

  /** The first `i` instructions of `f`, resolved. */
  ghost function ResolvedTo(p: Program, f: nat, i: nat): (r: seq<Wire>)
    requires Linked(p) && f < |p.functions| && i <= |p.functions[f].code|
    ensures |r| == i && AllEncodable(r)
  {
    seq(i, k requires 0 <= k < i => Resolve(p, f, p.functions[f].code[k]))
  }

  /** The instructions of the first `f` functions. */
  ghost function Flattened(p: Program, f: nat): (r: seq<Wire>)
    requires Linked(p) && f <= |p.functions|
    ensures AllEncodable(r)
  {
    if f == 0 then [] else Flattened(p, f - 1) + ResolvedTo(p, f - 1, |p.functions[f - 1].code|)
  }

  /** What has been written of the code when instruction `i` of `f` is next. */
  ghost function Written(p: Program, f: nat, i: nat): seq<Byte>
    requires Linked(p) && f < |p.functions| && i <= |p.functions[f].code|
  {
    EncodeAll(Flattened(p, f) + ResolvedTo(p, f, i))
  }

  ghost function CodeBytes(p: Program): seq<Byte>
    requires Linked(p)
  {
    EncodeAll(Flattened(p, |p.functions|))
  }

  lemma EncodeOneMore(xs: seq<Wire>, x: Wire)
    requires AllEncodable(xs) && Encodable(x)
    ensures AllEncodable(xs + [x]) && EncodeAll(xs + [x]) == EncodeAll(xs) + Encode(x)
  {
    assert (xs + [x])[..|xs|] == xs;
  }

  lemma WrittenNext(p: Program, f: nat, i: nat)
    requires Linked(p) && f < |p.functions| && i < |p.functions[f].code|
    ensures Written(p, f, i + 1) == Written(p, f, i) + Encode(Resolve(p, f, p.functions[f].code[i]))
  {
    var x := Resolve(p, f, p.functions[f].code[i]);
    assert ResolvedTo(p, f, i + 1) == ResolvedTo(p, f, i) + [x];
    assert Flattened(p, f) + ResolvedTo(p, f, i + 1) == (Flattened(p, f) + ResolvedTo(p, f, i)) + [x];
    EncodeOneMore(Flattened(p, f) + ResolvedTo(p, f, i), x);
  }

  lemma WrittenFirst(p: Program, f: nat)
    requires Linked(p) && f < |p.functions|
    ensures Written(p, f, 0) == EncodeAll(Flattened(p, f))
    ensures Written(p, f, |p.functions[f].code|) == EncodeAll(Flattened(p, f + 1))
  {
    assert Flattened(p, f) + ResolvedTo(p, f, 0) == Flattened(p, f);
  }

  lemma InstructionFits(p: Program, f: nat, i: nat)
    requires Linked(p) && f < |p.functions| && i < |p.functions[f].code|
    ensures CodeSize(p) < WORD && Bound(p, f, p.functions[f].code[i])
    ensures Encodable(p.functions[f].code[i]) && Encodable(Resolve(p, f, p.functions[f].code[i]))
  {
  }

  lemma NothingWritten(p: Program)
    requires Linked(p) && |p.functions| > 0
    ensures Written(p, 0, 0) == []
  {
    assert Flattened(p, 0) + ResolvedTo(p, 0, 0) == [];
  }

  /** Instructions are written where the offsets say. */
  lemma {:induction false} WrittenLength(p: Program, f: nat, i: nat)
    requires Linked(p) && f < |p.functions| && i <= |p.functions[f].code|
    ensures |Written(p, f, i)| == OffsetOf(p, f, i)
    decreases f, i
  {
    hide Resolve, Encode, Encodable, Written, Flattened, Linked;
    if i > 0 {
      InstructionFits(p, f, i - 1);
      WrittenLength(p, f, i - 1);
      WrittenNext(p, f, i - 1);
      SizeIsLength(Resolve(p, f, p.functions[f].code[i - 1]));
    } else {
      WrittenFirst(p, f);
      if f > 0 {
        WrittenLength(p, f - 1, |p.functions[f - 1].code|);
        WrittenFirst(p, f - 1);
      } else {
        NothingWritten(p);
      }
    }
  }

  /** The declared size of the code is the number of its bytes. */
  lemma CodeSizeIsLength(p: Program)
    requires Linked(p)
    ensures |CodeBytes(p)| == CodeSize(p)
  {
    hide Linked, Written, EncodeAll;
    if p.functions == [] {
      assert EncodeAll([]) == [] by { NothingEncoded(); }
    } else {
      var last := |p.functions| - 1;
      WrittenLength(p, last, |p.functions[last].code|);
      WrittenFirst(p, last);
    }
  }

  lemma NothingEncoded()
    ensures EncodeAll([]) == []
  {
  }

  lemma {:induction false} EncodePrefix(xs: seq<Wire>, ys: seq<Wire>)
    requires AllEncodable(xs) && AllEncodable(ys)
    ensures AllEncodable(xs + ys) && EncodeAll(xs + ys) == EncodeAll(xs) + EncodeAll(ys)
  {
    hide Encode, Encodable;
    if ys == [] {
      assert xs + ys == xs;
    } else {
      var before, last := ys[..|ys| - 1], ys[|ys| - 1];
      EncodePrefix(xs, before);
      assert xs + ys == (xs + before) + [last];
      EncodeOneMore(xs + before, last);
    }
  }

  lemma {:induction false} FlattenedGrows(p: Program, f: nat, g: nat)
    requires Linked(p) && f <= g <= |p.functions|
    ensures Flattened(p, f) <= Flattened(p, g)
  {
    if f < g { FlattenedGrows(p, f, g - 1); }
  }

  /** The bytes of the code from the offset of an instruction on. */
  lemma CodeFrom(p: Program, f: nat, i: nat) returns (rest: seq<Byte>)
    requires Linked(p) && f < |p.functions| && i < |p.functions[f].code|
    ensures CodeBytes(p) == Written(p, f, i) + Encode(Resolve(p, f, p.functions[f].code[i])) + rest
  {
    var xs, all := Flattened(p, f) + ResolvedTo(p, f, i + 1), Flattened(p, |p.functions|);
    FlattenedGrows(p, f + 1, |p.functions|);
    assert ResolvedTo(p, f, i + 1) <= ResolvedTo(p, f, |p.functions[f].code|);
    assert xs <= all;
    assert all == xs + all[|xs|..];
    EncodePrefix(xs, all[|xs|..]);
    WrittenNext(p, f, i);
    rest := EncodeAll(all[|xs|..]);
  }

  /** What is read in the code section from an offset on. */
  ghost function ReadAt(p: Program, offset: nat): Option<Wire>
    requires Linked(p)
  {
    if offset < |CodeBytes(p)| then Decode(CodeBytes(p)[offset..]) else None
  }

  lemma AfterPrefix<A>(a: seq<A>, b: seq<A>)
    ensures (a + b)[|a|..] == b
  {
  }

  /**
   Each instruction is found at the offset that was computed for it: reading there gives the instruction itself, its
   references resolved.
   */
  lemma InstructionAtOffset(p: Program, f: nat, i: nat)
    requires Linked(p) && f < |p.functions| && i < |p.functions[f].code|
    ensures ReadAt(p, OffsetOf(p, f, i)) == Some(Resolve(p, f, p.functions[f].code[i]))
  {
    InstructionFits(p, f, i);
    hide Linked, Resolve, Encodable, CodeBytes, Written, OffsetOf, Decode, Encode, Bound;
    var x := Resolve(p, f, p.functions[f].code[i]);
    var rest := CodeFrom(p, f, i);
    WrittenLength(p, f, i);
    SizeIsLength(x);
    AfterPrefix(Written(p, f, i), Encode(x) + rest);
    assert CodeBytes(p) == Written(p, f, i) + (Encode(x) + rest);
    DecodesBack(x, rest);
  }

  /** What the instruction at an offset refers to. */
  function Target(w: Wire): Option<Uint64> {
    match w
    case LoadCode(a) => Some(a)
    case Call(a) => Some(a)
    case Schedule(a, _) => Some(a)
    case Closure(a, _) => Some(a)
    case Else(a) => Some(a)
    case Jump(a) => Some(a)
    case _ => None
  }

  /** The instruction of the program that a reference stands for. */
  function Referred(f: nat, i: Instr<nat, Option<nat>>): Option<(nat, nat)> {
    match i
    case LoadCode(g) => Some((g, 0))
    case Call(g) => Some((g, 0))
    case Schedule(g, _) => Some((g, 0))
    case Closure(g, _) => Some((g, 0))
    case Else(t) => if t.Some? then Some((f, t.value)) else None
    case Jump(t) => if t.Some? then Some((f, t.value)) else None
    case _ => None
  }

  /** Following a reference in the bytes leads to the instruction that is referred to, and to no other. */
  lemma ReferencesLeadThere(p: Program, f: nat, i: nat, g: nat, j: nat)
    requires Linked(p) && f < |p.functions| && i < |p.functions[f].code|
    requires Referred(f, p.functions[f].code[i]) == Some((g, j))
    ensures g < |p.functions| && j < |p.functions[g].code|
    ensures var w := ReadAt(p, OffsetOf(p, f, i));
            && w.Some? && Target(w.value) == Some(OffsetOf(p, g, j))
            && ReadAt(p, OffsetOf(p, g, j)) == Some(Resolve(p, g, p.functions[g].code[j]))
    ensures forall h: nat, k: nat | h < |p.functions| && k < |p.functions[h].code|
            && OffsetOf(p, h, k) == OffsetOf(p, g, j) ::
              (h, k) == (g, j)
  {
    InstructionFits(p, f, i);
    hide Linked, ReadAt, OffsetOf;
    InstructionFits(p, g, j);
    InstructionAtOffset(p, f, i);
    InstructionAtOffset(p, g, j);
    forall h: nat, k: nat | h < |p.functions| && k < |p.functions[h].code| && (h, k) != (g, j)
      ensures OffsetOf(p, h, k) != OffsetOf(p, g, j)
    {
      OffsetsDiffer(p, h, k, g, j);
    }
  }

  /** Reading the code section gives back all instructions of the program. */
  lemma CodeDecodesBack(p: Program)
    requires Linked(p)
    ensures DecodeAll(CodeBytes(p)) == Some(Flattened(p, |p.functions|))
  {
    StreamDecodesBack(Flattened(p, |p.functions|));
  }

  /** Programs with the same code section have the same instructions. */
  lemma SameBytesSameCode(p: Program, q: Program)
    requires Linked(p) && Linked(q) && CodeBytes(p) == CodeBytes(q)
    ensures Flattened(p, |p.functions|) == Flattened(q, |q.functions|)
  {
    UniquelyDecodable(Flattened(p, |p.functions|), Flattened(q, |q.functions|));
  }
}
