/**
 The writing of a program as it is performed: offsets are stored first, then bytes are written one operand at a time.
 */
module Serializer {
  import opened Options
  import opened Bytes
  import opened Bytecode
  import opened Binary

  const MAGIC: seq<Byte> := [0x89, 0x4C, 0x53, 0x54, 0x46, 0x01, 0x0A, 0x00]

  const DATA: seq<Byte> := [0x64, 0x61, 0x74, 0x61, 0]       // "data"

  const CODE: seq<Byte> := [0x63, 0x6F, 0x64, 0x65, 0]       // "code"

  /** Memory that is written to; it does not run out. Writing reports the number of bytes written. */
  class OutputStream {
    var bytes: seq<Byte>

    constructor ()
      ensures bytes == []
    {
      bytes := [];
    }

    method WriteByte(b: Byte) returns (n: nat)
      modifies this
      ensures n == 1 && bytes == old(bytes) + [b]
    {
      bytes := bytes + [b];
      n := 1;
    }

    method WriteWord(w: Uint64) returns (n: nat)
      modifies this
      ensures n == 8 && bytes == old(bytes) + Word(w)
    {
      bytes := bytes + Word(w);
      n := 8;
    }

    method WriteSignedWord(w: Int64) returns (n: nat)
      modifies this
      ensures n == 8 && bytes == old(bytes) + SignedWord(w)
    {
      n := WriteWord(if w < 0 then w + WORD else w);
    }

    method WriteString(text: seq<Byte>) returns (n: nat)
      modifies this
      ensures n == |text| && bytes == old(bytes) + text
    {
      bytes := bytes + text;
      n := |text|;
    }
  }

  /** The function of that name. */
  function FunctionNamed(functions: seq<Function>, name: string): (r: Option<nat>)
    ensures r.Some? ==> r.value < |functions| && functions[r.value].name == name
    ensures r.None? ==> forall f | 0 <= f < |functions| :: functions[f].name != name
  {
    if functions == [] then None
    else if functions[|functions| - 1].name == name then Some(|functions| - 1)
    else FunctionNamed(functions[..|functions| - 1], name)
  }

  /** There is a main function with instructions. */
  predicate HasMain(p: Program) {
    var f := FunctionNamed(p.functions, "main");
    f.Some? && p.functions[f.value].code != []
  }

  ghost function Header(p: Program): seq<Byte>
    requires Linked(p) && HasMain(p)
  {
    MAGIC + Word(StartOf(p, FunctionNamed(p.functions, "main").value, 0))
    + (if p.data != [] then DATA + Word(|p.data|) else [])
    + CODE + Word(CodeSize(p)) + [0]
  }

  ghost function FileOf(p: Program): seq<Byte>
    requires Linked(p) && HasMain(p)
  {
    Header(p) + p.data + CodeBytes(p)
  }

  /** The text of an expression is empty, which the stream reports like a failure to write it. */
  predicate Fails(i: Instr<nat, Option<nat>>) { i.LoadExpression? && i.text == [] }

  ghost predicate NoneFails(p: Program) {
    forall f: nat, i: nat {:trigger p.functions[f].code[i]} | f < |p.functions| && i < |p.functions[f].code| ::
      !Fails(p.functions[f].code[i])
  }

  class Writer {
    const program: Program
    var codeOffsets: map<nat, seq<nat>>
    const out: OutputStream

    constructor (p: Program, out: OutputStream)
      ensures program == p && codeOffsets == map[] && this.out == out
    {
      program, codeOffsets, this.out := p, map[], out;
    }

    /** The offsets of the first `n` functions are stored. */
    ghost predicate Stored(n: nat)
      requires n <= |program.functions|
      reads this`codeOffsets
    {
      forall f: nat {:trigger f in codeOffsets} | f < n ::
        && f in codeOffsets && |codeOffsets[f]| == |program.functions[f].code|
        && forall i: nat | i < |codeOffsets[f]| :: codeOffsets[f][i] == OffsetOf(program, f, i)
    }

    /** Computes the offset of every instruction, and the size of the code. */
    method ComputeCodeSizeAndOffsets() returns (size: nat)
      modifies this`codeOffsets
      ensures Stored(|program.functions|) && size == CodeSize(program)
    {
      size := 0;
      for f := 0 to |program.functions|
        invariant Stored(f) && size == SizeBefore(program, f)
      {
        var code := program.functions[f].code;
        var offsets: seq<nat> := [];
        for i := 0 to |code|
          invariant |offsets| == i && size == OffsetOf(program, f, i)
          invariant forall k: nat | k < i :: offsets[k] == OffsetOf(program, f, k)
        {
          offsets := offsets + [size];
          size := size + ComputeSize(code[i]);
        }
        codeOffsets := codeOffsets[f := offsets];
      }
    }

    /** The offset that was stored for an instruction. */
    function GetInstructionOffset(f: nat, i: nat): (r: Uint64)
      requires f < |program.functions| && i < |program.functions[f].code| && Stored(|program.functions|)
      requires CodeSize(program) < WORD
      reads this`codeOffsets
      ensures r == StartOf(program, f, i)
    {
      assert f in codeOffsets;
      OffsetInCode(program, f, i);
      codeOffsets[f][i]
    }

    method WriteUpvalues(us: seq<Upvalue>)
      modifies out
      ensures out.bytes == old(out.bytes) + EncodeUpvalues(us)
    {
      for k := 0 to |us|
        invariant out.bytes == old(out.bytes) + EncodeUpvalues(us[..k])
      {
        assert us[..k + 1][..k] == us[..k];
        var _ := out.WriteByte(if us[k].isLocal then 1 else 0);
        var _ := out.WriteSignedWord(us[k].index);
        assert out.bytes == old(out.bytes) + (EncodeUpvalues(us[..k]) + EncodeUpvalue(us[k]));
      }
      assert us[..|us|] == us;
    }

    /** Writes the operands of an instruction of `f`. */
    method WriteOperands(f: nat, insn: Instr<nat, Option<nat>>) returns (ok: bool)
      requires CodeSize(program) < WORD && f < |program.functions| && Stored(|program.functions|)
      requires Bound(program, f, insn) && Encodable(insn)
      modifies out
      ensures ok <==> !Fails(insn)
      ensures out.bytes == old(out.bytes) + if ok then Operands(Resolve(program, f, insn)) else []
    {
      ok := true;
      match insn
      case LoadFrame(n) => var _ := out.WriteSignedWord(n);
      case LoadData(n) => var _ := out.WriteWord(n);
      case LoadCode(g) => var _ := out.WriteWord(GetInstructionOffset(g, 0));
      case LoadExpression(text) =>
        var n := out.WriteString(text);
        if n == 0 { return false; }
        var _ := out.WriteByte(0);
        assert out.bytes == old(out.bytes) + (text + [0]);
      case StoreFrame(n) => var _ := out.WriteSignedWord(n);
      case Params(n) => var _ := out.WriteByte(n);
      case Call(g) => var _ := out.WriteWord(GetInstructionOffset(g, 0));
      case Schedule(g, n) =>
        var _ := out.WriteWord(GetInstructionOffset(g, 0));
        var _ := out.WriteByte(n);
        assert out.bytes == old(out.bytes) + (Word(StartOf(program, g, 0)) + [n]);
      case ScheduleIndirect(n) => var _ := out.WriteByte(n);
      case Closure(g, us) => WriteClosure(g, us);
      case UpGet(n) => var _ := out.WriteByte(n);
      case UpSet(n) => var _ := out.WriteByte(n);
      case VmCall(n) => var _ := out.WriteByte(n);
      case Else(t) => var _ := out.WriteWord(GetInstructionOffset(f, t.value));
      case Jump(t) => var _ := out.WriteWord(GetInstructionOffset(f, t.value));
      case Exit(n) => var _ := out.WriteByte(n);
      case Plain(_) =>
    }

    method WriteClosure(g: nat, us: seq<Upvalue>)
      requires CodeSize(program) < WORD && HasStart(program, g) && Stored(|program.functions|) && |us| < 0x100
      modifies out
      ensures out.bytes == old(out.bytes) + ([|us|] + Word(StartOf(program, g, 0)) + EncodeUpvalues(us))
    {
      var _ := out.WriteByte(|us|);
      var _ := out.WriteWord(GetInstructionOffset(g, 0));
      WriteUpvalues(us);
    }

    /** Writes an instruction; what comes before it is where its offset says. */
    method WriteInstruction(f: nat, i: nat, ghost was: seq<Byte>) returns (ok: bool)
      requires Linked(program) && f < |program.functions| && i < |program.functions[f].code|
               && Stored(|program.functions|)
      requires out.bytes == was + Written(program, f, i)
      modifies out
      ensures ok <==> !Fails(program.functions[f].code[i])
      ensures ok ==> out.bytes == was + Written(program, f, i + 1)
      ensures !ok ==> out.bytes == was + Written(program, f, i) + [4]
    {
      hide Linked, Written, Operands, Stored, Resolve, Encodable, Bound;
      var insn := program.functions[f].code[i];
      InstructionFits(program, f, i);
      WrittenNext(program, f, i);
      OpcodeKept(program, f, insn);
      var _ := out.WriteByte(Opcode(insn));
      ok := WriteOperands(f, insn);
      if ok {
        assert out.bytes == was + (Written(program, f, i) + Encode(Resolve(program, f, insn)));
      }
    }

    /** Writes the code of all functions. */
    method WriteCode(ghost was: seq<Byte>) returns (ok: bool)
      requires Linked(program) && Stored(|program.functions|) && out.bytes == was
      modifies out
      ensures ok <==> NoneFails(program)
      ensures ok ==> out.bytes == was + CodeBytes(program)
      ensures !ok ==> FailedAt(program, was, out.bytes)
    {
      hide Linked, Written, Stored, EncodeAll;
      assert EncodeAll([]) == [] by { NothingEncoded(); }
      for f := 0 to |program.functions|
        invariant out.bytes == was + EncodeAll(Flattened(program, f))
        invariant forall g: nat, i: nat | g < f && i < |program.functions[g].code| ::
                  !Fails(program.functions[g].code[i])
      {
        WrittenFirst(program, f);
        for i := 0 to |program.functions[f].code|
          invariant out.bytes == was + Written(program, f, i)
          invariant forall k: nat | k < i :: !Fails(program.functions[f].code[k])
        {
          ok := WriteInstruction(f, i, was);
          if !ok { return; }
        }
      }
      ok := true;
    }

    /** Writes the whole program. It stops early at the first expression whose text is empty. */
    method SerializeToBinary() returns (ok: bool)
      requires Linked(program) && HasMain(program) && out.bytes == []
      modifies this`codeOffsets, out
      ensures ok <==> NoneFails(program)
      ensures ok ==> out.bytes == FileOf(program)
      ensures !ok ==> FailedAt(program, Header(program) + program.data, out.bytes)
    {
      var codeSize := ComputeCodeSizeAndOffsets();
      WriteHeader(codeSize);
      ok := WriteCode(Header(program) + program.data);
    }

    method WriteHeader(codeSize: nat)
      requires Linked(program) && HasMain(program) && Stored(|program.functions|) && codeSize == CodeSize(program)
      requires out.bytes == []
      modifies out
      ensures out.bytes == Header(program) + program.data
    {
      hide Stored, CodeSize, Word;
      var entry := GetInstructionOffset(FunctionNamed(program.functions, "main").value, 0);
      var _ := out.WriteString(MAGIC);
      var _ := out.WriteWord(entry);
      if |program.data| > 0 {
        var _ := out.WriteString(DATA);
        var _ := out.WriteWord(|program.data|);
      }
      var _ := out.WriteString(CODE);
      var _ := out.WriteWord(codeSize);
      var _ := out.WriteByte(0);
      if |program.data| > 0 {
        var _ := out.WriteString(program.data);
      }
    }
  }

  lemma OpcodeKept(p: Program, f: nat, insn: Instr<nat, Option<nat>>)
    requires CodeSize(p) < WORD && f < |p.functions| && Bound(p, f, insn)
    ensures Opcode(Resolve(p, f, insn)) == Opcode(insn) && (Fails(insn) ==> Opcode(insn) == 4)
  {
  }

  /** Writing has stopped behind the opcode of an expression with an empty text. */
  ghost predicate FailedAt(p: Program, was: seq<Byte>, bytes: seq<Byte>)
    requires Linked(p)
  {
    exists f: nat, i: nat :: f < |p.functions| && i < |p.functions[f].code| && Fails(p.functions[f].code[i]) &&
      bytes == was + Written(p, f, i) + [4]
  }

  /** The entry point in the header is the start of the main function, and the declared size is that of the code. */
  lemma HeaderIsTrue(p: Program)
    requires Linked(p) && HasMain(p)
    ensures var main := FunctionNamed(p.functions, "main").value;
            && |FileOf(p)| == |Header(p)| + |p.data| + CodeSize(p)
            && ReadWord(FileOf(p)[8..]) == Some(OffsetOf(p, main, 0))
            && ReadAt(p, OffsetOf(p, main, 0)) == Some(Resolve(p, main, p.functions[main].code[0]))
  {
    var main := FunctionNamed(p.functions, "main").value;
    CodeSizeIsLength(p);
    InstructionAtOffset(p, main, 0);
    EntryIsRead(p, StartOf(p, main, 0));
  }

  lemma EntryIsRead(p: Program, entry: Uint64)
    requires Linked(p) && HasMain(p) && CodeSize(p) < WORD && |p.data| < WORD
             && entry == StartOf(p, FunctionNamed(p.functions, "main").value, 0)
    ensures |FileOf(p)| >= 8 && ReadWord(FileOf(p)[8..]) == Some(entry)
  {
    hide Linked, HasMain, Word, ReadWord, CodeBytes, StartOf;
    var rest := (if p.data != [] then DATA + Word(|p.data|)
      else []) + CODE + Word(CodeSize(p)) + [0] + p.data + CodeBytes(p);
    assert FileOf(p) == MAGIC + (Word(entry) + rest);
    assert FileOf(p)[8..] == Word(entry) + rest;
    WordReads(entry, rest);
  }
}
