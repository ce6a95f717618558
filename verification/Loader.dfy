/** The loading of a program from its binary form, as the virtual machine does it; and that it gets what was written. */
module Loader {
  import opened Options
  import opened Bytes
  import opened Binary
  import opened Serializer

  /** Why a program is not loaded. Debug information is not part of this model. */
  datatype LoadError =
    | ReadFailed | InvalidMagic | InvalidSectionSize | TooLongSectionName | InvalidSectionName | ZeroSectionSize
    | NoCodeSection | InvalidEntryPoint | DebugInfoNotModelled

  datatype Sizes = Sizes(debugInfo: nat, comments: nat, data: nat, code: nat)

  /** The program, and what is left of the bytes behind it. */
  datatype Loaded =
    | Image(entryPoint: int, data: seq<Byte>, code: seq<Byte>, rest: seq<Byte>)
    | Rejected(error: LoadError)

  datatype LoadedSizes = Declared(sizes: Sizes, rest: seq<Byte>) | Malformed(error: LoadError)

  /** The first eight bytes as a number, the most significant first. */
  function NumberAt(b: seq<int>): int
    requires |b| >= 8
  {
    b[0] * 0x100_0000_0000_0000 + b[1] * 0x1_0000_0000_0000 + b[2] * 0x100_0000_0000 + b[3] * 0x1_0000_0000
    + b[4] * 0x100_0000 + b[5] * 0x1_0000 + b[6] * 0x100 + b[7]
  }

  function Ascii(s: string): seq<Byte> {
    seq(|s|, i requires 0 <= i < |s| => s[i] as int % 0x100)
  }

  /** The size of a section is noted under its name. */
  function Noted(name: seq<Byte>, size: int, entryPoint: int, sizes: Sizes): LoadedSizes {
    if size <= 0 then Malformed(ZeroSectionSize)
    else if name == Ascii("debuginfo") then Declared(sizes.(debugInfo := size), [])
    else if name == Ascii("comments") then Declared(sizes.(comments := size), [])
    else if name == Ascii("data") then Declared(sizes.(data := size), [])
    else if name == Ascii("code") then
      if entryPoint >= size then Malformed(InvalidEntryPoint) else Declared(sizes.(code := size), [])
    else Malformed(InvalidSectionName)
  }

  /** Reads names and sizes of sections, up to an empty name or the end. */
  function LoadSizes(bytes: seq<Byte>, entryPoint: int, sizes: Sizes): LoadedSizes
    decreases |bytes|
  {
    if |bytes| >= 128 && 0 !in bytes[..128] then Malformed(TooLongSectionName)
    else
      match ReadText(bytes)
      case None => Malformed(InvalidSectionSize)
      case Some(name) =>
        if |bytes| < |name| + 1 + 8 then Malformed(InvalidSectionSize)
        else
          var noted, rest := Noted(name, NumberAt(bytes[|name| + 1..]), entryPoint, sizes), bytes[|name| + 9..];
          if noted.Malformed? then noted
          else if rest == [] then Declared(noted.sizes, [])
          else if rest[0] == 0 then Declared(noted.sizes, rest[1..])
          else LoadSizes(rest, entryPoint, noted.sizes)
  }

  /** Reads the sections, whose order does not depend on that of their names. */
  function LoadSections(bytes: seq<Byte>, entryPoint: int, sizes: Sizes): Loaded {
    if sizes.debugInfo > 0 then Rejected(DebugInfoNotModelled)
    else if sizes.comments > |bytes| then Rejected(ReadFailed)
    else
      var behind := bytes[sizes.comments..];
      if sizes.data > |behind| then Rejected(InvalidSectionSize)
      else if sizes.code == 0 then Rejected(NoCodeSection)
      else if sizes.data + sizes.code > |behind| then Rejected(InvalidSectionSize)
      else Image(entryPoint, behind[..sizes.data], behind[sizes.data..sizes.data + sizes.code],
                 behind[sizes.data + sizes.code..])
  }

  function LoadDeclared(declared: LoadedSizes, entryPoint: int): Loaded {
    match declared
    case Malformed(error) => Rejected(error)
    case Declared(sizes, rest) => LoadSections(rest, entryPoint, sizes)
  }

  function Load(bytes: seq<Byte>): Loaded {
    if |bytes| < 8 then
      if bytes <= [0x89, 'L' as int, 'S' as int, 'T' as int, 'F' as int, 1, 10, 0] then Rejected(InvalidSectionSize)
      else Rejected(InvalidMagic)
    else if bytes[..8] != [0x89, 'L' as int, 'S' as int, 'T' as int, 'F' as int, 1, 10, 0] then Rejected(InvalidMagic)
    else if |bytes| < 17 || bytes[16] == 0 then Rejected(InvalidSectionSize)
    else
      LoadDeclared(LoadSizes(bytes[16..], NumberAt(bytes[8..]), Sizes(0, 0, 0, 0)), NumberAt(bytes[8..]))
  }

  // ----- what was written is loaded -----

  lemma NumberIsRead(n: Uint64, rest: seq<Byte>)
    ensures NumberAt(Word(n) + rest) == n
  {
    hide Word, FromBigEndian;
    var b := Word(n) + rest;
    WordReads(n, rest);
    assert b[..8] == Word(n);
    EightDigits(Word(n));
    ReadIsFromBigEndian(b);
  }

  lemma ReadIsFromBigEndian(b: seq<Byte>)
    requires |b| >= 8
    ensures ReadWord(b) == Some(FromBigEndian(b[..8]))
  {
  }

  lemma OneDigit(b: seq<Byte>, k: nat)
    requires k < |b|
    ensures FromBigEndian(b[..k + 1]) == 0x100 * FromBigEndian(b[..k]) + b[k]
  {
    assert b[..k + 1][..k] == b[..k];
  }

  lemma EightDigits(b: seq<Byte>)
    requires |b| == 8
    ensures FromBigEndian(b) == NumberAt(b)
  {
    hide FromBigEndian;
    NoDigits(b);
    OneDigit(b, 0);
    OneDigit(b, 1);
    OneDigit(b, 2);
    OneDigit(b, 3);
    OneDigit(b, 4);
    OneDigit(b, 5);
    OneDigit(b, 6);
    OneDigit(b, 7);
  }

  lemma NoDigits(b: seq<Byte>)
    ensures FromBigEndian(b[..0]) == 0 && b[..|b|] == b
  {
  }

  /** A section of the header is read. */
  lemma SectionIsRead(name: seq<Byte>, n: Uint64, rest: seq<Byte>, entryPoint: int, sizes: Sizes)
    requires 0 !in name && |name| < 128
    ensures var noted := Noted(name, n, entryPoint, sizes);
            LoadSizes(name + [0] + Word(n) + rest, entryPoint, sizes) ==
            if noted.Malformed? then noted
            else if rest == [] then Declared(noted.sizes, [])
            else if rest[0] == 0 then Declared(noted.sizes, rest[1..])
            else LoadSizes(rest, entryPoint, noted.sizes)
  {
    hide Word, Noted, NumberAt;
    var bytes := name + [0] + Word(n) + rest;
    assert bytes == name + [0] + (Word(n) + rest);
    TextReads(name, Word(n) + rest);
    assert bytes[|name|] == 0 && (|bytes| >= 128 ==> bytes[..128][|name|] == 0);
    assert bytes[|name| + 1..] == Word(n) + rest && bytes[|name| + 9..] == rest;
    NumberIsRead(n, rest);
  }

  lemma Names()
    ensures DATA == Ascii("data") + [0] && 0 !in Ascii("data") && |Ascii("data")| == 4
    ensures CODE == Ascii("code") + [0] && 0 !in Ascii("code") && |Ascii("code")| == 4
    ensures MAGIC == [0x89, 'L' as int, 'S' as int, 'T' as int, 'F' as int, 1, 10, 0]
    ensures Ascii("data") != Ascii("code") && |Ascii("debuginfo")| == 9 && |Ascii("comments")| == 8
  {
    assert Ascii("data")[0] != Ascii("code")[0];
  }

  /**
   A program that has been written is loaded: the entry point is the start of its main function, the data and the code
   are those that were written, each of the size that the header declares, and nothing is left over.
   */
  lemma LoadsWhatIsWritten(p: Binary.Program)
    requires Linked(p) && HasMain(p)
    ensures var main := FunctionNamed(p.functions, "main").value;
            Load(FileOf(p)) == Image(OffsetOf(p, main, 0), p.data, CodeBytes(p), [])
  {
    hide Linked, HasMain, Word, CodeBytes, OffsetOf, CodeSize, LoadSizes, NumberAt, Noted, Ascii, LoadSections,
      FunctionNamed;
    MainIsThere(p);
    var main := FunctionNamed(p.functions, "main").value;
    MainStarts(p, main);
    Names();
    CodeSizeIsLength(p);
    var entry: Uint64, size: Uint64 := StartOf(p, main, 0), CodeSize(p);
    var sections, behind := CODE + Word(size) + [0] + p.data + CodeBytes(p), p.data + CodeBytes(p);
    var names := if p.data != [] then DATA + Word(|p.data|) + sections else sections;
    FileParts(p, entry, size);
    assert sections == CODE + Word(size) + [0] + behind;
    assert FileOf(p) == MAGIC + (Word(entry) + names);
    SizesAreRead(p.data, size, behind, entry);
    HeaderIsRead(entry, names);
    SectionsAreRead(p.data, CodeBytes(p), entry);
  }

  lemma MainIsThere(p: Binary.Program)
    requires HasMain(p)
    ensures FunctionNamed(p.functions, "main").Some? && HasStart(p, FunctionNamed(p.functions, "main").value)
  {
  }

  lemma MainStarts(p: Binary.Program, main: nat)
    requires Linked(p) && HasStart(p, main)
    ensures main < |p.functions| && 0 < |p.functions[main].code| && OffsetOf(p, main, 0) < CodeSize(p) < WORD
    ensures |p.data| < WORD
  {
    OffsetInCode(p, main, 0);
  }

  lemma FileParts(p: Binary.Program, entry: Uint64, size: Uint64)
    requires Linked(p) && HasMain(p) && CodeSize(p) < WORD && |p.data| < WORD && size == CodeSize(p)
    requires FunctionNamed(p.functions, "main").Some?
    requires HasStart(p, FunctionNamed(p.functions, "main").value)
    requires entry == StartOf(p, FunctionNamed(p.functions, "main").value, 0)
    ensures var sections := CODE + Word(size) + [0] + p.data + CodeBytes(p);
            FileOf(p) == MAGIC + Word(entry) + if p.data != [] then DATA + Word(|p.data|) + sections else sections
  {
    hide Linked, Word, CodeBytes, StartOf, FunctionNamed;
  }

  lemma HeaderIsRead(entry: Uint64, names: seq<Byte>)
    requires names != [] && names[0] != 0
    ensures var bytes := MAGIC + (Word(entry) + names);
            Load(bytes) == LoadDeclared(LoadSizes(names, entry, Sizes(0, 0, 0, 0)), entry)
  {
    hide Word, NumberAt, LoadSizes, LoadSections;
    var bytes := MAGIC + (Word(entry) + names);
    Names();
    assert bytes[..8] == MAGIC && bytes[8..] == Word(entry) + names && bytes[16..] == names && bytes[16] == names[0];
    NumberIsRead(entry, names);
  }

  /** The two sections that are written are noted where they belong. */
  lemma SectionIsNoted(size: int, entry: int, sizes: Sizes)
    requires size > 0
    ensures Noted(Ascii("data"), size, entry, sizes) == Declared(sizes.(data := size), [])
    ensures entry < size ==> Noted(Ascii("code"), size, entry, sizes) == Declared(sizes.(code := size), [])
  {
    hide Ascii;
    Names();
  }

  lemma CodeSizeIsRead(size: Uint64, behind: seq<Byte>, entry: int, sizes: Sizes)
    requires entry < size && size > 0
    ensures var sections := CODE + Word(size) + [0] + behind;
            sections != [] && sections[0] != 0
            && LoadSizes(sections, entry, sizes) == Declared(sizes.(code := size), behind)
  {
    hide Word, LoadSizes, Ascii, Noted;
    Names();
    var code, sections := Ascii("code"), CODE + Word(size) + [0] + behind;
    assert sections == code + [0] + Word(size) + ([0] + behind);
    assert ([0] + behind)[0] == 0 && ([0] + behind)[1..] == behind && code[0] in code;
    SectionIsRead(code, size, [0] + behind, entry, sizes);
    SectionIsNoted(size, entry, sizes);
  }

  lemma SizesAreRead(data: seq<Byte>, size: Uint64, behind: seq<Byte>, entry: int)
    requires |data| < WORD && entry < size && size > 0
    ensures var sections := CODE + Word(size) + [0] + behind;
            var names := if data != [] then DATA + Word(|data|) + sections else sections;
            names != [] && names[0] != 0
            && LoadSizes(names, entry, Sizes(0, 0, 0, 0)) == Declared(Sizes(0, 0, |data|, size), behind)
  {
    hide Word, LoadSizes, Ascii, Noted;
    Names();
    var text := Ascii("data");
    var sections := CODE + Word(size) + [0] + behind;
    CodeSizeIsRead(size, behind, entry, Sizes(0, 0, |data|, 0));
    if data != [] {
      var names := DATA + Word(|data|) + sections;
      SectionIsRead(text, |data|, sections, entry, Sizes(0, 0, 0, 0));
      SectionIsNoted(|data|, entry, Sizes(0, 0, 0, 0));
      assert names == text + [0] + Word(|data|) + sections && text[0] in text;
      assert names[0] == text[0];
    }
  }

  lemma SectionsAreRead(data: seq<Byte>, code: seq<Byte>, entry: int)
    requires code != []
    ensures LoadSections(data + code, entry, Sizes(0, 0, |data|, |code|)) == Image(entry, data, code, [])
  {
    var behind := (data + code)[0..];
    assert behind[..|data|] == data && behind[|data|..|data| + |code|] == code;
  }
}
