/** Bytes, and the integers that are written as eight of them, the most significant first. */
module Bytes {
  import opened Options

  type Byte = b: int | 0 <= b < 0x100

  const WORD: nat := 0x1_0000_0000_0000_0000

  type Uint64 = n: int | 0 <= n < 0x1_0000_0000_0000_0000

  type Int64 = n: int | -0x8000_0000_0000_0000 <= n < 0x8000_0000_0000_0000

  function Power(k: nat): (r: nat)
    ensures r > 0
  {
    if k == 0 then 1 else 0x100 * Power(k - 1)
  }

  /** The `k` low bytes of a number. */
  function BigEndian(n: nat, k: nat): (r: seq<Byte>)
    ensures |r| == k
  {
    if k == 0 then [] else BigEndian(n / 0x100, k - 1) + [n % 0x100]
  }

  function FromBigEndian(bytes: seq<Byte>): nat {
    if bytes == [] then 0 else 0x100 * FromBigEndian(bytes[..|bytes| - 1]) + bytes[|bytes| - 1]
  }

  lemma {:induction false} BigEndianRoundTrip(n: nat, k: nat)
    requires n < Power(k)
    ensures FromBigEndian(BigEndian(n, k)) == n
  {
    if k > 0 {
      assert n / 0x100 < Power(k - 1);
      BigEndianRoundTrip(n / 0x100, k - 1);
      var r := BigEndian(n, k);
      assert r[..k - 1] == BigEndian(n / 0x100, k - 1) && r[k - 1] == n % 0x100;
    }
  }

  lemma {:induction false} FromBigEndianBound(bytes: seq<Byte>)
    ensures FromBigEndian(bytes) < Power(|bytes|)
  {
    if bytes != [] { FromBigEndianBound(bytes[..|bytes| - 1]); }
  }

  lemma EightBytes()
    ensures Power(8) == WORD
  {
    assert Power(4) == 0x1_0000_0000 by {
      assert Power(1) == 0x100 && Power(2) == 0x1_0000 && Power(3) == 0x100_0000;
    }
    assert Power(5) == 0x100_0000_0000 && Power(6) == 0x1_0000_0000_0000 && Power(7) == 0x100_0000_0000_0000;
  }

  function Word(n: Uint64): (r: seq<Byte>)
    ensures |r| == 8
  {
    BigEndian(n, 8)
  }

  /** A signed number is written in two's complement. */
  function SignedWord(n: Int64): (r: seq<Byte>)
    ensures |r| == 8
  {
    Word(if n < 0 then n + WORD else n)
  }

  function ReadWord(bytes: seq<Byte>): Option<Uint64> {
    if |bytes| < 8 then None
    else
      FromBigEndianBound(bytes[..8]);
      EightBytes();
      Some(FromBigEndian(bytes[..8]))
  }

  function ReadSignedWord(bytes: seq<Byte>): Option<Int64> {
    match ReadWord(bytes)
    case Some(n) => Some(if n < 0x8000_0000_0000_0000 then n else n - WORD)
    case None => None
  }

  function ReadByte(bytes: seq<Byte>): Option<Byte> {
    if bytes == [] then None else Some(bytes[0])
  }

  lemma WordReads(n: Uint64, rest: seq<Byte>)
    ensures ReadWord(Word(n) + rest) == Some(n)
  {
    EightBytes();
    BigEndianRoundTrip(n, 8);
    assert (Word(n) + rest)[..8] == Word(n);
  }

  lemma SignedWordReads(n: Int64, rest: seq<Byte>)
    ensures ReadSignedWord(SignedWord(n) + rest) == Some(n)
  {
    WordReads(if n < 0 then n + WORD else n, rest);
  }

  /** A text ends before the first NUL. */
  function ReadText(bytes: seq<Byte>): Option<seq<Byte>> {
    if bytes == [] then None
    else if bytes[0] == 0 then Some([])
    else
      match ReadText(bytes[1..])
      case Some(text) => Some([bytes[0]] + text)
      case None => None
  }

  lemma {:induction false} TextReads(text: seq<Byte>, rest: seq<Byte>)
    requires 0 !in text
    ensures ReadText(text + [0] + rest) == Some(text)
  {
    var bytes := text + [0] + rest;
    if text == [] {
      assert bytes[0] == 0;
    } else {
      assert bytes[0] == text[0] && [text[0]] + text[1..] == text;
      assert bytes[1..] == text[1..] + [0] + rest;
      TextReads(text[1..], rest);
    }
  }
}
