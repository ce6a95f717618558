/** String literals: where the scanner finds their end, and what the escapes in them stand for. */
module StringLiterals {
  import opened Options
  import opened Bytes

  type Text = seq<Byte>

  const NUL: Byte := 0
  const NEWLINE: Byte := 10
  const RETURN: Byte := 13
  const DOUBLE_QUOTE: Byte := 34
  const SINGLE_QUOTE: Byte := 39
  const BACKSLASH: Byte := 92

  /** The content of a script ends with a NUL. */
  predicate Terminated(s: Text) { s != [] && s[|s| - 1] == NUL }

  predicate IsQuote(c: Byte) { c == DOUBLE_QUOTE || c == SINGLE_QUOTE }

  predicate BreaksLine(c: Byte) { c == NEWLINE || c == RETURN }

  // ----- scanning -----

  /** Where the scanner stops inside a string: at the closing quote, or at what cannot be part of the string. */
  function StopOf(s: Text, quote: Byte, k: nat): (r: nat)
    requires Terminated(s) && k < |s|
    ensures k <= r < |s|
    decreases |s| - k
  {
    if s[k] == NUL || s[k] == quote then k
    else if s[k] == BACKSLASH then
      if s[k + 1] == NUL || BreaksLine(s[k + 1]) then k else StopOf(s, quote, k + 2)
    else if BreaksLine(s[k]) then k
    else StopOf(s, quote, k + 1)
  }

  /** The end of the string literal that starts with the quote at `begin`, unless it is not terminated. */
  function ScanString(s: Text, begin: nat): Option<nat>
    requires Terminated(s) && begin + 1 < |s| && IsQuote(s[begin])
  {
    var stop := StopOf(s, s[begin], begin + 1);
    if s[stop] == s[begin] then Some(stop + 1) else None
  }

  /** The scanner, moving over the characters. */
  method Scan(s: Text, begin: nat) returns (end: Option<nat>)
    requires Terminated(s) && begin + 1 < |s| && IsQuote(s[begin])
    ensures end == ScanString(s, begin)
  {
    var quote, k := s[begin], begin + 1;
    while s[k] != NUL && s[k] != quote
      invariant begin < k < |s| && StopOf(s, quote, begin + 1) == StopOf(s, quote, k)
      decreases |s| - k
    {
      if s[k] == BACKSLASH {
        if s[k + 1] == NUL || BreaksLine(s[k + 1]) { break; }
        k := k + 1;
      } else if BreaksLine(s[k]) {
        break;
      }
      k := k + 1;
    }
    end := if s[k] == quote then Some(k + 1) else None;
  }

  // ----- escapes -----

  /** What the character behind a backslash stands for: a control character, or itself. */
  function Meaning(c: Byte): Byte {
    if c == 'a' as int then 7
    else if c == 'b' as int then 8
    else if c == 'f' as int then 12
    else if c == 'n' as int then NEWLINE
    else if c == 'r' as int then RETURN
    else if c == 'v' as int then 11
    else c
  }

  /** No backslash is the last character, unless it is escaped. */
  predicate Complete(t: Text) {
    if t == [] then true
    else if t[0] == BACKSLASH then |t| > 1 && Complete(t[2..])
    else Complete(t[1..])
  }

  function Unescape(t: Text): Text
    requires Complete(t)
  {
    if t == [] then []
    else if t[0] == BACKSLASH then [Meaning(t[1])] + Unescape(t[2..])
    else [t[0]] + Unescape(t[1..])
  }

  /** The position of the next backslash, from `i` on. */
  method Find(t: Text, i: nat) returns (j: nat)
    requires i <= |t|
    ensures i <= j <= |t| && BACKSLASH !in t[i..j] && (j < |t| ==> t[j] == BACKSLASH)
  {
    j := i;
    while j < |t| && t[j] != BACKSLASH
      invariant i <= j <= |t| && BACKSLASH !in t[i..j]
    {
      assert t[i..j + 1] == t[i..j] + [t[j]];
      j := j + 1;
    }
  }

  lemma FirstApart(t: Text, j: nat)
    requires 0 < j <= |t| && BACKSLASH !in t[..j]
    ensures t[0] != BACKSLASH && BACKSLASH !in t[1..][..j - 1]
    ensures t[..j] == [t[0]] + t[1..][..j - 1] && t[1..][j - 1..] == t[j..]
  {
    assert t[0] == t[..j][0];
    assert t[1..][..j - 1] == t[..j][1..];
  }

  lemma FirstIsCopied(t: Text)
    requires Complete(t) && t != [] && t[0] != BACKSLASH
    ensures Complete(t[1..]) && Unescape(t) == [t[0]] + Unescape(t[1..])
  {
  }

  lemma {:induction false} UnescapeCopies(t: Text, j: nat)
    requires j <= |t| && BACKSLASH !in t[..j] && Complete(t)
    ensures Complete(t[j..]) && Unescape(t) == t[..j] + Unescape(t[j..])
    decreases j
  {
    hide Complete, Unescape;
    if j == 0 {
      assert t[0..] == t && t[..0] == [];
    } else {
      FirstApart(t, j);
      FirstIsCopied(t);
      UnescapeCopies(t[1..], j - 1);
    }
  }

  lemma CopiesRest(t: Text, i: nat)
    requires i <= |t| && BACKSLASH !in t[i..] && Complete(t[i..])
    ensures Unescape(t[i..]) == t[i..]
  {
    var rest := t[i..];
    assert rest[..|rest|] == rest && rest[|rest|..] == [];
    UnescapeCopies(rest, |rest|);
  }

  /** The string that a literal stands for: everything up to the next backslash is copied, and one escape at a time. */
  method GetString(t: Text) returns (buffer: Text)
    requires Complete(t)
    ensures buffer == Unescape(t)
  {
    hide Unescape, Complete;
    buffer := [];
    var i := 0;
    var j := Find(t, i);
    assert t[0..] == t;
    while j < |t|
      invariant i <= j <= |t| && BACKSLASH !in t[i..j] && (j < |t| ==> t[j] == BACKSLASH)
      invariant Complete(t[i..]) && Unescape(t) == buffer + Unescape(t[i..])
    {
      Skip(t, i, j);
      buffer := buffer + t[i..j];
      buffer := buffer + [Meaning(t[j + 1])];
      i := j + 2;
      j := Find(t, i);
    }
    assert t[i..j] == t[i..];
    CopiesRest(t, i);
    buffer := buffer + t[i..];
  }

  lemma Skip(t: Text, i: nat, j: nat)
    requires i <= j < |t| && BACKSLASH !in t[i..j] && t[j] == BACKSLASH && Complete(t[i..])
    ensures j + 2 <= |t| && Complete(t[j + 2..])
    ensures Unescape(t[i..]) == t[i..j] + [Meaning(t[j + 1])] + Unescape(t[j + 2..])
  {
    assert t[i..][..j - i] == t[i..j] && t[i..][j - i..] == t[j..];
    UnescapeCopies(t[i..], j - i);
    assert t[j..][2..] == t[j + 2..];
  }

  /** Between its quotes, a literal that has been scanned is complete. */
  lemma {:induction false} ScannedIsComplete(s: Text, quote: Byte, k: nat)
    requires Terminated(s) && k < |s| && IsQuote(quote) && s[StopOf(s, quote, k)] == quote
    ensures Complete(s[k..StopOf(s, quote, k)])
    decreases |s| - k
  {
    var stop := StopOf(s, quote, k);
    if k < stop {
      if s[k] == BACKSLASH {
        ScannedIsComplete(s, quote, k + 2);
        assert s[k..stop][2..] == s[k + 2..stop];
      } else {
        ScannedIsComplete(s, quote, k + 1);
        assert s[k..stop][1..] == s[k + 1..stop];
      }
    }
  }

  // ----- which texts are literals -----

  /** A backslash stands right before, and is not itself escaped; `b` is where the content of the string begins. */
  predicate Escaped(s: Text, b: nat, k: nat)
    requires b <= k <= |s|
    decreases k
  {
    b < k && s[k - 1] == BACKSLASH && !Escaped(s, b, k - 1)
  }

  /** From `k` on, the first quote that is not escaped, with no NUL and no end of a line before it, escaped or not. */
  ghost predicate ClosesLiteral(s: Text, quote: Byte, b: nat, k: nat, r: nat)
    requires b <= k <= r < |s|
  {
    && s[r] == quote && !Escaped(s, b, r)
    && forall j | k <= j < r :: s[j] != NUL && !BreaksLine(s[j]) && (s[j] == quote ==> Escaped(s, b, j))
  }

  lemma {:induction false} StopsExactly(s: Text, quote: Byte, b: nat, k: nat, r: nat)
    requires Terminated(s) && IsQuote(quote) && b <= k <= r < |s| && !Escaped(s, b, k)
    ensures StopOf(s, quote, k) == r && s[r] == quote <==> ClosesLiteral(s, quote, b, k, r)
    decreases |s| - k
  {
    if r == k || s[k] == NUL || s[k] == quote || BreaksLine(s[k]) {
    } else if s[k] == BACKSLASH {
      assert Escaped(s, b, k + 1);
      if r > k + 1 && s[k + 1] != NUL && !BreaksLine(s[k + 1]) { StopsExactly(s, quote, b, k + 2, r); }
    } else {
      StopsExactly(s, quote, b, k + 1, r);
    }
  }

  /**
   A literal is scanned exactly up to the first quote of its kind that is not escaped; and there is none if the line or
   the script ends before.
   */
  lemma ScannedExactly(s: Text, begin: nat, end: nat)
    requires Terminated(s) && begin + 1 < |s| && IsQuote(s[begin])
    ensures ScanString(s, begin) == Some(end) <==>
              begin + 1 < end <= |s| && ClosesLiteral(s, s[begin], begin + 1, begin + 1, end - 1)
  {
    hide StopOf, ClosesLiteral;
    if begin + 1 < end <= |s| { StopsExactly(s, s[begin], begin + 1, begin + 1, end - 1); }
  }

  // ----- round trip -----

  /** How a character is written between quotes. */
  function EscapeOne(quote: Byte, c: Byte): (r: Text)
    ensures r == [c] || (|r| == 2 && r[0] == BACKSLASH)
  {
    if c == quote || c == BACKSLASH then [BACKSLASH, c]
    else if c == 7 then [BACKSLASH, 'a' as int]
    else if c == 8 then [BACKSLASH, 'b' as int]
    else if c == 12 then [BACKSLASH, 'f' as int]
    else if c == NEWLINE then [BACKSLASH, 'n' as int]
    else if c == RETURN then [BACKSLASH, 'r' as int]
    else if c == 11 then [BACKSLASH, 'v' as int]
    else [c]
  }

  function Escape(quote: Byte, t: Text): Text {
    if t == [] then [] else EscapeOne(quote, t[0]) + Escape(quote, t[1..])
  }

  lemma {:induction false} EscapeIsUndone(quote: Byte, t: Text)
    requires IsQuote(quote)
    ensures Complete(Escape(quote, t)) && Unescape(Escape(quote, t)) == t
  {
    if t != [] {
      EscapeIsUndone(quote, t[1..]);
      var one, rest := EscapeOne(quote, t[0]), Escape(quote, t[1..]);
      assert (one + rest)[|one|..] == rest;
      assert [t[0]] + t[1..] == t;
    }
  }

  lemma StopsAtQuote(s: Text, quote: Byte, k: nat)
    requires Terminated(s) && k < |s| && s[k] == quote
    ensures StopOf(s, quote, k) == k
  {
  }

  lemma Halves(s: Text, k: nat, a: Text, b: Text)
    requires k + |a| + |b| <= |s| && s[k..k + |a + b|] == a + b
    ensures s[k..k + |a|] == a && s[k + |a|..k + |a| + |b|] == b
  {
    assert s[k..k + |a + b|][..|a|] == a && s[k..k + |a + b|][|a|..] == b;
  }

  lemma OneIsSkipped(s: Text, quote: Byte, k: nat, c: Byte)
    requires Terminated(s) && IsQuote(quote) && c != NUL && k + |EscapeOne(quote, c)| < |s|
    requires s[k..k + |EscapeOne(quote, c)|] == EscapeOne(quote, c)
    ensures StopOf(s, quote, k) == StopOf(s, quote, k + |EscapeOne(quote, c)|)
  {
    var one := EscapeOne(quote, c);
    assert s[k] == one[0] && (|one| == 2 ==> s[k + 1] == one[1]);
  }

  /** Scanning stops at the quote behind an escaped text. */
  lemma {:induction false} EscapedIsSkipped(s: Text, quote: Byte, k: nat, t: Text)
    requires Terminated(s) && IsQuote(quote) && NUL !in t && k + |Escape(quote, t)| < |s|
    requires s[k..k + |Escape(quote, t)|] == Escape(quote, t) && s[k + |Escape(quote, t)|] == quote
    ensures StopOf(s, quote, k) == k + |Escape(quote, t)|
    decreases |t|
  {
    hide Unescape, Complete, BreaksLine, EscapeOne, StopOf;
    if t == [] {
      StopsAtQuote(s, quote, k);
    } else {
      var one, rest := EscapeOne(quote, t[0]), Escape(quote, t[1..]);
      Halves(s, k, one, rest);
      OneIsSkipped(s, quote, k, t[0]);
      EscapedIsSkipped(s, quote, k + |one|, t[1..]);
    }
  }

  /**
   A text without NUL, escaped and put between quotes, is scanned as one string, whatever surrounds it, and stands for
   that text.
   */
  lemma LiteralRoundTrip(before: Text, quote: Byte, t: Text, after: Text)
    requires IsQuote(quote) && NUL !in t && Terminated(after)
    ensures var literal := [quote] + Escape(quote, t) + [quote];
            var s := before + literal + after;
            && Terminated(s) && s[|before|] == quote
            && ScanString(s, |before|) == Some(|before| + |literal|)
            && var inner := s[|before| + 1..|before| + |literal| - 1];
               Complete(inner) && Unescape(inner) == t
  {
    hide Escape, Complete, Unescape, StopOf;
    var body := Escape(quote, t);
    var s, k := before + ([quote] + body + [quote]) + after, |before| + 1;
    InBetween(before, quote, body, after);
    EscapedIsSkipped(s, quote, k, t);
    EscapeIsUndone(quote, t);
  }

  lemma InBetween(before: Text, quote: Byte, body: Text, after: Text)
    requires Terminated(after)
    ensures var s, k := before + ([quote] + body + [quote]) + after, |before| + 1;
            && Terminated(s) && k + |body| < |s| && s[|before|] == quote
            && s[k..k + |body|] == body && s[k + |body|] == quote
  {
    var s := before + ([quote] + body + [quote]) + after;
    assert s[|s| - 1] == after[|after| - 1];
  }

  /** The characters that a backslash gives another meaning. */
  const LETTERS: set<Byte> := set k: nat | k < 6 :: "abfnrv"[k] as int

  /**
   A backslash in front of a character is left out exactly if that is none of six letters; so `\t` does not stand for a
   tab.
   */
  lemma EscapesExactly(c: Byte)
    ensures Complete([BACKSLASH, c]) && (Unescape([BACKSLASH, c]) == [c] <==> c !in LETTERS)
  {
    var t: Text := [BACKSLASH, c];
    assert t[2..] == [];
    assert Unescape(t) == [Meaning(c)];
    var letters := "abfnrv";
    assert letters[0] == 'a' && letters[1] == 'b' && letters[2] == 'f' && letters[3] == 'n' && letters[4] == 'r'
        && letters[5] == 'v';
  }

  /** What these six stand for: an alarm, a backspace, a new page, a new line, a return, and a vertical tab. */
  lemma LettersMean(c: Byte)
    ensures Complete([BACKSLASH, c])
    ensures c == 97 ==> Unescape([BACKSLASH, c]) == [7]
    ensures c == 98 ==> Unescape([BACKSLASH, c]) == [8]
    ensures c == 102 ==> Unescape([BACKSLASH, c]) == [12]
    ensures c == 110 ==> Unescape([BACKSLASH, c]) == [10]
    ensures c == 114 ==> Unescape([BACKSLASH, c]) == [13]
    ensures c == 118 ==> Unescape([BACKSLASH, c]) == [11]
    ensures c !in {97, 98, 102, 110, 114, 118} ==> Unescape([BACKSLASH, c]) == [c]
  {
    var t: Text := [BACKSLASH, c];
    assert t[2..] == [];
    assert Unescape(t) == [Meaning(c)];
  }
}
