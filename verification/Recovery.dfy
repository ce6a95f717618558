/** How the parser goes on behind a statement that has an error: it skips to what may be the start of a statement. */
module Recovery {
  import opened Grammar

  /** Keywords at which a statement may start. */
  predicate StartsByKeyword(t: Token) {
    || t == KeywordLet || t == KeywordAwait || t == KeywordFor || t == KeywordAsync || t == KeywordFun
    || t == KeywordEnum || t == KeywordInterface || t == KeywordType
  }

  /** A name in front of an assignment, or of `===`. */
  predicate StartsByName(ts: seq<Token>, i: nat)
    requires Ended(ts) && i < |ts|
  {
    ts[i].Ident? && (ts[i + 1] == Assignment || ts[i + 1] == Equivalent)
  }

  predicate StartsStatement(ts: seq<Token>, i: nat)
    requires Ended(ts) && i < |ts|
  {
    StartsByKeyword(ts[i]) || StartsByName(ts, i)
  }

  /**
   Where skipping from `i` stops. `started` says that the last statement has ended or another may have started, and
   `braces` counts the braces that have been opened since.
   */
  function SkipFrom(ts: seq<Token>, i: nat, started: bool, braces: nat): (r: nat)
    requires Ended(ts) && i < |ts|
    ensures i <= r < |ts|
    decreases |ts| - i
  {
    if (started && braces == 0) || ts[i] == Eof then i
    else if StartsByKeyword(ts[i]) then
      if braces > 0 then SkipFrom(ts, i + 1, true, braces) else i
    else if ts[i].Ident? then
      if StartsByName(ts, i) && braces == 0 then i else SkipFrom(ts, i + 1, StartsByName(ts, i), braces)
    else if ts[i] == Semicolon then SkipFrom(ts, i + 1, true, braces)
    else if ts[i] == OpenBrace then SkipFrom(ts, i + 1, started, braces + 1)
    else if ts[i] == CloseBrace then SkipFrom(ts, i + 1, started, if braces > 0 then braces - 1 else 0)
    else SkipFrom(ts, i + 1, started, braces)
  }

  function Recovered(ts: seq<Token>, i: nat): (r: nat)
    requires Ended(ts) && i < |ts|
    ensures i <= r < |ts|
  {
    SkipFrom(ts, i, false, 0)
  }

  /** Nothing is skipped exactly at the end, and where a statement may start. */
  lemma SkipsNothingExactly(ts: seq<Token>, i: nat)
    requires Ended(ts) && i < |ts|
    ensures Recovered(ts, i) == i <==> ts[i] == Eof || StartsStatement(ts, i)
  {
  }

  function BracesBehind(t: Token, braces: nat): nat {
    if t == OpenBrace then braces + 1 else if t == CloseBrace && braces > 0 then braces - 1 else braces
  }

  /** How many braces are open at `k`, of those from `i` on; a closing brace without an open one is passed over. */
  function Depth(ts: seq<Token>, i: nat, k: nat): nat
    requires i <= k <= |ts|
    decreases k - i
  {
    if i == k then 0
    else
      BracesBehind(ts[k - 1], Depth(ts, i, k - 1))
  }

  /** Outside of braces, a statement may start here, or one ends with a semicolon right before. */
  predicate Boundary(ts: seq<Token>, i: nat, k: nat)
    requires Ended(ts) && i <= k < |ts|
  {
    ts[k] == Eof || (Depth(ts, i, k) == 0 && (StartsStatement(ts, k) || (i < k && ts[k - 1] == Semicolon)))
  }

  /** A closing brace that ends what was opened behind `i`. */
  predicate Closed(ts: seq<Token>, i: nat, k: nat)
    requires Ended(ts) && i <= k < |ts|
  {
    i < k && ts[k - 1] == CloseBrace && Depth(ts, i, k - 1) == 1
  }

  /**
   Skipping stops at the end, or outside of braces: where a statement may start, directly behind a semicolon,
     or directly
   behind a brace that closes what was skipped; and it does not pass by such an end, start or semicolon.
   */
  lemma StopsAtStart(ts: seq<Token>, i: nat)
    requires Ended(ts) && i < |ts|
    ensures var r := Recovered(ts, i);
            && (Boundary(ts, i, r) || Closed(ts, i, r))
            && forall k | i <= k < r :: !Boundary(ts, i, k)
  {
    SkipsToBoundary(ts, i, i, false);
  }

  /** Skipping stops here. */
  predicate Halts(ts: seq<Token>, k: nat, started: bool, braces: nat)
    requires Ended(ts) && k < |ts|
  {
    (started && braces == 0) || ts[k] == Eof || (StartsStatement(ts, k) && braces == 0)
  }

  /** Whether a statement has ended or may have started, once a token has been skipped. */
  function StartedBehind(ts: seq<Token>, k: nat, started: bool): bool
    requires Ended(ts) && k < |ts|
  {
    if StartsByKeyword(ts[k]) || ts[k] == Semicolon then true
    else if ts[k].Ident? then StartsByName(ts, k)
    else started
  }

  lemma SkipsOne(ts: seq<Token>, k: nat, started: bool, braces: nat)
    requires Ended(ts) && k < |ts|
    ensures Halts(ts, k, started, braces) ==> SkipFrom(ts, k, started, braces) == k
    ensures !Halts(ts, k, started, braces) ==>
              k + 1 < |ts| && SkipFrom(ts, k, started, braces)
              == SkipFrom(ts, k + 1, StartedBehind(ts, k, started), BracesBehind(ts[k], braces))
  {
  }

  lemma DepthBehind(ts: seq<Token>, i: nat, k: nat)
    requires i <= k < |ts|
    ensures Depth(ts, i, k + 1) == BracesBehind(ts[k], Depth(ts, i, k))
  {
  }

  lemma DepthOfNone(ts: seq<Token>, i: nat)
    requires i <= |ts|
    ensures Depth(ts, i, i) == 0
  {
  }

  lemma {:induction false} SkipsToBoundary(ts: seq<Token>, i: nat, k: nat, started: bool)
    requires Ended(ts) && i <= k < |ts|
    requires started && Depth(ts, i, k) == 0 ==> Boundary(ts, i, k) || Closed(ts, i, k)
    requires i < k && ts[k - 1] == Semicolon ==> started
    ensures var r := SkipFrom(ts, k, started, Depth(ts, i, k));
            && (Boundary(ts, i, r) || Closed(ts, i, r))
            && forall j | k <= j < r :: !Boundary(ts, i, j)
    decreases |ts| - k
  {
    hide SkipFrom, StartsByKeyword, StartsByName, Depth;
    var braces := Depth(ts, i, k);
    SkipsOne(ts, k, started, braces);
    DepthOfNone(ts, i);
    if !Halts(ts, k, started, braces) {
      DepthBehind(ts, i, k);
      SkipsToBoundary(ts, i, k + 1, StartedBehind(ts, k, started));
    }
  }

  // ----- the tokens at which skipping stops -----

  /** Tokens at which a statement may start, whatever comes next. */
  const STARTS: set<Token> := {
    KeywordLet, KeywordAwait, KeywordFor, KeywordAsync, KeywordFun, KeywordEnum, KeywordInterface, KeywordType}

  /** A statement may start here, or the tokens end. */
  predicate StartOrEnd(ts: seq<Token>, i: nat)
    requires i < |ts|
  {
    ts[i] in STARTS || ts[i] == Eof || (i + 1 < |ts| && ts[i].Ident? && ts[i + 1] in {Assignment, Equivalent})
  }

  /** Skipping moves on unless it is at one of these tokens, or at a name directly ahead of `=` or `===`. */
  lemma SkipsOtherTokens(ts: seq<Token>, i: nat)
    requires Ended(ts) && i < |ts|
    ensures Recovered(ts, i) == i <==> StartOrEnd(ts, i)
  {
  }

  /** A token that is skipped, and that no statement ends at: neither a semicolon nor a brace. */
  predicate Within(ts: seq<Token>, i: nat)
    requires i < |ts|
  {
    !StartOrEnd(ts, i) && ts[i] != Semicolon && ts[i] != OpenBrace && ts[i] != CloseBrace
  }

  /**
   Past any tokens that are none of these, skipping goes up to the first at which a statement may start, and up to
   behind the first semicolon; and it stops at no other.
   */
  lemma {:induction false} StopsAtTokens(ts: seq<Token>, i: nat, k: nat)
    requires Ended(ts) && i <= k < |ts| && forall j: nat | i <= j < k :: Within(ts, j)
    ensures Recovered(ts, i) == k <==> StartOrEnd(ts, k)
    ensures ts[k] == Semicolon ==> Recovered(ts, i) == k + 1
    decreases k - i
  {
    hide Recovered;
    if i < k {
      SkipsOverToken(ts, i);
      StopsAtTokens(ts, i + 1, k);
    } else {
      SkipsOtherTokens(ts, i);
      if ts[k] == Semicolon { SkipsSemicolon(ts, i); }
    }
  }

  lemma SkipsOverToken(ts: seq<Token>, i: nat)
    requires Ended(ts) && i < |ts| && Within(ts, i)
    ensures i + 1 < |ts| && Recovered(ts, i) == Recovered(ts, i + 1)
  {
  }

  lemma SkipsSemicolon(ts: seq<Token>, i: nat)
    requires Ended(ts) && i < |ts| && ts[i] == Semicolon
    ensures i + 1 < |ts| && Recovered(ts, i) == i + 1
  {
    hide SkipFrom;
    SkipsOne(ts, i, false, 0);
    SkipsOne(ts, i + 1, true, 0);
  }

  // ----- rounds of the statement list -----

  /**
   A statement that has an error leaves the cursor where it started only if there is no kind of statement that starts
   with the current token, or the token is a name at the end of the file.
   */
  predicate StatementMoves(ts: seq<Token>, i: nat)
    requires Ended(ts) && i < |ts|
  {
    match ts[i]
    case Ident(_) => ts[i + 1] != Eof
    case KeywordAwait => true
    case KeywordLet => true
    case KeywordEnum => true
    case KeywordAsync => true
    case KeywordFun => true
    case KeywordInterface => true
    case KeywordType => true
    case KeywordReturn => true
    case KeywordIf => true
    case KeywordAssert => true
    case _ => false
  }

  /** Where the cursor may be behind a statement with an error that starts at `i`. */
  predicate Fails(ts: seq<Token>, i: nat, j: nat)
    requires Ended(ts) && i < |ts|
  {
    j < |ts| && (if StatementMoves(ts, i) then i < j else j == i)
  }

  /** A round that fails and recovers leaves the cursor where it was exactly if the statement starts with `for`. */
  lemma StuckExactly(ts: seq<Token>, i: nat, j: nat)
    requires Ended(ts) && i < |ts| && ts[i] != Eof && Fails(ts, i, j)
    ensures Recovered(ts, j) == i <==> ts[i] == KeywordFor
  {
    hide Recovered;
    SkipsNothingExactly(ts, j);
  }

  /** How a statement is left: with a tree, or with an error; and where the cursor is then. */
  datatype Turn = Parsed(at: nat) | Failed(at: nat)

  /** What a statement that starts at `i` may come to. */
  predicate Possible(ts: seq<Token>, i: nat, turn: Turn)
    requires Ended(ts) && i < |ts|
  {
    match turn
    case Parsed(j) => StatementMoves(ts, i) && i < j < |ts|
    case Failed(j) => Fails(ts, i, j)
  }

  /** A list ends at the end of the file, and a list in braces also at a closing brace. */
  predicate AtEnd(ts: seq<Token>, i: nat, root: bool)
    requires i < |ts|
  {
    ts[i] == Eof || (!root && ts[i] == CloseBrace)
  }

  /** Where the cursor is behind one statement of a list, after skipping if the statement has an error. */
  function Behind(ts: seq<Token>, turn: Turn): (r: nat)
    requires Ended(ts) && turn.at < |ts|
    ensures r < |ts|
  {
    if turn.Parsed? then turn.at else Recovered(ts, turn.at)
  }

  /** The cursor after at most `n` statements of a list, of which the one that starts at `k` comes to `turns(k)`. */
  function Rounds(ts: seq<Token>, i: nat, root: bool, turns: nat -> Turn, n: nat): (r: nat)
    requires Ended(ts) && i < |ts| && forall k: nat | k < |ts| :: Possible(ts, k, turns(k))
    ensures r < |ts|
    decreases n
  {
    if n == 0 || AtEnd(ts, i, root) then i
    else
      assert Possible(ts, i, turns(i));
      Rounds(ts, Behind(ts, turns(i)), root, turns, n - 1)
  }

  /** A list of statements never gets past `for`. */
  lemma {:induction false} ForNeverEnds(ts: seq<Token>, i: nat, root: bool, turns: nat -> Turn, n: nat)
    requires Ended(ts) && i < |ts| && ts[i] == KeywordFor && forall k: nat | k < |ts| :: Possible(ts, k, turns(k))
    ensures Rounds(ts, i, root, turns, n) == i && !AtEnd(ts, i, root)
  {
    if n > 0 {
      assert Possible(ts, i, turns(i));
      StuckExactly(ts, i, turns(i).at);
      ForNeverEnds(ts, i, root, turns, n - 1);
    }
  }

  /** A list of statements gets to its end unless it gets to a statement that starts with `for`. */
  lemma {:induction false} EndsUnlessFor(ts: seq<Token>, i: nat, root: bool, turns: nat -> Turn) returns (n: nat)
    requires Ended(ts) && i < |ts| && forall k: nat | k < |ts| :: Possible(ts, k, turns(k))
    ensures var r := Rounds(ts, i, root, turns, n); AtEnd(ts, r, root) || ts[r] == KeywordFor
    decreases |ts| - i
  {
    hide Recovered, SkipFrom, StatementMoves, StartsByKeyword, StartsByName;
    if AtEnd(ts, i, root) || ts[i] == KeywordFor {
      n := 0;
    } else {
      assert Possible(ts, i, turns(i));
      if turns(i).Failed? { StuckExactly(ts, i, turns(i).at); }
      n := EndsUnlessFor(ts, Behind(ts, turns(i)), root, turns);
      n := n + 1;
    }
  }
}
