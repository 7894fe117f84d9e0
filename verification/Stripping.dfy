/**
 Stripping of trailing reactions: the text loses its leftmost match of "one or more
 tokens, then white space, up to the end", is trimmed, and is matched again. For any
 set of non-empty tokens without white space, the result is the text without its
 longest suffix that consists of tokens and white space.
*/
module Stripping {
  import opened Prelude
  import opened Text

  predicate ValidTokens(tokens: set<string>) {
    forall t <- tokens :: t != "" && NoWs(t)
  }

  /** `s[i..p]` is a non-empty token. */
  predicate Token(tokens: set<string>, s: string, i: nat, p: nat) {
    i < p <= |s| && s[i..p] in tokens
  }

  /** `s[i..j]` is a concatenation of tokens. */
  predicate TokenRun(tokens: set<string>, s: string, i: nat, j: nat)
    requires i <= j <= |s|
    decreases j - i
  {
    i == j || exists p: nat {:trigger Token(tokens, s, i, p)} :: p <= j && Token(tokens, s, i, p) && TokenRun(tokens, s, p, j)
  }

  /** `s[i..j]` is a concatenation of tokens and white space. */
  predicate Removable(tokens: set<string>, s: string, i: nat, j: nat)
    requires i <= j <= |s|
    decreases j - i
  {
    || i == j
    || (IsWs(s[i]) && Removable(tokens, s, i + 1, j))
    || exists p: nat {:trigger Token(tokens, s, i, p)} :: p <= j && Token(tokens, s, i, p) && Removable(tokens, s, p, j)
  }

  predicate WsRange(s: string, i: nat, j: nat)
    requires i <= j <= |s|
  {
    forall k :: i <= k < j ==> IsWs(s[k])
  }

  predicate WordRange(s: string, i: nat, j: nat)
    requires i <= j <= |s|
  {
    forall k :: i <= k < j ==> !IsWs(s[k])
  }

  /** The trailing-reaction pattern matches at `i`: at least one token, then white space to the end. */
  predicate MatchesAt(tokens: set<string>, s: string, i: nat) {
    exists p: nat :: i < p <= |s| && TokenRun(tokens, s, i, p) && WsRange(s, p, |s|)
  }

  /** The leftmost match at or after `i`. */
  function MatchFrom(tokens: set<string>, s: string, i: nat): (m: Option<nat>)
    requires i <= |s|
    ensures m.Some? ==> i <= m.value < |s| && MatchesAt(tokens, s, m.value)
    ensures forall k: nat :: i <= k < (if m.Some? then m.value else |s|) ==> !MatchesAt(tokens, s, k)
    decreases |s| - i
  {
    if i == |s| then None
    else if MatchesAt(tokens, s, i) then Some(i)
    else MatchFrom(tokens, s, i + 1)
  }

  function LeftmostMatch(tokens: set<string>, s: string): Option<nat> {
    MatchFrom(tokens, s, 0)
  }

  /** The stripping loop on a trimmed text. */
  function Stripped(tokens: set<string>, s: string): string
    decreases |s|
  {
    match LeftmostMatch(tokens, s)
    case None => s
    case Some(i) =>
      TrimGivesTrimmed(s[..i]);
      Stripped(tokens, Trim(s[..i]))
  }

  method StripTrailing(tokens: set<string>, text: string) returns (cleanText: string)
    ensures cleanText == Stripped(tokens, Trim(text))
    ensures ValidTokens(tokens) ==> cleanText == Trim(text)[..Cut(tokens, Trim(text))]
  {
    cleanText := Trim(text);
    var trailingMatch := LeftmostMatch(tokens, cleanText);
    while trailingMatch.Some?
      invariant trailingMatch == LeftmostMatch(tokens, cleanText)
      invariant Stripped(tokens, cleanText) == Stripped(tokens, Trim(text))
      decreases |cleanText|
    {
      TrimGivesTrimmed(cleanText[..trailingMatch.value]);
      cleanText := Trim(cleanText[..trailingMatch.value]);
      trailingMatch := LeftmostMatch(tokens, cleanText);
    }
    if ValidTokens(tokens) {
      TrimGivesTrimmed(text);
      StripsLongestSuffix(tokens, Trim(text));
    }
  }

  /** Where the longest removable suffix starts, if it starts at or after `i`. */
  function CutFrom(tokens: set<string>, s: string, i: nat): (j: nat)
    requires i <= |s|
    ensures i <= j <= |s| && Removable(tokens, s, j, |s|)
    ensures forall k: nat :: i <= k < j ==> !Removable(tokens, s, k, |s|)
    decreases |s| - i
  {
    if i == |s| || Removable(tokens, s, i, |s|) then i else CutFrom(tokens, s, i + 1)
  }

  /** The smallest `j` for which `s[j..]` consists of tokens and white space. */
  function Cut(tokens: set<string>, s: string): (j: nat)
    ensures j <= |s|
  {
    CutFrom(tokens, s, 0)
  }

  // ------------------------------------------------------------------
  // What the pattern says
  // ------------------------------------------------------------------

  function Concat(pieces: seq<string>): string {
    if pieces == [] then "" else pieces[0] + Concat(pieces[1..])
  }

  /** Each piece is a token; or, if `space` says so, it may be one white-space character. */
  predicate ArePieces(tokens: set<string>, pieces: seq<string>, space: bool) {
    forall p <- pieces :: (p != "" && p in tokens) || (space && |p| == 1 && IsWs(p[0]))
  }

  lemma ConcatCons(p: string, pieces: seq<string>)
    ensures Concat([p] + pieces) == p + Concat(pieces)
  {
    assert ([p] + pieces)[1..] == pieces;
  }

  lemma OneMorePiece(s: string, i: nat, p: nat, j: nat, rest: seq<string>)
    requires i <= p <= j <= |s| && Concat(rest) == s[p..j]
    ensures Concat([s[i..p]] + rest) == s[i..j]
  {
    ConcatCons(s[i..p], rest);
    assert s[i..p] + s[p..j] == s[i..j];
  }

  lemma HeadPiece(tokens: set<string>, pieces: seq<string>, space: bool, s: string, i: nat, j: nat) returns (p: nat)
    requires i <= j <= |s| && pieces != [] && ArePieces(tokens, pieces, space) && Concat(pieces) == s[i..j]
    ensures i < p <= j && s[i..p] == pieces[0] && Concat(pieces[1..]) == s[p..j] && ArePieces(tokens, pieces[1..], space)
  {
    var head, tail := pieces[0], Concat(pieces[1..]);
    assert head in pieces && s[i..j] == head + tail;
    p := i + |head|;
    assert s[i..p] == s[i..j][..|head|];
    assert s[p..j] == s[i..j][|head|..];
  }

  lemma {:induction false} RemovablePieces(tokens: set<string>, s: string, i: nat, j: nat) returns (pieces: seq<string>)
    requires i <= j <= |s| && Removable(tokens, s, i, j)
    ensures ArePieces(tokens, pieces, true) && Concat(pieces) == s[i..j]
    decreases j - i
  {
    if i == j {
      pieces := [];
    } else {
      var p: nat := i + 1;
      if !(IsWs(s[i]) && Removable(tokens, s, i + 1, j)) {
        p :| p <= j && Token(tokens, s, i, p) && Removable(tokens, s, p, j);
      }
      var rest := RemovablePieces(tokens, s, p, j);
      OneMorePiece(s, i, p, j, rest);
      pieces := [s[i..p]] + rest;
    }
  }

  lemma {:induction false} PiecesAreRemovable(tokens: set<string>, pieces: seq<string>, s: string, i: nat, j: nat)
    requires i <= j <= |s| && ArePieces(tokens, pieces, true) && Concat(pieces) == s[i..j]
    ensures Removable(tokens, s, i, j)
    decreases |pieces|
  {
    if pieces != [] {
      var p := HeadPiece(tokens, pieces, true, s, i, j);
      PiecesAreRemovable(tokens, pieces[1..], s, p, j);
      assert pieces[0] in pieces && s[i] == pieces[0][0];
      assert pieces[0] in tokens ==> Token(tokens, s, i, p);
    }
  }

  lemma {:induction false} RunPieces(tokens: set<string>, s: string, i: nat, j: nat) returns (pieces: seq<string>)
    requires i <= j <= |s| && TokenRun(tokens, s, i, j)
    ensures ArePieces(tokens, pieces, false) && Concat(pieces) == s[i..j]
    decreases j - i
  {
    pieces := [];
    if i < j {
      var p: nat :| p <= j && Token(tokens, s, i, p) && TokenRun(tokens, s, p, j);
      var rest := RunPieces(tokens, s, p, j);
      OneMorePiece(s, i, p, j, rest);
      pieces := [s[i..p]] + rest;
    }
  }

  lemma {:induction false} PiecesAreRun(tokens: set<string>, pieces: seq<string>, s: string, i: nat, j: nat)
    requires i <= j <= |s| && ArePieces(tokens, pieces, false) && Concat(pieces) == s[i..j]
    ensures TokenRun(tokens, s, i, j)
    decreases |pieces|
  {
    if pieces != [] {
      var p := HeadPiece(tokens, pieces, false, s, i, j);
      PiecesAreRun(tokens, pieces[1..], s, p, j);
      assert pieces[0] in pieces && Token(tokens, s, i, p);
    }
  }

  /** A removable text is one that falls into pieces, each a token or a white-space character. */
  lemma RemovableMeans(tokens: set<string>, s: string, i: nat, j: nat)
    requires i <= j <= |s|
    ensures Removable(tokens, s, i, j) <==>
            exists pieces {:trigger ArePieces(tokens, pieces, true)} :: ArePieces(tokens, pieces, true) && Concat(pieces) == s[i..j]
  {
    if Removable(tokens, s, i, j) {
      var pieces := RemovablePieces(tokens, s, i, j);
      assert ArePieces(tokens, pieces, true);
    }
    if pieces :| ArePieces(tokens, pieces, true) && Concat(pieces) == s[i..j] {
      PiecesAreRemovable(tokens, pieces, s, i, j);
    }
  }

  /** Pieces, at least one, that stand at `i` and have only white space behind them. */
  predicate ReachEnd(pieces: seq<string>, s: string, i: nat) {
    && i <= |s| && pieces != [] && Concat(pieces) <= s[i..]
    && forall k :: i + |Concat(pieces)| <= k < |s| ==> IsWs(s[k])
  }

  lemma MatchPieces(tokens: set<string>, s: string, i: nat) returns (pieces: seq<string>)
    requires MatchesAt(tokens, s, i)
    ensures ArePieces(tokens, pieces, false) && ReachEnd(pieces, s, i)
  {
    var p: nat :| i < p <= |s| && TokenRun(tokens, s, i, p) && WsRange(s, p, |s|);
    pieces := RunPieces(tokens, s, i, p);
    assert Concat(pieces) == s[i..p] == s[i..][..p - i];
  }

  lemma PiecesMatch(tokens: set<string>, pieces: seq<string>, s: string, i: nat)
    requires ArePieces(tokens, pieces, false) && ReachEnd(pieces, s, i)
    ensures MatchesAt(tokens, s, i)
  {
    var p := i + |Concat(pieces)|;
    assert pieces[0] in pieces && Concat(pieces) == s[i..][..p - i] == s[i..p];
    PiecesAreRun(tokens, pieces, s, i, p);
    assert WsRange(s, p, |s|);
  }

  /** The pattern matches at `i` if the text from there falls into one or more tokens and then white space. */
  lemma MatchesAtMeans(tokens: set<string>, s: string, i: nat)
    ensures MatchesAt(tokens, s, i) <==>
            exists pieces {:trigger ArePieces(tokens, pieces, false)} :: ArePieces(tokens, pieces, false) && ReachEnd(pieces, s, i)
  {
    if MatchesAt(tokens, s, i) {
      var pieces := MatchPieces(tokens, s, i);
      assert ArePieces(tokens, pieces, false);
    }
    if pieces :| ArePieces(tokens, pieces, false) && ReachEnd(pieces, s, i) {
      PiecesMatch(tokens, pieces, s, i);
    }
  }

  // ------------------------------------------------------------------
  // The language of removable strings
  // ------------------------------------------------------------------

  lemma {:induction false} RemovableConcat(tokens: set<string>, s: string, i: nat, m: nat, j: nat)
    requires i <= m <= j <= |s| && Removable(tokens, s, i, m) && Removable(tokens, s, m, j)
    ensures Removable(tokens, s, i, j)
    decreases m - i
  {
    if i == m {
    } else if IsWs(s[i]) && Removable(tokens, s, i + 1, m) {
      RemovableConcat(tokens, s, i + 1, m, j);
    } else {
      var p: nat :| p <= m && Token(tokens, s, i, p) && Removable(tokens, s, p, m);
      RemovableConcat(tokens, s, p, m, j);
    }
  }

  lemma TokenHasNoWs(tokens: set<string>, s: string, i: nat, p: nat)
    requires ValidTokens(tokens) && Token(tokens, s, i, p)
    ensures WordRange(s, i, p)
  {
    forall k | i <= k < p ensures !IsWs(s[k]) {
      assert s[k] == s[i..p][k - i];
    }
  }

  /** No token straddles white space, so a removable string splits there. */
  lemma {:induction false} RemovableSplits(tokens: set<string>, s: string, i: nat, m: nat, j: nat)
    requires ValidTokens(tokens) && i <= m < j <= |s| && Removable(tokens, s, i, j) && IsWs(s[m])
    ensures Removable(tokens, s, i, m) && Removable(tokens, s, m + 1, j)
    decreases j - i
  {
    if IsWs(s[i]) && Removable(tokens, s, i + 1, j) {
      if i < m {
        RemovableSplits(tokens, s, i + 1, m, j);
      }
    } else {
      var p: nat :| p <= j && Token(tokens, s, i, p) && Removable(tokens, s, p, j);
      TokenHasNoWs(tokens, s, i, p);
      RemovableSplits(tokens, s, p, m, j);
    }
  }

  lemma {:induction false} WsIsRemovable(tokens: set<string>, s: string, i: nat, j: nat)
    requires i <= j <= |s| && WsRange(s, i, j)
    ensures Removable(tokens, s, i, j)
    decreases j - i
  {
    if i < j {
      WsIsRemovable(tokens, s, i + 1, j);
    }
  }

  lemma {:induction false} RunIsRemovable(tokens: set<string>, s: string, i: nat, j: nat)
    requires i <= j <= |s| && TokenRun(tokens, s, i, j)
    ensures Removable(tokens, s, i, j)
    decreases j - i
  {
    if i < j {
      var p: nat :| p <= j && Token(tokens, s, i, p) && TokenRun(tokens, s, p, j);
      RunIsRemovable(tokens, s, p, j);
    }
  }

  lemma {:induction false} RunHasNoWs(tokens: set<string>, s: string, i: nat, j: nat)
    requires ValidTokens(tokens) && i <= j <= |s| && TokenRun(tokens, s, i, j)
    ensures WordRange(s, i, j)
    decreases j - i
  {
    if i < j {
      var p: nat :| p <= j && Token(tokens, s, i, p) && TokenRun(tokens, s, p, j);
      TokenHasNoWs(tokens, s, i, p);
      RunHasNoWs(tokens, s, p, j);
    }
  }

  lemma {:induction false} RemovableWordIsRun(tokens: set<string>, s: string, i: nat, j: nat)
    requires i <= j <= |s| && WordRange(s, i, j) && Removable(tokens, s, i, j)
    ensures TokenRun(tokens, s, i, j)
    decreases j - i
  {
    if i < j {
      var p: nat :| p <= j && Token(tokens, s, i, p) && Removable(tokens, s, p, j);
      RemovableWordIsRun(tokens, s, p, j);
    }
  }

  /** Whether a range is removable depends on nothing after it. */
  lemma {:induction false} RemovableInPrefix(tokens: set<string>, s: string, n: nat, i: nat, j: nat)
    requires i <= j <= n <= |s|
    ensures Removable(tokens, s[..n], i, j) == Removable(tokens, s, i, j)
    decreases j - i
  {
    if i < j {
      RemovableInPrefix(tokens, s, n, i + 1, j);
      forall p: nat | i < p <= j
        ensures Token(tokens, s[..n], i, p) == Token(tokens, s, i, p)
        ensures Removable(tokens, s[..n], p, j) == Removable(tokens, s, p, j)
      {
        assert s[..n][i..p] == s[i..p];
        RemovableInPrefix(tokens, s, n, p, j);
      }
    }
  }

  /** Whether a range is removable depends on nothing before it. */
  lemma {:induction false} RemovableInSuffix(tokens: set<string>, p: string, s: string, i: nat, j: nat)
    requires i <= j <= |s|
    ensures Removable(tokens, p + s, |p| + i, |p| + j) == Removable(tokens, s, i, j)
    decreases j - i
  {
    if i < j {
      assert (p + s)[|p| + i] == s[i];
      RemovableInSuffix(tokens, p, s, i + 1, j);
      forall q: nat | i < q <= j
        ensures Token(tokens, p + s, |p| + i, |p| + q) == Token(tokens, s, i, q)
        ensures Removable(tokens, p + s, |p| + q, |p| + j) == Removable(tokens, s, q, j)
      {
        assert (p + s)[|p| + i..|p| + q] == s[i..q];
        RemovableInSuffix(tokens, p, s, q, j);
      }
      SuffixStep(tokens, p, s, i, j);
    }
  }

  lemma SuffixStep(tokens: set<string>, p: string, s: string, i: nat, j: nat)
    requires i < j <= |s| && (p + s)[|p| + i] == s[i]
    requires Removable(tokens, p + s, |p| + i + 1, |p| + j) == Removable(tokens, s, i + 1, j)
    requires forall q: nat {:trigger Token(tokens, s, i, q)} {:trigger Removable(tokens, s, q, j)} :: i < q <= j ==>
               && Token(tokens, p + s, |p| + i, |p| + q) == Token(tokens, s, i, q)
               && Removable(tokens, p + s, |p| + q, |p| + j) == Removable(tokens, s, q, j)
    ensures Removable(tokens, p + s, |p| + i, |p| + j) == Removable(tokens, s, i, j)
  {
    if Removable(tokens, p + s, |p| + i, |p| + j) && !(IsWs(s[i]) && Removable(tokens, s, i + 1, j)) {
      var r: nat :| r <= |p| + j && Token(tokens, p + s, |p| + i, r) && Removable(tokens, p + s, r, |p| + j);
      assert Token(tokens, s, i, r - |p|) && Removable(tokens, s, r - |p|, j);
    }
    if Removable(tokens, s, i, j) && !(IsWs(s[i]) && Removable(tokens, s, i + 1, j)) {
      var q: nat :| q <= j && Token(tokens, s, i, q) && Removable(tokens, s, q, j);
      assert Token(tokens, p + s, |p| + i, |p| + q);
    }
  }

  // ------------------------------------------------------------------
  // Matches and removable suffixes
  // ------------------------------------------------------------------

  lemma MatchIsRemovable(tokens: set<string>, s: string, i: nat)
    requires i < |s| && MatchesAt(tokens, s, i)
    ensures Removable(tokens, s, i, |s|)
  {
    var p: nat :| i < p <= |s| && TokenRun(tokens, s, i, p) && WsRange(s, p, |s|);
    RunIsRemovable(tokens, s, i, p);
    WsIsRemovable(tokens, s, p, |s|);
    RemovableConcat(tokens, s, i, p, |s|);
  }

  /** The start of the white-space-free run that ends at `i`, but not before `j`. */
  function WordStart(s: string, j: nat, i: nat): (k: nat)
    requires j <= i <= |s|
    ensures j <= k <= i && WordRange(s, k, i)
    ensures k > j ==> IsWs(s[k - 1])
  {
    if j == i || IsWs(s[i - 1]) then i else WordStart(s, j, i - 1)
  }

  /** A removable suffix is removable from the start of any of its words. */
  lemma RemovableFromWord(tokens: set<string>, s: string, j: nat, k: nat)
    requires ValidTokens(tokens) && j <= k <= |s| && Removable(tokens, s, j, |s|)
    requires k > j ==> IsWs(s[k - 1])
    ensures Removable(tokens, s, k, |s|)
  {
    if k > j {
      RemovableSplits(tokens, s, j, k - 1, |s|);
    }
  }

  /** Inside a removable suffix, the pattern matches from the start of the last word. */
  lemma LastWordMatches(tokens: set<string>, s: string, k: nat, p: nat)
    requires ValidTokens(tokens) && k < p <= |s|
    requires Removable(tokens, s, k, |s|) && WordRange(s, k, p) && WsRange(s, p, |s|)
    ensures MatchesAt(tokens, s, k)
  {
    if p < |s| {
      RemovableSplits(tokens, s, k, p, |s|);
    }
    RemovableWordIsRun(tokens, s, k, p);
  }

  /** The leftmost match starts a word, or starts with the longest removable suffix. */
  lemma MatchStartsWord(tokens: set<string>, s: string, j: nat, i: nat)
    requires ValidTokens(tokens) && j < i && LeftmostMatch(tokens, s) == Some(i)
    requires i <= |s| && Removable(tokens, s, j, |s|)
    ensures IsWs(s[i - 1])
  {
    var p: nat :| i < p <= |s| && TokenRun(tokens, s, i, p) && WsRange(s, p, |s|);
    var k := WordStart(s, j, i);
    RunHasNoWs(tokens, s, i, p);
    RemovableFromWord(tokens, s, j, k);
    LastWordMatches(tokens, s, k, p);
  }

  /** What lies between the longest removable suffix and the leftmost match is itself removable. */
  lemma BeforeMatchIsRemovable(tokens: set<string>, s: string, j: nat, i: nat)
    requires ValidTokens(tokens) && j <= i <= |s|
    requires LeftmostMatch(tokens, s) == Some(i) && Removable(tokens, s, j, |s|)
    ensures Removable(tokens, s, j, i)
  {
    if j < i {
      MatchStartsWord(tokens, s, j, i);
      RemovableSplits(tokens, s, j, i - 1, |s|);
      WsIsRemovable(tokens, s, i - 1, i);
      RemovableConcat(tokens, s, j, i - 1, i);
    }
  }

  /** Cutting a removable suffix off does not move the cut, if what remains of the longest one is still removable. */
  lemma CutSurvives(tokens: set<string>, s: string, n: nat)
    requires n <= |s| && Removable(tokens, s, n, |s|)
    requires Cut(tokens, s) <= n && Removable(tokens, s, Cut(tokens, s), n)
    ensures Cut(tokens, s[..n]) == Cut(tokens, s)
  {
    var j, h := Cut(tokens, s), Cut(tokens, s[..n]);
    RemovableInPrefix(tokens, s, n, j, n);
    RemovableInPrefix(tokens, s, n, h, n);
    RemovableConcat(tokens, s, h, n, |s|);
  }

  lemma CutSurvivesMatch(tokens: set<string>, s: string, i: nat)
    requires ValidTokens(tokens) && LeftmostMatch(tokens, s) == Some(i)
    ensures Cut(tokens, s) <= i <= |s| && Cut(tokens, s[..i]) == Cut(tokens, s)
  {
    MatchIsRemovable(tokens, s, i);
    BeforeMatchIsRemovable(tokens, s, Cut(tokens, s), i);
    CutSurvives(tokens, s, i);
  }

  lemma CutSurvivesTrimEnd(tokens: set<string>, s: string)
    requires ValidTokens(tokens)
    ensures Cut(tokens, s) <= |TrimEnd(s)| && Cut(tokens, TrimEnd(s)) == Cut(tokens, s)
  {
    var n, j := |TrimEnd(s)|, Cut(tokens, s);
    WsIsRemovable(tokens, s, n, |s|);
    if n < |s| {
      RemovableSplits(tokens, s, j, n, |s|);
    }
    CutSurvives(tokens, s, n);
  }

  /** Without a match, a trimmed text has nothing left to remove. */
  lemma NoMatchNothingRemovable(tokens: set<string>, s: string)
    requires ValidTokens(tokens) && Trimmed(s) && LeftmostMatch(tokens, s) == None
    ensures Cut(tokens, s) == |s|
  {
    var j := Cut(tokens, s);
    if j < |s| {
      var k := WordStart(s, j, |s|);
      RemovableFromWord(tokens, s, j, k);
      LastWordMatches(tokens, s, k, |s|);
    }
  }

  /** A prefix of a trimmed text starts with no white space, so trimming only shortens it at the end. */
  lemma TrimOfPrefix(s: string, n: nat)
    requires Trimmed(s) && n <= |s|
    ensures Trim(s[..n]) == TrimEnd(s[..n]) == s[..|TrimEnd(s[..n])|]
  {
    assert TrimStart(s[..n]) == s[..n];
  }

  /** One round of the loop shortens a trimmed text and does not move the cut. */
  lemma RoundKeepsCut(tokens: set<string>, s: string, i: nat)
    requires ValidTokens(tokens) && Trimmed(s) && LeftmostMatch(tokens, s) == Some(i)
    ensures i <= |s|
    ensures Trimmed(Trim(s[..i])) && |Trim(s[..i])| < |s| && Trim(s[..i]) == s[..|Trim(s[..i])|]
    ensures Cut(tokens, Trim(s[..i])) == Cut(tokens, s)
  {
    CutSurvivesMatch(tokens, s, i);
    TrimOfPrefix(s, i);
    CutSurvivesTrimEnd(tokens, s[..i]);
    TrimGivesTrimmed(s[..i]);
  }

  /** The loop removes exactly the longest suffix of tokens and white space: iterating the
      leftmost match computes `s[..j]` for the smallest `j` with `s[j..]` removable. */
  lemma {:induction false} StripsLongestSuffix(tokens: set<string>, s: string)
    requires ValidTokens(tokens) && Trimmed(s)
    ensures Stripped(tokens, s) == s[..Cut(tokens, s)]
    decreases |s|
  {
    var m := LeftmostMatch(tokens, s);
    if m.None? {
      NoMatchNothingRemovable(tokens, s);
    } else {
      var shorter := Trim(s[..m.value]);
      RoundKeepsCut(tokens, s, m.value);
      StripsLongestSuffix(tokens, shorter);
      assert shorter[..Cut(tokens, shorter)] == s[..Cut(tokens, shorter)];
    }
  }
}
