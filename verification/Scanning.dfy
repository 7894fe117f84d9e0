/**
 The patterns of the cleaning as the source writes them, and global replacement as the
 language defines it: find the leftmost match behind the last one, take it, go on behind
 it. Finding URLs, removing codes and replacing emoticons are the replacements of their
 patterns.
*/
module Scanning {
  import opened Prelude
  import opened Text
  import opened Placeholders
  import opened Restoration
  import opened Normalizer

  // ------------------------------------------------------------------
  // Patterns
  // ------------------------------------------------------------------

  datatype Pattern = Url | Code(codes: seq<string>) | Emoticon(emoticon: string)

  /** Two texts that differ in the case of letters only, the second in lower case. */
  predicate EqualInAnyCase(t: string, lower: string) {
    && |t| == |lower|
    && forall k :: 0 <= k < |t| ==>
         t[k] == lower[k] || ('A' <= t[k] <= 'Z' && 'a' <= lower[k] <= 'z' && t[k] - 'A' == lower[k] - 'a')
  }

  predicate Opens(s: string, i: nat, scheme: string) {
    i + |scheme| < |s| && EqualInAnyCase(s[i..i + |scheme|], scheme) && !IsWs(s[i + |scheme|])
  }

  /** A scheme, and then everything up to white space, of which there is something. */
  predicate IsUrlAt(s: string, i: nat, e: nat) {
    && (Opens(s, i, "http://") || Opens(s, i, "https://") || Opens(s, i, "www."))
    && i < e <= |s|
    && (forall k :: i <= k < e ==> !IsWs(s[k]))
    && (e == |s| || IsWs(s[e]))
  }

  /** The first of the codes that stands at `i`. */
  predicate IsCodeAt(codes: seq<string>, s: string, i: nat, e: nat) {
    exists n :: 0 <= n < |codes| && codes[n] != "" && i <= |s| && codes[n] <= s[i..] && e == i + |codes[n]|
      && forall m :: 0 <= m < n ==> codes[m] == "" || !(codes[m] <= s[i..])
  }

  /** White space at `j`, up to `e`, or nothing at the end of the text. */
  predicate Closes(s: string, j: nat, e: nat) {
    (j < |s| && IsWs(s[j]) && e == j + 1) || (j == |s| && e == j)
  }

  predicate OpensText(s: string, emoticon: string) {
    emoticon <= s && (|emoticon| == |s| || IsWs(s[|emoticon|]))
  }

  /** The start of the text or white space, the emoticon, and the end of the text or white space. */
  predicate IsEmoticonAt(emoticon: string, s: string, i: nat, e: nat) {
    && i <= |s|
    && if i == 0 && OpensText(s, emoticon) then Closes(s, |emoticon|, e)
       else i < |s| && IsWs(s[i]) && emoticon <= s[i + 1..] && Closes(s, i + 1 + |emoticon|, e)
  }

  /** The pattern matches at `i`, and takes the text up to `e`. */
  predicate Matches(p: Pattern, s: string, i: nat, e: nat) {
    match p
    case Url => IsUrlAt(s, i, e)
    case Code(codes) => IsCodeAt(codes, s, i, e)
    case Emoticon(emoticon) => IsEmoticonAt(emoticon, s, i, e)
  }

  // ------------------------------------------------------------------
  // Global replacement
  // ------------------------------------------------------------------

  datatype Match = Match(start: nat, end: nat)

  predicate InOrder(s: string, i: nat, ms: seq<Match>)
    decreases |ms|
  {
    && i <= |s|
    && (ms != [] ==> i <= ms[0].start < ms[0].end <= |s| && InOrder(s, ms[0].end, ms[1..]))
  }

  ghost predicate NoMatch(p: Pattern, s: string, i: nat) {
    forall e: nat :: !Matches(p, s, i, e)
  }

  /** What a global search finds from `i` on: the leftmost match, and so on from its end. */
  ghost predicate Scans(p: Pattern, s: string, i: nat, ms: seq<Match>)
    decreases |ms|
  {
    && InOrder(s, i, ms)
    && (forall j: nat :: i <= j <= |s| && (ms == [] || j < ms[0].start) ==> NoMatch(p, s, j))
    && (ms != [] ==> Matches(p, s, ms[0].start, ms[0].end) && Scans(p, s, ms[0].end, ms[1..]))
  }

  /** The text from `i` on with the matches replaced. */
  function Replaced(s: string, i: nat, ms: seq<Match>, reps: seq<string>): string
    requires InOrder(s, i, ms) && |reps| == |ms|
    decreases |ms|
  {
    if ms == [] then s[i..]
    else s[i..ms[0].start] + (reps[0] + Replaced(s, ms[0].end, ms[1..], reps[1..]))
  }

  lemma ScanEnds(p: Pattern, s: string)
    requires NoMatch(p, s, |s|)
    ensures Scans(p, s, |s|, []) && Replaced(s, |s|, [], []) == ""
  {
  }

  lemma ScanPasses(p: Pattern, s: string, i: nat, ms: seq<Match>, reps: seq<string>)
    requires i < |s| && NoMatch(p, s, i) && Scans(p, s, i + 1, ms) && |reps| == |ms|
    ensures Scans(p, s, i, ms) && Replaced(s, i, ms, reps) == [s[i]] + Replaced(s, i + 1, ms, reps)
  {
    if ms == [] {
      assert s[i..] == [s[i]] + s[i + 1..];
    } else {
      var tail := reps[0] + Replaced(s, ms[0].end, ms[1..], reps[1..]);
      assert s[i..ms[0].start] == [s[i]] + s[i + 1..ms[0].start];
      Associative([s[i]], s[i + 1..ms[0].start], tail);
    }
  }

  lemma ScanTakes(p: Pattern, s: string, i: nat, e: nat, ms: seq<Match>, r: string, reps: seq<string>)
    requires i < e && Matches(p, s, i, e) && Scans(p, s, e, ms) && |reps| == |ms|
    ensures Scans(p, s, i, [Match(i, e)] + ms)
    ensures Replaced(s, i, [Match(i, e)] + ms, [r] + reps) == r + Replaced(s, e, ms, reps)
  {
    var all, texts := [Match(i, e)] + ms, [r] + reps;
    assert all[1..] == ms && texts[1..] == reps;
    assert s[i..i] == "";
    assert "" + (r + Replaced(s, e, ms, reps)) == r + Replaced(s, e, ms, reps);
  }

  lemma OneMatchAt(p: Pattern, s: string, i: nat, d: nat, e: nat)
    requires Matches(p, s, i, d) && Matches(p, s, i, e)
    ensures d == e
  {
    if p.Code? {
      var n :| 0 <= n < |p.codes| && p.codes[n] != "" && i <= |s| && p.codes[n] <= s[i..] && d == i + |p.codes[n]|
               && forall m :: 0 <= m < n ==> p.codes[m] == "" || !(p.codes[m] <= s[i..]);
      var m :| 0 <= m < |p.codes| && p.codes[m] != "" && i <= |s| && p.codes[m] <= s[i..] && e == i + |p.codes[m]|
               && forall k :: 0 <= k < m ==> p.codes[k] == "" || !(p.codes[k] <= s[i..]);
      assert n == m;
    }
  }

  lemma FirstIsLeftmost(p: Pattern, s: string, i: nat, ms: seq<Match>, j: nat, e: nat)
    requires Scans(p, s, i, ms) && i <= j <= |s| && Matches(p, s, j, e)
    ensures ms != [] && ms[0].start <= j
  {
    assert !NoMatch(p, s, j);
  }

  lemma SameFirst(p: Pattern, s: string, i: nat, a: seq<Match>, b: seq<Match>)
    requires Scans(p, s, i, a) && Scans(p, s, i, b)
    ensures a == [] <==> b == []
    ensures a != [] ==> a[0] == b[0]
  {
    if a != [] {
      FirstIsLeftmost(p, s, i, b, a[0].start, a[0].end);
    }
    if b != [] {
      FirstIsLeftmost(p, s, i, a, b[0].start, b[0].end);
      OneMatchAt(p, s, a[0].start, a[0].end, b[0].end);
    }
  }

  /** A global search has one result. */
  lemma {:induction false} ScanIsUnique(p: Pattern, s: string, i: nat, a: seq<Match>, b: seq<Match>)
    requires Scans(p, s, i, a) && Scans(p, s, i, b)
    ensures a == b
    decreases |a|
  {
    SameFirst(p, s, i, a, b);
    if a != [] {
      ScanIsUnique(p, s, a[0].end, a[1..], b[1..]);
      assert a == [a[0]] + a[1..] && b == [b[0]] + b[1..];
    }
  }

  // ------------------------------------------------------------------
  // URLs
  // ------------------------------------------------------------------

  lemma {:induction false} SchemeAtMeans(s: string, i: nat, scheme: string, k: nat)
    requires k <= |scheme| && forall m :: 0 <= m < |scheme| ==> scheme[m] < 'A' || 'Z' < scheme[m]
    ensures SchemeAt(s, i, scheme, k) <==>
            && i + |scheme| < |s| && !IsWs(s[i + |scheme|])
            && EqualInAnyCase(s[i + k..i + |scheme|], scheme[k..])
    decreases |scheme| - k
  {
    if k < |scheme| {
      SchemeAtMeans(s, i, scheme, k + 1);
      if i + |scheme| < |s| {
        var t, u := s[i + k..i + |scheme|], scheme[k..];
        assert t[0] == s[i + k] && t[1..] == s[i + k + 1..i + |scheme|] && u[1..] == scheme[k + 1..];
        CaseByCase(t, u);
      }
    }
  }

  lemma CaseByCase(t: string, u: string)
    requires |t| == |u| > 0 && (u[0] < 'A' || 'Z' < u[0])
    ensures EqualInAnyCase(t, u) <==> Lower(t[0]) == u[0] && EqualInAnyCase(t[1..], u[1..])
  {
    assert EqualInAnyCase(t, u) ==> forall k :: 0 <= k < |t| - 1 ==> t[k + 1] == t[1..][k] && u[k + 1] == u[1..][k];
    if EqualInAnyCase(t[1..], u[1..]) {
      assert forall k :: 0 < k < |t| ==> t[k] == t[1..][k - 1] && u[k] == u[1..][k - 1];
    }
  }

  lemma SchemeOpens(s: string, i: nat, scheme: string)
    requires forall m :: 0 <= m < |scheme| ==> scheme[m] < 'A' || 'Z' < scheme[m]
    ensures SchemeAt(s, i, scheme, 0) <==> Opens(s, i, scheme)
  {
    SchemeAtMeans(s, i, scheme, 0);
    assert scheme[0..] == scheme;
  }

  /** A URL starts where one of the three schemes stands, in any case, with something visible behind it,
      and reaches to the next white space. */
  lemma UrlAtMeans(s: string, i: nat, e: nat)
    ensures UrlAt(s, i) <==> Opens(s, i, "http://") || Opens(s, i, "https://") || Opens(s, i, "www.")
    ensures IsUrlAt(s, i, e) <==> UrlAt(s, i) && e == WordEnd(s, i)
  {
    SchemeOpens(s, i, "http://");
    SchemeOpens(s, i, "https://");
    SchemeOpens(s, i, "www.");
    if UrlAt(s, i) {
      UrlStarts(s, i);
      UrlEnds(s, i);
    }
  }

  /** What makes room for the URLs `n`, `n + 1`, ... */
  function PlaceholdersFrom(n: nat, count: nat): (placeholders: seq<string>)
    ensures |placeholders| == count
    decreases count
  {
    if count == 0 then [] else ["__URL_PLACEHOLDER_" + Decimal(n) + "__"] + PlaceholdersFrom(n + 1, count - 1)
  }

  /** The texts are those of the matches. */
  predicate AreMatched(s: string, ms: seq<Match>, texts: seq<string>) {
    |texts| == |ms| && forall k :: 0 <= k < |ms| ==>
      ms[k].start <= ms[k].end <= |s| && texts[k] == s[ms[k].start..ms[k].end]
  }

  /** From `i` on, the URLs are what a global search finds, and masking replaces them. */
  ghost predicate Masks(s: string, i: nat, n: nat, ms: seq<Match>) {
    && Scans(Url, s, i, ms) && AreMatched(s, ms, UrlsFrom(s, i))
    && Masked(PartsFrom(s, i, n)) == Replaced(s, i, ms, PlaceholdersFrom(n, |ms|))
  }

  lemma UrlMatchesAt(s: string, i: nat)
    ensures if UrlAt(s, i) then Matches(Url, s, i, WordEnd(s, i)) else NoMatch(Url, s, i)
  {
    if UrlAt(s, i) {
      UrlEnds(s, i);
      UrlAtMeans(s, i, WordEnd(s, i));
    } else {
      forall e: nat ensures !Matches(Url, s, i, e) {
        UrlAtMeans(s, i, e);
      }
    }
  }

  lemma MatchedFirst(s: string, m: Match, ms: seq<Match>, texts: seq<string>)
    requires AreMatched(s, ms, texts) && m.start <= m.end <= |s|
    ensures AreMatched(s, [m] + ms, [s[m.start..m.end]] + texts)
  {
  }

  lemma MaskingUnfolds(s: string, i: nat, n: nat, count: nat)
    requires UrlAt(s, i)
    ensures i < WordEnd(s, i) <= |s|
    ensures UrlsFrom(s, i) == [s[i..WordEnd(s, i)]] + UrlsFrom(s, WordEnd(s, i))
    ensures Masked(PartsFrom(s, i, n)) == Placeholder(n) + Masked(PartsFrom(s, WordEnd(s, i), n + 1))
    ensures PlaceholdersFrom(n, count + 1) == [Placeholder(n)] + PlaceholdersFrom(n + 1, count)
  {
    UrlEnds(s, i);
    HeadRenders(Slot(n), PartsFrom(s, WordEnd(s, i), n + 1), [], 0);
  }

  lemma MasksOneMore(s: string, i: nat, e: nat, n: nat, rest: seq<Match>)
    requires UrlAt(s, i) && WordEnd(s, i) == e && Masks(s, e, n + 1, rest)
    ensures Masks(s, i, n, [Match(i, e)] + rest)
  {
    MaskingUnfolds(s, i, n, |rest|);
    UrlMatchesAt(s, i);
    MatchedFirst(s, Match(i, e), rest, UrlsFrom(s, e));
    ScanTakes(Url, s, i, e, rest, Placeholder(n), PlaceholdersFrom(n + 1, |rest|));
  }

  lemma MasksPast(s: string, i: nat, n: nat, ms: seq<Match>)
    requires i < |s| && !UrlAt(s, i) && Masks(s, i + 1, n, ms)
    ensures Masks(s, i, n, ms)
  {
    UrlMatchesAt(s, i);
    ScanPasses(Url, s, i, ms, PlaceholdersFrom(n, |ms|));
    HeadRenders(Ch(s[i]), PartsFrom(s, i + 1, n), [], 0);
  }

  lemma {:induction false} MaskingFrom(s: string, i: nat, n: nat) returns (ms: seq<Match>)
    requires i <= |s|
    ensures Masks(s, i, n, ms)
    decreases |s| - i
  {
    if i == |s| {
      ms := [];
      UrlMatchesAt(s, i);
      ScanEnds(Url, s);
    } else if UrlAt(s, i) {
      UrlEnds(s, i);
      var rest := MaskingFrom(s, WordEnd(s, i), n + 1);
      MasksOneMore(s, i, WordEnd(s, i), n, rest);
      ms := [Match(i, WordEnd(s, i))] + rest;
    } else {
      ms := MaskingFrom(s, i + 1, n);
      MasksPast(s, i, n, ms);
    }
  }

  /** The masked text is the text with every URL that a global search finds replaced by its numbered
      placeholder, and the URLs are what was found. */
  lemma MaskingIsReplacement(s: string) returns (ms: seq<Match>)
    ensures Scans(Url, s, 0, ms) && AreMatched(s, ms, UrlsOf(s))
    ensures Masked(Parts(s)) == Replaced(s, 0, ms, PlaceholdersFrom(0, |ms|))
  {
    ms := MaskingFrom(s, 0, 0);
  }

  // ------------------------------------------------------------------
  // Reaction codes
  // ------------------------------------------------------------------

  lemma {:induction false} CodeAtIsFirst(codes: seq<string>, t: string)
    ensures var c := CodeAt(codes, t);
            forall m :: 0 <= m < (if c.Some? then c.value else |codes|) ==> codes[m] == "" || !(codes[m] <= t)
    decreases |codes|
  {
    if codes != [] {
      var n := |codes| - 1;
      CodeAtIsFirst(codes[..n], t);
      assert forall m :: 0 <= m < n ==> codes[..n][m] == codes[m];
    }
  }

  lemma CodeAtMeans(codes: seq<string>, s: string, i: nat, e: nat)
    requires i <= |s|
    ensures var c := CodeAt(codes, s[i..]);
            IsCodeAt(codes, s, i, e) <==> c.Some? && e == i + |codes[c.value]|
  {
    CodeAtIsFirst(codes, s[i..]);
  }

  function Blanks(count: nat): seq<string> {
    seq(count, i => "")
  }

  /** From `i` on, removing codes replaces what a global search finds by nothing. */
  ghost predicate Removes(codes: seq<string>, s: string, i: nat, ms: seq<Match>) {
    Scans(Code(codes), s, i, ms) && WithoutCodes(codes, s[i..]) == Replaced(s, i, ms, Blanks(|ms|))
  }

  lemma RemovalUnfolds(codes: seq<string>, s: string, i: nat, e: nat)
    requires i <= |s| && IsCodeAt(codes, s, i, e)
    ensures i < e <= |s| && WithoutCodes(codes, s[i..]) == WithoutCodes(codes, s[e..])
  {
    CodeAtMeans(codes, s, i, e);
    assert s[i..][e - i..] == s[e..];
  }

  lemma RemovesOneMore(codes: seq<string>, s: string, i: nat, e: nat, rest: seq<Match>)
    requires i <= |s| && IsCodeAt(codes, s, i, e) && Removes(codes, s, e, rest)
    ensures Removes(codes, s, i, [Match(i, e)] + rest)
  {
    RemovalUnfolds(codes, s, i, e);
    ScanTakes(Code(codes), s, i, e, rest, "", Blanks(|rest|));
    assert [""] + Blanks(|rest|) == Blanks(|rest| + 1);
  }

  lemma RemovesPast(codes: seq<string>, s: string, i: nat, ms: seq<Match>)
    requires i < |s| && CodeAt(codes, s[i..]).None? && Removes(codes, s, i + 1, ms)
    ensures Removes(codes, s, i, ms)
  {
    forall e: nat ensures !IsCodeAt(codes, s, i, e) {
      CodeAtMeans(codes, s, i, e);
    }
    ScanPasses(Code(codes), s, i, ms, Blanks(|ms|));
    assert s[i..][1..] == s[i + 1..];
  }

  lemma {:induction false} RemovalFrom(codes: seq<string>, s: string, i: nat) returns (ms: seq<Match>)
    requires i <= |s|
    ensures Removes(codes, s, i, ms)
    decreases |s| - i
  {
    var c := CodeAt(codes, s[i..]);
    if i == |s| {
      ms := [];
      ScanEnds(Code(codes), s);
    } else if c.Some? {
      var e := i + |codes[c.value]|;
      CodeAtMeans(codes, s, i, e);
      var rest := RemovalFrom(codes, s, e);
      RemovesOneMore(codes, s, i, e, rest);
      ms := [Match(i, e)] + rest;
    } else {
      ms := RemovalFrom(codes, s, i + 1);
      RemovesPast(codes, s, i, ms);
    }
  }

  /** The removal of codes is the global replacement of any of them by nothing. */
  lemma RemovalIsReplacement(codes: seq<string>, s: string) returns (ms: seq<Match>)
    ensures Scans(Code(codes), s, 0, ms) && WithoutCodes(codes, s) == Replaced(s, 0, ms, Blanks(|ms|))
  {
    ms := RemovalFrom(codes, s, 0);
    assert s[0..] == s;
  }

  // ------------------------------------------------------------------
  // Emoticons
  // ------------------------------------------------------------------

  /** The emoticon makes room for the emoji, and the white space around it stays. */
  ghost predicate Swaps(from: string, to: string, emoticon: string, emoji: string) {
    exists a, b {:trigger a + emoticon + b} ::
      |a| <= 1 && |b| <= 1 && (forall c <- a + b :: IsWs(c)) && from == a + emoticon + b && to == a + emoji + b
  }

  ghost predicate AllSwapped(s: string, ms: seq<Match>, reps: seq<string>, emoticon: string, emoji: string) {
    |reps| == |ms| && forall k :: 0 <= k < |ms| ==>
      ms[k].start <= ms[k].end <= |s| && Swaps(s[ms[k].start..ms[k].end], reps[k], emoticon, emoji)
  }

  /** From `i` on, inlining replaces what a global search finds. */
  ghost predicate Inlines(s: string, i: nat, emoticon: string, emoji: string, text: string, ms: seq<Match>, reps: seq<string>) {
    Scans(Emoticon(emoticon), s, i, ms) && AllSwapped(s, ms, reps, emoticon, emoji) && text == Replaced(s, i, ms, reps)
  }

  predicate NoneButWs(s: string, i: nat, j: nat) {
    i <= j <= |s| && forall k :: i <= k < j ==> IsWs(s[k])
  }

  /** Between `i` and `e` there is the emoticon, with at most one character of white space on either side. */
  predicate Surrounded(s: string, i: nat, lead: nat, e: nat, emoticon: string) {
    var j := i + lead + |emoticon|;
    lead <= 1 && j <= e <= j + 1 && e <= |s| && s[i + lead..j] == emoticon && NoneButWs(s, i, i + lead) && NoneButWs(s, j, e)
  }

  /** What it makes room for. */
  function Swapped(s: string, i: nat, lead: nat, e: nat, emoticon: string, emoji: string): string
    requires Surrounded(s, i, lead, e, emoticon)
  {
    s[i..i + lead] + emoji + s[i + lead + |emoticon|..e]
  }

  lemma SwappedSwaps(s: string, i: nat, lead: nat, e: nat, emoticon: string, emoji: string)
    requires Surrounded(s, i, lead, e, emoticon)
    ensures Swaps(s[i..e], Swapped(s, i, lead, e, emoticon, emoji), emoticon, emoji)
  {
    var a, b := s[i..i + lead], s[i + lead + |emoticon|..e];
    assert s[i..e] == a + emoticon + b;
    assert forall c <- a :: IsWs(c);
    assert forall c <- b :: IsWs(c);
  }

  lemma SwappedFirst(s: string, m: Match, ms: seq<Match>, r: string, reps: seq<string>, emoticon: string, emoji: string)
    requires AllSwapped(s, ms, reps, emoticon, emoji)
    requires m.start <= m.end <= |s| && Swaps(s[m.start..m.end], r, emoticon, emoji)
    ensures AllSwapped(s, [m] + ms, [r] + reps, emoticon, emoji)
  {
  }

  lemma InlinesOneMore(s: string, i: nat, lead: nat, e: nat, emoticon: string, emoji: string,
                       text: string, ms: seq<Match>, reps: seq<string>)
    requires emoticon != "" && Surrounded(s, i, lead, e, emoticon) && IsEmoticonAt(emoticon, s, i, e)
    requires Inlines(s, e, emoticon, emoji, text, ms, reps)
    ensures var r := Swapped(s, i, lead, e, emoticon, emoji);
            Inlines(s, i, emoticon, emoji, r + text, [Match(i, e)] + ms, [r] + reps)
  {
    var r := Swapped(s, i, lead, e, emoticon, emoji);
    SwappedSwaps(s, i, lead, e, emoticon, emoji);
    SwappedFirst(s, Match(i, e), ms, r, reps, emoticon, emoji);
    ScanTakes(Emoticon(emoticon), s, i, e, ms, r, reps);
  }

  lemma InlinesAtStart(s: string, e: nat, emoticon: string, emoji: string, text: string, rest: seq<Match>, others: seq<string>)
    returns (ms: seq<Match>, reps: seq<string>)
    requires StandsAlone(s, emoticon) && Closes(s, |emoticon|, e)
    requires Inlines(s, e, emoticon, emoji, text, rest, others)
    requires PastSpace(s[|emoticon|..], emoticon, emoji) == s[|emoticon|..e] + text
    ensures Inlines(s, 0, emoticon, emoji, Inlined(s, true, emoticon, emoji), ms, reps)
  {
    assert s[0..|emoticon|] == emoticon;
    InlinesOneMore(s, 0, 0, e, emoticon, emoji, text, rest, others);
    ms, reps := [Match(0, e)] + rest, [Swapped(s, 0, 0, e, emoticon, emoji)] + others;
    assert s[0..0] + emoji == emoji;
    Associative(emoji, s[|emoticon|..e], text);
  }

  /** An emoticon that stands alone behind white space at `i`. */
  predicate AtSpace(s: string, i: nat, emoticon: string) {
    i < |s| && IsWs(s[i]) && StandsAlone(s[i + 1..], emoticon) && !(i == 0 && StandsAlone(s, emoticon))
  }

  lemma EmoticonAtSpace(s: string, i: nat, emoticon: string)
    requires AtSpace(s, i, emoticon)
    ensures var j := i + 1 + |emoticon|;
            && j <= |s| && (j == |s| || IsWs(s[j])) && s[i + 1..j] == emoticon
            && forall e: nat :: Closes(s, j, e) ==> Surrounded(s, i, 1, e, emoticon) && IsEmoticonAt(emoticon, s, i, e)
  {
    var j := i + 1 + |emoticon|;
    assert s[i + 1..j] == s[i + 1..][..|emoticon|];
    assert j < |s| ==> s[i + 1..][|emoticon|] == s[j];
  }

  lemma InlinesAtSpace(s: string, i: nat, e: nat, emoticon: string, emoji: string,
                       text: string, rest: seq<Match>, others: seq<string>)
    returns (ms: seq<Match>, reps: seq<string>)
    requires AtSpace(s, i, emoticon) && i + 1 + |emoticon| <= |s|
    requires Closes(s, i + 1 + |emoticon|, e) && Inlines(s, e, emoticon, emoji, text, rest, others)
    requires PastSpace(s[i + 1 + |emoticon|..], emoticon, emoji) == s[i + 1 + |emoticon|..e] + text
    ensures Inlines(s, i, emoticon, emoji, Inlined(s[i..], i == 0, emoticon, emoji), ms, reps)
  {
    EmoticonAtSpace(s, i, emoticon);
    InlinesOneMore(s, i, 1, e, emoticon, emoji, text, rest, others);
    ms, reps := [Match(i, e)] + rest, [Swapped(s, i, 1, e, emoticon, emoji)] + others;
    InlinedAtSpace(s, i, emoticon, emoji);
    FourPieces([s[i]], emoji, s[i + 1 + |emoticon|..e], text);
  }

  lemma FourPieces(a: string, b: string, c: string, d: string)
    ensures a + b + c + d == a + (b + (c + d))
  {
  }

  lemma InlinesPast(s: string, i: nat, emoticon: string, emoji: string, ms: seq<Match>, reps: seq<string>)
    requires emoticon != "" && i < |s| && !(i == 0 && StandsAlone(s, emoticon)) && !AtSpace(s, i, emoticon)
    requires Inlines(s, i + 1, emoticon, emoji, Inlined(s[i + 1..], false, emoticon, emoji), ms, reps)
    ensures Inlines(s, i, emoticon, emoji, Inlined(s[i..], i == 0, emoticon, emoji), ms, reps)
  {
    assert s[0..] == s;
    assert s[i..][1..] == s[i + 1..];
    NoEmoticonAt(s, i, emoticon);
    ScanPasses(Emoticon(emoticon), s, i, ms, reps);
  }

  lemma NoEmoticonAt(s: string, i: nat, emoticon: string)
    requires emoticon != "" && i < |s| && !(i == 0 && StandsAlone(s, emoticon)) && !AtSpace(s, i, emoticon)
    ensures NoMatch(Emoticon(emoticon), s, i)
  {
    forall e: nat ensures !IsEmoticonAt(emoticon, s, i, e) {
      var j := i + 1 + |emoticon|;
      assert j < |s| ==> s[i + 1..][|emoticon|] == s[j];
    }
  }

  /** Behind an emoticon that ends at `j`. */
  lemma {:induction false} InliningBehind(s: string, j: nat, emoticon: string, emoji: string)
    returns (e: nat, ms: seq<Match>, reps: seq<string>, text: string)
    requires emoticon != "" && 0 < j <= |s| && (j == |s| || IsWs(s[j]))
    ensures Closes(s, j, e) && Inlines(s, e, emoticon, emoji, text, ms, reps)
    ensures PastSpace(s[j..], emoticon, emoji) == s[j..e] + text
    decreases |s| - j, 0
  {
    if j == |s| {
      e, ms, reps, text := j, [], [], "";
      ScanEnds(Emoticon(emoticon), s);
    } else {
      e := j + 1;
      ms, reps := InliningFrom(s, e, emoticon, emoji);
      assert s[j..][1..] == s[e..] && s[j..e] == [s[j]];
      text := Inlined(s[e..], false, emoticon, emoji);
    }
  }

  lemma {:induction false} InliningAtStart(s: string, emoticon: string, emoji: string)
    returns (ms: seq<Match>, reps: seq<string>)
    requires StandsAlone(s, emoticon)
    ensures Inlines(s, 0, emoticon, emoji, Inlined(s, true, emoticon, emoji), ms, reps)
    decreases |s|, 1
  {
    var e, rest, others, text := InliningBehind(s, |emoticon|, emoticon, emoji);
    ms, reps := InlinesAtStart(s, e, emoticon, emoji, text, rest, others);
  }

  lemma {:induction false} InliningAtSpace(s: string, i: nat, emoticon: string, emoji: string)
    returns (ms: seq<Match>, reps: seq<string>)
    requires AtSpace(s, i, emoticon)
    ensures Inlines(s, i, emoticon, emoji, Inlined(s[i..], i == 0, emoticon, emoji), ms, reps)
    decreases |s| - i, 1
  {
    EmoticonAtSpace(s, i, emoticon);
    var e, rest, others, text := InliningBehind(s, i + 1 + |emoticon|, emoticon, emoji);
    ms, reps := InlinesAtSpace(s, i, e, emoticon, emoji, text, rest, others);
  }

  lemma {:induction false} InliningFrom(s: string, i: nat, emoticon: string, emoji: string)
    returns (ms: seq<Match>, reps: seq<string>)
    requires emoticon != "" && i <= |s|
    ensures Inlines(s, i, emoticon, emoji, Inlined(s[i..], i == 0, emoticon, emoji), ms, reps)
    decreases |s| - i, 2
  {
    if i == 0 && StandsAlone(s, emoticon) {
      assert s[0..] == s;
      ms, reps := InliningAtStart(s, emoticon, emoji);
    } else if i == |s| {
      ms, reps := [], [];
      ScanEnds(Emoticon(emoticon), s);
    } else if AtSpace(s, i, emoticon) {
      ms, reps := InliningAtSpace(s, i, emoticon, emoji);
    } else {
      ms, reps := InliningFrom(s, i + 1, emoticon, emoji);
      InlinesPast(s, i, emoticon, emoji, ms, reps);
    }
  }

  lemma InlinedAtSpace(s: string, i: nat, emoticon: string, emoji: string)
    requires AtSpace(s, i, emoticon)
    ensures i + 1 + |emoticon| <= |s| && s[i..i + 1] == [s[i]]
    ensures Inlined(s[i..], i == 0, emoticon, emoji) ==
            [s[i]] + (emoji + PastSpace(s[i + 1 + |emoticon|..], emoticon, emoji))
  {
    assert s[0..] == s;
    assert s[i..][1..] == s[i + 1..];
    assert s[i + 1..][|emoticon|..] == s[i + 1 + |emoticon|..];
  }

  /** Inlining an emoticon is the global replacement of its pattern, with the white space around it kept. */
  lemma InliningIsReplacement(s: string, emoticon: string, emoji: string) returns (ms: seq<Match>, reps: seq<string>)
    requires emoticon != ""
    ensures Scans(Emoticon(emoticon), s, 0, ms) && AllSwapped(s, ms, reps, emoticon, emoji)
    ensures Inlined(s, true, emoticon, emoji) == Replaced(s, 0, ms, reps)
  {
    ms, reps := InliningFrom(s, 0, emoticon, emoji);
    assert s[0..] == s;
  }

  // ------------------------------------------------------------------
  // Ciphertext
  // ------------------------------------------------------------------

  predicate Occurs(t: string, s: string) {
    exists i :: 0 <= i <= |s| && t <= s[i..]
  }

  /** At least 20 characters of the base-64 alphabet, and at most two equality signs behind them. */
  ghost predicate IsBase64Text(s: string) {
    exists body, pad {:trigger body + pad} ::
      && s == body + pad && |body| >= 20 && (pad == "" || pad == "=" || pad == "==")
      && forall k :: 0 <= k < |body| ==>
           'A' <= body[k] <= 'Z' || 'a' <= body[k] <= 'z' || '0' <= body[k] <= '9' || body[k] == '+' || body[k] == '/'
  }

  lemma BodyIsBase64(s: string, n: int)
    requires IsBody(s, n)
    ensures IsBase64Text(s)
  {
    var body, pad := s[..n], s[n..];
    assert s == body + pad;
    assert |pad| == 1 ==> pad == [pad[0]];
    assert |pad| == 2 ==> pad == [pad[0], pad[1]];
    assert forall k :: 0 <= k < |body| ==> Base64Char(body[k]);
  }

  lemma TextIsBody(s: string) returns (n: nat)
    requires IsBase64Text(s)
    ensures IsBody(s, n) && n <= |s| <= n + 2
  {
    var body, pad :| s == body + pad && |body| >= 20 && (pad == "" || pad == "=" || pad == "==")
      && forall k :: 0 <= k < |body| ==>
           'A' <= body[k] <= 'Z' || 'a' <= body[k] <= 'z' || '0' <= body[k] <= '9' || body[k] == '+' || body[k] == '/';
    n := |body|;
    assert forall k :: 0 <= k < n ==> s[k] == body[k];
  }

  lemma Base64Means(s: string)
    ensures IsBase64(s) <==> IsBase64Text(s)
  {
    if n :| |s| - 2 <= n <= |s| && IsBody(s, n) {
      BodyIsBase64(s, n);
    }
    if IsBase64Text(s) {
      var n := TextIsBody(s);
    }
  }

  /** What is taken for ciphertext: trimmed, it is base-64 text, or it starts with a brace and has a colon
      and one of two quoted names in it. */
  lemma CiphertextMeans(text: string)
    ensures var t := Trim(text);
            IsCiphertext(text) <==>
            || IsBase64Text(t)
            || (t != "" && t[0] == '{' && Occurs(":", t) && (Occurs("\"params\"", t) || Occurs("\"cipher\"", t)))
  {
    var t := Trim(text);
    Base64Means(t);
    ContainsMeans(t, ":");
    ContainsMeans(t, "\"params\"");
    ContainsMeans(t, "\"cipher\"");
  }

  lemma {:induction false} ContainsMeans(s: string, t: string)
    ensures Contains(s, t) <==> Occurs(t, s)
    decreases |s|
  {
    assert s[0..] == s;
    if s != "" {
      ContainsMeans(s[1..], t);
      if i :| 0 <= i <= |s[1..]| && t <= s[1..][i..] {
        assert s[1..][i..] == s[i + 1..];
      }
      if i :| 0 < i <= |s| && t <= s[i..] {
        assert s[1..][i - 1..] == s[i..];
      }
    }
  }
}
