/**
 Messages that lose a URL: one of each kind that the conditions of the restoration exclude,
 followed from the text of the message to the text of the result.
*/
module Misrestored {
  import opened Text
  import opened Stripping
  import opened Placeholders
  import opened Restoration
  import opened Normalizer
  import opened AtomicCleaning

  /** The whole text is one URL. */
  predicate IsUrl(u: string) {
    UrlAt(u, 0) && WordEnd(u, 0) == |u|
  }

  // ------------------------------------------------------------------
  // Reading a text piece by piece, from its end
  // ------------------------------------------------------------------

  /** `t` stands in `s` at `i`, and white space or nothing follows. */
  predicate WordAt(s: string, i: nat, t: string) {
    i + |t| <= |s| && s[i..i + |t|] == t && (i + |t| == |s| || IsWs(s[i + |t|]))
  }

  lemma CharOfWord(s: string, i: nat, t: string, k: nat)
    requires WordAt(s, i, t) && k < |t|
    ensures s[i + k] == t[k]
  {
    assert s[i..i + |t|][k] == s[i + k];
  }

  lemma {:induction false} SchemeStands(s: string, i: nat, u: string, scheme: string, k: nat)
    requires WordAt(s, i, u) && SchemeAt(u, 0, scheme, k)
    ensures SchemeAt(s, i, scheme, k)
    decreases |scheme| - k
  {
    CharOfWord(s, i, u, k);
    if k < |scheme| {
      SchemeStands(s, i, u, scheme, k + 1);
    }
  }

  lemma UrlStands(s: string, i: nat, u: string)
    requires WordAt(s, i, u) && IsUrl(u)
    ensures UrlAt(s, i) && WordEnd(s, i) == i + |u| && UrlFrom(s, i) == u
  {
    if SchemeAt(u, 0, "http://", 0) {
      SchemeStands(s, i, u, "http://", 0);
    } else if SchemeAt(u, 0, "https://", 0) {
      SchemeStands(s, i, u, "https://", 0);
    } else {
      SchemeStands(s, i, u, "www.", 0);
    }
    WordEndStands(s, i, u);
  }

  lemma WordEndStands(s: string, i: nat, u: string)
    requires WordAt(s, i, u) && WordEnd(u, 0) == |u|
    ensures WordEnd(s, i) == i + |u|
  {
    forall j | i <= j < i + |u| ensures !IsWs(s[j]) {
      CharOfWord(s, i, u, j - i);
    }
  }

  /** From position `i` and slot `n` on, the text is read as the masked text with these URLs. */
  predicate ReadsAs(s: string, i: nat, n: nat, masked: string, urls: seq<string>) {
    i <= |s| && Masked(PartsFrom(s, i, n)) == masked && UrlsFrom(s, i) == urls
  }

  lemma EndReads(s: string, n: nat)
    ensures ReadsAs(s, |s|, n, "", [])
  {
  }

  lemma UrlUnfolds(s: string, i: nat, n: nat)
    requires UrlAt(s, i)
    ensures i < |s| && i < WordEnd(s, i)
    ensures PartsFrom(s, i, n) == [Slot(n)] + PartsFrom(s, WordEnd(s, i), n + 1)
    ensures UrlsFrom(s, i) == [UrlFrom(s, i)] + UrlsFrom(s, WordEnd(s, i))
  {
    UrlEnds(s, i);
  }

  lemma SlotRenders(n: nat, rest: seq<Item>)
    ensures Masked([Slot(n)] + rest) == Placeholder(n) + Masked(rest)
  {
    HeadRenders(Slot(n), rest, [], 0);
  }

  lemma FoundUrlReads(s: string, i: nat, e: nat, n: nat, masked: string, urls: seq<string>)
    requires UrlAt(s, i) && WordEnd(s, i) == e && ReadsAs(s, e, n + 1, masked, urls)
    ensures ReadsAs(s, i, n, Placeholder(n) + masked, [UrlFrom(s, i)] + urls)
  {
    UrlUnfolds(s, i, n);
    SlotRenders(n, PartsFrom(s, e, n + 1));
  }

  lemma UrlReads(s: string, i: nat, u: string, n: nat, masked: string, urls: seq<string>)
    requires WordAt(s, i, u) && IsUrl(u) && ReadsAs(s, i + |u|, n + 1, masked, urls)
    ensures ReadsAs(s, i, n, Placeholder(n) + masked, [u] + urls)
  {
    UrlStands(s, i, u);
    FoundUrlReads(s, i, i + |u|, n, masked, urls);
  }

  lemma CharReads(s: string, i: nat, n: nat, masked: string, urls: seq<string>)
    requires i < |s| && !UrlAt(s, i) && ReadsAs(s, i + 1, n, masked, urls)
    ensures ReadsAs(s, i, n, [s[i]] + masked, urls)
  {
    HeadRenders(Ch(s[i]), PartsFrom(s, i + 1, n), [], 0);
  }

  lemma NoUrlStarts(s: string, i: nat)
    requires i < |s| && (IsWs(s[i]) || i + 1 == |s| || IsWs(s[i + 1]) || PlaceholderChar(s[i + 1]))
    ensures !UrlAt(s, i)
  {
    if UrlAt(s, i) {
      UrlStarts(s, i);
      assert false;
    }
  }

  lemma PlaceholderCharReads(s: string, i: nat, w: string, n: nat, masked: string, urls: seq<string>)
    requires WordAt(s, i, w) && w != "" && AllPlaceholderChars(w) && ReadsAs(s, i + 1, n, masked, urls)
    ensures ReadsAs(s, i, n, [w[0]] + masked, urls)
  {
    WordAtTail(s, i, w);
    NoUrlStarts(s, i);
    CharReads(s, i, n, masked, urls);
  }

  lemma {:induction false} WordReads(s: string, i: nat, w: string, n: nat, masked: string, urls: seq<string>)
    requires WordAt(s, i, w) && AllPlaceholderChars(w) && ReadsAs(s, i + |w|, n, masked, urls)
    ensures ReadsAs(s, i, n, w + masked, urls)
    decreases |w|
  {
    if w == "" {
      assert w + masked == masked;
    } else {
      WordAtTail(s, i, w);
      WordReads(s, i + 1, w[1..], n, masked, urls);
      PlaceholderCharReads(s, i, w, n, w[1..] + masked, urls);
      Associative([w[0]], w[1..], masked);
      assert [w[0]] + w[1..] == w;
    }
  }

  lemma WordAtTail(s: string, i: nat, w: string)
    requires WordAt(s, i, w) && w != ""
    ensures WordAt(s, i + 1, w[1..]) && s[i] == w[0]
    ensures |w| > 1 ==> s[i + 1] == w[1]
  {
    CharOfWord(s, i, w, 0);
    if |w| > 1 {
      CharOfWord(s, i, w, 1);
    }
    assert s[i + 1..i + |w|] == s[i..i + |w|][1..];
  }

  // ------------------------------------------------------------------
  // Masked texts that cleaning leaves alone
  // ------------------------------------------------------------------

  /** A placeholder character, or a space before an underscore. */
  predicate QuietAt(s: string, j: nat)
    requires j < |s|
  {
    PlaceholderChar(s[j]) || (s[j] == ' ' && j + 1 < |s| && s[j + 1] == '_')
  }

  /** Words of placeholder characters, one space apart, each but the first starting with an underscore. */
  predicate AllQuiet(s: string) {
    forall j: nat :: j < |s| ==> QuietAt(s, j)
  }

  predicate Quiet(s: string) {
    s != "" && s[0] == '_' && s[|s| - 1] == '_' && AllQuiet(s)
  }

  lemma QuietTail(s: string)
    requires s != "" && AllQuiet(s)
    ensures AllQuiet(s[1..])
  {
    forall j: nat | j < |s[1..]| ensures QuietAt(s[1..], j) {
      assert QuietAt(s, j + 1);
    }
  }

  lemma QuietHead(s: string)
    requires s != "" && AllQuiet(s)
    ensures PlaceholderChar(s[0]) || s[0] == ' '
    ensures IsWs(s[0]) ==> |s| > 1 && s[1] == '_'
  {
    assert QuietAt(s, 0);
  }

  lemma TrimmedStays(s: string)
    requires Trimmed(s)
    ensures Trim(s) == s
  {
  }

  lemma {:induction false} QuietHasNoCode(codes: seq<string>, s: string)
    requires ValidCodes(codes) && AllQuiet(s)
    ensures WithoutCodes(codes, s) == s
    decreases |s|
  {
    if s != "" {
      QuietHead(s);
      NoCodeAt(codes, s);
      QuietTail(s);
      QuietHasNoCode(codes, s[1..]);
      assert s == [s[0]] + s[1..];
    }
  }

  lemma {:induction false} QuietHasNoEmoticon(s: string, start: bool, emoticon: string, emoji: string)
    requires ValidEmoticon(emoticon, emoji) && AllQuiet(s) && (start && s != "" ==> s[0] == '_')
    ensures Inlined(s, start, emoticon, emoji) == s
    decreases |s|
  {
    PrefixHead(emoticon, s);
    if s != "" {
      QuietHead(s);
      QuietTail(s);
      QuietHasNoEmoticon(s[1..], false, emoticon, emoji);
      assert s == [s[0]] + s[1..];
      if IsWs(s[0]) {
        PrefixHead(emoticon, s[1..]);
        assert s[1..][0] == s[1] == '_';
      }
    }
  }

  lemma {:induction false} QuietHasNoEmoticons(s: string, inline: seq<(string, string)>)
    requires (forall e <- inline :: ValidEmoticon(e.0, e.1)) && Quiet(s)
    ensures AllInlined(s, inline) == s
    decreases |inline|
  {
    if inline != [] {
      QuietHasNoEmoticon(s, true, inline[0].0, inline[0].1);
      QuietHasNoEmoticons(s, inline[1..]);
    }
  }

  lemma QuietIsNotStripped(tables: Tables, s: string)
    requires ValidTables(tables) && Quiet(s)
    ensures Stripped(tables.trailing, s) == s
  {
    StripsLongestSuffix(tables.trailing, s);
    RemovableHasNoUnderscore(tables.trailing, s, Cut(tables.trailing, s), |s|);
    assert Cut(tables.trailing, s) == |s|;
    assert s[..|s|] == s;
  }

  lemma QuietIsClean(tables: Tables, s: string)
    requires ValidTables(tables) && Quiet(s)
    ensures CleanedMask(tables, s) == s
  {
    TrimmedStays(s);
    QuietIsNotStripped(tables, s);
    QuietHasNoCode(tables.codes, s);
    QuietHasNoEmoticons(s, tables.inline);
  }

  lemma PlaceholderIsQuiet(n: nat)
    ensures Quiet(Placeholder(n))
  {
    PlaceholderChars(n);
    assert forall j: nat :: j < |Placeholder(n)| ==> QuietAt(Placeholder(n), j);
  }

  lemma PairIsQuiet(m: nat, n: nat)
    ensures Quiet(Placeholder(m) + (" " + Placeholder(n)))
  {
    PlaceholderChars(m);
    PlaceholderChars(n);
    var p, q := Placeholder(m), Placeholder(n);
    var s := p + (" " + q);
    forall j: nat | j < |s| ensures QuietAt(s, j) {
      if j < |p| {
        assert s[j] == p[j];
      } else if j > |p| {
        assert s[j] == q[j - |p| - 1];
      } else {
        assert s[j + 1] == q[0];
      }
    }
  }

  // ------------------------------------------------------------------
  // From the text of a message to its result
  // ------------------------------------------------------------------

  /** The text is read as the masked text with these URLs. */
  predicate IsRead(rawText: string, masked: string, urls: seq<string>) {
    ReadsAs(rawText, 0, 0, masked, urls)
  }

  lemma QuietIsRestored(tables: Tables, rawText: string, masked: string, urls: seq<string>)
    requires ValidTables(tables) && IsRead(rawText, masked, urls) && Quiet(masked)
    ensures Cleaned(tables, rawText) == Trim(Restored(masked, urls, 0))
  {
    QuietIsClean(tables, masked);
  }

  /** Two words, the second of which is a URL. */
  lemma PairStands(a: string, u: string)
    requires IsUrl(u)
    ensures var s := a + (" " + u);
            WordAt(s, 0, a) && |a| < |s| && s[|a|] == ' ' && WordAt(s, |a| + 1, u) && |s| == |a| + 1 + |u|
  {
    var s := a + (" " + u);
    assert s[0..|a|] == a && s[|a| + 1..|a| + 1 + |u|] == u;
  }

  lemma SecondUrlReads(a: string, u: string, n: nat)
    requires IsUrl(u)
    ensures ReadsAs(a + (" " + u), |a|, n, " " + Placeholder(n), [u])
  {
    var s := a + (" " + u);
    PairStands(a, u);
    EndReads(s, n + 1);
    UrlReads(s, |a| + 1, u, n, "", []);
    assert Placeholder(n) + "" == Placeholder(n) && [u] + [] == [u];
    NoUrlStarts(s, |a|);
    CharReads(s, |a|, n, Placeholder(n), [u]);
  }

  /** The first character of a URL is neither white space nor an underscore, and the last is no white space. */
  lemma UrlIsVisible(u: string)
    requires IsUrl(u)
    ensures |u| >= 2 && u[0] != '_' && !IsWs(u[0]) && !IsWs(u[|u| - 1])
  {
    UrlEnds(u, 0);
    UrlIsLikely(u, 0);
    assert UrlFrom(u, 0) == u;
  }

  // ------------------------------------------------------------------
  // A URL with a special pattern
  // ------------------------------------------------------------------

  /** A message that is one URL comes back as the expansion of that URL. */
  lemma LoneUrlIsExpanded(tables: Tables, u: string)
    requires ValidTables(tables) && IsUrl(u)
    ensures Cleaned(tables, u) == Trim(Expand(u, "", Placeholder(0), ""))
  {
    var p := Placeholder(0);
    EndReads(u, 1);
    assert u[0..|u|] == u && p + "" == p && [u] + [] == [u];
    UrlReads(u, 0, u, 0, "", []);
    PlaceholderIsQuiet(0);
    QuietIsRestored(tables, u, p, [u]);
    OneStep(p, u);
    ReplacesAll("", p, u);
  }

  lemma OneStep(s: string, u: string)
    ensures Restored(s, [u], 0) == JsReplace("", s, Placeholder(0), u)
  {
    assert Restored(s, [u], 0) == Restored(JsReplace("", s, Placeholder(0), u), [u], 1);
  }

  lemma EndsInPlaceholder(u: string)
    requires u != "" && !IsWs(u[0])
    ensures Trim(u + Placeholder(0)) == u + Placeholder(0) != u + "$&"
  {
    var s := u + Placeholder(0);
    assert s[0] == u[0] && s[|s| - 1] == '_';
    TrimmedStays(s);
    assert s[|u|] == '_' && (u + "$&")[|u|] == '$';
  }

  /** A message that is one URL with the pattern for the match at its end: its placeholder appears in the result. */
  lemma SpecialsAreExpanded(tables: Tables, u: string)
    requires ValidTables(tables) && IsUrl(u + "$&") && Verbatim(u) && u != "" && u[|u| - 1] != '$'
    ensures Cleaned(tables, u + "$&") == u + Placeholder(0) != u + "$&"
  {
    LoneUrlIsExpanded(tables, u + "$&");
    TrailingPatternExpands(u, '&', "", Placeholder(0), "");
    UrlIsVisible(u + "$&");
    assert (u + "$&")[0] == u[0];
    EndsInPlaceholder(u);
  }

  // ------------------------------------------------------------------
  // A typed placeholder
  // ------------------------------------------------------------------

  lemma TypedIsRead(u: string)
    requires IsUrl(u)
    ensures IsRead(Placeholder(0) + (" " + u), Placeholder(0) + (" " + Placeholder(0)), [u])
  {
    var p := Placeholder(0);
    PlaceholderChars(0);
    PairStands(p, u);
    SecondUrlReads(p, u, 0);
    WordReads(p + (" " + u), 0, p, 0, " " + p, [u]);
  }

  lemma TypedIsRestored(u: string)
    requires IsUrl(u) && Verbatim(u)
    ensures var p := Placeholder(0);
            Trim(Restored(p + (" " + p), [u], 0)) == u + (" " + p) != p + (" " + u)
  {
    var p := Placeholder(0);
    OneStep(p + (" " + p), u);
    ReplacesPrefix("", p, " " + p, u);
    VerbatimExpandsToItself(u, "", p, " " + p);
    UrlIsVisible(u);
    EndsStayVisible(u, " ", p);
    TrimmedStays(u + (" " + p));
    assert (u + (" " + p))[0] == u[0] && (p + (" " + u))[0] == '_';
  }

  /** A message that has the placeholder of its URL typed before it: the typed text takes the URL. */
  lemma TypedPlaceholderTakesUrl(tables: Tables, u: string)
    requires ValidTables(tables) && IsUrl(u) && Verbatim(u)
    ensures var p := Placeholder(0);
            Cleaned(tables, p + (" " + u)) == u + (" " + p) != p + (" " + u)
  {
    var p := Placeholder(0);
    TypedIsRead(u);
    PairIsQuiet(0, 0);
    QuietIsRestored(tables, p + (" " + u), p + (" " + p), [u]);
    TypedIsRestored(u);
  }

  lemma EndsStayVisible(a: string, b: string, c: string)
    requires a != "" && c != "" && !IsWs(a[0]) && !IsWs(c[|c| - 1])
    ensures Trimmed(a + (b + c))
  {
    var s := a + (b + c);
    assert s[0] == a[0] && s[|s| - 1] == c[|c| - 1];
  }

  // ------------------------------------------------------------------
  // A hidden placeholder
  // ------------------------------------------------------------------

  lemma FirstUrlReads(s: string, u: string, masked: string, urls: seq<string>)
    requires WordAt(s, 0, u) && IsUrl(u) && ReadsAs(s, |u|, 1, masked, urls)
    ensures IsRead(s, Placeholder(0) + masked, [u] + urls)
  {
    UrlReads(s, 0, u, 0, masked, urls);
  }

  lemma HiddenIsRead(u: string, v: string)
    requires IsUrl(u) && IsUrl(v)
    ensures IsRead(u + (" " + v), Placeholder(0) + (" " + Placeholder(1)), [u, v])
  {
    PairStands(u, v);
    SecondUrlReads(u, v, 1);
    FirstUrlReads(u + (" " + v), u, " " + Placeholder(1), [v]);
    assert [u] + [v] == [u, v];
  }

  lemma {:induction false} PassesOverPlain(before: string, w: string, rest: string, pat: string, rep: string)
    requires pat != "" && pat[0] == '_' && '_' !in w
    ensures JsReplace(before, w + rest, pat, rep) == w + JsReplace(before + w, rest, pat, rep)
    decreases |w|
  {
    TailOfConcat(w, rest);
    if w == "" {
      assert before + w == before;
    } else {
      NoUnderscoreInTail(w);
      PassesOverPlain(before + [w[0]], w[1..], rest, pat, rep);
      Associative(before, [w[0]], w[1..]);
      assert [w[0]] + w[1..] == w;
      Associative([w[0]], w[1..], JsReplace(before + w, rest, pat, rep));
    }
  }

  lemma TwoSteps(s: string, u: string, v: string)
    ensures Restored(s, [u, v], 0) == JsReplace("", JsReplace("", s, Placeholder(0), u), Placeholder(1), v)
  {
    var t := JsReplace("", s, Placeholder(0), u);
    assert Restored(s, [u, v], 0) == Restored(t, [u, v], 1);
    assert Restored(t, [u, v], 1) == Restored(JsReplace("", t, Placeholder(1), v), [u, v], 2);
  }

  lemma HiddenIsRestored(w: string, v: string)
    requires '_' !in w && Verbatim(w + Placeholder(1)) && Verbatim(v)
    ensures var p, q := Placeholder(0), Placeholder(1);
            Restored(p + (" " + q), [w + q, v], 0) == w + (v + (" " + q))
  {
    var p, q := Placeholder(0), Placeholder(1);
    TwoSteps(p + (" " + q), w + q, v);
    ReplacesPrefix("", p, " " + q, w + q);
    VerbatimExpandsToItself(w + q, "", p, " " + q);
    Associative(w, q, " " + q);
    PassesOverPlain("", w, q + (" " + q), q, v);
    ReplacesPrefix("" + w, q, " " + q, v);
    VerbatimExpandsToItself(v, "" + w, q, " " + q);
  }

  /** The result starts and ends in something visible, and differs from the message after `w`. */
  lemma HiddenShows(w: string, v: string, q: string)
    requires w != "" && v != "" && q != "" && !IsWs(w[0]) && !IsWs(q[|q| - 1]) && v[0] != q[0]
    ensures Trim(w + (v + (" " + q))) == w + (v + (" " + q)) != (w + q) + (" " + v)
  {
    var r := w + (v + (" " + q));
    assert r[0] == w[0] && r[|r| - 1] == q[|q| - 1];
    TrimmedStays(r);
    assert r[|w|] == v[0] && ((w + q) + (" " + v))[|w|] == q[0];
  }

  lemma HiddenIsVisible(w: string, v: string)
    requires IsUrl(w + Placeholder(1)) && IsUrl(v) && w != ""
    ensures !IsWs(w[0]) && v != "" && v[0] != '_'
  {
    UrlIsVisible(w + Placeholder(1));
    UrlIsVisible(v);
    assert (w + Placeholder(1))[0] == w[0];
  }

  lemma HiddenResult(w: string, v: string)
    requires IsUrl(w + Placeholder(1)) && IsUrl(v)
    requires w != "" && '_' !in w && Verbatim(w + Placeholder(1)) && Verbatim(v)
    ensures var p, q := Placeholder(0), Placeholder(1);
            Trim(Restored(p + (" " + q), [w + q, v], 0)) == w + (v + (" " + q)) != (w + q) + (" " + v)
  {
    HiddenIsRestored(w, v);
    HiddenIsVisible(w, v);
    HiddenShows(w, v, Placeholder(1));
  }

  /** A message with two URLs, the first of which ends in the placeholder of the second: the second
      URL is put into the first, and its own slot keeps the placeholder. */
  lemma HiddenPlaceholderTakesUrl(tables: Tables, w: string, v: string)
    requires ValidTables(tables) && IsUrl(w + Placeholder(1)) && IsUrl(v)
    requires w != "" && '_' !in w && Verbatim(w + Placeholder(1)) && Verbatim(v)
    ensures var q := Placeholder(1);
            Cleaned(tables, (w + q) + (" " + v)) == w + (v + (" " + q)) != (w + q) + (" " + v)
  {
    var p, q := Placeholder(0), Placeholder(1);
    HiddenIsRead(w + q, v);
    PairIsQuiet(0, 1);
    QuietIsRestored(tables, (w + q) + (" " + v), p + (" " + q), [w + q, v]);
    HiddenResult(w, v);
  }

  // ------------------------------------------------------------------
  // A URL that copies the text before its match
  // ------------------------------------------------------------------

  /** The two characters of the pattern for the text before the match. */
  const OWN := ['$', '`']

  /** The message that starts with these two characters and a URL that ends in them, as items. */
  const OWN_PARTS := [Ch('$'), Ch('`'), Slot(0)]

  lemma OwnIsRead(u: string)
    requires IsUrl(u)
    ensures Parts(OWN + u) == OWN_PARTS && UrlsOf(OWN + u) == [u]
  {
    var s := OWN + u;
    assert s[0] == '$' && s[1] == '`' && s[2..2 + |u|] == u && |s| == 2 + |u|;
    NoUrlAtOwn(s);
    UrlStands(s, 2, u);
    UrlUnfolds(s, 2, 0);
    assert PartsFrom(s, 2, 0) == [Slot(0)] + [] == [Slot(0)];
    assert PartsFrom(s, 1, 0) == [Ch('`')] + PartsFrom(s, 2, 0);
    assert PartsFrom(s, 0, 0) == [Ch('$')] + PartsFrom(s, 1, 0);
    assert UrlsFrom(s, 2) == [u] + [] == [u];
    assert UrlsFrom(s, 0) == UrlsFrom(s, 1) == UrlsFrom(s, 2);
  }

  lemma NoUrlAtOwn(s: string)
    requires |s| >= 2 && s[0] == '$' && s[1] == '`'
    ensures !UrlAt(s, 0) && !UrlAt(s, 1)
  {
    if UrlAt(s, 0) {
      UrlStarts(s, 0);
      assert false;
    }
    if UrlAt(s, 1) {
      UrlStarts(s, 1);
      assert false;
    }
  }

  lemma OwnIsTrimmed()
    ensures TrimItems(OWN_PARTS) == OWN_PARTS && LiteralTail(OWN_PARTS) == ""
  {
    assert !WsItem(OWN_PARTS[0]) && !WsItem(OWN_PARTS[2]);
  }

  lemma OwnRuns()
    ensures LiteralRun(OWN_PARTS) == ['$', '`']
    ensures OWN_PARTS[1..] == [Ch('`'), Slot(0)] && LiteralRun(OWN_PARTS[1..]) == ['`']
    ensures OWN_PARTS[1..][1..] == [Slot(0)] && LiteralRun(OWN_PARTS[1..][1..]) == ""
    ensures OWN_PARTS[1..][1..][1..] == []
  {
    assert LiteralRun(OWN_PARTS[1..]) == ['`'] + LiteralRun(OWN_PARTS[1..][1..]);
    assert LiteralRun(OWN_PARTS) == ['$'] + LiteralRun(OWN_PARTS[1..]);
  }

  /** No code starts with one of the two characters. */
  predicate NoCodeOwn(codes: seq<string>) {
    forall t <- codes :: t != "" && t[0] != '$' && t[0] != '`'
  }

  lemma OwnHasNoCode(codes: seq<string>, s: string)
    requires NoCodeOwn(codes) && (s == "" || s[0] == '$' || s[0] == '`')
    ensures CodeAt(codes, s).None?
  {
    CodeIsFound(codes, s);
    forall c | c in codes ensures c != "" && !(c <= s) {
      PrefixHead(c, s);
    }
  }

  lemma OwnIsCodeless(codes: seq<string>)
    requires NoCodeOwn(codes)
    ensures CodelessItems(codes, OWN_PARTS) == OWN_PARTS
  {
    OwnRuns();
    OwnHasNoCode(codes, LiteralRun(OWN_PARTS));
    OwnHasNoCode(codes, LiteralRun(OWN_PARTS[1..]));
    OwnHasNoCode(codes, LiteralRun(OWN_PARTS[1..][1..]));
    var last, middle := OWN_PARTS[1..][1..], OWN_PARTS[1..];
    assert CodelessItems(codes, last) == [Slot(0)] + CodelessItems(codes, last[1..]) == [Slot(0)] + [];
    assert CodelessItems(codes, middle) == [Ch('`')] + [Slot(0)];
    assert CodelessItems(codes, OWN_PARTS) == [Ch('$')] + ([Ch('`')] + [Slot(0)]);
  }

  lemma OwnHasNoEmoticon(items: seq<Item>, emoticon: string)
    requires items == OWN_PARTS || items == OWN_PARTS[1..] || items == OWN_PARTS[1..][1..]
    ensures !ItemStandsAlone(items, emoticon)
  {
    OwnRuns();
    if emoticon != "" && emoticon <= LiteralRun(items) {
      assert |emoticon| < |items| && !WsItem(items[|emoticon|]);
    }
  }

  lemma OwnHasNoEmoji(emoticon: string, emoji: string)
    ensures InlinedItems(OWN_PARTS, true, emoticon, emoji) == OWN_PARTS
  {
    OwnRuns();
    var last, middle := OWN_PARTS[1..][1..], OWN_PARTS[1..];
    OwnHasNoEmoticon(OWN_PARTS, emoticon);
    OwnHasNoEmoticon(middle, emoticon);
    OwnHasNoEmoticon(last, emoticon);
    assert InlinedItems(last, false, emoticon, emoji) == [Slot(0)] + InlinedItems([], false, emoticon, emoji) == [Slot(0)] + [];
    assert InlinedItems(middle, false, emoticon, emoji) == [Ch('`')] + [Slot(0)];
    assert InlinedItems(OWN_PARTS, true, emoticon, emoji) == [Ch('$')] + ([Ch('`')] + [Slot(0)]);
  }

  lemma {:induction false} OwnHasNoEmojis(inline: seq<(string, string)>)
    ensures AllInlinedItems(OWN_PARTS, inline) == OWN_PARTS
    decreases |inline|
  {
    if inline != [] {
      OwnHasNoEmoji(inline[0].0, inline[0].1);
      OwnHasNoEmojis(inline[1..]);
    }
  }

  lemma OwnIsClean(tables: Tables)
    requires NoCodeOwn(tables.codes)
    ensures CleanedItems(tables, OWN_PARTS) == OWN_PARTS
  {
    OwnIsTrimmed();
    assert StrippedItems(tables.trailing, OWN_PARTS) == OWN_PARTS[..|OWN_PARTS|] == OWN_PARTS;
    OwnIsCodeless(tables.codes);
    OwnHasNoEmojis(tables.inline);
  }

  lemma OwnRenders(urls: seq<string>, k: nat)
    requires k <= |urls|
    ensures Render(OWN_PARTS, urls, k) == OWN + Image(0, urls, k)
  {
    assert OWN_PARTS == [Ch('$')] + ([Ch('`')] + ([Slot(0)] + []));
    HeadRenders(Slot(0), [], urls, k);
    HeadRenders(Ch('`'), [Slot(0)] + [], urls, k);
    HeadRenders(Ch('$'), [Ch('`')] + ([Slot(0)] + []), urls, k);
    assert Image(0, urls, k) + "" == Image(0, urls, k);
  }

  lemma OwnStays(v: string)
    ensures Trim(OWN + (v + OWN)) == OWN + (v + OWN)
  {
    var r := OWN + (v + OWN);
    assert r[0] == '$' && r[|r| - 1] == '`';
    TrimmedStays(r);
  }

  lemma OwnIsRestored(v: string)
    requires v != "" && Verbatim(v) && v[|v| - 1] != '$'
    ensures Trim(Restored(OWN + Placeholder(0), [v + OWN], 0)) == OWN + (v + OWN)
    ensures !Verbatim(v + OWN)
  {
    OneStep(OWN + Placeholder(0), v + OWN);
    PrefixCopyCanRestore(v);
    OwnStays(v);
  }

  /** A message that the restoration leaves as intended although its step is not clear: two characters,
      and a URL that ends in the pattern which copies just these. */
  lemma PrefixCopyIsRestored(tables: Tables, v: string)
    requires ValidTables(tables) && NoCodeOwn(tables.codes)
    requires v != "" && IsUrl(v + OWN) && Verbatim(v) && v[|v| - 1] != '$'
    ensures var rawText := OWN + (v + OWN);
            && Cleaned(tables, rawText) == Intended(tables, rawText) == rawText
            && !Clear(CleanedItems(tables, Parts(rawText)), UrlsOf(rawText))
  {
    var u := v + OWN;
    OwnIsRead(u);
    OwnIsClean(tables);
    OwnIsTrimmed();
    PartsFit(OWN + u);
    CleaningIsAtomic(tables, OWN_PARTS);
    MaskedIsUntouched(OWN_PARTS, [u]);
    OwnRenders([u], 0);
    OwnRenders([u], 1);
    OwnIsRestored(v);
    assert !StepIsClear(OWN_PARTS, [u], 0);
  }
}
