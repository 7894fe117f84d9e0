/**
 Cleaning a message: URLs make room for placeholders, trailing reactions are stripped,
 reaction codes are removed, emoticons become emoji, and the URLs are put back.
*/
module Normalizer {
  import opened Prelude
  import opened Text
  import opened Stripping
  import opened Placeholders
  import opened Restoration

  datatype Tables = Tables(
    /** The reaction tokens that may be stuck to the end of a message. */
    trailing: set<string>,
    /** The reaction codes that are removed wherever they stand. */
    codes: seq<string>,
    /** Emoticons and the emoji they become, in the order of the replacements. */
    inline: seq<(string, string)>)

  const NOTICE := "[Tin nhắn mã hóa E2EE]"

  // ------------------------------------------------------------------
  // Ciphertext
  // ------------------------------------------------------------------

  predicate Base64Char(c: char) {
    ('A' <= c <= 'Z') || ('a' <= c <= 'z') || Digit(c) || c == '+' || c == '/'
  }

  /** `n` characters of the base-64 alphabet, at least 20, then only equality signs, at most two. */
  predicate IsBody(s: string, n: int) {
    && 20 <= n <= |s| <= n + 2
    && (forall i :: 0 <= i < n ==> Base64Char(s[i]))
    && (forall i :: n <= i < |s| ==> s[i] == '=')
  }

  predicate IsBase64(s: string) {
    IsBody(s, |s|) || IsBody(s, |s| - 1) || IsBody(s, |s| - 2)
  }

  /** A text that is shown as a notice instead: long base-64, or an encrypted JSON payload. */
  predicate IsCiphertext(text: string) {
    var trimmed := Trim(text);
    IsBase64(trimmed) || (
      && "{" <= trimmed && Contains(trimmed, ":")
      && (Contains(trimmed, "\"params\"") || Contains(trimmed, "\"cipher\"")))
  }

  // ------------------------------------------------------------------
  // Protecting URLs
  // ------------------------------------------------------------------

  function Lower(c: char): char {
    if 'A' <= c <= 'Z' then c + 32 as char else c
  }

  /** From its `k`-th character on, the scheme stands at `i` in any case, and something visible follows it. */
  predicate SchemeAt(s: string, i: nat, scheme: string, k: nat)
    decreases |scheme| - k
  {
    && i + k < |s|
    && if k < |scheme| then Lower(s[i + k]) == scheme[k] && SchemeAt(s, i, scheme, k + 1) else !IsWs(s[i + k])
  }

  predicate UrlAt(s: string, i: nat) {
    SchemeAt(s, i, "http://", 0) || SchemeAt(s, i, "https://", 0) || SchemeAt(s, i, "www.", 0)
  }

  lemma SchemeStarts(s: string, i: nat, scheme: string)
    requires |scheme| >= 2 && SchemeAt(s, i, scheme, 0)
    ensures i + 2 < |s| && Lower(s[i]) == scheme[0] && Lower(s[i + 1]) == scheme[1]
  {
    assert SchemeAt(s, i, scheme, 1);
    assert SchemeAt(s, i, scheme, 2);
  }

  lemma UrlStarts(s: string, i: nat)
    requires UrlAt(s, i)
    ensures i + 2 < |s|
    ensures Lower(s[i]) == 'h' || Lower(s[i]) == 'w'
    ensures Lower(s[i + 1]) == 't' || Lower(s[i + 1]) == 'w'
  {
    if SchemeAt(s, i, "http://", 0) {
      SchemeStarts(s, i, "http://");
    } else if SchemeAt(s, i, "https://", 0) {
      SchemeStarts(s, i, "https://");
    } else {
      SchemeStarts(s, i, "www.");
    }
  }

  lemma UrlEnds(s: string, i: nat)
    requires UrlAt(s, i)
    ensures i + 2 <= |s| && i + 2 <= WordEnd(s, i)
  {
    UrlStarts(s, i);
    assert WordEnd(s, i) == WordEnd(s, i + 1) == WordEnd(s, i + 2);
  }

  /** The URL that starts at `i`: the scheme and everything up to white space. */
  function UrlFrom(s: string, i: nat): string
    requires UrlAt(s, i)
  {
    UrlEnds(s, i);
    s[i..WordEnd(s, i)]
  }

  lemma UrlIsLikely(s: string, i: nat)
    requires UrlAt(s, i)
    ensures UrlLike(UrlFrom(s, i))
  {
    var u := UrlFrom(s, i);
    UrlStarts(s, i);
    UrlEnds(s, i);
    assert u[0] == s[i] && u[1] == s[i + 1];
    forall k | 0 <= k < |u| ensures !IsWs(u[k]) {
      assert u[k] == s[i + k];
    }
  }

  /** The text from `i` on as items; the URLs found get the slots `n`, `n + 1`, ... */
  function PartsFrom(s: string, i: nat, n: nat): seq<Item>
    requires i <= |s|
    decreases |s| - i
  {
    if i == |s| then []
    else if UrlAt(s, i) then
      UrlEnds(s, i);
      [Slot(n)] + PartsFrom(s, WordEnd(s, i), n + 1)
    else [Ch(s[i])] + PartsFrom(s, i + 1, n)
  }

  function Parts(s: string): seq<Item> {
    PartsFrom(s, 0, 0)
  }

  function UrlsFrom(s: string, i: nat): seq<string>
    requires i <= |s|
    decreases |s| - i
  {
    if i == |s| then []
    else if UrlAt(s, i) then
      UrlEnds(s, i);
      [UrlFrom(s, i)] + UrlsFrom(s, WordEnd(s, i))
    else UrlsFrom(s, i + 1)
  }

  /** The URLs of a text, from left to right. */
  function UrlsOf(s: string): seq<string> {
    UrlsFrom(s, 0)
  }

  lemma {:induction false} UrlsAreUrlLike(s: string, i: nat)
    requires i <= |s|
    ensures UrlsLike(UrlsFrom(s, i))
    decreases |s| - i
  {
    if i < |s| {
      if UrlAt(s, i) {
        UrlEnds(s, i);
        UrlIsLikely(s, i);
        UrlsAreUrlLike(s, WordEnd(s, i));
      } else {
        UrlsAreUrlLike(s, i + 1);
      }
    }
  }

  lemma NumberedFrom(item: Item, rest: seq<Item>, n: nat, m: nat)
    requires if item.Slot? then item.n == n < m && Slots(rest) == Range(n + 1, m) else Slots(rest) == Range(n, m)
    ensures Slots([item] + rest) == Range(n, m)
  {
    HeadSlots(item, rest);
  }

  lemma UrlCounts(s: string, i: nat)
    requires i < |s|
    ensures UrlAt(s, i) ==> WordEnd(s, i) > i && |UrlsFrom(s, i)| == 1 + |UrlsFrom(s, WordEnd(s, i))|
    ensures !UrlAt(s, i) ==> |UrlsFrom(s, i)| == |UrlsFrom(s, i + 1)|
  {
    if UrlAt(s, i) {
      UrlEnds(s, i);
    }
  }

  lemma {:induction false} PartsAreNumbered(s: string, i: nat, n: nat)
    requires i <= |s|
    ensures Slots(PartsFrom(s, i, n)) == Range(n, n + |UrlsFrom(s, i)|)
    decreases |s| - i
  {
    if i < |s| {
      UrlCounts(s, i);
      var m := n + |UrlsFrom(s, i)|;
      if UrlAt(s, i) {
        PartsAreNumbered(s, WordEnd(s, i), n + 1);
        NumberedFrom(Slot(n), PartsFrom(s, WordEnd(s, i), n + 1), n, m);
      } else {
        PartsAreNumbered(s, i + 1, n);
        NumberedFrom(Ch(s[i]), PartsFrom(s, i + 1, n), n, m);
      }
    }
  }

  lemma {:induction false} PartsAreSpaced(s: string, i: nat, n: nat)
    requires i <= |s|
    ensures Spaced(PartsFrom(s, i, n))
    ensures i < |s| && IsWs(s[i]) ==> PartsFrom(s, i, n) != [] && WsItem(PartsFrom(s, i, n)[0])
    decreases |s| - i
  {
    if i < |s| {
      if UrlAt(s, i) {
        UrlStarts(s, i);
        UrlEnds(s, i);
        PartsAreSpaced(s, WordEnd(s, i), n + 1);
        TailOfConcat([Slot(n)], PartsFrom(s, WordEnd(s, i), n + 1));
      } else {
        PartsAreSpaced(s, i + 1, n);
        TailOfConcat([Ch(s[i])], PartsFrom(s, i + 1, n));
      }
    }
  }

  /** No underscore outside the URLs. */
  predicate NoUnderscore(s: string, i: nat)
    requires i <= |s|
    decreases |s| - i
  {
    i == |s| || (
      if UrlAt(s, i) then UrlEnds(s, i); NoUnderscore(s, WordEnd(s, i))
      else s[i] != '_' && NoUnderscore(s, i + 1))
  }

  lemma {:induction false} PartsArePlain(s: string, i: nat, n: nat)
    requires i <= |s| && NoUnderscore(s, i)
    ensures Plain(PartsFrom(s, i, n))
    decreases |s| - i
  {
    if i < |s| {
      if UrlAt(s, i) {
        UrlEnds(s, i);
        PartsArePlain(s, WordEnd(s, i), n + 1);
        TailOfConcat([Slot(n)], PartsFrom(s, WordEnd(s, i), n + 1));
      } else {
        PartsArePlain(s, i + 1, n);
        TailOfConcat([Ch(s[i])], PartsFrom(s, i + 1, n));
      }
    }
  }

  lemma Split(s: string, i: nat, e: nat)
    requires i <= e <= |s|
    ensures s[i..] == s[i..e] + s[e..]
  {
  }

  lemma RenderStep(s: string, i: nat, e: nat, item: Item, rest: seq<Item>, urls: seq<string>)
    requires i <= e <= |s| && Shown(item, urls, |urls|) == s[i..e] && Render(rest, urls, |urls|) == s[e..]
    ensures Render([item] + rest, urls, |urls|) == s[i..]
  {
    HeadRenders(item, rest, urls, |urls|);
    Split(s, i, e);
  }

  lemma OneCharSlice(s: string, i: nat)
    requires i < |s|
    ensures s[i..i + 1] == [s[i]]
  {
  }

  /** The slots stand exactly where the URLs stood. */
  lemma {:induction false} PartsRenderTheText(s: string, i: nat, urls: seq<string>, n: nat)
    requires i <= |s| && n <= |urls| && urls[n..] == UrlsFrom(s, i)
    ensures Render(PartsFrom(s, i, n), urls, |urls|) == s[i..]
    decreases |s| - i
  {
    if i < |s| {
      if UrlAt(s, i) {
        UrlEnds(s, i);
        var e := WordEnd(s, i);
        NextUrl(urls, n, UrlFrom(s, i), UrlsFrom(s, e));
        PartsRenderTheText(s, e, urls, n + 1);
        RenderStep(s, i, e, Slot(n), PartsFrom(s, e, n + 1), urls);
      } else {
        PartsRenderTheText(s, i + 1, urls, n);
        OneCharSlice(s, i);
        RenderStep(s, i, i + 1, Ch(s[i]), PartsFrom(s, i + 1, n), urls);
      }
    }
  }

  lemma NextUrl(urls: seq<string>, n: nat, u: string, rest: seq<string>)
    requires n <= |urls| && urls[n..] == [u] + rest
    ensures n < |urls| && urls[n] == u && urls[n + 1..] == rest
  {
    assert urls[n] == urls[n..][0];
    assert urls[n + 1..] == urls[n..][1..];
  }

  /** The parts of a text are its slots for its URLs, numbered from left to right, in their places. */
  lemma PartsFit(s: string)
    ensures UrlsLike(UrlsOf(s)) && Slots(Parts(s)) == Range(0, |UrlsOf(s)|) && Spaced(Parts(s))
  {
    UrlsAreUrlLike(s, 0);
    PartsAreNumbered(s, 0, 0);
    PartsAreSpaced(s, 0, 0);
  }

  lemma TextIsItsParts(s: string)
    ensures Render(Parts(s), UrlsOf(s), |UrlsOf(s)|) == s
  {
    var urls := UrlsOf(s);
    assert urls[0..] == urls && s[0..] == s;
    PartsRenderTheText(s, 0, urls, 0);
  }

  // ------------------------------------------------------------------
  // Reaction codes and emoticons
  // ------------------------------------------------------------------

  /** The code that stands at the start of `s`, by its index. */
  function CodeAt(codes: seq<string>, s: string): (c: Option<nat>)
    ensures c.Some? ==> c.value < |codes| && codes[c.value] <= s && codes[c.value] != ""
    decreases |codes|
  {
    if codes == [] then None
    else
      var n := |codes| - 1;
      match CodeAt(codes[..n], s)
      case Some(i) => Some(i)
      case None => if codes[n] != "" && codes[n] <= s then Some(n) else None
  }

  function WithoutCodes(codes: seq<string>, s: string): string
    decreases |s|
  {
    if s == "" then ""
    else
      match CodeAt(codes, s)
      case Some(i) => WithoutCodes(codes, s[|codes[i]|..])
      case None => [s[0]] + WithoutCodes(codes, s[1..])
  }

  /** An emoticon that stands at the start of `s` and ends there or before white space. */
  predicate StandsAlone(s: string, emoticon: string) {
    emoticon != "" && emoticon <= s && (|s| == |emoticon| || IsWs(s[|emoticon|]))
  }

  /** Emoticons between white space become emoji; white space taken by one match is gone for the next. */
  function Inlined(s: string, start: bool, emoticon: string, emoji: string): string
    decreases |s|, 1
  {
    if start && StandsAlone(s, emoticon) then emoji + PastSpace(s[|emoticon|..], emoticon, emoji)
    else if s == "" then ""
    else if IsWs(s[0]) && StandsAlone(s[1..], emoticon) then
      [s[0]] + (emoji + PastSpace(s[1..][|emoticon|..], emoticon, emoji))
    else [s[0]] + Inlined(s[1..], false, emoticon, emoji)
  }

  function PastSpace(s: string, emoticon: string, emoji: string): string
    decreases |s|, 0
  {
    if s == "" then "" else [s[0]] + Inlined(s[1..], false, emoticon, emoji)
  }

  function AllInlined(s: string, inline: seq<(string, string)>): string
    decreases |inline|
  {
    if inline == [] then s
    else AllInlined(Inlined(s, true, inline[0].0, inline[0].1), inline[1..])
  }

  // ------------------------------------------------------------------
  // The whole cleaning
  // ------------------------------------------------------------------

  /** The cleaning of a text whose URLs are masked. */
  function CleanedMask(tables: Tables, masked: string): string {
    AllInlined(Trim(WithoutCodes(tables.codes, Stripped(tables.trailing, Trim(masked)))), tables.inline)
  }

  function Cleaned(tables: Tables, rawText: string): string {
    var urls := UrlsOf(rawText);
    Trim(Restored(CleanedMask(tables, Masked(Parts(rawText))), urls, 0))
  }

  method CleanMessageContent(tables: Tables, rawText: string) returns (cleanText: string)
    ensures cleanText ==
      if rawText == "" then "" else if IsCiphertext(rawText) then NOTICE else Cleaned(tables, rawText)
  {
    if rawText == "" {
      return "";
    }
    if IsCiphertext(rawText) {
      return NOTICE;
    }
    var protectedText, urlMap := Masked(Parts(rawText)), UrlsOf(rawText);
    cleanText := StripTrailing(tables.trailing, protectedText);
    cleanText := Trim(WithoutCodes(tables.codes, cleanText));
    var i := 0;
    while i < |tables.inline|
      invariant i <= |tables.inline|
      invariant AllInlined(cleanText, tables.inline[i..]) == CleanedMask(tables, protectedText)
    {
      cleanText := Inlined(cleanText, true, tables.inline[i].0, tables.inline[i].1);
      i := i + 1;
    }
    var k := 0;
    while k < |urlMap|
      invariant k <= |urlMap|
      invariant Restored(cleanText, urlMap, k) == Restored(CleanedMask(tables, protectedText), urlMap, 0)
    {
      cleanText := JsReplace("", cleanText, Placeholder(k), urlMap[k]);
      k := k + 1;
    }
    cleanText := Trim(cleanText);
  }

  // ------------------------------------------------------------------
  // Which texts the two replacements change
  // ------------------------------------------------------------------

  /** Some code occurs in `s`. */
  predicate HasCode(codes: seq<string>, s: string)
    decreases |s|
  {
    (exists t <- codes :: t != "" && t <= s) || (s != "" && HasCode(codes, s[1..]))
  }

  lemma {:induction false} CodeIsFound(codes: seq<string>, s: string)
    ensures CodeAt(codes, s).Some? <==> exists t <- codes :: t != "" && t <= s
    decreases |codes|
  {
    var c := CodeAt(codes, s);
    if c.Some? {
      assert codes[c.value] in codes;
    } else if codes != [] {
      var n := |codes| - 1;
      CodeIsFound(codes[..n], s);
      assert codes == codes[..n] + [codes[n]];
    }
  }

  lemma {:induction false} WithoutCodesIsNoLonger(codes: seq<string>, s: string)
    ensures |WithoutCodes(codes, s)| <= |s|
    decreases |s|
  {
    if s != "" {
      var c := CodeAt(codes, s);
      WithoutCodesIsNoLonger(codes, if c.Some? then s[|codes[c.value]|..] else s[1..]);
    }
  }

  /** The removal of codes changes exactly the texts in which a code occurs. */
  lemma {:induction false} CodesGoIff(codes: seq<string>, s: string)
    ensures WithoutCodes(codes, s) != s <==> HasCode(codes, s)
    decreases |s|
  {
    CodeIsFound(codes, s);
    if s == "" {
      assert forall t <- codes :: t <= s ==> t == "";
    } else {
      var c := CodeAt(codes, s);
      if c.Some? {
        WithoutCodesIsNoLonger(codes, s[|codes[c.value]|..]);
      } else {
        CodesGoIff(codes, s[1..]);
        assert s == [s[0]] + s[1..];
      }
    }
  }

  /** The emoticon occurs in `s` between white space or the ends of the text. */
  predicate Stands(s: string, start: bool, emoticon: string)
    decreases |s|
  {
    || (start && StandsAlone(s, emoticon))
    || (s != "" && IsWs(s[0]) && StandsAlone(s[1..], emoticon))
    || (s != "" && Stands(s[1..], false, emoticon))
  }

  /** An emoticon replacement changes exactly the texts in which the emoticon stands alone. */
  lemma {:induction false} EmoticonsGoIff(s: string, start: bool, emoticon: string, emoji: string)
    requires emoticon != "" && emoji != "" && emoticon[0] != emoji[0]
    ensures Inlined(s, start, emoticon, emoji) != s <==> Stands(s, start, emoticon)
    decreases |s|
  {
    var r := Inlined(s, start, emoticon, emoji);
    if start && StandsAlone(s, emoticon) {
      assert r[0] == emoji[0] && s[0] == emoticon[0];
    } else if s != "" && IsWs(s[0]) && StandsAlone(s[1..], emoticon) {
      assert r[1] == emoji[0] && s[1..][0] == emoticon[0];
    } else if s != "" {
      EmoticonsGoIff(s[1..], false, emoticon, emoji);
      assert s == [s[0]] + s[1..];
    }
  }

  // ------------------------------------------------------------------
  // What the tables must not contain
  // ------------------------------------------------------------------

  predicate ValidCodes(codes: seq<string>) {
    forall t <- codes :: t != "" && '_' !in t && !PlaceholderChar(t[0]) && !IsWs(t[0])
  }

  predicate ValidEmoticon(emoticon: string, emoji: string) {
    emoticon != "" && '_' !in emoticon && '_' !in emoji && !IsWs(emoticon[0])
  }

  predicate NoneHasUnderscore(tokens: set<string>) {
    forall t <- tokens :: '_' !in t
  }

  /** Nothing in the tables can be mistaken for, or taken out of, a placeholder. */
  predicate ValidTables(tables: Tables) {
    && ValidTokens(tables.trailing)
    && NoneHasUnderscore(tables.trailing)
    && ValidCodes(tables.codes)
    && (forall e <- tables.inline :: ValidEmoticon(e.0, e.1))
  }
}
