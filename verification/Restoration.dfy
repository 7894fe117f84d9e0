/**
 The restoration of URLs: for one placeholder after the other, the first occurrence in the
 text is replaced by its URL, with the special patterns of replacement strings expanded.
*/
module Restoration {
  import opened Text
  import opened Placeholders

  // ------------------------------------------------------------------
  // Replacing the first occurrence
  // ------------------------------------------------------------------

  /** A replacement string with its special patterns expanded. */
  function Expand(rep: string, before: string, matched: string, after: string): string {
    if |rep| < 2 then rep
    else if rep[0] == '$' && rep[1] == '$' then "$" + Expand(rep[2..], before, matched, after)
    else if rep[0] == '$' && rep[1] == '&' then matched + Expand(rep[2..], before, matched, after)
    else if rep[0] == '$' && rep[1] == '`' then before + Expand(rep[2..], before, matched, after)
    else if rep[0] == '$' && rep[1] == '\'' then after + Expand(rep[2..], before, matched, after)
    else [rep[0]] + Expand(rep[1..], before, matched, after)
  }

  /** `replace` with a string pattern: the first occurrence of `pat`, after the text `before`. */
  function JsReplace(before: string, s: string, pat: string, rep: string): string
    decreases |s|
  {
    if pat <= s then Expand(rep, before, pat, s[|pat|..]) + s[|pat|..]
    else if s == "" then ""
    else [s[0]] + JsReplace(before + [s[0]], s[1..], pat, rep)
  }

  /** None of the special patterns `$$`, `$&`, `` $` `` and `$'`. */
  predicate Verbatim(rep: string) {
    |rep| < 2 || (
      && !(rep[0] == '$' && (rep[1] == '$' || rep[1] == '&' || rep[1] == '`' || rep[1] == '\''))
      && Verbatim(rep[1..]))
  }

  /** Not the pattern `` $` ``, which copies the text before the match. */
  predicate CopiesNoPrefix(rep: string) {
    |rep| < 2 || (!(rep[0] == '$' && rep[1] == '`') && CopiesNoPrefix(rep[1..]))
  }

  lemma {:induction false} VerbatimExpandsToItself(rep: string, before: string, matched: string, after: string)
    requires Verbatim(rep)
    ensures Expand(rep, before, matched, after) == rep
  {
    if |rep| >= 2 {
      VerbatimExpandsToItself(rep[1..], before, matched, after);
    }
  }

  lemma ExpansionStartsAlike(rep: string, before: string, matched: string, after: string)
    requires rep != "" && rep[0] != '$'
    ensures Expand(rep, before, matched, after) != "" && Expand(rep, before, matched, after)[0] == rep[0]
  {
  }

  /** A replacement string is expanded piece by piece: behind text without special patterns, each
      pattern makes room for what it stands for. */
  lemma {:induction false} ExpandsPieceByPiece(text: string, kind: char, rest: string, before: string, matched: string, after: string)
    requires Verbatim(text) && (text != "" ==> text[|text| - 1] != '$')
    requires kind == '$' || kind == '&' || kind == '`' || kind == '\''
    ensures Expand(text + (['$', kind] + rest), before, matched, after) ==
            text + ((if kind == '$' then "$" else if kind == '&' then matched else if kind == '`' then before else after)
                    + Expand(rest, before, matched, after))
    decreases |text|
  {
    var tail := ['$', kind] + rest;
    TailOfConcat(text, tail);
    assert tail[2..] == rest;
    if text != "" {
      assert (text + tail)[1] == if |text| > 1 then text[1] else '$';
      ExpandsPieceByPiece(text[1..], kind, rest, before, matched, after);
      Associative([text[0]], text[1..], Expand(tail, before, matched, after));
      ExpandsPieceByPiece("", kind, rest, before, matched, after);
      assert [text[0]] + text[1..] == text;
    }
  }

  /** The first occurrence of the pattern, and only that, is replaced; around it the text stays. */
  lemma {:induction false} ReplacesFirst(before: string, s: string, pat: string, rep: string, i: nat)
    requires i <= |s| && pat <= s[i..] && forall j :: 0 <= j < i ==> !(pat <= s[j..])
    ensures JsReplace(before, s, pat, rep) ==
            s[..i] + (Expand(rep, before + s[..i], pat, s[i + |pat|..]) + s[i + |pat|..])
    decreases |s|
  {
    if i == 0 {
      assert s[0..] == s && before + s[..0] == before;
    } else {
      assert s[0..] == s;
      forall j | 0 <= j < i - 1 ensures !(pat <= s[1..][j..]) {
        assert s[1..][j..] == s[j + 1..];
      }
      assert s[1..][i - 1..] == s[i..] && s[1..][i - 1 + |pat|..] == s[i + |pat|..];
      ReplacesFirst(before + [s[0]], s[1..], pat, rep, i - 1);
      assert (before + [s[0]]) + s[1..][..i - 1] == before + s[..i];
      assert [s[0]] + s[1..][..i - 1] == s[..i];
      Associative([s[0]], s[1..][..i - 1], Expand(rep, before + s[..i], pat, s[i + |pat|..]) + s[i + |pat|..]);
    }
  }

  lemma {:induction false} ReplacesNothing(before: string, s: string, pat: string, rep: string)
    requires forall j :: 0 <= j <= |s| ==> !(pat <= s[j..])
    ensures JsReplace(before, s, pat, rep) == s
    decreases |s|
  {
    assert s[0..] == s;
    if s != "" {
      forall j | 0 <= j <= |s[1..]| ensures !(pat <= s[1..][j..]) {
        assert s[1..][j..] == s[j + 1..];
      }
      ReplacesNothing(before + [s[0]], s[1..], pat, rep);
      assert [s[0]] + s[1..] == s;
    }
  }

  predicate Contains(s: string, pat: string)
    decreases |s|
  {
    pat <= s || (s != "" && Contains(s[1..], pat))
  }

  // ------------------------------------------------------------------
  // The loop
  // ------------------------------------------------------------------

  /** The loop that puts URL `k`, `k + 1`, ... back. */
  function Restored(s: string, urls: seq<string>, k: nat): string
    requires k <= |urls|
    decreases |urls| - k
  {
    if k == |urls| then s
    else Restored(JsReplace("", s, Placeholder(k), urls[k]), urls, k + 1)
  }

  /** One of the URLs `a`, ..., `k - 1` contains the placeholder of URL `k`. */
  predicate Hidden(urls: seq<string>, a: nat, k: nat)
    requires k <= |urls|
    decreases k - a
  {
    a < k && (Contains(urls[a], Placeholder(k)) || Hidden(urls, a + 1, k))
  }

  lemma {:induction false} HiddenMeans(urls: seq<string>, a: nat, k: nat)
    requires k <= |urls|
    ensures Hidden(urls, a, k) <==> exists i :: a <= i < k && Contains(urls[i], Placeholder(k))
    decreases k - a
  {
    if a < k {
      HiddenMeans(urls, a + 1, k);
    }
  }

  /** With the first `k` URLs back, placeholder `k` stands at a literal character before slot `k`. */
  predicate TypedBefore(items: seq<Item>, urls: seq<string>, k: nat)
    requires k <= |urls|
  {
    && items != [] && items[0] != Slot(k)
    && ((items[0].Ch? && Placeholder(k) <= Render(items, urls, k)) || TypedBefore(items[1..], urls, k))
  }

  /** Step `k` of the loop finds slot `k`, and inserts URL `k` as it stands. */
  predicate StepIsClear(items: seq<Item>, urls: seq<string>, k: nat)
    requires k < |urls|
  {
    !TypedBefore(items, urls, k) && !Hidden(urls, 0, k) && Verbatim(urls[k])
  }

  /** Every step is clear. */
  predicate Clear(items: seq<Item>, urls: seq<string>) {
    forall k: nat | k < |urls| :: StepIsClear(items, urls, k)
  }

  // ------------------------------------------------------------------
  // Clear steps restore
  // ------------------------------------------------------------------

  /** A prefix without white space cannot reach beyond the first word. */
  lemma PrefixWithinWord(u: string, rest: string, pat: string)
    requires NoWs(pat) && (rest == "" || IsWs(rest[0]))
    ensures pat <= u + rest <==> pat <= u
  {
    assert rest != "" ==> (u + rest)[|u|] == rest[0];
    assert u <= u + rest;
    if pat <= u + rest {
      assert forall i :: 0 <= i < |pat| ==> pat[i] == (u + rest)[i];
      assert |pat| <= |u|;
      assert (u + rest)[..|pat|] == u[..|pat|];
    }
  }

  /** A word without the pattern is passed over, when white space or nothing follows. */
  lemma {:induction false} PassesOverWord(before: string, u: string, rest: string, pat: string, rep: string)
    requires pat != "" && NoWs(pat) && !Contains(u, pat)
    requires rest == "" || IsWs(rest[0])
    ensures JsReplace(before, u + rest, pat, rep) == u + JsReplace(before + u, rest, pat, rep)
    decreases |u|
  {
    TailOfConcat(u, rest);
    if u == "" {
      assert before + u == before;
    } else {
      PrefixWithinWord(u, rest, pat);
      PassesOverWord(before + [u[0]], u[1..], rest, pat, rep);
      Associative(before, [u[0]], u[1..]);
      assert [u[0]] + u[1..] == u;
      Associative([u[0]], u[1..], JsReplace(before + u, rest, pat, rep));
    }
  }

  lemma PassesOverChar(before: string, c: char, rest: string, pat: string, rep: string)
    requires !(pat <= [c] + rest)
    ensures JsReplace(before, [c] + rest, pat, rep) == [c] + JsReplace(before + [c], rest, pat, rep)
  {
    var s := [c] + rest;
    assert s[0] == c && s[1..] == rest;
  }

  lemma ReplacesPrefix(before: string, pat: string, rest: string, rep: string)
    ensures JsReplace(before, pat + rest, pat, rep) == Expand(rep, before, pat, rest) + rest
  {
    assert (pat + rest)[|pat|..] == rest;
  }

  /** Slots numbered above `k` look the same before and after step `k`. */
  lemma {:induction false} LaterSlotsUntouched(items: seq<Item>, urls: seq<string>, k: nat, a: nat)
    requires k < |urls| && Slots(items) == Range(a, |urls|) && k < a
    ensures Render(items, urls, k) == Render(items, urls, k + 1)
  {
    if items != [] {
      RangeUnfolds(items, a, |urls|);
      LaterSlotsUntouched(items[1..], urls, k, if items[0].Slot? then a + 1 else a);
    }
  }

  /** A clear step `k` puts URL `k` into its slot. */
  lemma {:induction false} StepRestores(before: string, items: seq<Item>, urls: seq<string>, k: nat, a: nat)
    requires a <= k < |urls| && Slots(items) == Range(a, |urls|) && Spaced(items)
    requires !TypedBefore(items, urls, k) && !Hidden(urls, a, k) && Verbatim(urls[k])
    ensures JsReplace(before, Render(items, urls, k), Placeholder(k), urls[k]) == Render(items, urls, k + 1)
    decreases |items|
  {
    assert items != [];
    RangeUnfolds(items, a, |urls|);
    PlaceholderChars(k);
    var rest := Render(items[1..], urls, k);
    match items[0] {
      case Ch(c) =>
        PassesOverChar(before, c, rest, Placeholder(k), urls[k]);
        StepRestores(before + [c], items[1..], urls, k, a);
      case Slot(_) =>
        AfterSlot(items, urls, k);
        if a < k {
          StepRestores(before + urls[a], items[1..], urls, k, a + 1);
          PassesOverWord(before, urls[a], rest, Placeholder(k), urls[k]);
        } else {
          LaterSlotsUntouched(items[1..], urls, k, a + 1);
          ReplacesPrefix(before, Placeholder(k), rest, urls[k]);
          VerbatimExpandsToItself(urls[k], before, Placeholder(k), rest);
        }
    }
  }

  // ------------------------------------------------------------------
  // A step that is not clear loses something for good
  // ------------------------------------------------------------------

  /** A character that restoration can lose: of a placeholder, or of a special pattern. */
  predicate Losable(c: char) {
    c == '_' || c == '$' || c == '\''
  }

  /** Where `s` first departs from `d`, `d` has a losable character; and it is not by leading white
      space that `s` departs: something visible comes before, or there. */
  predicate Lost(s: string, d: string, seen: bool) {
    d != "" && (
      if s != "" && s[0] == d[0] then Lost(s[1..], d[1..], seen || !IsWs(s[0]))
      else Losable(d[0]) && (seen || (s != "" && !IsWs(s[0]))))
  }

  lemma {:induction false} LostIsMonotone(s: string, d: string, seen: bool)
    requires Lost(s, d, seen)
    ensures Lost(s, d, true)
  {
    if s != "" && s[0] == d[0] && !seen && IsWs(s[0]) {
      LostIsMonotone(s[1..], d[1..], false);
    }
  }

  lemma {:induction false} LostAfter(u: string, s: string, d: string, seen: bool)
    requires Lost(s, d, seen)
    ensures Lost(u + s, u + d, seen)
  {
    TailOfConcat(u, s);
    TailOfConcat(u, d);
    if u != "" {
      LostIsMonotone(s, d, seen);
      LostAfter(u[1..], s, d, seen || !IsWs(u[0]));
    }
  }

  /** What is lost stays lost. */
  lemma {:induction false} StaysLost(before: string, s: string, d: string, seen: bool, pat: string, rep: string)
    requires Lost(s, d, seen) && pat != "" && pat[0] == '_' && UrlLike(rep)
    ensures Lost(JsReplace(before, s, pat, rep), d, seen)
    decreases |s|
  {
    if pat <= s {
      ExpansionStartsAlike(rep, before, pat, s[|pat|..]);
    } else if s != "" && s[0] == d[0] {
      StaysLost(before + [s[0]], s[1..], d[1..], seen || !IsWs(s[0]), pat, rep);
    }
  }

  /** A replacement takes the place of an underscore. */
  lemma TakesAnUnderscore(before: string, s: string, d: string, seen: bool, pat: string, rep: string)
    requires pat <= s && pat != "" && pat[0] == '_' && UrlLike(rep)
    requires d != "" && d[0] == '_'
    ensures Lost(JsReplace(before, s, pat, rep), d, seen)
  {
    ExpansionStartsAlike(rep, before, pat, s[|pat|..]);
  }

  /** A placeholder inside an earlier URL is taken for the slot. */
  lemma {:induction false} LostInWord(before: string, u: string, rest: string, rest': string, seen: bool, pat: string, rep: string)
    requires pat != "" && pat[0] == '_' && NoWs(pat) && UrlLike(rep) && Contains(u, pat)
    requires rest == "" || IsWs(rest[0])
    ensures Lost(JsReplace(before, u + rest, pat, rep), u + rest', seen)
    decreases |u|
  {
    PrefixWithinWord(u, rest, pat);
    TailOfConcat(u, rest);
    TailOfConcat(u, rest');
    if pat <= u {
      TakesAnUnderscore(before, u + rest, u + rest', seen, pat, rep);
    } else {
      LostInWord(before + [u[0]], u[1..], rest, rest', seen || !IsWs(u[0]), pat, rep);
    }
  }

  predicate AllLosable(s: string) {
    forall i :: 0 <= i < |s| ==> s[i] == '$' || s[i] == '\''
  }

  lemma LagStep(c: char, s: string, d: string)
    requires d != "" && Losable(d[0]) && (c == d[0] ==> Lost(s, d[1..], true))
    ensures Lost([c] + s, d, true)
  {
    TailOfConcat([c], s);
  }

  /** An expansion that has fallen behind by some characters of special patterns does not catch up. */
  lemma {:induction false} ExpansionLags(w: string, lead: string, d: string, rest: string, before: string, matched: string)
    requires lead != "" && AllLosable(lead) && lead + w <= d && CopiesNoPrefix(w)
    requires matched != "" && matched[0] == '_' && (rest == "" || IsWs(rest[0]))
    ensures Lost(Expand(w, before, matched, rest) + rest, d, true)
    decreases |w|
  {
    LagHead(w, lead, d);
    if |w| < 2 {
      if w != "" {
        LagStep(w[0], rest, d);
      }
    } else if w[0] == '$' && w[1] == '$' {
      if d[0] == '$' {
        LagOn(lead, w, "$$", d);
        ExpansionLags(w[2..], lead[1..] + "$$", d[1..], rest, before, matched);
      }
      LagStep('$', Expand(w[2..], before, matched, rest) + rest, d);
      Associative("$", Expand(w[2..], before, matched, rest), rest);
    } else if w[0] == '$' && w[1] == '\'' {
      if rest == "" {
        assert (lead + "$'") + w[2..] == lead + w;
        ExpansionLags(w[2..], lead + "$'", d, rest, before, matched);
        assert rest + Expand(w[2..], before, matched, rest) == Expand(w[2..], before, matched, rest);
      } else {
        assert (Expand(w, before, matched, rest) + rest)[0] == rest[0];
      }
    } else if !(w[0] == '$' && w[1] == '&') {
      if w[0] == d[0] {
        LagOn(lead, w, [w[0]], d);
        ExpansionLags(w[1..], lead[1..] + [w[0]], d[1..], rest, before, matched);
      }
      LagStep(w[0], Expand(w[1..], before, matched, rest) + rest, d);
      Associative([w[0]], Expand(w[1..], before, matched, rest), rest);
    }
  }

  lemma LagHead(w: string, lead: string, d: string)
    requires lead != "" && AllLosable(lead) && lead + w <= d
    ensures d != "" && Losable(d[0]) && d[0] != '_' && lead[0] == d[0]
    ensures w != "" && w[0] == d[0] ==> |d| > 1 && Losable(d[1]) && d[1] != '_'
  {
    assert (lead + w)[0] == lead[0] == d[0];
    if w != "" {
      assert d[1] == (lead + w)[1];
    }
  }

  /** The start `t` of `w` joins the lead, and the head of the lead is done with. */
  lemma LagOn(lead: string, w: string, t: string, d: string)
    requires lead != "" && t <= w && lead + w <= d
    ensures (lead[1..] + t) + w[|t|..] <= d[1..]
  {
    assert w == t + w[|t|..];
    assert (lead + w)[1..] == (lead[1..] + t) + w[|t|..];
    assert (lead + w)[1..] <= d[1..];
  }

  /** Unless it copies the text before the match, an expansion is the string itself, or departs from it for good. */
  lemma {:induction false} ExpansionDeparts(w: string, rest: string, rest': string, seen: bool, before: string, matched: string)
    requires CopiesNoPrefix(w) && !Verbatim(w) && (seen || (w[0] != '$' && !IsWs(w[0])))
    requires matched != "" && matched[0] == '_' && (rest == "" || IsWs(rest[0]))
    ensures Lost(Expand(w, before, matched, rest) + rest, w + rest', seen)
    decreases |w|
  {
    var s, d := Expand(w, before, matched, rest) + rest, w + rest';
    TailOfConcat(w, rest');
    if w[0] == '$' && w[1] == '$' {
      assert "$" + w[2..] == w[1..] && w[1..] <= d[1..];
      ExpansionLags(w[2..], "$", d[1..], rest, before, matched);
      LagStep('$', Expand(w[2..], before, matched, rest) + rest, d);
      Associative("$", Expand(w[2..], before, matched, rest), rest);
    } else if w[0] == '$' && w[1] == '\'' {
      if rest == "" {
        assert "$'" + w[2..] == w && w <= d;
        ExpansionLags(w[2..], "$'", d, rest, before, matched);
        assert rest + Expand(w[2..], before, matched, rest) == Expand(w[2..], before, matched, rest);
      } else {
        assert s[0] == rest[0];
      }
    } else if !(w[0] == '$' && w[1] == '&') {
      assert s == [w[0]] + (Expand(w[1..], before, matched, rest) + rest);
      ExpansionDeparts(w[1..], rest, rest', true, before, matched);
    }
  }

  lemma LostBehindWord(before: string, u: string, rest: string, rest': string, seen: bool, pat: string, rep: string)
    requires pat != "" && NoWs(pat) && !Contains(u, pat)
    requires rest == "" || IsWs(rest[0])
    requires Lost(JsReplace(before + u, rest, pat, rep), rest', seen)
    ensures Lost(JsReplace(before, u + rest, pat, rep), u + rest', seen)
  {
    PassesOverWord(before, u, rest, pat, rep);
    LostAfter(u, JsReplace(before + u, rest, pat, rep), rest', seen);
  }

  lemma LostBehindChar(before: string, c: char, rest: string, rest': string, seen: bool, pat: string, rep: string)
    requires !(pat <= [c] + rest) && Lost(JsReplace(before + [c], rest, pat, rep), rest', seen)
    ensures Lost(JsReplace(before, [c] + rest, pat, rep), [c] + rest', seen)
  {
    PassesOverChar(before, c, rest, pat, rep);
    LostAfter([c], JsReplace(before + [c], rest, pat, rep), rest', seen);
  }

  lemma LostInSlot(before: string, rest: string, rest': string, seen: bool, pat: string, rep: string)
    requires pat != "" && pat[0] == '_' && UrlLike(rep) && CopiesNoPrefix(rep) && !Verbatim(rep)
    requires rest == "" || IsWs(rest[0])
    ensures Lost(JsReplace(before, pat + rest, pat, rep), rep + rest', seen)
  {
    ReplacesPrefix(before, pat, rest, rep);
    ExpansionDeparts(rep, rest, rest', seen, before, pat);
  }

  /** From item `a` on, step `k` is not clear. */
  predicate Fails(items: seq<Item>, urls: seq<string>, k: nat, a: nat)
    requires k < |urls|
  {
    TypedBefore(items, urls, k) || Hidden(urls, a, k) || !Verbatim(urls[k])
  }

  lemma FailsAtOrAfterHead(items: seq<Item>, urls: seq<string>, k: nat, a: nat)
    requires k < |urls| && items != [] && (items[0].Slot? ==> items[0].n == a) && Fails(items, urls, k, a)
    ensures items[0].Ch? ==> Placeholder(k) <= Render(items, urls, k) || Fails(items[1..], urls, k, a)
    ensures items[0].Slot? && a < k ==> Contains(urls[a], Placeholder(k)) || Fails(items[1..], urls, k, a + 1)
    ensures items[0].Slot? && a == k ==> !Verbatim(urls[k])
  {
  }

  lemma {:induction false} StepLoses(before: string, items: seq<Item>, urls: seq<string>, k: nat, a: nat, seen: bool)
    requires a <= k < |urls| && Slots(items) == Range(a, |urls|) && Spaced(items)
    requires UrlLike(urls[k]) && CopiesNoPrefix(urls[k]) && Fails(items, urls, k, a)
    ensures Lost(JsReplace(before, Render(items, urls, k), Placeholder(k), urls[k]), Render(items, urls, |urls|), seen)
    decreases |items|
  {
    assert items != [];
    RangeUnfolds(items, a, |urls|);
    FailsAtOrAfterHead(items, urls, k, a);
    PlaceholderChars(k);
    var rest, rest' := Render(items[1..], urls, k), Render(items[1..], urls, |urls|);
    match items[0] {
      case Ch(c) =>
        if Placeholder(k) <= [c] + rest {
          TakesAnUnderscore(before, [c] + rest, [c] + rest', seen, Placeholder(k), urls[k]);
        } else {
          StepLoses(before + [c], items[1..], urls, k, a, seen);
          LostBehindChar(before, c, rest, rest', seen, Placeholder(k), urls[k]);
        }
      case Slot(_) =>
        AfterSlot(items, urls, k);
        if a == k {
          LostInSlot(before, rest, rest', seen, Placeholder(k), urls[k]);
        } else if Contains(urls[a], Placeholder(k)) {
          LostInWord(before, urls[a], rest, rest', seen, Placeholder(k), urls[k]);
        } else {
          StepLoses(before + urls[a], items[1..], urls, k, a + 1, seen);
          LostBehindWord(before, urls[a], rest, rest', seen, Placeholder(k), urls[k]);
        }
    }
  }

  // ------------------------------------------------------------------
  // The whole loop
  // ------------------------------------------------------------------

  predicate NoneCopiesPrefix(urls: seq<string>) {
    forall i :: 0 <= i < |urls| ==> CopiesNoPrefix(urls[i])
  }

  lemma {:induction false} RestoreStaysLost(s: string, d: string, urls: seq<string>, k: nat)
    requires k <= |urls| && Lost(s, d, false) && UrlsLike(urls)
    ensures Lost(Restored(s, urls, k), d, false)
    decreases |urls| - k
  {
    if k < |urls| {
      StaysLost("", s, d, false, Placeholder(k), urls[k]);
      RestoreStaysLost(JsReplace("", s, Placeholder(k), urls[k]), d, urls, k + 1);
    }
  }

  predicate ClearFrom(items: seq<Item>, urls: seq<string>, k: nat)
    decreases |urls| - k
  {
    k < |urls| ==> StepIsClear(items, urls, k) && ClearFrom(items, urls, k + 1)
  }

  lemma {:induction false} ClearFromMeans(items: seq<Item>, urls: seq<string>, k: nat)
    ensures ClearFrom(items, urls, k) <==> forall j: nat | k <= j < |urls| :: StepIsClear(items, urls, j)
    decreases |urls| - k
  {
    if k < |urls| {
      ClearFromMeans(items, urls, k + 1);
    }
  }

  /** From step `k` on, the loop restores every URL. */
  lemma {:induction false} RestoresFrom(items: seq<Item>, urls: seq<string>, k: nat)
    requires k <= |urls| && Slots(items) == Range(0, |urls|) && Spaced(items)
    requires ClearFrom(items, urls, k)
    ensures Restored(Render(items, urls, k), urls, k) == Render(items, urls, |urls|)
    decreases |urls| - k
  {
    if k < |urls| {
      StepRestores("", items, urls, k, 0);
      RestoresFrom(items, urls, k + 1);
    }
  }

  /** From step `k` on, some step is not clear, and the loop loses something for good. */
  lemma {:induction false} LosesFrom(items: seq<Item>, urls: seq<string>, k: nat)
    requires k <= |urls| && Slots(items) == Range(0, |urls|) && Spaced(items)
    requires UrlsLike(urls) && NoneCopiesPrefix(urls) && !ClearFrom(items, urls, k)
    ensures Lost(Restored(Render(items, urls, k), urls, k), Render(items, urls, |urls|), false)
    decreases |urls| - k
  {
    if StepIsClear(items, urls, k) {
      StepRestores("", items, urls, k, 0);
      LosesFrom(items, urls, k + 1);
    } else {
      StepLoses("", items, urls, k, 0, false);
      RestoreStaysLost(JsReplace("", Render(items, urls, k), Placeholder(k), urls[k]), Render(items, urls, |urls|), urls, k + 1);
    }
  }

  // ------------------------------------------------------------------
  // Trimming does not hide a loss
  // ------------------------------------------------------------------

  lemma {:induction false} TrimStartStaysLost(s: string, d: string)
    requires Lost(s, d, false)
    ensures Lost(TrimStart(s), TrimStart(d), false)
    decreases |s|
  {
    if s != "" && s[0] == d[0] && IsWs(s[0]) {
      TrimStartStaysLost(s[1..], d[1..]);
    }
  }

  lemma {:induction false} LostShows(s: string, d: string, seen: bool) returns (x: nat)
    requires Lost(s, d, seen)
    ensures x < |d| && !IsWs(d[x]) && (x < |s| ==> s[x] != d[x])
    decreases |s|
  {
    x := 0;
    if s != "" && s[0] == d[0] {
      x := LostShows(s[1..], d[1..], seen || !IsWs(s[0]));
      assert d[x + 1] == d[1..][x] && (x + 1 < |s| ==> s[x + 1] == s[1..][x]);
      x := x + 1;
    }
  }

  lemma LostTrimsDiffer(s: string, d: string)
    requires Lost(s, d, false)
    ensures Trim(s) != Trim(d)
  {
    TrimStartStaysLost(s, d);
    var x := LostShows(TrimStart(s), TrimStart(d), false);
    assert Trim(d)[x] == TrimStart(d)[x];
    assert x < |Trim(s)| ==> Trim(s)[x] == TrimStart(s)[x];
  }

  /** Restoring puts every URL, as it stands, into its slot if every step is clear; unless
      a URL copies the text before its match, only if. */
  lemma RestoresIff(items: seq<Item>, urls: seq<string>)
    requires Slots(items) == Range(0, |urls|) && Spaced(items) && UrlsLike(urls)
    ensures Clear(items, urls) ==> Restored(Masked(items), urls, 0) == Render(items, urls, |urls|)
    ensures NoneCopiesPrefix(urls) && Trim(Restored(Masked(items), urls, 0)) == Trim(Render(items, urls, |urls|)) ==>
              Clear(items, urls)
  {
    MaskedIsUntouched(items, urls);
    ClearFromMeans(items, urls, 0);
    if ClearFrom(items, urls, 0) {
      RestoresFrom(items, urls, 0);
    } else if NoneCopiesPrefix(urls) {
      LosesFrom(items, urls, 0);
      LostTrimsDiffer(Restored(Masked(items), urls, 0), Render(items, urls, |urls|));
    }
  }

  /** With that pattern, a step that is not clear can restore all the same: after that very text,
      the pattern gives itself back. */
  lemma PrefixCopyCanRestore(u: string)
    requires u != "" && Verbatim(u) && u[|u| - 1] != '$'
    ensures var own := ['$', '`'];
            JsReplace("", own + Placeholder(0), Placeholder(0), u + own) == own + (u + own) && !Verbatim(u + own)
  {
    PrefixCopies(Placeholder(0), u);
  }

  lemma PrefixCopies(pat: string, u: string)
    requires pat != "" && pat[0] == '_' && u != "" && Verbatim(u) && u[|u| - 1] != '$'
    ensures var own := ['$', '`'];
            JsReplace("", own + pat, pat, u + own) == own + (u + own) && !Verbatim(u + own)
  {
    var own := ['$'] + ['`'];
    assert own == ['$', '`'];
    PassesOverTwo('$', '`', pat, u + own);
    ReplacesAll(own, pat, u + own);
    TrailingPatternExpands(u, '`', own, pat, "");
  }

  lemma ReplacesAll(before: string, pat: string, rep: string)
    ensures JsReplace(before, pat, pat, rep) == Expand(rep, before, pat, "")
  {
    ReplacesPrefix(before, pat, "", rep);
    assert pat + "" == pat && Expand(rep, before, pat, "") + "" == Expand(rep, before, pat, "");
  }

  lemma PassesOverTwo(a: char, b: char, pat: string, rep: string)
    requires pat != "" && pat[0] != a && pat[0] != b
    ensures JsReplace("", [a] + [b] + pat, pat, rep) == [a] + [b] + JsReplace([a] + [b], pat, pat, rep)
  {
    var s := [a] + [b] + pat;
    assert s == [a] + ([b] + pat) && "" + [a] == [a];
    PassesOverChar("", a, [b] + pat, pat, rep);
    PassesOverChar([a], b, pat, pat, rep);
  }

  /** What a replacement string expands to that has one special pattern, at its end. */
  lemma TrailingPatternExpands(u: string, kind: char, before: string, matched: string, after: string)
    requires Verbatim(u) && (u != "" ==> u[|u| - 1] != '$') && (kind == '&' || kind == '`')
    ensures Expand(u + ['$', kind], before, matched, after) == u + if kind == '&' then matched else before
    ensures !Verbatim(u + ['$', kind])
  {
    ExpandsPieceByPiece(u, kind, "", before, matched, after);
    assert ['$', kind] + "" == ['$', kind];
    assert matched + "" == matched && before + "" == before;
    EndsInPattern(u, kind);
  }

  lemma {:induction false} EndsInPattern(u: string, kind: char)
    requires kind == '&' || kind == '`'
    ensures !Verbatim(u + ['$', kind])
  {
    TailOfConcat(u, ['$', kind]);
    if u != "" {
      EndsInPattern(u[1..], kind);
    }
  }

  // ------------------------------------------------------------------
  // When no placeholder text is typed
  // ------------------------------------------------------------------

  /** No placeholder of the first `n` URLs stands at a literal character of the masked text. */
  predicate Genuine(items: seq<Item>, n: nat) {
    items == [] || (
      && (items[0].Ch? ==> forall k: nat | k < n :: !(Placeholder(k) <= Masked(items)))
      && Genuine(items[1..], n))
  }

  lemma {:induction false} PlainIsGenuine(items: seq<Item>, n: nat)
    requires Plain(items)
    ensures Genuine(items, n)
  {
    if items != [] {
      PlainIsGenuine(items[1..], n);
    }
  }

  /** A URL cannot continue a placeholder. */
  lemma UrlContinuesNoPlaceholder(u: string, rest: string, pat: string)
    requires UrlLike(u) && AllPlaceholderChars(pat) && pat != "" && pat[|pat| - 1] == '_'
    ensures !(pat <= u + rest)
  {
    var s := u + rest;
    assert s[0] == u[0] && s[1] == u[1];
    assert |pat| == 1 ==> pat[0] == '_';
    assert |pat| > 1 ==> PlaceholderChar(pat[1]);
  }

  /** Placeholder text at a literal character is there already in the masked text. */
  lemma {:induction false} TypedShowsInMask(items: seq<Item>, urls: seq<string>, k: nat, pat: string)
    requires k <= |urls| && UrlsLike(urls) && Spaced(items)
    requires AllPlaceholderChars(pat) && pat != "" && pat[|pat| - 1] == '_' && pat <= Render(items, urls, k)
    ensures pat <= Masked(items)
    decreases |items|
  {
    assert items != [];
    var rest, rest' := Render(items[1..], urls, k), Masked(items[1..]);
    match items[0] {
      case Ch(c) =>
        assert ([c] + rest)[1..] == rest && ([c] + rest')[1..] == rest';
        assert pat[0] == ([c] + rest)[0] == c && pat == [c] + pat[1..];
        assert pat[1..] <= rest;
        if pat[1..] != "" {
          TypedShowsInMask(items[1..], urls, k, pat[1..]);
          assert [c] + pat[1..] <= [c] + rest';
        }
      case Slot(n) =>
        AfterSlot(items, urls, k);
        AfterSlot(items, [], 0);
        PlaceholderCharsAreVisible(pat);
        if n < k {
          UrlContinuesNoPlaceholder(urls[n], rest, pat);
        } else {
          PrefixWithinWord(Placeholder(n), rest, pat);
          PrefixWithinWord(Placeholder(n), rest', pat);
        }
    }
  }

  /** A genuine text has no step in which typed text is taken for a slot. */
  lemma {:induction false} GenuineIsUntyped(items: seq<Item>, urls: seq<string>, k: nat)
    requires k < |urls| && UrlsLike(urls) && Spaced(items) && Genuine(items, |urls|)
    ensures !TypedBefore(items, urls, k)
  {
    if items != [] {
      GenuineIsUntyped(items[1..], urls, k);
      if items[0].Ch? && Placeholder(k) <= Render(items, urls, k) {
        PlaceholderChars(k);
        TypedShowsInMask(items, urls, k, Placeholder(k));
      }
    }
  }

  /** No URL contains the placeholder of a later one. */
  predicate NoneHidden(urls: seq<string>) {
    forall k: nat | k < |urls| :: !Hidden(urls, 0, k)
  }

  predicate AllVerbatim(urls: seq<string>) {
    forall i: nat | i < |urls| :: Verbatim(urls[i])
  }

  /** Without typed placeholder text, only the URLs themselves decide. */
  lemma GenuineIsClearIff(items: seq<Item>, urls: seq<string>)
    requires UrlsLike(urls) && Spaced(items) && Genuine(items, |urls|)
    ensures Clear(items, urls) <==> NoneHidden(urls) && AllVerbatim(urls)
  {
    forall k: nat | k < |urls| ensures !TypedBefore(items, urls, k) {
      GenuineIsUntyped(items, urls, k);
    }
    if Clear(items, urls) {
      forall k: nat | k < |urls| ensures !Hidden(urls, 0, k) && Verbatim(urls[k]) {
        assert StepIsClear(items, urls, k);
      }
    }
  }
}
