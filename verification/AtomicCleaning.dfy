/**
 Cleaning as it is meant: on a text whose URLs are atomic. The same stages work on items,
 where no stage can look into a slot. The cleaning with placeholders gives the same text,
 exactly when every step of the restoration is clear.
*/
module AtomicCleaning {
  import opened Text
  import opened Stripping
  import opened Placeholders
  import opened Restoration
  import opened Normalizer

  // ------------------------------------------------------------------
  // The stages on items
  // ------------------------------------------------------------------

  /** The characters before the first slot. */
  function LiteralRun(items: seq<Item>): (s: string)
    ensures |s| <= |items|
  {
    if items == [] || items[0].Slot? then "" else [items[0].c] + LiteralRun(items[1..])
  }

  /** The characters after the last slot. */
  function LiteralTail(items: seq<Item>): (s: string)
    ensures |s| <= |items|
  {
    var n := |items| - 1;
    if items == [] || items[n].Slot? then "" else LiteralTail(items[..n]) + [items[n].c]
  }

  /** The items without the longest suffix of tokens and white space that follows the last slot. */
  function StrippedItems(tokens: set<string>, items: seq<Item>): seq<Item> {
    var tail := LiteralTail(items);
    items[..|items| - (|tail| - Cut(tokens, tail))]
  }

  function CodelessItems(codes: seq<string>, items: seq<Item>): seq<Item>
    decreases |items|
  {
    if items == [] then []
    else
      match CodeAt(codes, LiteralRun(items))
      case Some(i) => CodelessItems(codes, items[|codes[i]|..])
      case None => [items[0]] + CodelessItems(codes, items[1..])
  }

  function Literal(s: string): seq<Item> {
    if s == "" then [] else [Ch(s[0])] + Literal(s[1..])
  }

  predicate ItemStandsAlone(items: seq<Item>, emoticon: string) {
    emoticon != "" && emoticon <= LiteralRun(items) && (|items| == |emoticon| || WsItem(items[|emoticon|]))
  }

  function InlinedItems(items: seq<Item>, start: bool, emoticon: string, emoji: string): seq<Item>
    decreases |items|, 1
  {
    if start && ItemStandsAlone(items, emoticon) then
      Literal(emoji) + PastSpaceItems(items[|emoticon|..], emoticon, emoji)
    else if items == [] then []
    else if WsItem(items[0]) && ItemStandsAlone(items[1..], emoticon) then
      [items[0]] + (Literal(emoji) + PastSpaceItems(items[1..][|emoticon|..], emoticon, emoji))
    else [items[0]] + InlinedItems(items[1..], false, emoticon, emoji)
  }

  function PastSpaceItems(items: seq<Item>, emoticon: string, emoji: string): seq<Item>
    decreases |items|, 0
  {
    if items == [] then [] else [items[0]] + InlinedItems(items[1..], false, emoticon, emoji)
  }

  function AllInlinedItems(items: seq<Item>, inline: seq<(string, string)>): seq<Item>
    decreases |inline|
  {
    if inline == [] then items
    else AllInlinedItems(InlinedItems(items, true, inline[0].0, inline[0].1), inline[1..])
  }

  /** The cleaning of a text whose URLs are atomic. */
  function CleanedItems(tables: Tables, items: seq<Item>): seq<Item> {
    var stripped := StrippedItems(tables.trailing, TrimItems(items));
    AllInlinedItems(TrimItems(CodelessItems(tables.codes, stripped)), tables.inline)
  }

  // ------------------------------------------------------------------
  // Literal prefixes and suffixes
  // ------------------------------------------------------------------

  lemma MaskedHead(items: seq<Item>)
    requires items != []
    ensures Masked(items) != ""
    ensures items[0].Ch? ==> Masked(items)[0] == items[0].c && Masked(items)[1..] == Masked(items[1..])
    ensures items[0].Slot? ==> Masked(items)[0] == '_'
    ensures items[0].Slot? ==> Masked(items) == Placeholder(items[0].n) + Masked(items[1..])
  {
  }

  lemma NoUnderscoreInTail(t: string)
    requires t != "" && '_' !in t
    ensures t[0] != '_' && '_' !in t[1..]
  {
  }

  /** A text without underscores starts the masked text exactly when it starts its literal run. */
  lemma {:induction false} PrefixIsLiteral(items: seq<Item>, t: string)
    requires '_' !in t
    ensures t <= Masked(items) <==> t <= LiteralRun(items)
    ensures t <= LiteralRun(items) ==>
              |t| <= |items| && Masked(items)[|t|..] == Masked(items[|t|..]) && Slots(items[|t|..]) == Slots(items)
    decreases |t|
  {
    if t != "" {
      NoUnderscoreInTail(t);
      if items != [] {
        MaskedHead(items);
        if items[0].Ch? {
          PrefixIsLiteral(items[1..], t[1..]);
          PrefixSteps(t, items[0].c, Masked(items[1..]));
          PrefixSteps(t, items[0].c, LiteralRun(items[1..]));
          if t <= LiteralRun(items) {
            assert items[1..][|t| - 1..] == items[|t|..];
            assert Masked(items)[|t|..] == Masked(items)[1..][|t| - 1..];
          }
        }
      }
    }
  }

  lemma PrefixSteps(t: string, c: char, rest: string)
    requires t != ""
    ensures t <= [c] + rest <==> t[0] == c && t[1..] <= rest
  {
    var s := [c] + rest;
    assert s[1..] == rest && s[0] == c;
    if t[0] == c && t[1..] <= rest {
      assert t == [c] + t[1..];
    }
    if t <= s {
      assert t[1..] == s[1..][..|t| - 1];
    }
  }

  /** A literal item at the end is a character at the end of the text. */
  lemma LastIsChar(items: seq<Item>)
    requires items != [] && items[|items| - 1].Ch?
    ensures var init, c := items[..|items| - 1], items[|items| - 1].c;
            && Masked(items) == Masked(init) + [c] && LiteralTail(items) == LiteralTail(init) + [c]
            && Slots(items) == Slots(init)
  {
    RenderEnd(items, [], 0);
  }

  lemma LastIsSlot(items: seq<Item>)
    requires items != [] && items[|items| - 1].Slot?
    ensures LiteralTail(items) == "" && Masked(items) != "" && Masked(items)[|Masked(items)| - 1] == '_'
  {
    RenderEnd(items, [], 0);
    var image := Placeholder(items[|items| - 1].n);
    assert Masked(items)[|Masked(items)| - 1] == image[|image| - 1];
  }

  lemma PrefixOfPrefix<T>(s: seq<T>, a: nat, b: nat)
    requires b <= a <= |s|
    ensures s[..a][..b] == s[..b]
  {
  }

  /** The masked text ends in the literal tail, after nothing or after a placeholder. */
  lemma {:induction false} TailEndsMask(items: seq<Item>)
    ensures var front := Masked(items[..|items| - |LiteralTail(items)|]);
            && Masked(items) == front + LiteralTail(items)
            && (front == "" || front[|front| - 1] == '_')
  {
    if items == [] {
    } else if items[|items| - 1].Slot? {
      LastIsSlot(items);
      assert items[..|items|] == items && Masked(items) + "" == Masked(items);
    } else {
      var n := |items| - 1;
      LastIsChar(items);
      TailEndsMask(items[..n]);
      PrefixOfPrefix(items, n, |items| - |LiteralTail(items)|);
      Associative(Masked(items[..|items| - |LiteralTail(items)|]), LiteralTail(items[..n]), [items[n].c]);
    }
  }

  lemma PrefixOfLonger(s: string, c: char, d: nat)
    requires 0 < d <= |s| + 1
    ensures (s + [c])[..|s| + 1 - d] == s[..|s| - (d - 1)]
  {
  }

  /** Items of the literal tail are single characters of the masked text. */
  lemma {:induction false} CutOfTail(items: seq<Item>, d: nat)
    requires d <= |LiteralTail(items)|
    ensures d <= |Masked(items)| && Masked(items[..|items| - d]) == Masked(items)[..|Masked(items)| - d]
    decreases d
  {
    if d == 0 {
      assert items[..|items|] == items && Masked(items)[..|Masked(items)|] == Masked(items);
    } else {
      var n := |items| - 1;
      LastIsChar(items);
      CutOfTail(items[..n], d - 1);
      PrefixOfPrefix(items, n, |items| - d);
      PrefixOfLonger(Masked(items[..n]), items[n].c, d);
    }
  }

  lemma {:induction false} TailHasNoSlots(items: seq<Item>, d: nat)
    requires d <= |LiteralTail(items)|
    ensures Slots(items[..|items| - d]) == Slots(items)
    decreases d
  {
    if d == 0 {
      assert items[..|items|] == items;
    } else {
      var n := |items| - 1;
      LastIsChar(items);
      TailHasNoSlots(items[..n], d - 1);
      PrefixOfPrefix(items, n, |items| - d);
    }
  }

  lemma {:induction false} RemovableHasNoUnderscore(tokens: set<string>, s: string, i: nat, j: nat)
    requires i <= j <= |s| && Removable(tokens, s, i, j) && NoneHasUnderscore(tokens)
    ensures forall k :: i <= k < j ==> s[k] != '_'
    decreases j - i
  {
    if i < j {
      if IsWs(s[i]) && Removable(tokens, s, i + 1, j) {
        RemovableHasNoUnderscore(tokens, s, i + 1, j);
      } else {
        var p: nat :| p <= j && Token(tokens, s, i, p) && Removable(tokens, s, p, j);
        RemovableHasNoUnderscore(tokens, s, p, j);
        assert forall k :: i <= k < p ==> s[k] == s[i..p][k - i];
      }
    }
  }

  /** No removable suffix reaches back over an underscore. */
  lemma CutAfterUnderscore(tokens: set<string>, p: string, s: string)
    requires (p == "" || p[|p| - 1] == '_') && NoneHasUnderscore(tokens)
    ensures Cut(tokens, p + s) == |p| + Cut(tokens, s)
  {
    var whole, part := Cut(tokens, p + s), Cut(tokens, s);
    RemovableHasNoUnderscore(tokens, p + s, whole, |p + s|);
    if p != "" {
      assert (p + s)[|p| - 1] == '_';
    }
    assert |p| <= whole;
    RemovableInSuffix(tokens, p, s, whole - |p|, |s|);
    RemovableInSuffix(tokens, p, s, part, |s|);
  }

  lemma StrippedAfterUnderscore(tokens: set<string>, p: string, s: string)
    requires ValidTokens(tokens) && NoneHasUnderscore(tokens) && Trimmed(p + s)
    requires p == "" || p[|p| - 1] == '_'
    ensures Stripped(tokens, p + s) == (p + s)[..|p| + Cut(tokens, s)]
  {
    StripsLongestSuffix(tokens, p + s);
    CutAfterUnderscore(tokens, p, s);
  }

  lemma CutFromEnd(p: string, s: string, j: nat)
    requires j <= |s|
    ensures (p + s)[..|p| + j] == (p + s)[..|p + s| - (|s| - j)]
  {
  }

  lemma StrippedFromEnd(tokens: set<string>, text: string, p: string, s: string)
    requires ValidTokens(tokens) && NoneHasUnderscore(tokens) && Trimmed(text)
    requires text == p + s && (p == "" || p[|p| - 1] == '_')
    ensures var d := |s| - Cut(tokens, s);
            d <= |text| && Stripped(tokens, text) == text[..|text| - d]
  {
    StrippedAfterUnderscore(tokens, p, s);
    CutFromEnd(p, s, Cut(tokens, s));
  }

  lemma StrippingCutsTail(tokens: set<string>, items: seq<Item>)
    requires ValidTokens(tokens) && NoneHasUnderscore(tokens) && Trimmed(Masked(items))
    ensures var d := |LiteralTail(items)| - Cut(tokens, LiteralTail(items));
            d <= |Masked(items)| && Stripped(tokens, Masked(items)) == Masked(items)[..|Masked(items)| - d]
  {
    TailEndsMask(items);
    StrippedFromEnd(tokens, Masked(items), Masked(items[..|items| - |LiteralTail(items)|]), LiteralTail(items));
  }

  lemma StrippingTakesTail(tokens: set<string>, items: seq<Item>)
    requires ValidTokens(tokens) && NoneHasUnderscore(tokens) && Trimmed(Masked(items))
    ensures Masked(StrippedItems(tokens, items)) == Stripped(tokens, Masked(items))
  {
    StrippingCutsTail(tokens, items);
    CutOfTail(items, |LiteralTail(items)| - Cut(tokens, LiteralTail(items)));
  }

  lemma StrippingIsAtomic(tables: Tables, items: seq<Item>)
    requires ValidTables(tables) && Spaced(items) && Trimmed(Masked(items))
    ensures Masked(StrippedItems(tables.trailing, items)) == Stripped(tables.trailing, Masked(items))
    ensures SameSlots(items, StrippedItems(tables.trailing, items))
  {
    var d := |LiteralTail(items)| - Cut(tables.trailing, LiteralTail(items));
    StrippingTakesTail(tables.trailing, items);
    TailHasNoSlots(items, d);
    SlicesKeepShape(items, |items| - d);
  }

  // ------------------------------------------------------------------
  // Codes and emoticons
  // ------------------------------------------------------------------

  /** A rewriting neither removes nor moves white space at the start of a text. */
  predicate KeepsSpace(from: seq<Item>, to: seq<Item>) {
    && (from == [] ==> to == [])
    && (from != [] && WsItem(from[0]) ==> to != [] && to[0] == from[0])
  }

  lemma ShapeOfHead(item: Item, rest: seq<Item>)
    requires Spaced(rest) && (item.Slot? ==> rest == [] || WsItem(rest[0]))
    ensures Spaced([item] + rest) && (item != Ch('_') && Plain(rest) ==> Plain([item] + rest))
  {
    TailOfConcat([item], rest);
  }

  /** The slot, or character, at the head of `from` heads `to` as well. */
  lemma SameHead(from: seq<Item>, rest: seq<Item>)
    requires from != [] && Spaced(from) && SameSlots(from[1..], rest) && KeepsSpace(from[1..], rest)
    ensures SameSlots(from, [from[0]] + rest) && KeepsSpace(from, [from[0]] + rest)
    ensures Masked([from[0]] + rest) == Shown(from[0], [], 0) + Masked(rest)
  {
    HeadRenders(from[0], rest, [], 0);
    HeadSlots(from[0], rest);
    HeadSlots(from[0], from[1..]);
    assert from == [from[0]] + from[1..];
    assert from[1..] != [] ==> from[1] == from[1..][0];
    ShapeOfHead(from[0], rest);
  }

  /** Which code is found depends only on which codes start the text. */
  lemma {:induction false} CodeAtAgrees(codes: seq<string>, s: string, t: string)
    requires forall c <- codes :: c <= s <==> c <= t
    ensures CodeAt(codes, s) == CodeAt(codes, t)
    decreases |codes|
  {
    if codes != [] {
      var n := |codes| - 1;
      assert codes[n] in codes && forall c <- codes[..n] :: c in codes;
      CodeAtAgrees(codes[..n], s, t);
    }
  }

  lemma SameCode(codes: seq<string>, items: seq<Item>)
    requires ValidCodes(codes)
    ensures CodeAt(codes, Masked(items)) == CodeAt(codes, LiteralRun(items))
  {
    forall c | c in codes ensures c <= Masked(items) <==> c <= LiteralRun(items) {
      PrefixIsLiteral(items, c);
    }
    CodeAtAgrees(codes, Masked(items), LiteralRun(items));
  }

  lemma NoCodeAt(codes: seq<string>, s: string)
    requires ValidCodes(codes) && (s == "" || PlaceholderChar(s[0]) || IsWs(s[0]))
    ensures CodeAt(codes, s).None?
  {
    CodeIsFound(codes, s);
    forall c | c in codes ensures c != "" && !(c <= s) {
      PrefixHead(c, s);
    }
  }

  lemma PrefixHead(t: string, s: string)
    requires t != ""
    ensures t <= s ==> s != "" && s[0] == t[0]
  {
  }

  lemma {:induction false} CodesPassPlaceholder(codes: seq<string>, u: string, rest: string)
    requires ValidCodes(codes) && AllPlaceholderChars(u)
    ensures WithoutCodes(codes, u + rest) == u + WithoutCodes(codes, rest)
    decreases |u|
  {
    TailOfConcat(u, rest);
    if u != "" {
      NoCodeAt(codes, u + rest);
      CodesPassPlaceholder(codes, u[1..], rest);
      Associative([u[0]], u[1..], WithoutCodes(codes, rest));
      assert [u[0]] + u[1..] == u;
    }
  }

  lemma {:induction false} CodesAreAtomic(codes: seq<string>, items: seq<Item>)
    requires ValidCodes(codes) && Spaced(items)
    ensures var to := CodelessItems(codes, items);
            Masked(to) == WithoutCodes(codes, Masked(items)) && SameSlots(items, to) && KeepsSpace(items, to)
    decreases |items|
  {
    if items != [] {
      MaskedHead(items);
      SameCode(codes, items);
      var c := CodeAt(codes, LiteralRun(items));
      if c.Some? {
        CodeIsAtomic(codes, items, c.value);
        CodesAreAtomic(codes, items[|codes[c.value]|..]);
      } else {
        CodesAreAtomic(codes, items[1..]);
        SameHead(items, CodelessItems(codes, items[1..]));
        if items[0].Slot? {
          PlaceholderChars(items[0].n);
          CodesPassPlaceholder(codes, Placeholder(items[0].n), Masked(items[1..]));
        }
      }
    }
  }

  lemma CodeIsAtomic(codes: seq<string>, items: seq<Item>, i: nat)
    requires ValidCodes(codes) && Spaced(items) && items != [] && i < |codes| && codes[i] <= LiteralRun(items)
    ensures var t := codes[i];
            && 0 < |t| <= |items| && t <= Masked(items) && SameSlots(items, items[|t|..])
            && Masked(items)[|t|..] == Masked(items[|t|..]) && !WsItem(items[0])
  {
    var t := codes[i];
    assert t in codes;
    PrefixIsLiteral(items, t);
    SlicesKeepShape(items, |t|);
    assert t[0] == LiteralRun(items)[0] == items[0].c;
  }

  lemma {:induction false} LiteralBefore(s: string, items: seq<Item>)
    requires '_' !in s && Spaced(items)
    ensures Masked(Literal(s) + items) == s + Masked(items)
    ensures SameSlots(items, Literal(s) + items)
  {
    TailOfConcat(Literal(s), items);
    if s != "" {
      NoUnderscoreInTail(s);
      LiteralBefore(s[1..], items);
      CharBefore(s[0], Literal(s[1..]) + items);
      Associative([s[0]], s[1..], Masked(items));
      assert [s[0]] + s[1..] == s;
      Associative([Ch(s[0])], Literal(s[1..]), items);
    }
  }

  lemma CharBefore(c: char, items: seq<Item>)
    requires c != '_' && Spaced(items)
    ensures Masked([Ch(c)] + items) == [c] + Masked(items)
    ensures SameSlots(items, [Ch(c)] + items)
  {
    HeadRenders(Ch(c), items, [], 0);
    HeadSlots(Ch(c), items);
    ShapeOfHead(Ch(c), items);
  }

  lemma {:induction false} EmoticonsPassWord(u: string, rest: string, start: bool, emoticon: string, emoji: string)
    requires ValidEmoticon(emoticon, emoji) && NoWs(u) && (start ==> u != "" && u[0] == '_')
    ensures Inlined(u + rest, start, emoticon, emoji) == u + Inlined(rest, false, emoticon, emoji)
    decreases |u|
  {
    TailOfConcat(u, rest);
    if u != "" {
      if start {
        assert (u + rest)[0] == '_' && emoticon[0] != '_';
      }
      EmoticonsPassWord(u[1..], rest, false, emoticon, emoji);
      Associative([u[0]], u[1..], Inlined(rest, false, emoticon, emoji));
      assert [u[0]] + u[1..] == u;
    }
  }

  /** An emoticon stands alone in the masked text exactly when it does among the items. */
  lemma SameStanding(items: seq<Item>, emoticon: string, emoji: string)
    requires ValidEmoticon(emoticon, emoji)
    ensures StandsAlone(Masked(items), emoticon) <==> ItemStandsAlone(items, emoticon)
    ensures ItemStandsAlone(items, emoticon) ==>
              Masked(items)[|emoticon|..] == Masked(items[|emoticon|..]) && Slots(items[|emoticon|..]) == Slots(items)
  {
    PrefixIsLiteral(items, emoticon);
    if emoticon <= LiteralRun(items) {
      var rest := items[|emoticon|..];
      assert Masked(items)[|emoticon|..] == Masked(rest);
      if rest != [] {
        MaskedHead(rest);
        assert rest[0] == items[|emoticon|];
        assert Masked(rest)[0] == Masked(items)[|emoticon|];
      }
    }
  }

  lemma {:induction false} EmoticonsAreAtomic(items: seq<Item>, start: bool, emoticon: string, emoji: string)
    requires ValidEmoticon(emoticon, emoji) && Spaced(items)
    ensures var to := InlinedItems(items, start, emoticon, emoji);
            && Masked(to) == Inlined(Masked(items), start, emoticon, emoji)
            && SameSlots(items, to) && KeepsSpace(items, to)
    decreases |items|, 2
  {
    SameStanding(items, emoticon, emoji);
    if start && ItemStandsAlone(items, emoticon) {
      EmoticonIsAtomic(items, emoticon, emoji);
      assert LiteralRun(items)[0] == emoticon[0];
    } else if items != [] {
      MaskedHead(items);
      SameStanding(items[1..], emoticon, emoji);
      if WsItem(items[0]) && ItemStandsAlone(items[1..], emoticon) {
        EmoticonIsAtomic(items[1..], emoticon, emoji);
        SpaceBefore(items, Literal(emoji) + PastSpaceItems(items[1..][|emoticon|..], emoticon, emoji));
      } else {
        EmoticonsAreAtomic(items[1..], false, emoticon, emoji);
        SameHead(items, InlinedItems(items[1..], false, emoticon, emoji));
        if items[0].Slot? {
          PlaceholderChars(items[0].n);
          EmoticonsPassWord(Placeholder(items[0].n), Masked(items[1..]), start, emoticon, emoji);
        }
      }
    }
  }

  lemma SpaceBefore(from: seq<Item>, rest: seq<Item>)
    requires from != [] && WsItem(from[0]) && SameSlots(from[1..], rest)
    ensures SameSlots(from, [from[0]] + rest) && Masked([from[0]] + rest) == [from[0].c] + Masked(rest)
  {
    HeadRenders(from[0], rest, [], 0);
    HeadSlots(from[0], rest);
    HeadSlots(from[0], from[1..]);
    assert from == [from[0]] + from[1..];
    ShapeOfHead(from[0], rest);
  }

  lemma {:induction false} EmoticonIsAtomic(items: seq<Item>, emoticon: string, emoji: string)
    requires ValidEmoticon(emoticon, emoji) && Spaced(items) && ItemStandsAlone(items, emoticon)
    ensures var to := Literal(emoji) + PastSpaceItems(items[|emoticon|..], emoticon, emoji);
            && emoticon <= Masked(items)
            && Masked(to) == emoji + PastSpace(Masked(items)[|emoticon|..], emoticon, emoji)
            && SameSlots(items, to)
    decreases |items|, 1
  {
    SameStanding(items, emoticon, emoji);
    SlicesKeepShape(items, |emoticon|);
    var rest := items[|emoticon|..];
    if rest != [] {
      MaskedHead(rest);
      EmoticonsAreAtomic(rest[1..], false, emoticon, emoji);
      SameHead(rest, InlinedItems(rest[1..], false, emoticon, emoji));
    }
    LiteralBefore(emoji, PastSpaceItems(rest, emoticon, emoji));
  }

  lemma {:induction false} AllEmoticonsAreAtomic(items: seq<Item>, inline: seq<(string, string)>)
    requires (forall e <- inline :: ValidEmoticon(e.0, e.1)) && Spaced(items)
    ensures Masked(AllInlinedItems(items, inline)) == AllInlined(Masked(items), inline)
    ensures SameSlots(items, AllInlinedItems(items, inline))
    decreases |inline|
  {
    if inline != [] {
      EmoticonsAreAtomic(items, true, inline[0].0, inline[0].1);
      AllEmoticonsAreAtomic(InlinedItems(items, true, inline[0].0, inline[0].1), inline[1..]);
    }
  }

  // ------------------------------------------------------------------
  // The whole cleaning
  // ------------------------------------------------------------------

  /** Cleaning the masked text is cleaning the items: every placeholder stays, once and in order. */
  lemma CleaningIsAtomic(tables: Tables, items: seq<Item>)
    requires ValidTables(tables) && Spaced(items)
    ensures Masked(CleanedItems(tables, items)) == CleanedMask(tables, Masked(items))
    ensures SameSlots(items, CleanedItems(tables, items))
  {
    var trimmed := TrimItems(items);
    TrimKeepsSlots(items);
    TrimGivesTrimmed(Masked(items));
    var stripped := StrippedItems(tables.trailing, trimmed);
    StrippingIsAtomic(tables, trimmed);
    var codeless := CodelessItems(tables.codes, stripped);
    CodesAreAtomic(tables.codes, stripped);
    TrimKeepsSlots(codeless);
    AllEmoticonsAreAtomic(TrimItems(codeless), tables.inline);
  }

  lemma SlotsSurvive(tables: Tables, parts: seq<Item>, urls: seq<string>)
    requires ValidTables(tables) && Spaced(parts) && Slots(parts) == Range(0, |urls|) && UrlsLike(urls)
    ensures var items := CleanedItems(tables, parts);
            var result := Trim(Restored(CleanedMask(tables, Masked(parts)), urls, 0));
            && (Clear(items, urls) ==> result == Render(TrimItems(items), urls, |urls|))
            && (NoneCopiesPrefix(urls) && result == Render(TrimItems(items), urls, |urls|) ==> Clear(items, urls))
  {
    var items := CleanedItems(tables, parts);
    CleaningIsAtomic(tables, parts);
    TrimRenders(items, urls, |urls|);
    RestoresIff(items, urls);
  }

  /** What the message would be if its URLs were atomic. */
  function Intended(tables: Tables, rawText: string): string {
    var items := CleanedItems(tables, Parts(rawText));
    Render(TrimItems(items), UrlsOf(rawText), |UrlsOf(rawText)|)
  }

  /** For every message: if every step of the restoration is clear, the result is the cleaning with
      atomic URLs, every URL verbatim, once, in order and in its place. A step is clear if its
      placeholder is neither typed before its slot nor hidden in an earlier URL, and its URL has no
      special pattern. For messages in which no URL copies the text before its match, only if. */
  lemma UrlsSurvive(tables: Tables, rawText: string)
    requires ValidTables(tables)
    ensures Clear(CleanedItems(tables, Parts(rawText)), UrlsOf(rawText)) ==>
              Cleaned(tables, rawText) == Intended(tables, rawText)
    ensures NoneCopiesPrefix(UrlsOf(rawText)) && Cleaned(tables, rawText) == Intended(tables, rawText) ==>
              Clear(CleanedItems(tables, Parts(rawText)), UrlsOf(rawText))
  {
    PartsFit(rawText);
    SlotsSurvive(tables, Parts(rawText), UrlsOf(rawText));
  }

  /** The intended message has every URL of the original one, once and in order. */
  lemma IntendedHasEveryUrl(tables: Tables, rawText: string)
    requires ValidTables(tables)
    ensures Slots(TrimItems(CleanedItems(tables, Parts(rawText)))) == Range(0, |UrlsOf(rawText)|)
  {
    PartsFit(rawText);
    CleaningIsAtomic(tables, Parts(rawText));
    TrimKeepsSlots(CleanedItems(tables, Parts(rawText)));
  }

  /** When the cleaned text has no placeholder text of its own, only the URLs decide. */
  lemma GenuineUrlsSurvive(tables: Tables, rawText: string)
    requires ValidTables(tables) && NoneCopiesPrefix(UrlsOf(rawText))
    requires Genuine(CleanedItems(tables, Parts(rawText)), |UrlsOf(rawText)|)
    ensures Cleaned(tables, rawText) == Intended(tables, rawText)
            <==> NoneHidden(UrlsOf(rawText)) && AllVerbatim(UrlsOf(rawText))
  {
    UrlsSurvive(tables, rawText);
    PartsFit(rawText);
    CleaningIsAtomic(tables, Parts(rawText));
    GenuineIsClearIff(CleanedItems(tables, Parts(rawText)), UrlsOf(rawText));
  }

  /** A text without underscores outside its URLs is such a text. */
  lemma NoUnderscoreIsGenuine(tables: Tables, rawText: string)
    requires ValidTables(tables) && NoUnderscore(rawText, 0)
    ensures Genuine(CleanedItems(tables, Parts(rawText)), |UrlsOf(rawText)|)
  {
    PartsAreSpaced(rawText, 0, 0);
    PartsArePlain(rawText, 0, 0);
    CleaningIsAtomic(tables, Parts(rawText));
    PlainIsGenuine(CleanedItems(tables, Parts(rawText)), |UrlsOf(rawText)|);
  }
}
