/**
 Texts with URL placeholders. A text is a sequence of items: literal characters and
 numbered URL slots. The same items render to the text with placeholders, to the text
 with URLs, and to every text in between that the restoration loop goes through.
*/
module Placeholders {
  import opened Text

  datatype Item = Ch(c: char) | Slot(n: nat)

  // ------------------------------------------------------------------
  // Placeholders
  // ------------------------------------------------------------------

  /** A character that can occur in a placeholder: no letter that follows the first letter of a URL. */
  predicate PlaceholderChar(c: char) {
    Digit(c) || c == '_' || ('A' <= c <= 'U' && c != 'T')
  }

  function Placeholder(n: nat): (p: string)
    ensures p != "" && p[0] == '_' && p[|p| - 1] == '_'
  {
    "__URL_PLACEHOLDER_" + Decimal(n) + "__"
  }

  lemma PlaceholderChars(n: nat)
    ensures AllPlaceholderChars(Placeholder(n)) && NoWs(Placeholder(n))
  {
    var p := Placeholder(n);
    forall i | 0 <= i < |p| ensures PlaceholderChar(p[i]) {
      assert Digit(Decimal(n)[0]);
    }
    PlaceholderCharsAreVisible(p);
  }

  predicate AllPlaceholderChars(s: string) {
    forall i :: 0 <= i < |s| ==> PlaceholderChar(s[i])
  }

  lemma PlaceholderCharsAreVisible(s: string)
    requires AllPlaceholderChars(s)
    ensures NoWs(s)
  {
    forall i | 0 <= i < |s| ensures !IsWs(s[i]) {
      assert PlaceholderChar(s[i]);
    }
  }

  // ------------------------------------------------------------------
  // Items
  // ------------------------------------------------------------------

  /** What every URL that the pattern finds has: no white space, and two first characters that
      no placeholder and no replacement pattern has there. */
  predicate UrlLike(u: string) {
    |u| >= 2 && NoWs(u) && u[0] != '_' && u[0] != '$' && u[0] != '\'' && !PlaceholderChar(u[1])
  }

  predicate UrlsLike(urls: seq<string>) {
    forall i :: 0 <= i < |urls| ==> UrlLike(urls[i])
  }

  /** What slot `n` shows once the first `k` URLs are back. */
  function Image(n: nat, urls: seq<string>, k: nat): string
    requires k <= |urls|
  {
    if n < k then urls[n] else Placeholder(n)
  }

  function Shown(item: Item, urls: seq<string>, k: nat): string
    requires k <= |urls|
  {
    match item
    case Ch(c) => [c]
    case Slot(n) => Image(n, urls, k)
  }

  function Render(items: seq<Item>, urls: seq<string>, k: nat): string
    requires k <= |urls|
  {
    if items == [] then "" else Shown(items[0], urls, k) + Render(items[1..], urls, k)
  }

  /** The text with all placeholders in place. */
  function Masked(items: seq<Item>): string {
    Render(items, [], 0)
  }

  function Slots(items: seq<Item>): seq<nat> {
    if items == [] then []
    else (if items[0].Slot? then [items[0].n] else []) + Slots(items[1..])
  }

  function Range(a: nat, n: nat): seq<nat>
    decreases n - a
  {
    if a >= n then [] else [a] + Range(a + 1, n)
  }

  predicate WsItem(item: Item) {
    item.Ch? && IsWs(item.c)
  }

  /** A URL ends only at white space or at the end of the text. */
  predicate Spaced(items: seq<Item>) {
    items == [] || ((items[0].Slot? ==> items[1..] == [] || WsItem(items[1])) && Spaced(items[1..]))
  }

  /** No underscore outside the slots. */
  predicate Plain(items: seq<Item>) {
    items == [] || (items[0] != Ch('_') && Plain(items[1..]))
  }

  lemma TailOfConcat<T>(a: seq<T>, b: seq<T>)
    ensures a == [] ==> a + b == b
    ensures a != [] ==> (a + b)[0] == a[0] && (a + b)[1..] == a[1..] + b
  {
  }

  lemma Associative<T>(a: seq<T>, b: seq<T>, c: seq<T>)
    ensures a + (b + c) == (a + b) + c
  {
  }

  lemma HeadRenders(item: Item, rest: seq<Item>, urls: seq<string>, k: nat)
    requires k <= |urls|
    ensures Render([item] + rest, urls, k) == Shown(item, urls, k) + Render(rest, urls, k)
  {
    TailOfConcat([item], rest);
  }

  lemma HeadSlots(item: Item, rest: seq<Item>)
    ensures Slots([item] + rest) == (if item.Slot? then [item.n] else []) + Slots(rest)
  {
    TailOfConcat([item], rest);
  }

  lemma {:induction false} RenderConcat(a: seq<Item>, b: seq<Item>, urls: seq<string>, k: nat)
    requires k <= |urls|
    ensures Render(a + b, urls, k) == Render(a, urls, k) + Render(b, urls, k)
  {
    TailOfConcat(a, b);
    if a != [] {
      RenderConcat(a[1..], b, urls, k);
      Associative(Shown(a[0], urls, k), Render(a[1..], urls, k), Render(b, urls, k));
    }
  }

  lemma {:induction false} SlotsConcat(a: seq<Item>, b: seq<Item>)
    ensures Slots(a + b) == Slots(a) + Slots(b)
  {
    TailOfConcat(a, b);
    if a != [] {
      SlotsConcat(a[1..], b);
      Associative(if a[0].Slot? then [a[0].n] else [], Slots(a[1..]), Slots(b));
    }
  }

  lemma {:induction false} ShapeOfConcat(a: seq<Item>, b: seq<Item>)
    ensures Spaced(a + b) ==> Spaced(a) && Spaced(b)
    ensures Plain(a + b) ==> Plain(a) && Plain(b)
  {
    TailOfConcat(a, b);
    if a != [] {
      assert a[1..] != [] ==> (a + b)[1] == a[1];
      ShapeOfConcat(a[1..], b);
    }
  }

  lemma {:induction false} MaskedIsUntouched(items: seq<Item>, urls: seq<string>)
    ensures Render(items, urls, 0) == Masked(items)
  {
    if items != [] {
      MaskedIsUntouched(items[1..], urls);
    }
  }

  // ------------------------------------------------------------------
  // Trimming
  // ------------------------------------------------------------------

  function TrimHead(items: seq<Item>): (r: seq<Item>)
    ensures |r| <= |items|
  {
    if items != [] && WsItem(items[0]) then TrimHead(items[1..]) else items
  }

  function TrimTail(items: seq<Item>): (r: seq<Item>)
    ensures |r| <= |items| && r == items[..|r|]
  {
    if items != [] && WsItem(items[|items| - 1]) then TrimTail(items[..|items| - 1]) else items
  }

  function TrimItems(items: seq<Item>): seq<Item> {
    TrimTail(TrimHead(items))
  }

  lemma ImageIsWord(n: nat, urls: seq<string>, k: nat)
    requires k <= |urls| && UrlsLike(urls)
    ensures Image(n, urls, k) != "" && NoWs(Image(n, urls, k))
  {
    PlaceholderChars(n);
    if n < k {
      assert UrlLike(urls[n]);
    }
  }

  lemma RenderEnd(items: seq<Item>, urls: seq<string>, k: nat)
    requires k <= |urls| && items != []
    ensures Render(items, urls, k) == Render(items[..|items| - 1], urls, k) + Shown(items[|items| - 1], urls, k)
    ensures Slots(items) == Slots(items[..|items| - 1]) + Slots([items[|items| - 1]])
  {
    var front, last := items[..|items| - 1], [items[|items| - 1]];
    assert items == front + last;
    RenderConcat(front, last, urls, k);
    SlotsConcat(front, last);
    assert Render(last, urls, k) == Shown(last[0], urls, k) + "";
  }

  lemma {:induction false} TrimHeadRenders(items: seq<Item>, urls: seq<string>, k: nat)
    requires k <= |urls| && UrlsLike(urls)
    ensures TrimStart(Render(items, urls, k)) == Render(TrimHead(items), urls, k)
    ensures Slots(TrimHead(items)) == Slots(items)
  {
    if items != [] {
      var s := Render(items, urls, k);
      if WsItem(items[0]) {
        assert s[1..] == Render(items[1..], urls, k);
        TrimHeadRenders(items[1..], urls, k);
      } else if items[0].Slot? {
        ImageIsWord(items[0].n, urls, k);
        assert s[0] == Image(items[0].n, urls, k)[0];
      }
    }
  }

  lemma {:induction false} TrimTailRenders(items: seq<Item>, urls: seq<string>, k: nat)
    requires k <= |urls| && UrlsLike(urls)
    ensures TrimEnd(Render(items, urls, k)) == Render(TrimTail(items), urls, k)
    ensures Slots(TrimTail(items)) == Slots(items)
    decreases |items|
  {
    if items != [] {
      var s, last := Render(items, urls, k), items[|items| - 1];
      RenderEnd(items, urls, k);
      if WsItem(last) {
        assert s[..|s| - 1] == Render(items[..|items| - 1], urls, k);
        TrimTailRenders(items[..|items| - 1], urls, k);
      } else {
        if last.Slot? {
          ImageIsWord(last.n, urls, k);
        }
        var image := Shown(last, urls, k);
        assert s[|s| - 1] == image[|image| - 1];
      }
    }
  }

  /** Trimming takes white-space items only, whatever the slots show. */
  lemma TrimRenders(items: seq<Item>, urls: seq<string>, k: nat)
    requires k <= |urls| && UrlsLike(urls)
    ensures Trim(Render(items, urls, k)) == Render(TrimItems(items), urls, k)
    ensures Slots(TrimItems(items)) == Slots(items)
  {
    TrimHeadRenders(items, urls, k);
    TrimTailRenders(TrimHead(items), urls, k);
  }

  /** `to` has the slots of `from`, each still followed by white space or nothing, and no new underscore. */
  predicate SameSlots(from: seq<Item>, to: seq<Item>) {
    Slots(to) == Slots(from) && Spaced(to) && (Plain(from) ==> Plain(to))
  }

  lemma SlicesKeepShape(items: seq<Item>, m: nat)
    requires Spaced(items) && m <= |items|
    ensures Spaced(items[..m]) && Spaced(items[m..])
    ensures Plain(items) ==> Plain(items[..m]) && Plain(items[m..])
  {
    ShapeOfConcat(items[..m], items[m..]);
    assert items == items[..m] + items[m..];
  }

  lemma {:induction false} TrimHeadKeepsShape(items: seq<Item>)
    requires Spaced(items)
    ensures Spaced(TrimHead(items)) && (Plain(items) ==> Plain(TrimHead(items)))
  {
    if items != [] && WsItem(items[0]) {
      TrimHeadKeepsShape(items[1..]);
    }
  }

  lemma TrimKeepsSlots(items: seq<Item>)
    requires Spaced(items)
    ensures SameSlots(items, TrimItems(items)) && Masked(TrimItems(items)) == Trim(Masked(items))
  {
    TrimRenders(items, [], 0);
    TrimHeadKeepsShape(items);
    SlicesKeepShape(TrimHead(items), |TrimItems(items)|);
  }

  /** The text after a slot starts with white space or is empty. */
  lemma AfterSlot(items: seq<Item>, urls: seq<string>, k: nat)
    requires k <= |urls| && items != [] && items[0].Slot? && Spaced(items)
    ensures Render(items[1..], urls, k) == "" || IsWs(Render(items[1..], urls, k)[0])
  {
    if items[1..] != [] {
      assert items[1] == items[1..][0];
    }
  }

  lemma RangeUnfolds(items: seq<Item>, a: nat, n: nat)
    requires items != [] && Slots(items) == Range(a, n)
    ensures items[0].Slot? ==> a < n && items[0].n == a && Slots(items[1..]) == Range(a + 1, n)
    ensures items[0].Ch? ==> Slots(items[1..]) == Range(a, n)
  {
    if items[0].Slot? {
      assert Slots(items) == [items[0].n] + Slots(items[1..]);
      assert Slots(items)[0] == items[0].n;
      assert Slots(items)[1..] == Slots(items[1..]);
      assert Range(a, n)[1..] == Range(a + 1, n);
    }
  }
}
