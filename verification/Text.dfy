/** Strings as the normaliser sees them: white space, trimming, prefixes. */
module Text {

  /** The characters that the regular expression class for white space and `trim` agree on. */
  predicate IsWs(c: char) {
    var n := c as int;
    9 <= n <= 13 || n == 0x20 || n == 0xA0 || n == 0x1680 || 0x2000 <= n <= 0x200A
    || n == 0x2028 || n == 0x2029 || n == 0x202F || n == 0x205F || n == 0x3000 || n == 0xFEFF
  }

  /** One by one: tab, line breaks, form feeds, the spaces, the line and paragraph separators, and the byte-order mark. */
  lemma WhiteSpaceMeans(c: char)
    ensures IsWs(c) <==> c as int in {
              0x9, 0xA, 0xB, 0xC, 0xD, 0x20, 0xA0, 0x1680,
              0x2000, 0x2001, 0x2002, 0x2003, 0x2004, 0x2005, 0x2006, 0x2007, 0x2008, 0x2009, 0x200A,
              0x2028, 0x2029, 0x202F, 0x205F, 0x3000, 0xFEFF}
  {
  }

  predicate NoWs(s: string) {
    forall i :: 0 <= i < |s| ==> !IsWs(s[i])
  }

  function TrimStart(s: string): (r: string)
    ensures |r| <= |s|
    ensures r != "" ==> !IsWs(r[0])
  {
    if s != "" && IsWs(s[0]) then TrimStart(s[1..]) else s
  }

  function TrimEnd(s: string): (r: string)
    ensures |r| <= |s| && r == s[..|r|]
    ensures forall i :: |r| <= i < |s| ==> IsWs(s[i])
    ensures r != "" ==> !IsWs(r[|r| - 1])
  {
    if s != "" && IsWs(s[|s| - 1]) then TrimEnd(s[..|s| - 1]) else s
  }

  function Trim(s: string): string {
    TrimEnd(TrimStart(s))
  }

  /** No white space at either end. */
  predicate Trimmed(s: string) {
    s == "" || (!IsWs(s[0]) && !IsWs(s[|s| - 1]))
  }

  lemma TrimGivesTrimmed(s: string)
    ensures Trimmed(Trim(s)) && |Trim(s)| <= |s|
  {
  }

  lemma {:induction false} TrimStartMeans(s: string) returns (a: nat)
    ensures a <= |s| && TrimStart(s) == s[a..] && forall i :: 0 <= i < a ==> IsWs(s[i])
  {
    a := 0;
    if s != "" && IsWs(s[0]) {
      var n := TrimStartMeans(s[1..]);
      assert forall i :: 0 <= i < n ==> s[i + 1] == s[1..][i];
      a := n + 1;
    }
  }

  /** Trimming takes off exactly the white space at both ends. */
  lemma TrimMeans(s: string) returns (a: nat, b: nat)
    ensures a <= b <= |s| && Trim(s) == s[a..b] && Trimmed(Trim(s))
    ensures forall i :: 0 <= i < a || b <= i < |s| ==> IsWs(s[i])
  {
    a := TrimStartMeans(s);
    var t := TrimStart(s);
    b := a + |TrimEnd(t)|;
    assert s[a..][..b - a] == s[a..b];
    forall i | b <= i < |s| ensures IsWs(s[i]) {
      assert t[i - a] == s[i];
    }
    TrimGivesTrimmed(s);
  }

  /** The end of the white-space-free run that starts at `i`. */
  function WordEnd(s: string, i: nat): (e: nat)
    requires i <= |s|
    ensures i <= e <= |s|
    ensures forall k :: i <= k < e ==> !IsWs(s[k])
    ensures e < |s| ==> IsWs(s[e])
    decreases |s| - i
  {
    if i == |s| || IsWs(s[i]) then i else WordEnd(s, i + 1)
  }

  predicate Digit(c: char) {
    '0' <= c <= '9'
  }

  function DigitOf(d: nat): (c: char)
    requires d < 10
    ensures Digit(c)
  {
    ('0' as int + d) as char
  }

  /** The decimal numeral of a number. */
  function Decimal(n: nat): (s: string)
    ensures s != "" && forall i :: 0 <= i < |s| ==> Digit(s[i])
  {
    if n < 10 then [DigitOf(n)] else Decimal(n / 10) + [DigitOf(n % 10)]
  }
}
