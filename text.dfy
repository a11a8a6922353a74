/** The two string primitives the form and the history search rely on:
    `String.prototype.trim` and `String.prototype.includes`. */
module Text {

  /** The characters `trim` removes: ECMAScript WhiteSpace and LineTerminator code points. */
  predicate IsSpace(c: char) {
    || ('\U{0009}' <= c <= '\U{000D}')
    || c == ' ' || c == '\U{00A0}' || c == '\U{1680}'
    || ('\U{2000}' <= c <= '\U{200A}')
    || c == '\U{2028}' || c == '\U{2029}' || c == '\U{202F}' || c == '\U{205F}'
    || c == '\U{3000}' || c == '\U{FEFF}'
  }

  /** Every character of `s` is one `ws` accepts. */
  predicate AllIn(s: string, ws: char -> bool) {
    forall i :: 0 <= i < |s| ==> ws(s[i])
  }

  predicate AllSpace(s: string) {
    AllIn(s, IsSpace)
  }

  /** The number of leading characters of `s` that `ws` accepts. */
  function Lead(s: string, ws: char -> bool): (n: nat)
    ensures n <= |s| && AllIn(s[..n], ws)
    ensures n == |s| || !ws(s[n])
  {
    if s != [] && ws(s[0]) then
      var m := Lead(s[1..], ws);
      assert forall i :: 0 < i < m + 1 ==> s[i] == s[1..][..m][i - 1];
      m + 1
    else 0
  }

  /** The length of `s` without the trailing characters `ws` accepts. */
  function Kept(s: string, ws: char -> bool): (n: nat)
    ensures n <= |s| && AllIn(s[n..], ws)
    ensures n == 0 || !ws(s[n - 1])
  {
    if s != [] && ws(s[|s| - 1]) then
      var m := Kept(s[..|s| - 1], ws);
      assert forall i :: m <= i < |s| - 1 ==> s[i] == s[..|s| - 1][m..][i - m];
      m
    else |s|
  }

  /** `r` is a piece of `s` with only characters `ws` accepts before and after it. */
  ghost predicate Framed(r: string, s: string, ws: char -> bool) {
    exists a :: 0 <= a <= |s| - |r| && r == s[a..a + |r|] && AllIn(s[..a], ws) && AllIn(s[a + |r|..], ws)
  }

  /** Drops the characters `ws` accepts at both ends: the result is a piece of `s` with
      only such characters before and after it, and none at its own ends. */
  function TrimBoth(s: string, ws: char -> bool): (r: string)
    ensures |r| <= |s|
    ensures Framed(r, s, ws)
    ensures r == [] || (!ws(r[0]) && !ws(r[|r| - 1]))
    ensures r == [] <==> AllIn(s, ws)
    ensures (s == [] || (!ws(s[0]) && !ws(s[|s| - 1]))) ==> r == s
  {
    var a := Lead(s, ws);
    var t := s[a..];
    var e := Kept(t, ws);
    assert t != [] ==> t[0] == s[a];
    assert t[0..] == t;
    assert a == |s| ==> s[..a] == s;
    assert t[..e] == s[a..a + e];
    assert t[e..] == s[a + e..];
    t[..e]
  }

  /** `trim`: drops white space at both ends. The result is empty exactly when `s` is all
      white space, and a string with no white space at its ends is left as it is. */
  function Trim(s: string): (r: string)
    ensures |r| <= |s|
    ensures Framed(r, s, IsSpace)
    ensures r == [] || (!IsSpace(r[0]) && !IsSpace(r[|r| - 1]))
    ensures r == [] <==> AllSpace(s)
    ensures (s == [] || (!IsSpace(s[0]) && !IsSpace(s[|s| - 1]))) ==> r == s
  {
    TrimBoth(s, IsSpace)
  }

  /** `hay.includes(needle)`: `needle` occurs in `hay` as a contiguous piece. */
  function Includes(hay: string, needle: string): (r: bool)
    ensures needle == [] ==> r
    ensures |needle| > |hay| ==> !r
    ensures needle <= hay ==> r
  {
    needle <= hay || (hay != [] && Includes(hay[1..], needle))
  }

  /** `needle` occurs in `hay` starting at index `lo`. */
  predicate At(hay: string, needle: string, lo: nat) {
    lo + |needle| <= |hay| && hay[lo..lo + |needle|] == needle
  }

  /** Conversely, when `hay` includes `needle` there is an index where it occurs. */
  lemma {:induction false} IncludesAt(hay: string, needle: string)
    requires Includes(hay, needle)
    ensures exists lo: nat :: At(hay, needle, lo)
  {
    if needle <= hay {
      assert At(hay, needle, 0);
    } else {
      var tail := hay[1..];
      IncludesAt(tail, needle);
      var lo: nat :| At(tail, needle, lo);
      assert hay[lo + 1..lo + 1 + |needle|] == tail[lo..lo + |needle|];
      assert At(hay, needle, lo + 1);
    }
  }

  /** A string includes every piece cut from it. */
  lemma {:induction false} IncludesSlice(hay: string, lo: nat, hi: nat)
    requires lo <= hi <= |hay|
    ensures Includes(hay, hay[lo..hi])
  {
    if lo == 0 {
      assert hay[lo..hi] <= hay;
    } else {
      var tail := hay[1..];
      assert hay[lo..hi] == tail[lo - 1..hi - 1];
      IncludesSlice(tail, lo - 1, hi - 1);
    }
  }
}
