/**
 * The few JavaScript string operations the navigator relies on:
 * `String.prototype.trim`, `toLowerCase` (on ASCII letters), `includes`,
 * and the case-insensitive keyword test that the evidence panel runs as a
 * regular expression.
 */
module Text {

  /** ECMAScript WhiteSpace and LineTerminator code points: what `trim` strips. */
  predicate IsWhite(c: char) {
    c == ' ' || c == '\t' || c == '\n' || c == '\r' || c == '\U{000B}' || c == '\U{000C}'
    || c == '\U{00A0}' || c == '\U{1680}' || ('\U{2000}' <= c <= '\U{200A}')
    || c == '\U{2028}' || c == '\U{2029}' || c == '\U{202F}' || c == '\U{205F}'
    || c == '\U{3000}' || c == '\U{FEFF}'
  }

  /** `s` is empty or all white space. */
  predicate IsBlank(s: string) {
    forall k :: 0 <= k < |s| ==> IsWhite(s[k])
  }

  /** Drops leading white space: the result is the suffix of `s` that starts at its first non-white character. */
  function TrimStart(s: string): (r: string)
    ensures |r| <= |s| && r == s[|s| - |r|..]
    ensures forall k :: 0 <= k < |s| - |r| ==> IsWhite(s[k])
    ensures r == [] || !IsWhite(r[0])
  {
    if s != [] && IsWhite(s[0]) then TrimStart(s[1..]) else s
  }

  /** Drops trailing white space: the result is the prefix of `s` that ends at its last non-white character. */
  function TrimEnd(s: string): (r: string)
    ensures |r| <= |s| && r == s[..|r|]
    ensures forall k :: |r| <= k < |s| ==> IsWhite(s[k])
    ensures r == [] || !IsWhite(r[|r| - 1])
  {
    if s != [] && IsWhite(s[|s| - 1]) then TrimEnd(s[..|s| - 1]) else s
  }

  /**
   * `s.trim()`: the piece of `s` left after dropping white space at both
   * ends. It is empty exactly when `s` is all white space.
   */
  function Trim(s: string): (r: string)
    ensures r == [] || (!IsWhite(r[0]) && !IsWhite(r[|r| - 1]))
    ensures exists a, b :: 0 <= a <= b <= |s| && r == s[a..b]
                           && forall k :: 0 <= k < a || b <= k < |s| ==> IsWhite(s[k])
    ensures r == [] <==> IsBlank(s)
  {
    var t := TrimStart(s);
    TrimBothEnds(s, t, TrimEnd(t));
    TrimEnd(t)
  }

  /** Dropping white space at the front, then at the back, leaves an infix bounded by white space only. */
  lemma TrimBothEnds(s: string, t: string, r: string)
    requires |t| <= |s| && t == s[|s| - |t|..] && forall k :: 0 <= k < |s| - |t| ==> IsWhite(s[k])
    requires t == [] || !IsWhite(t[0])
    requires |r| <= |t| && r == t[..|r|] && forall k :: |r| <= k < |t| ==> IsWhite(t[k])
    requires r == [] || !IsWhite(r[|r| - 1])
    ensures exists a, b :: 0 <= a <= b <= |s| && r == s[a..b]
                           && forall k :: 0 <= k < a || b <= k < |s| ==> IsWhite(s[k])
    ensures r == [] <==> IsBlank(s)
  {
    var a := |s| - |t|;
    var b := a + |r|;
    assert r == s[a..b];
    forall k | b <= k < |s| ensures IsWhite(s[k]) {
      assert s[k] == t[k - a];
    }
    if r != [] {
      assert s[a] == r[0];
      assert r[0] == t[0];
    }
  }

  /** `toLowerCase` on one character; letters outside ASCII are left as they are. */
  function LowerChar(c: char): char {
    if IsUpper(c) then (c as int - 'A' as int + 'a' as int) as char else c
  }

  predicate IsUpper(c: char) {
    'A' <= c <= 'Z'
  }

  /** `l` is the small letter of the capital `u`: 32 code points above it. */
  predicate IsSmallOf(l: char, u: char) {
    l as int == u as int + 32
  }

  /**
   * `s.toLowerCase()`, on ASCII letters: no capital letter is left, each
   * capital becomes the letter 32 code points above it, and every other
   * character stays where it was.
   */
  function Lower(s: string): (r: string)
    ensures |r| == |s|
    ensures forall i :: 0 <= i < |r| ==> !IsUpper(r[i])
    ensures forall i :: 0 <= i < |s| && IsUpper(s[i]) ==> IsSmallOf(r[i], s[i])
    ensures forall i :: 0 <= i < |s| && !IsUpper(s[i]) ==> r[i] == s[i]
  {
    seq(|s|, i requires 0 <= i < |s| => LowerChar(s[i]))
  }

  /** Lower-casing twice is lower-casing once. */
  lemma LowerIsIdempotent(s: string)
    ensures Lower(Lower(s)) == Lower(s)
  {
    var l := Lower(s);
    assert forall i :: 0 <= i < |l| ==> Lower(l)[i] == l[i];
  }

  /** `k` occurs in `s` starting at index `i`. */
  ghost predicate OccursAt(k: string, s: string, i: int) {
    0 <= i <= |s| - |k| && s[i..i + |k|] == k
  }

  /** `s.includes(k)`: true exactly when `k` occurs somewhere in `s` (the empty string occurs everywhere). */
  function Includes(s: string, k: string): (r: bool)
    ensures r <==> exists i :: OccursAt(k, s, i)
  {
    if k <= s then
      assert OccursAt(k, s, 0);
      true
    else if s == [] then
      false
    else
      OccursAfterHead(s, k);
      Includes(s[1..], k)
  }

  /** When `k` is not a prefix of `s`, its occurrences in `s` are those in `s[1..]`, shifted by one. */
  lemma OccursAfterHead(s: string, k: string)
    requires s != [] && !(k <= s)
    ensures (exists i :: OccursAt(k, s, i)) <==> (exists i :: OccursAt(k, s[1..], i))
  {
    if i :| OccursAt(k, s, i) {
      assert i != 0;
      assert s[1..][i - 1..i - 1 + |k|] == s[i..i + |k|];
      assert OccursAt(k, s[1..], i - 1);
    }
    if i :| OccursAt(k, s[1..], i) {
      assert s[1..][i..i + |k|] == s[i + 1..i + 1 + |k|];
      assert OccursAt(k, s, i + 1);
    }
  }

  /** Some word of `words` occurs in `s`. */
  function IncludesAny(s: string, words: seq<string>): (r: bool)
    ensures r <==> exists w :: w in words && Includes(s, w)
  {
    if words == [] then false
    else if Includes(s, words[0]) then
      assert words[0] in words;
      true
    else
      IncludedInTail(s, words);
      IncludesAny(s, words[1..])
  }

  /** When the first word does not occur, the words of `words` that occur are those of its tail. */
  lemma IncludedInTail(s: string, words: seq<string>)
    requires words != [] && !Includes(s, words[0])
    ensures (exists w :: w in words && Includes(s, w)) <==> (exists w :: w in words[1..] && Includes(s, w))
  {
    if w :| w in words && Includes(s, w) {
      assert w in words[1..];
    }
    if w :| w in words[1..] && Includes(s, w) {
      assert w in words;
    }
  }

  /**
   * `/w1|w2|…/i.test(s)` for lower-case ASCII words: some word occurs in `s`
   * when upper- and lower-case ASCII letters are treated alike.
   */
  function MatchesAnyIgnoringCase(s: string, words: seq<string>): (r: bool)
    ensures r <==> exists w :: w in words && Includes(Lower(s), w)
  {
    IncludesAny(Lower(s), words)
  }

  /** The number of characters in a list of strings. */
  function TotalLength(ss: seq<string>): nat {
    if ss == [] then 0 else |ss[0]| + TotalLength(ss[1..])
  }

  /** The characters from string `i` on are string `i`'s plus those after it. */
  lemma TotalLengthFrom(ss: seq<string>, i: nat)
    requires i < |ss|
    ensures TotalLength(ss[i..]) == |ss[i]| + TotalLength(ss[i + 1..])
  {
    assert ss[i..][1..] == ss[i + 1..];
  }
}
