/** Character classes and greedy runs of the JavaScript regular expressions
    in which the Eno rule tables are written. A line is a `string`, that is a
    `seq<char>`; every length returned here is a count of characters, which
    is the regular expressions' count of UTF-16 code units for text inside
    the Basic Multilingual Plane. */
module Chars {

  /** `\s`: the WhiteSpace and LineTerminator code points of ECMAScript. */
  predicate IsSpace(c: char) {
    || c == ' ' || c == '\t' || c == '\n' || c == '\U{000B}' || c == '\U{000C}' || c == '\r'
    || c == '\U{00A0}' || c == '\U{1680}' || ('\U{2000}' <= c <= '\U{200A}')
    || c == '\U{2028}' || c == '\U{2029}' || c == '\U{202F}' || c == '\U{205F}'
    || c == '\U{3000}' || c == '\U{FEFF}'
  }

  /** `.` without the `s` flag: anything but the four line terminators. */
  predicate IsDot(c: char) {
    c != '\n' && c != '\r' && c != '\U{2028}' && c != '\U{2029}'
  }

  lemma NonSpaceIsDot(c: char)
    requires !IsSpace(c)
    ensures IsDot(c)
  {}

  predicate AllSpace(s: string) {
    forall i :: 0 <= i < |s| ==> IsSpace(s[i])
  }

  predicate AllDot(s: string) {
    forall i :: 0 <= i < |s| ==> IsDot(s[i])
  }

  predicate AllChar(s: string, c: char) {
    forall i :: 0 <= i < |s| ==> s[i] == c
  }

  /** `s` is `head` followed by nothing but whitespace: the shape of a match
      whose last part is the non-capturing `(?:\s*$)`. */
  predicate EndsInSpace(s: string, head: string) {
    |head| <= |s| && s[..|head|] == head && AllSpace(s[|head|..])
  }

  /** Length of the greedy `\s*` at the front of `s`. */
  function SpaceRun(s: string): (n: nat)
    ensures n <= |s|
    ensures AllSpace(s[..n])
    ensures n < |s| ==> !IsSpace(s[n])
  {
    if |s| > 0 && IsSpace(s[0]) then 1 + SpaceRun(s[1..]) else 0
  }

  /** Length of the greedy `.*` at the front of `s`. */
  function DotRun(s: string): (n: nat)
    ensures n <= |s|
    ensures AllDot(s[..n])
    ensures n < |s| ==> !IsDot(s[n])
  {
    if |s| > 0 && IsDot(s[0]) then 1 + DotRun(s[1..]) else 0
  }

  /** Length of the greedy run of `c` at the front of `s` (`-{2,}`, `#{1,}`, `` `+ ``
      before the length checks). */
  function CharRun(s: string, c: char): (n: nat)
    ensures n <= |s|
    ensures AllChar(s[..n], c)
    ensures n < |s| ==> s[n] != c
  {
    if |s| > 0 && s[0] == c then 1 + CharRun(s[1..], c) else 0
  }

  /** Length of `s` once its trailing whitespace is removed: where a lazy
      capture followed by `\s*$` stops. */
  function Trimmed(s: string): (n: nat)
    ensures n <= |s|
    ensures AllSpace(s[n..])
    ensures n > 0 ==> !IsSpace(s[n - 1])
  {
    if |s| > 0 && IsSpace(s[|s| - 1]) then
      var n := Trimmed(s[..|s| - 1]);
      assert s[n..] == s[..|s| - 1][n..] + [s[|s| - 1]];
      n
    else |s|
  }

  /** Any front part `[i, j)` of the greedy blank run after `i` is blank. */
  lemma SpaceSlice(s: string, i: nat, j: nat)
    requires i <= j && i <= |s| && j - i <= SpaceRun(s[i..])
    ensures j <= |s| && AllSpace(s[i..j])
  {
    var n := SpaceRun(s[i..]);
    var slice := s[i..j];
    forall k | 0 <= k < |slice| ensures IsSpace(slice[k]) {
      assert slice[k] == s[i..][..n][k];
    }
  }

  /** Any front part of a greedy run of `c` is a run of `c`. */
  lemma CharPrefix(s: string, c: char, f: nat)
    requires f <= CharRun(s, c)
    ensures AllChar(s[..f], c)
  {
    var n := CharRun(s, c);
    var front := s[..f];
    forall k | 0 <= k < |front| ensures front[k] == c {
      assert front[k] == s[..n][k];
    }
  }

  /** `p` is the front of `s`. */
  predicate Prefix(s: string, p: string) {
    |p| <= |s| && s[..|p|] == p
  }

  /** A front part followed by a part that ends in blanks ends in blanks. */
  lemma EndsInSpaceJoin(s: string, a: string, b: string)
    requires Prefix(s, a) && EndsInSpace(s[|a|..], b)
    ensures EndsInSpace(s, a + b)
  {
    assert s[..|a| + |b|] == s[..|a|] + s[|a|..][..|b|];
    assert s[|a| + |b|..] == s[|a|..][|b|..];
  }

  /** `run` occurs in `s` at position `i`. */
  predicate StartsAt(s: string, i: nat, run: string) {
    i + |run| <= |s| && s[i..i + |run|] == run
  }

  /** `run` does not occur anywhere inside `s`. */
  predicate Avoids(s: string, run: string) {
    forall i :: 0 <= i <= |s| - |run| ==> !StartsAt(s, i, run)
  }

  /** Index of the first character at or after `from` that is in `stops`
      (or `|s|`): how far a class like `[^\n<]` can carry a capture. */
  function StopAt(s: string, from: nat, stops: set<char>): (m: nat)
    requires from <= |s|
    ensures from <= m <= |s|
    ensures forall i :: from <= i < m ==> s[i] !in stops
    ensures m < |s| ==> s[m] in stops
    decreases |s| - from
  {
    if from == |s| || s[from] in stops then from else StopAt(s, from + 1, stops)
  }

  /** Where a lazy capture of non-`stops` characters ends when blanks and then
      a stop character (or the end) must follow it: at `n`, the end of the
      capture's last non-blank character. */
  lemma TrimmedStop(s: string, stops: set<char>, n: nat, e: nat)
    requires 1 <= n <= e <= |s|
    requires forall i :: 1 <= i < n ==> s[i] !in stops
    requires !IsSpace(s[n - 1]) && AllSpace(s[n..e]) && (e < |s| ==> s[e] in stops)
    ensures Trimmed(s[..StopAt(s, 1, stops)]) == n
  {
    var m := StopAt(s, 1, stops);
    assert n <= m <= e;
    var front := s[..m];
    assert front[n..] == s[n..m];
    assert forall i :: 0 <= i < m - n ==> s[n..m][i] == s[n..e][i];
    assert front[n - 1] == s[n - 1];
    TrimmedUnique(front, n);
  }

  /** A greedy run is at least as long as any run at the front. */
  lemma {:induction false} CharRunAtLeast(s: string, c: char, f: nat)
    requires f <= |s| && AllChar(s[..f], c)
    ensures f <= CharRun(s, c)
  {
    if f > 0 {
      assert s[0] == s[..f][0];
      assert s[1..][..f - 1] == s[..f][1..];
      CharRunAtLeast(s[1..], c, f - 1);
    }
  }

  lemma {:induction false} SpaceRunAtLeast(s: string, w: nat)
    requires w <= |s| && AllSpace(s[..w])
    ensures w <= SpaceRun(s)
  {
    if w > 0 {
      assert s[0] == s[..w][0];
      assert s[1..][..w - 1] == s[..w][1..];
      SpaceRunAtLeast(s[1..], w - 1);
    }
  }

  // The runs above are the only lengths with their properties: a greedy
  // quantifier has exactly one place to stop.

  lemma {:induction false} SpaceRunUnique(s: string, n: nat)
    requires n <= |s| && AllSpace(s[..n]) && (n < |s| ==> !IsSpace(s[n]))
    ensures SpaceRun(s) == n
  {
    if n > 0 {
      assert s[..n][0] == s[0];
      assert s[1..][..n - 1] == s[..n][1..];
      SpaceRunUnique(s[1..], n - 1);
    }
  }

  lemma {:induction false} CharRunUnique(s: string, c: char, n: nat)
    requires n <= |s| && AllChar(s[..n], c) && (n < |s| ==> s[n] != c)
    ensures CharRun(s, c) == n
  {
    if n > 0 {
      assert s[..n][0] == s[0];
      assert s[1..][..n - 1] == s[..n][1..];
      CharRunUnique(s[1..], c, n - 1);
    }
  }

  lemma {:induction false} TrimmedUnique(s: string, n: nat)
    requires n <= |s| && AllSpace(s[n..]) && (n > 0 ==> !IsSpace(s[n - 1]))
    ensures Trimmed(s) == n
  {
    if n < |s| {
      assert s[n..][|s| - 1 - n] == s[|s| - 1];
      assert s[..|s| - 1][n..] == s[n..][..|s| - 1 - n];
      TrimmedUnique(s[..|s| - 1], n);
    }
  }
}
