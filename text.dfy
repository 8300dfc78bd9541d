/**
 * The handful of JavaScript string operations the map component relies on:
 * `String.prototype.trim`, `toLowerCase`/`toUpperCase` (ASCII letters only)
 * and `includes`.
 */
module Text {

  /** The code points `String.prototype.trim` strips: ECMAScript WhiteSpace and LineTerminator. */
  predicate IsSpace(c: char)
  {
    || c == '\t' || c == '\n' || c == '\U{000B}' || c == '\U{000C}' || c == '\r' || c == ' '
    || c == '\U{00A0}' || c == '\U{1680}' || ('\U{2000}' <= c <= '\U{200A}')
    || c == '\U{2028}' || c == '\U{2029}' || c == '\U{202F}' || c == '\U{205F}'
    || c == '\U{3000}' || c == '\U{FEFF}'
  }

  /** A string that `trim()` turns into the empty (falsy) string. */
  predicate IsBlank(s: string)
  {
    forall i :: 0 <= i < |s| ==> IsSpace(s[i])
  }

  /** No white space at either end. */
  predicate IsTrimmed(s: string)
  {
    s == [] || (!IsSpace(s[0]) && !IsSpace(s[|s| - 1]))
  }

  /** Only white space before index `n` of `s`. */
  predicate BlankBefore(s: string, n: int)
  {
    forall i :: 0 <= i < n && i < |s| ==> IsSpace(s[i])
  }

  /** Only white space from index `n` of `s` on. */
  predicate BlankFrom(s: string, n: int)
  {
    forall i :: 0 <= n <= i < |s| ==> IsSpace(s[i])
  }

  /** Leading white space removed: a suffix of `s` preceded only by white space. */
  function TrimStart(s: string): (r: string)
    ensures |r| <= |s| && r == s[|s| - |r|..]
    ensures BlankBefore(s, |s| - |r|)
    ensures r != [] ==> !IsSpace(r[0])
  {
    if s != [] && IsSpace(s[0]) then
      var r := TrimStart(s[1..]);
      SpaceThenBlank(s, r);
      r
    else s
  }

  /** A white-space character in front of a suffix preceded only by white space. */
  lemma SpaceThenBlank(s: string, r: string)
    requires s != [] && IsSpace(s[0])
    requires |r| <= |s| - 1 && r == s[1..][|s| - 1 - |r|..] && BlankBefore(s[1..], |s| - 1 - |r|)
    ensures r == s[|s| - |r|..] && BlankBefore(s, |s| - |r|)
  {
    forall i | 1 <= i < |s| - |r| ensures IsSpace(s[i]) { assert s[i] == s[1..][i - 1]; }
  }

  /** Trailing white space removed: a prefix of `s` followed only by white space. */
  function TrimEnd(s: string): (r: string)
    ensures |r| <= |s| && r == s[..|r|]
    ensures BlankFrom(s, |r|)
    ensures r != [] ==> !IsSpace(r[|r| - 1])
  {
    if s != [] && IsSpace(s[|s| - 1]) then
      var r := TrimEnd(s[..|s| - 1]);
      BlankThenSpace(s, r);
      r
    else s
  }

  /** A prefix followed only by white space, then one more white-space character. */
  lemma BlankThenSpace(s: string, r: string)
    requires s != [] && IsSpace(s[|s| - 1])
    requires |r| <= |s| - 1 && r == s[..|s| - 1][..|r|] && BlankFrom(s[..|s| - 1], |r|)
    ensures r == s[..|r|] && BlankFrom(s, |r|)
  {
    forall i | |r| <= i < |s| - 1 ensures IsSpace(s[i]) { assert s[i] == s[..|s| - 1][i]; }
  }

  /** `r` is `s[a..b]`, with only white space before `a` and from `b` on. */
  predicate Between(s: string, a: int, b: int, r: string)
  {
    0 <= a <= b <= |s| && r == s[a..b] && BlankBefore(s, a) && BlankFrom(s, b)
  }

  /**
   * What trimming the start and then the end gives: `r` lies between blank
   * ends of `s`, has no white space at its ends, is empty exactly for a blank
   * `s`, and keeps a first character that is not white space.
   */
  lemma TrimmedBetween(s: string, t: string, r: string)
    requires |t| <= |s| && t == s[|s| - |t|..] && BlankBefore(s, |s| - |t|) && (t != [] ==> !IsSpace(t[0]))
    requires |r| <= |t| && r == t[..|r|] && BlankFrom(t, |r|) && (r != [] ==> !IsSpace(r[|r| - 1]))
    ensures IsTrimmed(r)
    ensures r == [] <==> IsBlank(s)
    ensures s != [] && !IsSpace(s[0]) && r != [] ==> r[0] == s[0]
    ensures Between(s, |s| - |t|, |s| - |t| + |r|, r)
  {
    var a := |s| - |t|;
    var b := a + |r|;
    assert r == s[a..b];
    forall i | b <= i < |s| ensures IsSpace(s[i]) { assert s[i] == t[i - a]; }
    assert Between(s, a, b, r);
    assert r != [] ==> !IsSpace(r[0]) by {
      if r != [] { assert r[0] == t[0]; }
    }
    assert r == [] ==> IsBlank(s);
    assert s != [] && !IsSpace(s[0]) ==> t == s;
  }

  /** `String.prototype.trim`. */
  function Trim(s: string): (r: string)
    ensures IsTrimmed(r)
    ensures r == [] <==> IsBlank(s)
    ensures s != [] && !IsSpace(s[0]) && r != [] ==> r[0] == s[0]
  {
    var t := TrimStart(s);
    var r := TrimEnd(t);
    TrimmedBetween(s, t, r);
    r
  }

  /** What `trim` keeps is one piece of the input, with only white space around it. */
  lemma TrimIsBetween(s: string)
    ensures exists a, b :: Between(s, a, b, Trim(s))
  {
    var t := TrimStart(s);
    var r := TrimEnd(t);
    TrimmedBetween(s, t, r);
    assert Trim(s) == r;
    assert Between(s, |s| - |t|, |s| - |t| + |r|, r);
  }

  function LowerChar(c: char): (d: char)
  {
    if 'A' <= c <= 'Z' then (c as int + 32) as char else c
  }

  function UpperChar(c: char): (d: char)
  {
    if 'a' <= c <= 'z' then (c as int - 32) as char else c
  }

  /** `toLowerCase`, on ASCII letters. */
  function Lower(s: string): (r: string)
    ensures |r| == |s|
    ensures forall i :: 0 <= i < |s| ==> r[i] == LowerChar(s[i])
  {
    if s == [] then [] else [LowerChar(s[0])] + Lower(s[1..])
  }

  /** `s.includes(sub)`: `sub` occurs somewhere in `s`. */
  predicate Includes(s: string, sub: string)
  {
    exists i :: 0 <= i <= |s| - |sub| && OccursAt(s, sub, i)
  }

  /** `sub` occurs in `s` starting at index `i`. */
  predicate OccursAt(s: string, sub: string, i: int)
  {
    0 <= i <= |s| - |sub| && s[i..i + |sub|] == sub
  }
}
