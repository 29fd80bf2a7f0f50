/**
 * The string primitives both sides of the translator rely on: Python's
 * `str.strip()` and `str.lower()` on the server, JavaScript's
 * `String.prototype.trim()` in the browser.  The two runtimes do not agree on
 * which characters count as white space, so the set is a parameter.
 */
module Strings {

  /** Which runtime's notion of white space a strip follows. */
  datatype Runtime = Python | JavaScript

  /**
   * The characters a strip removes.  For Python these are the characters for
   * which `str.isspace()` holds; for JavaScript they are the ECMAScript
   * WhiteSpace and LineTerminator code points.  Python alone strips the
   * information separators U+001C..U+001F and NEXT LINE U+0085; JavaScript
   * alone strips the byte order mark U+FEFF.
   */
  predicate IsSpace(rt: Runtime, c: char) {
    || ('\t' <= c <= '\r')
    || c == ' '
    || c == '\U{A0}'
    || c == '\U{1680}'
    || ('\U{2000}' <= c <= '\U{200A}')
    || c == '\U{2028}'
    || c == '\U{2029}'
    || c == '\U{202F}'
    || c == '\U{205F}'
    || c == '\U{3000}'
    || (rt == Python && (('\U{1C}' <= c <= '\U{1F}') || c == '\U{85}'))
    || (rt == JavaScript && c == '\U{FEFF}')
  }

  /** Every character of `s` is white space (vacuously so for the empty string). */
  predicate AllSpace(rt: Runtime, s: string) {
    forall i :: 0 <= i < |s| ==> IsSpace(rt, s[i])
  }

  /** Neither end of `s` holds a character a strip would remove. */
  predicate IsStripped(rt: Runtime, s: string) {
    s == [] || (!IsSpace(rt, s[0]) && !IsSpace(rt, s[|s| - 1]))
  }

  /** The length of the longest all-white-space prefix of `s`. */
  function LeadingSpaces(rt: Runtime, s: string): (n: nat)
    ensures n <= |s|
    ensures AllSpace(rt, s[..n])
    ensures n < |s| ==> !IsSpace(rt, s[n])
  {
    if s == [] || !IsSpace(rt, s[0]) then 0
    else
      var k := LeadingSpaces(rt, s[1..]);
      assert s[..k + 1] == [s[0]] + s[1..][..k];
      k + 1
  }

  /** The length of the longest all-white-space suffix of `s`. */
  function TrailingSpaces(rt: Runtime, s: string): (n: nat)
    ensures n <= |s|
    ensures AllSpace(rt, s[|s| - n..])
    ensures n < |s| ==> !IsSpace(rt, s[|s| - 1 - n])
  {
    if s == [] || !IsSpace(rt, s[|s| - 1]) then 0
    else
      var init := s[..|s| - 1];
      var k := TrailingSpaces(rt, init);
      assert s[|s| - (k + 1)..] == init[|init| - k..] + [s[|s| - 1]];
      k + 1
  }

  /**
   * `s` with white space removed from both ends: Python's `s.strip()` or
   * JavaScript's `s.trim()`.  The result is the stretch of `s` that starts
   * after the leading white space and is followed only by white space.
   */
  function Strip(rt: Runtime, s: string): (r: string)
    ensures IsStripped(rt, r)
    ensures r == [] <==> AllSpace(rt, s)
    ensures var k := LeadingSpaces(rt, s);
      && k + |r| <= |s|
      && s[k..k + |r|] == r
      && AllSpace(rt, s[k + |r|..])
  {
    var k := LeadingSpaces(rt, s);
    var rest := s[k..];
    var r := rest[..|rest| - TrailingSpaces(rt, rest)];
    StripShape(rt, s, k, rest, r);
    r
  }

  /** The facts `Strip` promises, from those of the two scans it combines. */
  lemma StripShape(rt: Runtime, s: string, k: nat, rest: string, r: string)
    requires k == LeadingSpaces(rt, s) && rest == s[k..]
    requires r == rest[..|rest| - TrailingSpaces(rt, rest)]
    ensures IsStripped(rt, r)
    ensures r == [] <==> AllSpace(rt, s)
    ensures k + |r| <= |s| && s[k..k + |r|] == r && AllSpace(rt, s[k + |r|..])
  {
    var m := TrailingSpaces(rt, rest);
    if r != [] {
      assert r[0] == s[k];
      assert r[|r| - 1] == rest[|rest| - 1 - m];
    }
    if r == [] {
      // The trailing scan swallowed all of `rest`, so `rest` is empty and `s` is its prefix `s[..k]`.
      assert s == s[..k];
    }
    assert s[k + |r|..] == rest[|rest| - m..];
  }

  /**
   * Strip is determined by its padding: whatever white space surrounds a
   * stripped string, stripping gives back exactly that string.
   */
  lemma StripOfPadded(rt: Runtime, pre: string, mid: string, post: string)
    requires AllSpace(rt, pre) && AllSpace(rt, post) && IsStripped(rt, mid)
    ensures Strip(rt, pre + mid + post) == mid
  {
    var s := pre + mid + post;
    var r := Strip(rt, s);
    var k := LeadingSpaces(rt, s);
    if mid == [] {
      assert AllSpace(rt, s) by {
        forall i | 0 <= i < |s| ensures IsSpace(rt, s[i]) {
          if i < |pre| { assert s[i] == pre[i]; } else { assert s[i] == post[i - |pre|]; }
        }
      }
    } else {
      assert s[|pre|] == mid[0];
      assert k == |pre|;
      assert s[|pre| + |mid| - 1] == mid[|mid| - 1];
      assert |r| == |mid|;
      assert s[|pre|..|pre| + |mid|] == mid;
    }
  }

  /** Stripping twice is stripping once. */
  lemma StripIdempotent(rt: Runtime, s: string)
    ensures Strip(rt, Strip(rt, s)) == Strip(rt, s)
  {
    var r := Strip(rt, s);
    StripOfPadded(rt, [], r, []);
    assert [] + r + [] == r;
  }

  /** A string with no white space at either end is left alone. */
  lemma StripStripped(rt: Runtime, s: string)
    requires IsStripped(rt, s)
    ensures Strip(rt, s) == s
  {
    StripOfPadded(rt, [], s, []);
    assert [] + s + [] == s;
  }

  /** Python's `str.lower()` restricted to ASCII: `A`..`Z` become `a`..`z`, every other character is kept. */
  function LowerChar(c: char): char {
    if 'A' <= c <= 'Z' then (c as int - 'A' as int + 'a' as int) as char else c
  }

  /** `LowerChar` applied to every character of `s`. */
  function Lower(s: string): (r: string)
    ensures |r| == |s|
    ensures forall i :: 0 <= i < |s| ==> r[i] == LowerChar(s[i])
  {
    seq(|s|, i requires 0 <= i < |s| => LowerChar(s[i]))
  }
}
