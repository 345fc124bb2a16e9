/**
 * The string operations the application relies on: substring containment
 * (Python's `in` on strings), ASCII lower-casing, `str.strip()`, and the
 * lexicographic order of `<` on strings.
 */
module Text {

  /** `p` occurs in `s` starting at position `i`. */
  predicate OccursAt(p: string, s: string, i: int) {
    0 <= i && i + |p| <= |s| && s[i..i + |p|] == p
  }

  predicate IsPrefix(p: string, s: string) {
    |p| <= |s| && s[..|p|] == p
  }

  predicate IsSuffix(p: string, s: string) {
    |p| <= |s| && s[|s| - |p|..] == p
  }

  /** Python's `p in s` on strings; the empty string is in every string. */
  predicate IsSubstring(p: string, s: string)
    decreases |s|
  {
    IsPrefix(p, s) || (|s| > 0 && IsSubstring(p, s[1..]))
  }

  /** Every occurrence is found by the recursive scan. */
  lemma {:induction false} OccursIsSubstring(p: string, s: string, i: int)
    requires OccursAt(p, s, i)
    ensures IsSubstring(p, s)
    decreases i
  {
    if i > 0 {
      assert s[1..][i - 1..i - 1 + |p|] == s[i..i + |p|];
      OccursIsSubstring(p, s[1..], i - 1);
    }
  }

  /** The recursive scan finds exactly the positions where `p` occurs. */
  lemma {:induction false} SubstringIffOccurs(p: string, s: string)
    ensures IsSubstring(p, s) <==> exists i :: OccursAt(p, s, i)
    decreases |s|
  {
    if IsPrefix(p, s) {
      assert OccursAt(p, s, 0);
    } else if |s| > 0 && IsSubstring(p, s[1..]) {
      SubstringIffOccurs(p, s[1..]);
      var i :| OccursAt(p, s[1..], i);
      assert s[1..][i..i + |p|] == s[i + 1..i + 1 + |p|];
      assert OccursAt(p, s, i + 1);
    }
    forall i | OccursAt(p, s, i) ensures IsSubstring(p, s) {
      OccursIsSubstring(p, s, i);
    }
  }

  // ---------------------------------------------------------------------------
  // Lower-casing (ASCII letters only)

  function LowerChar(c: char): char {
    if 'A' <= c <= 'Z' then (c as int + 32) as char else c
  }

  function Lower(s: string): string {
    seq(|s|, i requires 0 <= i < |s| => LowerChar(s[i]))
  }

  // ---------------------------------------------------------------------------
  // str.strip()

  /** The characters Python's `str.isspace()` holds for, which `str.strip()` removes. */
  predicate IsSpace(c: char) {
    c == ' ' || '\t' <= c <= '\r' || '\U{1c}' <= c <= '\U{1f}'
    || c == '\U{85}' || c == '\U{a0}' || c == '\U{1680}'
    || '\U{2000}' <= c <= '\U{200a}' || c == '\U{2028}' || c == '\U{2029}'
    || c == '\U{202f}' || c == '\U{205f}' || c == '\U{3000}'
  }

  /** Number of whitespace characters at the front of `s`. */
  function LeadingSpaces(s: string): (k: nat)
    ensures k <= |s|
    ensures forall i :: 0 <= i < k ==> IsSpace(s[i])
    ensures k < |s| ==> !IsSpace(s[k])
    decreases |s|
  {
    if |s| > 0 && IsSpace(s[0]) then 1 + LeadingSpaces(s[1..]) else 0
  }

  /** Number of whitespace characters at the back of `s`. */
  function TrailingSpaces(s: string): (k: nat)
    ensures k <= |s|
    ensures forall i :: |s| - k <= i < |s| ==> IsSpace(s[i])
    ensures k < |s| ==> !IsSpace(s[|s| - 1 - k])
    decreases |s|
  {
    if |s| > 0 && IsSpace(s[|s| - 1]) then 1 + TrailingSpaces(s[..|s| - 1]) else 0
  }

  /** Cutting the trailing whitespace of `s[lo..]` leaves only whitespace after the cut and none just before it. */
  lemma TrailingCut(s: string, lo: nat)
    requires lo <= |s|
    ensures TrailingSpaces(s[lo..]) <= |s| - lo
    ensures forall i :: |s| - TrailingSpaces(s[lo..]) <= i < |s| ==> IsSpace(s[i])
    ensures lo < |s| - TrailingSpaces(s[lo..]) ==> !IsSpace(s[|s| - TrailingSpaces(s[lo..]) - 1])
  {
    var rest := s[lo..];
    var k := TrailingSpaces(rest);
    forall i | |s| - k <= i < |s| ensures IsSpace(s[i]) {
      assert s[i] == rest[i - lo];
    }
    if k < |rest| {
      assert s[|s| - k - 1] == rest[|rest| - 1 - k];
    }
  }

  /**
   * Python's `s.strip()`: `s` without its leading and trailing whitespace.
   * The result is a window of `s`, everything outside it is whitespace, and
   * it neither starts nor ends with whitespace; it is empty exactly when `s`
   * is all whitespace.
   */
  function Strip(s: string): (r: string)
    ensures exists lo :: OccursAt(r, s, lo)
                         && (forall i :: 0 <= i < lo ==> IsSpace(s[i]))
                         && (forall i :: lo + |r| <= i < |s| ==> IsSpace(s[i]))
    ensures r != [] ==> !IsSpace(r[0]) && !IsSpace(r[|r| - 1])
    ensures r == [] <==> forall i :: 0 <= i < |s| ==> IsSpace(s[i])
  {
    var lo := LeadingSpaces(s);
    TrailingCut(s, lo);
    var hi := |s| - TrailingSpaces(s[lo..]);
    var r := s[lo..hi];
    assert OccursAt(r, s, lo);
    r
  }

  // ---------------------------------------------------------------------------
  // Lexicographic order of strings (Python's `<=` on `str`, by code point)

  predicate StrLe(a: string, b: string)
    decreases |a|
  {
    a == [] || (b != [] && (a[0] < b[0] || (a[0] == b[0] && StrLe(a[1..], b[1..]))))
  }

  lemma {:induction false} StrLeTotal(a: string, b: string)
    ensures StrLe(a, b) || StrLe(b, a)
    decreases |a|
  {
    if a != [] && b != [] && a[0] == b[0] {
      StrLeTotal(a[1..], b[1..]);
    }
  }

  lemma {:induction false} StrLeTransitive(a: string, b: string, c: string)
    requires StrLe(a, b) && StrLe(b, c)
    ensures StrLe(a, c)
    decreases |a|
  {
    if a != [] && a[0] == b[0] && b[0] == c[0] {
      StrLeTransitive(a[1..], b[1..], c[1..]);
    }
  }

  lemma {:induction false} StrLeAntisymmetric(a: string, b: string)
    requires StrLe(a, b) && StrLe(b, a)
    ensures a == b
    decreases |a|
  {
    if a != [] {
      StrLeAntisymmetric(a[1..], b[1..]);
      assert a == [a[0]] + a[1..] && b == [b[0]] + b[1..];
    }
  }
}
