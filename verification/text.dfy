/**
  String primitives the service relies on: the case mapping of Python's
  `str.lower()` and substring membership (`word in text`).

  `str.lower()` applies the full Unicode case mapping. This module models the
  part of it that matters for the keyword sets and the sentiment names: Basic
  Latin `A`..`Z` and the Cyrillic capitals U+0400..U+042F. Every other
  character is left as it is.
 */
module Text {

  /** Capital letters whose lower-case mapping the model knows. */
  predicate IsUpperChar(c: char) {
    || ('A' <= c <= 'Z')
    || ('Ѐ' <= c <= 'Я')
  }

  /** One character of `str.lower()`. */
  function LowerChar(c: char): (d: char)
    ensures !IsUpperChar(d)
    ensures IsUpperChar(c) ==> d != c
    ensures !IsUpperChar(c) ==> d == c
  {
    if 'A' <= c <= 'Z' then (c as int + 0x20) as char      // Basic Latin
    else if 'А' <= c <= 'Я' then (c as int + 0x20) as char  // U+0410..U+042F to U+0430..U+044F
    else if 'Ѐ' <= c <= 'Џ' then (c as int + 0x50) as char  // U+0400..U+040F to U+0450..U+045F
    else c
  }

  /** A string with no capital letter. */
  predicate IsLowerCase(s: string) {
    forall i :: 0 <= i < |s| ==> !IsUpperChar(s[i])
  }

  /** Python's `s.lower()`, character by character. */
  function Lower(s: string): (r: string)
    ensures |r| == |s|
    ensures forall i :: 0 <= i < |s| ==> r[i] == LowerChar(s[i])
    ensures IsLowerCase(r)
  {
    seq(|s|, i requires 0 <= i < |s| => LowerChar(s[i]))
  }

  /** Lower-casing leaves a string alone exactly when it has no capital letter. */
  lemma LowerFixesExactlyLowerCase(s: string)
    ensures Lower(s) == s <==> IsLowerCase(s)
  {
    if IsLowerCase(s) {
      assert forall i :: 0 <= i < |s| ==> Lower(s)[i] == s[i];
    } else {
      var i :| 0 <= i < |s| && IsUpperChar(s[i]);
      assert Lower(s)[i] != s[i];
    }
  }

  /** Lower-casing twice is lower-casing once. */
  lemma LowerIdempotent(s: string)
    ensures Lower(Lower(s)) == Lower(s)
  {
    LowerFixesExactlyLowerCase(Lower(s));
  }

  /** Lower-casing works character by character, so it distributes over concatenation. */
  lemma LowerConcat(a: string, b: string)
    ensures Lower(a + b) == Lower(a) + Lower(b)
  {
    assert forall i :: 0 <= i < |a + b| ==> Lower(a + b)[i] == (Lower(a) + Lower(b))[i];
  }

  /** Lower-casing commutes with taking a slice. */
  lemma LowerSlice(s: string, i: int, j: int)
    requires 0 <= i <= j <= |s|
    ensures Lower(s)[i..j] == Lower(s[i..j])
  {
  }

  /** `w` occurs in `s` starting at position `i`. */
  predicate OccursAt(w: string, s: string, i: int) {
    0 <= i <= |s| - |w| && s[i..i + |w|] == w
  }

  /** Python's `w in s` for strings: `w` occurs at some position of `s`. */
  ghost predicate IsSubstring(w: string, s: string) {
    exists i :: OccursAt(w, s, i)
  }

  /** Shifting past a first position where `w` does not start loses no occurrence. */
  lemma SubstringOfTail(w: string, s: string)
    requires |w| <= |s|
    requires s[..|w|] != w
    ensures IsSubstring(w, s) <==> IsSubstring(w, s[1..])
  {
    var t := s[1..];
    if IsSubstring(w, s) {
      var i :| OccursAt(w, s, i);
      assert i != 0;
      assert t[i - 1..i - 1 + |w|] == s[i..i + |w|];
      assert OccursAt(w, t, i - 1);
    }
    if IsSubstring(w, t) {
      var j :| OccursAt(w, t, j);
      assert s[j + 1..j + 1 + |w|] == t[j..j + |w|];
      assert OccursAt(w, s, j + 1);
    }
  }

  /** Substring search, trying each start position from the left. */
  function Occurs(w: string, s: string): (b: bool)
    ensures b <==> IsSubstring(w, s)
    decreases |s|
  {
    if |w| > |s| then false
    else if s[..|w|] == w then (assert OccursAt(w, s, 0); true)
    else (SubstringOfTail(w, s); Occurs(w, s[1..]))
  }

  /** A word with a character that `s` lacks does not occur in `s`. */
  lemma AbsentCharNoOccurrence(w: string, s: string, k: int)
    requires 0 <= k < |w| && w[k] !in s
    ensures !IsSubstring(w, s)
  {
  }
}
