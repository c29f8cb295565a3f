/** The two string operations the dashboard relies on: `toLowerCase` and `includes`. */
module Text {

  /** `needle` occurs in `s` starting at index `i`. */
  predicate OccursAt(s: string, needle: string, i: int) {
    0 <= i && i + |needle| <= |s| && s[i..i + |needle|] == needle
  }

  /** `s.includes(needle)`, scanning from the left. */
  function Includes(s: string, needle: string): (r: bool)
    ensures r <==> exists i :: OccursAt(s, needle, i)
    decreases |s|
  {
    if |s| < |needle| then
      false
    else if s[..|needle|] == needle then
      assert OccursAt(s, needle, 0);
      true
    else
      NoMatchAtHead(s, needle);
      Includes(s[1..], needle)
  }

  /** Without a match at index 0, `needle` occurs in `s` exactly when it occurs in `s[1..]`. */
  lemma NoMatchAtHead(s: string, needle: string)
    requires |needle| <= |s| && s[..|needle|] != needle
    ensures (exists i :: OccursAt(s, needle, i)) <==> (exists i :: OccursAt(s[1..], needle, i))
  {
    if i :| OccursAt(s, needle, i) {
      assert i != 0;
      assert OccursAt(s[1..], needle, i - 1);
    }
    if i :| OccursAt(s[1..], needle, i) {
      assert OccursAt(s, needle, i + 1);
    }
  }

  /** A string always includes what was spliced into it. */
  lemma IncludesSplice(prefix: string, needle: string, suffix: string)
    ensures Includes(prefix + needle + suffix, needle)
  {
    var s := prefix + needle + suffix;
    assert s[|prefix|..|prefix| + |needle|] == needle;
    assert OccursAt(s, needle, |prefix|);
  }

  /** Lower-case folding of one character: `A`-`Z` map to `a`-`z`, all else is kept. */
  function LowerChar(c: char): (l: char)
    ensures 'A' <= c <= 'Z' ==> 'a' <= l <= 'z' && l as int == c as int + 32
    ensures !('A' <= c <= 'Z') ==> l == c
  {
    if 'A' <= c <= 'Z' then (c as int + 32) as char else c
  }

  /** An upper-case letter `A`-`Z`. */
  predicate IsUpper(c: char) {
    'A' <= c <= 'Z'
  }

  /** Two characters that are the same letter up to case, or the same character. */
  predicate SameIgnoringCase(a: char, b: char) {
    || a == b
    || (IsUpper(a) && b as int == a as int + 32)
    || (IsUpper(b) && a as int == b as int + 32)
  }

  /**
   * `toLowerCase` on the letters that decide the unit label: the result has
   * no upper-case letter left and is the same text up to case, position by
   * position.
   */
  function ToLower(s: string): (r: string)
    ensures |r| == |s|
    ensures forall i :: 0 <= i < |r| ==> !IsUpper(r[i])
    ensures forall i :: 0 <= i < |s| ==> SameIgnoringCase(s[i], r[i])
    ensures forall i :: 0 <= i < |s| ==> r[i] == LowerChar(s[i])
  {
    seq(|s|, i requires 0 <= i < |s| => LowerChar(s[i]))
  }

  /** Lower-casing twice is lower-casing once. */
  lemma ToLowerIdempotent(s: string)
    ensures ToLower(ToLower(s)) == ToLower(s)
  {
  }
}
