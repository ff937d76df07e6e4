/**
 The two string operations the pricing rule needs: lower-casing a species
 name and asking whether one string occurs inside another (the `in`
 operator on strings). Lower-casing is restricted to the ASCII letters.
 */
module Text {

  predicate IsUpper(c: char) {
    'A' <= c <= 'Z'
  }

  /** Lower-cases one ASCII capital; every other character is kept as is. */
  function LowerChar(c: char): (d: char)
    ensures !IsUpper(d)
    ensures IsUpper(c) ==> 'a' <= d <= 'z' && d as int == c as int + 32
    ensures !IsUpper(c) ==> d == c
  {
    if IsUpper(c) then (c as int + 32) as char else c
  }

  /** Lower-cases a whole string, character by character. */
  function Lower(s: string): (t: string)
    ensures |t| == |s|
    ensures forall i :: 0 <= i < |s| ==> t[i] == LowerChar(s[i])
  {
    seq(|s|, i requires 0 <= i < |s| => LowerChar(s[i]))
  }

  /** A string is lower case when it holds no ASCII capital. */
  predicate IsLower(s: string) {
    forall i :: 0 <= i < |s| ==> !IsUpper(s[i])
  }

  /** `pat` occurs in `s` starting at index `i`. */
  predicate OccursAt(pat: string, s: string, i: int) {
    0 <= i && i + |pat| <= |s| && s[i..i + |pat|] == pat
  }

  /** The substring test `pat in s`: `pat` occurs somewhere in `s`. The
      empty pattern occurs in every string, no pattern occurs in a shorter
      string, and a pattern as long as the string occurs only if it is the
      string. */
  predicate Contains(s: string, pat: string): (b: bool)
    ensures pat == [] ==> b
    ensures b ==> |pat| <= |s|
    ensures |pat| == |s| ==> (b <==> s == pat)
  {
    assert pat == [] ==> OccursAt(pat, s, 0);
    assert |pat| == |s| ==> (OccursAt(pat, s, 0) <==> s == pat);
    exists i | 0 <= i <= |s| - |pat| :: OccursAt(pat, s, i)
  }

  /** The substring test as a scan from the front: `pat` occurs in a
      non-empty `s` exactly when `s` starts with it or the rest of `s`
      contains it. */
  lemma ContainsFromFront(s: string, pat: string)
    requires |s| > 0
    ensures Contains(s, pat) <==> OccursAt(pat, s, 0) || Contains(s[1..], pat)
  {
    forall i | 0 <= i
      ensures OccursAt(pat, s[1..], i) <==> OccursAt(pat, s, i + 1)
    {
      if i + |pat| <= |s| - 1 {
        assert s[1..][i..i + |pat|] == s[i + 1..i + 1 + |pat|];
      }
    }
    if Contains(s, pat) && !OccursAt(pat, s, 0) {
      var i :| 0 <= i <= |s| - |pat| && OccursAt(pat, s, i);
      assert OccursAt(pat, s[1..], i - 1);
    }
    if Contains(s[1..], pat) {
      var i :| 0 <= i <= |s[1..]| - |pat| && OccursAt(pat, s[1..], i);
      assert OccursAt(pat, s, i + 1);
    }
  }

  /** Lower-casing commutes with taking a slice. */
  lemma LowerSlice(s: string, i: int, j: int)
    requires 0 <= i <= j <= |s|
    ensures Lower(s)[i..j] == Lower(s[i..j])
  {
  }

  /** The characters of `s` from index `i` on spell `pat` once lower-cased. */
  predicate OccursAtIgnoringCase(pat: string, s: string, i: int) {
    0 <= i && i + |pat| <= |s| && Lower(s[i..i + |pat|]) == pat
  }

  /** An occurrence in the lower-cased string is an occurrence, ignoring
      case, in the string itself, at the same index. */
  lemma LowerWindows(s: string, pat: string)
    ensures forall i :: OccursAt(pat, Lower(s), i) <==> OccursAtIgnoringCase(pat, s, i)
  {
    forall i
      ensures OccursAt(pat, Lower(s), i) <==> OccursAtIgnoringCase(pat, s, i)
    {
      if 0 <= i && i + |pat| <= |s| {
        LowerSlice(s, i, i + |pat|);
      }
    }
  }

  /** Lower-casing twice is the same as lower-casing once. */
  lemma LowerIdempotent(s: string)
    ensures Lower(Lower(s)) == Lower(s)
  {
  }

  /** The result of lower-casing is lower case, and lower case strings are
      their own lower-casing. */
  lemma LowerIsLower(s: string)
    ensures IsLower(Lower(s))
    ensures IsLower(s) <==> Lower(s) == s
  {
    if Lower(s) == s {
      assert IsLower(Lower(s));
    }
  }

  /** Matching after lower-casing is case-insensitive: an occurrence of `pat`
      in `s`, in whatever case, is an occurrence of `pat` lower-cased in
      `s` lower-cased. */
  lemma LowerKeepsOccurrence(s: string, pat: string)
    requires Contains(s, pat)
    ensures Contains(Lower(s), Lower(pat))
  {
    var i :| 0 <= i <= |s| - |pat| && OccursAt(pat, s, i);
    LowerSlice(s, i, i + |pat|);
    assert OccursAt(Lower(pat), Lower(s), i);
  }

  /** A string that lacks the first character of `pat` does not contain it. */
  lemma MissingFirstLetter(s: string, pat: string)
    requires |pat| > 0
    requires forall i :: 0 <= i < |s| ==> s[i] != pat[0]
    ensures !Contains(s, pat)
  {
    forall i
      ensures !OccursAt(pat, s, i)
    {
      if 0 <= i && i + |pat| <= |s| {
        assert s[i..i + |pat|][0] == s[i];
      }
    }
  }
}
