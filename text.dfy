/** The string matching behind the submitter-name search: a substring test
    that ignores letter case. */
module Text {

  /** Lower-cases an ASCII capital letter and leaves every other character alone. */
  function FoldChar(c: char): (d: char)
    ensures 'A' <= c <= 'Z' ==> 'a' <= d <= 'z' && d as int - c as int == 32
    ensures !('A' <= c <= 'Z') ==> d == c
    ensures !('A' <= d <= 'Z')
  {
    if 'A' <= c <= 'Z' then (c as int + 32) as char else c
  }

  /** The string with every ASCII capital lower-cased, position by position. */
  function Fold(s: string): (r: string)
    ensures |r| == |s|
    ensures forall i :: 0 <= i < |s| ==> r[i] == FoldChar(s[i])
  {
    if s == [] then [] else [FoldChar(s[0])] + Fold(s[1..])
  }

  /** Folding twice is folding once. */
  lemma FoldIdempotent(s: string)
    ensures Fold(Fold(s)) == Fold(s)
  {
  }

  /** `p` occurs in `s` starting at position `i`. */
  ghost predicate OccursAt(s: string, p: string, i: int)
  {
    0 <= i <= |s| - |p| && s[i..i + |p|] == p
  }

  /** Occurrences in `s` past its first character are the occurrences in
      the tail, shifted by one. */
  lemma OccursShift(s: string, p: string)
    requires |s| > 0
    ensures forall j :: 0 <= j ==> (OccursAt(s[1..], p, j) ==> OccursAt(s, p, j + 1))
    ensures forall i :: 1 <= i ==> (OccursAt(s, p, i) ==> OccursAt(s[1..], p, i - 1))
  {
  }

  /** Whether `p` occurs in `s` as a contiguous piece; the empty string
      occurs in every string. */
  function Contains(s: string, p: string): (b: bool)
    ensures b <==> exists i :: OccursAt(s, p, i)
    decreases |s|
  {
    if |p| > |s| then false
    else if s[..|p|] == p then
      assert OccursAt(s, p, 0);
      true
    else
      OccursShift(s, p);
      assert !OccursAt(s, p, 0);
      Contains(s[1..], p)
  }

  /** The case-insensitive `contains` of the name search: both sides are
      folded to lower case before the substring test. */
  function ContainsIgnoringCase(s: string, p: string): bool
  {
    Contains(Fold(s), Fold(p))
  }

  /** The match does not depend on the letter case of either side. */
  lemma MatchIgnoresCase(s: string, p: string)
    ensures ContainsIgnoringCase(Fold(s), p) == ContainsIgnoringCase(s, p)
    ensures ContainsIgnoringCase(s, Fold(p)) == ContainsIgnoringCase(s, p)
  {
    FoldIdempotent(s);
    FoldIdempotent(p);
  }
}
