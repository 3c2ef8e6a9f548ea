/**
 Case-insensitive string comparison, as used by the status checker for both
 the condition type and the condition status. The model folds ASCII letters
 only; every other character is compared exactly.
 */
module Fold {

  /** The case fold of one character: upper-case ASCII letters map to lower case. */
  function FoldChar(c: char): char
  {
    if 'A' <= c <= 'Z' then (c as int + 32) as char else c
  }

  /** The case fold of a whole string, character by character. */
  function FoldString(s: string): string
  {
    seq(|s|, i requires 0 <= i < |s| => FoldChar(s[i]))
  }

  /** Rune-by-rune comparison in the manner of strings.EqualFold: walk both
      strings together, stop at the first pair that does not fold to the same
      character, and succeed only if both run out together. */
  predicate EqualFold(s: string, t: string)
    decreases |s|
  {
    if |s| == 0 || |t| == 0 then |s| == |t|
    else FoldChar(s[0]) == FoldChar(t[0]) && EqualFold(s[1..], t[1..])
  }

  /** The walk agrees with the reference definition: two strings are equal
      under folding exactly when their folded forms are equal. */
  lemma {:induction false} EqualFoldIsFoldedEquality(s: string, t: string)
    ensures EqualFold(s, t) <==> FoldString(s) == FoldString(t)
    decreases |s|
  {
    if |s| == 0 || |t| == 0 {
      assert |FoldString(s)| == |s| && |FoldString(t)| == |t|;
    } else {
      EqualFoldIsFoldedEquality(s[1..], t[1..]);
      assert FoldString(s) == [FoldChar(s[0])] + FoldString(s[1..]);
      assert FoldString(t) == [FoldChar(t[0])] + FoldString(t[1..]);
      if FoldString(s) == FoldString(t) {
        assert FoldString(s)[0] == FoldString(t)[0];
        assert FoldString(s)[1..] == FoldString(t)[1..];
      }
    }
  }

  lemma EqualFoldReflexive(s: string)
    ensures EqualFold(s, s)
  {
    EqualFoldIsFoldedEquality(s, s);
  }

  lemma EqualFoldSymmetric(s: string, t: string)
    ensures EqualFold(s, t) <==> EqualFold(t, s)
  {
    EqualFoldIsFoldedEquality(s, t);
    EqualFoldIsFoldedEquality(t, s);
  }

  lemma EqualFoldTransitive(s: string, t: string, u: string)
    requires EqualFold(s, t) && EqualFold(t, u)
    ensures EqualFold(s, u)
  {
    EqualFoldIsFoldedEquality(s, t);
    EqualFoldIsFoldedEquality(t, u);
    EqualFoldIsFoldedEquality(s, u);
  }

  /** Case really is ignored: a string matches its own folded form. */
  lemma EqualFoldIgnoresCase(s: string)
    ensures EqualFold(s, FoldString(s))
  {
    var f := FoldString(s);
    assert FoldString(f) == f;
    EqualFoldIsFoldedEquality(s, f);
  }

  /** Folding never equates strings of different lengths. */
  lemma {:induction false} EqualFoldSameLength(s: string, t: string)
    requires EqualFold(s, t)
    ensures |s| == |t|
    decreases |s|
  {
    if |s| != 0 && |t| != 0 {
      EqualFoldSameLength(s[1..], t[1..]);
    }
  }
}
