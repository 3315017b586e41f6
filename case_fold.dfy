/**
 * Case-insensitive comparison of typed answers.
 *
 * The app compares `text.lowercased()` with `name.lowercased()`. Full Unicode
 * lower-casing belongs to the platform string library; this module folds the
 * ASCII letters 'A'..'Z' only and leaves every other character as it is.
 */
module CaseFold {

  /** True of the 26 upper-case ASCII letters. */
  predicate IsUpper(c: char) {
    'A' <= c <= 'Z'
  }

  /** Lower-cases one character: an upper-case ASCII letter becomes its lower-case partner. */
  function LowerChar(c: char): (r: char)
    ensures !IsUpper(r)
    ensures IsUpper(c) <==> r != c
    ensures IsUpper(c) ==> r as int == c as int + 32
  {
    if IsUpper(c) then (c as int + 32) as char else c
  }

  /** The string with every character lower-cased. */
  function Lowercased(s: string): (r: string)
    ensures |r| == |s|
    ensures forall i :: 0 <= i < |r| ==> !IsUpper(r[i])
    ensures forall i :: 0 <= i < |s| ==> r[i] == LowerChar(s[i])
  {
    seq(|s|, i requires 0 <= i < |s| => LowerChar(s[i]))
  }

  /** The answer check of the quiz: equal once both sides are lower-cased. */
  predicate SameIgnoringCase(a: string, b: string)
    ensures a == b ==> SameIgnoringCase(a, b)
    ensures SameIgnoringCase(a, b) ==> |a| == |b|
  {
    Lowercased(a) == Lowercased(b)
  }

  /** Lower-casing twice is lower-casing once. */
  lemma LowercasedIdempotent(s: string)
    ensures Lowercased(Lowercased(s)) == Lowercased(s)
  {
    var once := Lowercased(s);
    assert forall i :: 0 <= i < |once| ==> LowerChar(once[i]) == once[i];
  }

  /** Two strings match exactly when they have the same length and agree letter by letter up to case. */
  lemma SameIgnoringCaseCharwise(a: string, b: string)
    ensures SameIgnoringCase(a, b) <==>
            |a| == |b| && forall i :: 0 <= i < |a| ==> LowerChar(a[i]) == LowerChar(b[i])
  {
    if |a| == |b| && forall i :: 0 <= i < |a| ==> LowerChar(a[i]) == LowerChar(b[i]) {
      assert forall i :: 0 <= i < |a| ==> Lowercased(a)[i] == Lowercased(b)[i];
    }
    if SameIgnoringCase(a, b) {
      assert forall i :: 0 <= i < |a| ==> Lowercased(a)[i] == LowerChar(a[i]);
    }
  }

  /** The answer check is an equivalence relation. */
  lemma SameIgnoringCaseIsEquivalence(a: string, b: string, c: string)
    ensures SameIgnoringCase(a, a)
    ensures SameIgnoringCase(a, b) ==> SameIgnoringCase(b, a)
    ensures SameIgnoringCase(a, b) && SameIgnoringCase(b, c) ==> SameIgnoringCase(a, c)
  {
  }

  /** Any spelling of a string is matched by its lower-cased form. */
  lemma LowercasedMatches(s: string)
    ensures SameIgnoringCase(Lowercased(s), s)
  {
    LowercasedIdempotent(s);
  }

  /** Strings of different lengths never match, so the empty answer matches no non-empty name. */
  lemma LengthsDifferNoMatch(a: string, b: string)
    requires |a| != |b|
    ensures !SameIgnoringCase(a, b)
  {
  }

  /** Typing "gold" or "GOLD" for "Gold" is accepted; "silver" is not. */
  lemma GoldExample()
    ensures SameIgnoringCase("gold", "Gold")
    ensures SameIgnoringCase("GOLD", "Gold")
    ensures !SameIgnoringCase("silver", "Gold")
  {
    SameIgnoringCaseCharwise("gold", "Gold");
    SameIgnoringCaseCharwise("GOLD", "Gold");
  }
}
