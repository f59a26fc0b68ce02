/** Case-insensitive string comparison as Java's `String.equalsIgnoreCase`
    performs it, restricted to ASCII letters: only `A`..`Z` and `a`..`z`
    have a case partner here. */
module Ascii {

  /** `Character.toUpperCase` on ASCII. */
  function UpperChar(c: char): char
  {
    if 'a' <= c <= 'z' then (c as int - 32) as char else c
  }

  /** `Character.toLowerCase` on ASCII. */
  function LowerChar(c: char): char
  {
    if 'A' <= c <= 'Z' then (c as int + 32) as char else c
  }

  /** One step of `regionMatches` with `ignoreCase` set: two characters match
      when they are equal, when their upper cases are equal, or when the
      lower cases of their upper cases are equal. */
  predicate CharEqualsIgnoreCase(a: char, b: char)
  {
    a == b || UpperChar(a) == UpperChar(b) || LowerChar(UpperChar(a)) == LowerChar(UpperChar(b))
  }

  /** `a.equalsIgnoreCase(b)` for non-null strings: same length, and every
      pair of characters at the same position matches ignoring case. */
  predicate EqualsIgnoreCase(a: string, b: string)
  {
    |a| == |b| && forall i :: 0 <= i < |a| ==> CharEqualsIgnoreCase(a[i], b[i])
  }

  /** The ASCII lower-case form of a string, character by character. */
  function Lower(s: string): (r: string)
    ensures |r| == |s|
    ensures forall i :: 0 <= i < |s| ==> r[i] == LowerChar(s[i])
  {
    if s == [] then [] else [LowerChar(s[0])] + Lower(s[1..])
  }

  /** Two characters match ignoring case exactly when their lower cases agree. */
  lemma CharEqualsIgnoreCaseIff(a: char, b: char)
    ensures CharEqualsIgnoreCase(a, b) <==> LowerChar(a) == LowerChar(b)
  {
  }

  /** `equalsIgnoreCase` holds exactly when the lower-cased strings are equal. */
  lemma EqualsIgnoreCaseIff(a: string, b: string)
    ensures EqualsIgnoreCase(a, b) <==> Lower(a) == Lower(b)
  {
    if EqualsIgnoreCase(a, b) {
      forall i | 0 <= i < |a|
        ensures Lower(a)[i] == Lower(b)[i]
      {
        CharEqualsIgnoreCaseIff(a[i], b[i]);
      }
    }
    if Lower(a) == Lower(b) {
      forall i | 0 <= i < |a|
        ensures CharEqualsIgnoreCase(a[i], b[i])
      {
        assert Lower(a)[i] == Lower(b)[i];
        CharEqualsIgnoreCaseIff(a[i], b[i]);
      }
    }
  }

  /** `equalsIgnoreCase` is an equivalence relation. */
  lemma EqualsIgnoreCaseIsEquivalence(a: string, b: string, c: string)
    ensures EqualsIgnoreCase(a, a)
    ensures EqualsIgnoreCase(a, b) ==> EqualsIgnoreCase(b, a)
    ensures EqualsIgnoreCase(a, b) && EqualsIgnoreCase(b, c) ==> EqualsIgnoreCase(a, c)
  {
    EqualsIgnoreCaseIff(a, a);
    EqualsIgnoreCaseIff(a, b);
    EqualsIgnoreCaseIff(b, a);
    EqualsIgnoreCaseIff(b, c);
    EqualsIgnoreCaseIff(a, c);
  }
}
