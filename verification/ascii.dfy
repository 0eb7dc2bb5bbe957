/**
 ASCII case mapping. Rust's `str::to_lowercase` is the full Unicode mapping;
 this model keeps only its ASCII part, which is all the app-name comparison
 against the lower-case literal "youtube" can observe.
 */
module Ascii {

  predicate IsUpper(c: char) { 'A' <= c <= 'Z' }

  predicate IsLower(c: char) { 'a' <= c <= 'z' }

  function ToLowerChar(c: char): (r: char)
    ensures IsUpper(c) ==> IsLower(r) && r as int == c as int + 32
    ensures !IsUpper(c) ==> r == c
  {
    if IsUpper(c) then (c as int + 32) as char else c
  }

  function ToUpperChar(c: char): (r: char)
    ensures IsLower(c) ==> IsUpper(r) && r as int + 32 == c as int
    ensures !IsLower(c) ==> r == c
  {
    if IsLower(c) then (c as int - 32) as char else c
  }

  /** `to_lowercase` restricted to ASCII: character by character. */
  function ToLower(s: string): (r: string)
    ensures |r| == |s|
    ensures forall i :: 0 <= i < |s| ==> r[i] == ToLowerChar(s[i])
  {
    if |s| == 0 then [] else [ToLowerChar(s[0])] + ToLower(s[1..])
  }

  /** `s` spells the lower-case word `t` with any letters in either case. */
  predicate IsCaseVariantOf(s: string, t: string)
  {
    |s| == |t| && forall i :: 0 <= i < |s| ==> s[i] == t[i] || s[i] == ToUpperChar(t[i])
  }

  /** A character lower-cases to the letter `t` exactly when it is `t` in either case. */
  lemma LowerCharMatches(c: char, t: char)
    requires IsLower(t)
    ensures ToLowerChar(c) == t <==> c == t || c == ToUpperChar(t)
  {
  }

  /** Lower-casing matches a lower-case word exactly on its case variants. */
  lemma ToLowerMatches(s: string, t: string)
    requires forall i :: 0 <= i < |t| ==> IsLower(t[i])
    ensures ToLower(s) == t <==> IsCaseVariantOf(s, t)
  {
    if ToLower(s) == t {
      forall i | 0 <= i < |s|
        ensures s[i] == t[i] || s[i] == ToUpperChar(t[i])
      {
        LowerCharMatches(s[i], t[i]);
      }
    }
    if IsCaseVariantOf(s, t) {
      forall i | 0 <= i < |s|
        ensures ToLower(s)[i] == t[i]
      {
        LowerCharMatches(s[i], t[i]);
      }
    }
  }
}
