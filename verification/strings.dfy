/** Prefix matching on strings, shared by the path readers and the word removal. */
module Strings {

  /** `s` begins with `prefix`. */
  predicate StartsWith(s: string, prefix: string)
  {
    |prefix| <= |s| && s[..|prefix|] == prefix
  }
}
