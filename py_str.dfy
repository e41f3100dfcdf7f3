/**
 * The Python `str` methods that the constant-naming rule is built from,
 * restricted to ASCII: a character outside ASCII is treated as neither a
 * letter nor a digit.
 */
module PyStr {

  predicate IsUpperAscii(c: char) { 'A' <= c <= 'Z' }

  predicate IsLowerAscii(c: char) { 'a' <= c <= 'z' }

  /** A cased character; over ASCII these are exactly the letters. */
  predicate IsCased(c: char) { IsUpperAscii(c) || IsLowerAscii(c) }

  predicate IsDigitAscii(c: char) { '0' <= c <= '9' }

  /** `str.isidentifier()`: a letter or `_`, then letters, digits and `_`. */
  predicate IsIdentifier(s: string) {
    && |s| > 0
    && (IsCased(s[0]) || s[0] == '_')
    && forall i :: 1 <= i < |s| ==> IsCased(s[i]) || IsDigitAscii(s[i]) || s[i] == '_'
  }

  /** `str.isupper()`: at least one cased character, and no lower-case one. */
  predicate IsUpper(s: string) {
    && (exists i :: 0 <= i < |s| && IsCased(s[i]))
    && forall i :: 0 <= i < |s| ==> !IsLowerAscii(s[i])
  }

  /** `str.startswith(prefix)`. */
  predicate StartsWith(s: string, prefix: string) {
    |prefix| <= |s| && s[..|prefix|] == prefix
  }
}
