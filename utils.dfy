/**
 * The constant-naming rule of `src/const_utils/utils.py`: a name is a
 * constant when it is an identifier, upper case, and does not start with
 * an underscore.
 */
module Utils {
  import opened PyStr

  /** `is_const(name)`. */
  predicate IsConst(name: string) {
    IsIdentifier(name) && IsUpper(name) && !StartsWith(name, "_")
  }

  /** A character a constant name may contain: `A-Z`, `0-9` or `_`. */
  predicate IsConstChar(c: char) { IsUpperAscii(c) || IsDigitAscii(c) || c == '_' }

  /** The naming rule as a grammar: `[A-Z][A-Z0-9_]*`. */
  predicate ConstGrammar(s: string) {
    && |s| > 0
    && IsUpperAscii(s[0])
    && forall i :: 0 <= i < |s| ==> IsConstChar(s[i])
  }

  /** The three Python checks together are exactly the grammar `[A-Z][A-Z0-9_]*`. */
  lemma IsConstIffGrammar(name: string)
    ensures IsConst(name) <==> ConstGrammar(name)
  {
  }

  /** The empty string is not an identifier, hence not a constant. */
  lemma EmptyIsNotConst()
    ensures !IsConst("")
  {
  }

  /** A leading underscore excludes a name, whatever its case. */
  lemma UnderscorePrefixIsNotConst(name: string)
    requires |name| > 0 && name[0] == '_'
    ensures !IsConst(name)
  {
  }

  /** A single lower-case letter anywhere excludes a name. */
  lemma LowercaseIsNotConst(name: string, i: nat)
    requires i < |name| && IsLowerAscii(name[i])
    ensures !IsConst(name)
  {
  }

  /** A name starting with a digit is not an identifier. */
  lemma DigitPrefixIsNotConst(name: string)
    requires |name| > 0 && IsDigitAscii(name[0])
    ensures !IsConst(name)
  {
  }

  /** A character other than a letter, a digit or `_` excludes a name. */
  lemma ForeignCharIsNotConst(name: string, i: nat)
    requires i < |name| && !IsCased(name[i]) && !IsDigitAscii(name[i]) && name[i] != '_'
    ensures !IsConst(name)
  {
  }

  /**
   * A name without any letter is never a constant: `isupper()` needs a cased
   * character, and the only identifiers without letters start with `_`.
   */
  lemma NoLetterIsNotConst(name: string)
    requires forall i :: 0 <= i < |name| ==> !IsCased(name[i])
    ensures !IsConst(name)
  {
  }

  /** Inner and trailing underscores and digits are allowed. */
  lemma SampleNames()
    ensures IsConst("MAX_SIZE_2") && IsConst("PI") && IsConst("A1") && IsConst("E_")
    ensures !IsConst("1A") && !IsConst("_PI") && !IsConst("Pi") && !IsConst("helper")
    ensures !IsConst("MAX SIZE") && !IsConst("___")
  {
    IsConstIffGrammar("MAX_SIZE_2");
    IsConstIffGrammar("PI");
    IsConstIffGrammar("A1");
    IsConstIffGrammar("E_");
    UnderscorePrefixIsNotConst("_PI");
    UnderscorePrefixIsNotConst("___");
    LowercaseIsNotConst("Pi", 1);
    LowercaseIsNotConst("helper", 0);
    ForeignCharIsNotConst("MAX SIZE", 3);
  }
}
