/**
 * The character tables that Python's `re` module and `str` methods consult.
 * Their full Unicode contents are out of reach, so the model takes them as a
 * parameter and assumes only the handful of ASCII facts that Python's tables
 * are known to satisfy.
 */
module CharClasses {

  datatype Tables = Tables(
    isWord: char -> bool,   // `\w` in a str pattern
    isDigit: char -> bool,  // `\d` in a str pattern
    isSpace: char -> bool,  // `\s` in a str pattern, and what str.split() splits on
    lower: char -> string   // str.lower applied to one code point
  ) {

    /** Facts about ASCII that hold of Python's Unicode tables. */
    ghost predicate Valid() {
      && isSpace(' ')
      && !isDigit(' ')
      && isWord('_') && !isDigit('_') && !isSpace('_')
      && (forall c :: IsAsciiDigit(c) ==> isDigit(c))
      && (forall c :: IsAsciiUpper(c) ==> lower(c) == [AsciiLower(c)])
      && (forall c :: IsAscii(c) && !IsAsciiUpper(c) ==> lower(c) == [c])
    }
  }

  predicate IsAscii(c: char) {
    (c as int) < 128
  }

  predicate IsAsciiDigit(c: char) {
    '0' <= c <= '9'
  }

  predicate IsAsciiUpper(c: char) {
    'A' <= c <= 'Z'
  }

  /** The class `[a-zA-Z]`. */
  predicate IsAsciiLetter(c: char) {
    'a' <= c <= 'z' || 'A' <= c <= 'Z'
  }

  function AsciiLower(c: char): (r: char)
    requires IsAsciiUpper(c)
    ensures 'a' <= r <= 'z'
    ensures r as int - 'a' as int == c as int - 'A' as int
  {
    ((c as int) + 32) as char
  }

  /** Python's `string.punctuation`. */
  const Punctuation: string := "!\"#$%&'()*+,-./:;<=>?@[\\]^_`{|}~"

  predicate IsPunctuation(c: char) {
    c in Punctuation
  }

  /** `string.punctuation` is exactly the printable ASCII characters that are neither letters, digits nor space. */
  lemma PunctuationIsAsciiSymbols(c: char)
    ensures IsPunctuation(c) <==> ('!' <= c <= '/' || ':' <= c <= '@' || '[' <= c <= '`' || '{' <= c <= '~')
  {
  }
}
