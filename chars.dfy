/**
 * The character classes of Python's `re` module, restricted to ASCII.
 * For a `str` pattern Python's classes are Unicode-aware; on ASCII input they
 * coincide with the predicates below (`\s` also covers the separators
 * 0x1C..0x1F, which Python counts as whitespace).  Every other character is
 * treated as neither a digit, a word character nor whitespace.
 */
module Chars {
  /** `\d` */
  predicate IsDigit(c: char) {
    '0' <= c <= '9'
  }

  /** `[^\W\d]`: a word character that is not a digit */
  predicate IsLetter(c: char) {
    'a' <= c <= 'z' || 'A' <= c <= 'Z' || c == '_'
  }

  /** `\w` */
  predicate IsWordChar(c: char) {
    IsDigit(c) || IsLetter(c)
  }

  /** `\s`: tab, newline, vertical tab, form feed, carriage return, 0x1C..0x1F and space */
  predicate IsSpace(c: char) {
    9 <= c as int <= 13 || 28 <= c as int <= 32
  }
}
