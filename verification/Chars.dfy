/** Character classes shared by the lexer, the formatter and the lint. */
module Chars {
  /** Which characters beyond ASCII are alphanumeric. Every result holds for any choice. */
  type Alphabet = char -> bool

  predicate IsBlank(c: char) {
    c == ' ' || c == '\t'
  }

  predicate IsDigit(c: char) {
    '0' <= c <= '9'
  }

  predicate IsLetter(c: char) {
    'a' <= c <= 'z' || 'A' <= c <= 'Z' || c == '_'
  }

  predicate IsWordChar(c: char, u: Alphabet) {
    IsDigit(c) || IsLetter(c) || (c > '\U{7F}' && u(c))
  }

  /** The Unicode White_Space property, as `trim` uses it. */
  predicate IsWhitespace(c: char) {
    || '\t' <= c <= '\r' || c == ' ' || c == '\U{85}' || c == '\U{A0}' || c == '\U{1680}'
    || '\U{2000}' <= c <= '\U{200A}' || c == '\U{2028}' || c == '\U{2029}'
    || c == '\U{202F}' || c == '\U{205F}' || c == '\U{3000}'
  }
}
