/** The character classes the lexer and the source-position helpers test.
    Swift classifies Unicode characters; the model keeps the ASCII members
    of each class (see README, "Left out"). */
module Characters {

  /** `Character.isNewline`: line feed, carriage return, vertical tab and
      form feed. */
  predicate IsNewline(c: char) {
    c == '\n' || c == '\r' || c == 11 as char || c == 12 as char
  }

  /** `Character.isWhitespace`: spaces, tabs and the newline characters. */
  predicate IsWhitespace(c: char) {
    c == ' ' || c == '\t' || IsNewline(c)
  }

  /** Whitespace that does not end a line. */
  predicate IsHorizontalSpace(c: char) {
    IsWhitespace(c) && !IsNewline(c)
  }

  predicate IsLetter(c: char) {
    ('a' <= c <= 'z') || ('A' <= c <= 'Z')
  }

  /** Decimal digits; `isDigit` and `isNumber` agree on ASCII. */
  predicate IsDigit(c: char) {
    '0' <= c <= '9'
  }

  /** Characters that may continue an identifier. */
  predicate IsIdentChar(c: char) {
    IsLetter(c) || IsDigit(c) || c == '_'
  }

  predicate NotNewline(c: char) {
    !IsNewline(c)
  }

  predicate NotLineFeed(c: char) {
    c != '\n'
  }
}
