/** The character classes the tokenizer dispatches on.  The Java code uses
    `Character.isWhitespace`, `isDigit`, `isLetter` and `isLetterOrDigit`;
    this model gives them their ASCII meaning. */
module CharClass {

  /** `Character.isWhitespace` restricted to ASCII: tab, line feed, vertical tab,
      form feed, carriage return, the four separator controls and space. */
  predicate IsWhitespace(c: char) {
    var n := c as int;
    (9 <= n <= 13) || (28 <= n <= 32)
  }

  predicate IsDigit(c: char) {
    '0' <= c <= '9'
  }

  predicate IsLetter(c: char) {
    ('a' <= c <= 'z') || ('A' <= c <= 'Z')
  }

  predicate IsLetterOrDigit(c: char) {
    IsLetter(c) || IsDigit(c)
  }

  /** The characters that start a one- or two-character relational or
      assignment operator. */
  predicate IsOperatorStart(c: char) {
    c == '<' || c == '>' || c == '=' || c == '!'
  }
}
