/** The optional-value datatype used for the tokenizer's two kinds of "absent":
    a line that fails to scan, and a lexeme that has no token type. */
module Wrappers {

  datatype Option<+T> = None | Some(value: T)
}
