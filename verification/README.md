# Jott tokenizer, modelled in Dafny

This project models the lexer of the Jott language front end,
`provided/JottTokenizer.java`. It has three parts:

- **`getType`** is the classifier. It turns a finished lexeme into a token type or into
  `null`. The three regular expressions are tried first, then the
  punctuation/operator `switch`.
- **`getTokenize`** is the line scanner. A `for` loop walks the characters of one line
  with a pending-lexeme buffer `sb`. It emits tokens and returns `null` on a
  lexical error.
- **`tokenize`** is the file driver. It numbers the lines from 1, scans each one and
  concatenates the per-line token lists. It returns `null` as soon as a line fails.

The model follows the code as written, quirks included (see below).

Modules, one per file:

- `Wrappers` (`wrappers.dfy`): `Option`.
- `CharClass` (`char_class.dfy`): the `Character.isWhitespace` / `isDigit` /
  `isLetter` / `isLetterOrDigit` tests the scanner dispatches on.
- `Tokens` (`tokens.dfy`): `TokenType` and `Token`. A `null` type is `None`.
- `Classifier` (`classifier.dfy`): `GetType`. The regular expressions are
  written as recursive matchers. Each matcher is paired with a declarative shape
  (`NumberShape`, `QuotedShape`, `IdentifierShape`), and a lemma proves that the
  two agree.
- `Scanner` (`scanner.dfy`): `StepAt` is one turn of the `for` loop. It gives
  `Stop` for a comment, `Fail` for `return null`, or `Go(emitted, next, pending)`.
  `Scan` runs the loop from an index with a given buffer, and `ScanLine` is
  `getTokenize`. `None` is the `null` result.
- `ScannerFacts` (`scanner_facts.dfy`): what each arm of the loop does to
  whole scans. It also covers where failures can come from and the effect of
  a `#`.
- `LineShape` (`line_shape.dfy`): whole-line properties, each stated against
  a definition that does not mention the scanner:
  - a word splitter (`Words`) for lines of plain characters;
  - the multiset of the line's characters;
  - the part of the line a scan from an index can see.
- `Lexer` (`lexer.dfy`): `Tokenize`, the driver loop over a file given as its
  sequence of lines, with the lemmas relating it to the per-line scans.
- `Examples` (`examples.dfy`): concrete lines worked out turn by turn.

Behaviour of the code that a reader might not expect, all modelled as written:

- **Dot lookbehind.** The check is `i - 1 > 0`, not `>= 0`. A `.` at index 1
  does not look back at index 0, so the line `5.` fails while `15.` is the
  number `15.` (`Examples.DigitDotAtLineStartFails`, `Examples.DigitDotLaterIsNumber`).
- **Buffer not flushed.** Operators, `"` and `::` append to the pending buffer
  without flushing it first. So `5=` is one token that `getType` cannot classify
  (`ScannerFacts.OperatorJoinsPendingDigits`), `5<=` is one untyped token too
  (`Examples.DigitsJoinOperatorPair`), and `5::` is the single FC_HEADER token `5::`
  (`Examples.DigitsJoinDoubleColon`). Likewise `5"a"` is one untyped token, not
  a STRING (`Examples.DigitsJoinString`). A letter run is emitted at once, so `x::`
  is still two tokens (`Examples.IdentifierBeforeDoubleColon`).
- **Lone colon.** A lone `:` is emitted at once, while the pending buffer stays
  pending. `5:6` therefore yields `:` and then `56` (`Examples.ColonInsideNumber`).
- **Character after a string.** The character right after a closing quote is
  skipped. It can still be seen through the `.` lookbehind of the next character
  (`LineShape.CharAfterQuoteIgnored` for a literal anywhere on the line,
  `LineShape.CharAfterStringSkipped` for one that opens it, `Examples.CharAfterQuoteVanishes`).
- **Underscore.** `_` is not a Java letter. It falls through to the last arm and
  becomes a one-character token, which `getType` classifies as ID_KEYWORD.

## Model

| member | source | states |
|---|---|---|
| Classifier.NumberMatcherIff | provided/JottTokenizer.java:181 | the three number expressions `\d+\.\d*`, `\.\d+`, `\d+` together accept exactly the non-empty strings of digits and points with at most one point and at least one digit |
| Classifier.QuotedMatcherIff | provided/JottTokenizer.java:186 | `"[^"]*"` accepts exactly two double quotes with no double quote between them |
| Classifier.IdentifierMatcherIff | provided/JottTokenizer.java:191 | `[a-zA-Z_][a-zA-Z0-9_]*` accepts exactly a letter or underscore followed by letters, digits and underscores |
| Classifier.DigitStarIff | provided/JottTokenizer.java:181 | `\d*` accepts exactly the all-digit strings |
| Classifier.DecimalTailIff | provided/JottTokenizer.java:181 | the tail of `\d+\.\d*` accepts exactly digits, one point, digits |
| Classifier.GetTypePatterns | provided/JottTokenizer.java:179-193 | NUMBER exactly for number shapes; STRING exactly for quoted shapes and the lone `"`; ID_KEYWORD exactly for identifier shapes; `null` exactly when no shape matches and the switch has no entry; never FC_HEADER |
| Classifier.GetTypeFixed | provided/JottTokenizer.java:196-228 | each punctuation/operator type is returned for exactly its switch lexemes, so no other lexeme gets one of them |
| Classifier.QuotedIsString | provided/JottTokenizer.java:186-188 | every quoted lexeme is a STRING |
| Scanner.IdentRunEnd | provided/JottTokenizer.java:83-86 | the identifier loop stays on the line and only passes over letters and digits |
| Scanner.CloseQuote | provided/JottTokenizer.java:123-126 | the string loop stops on a double quote, or at the end of the line, with no double quote on the way |
| Scanner.StepAt | provided/JottTokenizer.java:62-158 | every turn that carries on advances the index; it stays within the line except after a closing quote, where it may step one past the end |
| Scanner.StepLocated | provided/JottTokenizer.java:62-158 | every token a turn emits carries the file and line number, has a non-empty lexeme, and is typed by getType, or is FC_HEADER with a lexeme ending in `::` |
| Scanner.ScanLocated | provided/JottTokenizer.java:62-163 | the same for every token of a scan from any index, final flush included |
| Scanner.ScanLine | provided/JottTokenizer.java:56-172 | the same for every token of a successfully scanned line |
| ScannerFacts.IdentRunEndIsMaximal | provided/JottTokenizer.java:83-86 | the identifier loop ends exactly at the end of the maximal letter/digit run; its `!= ' '` guard never fires |
| ScannerFacts.LetterRunIsOneToken | provided/JottTokenizer.java:80-91 | a maximal letter/digit run starting with a letter is one token, with whatever was pending in front, and scanning resumes after it with an empty buffer |
| ScannerFacts.DigitTurn | provided/JottTokenizer.java:77-78 | a digit emits nothing and joins the buffer |
| ScannerFacts.DigitsAccumulate | provided/JottTokenizer.java:77-78 | a run of digits emits nothing and moves entirely into the buffer |
| ScannerFacts.DotTurn | provided/JottTokenizer.java:93-98 | an accepted `.` (a digit right after it, or a digit at `i - 1` when `i - 1 > 0`) emits nothing and joins the pending buffer, which is not flushed |
| ScannerFacts.NumberCharsAccumulate | provided/JottTokenizer.java:77-98 | a run of digits and accepted points emits nothing and moves entirely into the buffer |
| ScannerFacts.DigitsPrefixIdentifier | provided/JottTokenizer.java:77-91 | digits followed by a letter run make one token together with the run |
| ScannerFacts.OperatorPairTakesPending | provided/JottTokenizer.java:108-117 | an operator followed by `=` is read as a pair without flushing: the pending buffer and both characters are one token, and scanning resumes after the `=` with an empty buffer |
| ScannerFacts.OperatorPairIsOneToken | provided/JottTokenizer.java:108-117 | with nothing pending, `<=`, `>=`, `==`, `!=` are one REL_OP token and scanning resumes after the `=` |
| ScannerFacts.OperatorPairJoinsPendingDigits | provided/JottTokenizer.java:108-117 | pending digits and a following operator pair form one lexeme of no type |
| ScannerFacts.DigitsThenOperatorUntyped | provided/JottTokenizer.java:179-230 | getType classifies no lexeme made of digits followed by operator characters |
| ScannerFacts.SingleOperator | provided/JottTokenizer.java:108-117 | with nothing pending, `<` and `>` alone are REL_OP, `=` alone is ASSIGN, and `!` alone fails the line |
| ScannerFacts.OperatorJoinsPendingDigits | provided/JottTokenizer.java:109-117 | pending digits and a following operator form one lexeme of no type |
| ScannerFacts.DoubleColonTakesPending | provided/JottTokenizer.java:139-144 | `::` does not flush: the pending buffer followed by `::` is one FC_HEADER token, and scanning resumes after it with an empty buffer |
| ScannerFacts.DoubleColonIsFcHeader | provided/JottTokenizer.java:139-144 | with nothing pending, `::` is the FC_HEADER token `::` |
| ScannerFacts.LoneColonKeepsPending | provided/JottTokenizer.java:145-147 | a lone `:` is a COLON token emitted ahead of the pending buffer, which stays pending |
| ScannerFacts.CloseQuoteFindsFirst | provided/JottTokenizer.java:123-126 | the string loop stops on the first double quote after the opening one |
| ScannerFacts.StepAtClosedQuote | provided/JottTokenizer.java:120-130 | the quote arm emits buffer plus literal up to the first closing quote |
| ScannerFacts.LiteralIsString | provided/JottTokenizer.java:127-130 | the cut-out literal is classified STRING |
| ScannerFacts.StepAtLiteral | provided/JottTokenizer.java:120-130 | with an empty buffer the turn emits the literal as a STRING token |
| ScannerFacts.QuoteTakesPending | provided/JottTokenizer.java:120-136 | a `"` does not flush: the pending buffer and the literal up to its first closing quote are one token, and scanning resumes two past the closing quote with an empty buffer |
| ScannerFacts.StringLiteralToken | provided/JottTokenizer.java:120-136 | with nothing pending, a string literal is one STRING token holding both quotes and its text verbatim; scanning resumes two past the closing quote |
| ScannerFacts.UnterminatedString | provided/JottTokenizer.java:131-133 | a `"` with no later `"` on the line fails the scan |
| ScannerFacts.StepFailsAtHazard | provided/JottTokenizer.java:93-133 | a turn fails exactly at a lone `!`, an unterminated `"`, or a `.` with no digit after it and no digit at `i - 1` when `i - 1 > 0` |
| ScannerFacts.ScanFailsOnlyAtHazard | provided/JottTokenizer.java:62-159 | a failing scan from an index has a hazard at or after that index |
| ScannerFacts.LineFailsOnlyAtHazard | provided/JottTokenizer.java:56-172 | a line returns `null` only if it holds a hazard; a line with no `!`, `"` or `.` always scans |
| ScannerFacts.StepBeforeComment | provided/JottTokenizer.java:62-158 | before a `#`, on a line with no `"`, a turn sees the same thing as in the line cut at the `#` |
| ScannerFacts.CommentCutsScan | provided/JottTokenizer.java:65-67 | on such a line, the scan from any index before the `#` equals the scan of the line cut at the `#` |
| ScannerFacts.CommentEndsLine | provided/JottTokenizer.java:65-67 | on a line with no `"` before the `#`, the `#` ends the line: what follows contributes nothing and the buffer is still flushed |
| LineShape.PlainBlankTurn | provided/JottTokenizer.java:69-75 | on a plain line a blank ends the current word |
| LineShape.PlainDigitTurn | provided/JottTokenizer.java:77-78 | on a plain line a digit extends the current word |
| LineShape.PlainLetterTurn | provided/JottTokenizer.java:80-91 | on a plain line a letter run extends the current word and ends it |
| LineShape.PlainLetterSegment | provided/JottTokenizer.java:80-91 | in the word split, a letter run together with the current word is one word |
| LineShape.PlainSingleTurn | provided/JottTokenizer.java:149-157 | on a plain line a single character ends the current word and is a word of its own |
| LineShape.PlainScanIsSegment | provided/JottTokenizer.java:62-163 | on a plain line the scan from any index is the word split of the rest, classified by getType |
| LineShape.PlainLineIsWordSplit | provided/JottTokenizer.java:56-172 | a line of letters, digits, blanks and single-character punctuation scans to its word split, each word classified by getType |
| LineShape.TakesBlank | provided/JottTokenizer.java:69-75 | a blank reads no character: the tokens it emits and the new buffer hold, as a multiset, exactly the old buffer |
| LineShape.TakesDigitOrDot | provided/JottTokenizer.java:77-98 | a digit or accepted `.` reads one character: tokens and new buffer hold exactly the old buffer and that character, and the scan resumes after it |
| LineShape.TakesLetter | provided/JottTokenizer.java:80-91 | the letter arm reads the run: its token and new buffer hold exactly the old buffer and the run, and the scan resumes after it |
| LineShape.TakesQuote | provided/JottTokenizer.java:120-136 | the quote arm reads from the opening to the closing quote: its token and new buffer hold exactly the old buffer and those characters, and the scan resumes past them |
| LineShape.TakesOperator | provided/JottTokenizer.java:108-117 | the operator arm reads one or two characters: its token and new buffer hold exactly the old buffer and those characters |
| LineShape.TakesColon | provided/JottTokenizer.java:138-148 | the colon arm reads one or two colons: its tokens and new buffer hold, as a multiset, exactly the old buffer and those colons |
| LineShape.TakesSingle | provided/JottTokenizer.java:149-157 | the last arm reads one character: its tokens and new buffer hold exactly the old buffer and that character |
| LineShape.StepDrawsFromLine | provided/JottTokenizer.java:62-158 | a turn's tokens, new buffer and unread rest together hold no character that the old buffer and rest did not |
| LineShape.ScanDrawsFromLine | provided/JottTokenizer.java:62-163 | a scan's lexemes use only characters of the buffer and of the rest of the line, each at most once |
| LineShape.LexemesDrawnFromLine | provided/JottTokenizer.java:56-172 | the lexemes of a scanned line, end to end, are a sub-multiset of the line's characters |
| LineShape.StepSeesSuffix | provided/JottTokenizer.java:62-158 | a turn at `i` depends only on the line from `i` on, plus the character before a `.` |
| LineShape.ScanSeesSuffix | provided/JottTokenizer.java:62-163 | so does a whole scan from `i` |
| LineShape.LeadingLiteral | provided/JottTokenizer.java:120-136 | a line opening with a string literal yields that STRING token first and resumes two past its closing quote |
| LineShape.CharAfterQuoteIgnored | provided/JottTokenizer.java:120-130 | for a literal anywhere on the line and any pending buffer, the character right after the closing quote never matters to the scan from the opening quote, unless a `.` follows it |
| LineShape.CharAfterStringSkipped | provided/JottTokenizer.java:127-129 | the character right after a leading string literal never matters to the result, unless a `.` follows it |
| Lexer.Tokenize | provided/JottTokenizer.java:29-37 | the loop returns the per-line scans joined in order, and `null` exactly when some line returns `null` |
| Lexer.TokenizeFailsIff | provided/JottTokenizer.java:33-37 | the file fails exactly when one of its lines fails |
| Lexer.TokenizeInLineOrder | provided/JottTokenizer.java:29-34 | every token carries the file name and a line number between 1 and the line count; line numbers never decrease along the result |
| Lexer.TokenizeKeepsEachLine | provided/JottTokenizer.java:29-34 | when the file scans, every line scans, and the tokens numbered `j + 1` are exactly what line `j + 1` scanned to |
| Examples.DigitDotAtLineStartFails | provided/JottTokenizer.java:93-105 | the line `5.` returns `null` |
| Examples.DigitDotLaterIsNumber | provided/JottTokenizer.java:93-98 | the line `15.` is the single NUMBER `15.` |
| Examples.DecimalIsOneNumber | provided/JottTokenizer.java:77-98 | the line `3.14` is the single NUMBER `3.14` |
| Examples.LeadingDotNumber | provided/JottTokenizer.java:93-98 | the line `.5` is the single NUMBER `.5` |
| Examples.ColonInsideNumber | provided/JottTokenizer.java:138-148 | the line `5:6` yields COLON `:` and then NUMBER `56` |
| Examples.LoneBangFails | provided/JottTokenizer.java:113-114 | the line `a!b` returns `null` |
| Examples.CharAfterQuoteVanishes | provided/JottTokenizer.java:127-130 | the line `"a"x;` yields STRING `"a"` and SEMICOLON, with no token for `x` |
| Examples.DigitsJoinOperatorPair | provided/JottTokenizer.java:108-117 | the line `5<=` is the single untyped token `5<=` |
| Examples.DigitsJoinDoubleColon | provided/JottTokenizer.java:139-144 | the line `5::` is the single FC_HEADER token `5::` |
| Examples.DigitsJoinString | provided/JottTokenizer.java:120-130 | the line `5"a"` is the single untyped token `5"a"`: the digit is not flushed before the literal |
| Examples.IdentifierBeforeDoubleColon | provided/JottTokenizer.java:80-91 | the line `x::` yields ID_KEYWORD `x` and then FC_HEADER `::` |

## Left out

- File reading (lines 25-28 and 30): `Tokenize` takes the file as its sequence of lines. I/O is not modelled.
- The exception handlers (lines 39-43): a missing file or a read error prints a message and returns the tokens gathered so far. A model without I/O has neither.
- Unicode: `Character.isWhitespace`, `isDigit`, `isLetter` and `isLetterOrDigit` are given their ASCII meaning. Whitespace is codes 9-13 and 28-32. Non-ASCII characters are treated as neither letters, digits nor blanks. This matters only for non-ASCII lines. The regular expressions of `getType` already use ASCII classes.
- The regular-expression engine: the three expressions are written out as matchers rather than run through a regex library.
- Lines 100-103: the flush just before `return null` adds a token to a list that is then discarded, so it has no observable effect and is not modelled.
- Line 164 and the commented-out printing (lines 165-168) have no effect.
- The `Token` class and the `TokenType` enum are not part of this model beyond the fields and categories used here.
- `provided/ReturnNode.java` is not part of this model.
- ScannerFacts.LineFailsOnlyAtHazard: states only that failure implies a hazard. The converse does not hold, because some hazards are never reached: one after a `#`, one inside a string literal, and the character skipped right after a closing quote (`"a"!` scans although its `!` is a hazard). `ScannerFacts.StepFailsAtHazard` states both directions for a single turn.
- ScannerFacts.CommentEndsLine: stated for lines with no `"` before the `#`. A `#` inside a string literal is part of the literal, and a character skipped after a closing quote could itself be the `#`.
