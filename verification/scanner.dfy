/** The line scanner `getTokenize` (JottTokenizer.java:56-172).

    The Java code walks the line with an index `i` and a pending-lexeme buffer
    `sb`, appending finished tokens to a list and returning `null` on a lexical
    error.  `Scan(line, file, lineNum, i, pending)` is that loop from index `i`
    on, with `pending` the contents of `sb`: it returns the tokens the loop
    emits from there to the end of the line, or `None` when the loop returns
    `null`.  Tokens emitted before index `i` are prepended by the caller, so a
    `None` anywhere makes the whole line `None`, as the early return does. */
module Scanner {
  import opened Wrappers
  import opened CharClass
  import opened Tokens
  import opened Classifier

  /** A finished lexeme, classified by getType. */
  function Emit(lexeme: string, file: string, lineNum: int): Token {
    Token(lexeme, file, lineNum, GetType(lexeme))
  }

  /** The "if (sb.length() > 0) emit sb" step. */
  function Flush(pending: string, file: string, lineNum: int): seq<Token> {
    if |pending| > 0 then [Emit(pending, file, lineNum)] else []
  }

  /** Tokens emitted now, in front of whatever the rest of the line yields. */
  function Prepend(ts: seq<Token>, rest: Option<seq<Token>>): Option<seq<Token>> {
    match rest
    case None => None
    case Some(more) => Some(ts + more)
  }

  /** The identifier loop at line 83: starting on the letter at `i`, advance
      while the next character is a letter or digit; the result is the index
      of the last character of the run. */
  function IdentRunEnd(line: string, i: nat): (e: nat)
    requires i < |line|
    ensures i <= e < |line|
    ensures forall k :: i < k <= e ==> IsLetterOrDigit(line[k])
    decreases |line| - i
  {
    if i + 1 < |line| && IsLetterOrDigit(line[i + 1]) && line[i] != ' ' then
      IdentRunEnd(line, i + 1)
    else
      i
  }

  /** The string-literal loop at line 123: from `j`, advance to the first
      double quote, or to the end of the line if there is none. */
  function CloseQuote(line: string, j: nat): (k: nat)
    requires j <= |line|
    ensures j <= k <= |line|
    ensures forall m :: j <= m < k ==> line[m] != '"'
    ensures k < |line| ==> line[k] == '"'
    decreases |line| - j
  {
    if j < |line| && line[j] != '"' then CloseQuote(line, j + 1) else j
  }

  /** A token as the scanner builds it: classified by getType, except the
      `::` token, which is typed FC_HEADER outright and whose lexeme is the
      pending buffer followed by `::`. */
  predicate WellTyped(t: Token) {
    t.ty == GetType(t.lexeme)
    || (t.ty == Some(FcHeader) && |t.lexeme| >= 2 && t.lexeme[|t.lexeme| - 2..] == "::")
  }

  /** Every token carries the file and line it was scanned from, has a
      non-empty lexeme and is well typed. */
  predicate LocatedOn(ts: seq<Token>, file: string, lineNum: int) {
    forall t :: t in ts ==>
      t.file == file && t.line == lineNum && |t.lexeme| > 0 && WellTyped(t)
  }

  /** What one turn of the `for` loop does: stop the loop (a comment), fail
      (`return null`), or emit some tokens and carry on at index `next` with
      `pending` in the buffer. */
  datatype Step =
    | Stop
    | Fail
    | Go(emitted: seq<Token>, next: nat, pending: string)

  /** One turn of the loop of getTokenize at index `i` with `pending` in the
      buffer.  Each branch is one arm of the if/else cascade of lines 65-158. */
  function StepAt(line: string, file: string, lineNum: int, i: nat, pending: string): (s: Step)
    requires i < |line|
    ensures s.Go? ==> i < s.next <= |line| + 1
    ensures s.Go? && line[i] != '"' ==> s.next <= |line|
  {
    var c := line[i];
    if c == '#' then
      Stop
    else if IsWhitespace(c) then
      Go(Flush(pending, file, lineNum), i + 1, [])
    else if IsDigit(c) then
      Go([], i + 1, pending + [c])
    else if IsLetter(c) then
      var e := IdentRunEnd(line, i);
      Go([Emit(pending + line[i..e + 1], file, lineNum)], e + 1, [])
    else if c == '.' then
      if (i + 1 < |line| && IsDigit(line[i + 1])) || (i - 1 > 0 && IsDigit(line[i - 1])) then
        Go([], i + 1, pending + [c])
      else
        Fail
    else if IsOperatorStart(c) then
      if i + 1 < |line| && line[i + 1] == '=' then
        Go([Emit(pending + [c, '='], file, lineNum)], i + 2, [])
      else if c == '!' then
        Fail
      else
        Go([Emit(pending + [c], file, lineNum)], i + 1, [])
    else if c == '"' then
      var k := CloseQuote(line, i + 1);
      if k < |line| then
        // the closing quote is consumed by `i++`, and the loop adds one more
        Go([Emit(pending + line[i..k + 1], file, lineNum)], k + 2, [])
      else
        Fail
    else if c == ':' then
      if i + 1 < |line| && line[i + 1] == ':' then
        Go([Token(pending + "::", file, lineNum, Some(FcHeader))], i + 2, [])
      else
        // a lone colon leaves the pending buffer where it is
        Go([Emit(":", file, lineNum)], i + 1, pending)
    else
      Go(Flush(pending, file, lineNum)
         + (if !IsWhitespace(c) then [Emit([c], file, lineNum)] else []),
         i + 1, [])
  }

  /** The `for` loop of getTokenize from index `i` with `pending` in the
      buffer, followed by the final flush of lines 161-163. */
  function Scan(line: string, file: string, lineNum: int, i: nat, pending: string)
    : Option<seq<Token>>
    decreases |line| - i
  {
    if i >= |line| then
      Some(Flush(pending, file, lineNum))
    else
      match StepAt(line, file, lineNum, i, pending)
      case Stop => Some(Flush(pending, file, lineNum))
      case Fail => None
      case Go(emitted, next, pending') =>
        Prepend(emitted, Scan(line, file, lineNum, next, pending'))
  }

  lemma FlushLocated(pending: string, file: string, lineNum: int)
    ensures LocatedOn(Flush(pending, file, lineNum), file, lineNum)
  {
  }

  /** Every token one turn emits is located on the line and well typed. */
  lemma StepLocated(line: string, file: string, lineNum: int, i: nat, pending: string)
    requires i < |line|
    ensures var s := StepAt(line, file, lineNum, i, pending);
            s.Go? ==> LocatedOn(s.emitted, file, lineNum)
  {
    var c := line[i];
    if c == ':' && i + 1 < |line| && line[i + 1] == ':' {
      var w := pending + "::";
      assert w[|w| - 2..] == "::";
      assert StepAt(line, file, lineNum, i, pending).emitted == [Token(w, file, lineNum, Some(FcHeader))];
    } else {
      FlushLocated(pending, file, lineNum);
    }
  }

  lemma {:induction false} ScanLocated(line: string, file: string, lineNum: int, i: nat, pending: string)
    ensures var r := Scan(line, file, lineNum, i, pending);
            r.Some? ==> LocatedOn(r.value, file, lineNum)
    decreases |line| - i
  {
    FlushLocated(pending, file, lineNum);
    if i < |line| {
      var s := StepAt(line, file, lineNum, i, pending);
      if s.Go? {
        StepLocated(line, file, lineNum, i, pending);
        ScanLocated(line, file, lineNum, s.next, s.pending);
      }
    }
  }

  /** getTokenize: scan the whole line with an empty buffer. */
  function ScanLine(line: string, file: string, lineNum: int): (r: Option<seq<Token>>)
    ensures r.Some? ==> LocatedOn(r.value, file, lineNum)
  {
    ScanLocated(line, file, lineNum, 0, []);
    Scan(line, file, lineNum, 0, [])
  }
}
