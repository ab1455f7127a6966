/** Properties of the line scanner: how each kind of lexeme is cut out of the
    line, where the scan stops, when it fails, and what the tokens are made of. */
module ScannerFacts {
  import opened Wrappers
  import opened CharClass
  import opened Tokens
  import opened Classifier
  import opened Scanner

  /** A turn that carries on: the scan from `i` is what the turn emits in
      front of the scan from where the turn resumes. */
  lemma ScanTurn(line: string, file: string, lineNum: int, i: nat, pending: string,
                 emitted: seq<Token>, next: nat, pending': string)
    requires i < |line|
    requires StepAt(line, file, lineNum, i, pending) == Go(emitted, next, pending')
    ensures Scan(line, file, lineNum, i, pending)
            == Prepend(emitted, Scan(line, file, lineNum, next, pending'))
  {
  }

  /** A turn that emits `emitted` and carries on contributes exactly those
      tokens in front of what the rest of the line yields. */
  lemma ScanGo(line: string, file: string, lineNum: int, i: nat, pending: string,
               emitted: seq<Token>, next: nat, pending': string, rest: seq<Token>)
    requires i < |line|
    requires StepAt(line, file, lineNum, i, pending) == Go(emitted, next, pending')
    requires Scan(line, file, lineNum, next, pending') == Some(rest)
    ensures Scan(line, file, lineNum, i, pending) == Some(emitted + rest)
  {
  }

  // ---------------------------------------------------------------------------
  // Identifiers and numbers
  // ---------------------------------------------------------------------------

  /** `line[i..e]` is a maximal run of letters and digits. */
  ghost predicate MaximalRun(line: string, i: nat, e: nat) {
    && i < e <= |line|
    && (forall k :: i <= k < e ==> IsLetterOrDigit(line[k]))
    && (e == |line| || !IsLetterOrDigit(line[e]))
  }

  /** The identifier loop stops exactly at the end of the maximal run: its
      extra guard `line[i] != ' '` never fires inside a run. */
  lemma {:induction false} IdentRunEndIsMaximal(line: string, i: nat)
    requires i < |line| && IsLetterOrDigit(line[i])
    ensures MaximalRun(line, i, IdentRunEnd(line, i) + 1)
    decreases |line| - i
  {
    if i + 1 < |line| && IsLetterOrDigit(line[i + 1]) {
      IdentRunEndIsMaximal(line, i + 1);
    }
  }

  lemma MaximalRunUnique(line: string, i: nat, e1: nat, e2: nat)
    requires MaximalRun(line, i, e1) && MaximalRun(line, i, e2)
    ensures e1 == e2
  {
  }

  /** A letter starts the maximal letter/digit run, which is emitted at once
      as one token together with whatever was pending; scanning resumes after
      the run with an empty buffer. */
  lemma LetterRunIsOneToken(line: string, file: string, lineNum: int, i: nat, pending: string, e: nat)
    requires i < |line| && IsLetter(line[i])
    requires MaximalRun(line, i, e)
    ensures Scan(line, file, lineNum, i, pending)
            == Prepend([Emit(pending + line[i..e], file, lineNum)], Scan(line, file, lineNum, e, []))
  {
    IdentRunEndIsMaximal(line, i);
    MaximalRunUnique(line, i, e, IdentRunEnd(line, i) + 1);
    ScanTurn(line, file, lineNum, i, pending, [Emit(pending + line[i..e], file, lineNum)], e, []);
  }

  /** The scanner's letter arm. */
  lemma StepAtLetter(line: string, file: string, lineNum: int, i: nat, pending: string)
    requires i < |line| && IsLetter(line[i])
    ensures var e := IdentRunEnd(line, i);
            StepAt(line, file, lineNum, i, pending)
            == Go([Emit(pending + line[i..e + 1], file, lineNum)], e + 1, [])
  {
    assert !IsWhitespace(line[i]) && !IsDigit(line[i]) && line[i] != '#';
  }

  /** A digit emits nothing and joins the pending buffer. */
  lemma DigitTurn(line: string, file: string, lineNum: int, i: nat, pending: string)
    requires i < |line| && IsDigit(line[i])
    ensures Scan(line, file, lineNum, i, pending) == Scan(line, file, lineNum, i + 1, pending + [line[i]])
  {
    var r := Scan(line, file, lineNum, i + 1, pending + [line[i]]);
    assert StepAt(line, file, lineNum, i, pending) == Go([], i + 1, pending + [line[i]]);
    if r.Some? {
      assert [] + r.value == r.value;
    }
  }

  /** Digits only accumulate: scanning a run of digits emits nothing and
      moves the run into the pending buffer. */
  lemma {:induction false} DigitsAccumulate(line: string, file: string, lineNum: int, i: nat, j: nat, pending: string)
    requires i <= j <= |line|
    requires forall k :: i <= k < j ==> IsDigit(line[k])
    ensures Scan(line, file, lineNum, i, pending) == Scan(line, file, lineNum, j, pending + line[i..j])
    decreases j - i
  {
    if i < j {
      var moved := pending + [line[i]];
      assert moved + line[i + 1..j] == pending + line[i..j];
      calc {
        Scan(line, file, lineNum, i, pending);
      == { DigitTurn(line, file, lineNum, i, pending); }
        Scan(line, file, lineNum, i + 1, moved);
      == { DigitsAccumulate(line, file, lineNum, i + 1, j, moved); }
        Scan(line, file, lineNum, j, pending + line[i..j]);
      }
    } else {
      assert pending + line[i..j] == pending;
    }
  }

  /** The `.` arm accepts a point with a digit right after it, or with a
      digit at `i - 1` when `i - 1 > 0`. */
  predicate AcceptedDot(line: string, i: nat)
    requires i < |line|
  {
    line[i] == '.' && ((i + 1 < |line| && IsDigit(line[i + 1])) || (i - 1 > 0 && IsDigit(line[i - 1])))
  }

  /** An accepted point, like a digit, emits nothing and joins the pending
      buffer: the buffer is not flushed. */
  lemma DotTurn(line: string, file: string, lineNum: int, i: nat, pending: string)
    requires i < |line| && AcceptedDot(line, i)
    ensures Scan(line, file, lineNum, i, pending) == Scan(line, file, lineNum, i + 1, pending + [line[i]])
  {
    var r := Scan(line, file, lineNum, i + 1, pending + [line[i]]);
    assert StepAt(line, file, lineNum, i, pending) == Go([], i + 1, pending + [line[i]]);
    if r.Some? {
      assert [] + r.value == r.value;
    }
  }

  /** Digits and accepted points only accumulate: scanning a run of them
      emits nothing and moves the whole run into the pending buffer, so a
      number such as `3.14` reaches getType in one piece. */
  lemma {:induction false} NumberCharsAccumulate(line: string, file: string, lineNum: int, i: nat, j: nat, pending: string)
    requires i <= j <= |line|
    requires forall k :: i <= k < j ==> IsDigit(line[k]) || AcceptedDot(line, k)
    ensures Scan(line, file, lineNum, i, pending) == Scan(line, file, lineNum, j, pending + line[i..j])
    decreases j - i
  {
    if i < j {
      var moved := pending + [line[i]];
      assert moved + line[i + 1..j] == pending + line[i..j];
      calc {
        Scan(line, file, lineNum, i, pending);
      == { if IsDigit(line[i]) { DigitTurn(line, file, lineNum, i, pending); }
           else { DotTurn(line, file, lineNum, i, pending); } }
        Scan(line, file, lineNum, i + 1, moved);
      == { NumberCharsAccumulate(line, file, lineNum, i + 1, j, moved); }
        Scan(line, file, lineNum, j, pending + line[i..j]);
      }
    } else {
      assert pending + line[i..j] == pending;
    }
  }

  /** Pending digits become the prefix of a following identifier: digits
      `line[i..j]` followed by a letter run ending at `e` make a single token
      together with whatever was pending before them. */
  lemma DigitsPrefixIdentifier(line: string, file: string, lineNum: int, i: nat, j: nat, e: nat, pending: string)
    requires i <= j < |line|
    requires forall k :: i <= k < j ==> IsDigit(line[k])
    requires IsLetter(line[j]) && MaximalRun(line, j, e)
    ensures Scan(line, file, lineNum, i, pending)
            == Prepend([Emit(pending + line[i..e], file, lineNum)], Scan(line, file, lineNum, e, []))
  {
    DigitsAccumulate(line, file, lineNum, i, j, pending);
    LetterRunIsOneToken(line, file, lineNum, j, pending + line[i..j], e);
    assert pending + line[i..j] + line[j..e] == pending + line[i..e];
  }

  // ---------------------------------------------------------------------------
  // Operators, colons and string literals
  // ---------------------------------------------------------------------------

  /** An operator followed by `=` is read as a pair that does not flush the
      pending buffer: the buffer and both characters become one lexeme,
      emitted at once, and scanning resumes after the `=` with an empty
      buffer. */
  lemma OperatorPairTakesPending(line: string, file: string, lineNum: int, i: nat, pending: string)
    requires i + 1 < |line| && IsOperatorStart(line[i]) && line[i + 1] == '='
    ensures Scan(line, file, lineNum, i, pending)
            == Prepend([Emit(pending + line[i..i + 2], file, lineNum)],
                       Scan(line, file, lineNum, i + 2, []))
  {
    assert pending + [line[i], '='] == pending + line[i..i + 2];
    ScanTurn(line, file, lineNum, i, pending, [Emit(pending + line[i..i + 2], file, lineNum)], i + 2, []);
  }

  /** With nothing pending, `<=`, `>=`, `==` and `!=` are one two-character
      REL_OP token. */
  lemma OperatorPairIsOneToken(line: string, file: string, lineNum: int, i: nat)
    requires i + 1 < |line| && IsOperatorStart(line[i]) && line[i + 1] == '='
    ensures Scan(line, file, lineNum, i, [])
            == Prepend([Token(line[i..i + 2], file, lineNum, Some(RelOp))],
                       Scan(line, file, lineNum, i + 2, []))
  {
    var w := line[i..i + 2];
    OperatorPairTakesPending(line, file, lineNum, i, []);
    assert [] + w == w;
    assert GetType(w) == Some(RelOp) by {
      GetTypeFixed(w);
    }
  }

  /** Pending digits followed by an operator pair make one lexeme that
      getType cannot classify: `5<=` is a single untyped token. */
  lemma OperatorPairJoinsPendingDigits(line: string, file: string, lineNum: int, i: nat, pending: string)
    requires i + 1 < |line| && IsOperatorStart(line[i]) && line[i + 1] == '='
    requires |pending| > 0 && AllDigits(pending)
    ensures Scan(line, file, lineNum, i, pending)
            == Prepend([Token(pending + line[i..i + 2], file, lineNum, None)],
                       Scan(line, file, lineNum, i + 2, []))
  {
    OperatorPairTakesPending(line, file, lineNum, i, pending);
    DigitsThenOperatorUntyped(pending, line[i..i + 2]);
  }

  /** Digits followed by operator characters are not a number, a string, an
      identifier or a switch label. */
  lemma DigitsThenOperatorUntyped(digits: string, op: string)
    requires |digits| > 0 && AllDigits(digits)
    requires |op| > 0 && forall k :: 0 <= k < |op| ==> IsOperatorStart(op[k]) || op[k] == '='
    ensures GetType(digits + op) == None
  {
    var w := digits + op;
    assert w[|w| - 1] == op[|op| - 1];
    assert w[0] == digits[0];
    GetTypePatterns(w);
    assert !NumberShape(w);
    assert !QuotedShape(w) && !IdentifierShape(w);
    assert SwitchType(w).None? by {
      assert |w| >= 2 && IsDigit(w[0]);
    }
  }

  /** `<`, `>` and `=` not followed by `=` are single-character tokens;
      a `!` not followed by `=` fails the line. */
  lemma SingleOperator(line: string, file: string, lineNum: int, i: nat)
    requires i < |line| && IsOperatorStart(line[i])
    requires !(i + 1 < |line| && line[i + 1] == '=')
    ensures line[i] == '!' ==> Scan(line, file, lineNum, i, []) == None
    ensures line[i] != '!' ==>
              Scan(line, file, lineNum, i, [])
              == Prepend([Token([line[i]], file, lineNum,
                                Some(if line[i] == '=' then Assign else RelOp))],
                         Scan(line, file, lineNum, i + 1, []))
  {
    var c := line[i];
    if c != '!' {
      var t := Token([c], file, lineNum, Some(if c == '=' then Assign else RelOp));
      assert StepAt(line, file, lineNum, i, []) == Go([t], i + 1, []) by {
        assert [] + [c] == [c];
        assert GetType([c]) == t.ty by {
          SwitchTypeSingle(c);
        }
      }
      ScanTurn(line, file, lineNum, i, [], [t], i + 1, []);
    }
  }

  lemma SwitchTypeSingle(c: char)
    requires c == '<' || c == '>' || c == '='
    ensures GetType([c]) == Some(if c == '=' then Assign else RelOp)
  {
    assert !IsDigit(c) && !IsIdStart(c) && [c][0] == c;
  }

  /** An operator does not flush the pending buffer: the buffer and the
      operator become one lexeme, which getType cannot classify when the
      buffer holds digits. */
  lemma OperatorJoinsPendingDigits(line: string, file: string, lineNum: int, i: nat, pending: string)
    requires i < |line| && IsOperatorStart(line[i]) && line[i] != '!'
    requires !(i + 1 < |line| && line[i + 1] == '=')
    requires |pending| > 0 && AllDigits(pending)
    ensures Scan(line, file, lineNum, i, pending)
            == Prepend([Token(pending + [line[i]], file, lineNum, None)],
                       Scan(line, file, lineNum, i + 1, []))
  {
    var w := pending + [line[i]];
    DigitsThenOperatorUntyped(pending, [line[i]]);
    ScanTurn(line, file, lineNum, i, pending, [Token(w, file, lineNum, None)], i + 1, []);
  }

  /** `::` does not flush the pending buffer either: the buffer and `::`
      become one token typed FC_HEADER outright, and scanning resumes after
      the second colon with an empty buffer. */
  lemma DoubleColonTakesPending(line: string, file: string, lineNum: int, i: nat, pending: string)
    requires i + 1 < |line| && line[i] == ':' && line[i + 1] == ':'
    ensures Scan(line, file, lineNum, i, pending)
            == Prepend([Token(pending + "::", file, lineNum, Some(FcHeader))],
                       Scan(line, file, lineNum, i + 2, []))
  {
    ScanTurn(line, file, lineNum, i, pending, [Token(pending + "::", file, lineNum, Some(FcHeader))], i + 2, []);
  }

  /** With nothing pending, `::` is the FC_HEADER token `::`. */
  lemma DoubleColonIsFcHeader(line: string, file: string, lineNum: int, i: nat)
    requires i + 1 < |line| && line[i] == ':' && line[i + 1] == ':'
    ensures Scan(line, file, lineNum, i, [])
            == Prepend([Token("::", file, lineNum, Some(FcHeader))],
                       Scan(line, file, lineNum, i + 2, []))
  {
    DoubleColonTakesPending(line, file, lineNum, i, []);
    assert [] + "::" == "::";
  }

  /** A lone `:` is a COLON token emitted ahead of the pending buffer, which
      stays pending and goes on growing after the colon. */
  lemma LoneColonKeepsPending(line: string, file: string, lineNum: int, i: nat, pending: string)
    requires i < |line| && line[i] == ':' && !(i + 1 < |line| && line[i + 1] == ':')
    ensures Scan(line, file, lineNum, i, pending)
            == Prepend([Token(":", file, lineNum, Some(Colon))],
                       Scan(line, file, lineNum, i + 1, pending))
  {
    assert GetType(":") == Some(Colon);
    ScanTurn(line, file, lineNum, i, pending, [Token(":", file, lineNum, Some(Colon))], i + 1, pending);
  }

  /** The string loop stops on the first double quote at or after `j`. */
  lemma {:induction false} CloseQuoteFindsFirst(line: string, j: nat, k: nat)
    requires j <= k < |line| && line[k] == '"'
    requires forall m :: j <= m < k ==> line[m] != '"'
    ensures CloseQuote(line, j) == k
    decreases k - j
  {
    if j < k {
      CloseQuoteFindsFirst(line, j + 1, k);
    }
  }

  /** The scanner's `"` arm. */
  lemma StepAtQuote(line: string, file: string, lineNum: int, i: nat, pending: string)
    requires i < |line| && line[i] == '"'
    ensures var k := CloseQuote(line, i + 1);
            StepAt(line, file, lineNum, i, pending)
            == if k < |line|
               then Go([Emit(pending + line[i..k + 1], file, lineNum)], k + 2, [])
               else Fail
  {
    assert !IsWhitespace(line[i]) && !IsDigit(line[i]) && !IsLetter(line[i]) && !IsOperatorStart(line[i]);
  }

  lemma LiteralIsString(line: string, i: nat, k: nat)
    requires i < k < |line| && line[i] == '"' && line[k] == '"'
    requires forall m :: i < m < k ==> line[m] != '"'
    ensures GetType(line[i..k + 1]) == Some(StringLit)
  {
    var w := line[i..k + 1];
    assert forall m :: 0 < m < |w| - 1 ==> w[m] == line[i + m];
    QuotedIsString(w);
  }

  /** A double quote opens a string literal that runs to the next double
      quote on the line: the token holds both quotes and the characters
      between them verbatim and is typed STRING; scanning resumes two places
      after the closing quote. */
  lemma StringLiteralToken(line: string, file: string, lineNum: int, i: nat, k: nat)
    requires i < k < |line| && line[i] == '"' && line[k] == '"'
    requires forall m :: i < m < k ==> line[m] != '"'
    ensures Scan(line, file, lineNum, i, [])
            == Prepend([Token(line[i..k + 1], file, lineNum, Some(StringLit))],
                       Scan(line, file, lineNum, k + 2, []))
  {
    StepAtLiteral(line, file, lineNum, i, k);
    ScanTurn(line, file, lineNum, i, [], [Token(line[i..k + 1], file, lineNum, Some(StringLit))], k + 2, []);
  }

  /** A `"` does not flush the pending buffer: the buffer and the literal,
      up to its first closing quote, become one lexeme, and scanning resumes
      two places after the closing quote with an empty buffer. */
  lemma QuoteTakesPending(line: string, file: string, lineNum: int, i: nat, k: nat, pending: string)
    requires i < k < |line| && line[i] == '"' && line[k] == '"'
    requires forall m :: i < m < k ==> line[m] != '"'
    ensures Scan(line, file, lineNum, i, pending)
            == Prepend([Emit(pending + line[i..k + 1], file, lineNum)],
                       Scan(line, file, lineNum, k + 2, []))
  {
    var t := Emit(pending + line[i..k + 1], file, lineNum);
    assert StepAt(line, file, lineNum, i, pending) == Go([t], k + 2, []) by {
      StepAtClosedQuote(line, file, lineNum, i, pending, k);
    }
    ScanTurn(line, file, lineNum, i, pending, [t], k + 2, []);
  }

  lemma StepAtLiteral(line: string, file: string, lineNum: int, i: nat, k: nat)
    requires i < k < |line| && line[i] == '"' && line[k] == '"'
    requires forall m :: i < m < k ==> line[m] != '"'
    ensures StepAt(line, file, lineNum, i, [])
            == Go([Token(line[i..k + 1], file, lineNum, Some(StringLit))], k + 2, [])
  {
    var w := line[i..k + 1];
    StepAtClosedQuote(line, file, lineNum, i, [], k);
    assert [] + w == w;
    LiteralIsString(line, i, k);
  }

  lemma StepAtClosedQuote(line: string, file: string, lineNum: int, i: nat, pending: string, k: nat)
    requires i < k < |line| && line[i] == '"' && line[k] == '"'
    requires forall m :: i < m < k ==> line[m] != '"'
    ensures StepAt(line, file, lineNum, i, pending)
            == Go([Emit(pending + line[i..k + 1], file, lineNum)], k + 2, [])
  {
    CloseQuoteFindsFirst(line, i + 1, k);
    StepAtQuote(line, file, lineNum, i, pending);
  }

  lemma UnterminatedString(line: string, file: string, lineNum: int, i: nat, pending: string)
    requires i < |line| && line[i] == '"'
    requires forall m :: i < m < |line| ==> line[m] != '"'
    ensures Scan(line, file, lineNum, i, pending) == None
  {
    assert CloseQuote(line, i + 1) == |line|;
    StepAtQuote(line, file, lineNum, i, pending);
  }

  // ---------------------------------------------------------------------------
  // Failure
  // ---------------------------------------------------------------------------

  /** The three places getTokenize returns null: a `!` not followed by `=`,
      a `"` with no later `"` on the line, and a `.` with no digit after it
      and no digit at `i - 1` where `i - 1 > 0`. */
  predicate Hazard(line: string, i: nat)
    requires i < |line|
  {
    || (line[i] == '!' && !(i + 1 < |line| && line[i + 1] == '='))
    || (line[i] == '"' && forall m :: i < m < |line| ==> line[m] != '"')
    || (line[i] == '.' && !AcceptedDot(line, i))
  }

  /** A turn fails exactly on a hazard. */
  lemma StepFailsAtHazard(line: string, file: string, lineNum: int, i: nat, pending: string)
    requires i < |line|
    ensures StepAt(line, file, lineNum, i, pending).Fail? <==> Hazard(line, i)
  {
    if line[i] == '"' {
      StepAtQuote(line, file, lineNum, i, pending);
      if forall m :: i < m < |line| ==> line[m] != '"' {
        UnterminatedString(line, file, lineNum, i, pending);
      }
    }
  }

  lemma {:induction false} ScanFailsOnlyAtHazard(line: string, file: string, lineNum: int, i: nat, pending: string)
    requires Scan(line, file, lineNum, i, pending) == None
    ensures exists j :: i <= j < |line| && Hazard(line, j)
    decreases |line| - i
  {
    var st := StepAt(line, file, lineNum, i, pending);
    StepFailsAtHazard(line, file, lineNum, i, pending);
    if st.Go? {
      ScanFailsOnlyAtHazard(line, file, lineNum, st.next, st.pending);
    }
  }

  /** A line fails only if it holds one of the three hazards; in particular
      a line with no `!`, `"` or `.` always scans. */
  lemma LineFailsOnlyAtHazard(line: string, file: string, lineNum: int)
    ensures ScanLine(line, file, lineNum) == None ==> exists j :: 0 <= j < |line| && Hazard(line, j)
  {
    if ScanLine(line, file, lineNum) == None {
      ScanFailsOnlyAtHazard(line, file, lineNum, 0, []);
    }
  }

  // ---------------------------------------------------------------------------
  // Comments
  // ---------------------------------------------------------------------------

  /** The identifier loop cannot run past a character that is neither a
      letter nor a digit, so it ends at the same place in a longer line. */
  lemma {:induction false} IdentRunEndInPrefix(pre: string, ext: string, i: nat)
    requires i < |pre| <= |ext| && ext[..|pre|] == pre
    requires |pre| < |ext| ==> !IsLetterOrDigit(ext[|pre|])
    ensures IdentRunEnd(ext, i) == IdentRunEnd(pre, i)
    decreases |pre| - i
  {
    assert ext[i] == pre[i];
    if i + 1 < |pre| {
      assert ext[i + 1] == pre[i + 1];
      IdentRunEndInPrefix(pre, ext, i + 1);
    }
  }

  /** Below the `#`, a turn of the loop sees the same thing in the longer
      line as in the line cut at the `#`. */
  lemma StepBeforeComment(pre: string, post: string, file: string, lineNum: int, i: nat, pending: string)
    requires forall k :: 0 <= k < |pre| ==> pre[k] != '"'
    requires i < |pre|
    ensures StepAt(pre + ['#'] + post, file, lineNum, i, pending) == StepAt(pre, file, lineNum, i, pending)
  {
    var line := pre + ['#'] + post;
    assert line[..|pre|] == pre;
    assert line[|pre|] == '#';
    var c := pre[i];
    assert line[i] == c;
    assert i + 1 < |pre| ==> line[i + 1] == pre[i + 1];
    assert i - 1 > 0 ==> line[i - 1] == pre[i - 1];
    if IsLetter(c) {
      IdentRunEndInPrefix(pre, line, i);
      var e := IdentRunEnd(pre, i);
      assert line[i..e + 1] == pre[i..e + 1];
    }
  }

  lemma {:induction false} CommentCutsScan(pre: string, post: string, file: string, lineNum: int, i: nat, pending: string)
    requires forall k :: 0 <= k < |pre| ==> pre[k] != '"'
    requires i <= |pre|
    ensures Scan(pre + ['#'] + post, file, lineNum, i, pending) == Scan(pre, file, lineNum, i, pending)
    decreases |pre| - i
  {
    var line := pre + ['#'] + post;
    if i == |pre| {
      assert line[i] == '#';
    } else {
      StepBeforeComment(pre, post, file, lineNum, i, pending);
      var st := StepAt(pre, file, lineNum, i, pending);
      if st.Go? {
        CommentCutsScan(pre, post, file, lineNum, st.next, st.pending);
      }
    }
  }

  /** On a line without string literals, a `#` ends the line: what follows it
      contributes nothing, and what precedes it scans as if the line ended
      there, a pending buffer included. */
  lemma CommentEndsLine(pre: string, post: string, file: string, lineNum: int)
    requires forall k :: 0 <= k < |pre| ==> pre[k] != '"'
    ensures ScanLine(pre + ['#'] + post, file, lineNum) == ScanLine(pre, file, lineNum)
  {
    CommentCutsScan(pre, post, file, lineNum, 0, []);
  }
}
