/** Whole-line properties of the scanner, each stated against a definition
    that does not mention the scanner: a word splitter for lines of plain
    characters, the multiset of the line's characters, and the part of the
    line a scan from a given index can see. */
module LineShape {
  import opened Wrappers
  import opened CharClass
  import opened Tokens
  import opened Classifier
  import opened Scanner
  import opened ScannerFacts

  // ---------------------------------------------------------------------------
  // Lines of letters, digits, blanks and single-character punctuation
  // ---------------------------------------------------------------------------

  /** A character that falls through to the last arm of the cascade and is
      emitted on its own, such as `;`, `,`, `+`, `(` or `_`. */
  predicate IsSingle(c: char) {
    !(c == '#' || IsWhitespace(c) || IsLetterOrDigit(c) || c == '.'
      || IsOperatorStart(c) || c == '"' || c == ':')
  }

  predicate IsPlain(c: char) {
    IsWhitespace(c) || IsLetterOrDigit(c) || IsSingle(c)
  }

  function Pending(word: string): seq<string> {
    if word == [] then [] else [word]
  }

  /** Word splitting with `word` the part of the current word read so far:
      blanks end a word, a single character ends a word and is a word of its
      own, letters and digits extend the current word. */
  function Segment(word: string, s: string): seq<string>
    decreases |s|
  {
    if s == [] then Pending(word)
    else if IsWhitespace(s[0]) then Pending(word) + Segment([], s[1..])
    else if IsSingle(s[0]) then Pending(word) + [[s[0]]] + Segment([], s[1..])
    else Segment(word + [s[0]], s[1..])
  }

  function Words(s: string): seq<string> {
    Segment([], s)
  }

  /** The words, each classified as a token of the given file and line. */
  function Stamp(words: seq<string>, file: string, lineNum: int): seq<Token> {
    seq(|words|, k requires 0 <= k < |words| => Emit(words[k], file, lineNum))
  }

  lemma StampAppend(a: seq<string>, b: seq<string>, file: string, lineNum: int)
    ensures Stamp(a + b, file, lineNum) == Stamp(a, file, lineNum) + Stamp(b, file, lineNum)
  {
  }

  lemma FlushIsStamp(pending: string, file: string, lineNum: int)
    ensures Flush(pending, file, lineNum) == Stamp(Pending(pending), file, lineNum)
  {
    if pending != [] {
      assert Stamp([pending], file, lineNum) == [Emit(pending, file, lineNum)];
    } else {
      assert Stamp([], file, lineNum) == [];
    }
  }

  /** Letters and digits extend the current word. */
  lemma {:induction false} SegmentAbsorbs(word: string, s: string, k: nat)
    requires k <= |s|
    requires forall j :: 0 <= j < k ==> IsLetterOrDigit(s[j])
    ensures Segment(word, s) == Segment(word + s[..k], s[k..])
    decreases k
  {
    if k > 0 {
      assert IsLetterOrDigit(s[0]);
      SegmentAbsorbs(word + [s[0]], s[1..], k - 1);
      assert word + [s[0]] + s[1..][..k - 1] == word + s[..k];
      assert s[1..][k - 1..] == s[k..];
    } else {
      assert word + s[..0] == word;
    }
  }

  /** The end of the line, a blank or a single character ends the word. */
  lemma SegmentBreak(word: string, s: string)
    requires s == [] || IsWhitespace(s[0]) || IsSingle(s[0])
    ensures Segment(word, s) == Pending(word) + Segment([], s)
  {
  }

  /** A line all of whose characters are plain. */
  ghost predicate AllPlain(line: string) {
    forall k :: 0 <= k < |line| ==> IsPlain(line[k])
  }

  /** What a scan of a plain line from `i` should yield. */
  function Expected(line: string, file: string, lineNum: int, i: nat, pending: string): seq<Token>
    requires i <= |line|
  {
    Stamp(Segment(pending, line[i..]), file, lineNum)
  }

  lemma PlainBlankTurn(line: string, file: string, lineNum: int, i: nat, pending: string)
    requires i < |line| && IsWhitespace(line[i])
    requires Scan(line, file, lineNum, i + 1, []) == Some(Expected(line, file, lineNum, i + 1, []))
    ensures Scan(line, file, lineNum, i, pending) == Some(Expected(line, file, lineNum, i, pending))
  {
    var s := line[i..];
    assert s[0] == line[i] && s[1..] == line[i + 1..];
    StampAppend(Pending(pending), Segment([], s[1..]), file, lineNum);
    FlushIsStamp(pending, file, lineNum);
    ScanGo(line, file, lineNum, i, pending, Flush(pending, file, lineNum), i + 1, [],
           Expected(line, file, lineNum, i + 1, []));
  }

  lemma PlainDigitTurn(line: string, file: string, lineNum: int, i: nat, pending: string)
    requires i < |line| && IsDigit(line[i])
    requires Scan(line, file, lineNum, i + 1, pending + [line[i]])
             == Some(Expected(line, file, lineNum, i + 1, pending + [line[i]]))
    ensures Scan(line, file, lineNum, i, pending) == Some(Expected(line, file, lineNum, i, pending))
  {
    var s := line[i..];
    assert s[0] == line[i] && s[1..] == line[i + 1..];
    var rest := Expected(line, file, lineNum, i + 1, pending + [line[i]]);
    assert [] + rest == rest;
    ScanGo(line, file, lineNum, i, pending, [], i + 1, pending + [line[i]], rest);
  }

  lemma PlainLetterTurn(line: string, file: string, lineNum: int, i: nat, pending: string)
    requires AllPlain(line)
    requires i < |line| && IsLetter(line[i])
    requires var e := IdentRunEnd(line, i) + 1;
             Scan(line, file, lineNum, e, []) == Some(Expected(line, file, lineNum, e, []))
    ensures Scan(line, file, lineNum, i, pending) == Some(Expected(line, file, lineNum, i, pending))
  {
    var e := IdentRunEnd(line, i) + 1;
    var w := pending + line[i..e];
    PlainLetterSegment(line, i, pending);
    StampAppend([w], Segment([], line[e..]), file, lineNum);
    assert Stamp([w], file, lineNum) == [Emit(w, file, lineNum)];
    StepAtLetter(line, file, lineNum, i, pending);
    ScanGo(line, file, lineNum, i, pending, [Emit(w, file, lineNum)], e, [],
           Expected(line, file, lineNum, e, []));
  }

  /** A letter run is one word. */
  lemma PlainLetterSegment(line: string, i: nat, pending: string)
    requires AllPlain(line)
    requires i < |line| && IsLetter(line[i])
    ensures var e := IdentRunEnd(line, i) + 1;
            Segment(pending, line[i..]) == [pending + line[i..e]] + Segment([], line[e..])
  {
    var s := line[i..];
    IdentRunEndIsMaximal(line, i);
    var e := IdentRunEnd(line, i) + 1;
    var w := pending + line[i..e];
    assert Segment(pending, s) == Segment(w, line[e..]) by {
      assert forall j :: 0 <= j < e - i ==> s[j] == line[i + j];
      SegmentAbsorbs(pending, s, e - i);
      assert s[..e - i] == line[i..e];
      assert s[e - i..] == line[e..];
    }
    assert Segment(w, line[e..]) == [w] + Segment([], line[e..]) by {
      assert e < |line| ==> line[e..][0] == line[e] && IsPlain(line[e]);
      SegmentBreak(w, line[e..]);
      assert Pending(w) == [w];
    }
  }

  lemma PlainSingleTurn(line: string, file: string, lineNum: int, i: nat, pending: string)
    requires i < |line| && IsSingle(line[i])
    requires Scan(line, file, lineNum, i + 1, []) == Some(Expected(line, file, lineNum, i + 1, []))
    ensures Scan(line, file, lineNum, i, pending) == Some(Expected(line, file, lineNum, i, pending))
  {
    var s := line[i..];
    var c := line[i];
    assert s[0] == c && s[1..] == line[i + 1..];
    StampAppend(Pending(pending) + [[c]], Segment([], s[1..]), file, lineNum);
    StampAppend(Pending(pending), [[c]], file, lineNum);
    FlushIsStamp(pending, file, lineNum);
    assert Stamp([[c]], file, lineNum) == [Emit([c], file, lineNum)];
    ScanGo(line, file, lineNum, i, pending, Flush(pending, file, lineNum) + [Emit([c], file, lineNum)],
           i + 1, [], Expected(line, file, lineNum, i + 1, []));
  }

  lemma {:induction false} PlainScanIsSegment(line: string, file: string, lineNum: int, i: nat, pending: string)
    requires AllPlain(line)
    requires i <= |line|
    ensures Scan(line, file, lineNum, i, pending) == Some(Expected(line, file, lineNum, i, pending))
    decreases |line| - i
  {
    if i == |line| {
      assert line[i..] == [];
      FlushIsStamp(pending, file, lineNum);
    } else {
      var c := line[i];
      assert IsPlain(c);
      if IsWhitespace(c) {
        PlainScanIsSegment(line, file, lineNum, i + 1, []);
        PlainBlankTurn(line, file, lineNum, i, pending);
      } else if IsDigit(c) {
        PlainScanIsSegment(line, file, lineNum, i + 1, pending + [c]);
        PlainDigitTurn(line, file, lineNum, i, pending);
      } else if IsLetter(c) {
        IdentRunEndIsMaximal(line, i);
        PlainScanIsSegment(line, file, lineNum, IdentRunEnd(line, i) + 1, []);
        PlainLetterTurn(line, file, lineNum, i, pending);
      } else {
        PlainScanIsSegment(line, file, lineNum, i + 1, []);
        PlainSingleTurn(line, file, lineNum, i, pending);
      }
    }
  }


  /** A line made only of letters, digits, blanks and single-character
      punctuation scans to its words: blank-separated runs of letters and
      digits, each punctuation character on its own. */
  lemma PlainLineIsWordSplit(line: string, file: string, lineNum: int)
    requires forall k :: 0 <= k < |line| ==> IsPlain(line[k])
    ensures ScanLine(line, file, lineNum) == Some(Stamp(Words(line), file, lineNum))
  {
    PlainScanIsSegment(line, file, lineNum, 0, []);
    assert line[0..] == line;
  }

  // ---------------------------------------------------------------------------
  // Lexemes are drawn from the line
  // ---------------------------------------------------------------------------

  /** All lexemes of a token list, end to end. */
  function Lexemes(ts: seq<Token>): string
    decreases |ts|
  {
    if ts == [] then [] else ts[0].lexeme + Lexemes(ts[1..])
  }

  lemma {:induction false} LexemesAppend(a: seq<Token>, b: seq<Token>)
    ensures Lexemes(a + b) == Lexemes(a) + Lexemes(b)
    decreases |a|
  {
    if a != [] {
      assert (a + b)[1..] == a[1..] + b;
      LexemesAppend(a[1..], b);
    } else {
      assert a + b == b;
    }
  }

  /** The part of the line from `i` on; empty once `i` is past the end. */
  function Rest(line: string, i: nat): string {
    if i < |line| then line[i..] else []
  }

  lemma RestSplit(line: string, i: nat, j: nat)
    requires i <= j <= |line|
    ensures Rest(line, i) == line[i..j] + Rest(line, j)
  {
    if j == |line| {
      assert Rest(line, j) == [];
      if i < |line| {
        assert line[i..j] == line[i..];
      }
    } else {
      assert line[i..] == line[i..j] + line[j..];
    }
  }

  /** One turn of the loop reads `n` characters from `i` into its emitted
      lexemes and its pending buffer, and resumes at or after `i + n`. */
  ghost predicate Takes(line: string, file: string, lineNum: int, i: nat, pending: string, n: nat)
    requires i < |line|
  {
    var st := StepAt(line, file, lineNum, i, pending);
    st.Go? ==>
      && i + n <= |line|
      && i + n <= st.next
      && multiset(Lexemes(st.emitted) + st.pending) == multiset(pending + line[i..i + n])
  }

  lemma TakesOneToken(line: string, file: string, lineNum: int, i: nat, pending: string, n: nat)
    requires i < |line| && 0 < n
    requires var st := StepAt(line, file, lineNum, i, pending);
             st.Go? ==> && st.pending == []
                        && i + n <= |line| && i + n <= st.next
                        && |st.emitted| == 1
                        && st.emitted[0].lexeme == pending + line[i..i + n]
    ensures Takes(line, file, lineNum, i, pending, n)
  {
    var st := StepAt(line, file, lineNum, i, pending);
    if st.Go? {
      LexemesOne(st.emitted[0]);
      assert st.emitted == [st.emitted[0]];
      assert Lexemes(st.emitted) + st.pending == pending + line[i..i + n];
    }
  }

  lemma TakesBlank(line: string, file: string, lineNum: int, i: nat, pending: string)
    requires i < |line| && IsWhitespace(line[i])
    ensures Takes(line, file, lineNum, i, pending, 0)
  {
    LexemesOfFlush(pending, file, lineNum);
    assert line[i..i] == [];
  }

  lemma TakesDigitOrDot(line: string, file: string, lineNum: int, i: nat, pending: string)
    requires i < |line| && (IsDigit(line[i]) || line[i] == '.')
    ensures Takes(line, file, lineNum, i, pending, 1)
  {
    var st := StepAt(line, file, lineNum, i, pending);
    if st.Go? {
      assert st == Go([], i + 1, pending + [line[i]]);
      assert Lexemes(st.emitted) + st.pending == pending + line[i..i + 1] by {
        assert line[i..i + 1] == [line[i]];
        assert Lexemes([]) == [];
        assert [] + (pending + [line[i]]) == pending + [line[i]];
      }
    }
  }

  lemma TakesLetter(line: string, file: string, lineNum: int, i: nat, pending: string)
    requires i < |line| && IsLetter(line[i])
    ensures Takes(line, file, lineNum, i, pending, IdentRunEnd(line, i) + 1 - i)
  {
    TakesOneToken(line, file, lineNum, i, pending, IdentRunEnd(line, i) + 1 - i);
  }

  lemma TakesQuote(line: string, file: string, lineNum: int, i: nat, pending: string)
    requires i < |line| && line[i] == '"'
    ensures Takes(line, file, lineNum, i, pending, CloseQuote(line, i + 1) + 1 - i)
  {
    TakesOneToken(line, file, lineNum, i, pending, CloseQuote(line, i + 1) + 1 - i);
  }

  lemma TakesOperator(line: string, file: string, lineNum: int, i: nat, pending: string)
    requires i < |line| && IsOperatorStart(line[i])
    ensures Takes(line, file, lineNum, i, pending,
                  if i + 1 < |line| && line[i + 1] == '=' then 2 else 1)
  {
    var n := if i + 1 < |line| && line[i + 1] == '=' then 2 else 1;
    assert line[i..i + n] == if n == 2 then [line[i], '='] else [line[i]];
    TakesOneToken(line, file, lineNum, i, pending, n);
  }

  lemma TakesColon(line: string, file: string, lineNum: int, i: nat, pending: string)
    requires i < |line| && line[i] == ':'
    ensures Takes(line, file, lineNum, i, pending,
                  if i + 1 < |line| && line[i + 1] == ':' then 2 else 1)
  {
    var st := StepAt(line, file, lineNum, i, pending);
    if i + 1 < |line| && line[i + 1] == ':' {
      assert line[i..i + 2] == "::";
      TakesOneToken(line, file, lineNum, i, pending, 2);
    } else {
      LexemesOne(st.emitted[0]);
      assert Lexemes(st.emitted) + st.pending == [':'] + pending;
      assert multiset([':'] + pending) == multiset(pending + line[i..i + 1]);
    }
  }

  lemma TakesSingle(line: string, file: string, lineNum: int, i: nat, pending: string)
    requires i < |line| && IsSingle(line[i])
    ensures Takes(line, file, lineNum, i, pending, 1)
  {
    var c := line[i];
    var st := StepAt(line, file, lineNum, i, pending);
    var f := Flush(pending, file, lineNum);
    assert st.emitted == f + [Emit([c], file, lineNum)];
    LexemesOfFlush(pending, file, lineNum);
    LexemesAppend(f, [Emit([c], file, lineNum)]);
    LexemesOne(Emit([c], file, lineNum));
    assert Lexemes(st.emitted) + st.pending == pending + line[i..i + 1];
  }

  lemma StepTakes(line: string, file: string, lineNum: int, i: nat, pending: string) returns (n: nat)
    requires i < |line|
    ensures Takes(line, file, lineNum, i, pending, n)
  {
    var c := line[i];
    if c == '#' {
      n := 0;
    } else if IsWhitespace(c) {
      n := 0;
      TakesBlank(line, file, lineNum, i, pending);
    } else if IsDigit(c) || c == '.' {
      n := 1;
      TakesDigitOrDot(line, file, lineNum, i, pending);
    } else if IsLetter(c) {
      n := IdentRunEnd(line, i) + 1 - i;
      TakesLetter(line, file, lineNum, i, pending);
    } else if c == '"' {
      n := CloseQuote(line, i + 1) + 1 - i;
      TakesQuote(line, file, lineNum, i, pending);
    } else if IsOperatorStart(c) {
      n := if i + 1 < |line| && line[i + 1] == '=' then 2 else 1;
      TakesOperator(line, file, lineNum, i, pending);
    } else if c == ':' {
      n := if i + 1 < |line| && line[i + 1] == ':' then 2 else 1;
      TakesColon(line, file, lineNum, i, pending);
    } else {
      n := 1;
      TakesSingle(line, file, lineNum, i, pending);
    }
  }

  /** One turn of the loop: the characters it emits, keeps pending, and
      leaves unread together never exceed those it had. */
  lemma StepDrawsFromLine(line: string, file: string, lineNum: int, i: nat, pending: string)
    requires i < |line|
    ensures var st := StepAt(line, file, lineNum, i, pending);
            st.Go? ==>
              multiset(Lexemes(st.emitted)) + multiset(st.pending) + multiset(Rest(line, st.next))
              <= multiset(pending) + multiset(line[i..])
  {
    var st := StepAt(line, file, lineNum, i, pending);
    var n := StepTakes(line, file, lineNum, i, pending);
    if st.Go? {
      TakeFromRest(line, i, n, st.next);
      assert multiset(Lexemes(st.emitted) + st.pending)
          == multiset(Lexemes(st.emitted)) + multiset(st.pending);
    }
  }

  /** Reading `n` characters at `i` and resuming at `next`, at or past
      `i + n`, leaves at most what was there. */
  lemma TakeFromRest(line: string, i: nat, n: nat, next: nat)
    requires i + n <= |line| && i + n <= next
    ensures multiset(line[i..i + n]) + multiset(Rest(line, next)) <= multiset(line[i..])
  {
    var a, b, c := line[i..i + n], Rest(line, i + n), Rest(line, next);
    RestSplit(line, i, i + n);
    assert Rest(line, i) == line[i..] by {
      if i == |line| {
        assert line[i..] == [];
      }
    }
    RestShrinks(line, i + n, next);
    SplitMono(line[i..], a, b, c);
  }

  lemma SplitMono<T>(whole: seq<T>, a: seq<T>, b: seq<T>, c: seq<T>)
    requires whole == a + b && multiset(c) <= multiset(b)
    ensures multiset(a) + multiset(c) <= multiset(whole)
  {
    assert multiset(whole) == multiset(a) + multiset(b);
  }

  /** Resuming further on leaves fewer characters unread. */
  lemma RestShrinks(line: string, i: nat, j: nat)
    requires i <= j && i <= |line|
    ensures multiset(Rest(line, j)) <= multiset(Rest(line, i))
  {
    if j <= |line| {
      RestSplit(line, i, j);
    } else {
      assert Rest(line, j) == [];
    }
  }

  lemma LexemesOne(t: Token)
    ensures Lexemes([t]) == t.lexeme
  {
    assert [t][1..] == [];
  }

  lemma LexemesOfFlush(pending: string, file: string, lineNum: int)
    ensures Lexemes(Flush(pending, file, lineNum)) == pending
  {
    if pending != [] {
      LexemesOne(Emit(pending, file, lineNum));
    }
  }

  lemma {:induction false} ScanDrawsFromLine(line: string, file: string, lineNum: int, i: nat, pending: string)
    requires Scan(line, file, lineNum, i, pending).Some?
    ensures multiset(Lexemes(Scan(line, file, lineNum, i, pending).value))
            <= multiset(pending) + multiset(Rest(line, i))
    decreases |line| - i
  {
    if i < |line| {
      var st := StepAt(line, file, lineNum, i, pending);
      if st.Go? {
        var more := Scan(line, file, lineNum, st.next, st.pending).value;
        ScanDrawsFromLine(line, file, lineNum, st.next, st.pending);
        StepDrawsFromLine(line, file, lineNum, i, pending);
        LexemesAppend(st.emitted, more);
      }
    }
  }

  /** Every character of every lexeme comes from the line, and no character
      of the line is used twice. */
  lemma LexemesDrawnFromLine(line: string, file: string, lineNum: int)
    requires ScanLine(line, file, lineNum).Some?
    ensures multiset(Lexemes(ScanLine(line, file, lineNum).value)) <= multiset(line)
  {
    ScanDrawsFromLine(line, file, lineNum, 0, []);
  }

  // ---------------------------------------------------------------------------
  // What a scan can see
  // ---------------------------------------------------------------------------

  /** Two lines of one length that agree from `i` on. */
  predicate SameFrom(l1: string, l2: string, i: nat) {
    |l1| == |l2| && forall k :: i <= k < |l1| ==> l1[k] == l2[k]
  }

  lemma {:induction false} IdentRunEndFrom(l1: string, l2: string, i: nat)
    requires i < |l1| && SameFrom(l1, l2, i)
    ensures IdentRunEnd(l1, i) == IdentRunEnd(l2, i)
    decreases |l1| - i
  {
    if i + 1 < |l1| {
      IdentRunEndFrom(l1, l2, i + 1);
    }
  }

  lemma {:induction false} CloseQuoteFrom(l1: string, l2: string, j: nat)
    requires j <= |l1| && SameFrom(l1, l2, j)
    ensures CloseQuote(l1, j) == CloseQuote(l2, j)
    decreases |l1| - j
  {
    if j < |l1| {
      CloseQuoteFrom(l1, l2, j + 1);
    }
  }

  /** A turn of the loop at `i` reads the line from `i` on, and also the
      character before a `.` (the lookbehind of line 96). */
  lemma StepSeesSuffix(l1: string, l2: string, file: string, lineNum: int, i: nat, pending: string)
    requires i < |l1| && SameFrom(l1, l2, i)
    requires l1[i] == '.' && i - 1 > 0 ==> l1[i - 1] == l2[i - 1]
    ensures StepAt(l1, file, lineNum, i, pending) == StepAt(l2, file, lineNum, i, pending)
  {
    var c := l1[i];
    if IsLetter(c) {
      LetterSeesSuffix(l1, l2, file, lineNum, i, pending);
    } else if c == '"' {
      QuoteSeesSuffix(l1, l2, file, lineNum, i, pending);
    } else {
      OtherSeesSuffix(l1, l2, file, lineNum, i, pending);
    }
  }

  lemma LetterSeesSuffix(l1: string, l2: string, file: string, lineNum: int, i: nat, pending: string)
    requires i < |l1| && SameFrom(l1, l2, i) && IsLetter(l1[i])
    ensures StepAt(l1, file, lineNum, i, pending) == StepAt(l2, file, lineNum, i, pending)
  {
    IdentRunEndFrom(l1, l2, i);
    var e := IdentRunEnd(l1, i);
    assert l1[i..e + 1] == l2[i..e + 1];
    StepAtLetter(l1, file, lineNum, i, pending);
    StepAtLetter(l2, file, lineNum, i, pending);
  }

  lemma QuoteSeesSuffix(l1: string, l2: string, file: string, lineNum: int, i: nat, pending: string)
    requires i < |l1| && SameFrom(l1, l2, i) && l1[i] == '"'
    ensures StepAt(l1, file, lineNum, i, pending) == StepAt(l2, file, lineNum, i, pending)
  {
    CloseQuoteFrom(l1, l2, i + 1);
    var k := CloseQuote(l1, i + 1);
    if k < |l1| {
      assert l1[i..k + 1] == l2[i..k + 1];
    }
    StepAtQuote(l1, file, lineNum, i, pending);
    StepAtQuote(l2, file, lineNum, i, pending);
  }

  lemma OtherSeesSuffix(l1: string, l2: string, file: string, lineNum: int, i: nat, pending: string)
    requires i < |l1| && SameFrom(l1, l2, i) && !IsLetter(l1[i]) && l1[i] != '"'
    requires l1[i] == '.' && i - 1 > 0 ==> l1[i - 1] == l2[i - 1]
    ensures StepAt(l1, file, lineNum, i, pending) == StepAt(l2, file, lineNum, i, pending)
  {
  }

  lemma {:induction false} ScanSeesSuffix(l1: string, l2: string, file: string, lineNum: int, i: nat, pending: string)
    requires SameFrom(l1, l2, i)
    requires i < |l1| && l1[i] == '.' && i - 1 > 0 ==> l1[i - 1] == l2[i - 1]
    ensures Scan(l1, file, lineNum, i, pending) == Scan(l2, file, lineNum, i, pending)
    decreases |l1| - i
  {
    if i < |l1| {
      StepSeesSuffix(l1, l2, file, lineNum, i, pending);
      var st := StepAt(l1, file, lineNum, i, pending);
      if st.Go? {
        ScanSeesSuffix(l1, l2, file, lineNum, st.next, st.pending);
      }
    }
  }

  lemma LeadingLiteral(q: string, x: char, rest: string, file: string, lineNum: int)
    requires QuotedShape(q)
    ensures ScanLine(q + [x] + rest, file, lineNum)
            == Prepend([Token(q, file, lineNum, Some(StringLit))],
                       Scan(q + [x] + rest, file, lineNum, |q| + 1, []))
  {
    var line := q + [x] + rest;
    var k := |q| - 1;
    assert line[..k + 1] == q;
    assert forall m :: 0 < m < k ==> line[m] == q[m];
    StringLiteralToken(line, file, lineNum, 0, k);
  }

  lemma DifferOnlyAt(q: string, x: char, y: char, rest: string)
    ensures SameFrom(q + [x] + rest, q + [y] + rest, |q| + 1)
    ensures rest != [] ==> (q + [x] + rest)[|q| + 1] == rest[0]
  {
    var l1, l2 := q + [x] + rest, q + [y] + rest;
    forall k | |q| + 1 <= k < |l1| ensures l1[k] == l2[k] {
      assert l1[k] == rest[k - |q| - 1] == l2[k];
    }
  }

  /** The character right after a closing quote is skipped: a line that
      opens with a string literal scans the same whatever that character is,
      unless a `.` follows it and looks back at it. */
  lemma CharAfterStringSkipped(q: string, x: char, y: char, rest: string, file: string, lineNum: int)
    requires QuotedShape(q)
    requires rest == [] || rest[0] != '.'
    ensures ScanLine(q + [x] + rest, file, lineNum) == ScanLine(q + [y] + rest, file, lineNum)
  {
    var l1, l2 := q + [x] + rest, q + [y] + rest;
    var i := |q| + 1;
    assert Scan(l1, file, lineNum, i, []) == Scan(l2, file, lineNum, i, []) by {
      DifferOnlyAt(q, x, y, rest);
      ScanSeesSuffix(l1, l2, file, lineNum, i, []);
    }
    LeadingLiteral(q, x, rest, file, lineNum);
    LeadingLiteral(q, y, rest, file, lineNum);
  }

  /** Two lines that differ at most just after a closing quote hold the
      same literal, and agree from two places after its closing quote on. */
  lemma LiteralAgrees(l1: string, l2: string, i: nat, k: nat)
    requires i < k && k + 1 < |l1| && l1[i] == '"' && l1[k] == '"'
    requires forall m :: i < m < k ==> l1[m] != '"'
    requires |l1| == |l2| && forall m :: 0 <= m < |l1| && m != k + 1 ==> l1[m] == l2[m]
    ensures l2[i] == '"' && l2[k] == '"'
    ensures forall m :: i < m < k ==> l2[m] != '"'
    ensures l1[i..k + 1] == l2[i..k + 1]
    ensures SameFrom(l1, l2, k + 2)
  {
    assert forall m :: i <= m <= k ==> l2[m] == l1[m];
  }

  /** The same anywhere on the line and whatever is pending: two lines that
      agree everywhere except just after the closing quote of a literal
      scan alike from its opening quote, unless a `.` follows the skipped
      character and looks back at it. */
  lemma CharAfterQuoteIgnored(l1: string, l2: string, file: string, lineNum: int, i: nat, k: nat, pending: string)
    requires i < k && k + 1 < |l1| && l1[i] == '"' && l1[k] == '"'
    requires forall m :: i < m < k ==> l1[m] != '"'
    requires |l1| == |l2| && forall m :: 0 <= m < |l1| && m != k + 1 ==> l1[m] == l2[m]
    requires !(k + 2 < |l1| && l1[k + 2] == '.')
    ensures Scan(l1, file, lineNum, i, pending) == Scan(l2, file, lineNum, i, pending)
  {
    LiteralAgrees(l1, l2, i, k);
    calc {
      Scan(l1, file, lineNum, i, pending);
    == { QuoteTakesPending(l1, file, lineNum, i, k, pending); }
      Prepend([Emit(pending + l1[i..k + 1], file, lineNum)], Scan(l1, file, lineNum, k + 2, []));
    == { ScanSeesSuffix(l1, l2, file, lineNum, k + 2, []); }
      Prepend([Emit(pending + l2[i..k + 1], file, lineNum)], Scan(l2, file, lineNum, k + 2, []));
    == { QuoteTakesPending(l2, file, lineNum, i, k, pending); }
      Scan(l2, file, lineNum, i, pending);
    }
  }
}
