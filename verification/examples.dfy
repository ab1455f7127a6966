/** Concrete lines and what the scanner makes of them, including the places
    where the code's behaviour differs from the obvious reading.  Each proof
    walks the loop one turn at a time from the end of the line backwards,
    with `ScannerFacts.ScanGo` joining each turn to the rest of the line. */
module Examples {
  import opened Wrappers
  import opened Tokens
  import opened Classifier
  import opened Scanner
  import ScannerFacts

  const F := "f.jott"

  function T(lexeme: string, ty: Option<TokenType>): Token {
    Token(lexeme, F, 1, ty)
  }

  /** A digit then a dot at the start of a line: the lookbehind `i - 1 > 0`
      does not look at index 0, so the dot is rejected and the line fails. */
  lemma DigitDotAtLineStartFails()
    ensures ScanLine("5.", F, 1) == None
  {
    var l := "5.";
    assert l[0] == '5' && l[1] == '.';
    assert StepAt(l, F, 1, 1, "5") == Fail;
    assert StepAt(l, F, 1, 0, []) == Go([], 1, "5");
  }

  /** The same shape one index further on is accepted: "15." is a number. */
  lemma DigitDotLaterIsNumber()
    ensures ScanLine("15.", F, 1) == Some([T("15.", Some(Number))])
  {
    var l := "15.";
    assert l[0] == '1' && l[1] == '5' && l[2] == '.';
    assert GetType("15.") == Some(Number);
    assert Scan(l, F, 1, 3, "15.") == Some([T("15.", Some(Number))]);
    assert StepAt(l, F, 1, 2, "15") == Go([], 3, "15.");
    ScannerFacts.ScanGo(l, F, 1, 2, "15", [], 3, "15.", [T("15.", Some(Number))]);
    assert [] + [T("15.", Some(Number))] == [T("15.", Some(Number))];
    assert StepAt(l, F, 1, 1, "1") == Go([], 2, "15");
    ScannerFacts.ScanGo(l, F, 1, 1, "1", [], 2, "15", [T("15.", Some(Number))]);
    assert [] + [T("15.", Some(Number))] == [T("15.", Some(Number))];
    assert StepAt(l, F, 1, 0, []) == Go([], 1, "1");
    ScannerFacts.ScanGo(l, F, 1, 0, [], [], 1, "1", [T("15.", Some(Number))]);
    assert [] + [T("15.", Some(Number))] == [T("15.", Some(Number))];
  }

  /** A lone colon is emitted at once while the digits around it keep
      accumulating: "5:6" yields the colon first, then the number 56. */
  lemma ColonInsideNumber()
    ensures ScanLine("5:6", F, 1) == Some([T(":", Some(Colon)), T("56", Some(Number))])
  {
    var l := "5:6";
    assert l[0] == '5' && l[1] == ':' && l[2] == '6';
    var colon, num := T(":", Some(Colon)), T("56", Some(Number));
    assert GetType("56") == Some(Number);
    assert GetType(":") == Some(Colon);
    assert Scan(l, F, 1, 3, "56") == Some([num]);
    assert StepAt(l, F, 1, 2, "5") == Go([], 3, "56");
    ScannerFacts.ScanGo(l, F, 1, 2, "5", [], 3, "56", [num]);
    assert [] + [num] == [num];
    assert StepAt(l, F, 1, 1, "5") == Go([colon], 2, "5");
    ScannerFacts.ScanGo(l, F, 1, 1, "5", [colon], 2, "5", [num]);
    assert [colon] + [num] == [colon, num];
    assert StepAt(l, F, 1, 0, []) == Go([], 1, "5");
    ScannerFacts.ScanGo(l, F, 1, 0, [], [], 1, "5", [colon, num]);
    assert [] + [colon, num] == [colon, num];
  }

  /** A '!' not followed by '=' is a lexical error. */
  lemma LoneBangFails()
    ensures ScanLine("a!b", F, 1) == None
  {
    var l := "a!b";
    assert l[0] == 'a' && l[1] == '!' && l[2] == 'b';
    assert StepAt(l, F, 1, 1, []) == Fail;
    assert IdentRunEnd(l, 0) == 0;
    assert StepAt(l, F, 1, 0, []).Go? && StepAt(l, F, 1, 0, []).next == 1 && StepAt(l, F, 1, 0, []).pending == [];
  }

  /** The character right after a closing quote is skipped: in `"a"x;` the
      `x` never becomes a token. */
  lemma CharAfterQuoteVanishes()
    ensures ScanLine("\"a\"x;", F, 1) == Some([T("\"a\"", Some(StringLit)), T(";", Some(Semicolon))])
  {
    var l := "\"a\"x;";
    assert l[0] == '"' && l[1] == 'a' && l[2] == '"' && l[3] == 'x' && l[4] == ';';
    var str, semi := T("\"a\"", Some(StringLit)), T(";", Some(Semicolon));
    assert GetType(";") == Some(Semicolon);
    var q := "\"a\"";
    assert q[1..2] == "a" && NoQuote(q[1..2]);
    assert GetType(q) == Some(StringLit);
    assert Scan(l, F, 1, 5, []) == Some([]);
    assert StepAt(l, F, 1, 4, []) == Go([semi], 5, []);
    ScannerFacts.ScanGo(l, F, 1, 4, [], [semi], 5, [], []);
    assert [semi] + [] == [semi];
    assert CloseQuote(l, 1) == 2;
    assert [] + l[0..3] == "\"a\"";
    assert StepAt(l, F, 1, 0, []) == Go([str], 4, []);
    ScannerFacts.ScanGo(l, F, 1, 0, [], [str], 4, [], [semi]);
    assert [str] + [semi] == [str, semi];
  }

  /** Pending digits are not flushed before an operator pair: "5<=" is one
      lexeme, which getType leaves unclassified. */
  lemma DigitsJoinOperatorPair()
    ensures ScanLine("5<=", F, 1) == Some([T("5<=", None)])
  {
    var l := "5<=";
    assert l[0] == '5' && l[1] == '<' && l[2] == '=';
    var t := T("5<=", None);
    assert GetType("5<=") == None by {
      assert "5" + "<=" == "5<=";
      assert AllDigits("5");
      ScannerFacts.DigitsThenOperatorUntyped("5", "<=");
    }
    assert Scan(l, F, 1, 3, []) == Some([]);
    assert "5" + [l[1], '='] == "5<=";
    assert StepAt(l, F, 1, 1, "5") == Go([t], 3, []);
    ScannerFacts.ScanGo(l, F, 1, 1, "5", [t], 3, [], []);
    assert [t] + [] == [t];
    assert StepAt(l, F, 1, 0, []) == Go([], 1, "5");
    ScannerFacts.ScanGo(l, F, 1, 0, [], [], 1, "5", [t]);
    assert [] + [t] == [t];
  }

  /** Pending digits are not flushed before `::` either: "5::" is a single
      FC_HEADER token. */
  lemma DigitsJoinDoubleColon()
    ensures ScanLine("5::", F, 1) == Some([T("5::", Some(FcHeader))])
  {
    var l := "5::";
    assert l[0] == '5' && l[1] == ':' && l[2] == ':';
    var t := T("5::", Some(FcHeader));
    assert Scan(l, F, 1, 3, []) == Some([]);
    assert "5" + "::" == "5::";
    assert StepAt(l, F, 1, 1, "5") == Go([t], 3, []);
    ScannerFacts.ScanGo(l, F, 1, 1, "5", [t], 3, [], []);
    assert [t] + [] == [t];
    assert StepAt(l, F, 1, 0, []) == Go([], 1, "5");
    ScannerFacts.ScanGo(l, F, 1, 0, [], [], 1, "5", [t]);
    assert [] + [t] == [t];
  }

  /** A letter run is emitted at once, so the `::` after an identifier meets
      an empty buffer: "x::" is two tokens. */
  lemma IdentifierBeforeDoubleColon()
    ensures ScanLine("x::", F, 1) == Some([T("x", Some(IdKeyword)), T("::", Some(FcHeader))])
  {
    var l := "x::";
    assert l[0] == 'x' && l[1] == ':' && l[2] == ':';
    var x, h := T("x", Some(IdKeyword)), T("::", Some(FcHeader));
    assert GetType("x") == Some(IdKeyword) by {
      assert IdentifierShape("x");
      GetTypePatterns("x");
    }
    assert Scan(l, F, 1, 3, []) == Some([]);
    assert [] + "::" == "::";
    assert StepAt(l, F, 1, 1, []) == Go([h], 3, []);
    ScannerFacts.ScanGo(l, F, 1, 1, [], [h], 3, [], []);
    assert [h] + [] == [h];
    assert IdentRunEnd(l, 0) == 0;
    assert [] + l[0..1] == "x";
    assert StepAt(l, F, 1, 0, []) == Go([x], 1, []);
    ScannerFacts.ScanGo(l, F, 1, 0, [], [x], 1, [], [h]);
    assert [x] + [h] == [x, h];
  }

  /** Pending digits are not flushed before a `"` either: in `5"a"` the
      literal is glued to the digit, and getType cannot classify the result. */
  lemma DigitsJoinString()
    ensures ScanLine("5\"a\"", F, 1) == Some([T("5\"a\"", None)])
  {
    var l := "5\"a\"";
    assert l[0] == '5' && l[1] == '"' && l[2] == 'a' && l[3] == '"';
    var w := "5\"a\"";
    var t := T(w, None);
    assert GetType(w) == None by {
      assert w[0] == '5' && w[1] == '"';
      GetTypePatterns(w);
      assert !NumberShape(w) && !QuotedShape(w) && !IdentifierShape(w);
    }
    assert Scan(l, F, 1, 5, []) == Some([]);
    assert CloseQuote(l, 2) == 3;
    assert "5" + l[1..4] == w;
    assert StepAt(l, F, 1, 1, "5") == Go([t], 5, []);
    ScannerFacts.ScanGo(l, F, 1, 1, "5", [t], 5, [], []);
    assert [t] + [] == [t];
    assert StepAt(l, F, 1, 0, []) == Go([], 1, "5");
    ScannerFacts.ScanGo(l, F, 1, 0, [], [], 1, "5", [t]);
    assert [] + [t] == [t];
  }

  /** Digits and an inner point stay in one buffer: "3.14" is the single
      NUMBER `3.14`. */
  lemma DecimalIsOneNumber()
    ensures ScanLine("3.14", F, 1) == Some([T("3.14", Some(Number))])
  {
    var l := "3.14";
    assert l[0] == '3' && l[1] == '.' && l[2] == '1' && l[3] == '4';
    assert GetType("3.14") == Some(Number);
    ScannerFacts.NumberCharsAccumulate(l, F, 1, 0, 4, []);
    assert [] + l[0..4] == "3.14";
  }

  /** A point with a digit after it is accepted even at the start of the
      line: ".5" is the single NUMBER `.5`. */
  lemma LeadingDotNumber()
    ensures ScanLine(".5", F, 1) == Some([T(".5", Some(Number))])
  {
    var l := ".5";
    assert l[0] == '.' && l[1] == '5';
    assert GetType(".5") == Some(Number);
    ScannerFacts.NumberCharsAccumulate(l, F, 1, 0, 2, []);
    assert [] + l[0..2] == ".5";
  }
}
