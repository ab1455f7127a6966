/** The classifier `getType`: a pure map from a finished lexeme to its token
    type, or to `None` when no rule applies.  The three regular expressions of
    the Java code are written out as small recursive matchers; each is paired
    with a declarative shape and a lemma proving the two agree. */
module Classifier {
  import opened Wrappers
  import opened CharClass
  import opened Tokens

  // ---------------------------------------------------------------------------
  // Matchers for the regular expressions of getType
  // ---------------------------------------------------------------------------

  /** `\d*` */
  predicate DigitStar(s: string)
    decreases |s|
  {
    s == [] || (IsDigit(s[0]) && DigitStar(s[1..]))
  }

  /** `\d+` */
  predicate DigitPlus(s: string) {
    |s| > 0 && DigitStar(s)
  }

  /** `\d*\.\d*`, the part of `\d+\.\d*` after its first digit. */
  predicate DecimalTail(s: string)
    decreases |s|
  {
    |s| > 0 &&
    ((s[0] == '.' && DigitStar(s[1..])) || (IsDigit(s[0]) && DecimalTail(s[1..])))
  }

  /** `\d+\.\d*` */
  predicate MatchesDecimal(s: string) {
    |s| > 0 && IsDigit(s[0]) && DecimalTail(s[1..])
  }

  /** `\.\d+` */
  predicate MatchesFraction(s: string) {
    |s| > 0 && s[0] == '.' && DigitPlus(s[1..])
  }

  /** The NUMBER test: `\d+\.\d*`, `\.\d+` or `\d+`. */
  predicate MatchesNumber(s: string) {
    MatchesDecimal(s) || MatchesFraction(s) || DigitPlus(s)
  }

  /** `[^"]*` */
  predicate NoQuote(s: string)
    decreases |s|
  {
    s == [] || (s[0] != '"' && NoQuote(s[1..]))
  }

  /** `"[^"]*"` */
  predicate MatchesQuoted(s: string) {
    |s| >= 2 && s[0] == '"' && s[|s| - 1] == '"' && NoQuote(s[1..|s| - 1])
  }

  /** `[a-zA-Z_]` */
  predicate IsIdStart(c: char) {
    IsLetter(c) || c == '_'
  }

  /** `[a-zA-Z0-9_]` */
  predicate IsIdPart(c: char) {
    IsIdStart(c) || IsDigit(c)
  }

  /** `[a-zA-Z0-9_]*` */
  predicate IdPartStar(s: string)
    decreases |s|
  {
    s == [] || (IsIdPart(s[0]) && IdPartStar(s[1..]))
  }

  /** `[a-zA-Z_][a-zA-Z0-9_]*` */
  predicate MatchesIdentifier(s: string) {
    |s| > 0 && IsIdStart(s[0]) && IdPartStar(s[1..])
  }

  /** The `switch` at the end of getType: the punctuation and operator
      lexemes that have a fixed type. */
  function SwitchType(w: string): Option<TokenType> {
    if |w| == 1 then
      match w[0]
      case ';' => Some(Semicolon)
      case '{' => Some(LBrace)
      case '}' => Some(RBrace)
      case '[' => Some(LBracket)
      case ']' => Some(RBracket)
      case ',' => Some(Comma)
      case ':' => Some(Colon)
      case '=' => Some(Assign)
      case '"' => Some(StringLit)
      case '+' => Some(MathOp)
      case '-' => Some(MathOp)
      case '*' => Some(MathOp)
      case '/' => Some(MathOp)
      case '<' => Some(RelOp)
      case '>' => Some(RelOp)
      case _ => None
    else if |w| == 2 && w[1] == '=' && (w[0] == '<' || w[0] == '>' || w[0] == '!' || w[0] == '=') then
      Some(RelOp)
    else
      None
  }

  /** getType: the rules are tried in the source's order, numbers first. */
  function GetType(w: string): Option<TokenType> {
    if MatchesNumber(w) then Some(Number)
    else if MatchesQuoted(w) then Some(StringLit)
    else if MatchesIdentifier(w) then Some(IdKeyword)
    else SwitchType(w)
  }

  // ---------------------------------------------------------------------------
  // Declarative shapes of the three lexeme classes
  // ---------------------------------------------------------------------------

  predicate AllDigits(s: string) {
    forall i :: 0 <= i < |s| ==> IsDigit(s[i])
  }

  /** `s[k]` is a decimal point with only digits on either side of it. */
  predicate DotSplit(s: string, k: int) {
    0 <= k < |s| && s[k] == '.' && AllDigits(s[..k]) && AllDigits(s[k + 1..])
  }

  /** A number is a non-empty run of digits and points holding at most one
      point and at least one digit. */
  ghost predicate NumberShape(w: string) {
    && |w| > 0
    && (forall i :: 0 <= i < |w| ==> IsDigit(w[i]) || w[i] == '.')
    && (forall i, j :: 0 <= i < j < |w| && w[i] == '.' ==> w[j] != '.')
    && (exists i :: 0 <= i < |w| && IsDigit(w[i]))
  }

  /** Two double quotes with no double quote between them. */
  ghost predicate QuotedShape(w: string) {
    && |w| >= 2
    && w[0] == '"'
    && w[|w| - 1] == '"'
    && (forall i :: 0 < i < |w| - 1 ==> w[i] != '"')
  }

  /** A letter or underscore followed by letters, digits and underscores. */
  ghost predicate IdentifierShape(w: string) {
    && |w| > 0
    && IsIdStart(w[0])
    && (forall i :: 0 < i < |w| ==> IsIdPart(w[i]))
  }

  // ---------------------------------------------------------------------------
  // The matchers accept exactly the shapes
  // ---------------------------------------------------------------------------

  lemma {:induction false} DigitStarIff(s: string)
    ensures DigitStar(s) <==> AllDigits(s)
    decreases |s|
  {
    if s != [] {
      DigitStarIff(s[1..]);
      assert AllDigits(s) <==> IsDigit(s[0]) && AllDigits(s[1..]) by {
        if IsDigit(s[0]) && AllDigits(s[1..]) {
          forall i | 0 <= i < |s| ensures IsDigit(s[i]) {
            if i > 0 { assert s[i] == s[1..][i - 1]; }
          }
        }
      }
    }
  }

  lemma {:induction false} DecimalTailIff(s: string)
    ensures DecimalTail(s) <==> exists k :: DotSplit(s, k)
    decreases |s|
  {
    if s == [] {
      return;
    }
    DecimalTailIff(s[1..]);
    DigitStarIff(s[1..]);
    if DecimalTail(s) {
      if s[0] == '.' && DigitStar(s[1..]) {
        assert s[..0] == [];
        assert DotSplit(s, 0);
      } else {
        var k :| DotSplit(s[1..], k);
        assert s[1..][..k] == s[1..k + 1];
        assert s[1..][k + 1..] == s[k + 2..];
        var pre := s[..k + 1];
        assert AllDigits(pre) by {
          forall i | 0 <= i < k + 1 ensures IsDigit(pre[i]) {
            if i > 0 { assert pre[i] == s[1..k + 1][i - 1]; }
          }
        }
        assert DotSplit(s, k + 1);
      }
    }
    if k :| DotSplit(s, k) {
      if k == 0 {
        assert s[1..] == s[k + 1..];
      } else {
        assert s[0] == s[..k][0];
        assert s[1..][..k - 1] == s[1..k];
        assert s[1..][k..] == s[k + 1..];
        assert AllDigits(s[1..k]) by {
          forall i | 0 <= i < k - 1 ensures IsDigit(s[1..k][i]) {
            assert s[1..k][i] == s[..k][i + 1];
          }
        }
        assert DotSplit(s[1..], k - 1);
      }
    }
  }

  lemma NumberMatcherIff(w: string)
    ensures MatchesNumber(w) <==> NumberShape(w)
  {
    if w == [] {
      return;
    }
    DigitStarIff(w);
    DigitStarIff(w[1..]);
    DecimalTailIff(w[1..]);
    if MatchesNumber(w) {
      if DigitPlus(w) {
        assert IsDigit(w[0]);
      } else if MatchesFraction(w) {
        forall i | 0 < i < |w| ensures IsDigit(w[i]) {
          assert w[i] == w[1..][i - 1];
        }
        assert IsDigit(w[1]);
      } else {
        var k :| DotSplit(w[1..], k);
        forall i | 0 < i < |w| && i != k + 1 ensures IsDigit(w[i]) {
          if i < k + 1 {
            assert w[i] == w[1..][..k][i - 1];
          } else {
            assert w[i] == w[1..][k + 1..][i - k - 2];
          }
        }
        assert w[k + 1] == '.';
        assert IsDigit(w[0]);
      }
    }
    if NumberShape(w) {
      if k :| 0 <= k < |w| && w[k] == '.' {
        assert forall i :: 0 <= i < |w| && i != k ==> IsDigit(w[i]);
        if k == 0 {
          var d :| 0 <= d < |w| && IsDigit(w[d]);
          assert AllDigits(w[1..]) by {
            forall i | 0 <= i < |w| - 1 ensures IsDigit(w[1..][i]) {
              assert w[1..][i] == w[i + 1];
            }
          }
          assert |w[1..]| > 0;
          assert MatchesFraction(w);
        } else {
          var pre, post := w[1..][..k - 1], w[1..][k..];
          assert AllDigits(pre) by {
            forall i | 0 <= i < k - 1 ensures IsDigit(pre[i]) {
              assert pre[i] == w[i + 1];
            }
          }
          assert AllDigits(post) by {
            forall i | 0 <= i < |w| - k - 1 ensures IsDigit(post[i]) {
              assert post[i] == w[k + 1 + i];
            }
          }
          assert DotSplit(w[1..], k - 1);
          assert MatchesDecimal(w);
        }
      } else {
        assert AllDigits(w);
      }
    }
  }

  lemma {:induction false} NoQuoteIff(s: string)
    ensures NoQuote(s) <==> forall i :: 0 <= i < |s| ==> s[i] != '"'
    decreases |s|
  {
    if s != [] {
      NoQuoteIff(s[1..]);
      assert forall i :: 0 < i < |s| ==> s[i] == s[1..][i - 1];
    }
  }

  lemma QuotedMatcherIff(w: string)
    ensures MatchesQuoted(w) <==> QuotedShape(w)
  {
    if |w| >= 2 {
      NoQuoteIff(w[1..|w| - 1]);
      assert forall i :: 0 < i < |w| - 1 ==> w[i] == w[1..|w| - 1][i - 1];
    }
  }

  lemma {:induction false} IdPartStarIff(s: string)
    ensures IdPartStar(s) <==> forall i :: 0 <= i < |s| ==> IsIdPart(s[i])
    decreases |s|
  {
    if s != [] {
      IdPartStarIff(s[1..]);
      assert forall i :: 0 < i < |s| ==> s[i] == s[1..][i - 1];
    }
  }

  lemma IdentifierMatcherIff(w: string)
    ensures MatchesIdentifier(w) <==> IdentifierShape(w)
  {
    if w != [] {
      IdPartStarIff(w[1..]);
      assert forall i :: 0 < i < |w| ==> w[i] == w[1..][i - 1];
    }
  }

  // ---------------------------------------------------------------------------
  // What getType returns
  // ---------------------------------------------------------------------------

  /** The three pattern rules, in terms of the shapes.  NUMBER is returned for
      every number shape, so it wins over every later rule. */
  lemma GetTypePatterns(w: string)
    ensures GetType(w) == Some(Number) <==> NumberShape(w)
    ensures GetType(w) == Some(StringLit) <==> QuotedShape(w) || w == "\""
    ensures GetType(w) == Some(IdKeyword) <==> IdentifierShape(w)
    ensures GetType(w) == None <==>
              !NumberShape(w) && !QuotedShape(w) && !IdentifierShape(w) && SwitchType(w).None?
    ensures GetType(w) != Some(FcHeader)
  {
    NumberMatcherIff(w);
    QuotedMatcherIff(w);
    IdentifierMatcherIff(w);
  }

  /** A quoted lexeme is a STRING. */
  lemma QuotedIsString(w: string)
    requires QuotedShape(w)
    ensures GetType(w) == Some(StringLit)
  {
    QuotedMatcherIff(w);
  }

  /** The fixed table: each punctuation or operator lexeme gets its type, and
      no other lexeme gets one of these types. */
  lemma GetTypeFixed(w: string)
    ensures GetType(w) == Some(Semicolon) <==> w == ";"
    ensures GetType(w) == Some(LBrace) <==> w == "{"
    ensures GetType(w) == Some(RBrace) <==> w == "}"
    ensures GetType(w) == Some(LBracket) <==> w == "["
    ensures GetType(w) == Some(RBracket) <==> w == "]"
    ensures GetType(w) == Some(Comma) <==> w == ","
    ensures GetType(w) == Some(Colon) <==> w == ":"
    ensures GetType(w) == Some(Assign) <==> w == "="
    ensures GetType(w) == Some(MathOp) <==> w == "+" || w == "-" || w == "*" || w == "/"
    ensures GetType(w) == Some(RelOp) <==>
              w == "<" || w == "<=" || w == ">" || w == ">=" || w == "!=" || w == "=="
  {
  }
}
