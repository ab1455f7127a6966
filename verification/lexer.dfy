/** The file driver `tokenize` (JottTokenizer.java:25-45), over the lines of
    the file: each line is scanned with its 1-based number, the per-line
    token lists are concatenated in order, and the first line that fails to
    scan makes the whole result `None`. */
module Lexer {
  import opened Wrappers
  import opened Tokens
  import opened Scanner

  /** What each line scans to; entry `j` is line number `j + 1`. */
  function LineResults(lines: seq<string>, file: string): (rs: seq<Option<seq<Token>>>)
    ensures |rs| == |lines|
  {
    seq(|lines|, j requires 0 <= j < |lines| => ScanLine(lines[j], file, j + 1))
  }

  /** The per-line results from entry `k` on, put end to end; `None` as soon
      as one of them is `None`. */
  function Join(rs: seq<Option<seq<Token>>>, k: nat): Option<seq<Token>>
    decreases |rs| - k
  {
    if k >= |rs| then
      Some([])
    else
      match rs[k]
      case None => None
      case Some(ts) => Prepend(ts, Join(rs, k + 1))
  }

  /** tokenize, as a function of the file's lines. */
  function TokenizeLines(lines: seq<string>, file: string): Option<seq<Token>> {
    Join(LineResults(lines, file), 0)
  }

  /** The loop of lines 29-38: read a line, bump the line number, scan, and
      either append the line's tokens or give up. */
  method Tokenize(lines: seq<string>, file: string) returns (r: Option<seq<Token>>)
    ensures r == TokenizeLines(lines, file)
    ensures r.None? <==> exists k :: 0 <= k < |lines| && ScanLine(lines[k], file, k + 1).None?
  {
    ghost var rs := LineResults(lines, file);
    var tokens: seq<Token> := [];
    var lineNum := 0;
    PrependNothing(Join(rs, 0));
    while lineNum < |lines|
      invariant 0 <= lineNum <= |lines|
      invariant Prepend(tokens, Join(rs, lineNum)) == Join(rs, 0)
    {
      lineNum := lineNum + 1;
      var lineTokens := ScanLine(lines[lineNum - 1], file, lineNum);
      LineResultsAt(lines, file, lineNum - 1);
      if lineTokens.None? {
        TokenizeFailsIff(lines, file);
        return None;
      }
      PrependTwice(tokens, lineTokens.value, Join(rs, lineNum));
      tokens := tokens + lineTokens.value;
    }
    assert tokens + [] == tokens;
    TokenizeFailsIff(lines, file);
    return Some(tokens);
  }

  /** The file fails to scan exactly when one of its lines does. */
  lemma TokenizeFailsIff(lines: seq<string>, file: string)
    ensures TokenizeLines(lines, file).None?
            <==> exists k :: 0 <= k < |lines| && ScanLine(lines[k], file, k + 1).None?
  {
    var rs := LineResults(lines, file);
    JoinNone(rs, 0);
    if Join(rs, 0).None? {
      var j :| 0 <= j < |rs| && rs[j].None?;
      LineResultsAt(lines, file, j);
    }
    if exists k :: 0 <= k < |lines| && ScanLine(lines[k], file, k + 1).None? {
      var k :| 0 <= k < |lines| && ScanLine(lines[k], file, k + 1).None?;
      LineResultsAt(lines, file, k);
    }
  }

  lemma LineResultsAt(lines: seq<string>, file: string, j: nat)
    requires j < |lines|
    ensures LineResults(lines, file)[j] == ScanLine(lines[j], file, j + 1)
  {
  }

  /** The joined results fail exactly when some entry from `k` on fails. */
  lemma {:induction false} JoinNone(rs: seq<Option<seq<Token>>>, k: nat)
    ensures Join(rs, k).None? <==> exists j :: k <= j < |rs| && rs[j].None?
    decreases |rs| - k
  {
    if k < |rs| {
      JoinNone(rs, k + 1);
      if rs[k].Some? {
        assert forall j :: k <= j < |rs| && rs[j].None? ==> k + 1 <= j;
      }
    }
  }

  lemma PrependNothing(rest: Option<seq<Token>>)
    ensures Prepend([], rest) == rest
  {
    if rest.Some? {
      assert [] + rest.value == rest.value;
    }
  }

  lemma PrependTwice(a: seq<Token>, b: seq<Token>, rest: Option<seq<Token>>)
    ensures Prepend(a, Prepend(b, rest)) == Prepend(a + b, rest)
  {
    if rest.Some? {
      assert a + (b + rest.value) == a + b + rest.value;
    }
  }

  /** Each line's tokens carry that line's file and number. */
  ghost predicate ResultsLocated(rs: seq<Option<seq<Token>>>, file: string) {
    forall j, t :: 0 <= j < |rs| && rs[j].Some? && t in rs[j].value ==> t.file == file && t.line == j + 1
  }

  lemma LineResultsLocated(lines: seq<string>, file: string)
    ensures ResultsLocated(LineResults(lines, file), file)
  {
    var rs := LineResults(lines, file);
    forall j, t | 0 <= j < |rs| && rs[j].Some? && t in rs[j].value
      ensures t.file == file && t.line == j + 1
    {
      LineResultsAt(lines, file, j);
    }
  }

  lemma {:induction false} JoinInOrder(rs: seq<Option<seq<Token>>>, file: string, k: nat)
    requires ResultsLocated(rs, file)
    requires Join(rs, k).Some?
    ensures var ts := Join(rs, k).value;
            && (forall t :: t in ts ==> t.file == file && k + 1 <= t.line <= |rs|)
            && (forall a, b :: 0 <= a < b < |ts| ==> ts[a].line <= ts[b].line)
    decreases |rs| - k
  {
    if k < |rs| {
      JoinInOrder(rs, file, k + 1);
      var here := rs[k].value;
      var rest := Join(rs, k + 1).value;
      var ts := here + rest;
      assert Join(rs, k).value == ts;
      forall a, b | 0 <= a < b < |ts| ensures ts[a].line <= ts[b].line {
        if b < |here| {
          assert ts[a] in here && ts[b] in here;
        } else if a < |here| {
          assert ts[a] in here && ts[b] == rest[b - |here|];
        } else {
          assert ts[a] == rest[a - |here|] && ts[b] == rest[b - |here|];
        }
      }
    }
  }

  /** Every token of the file carries the file name and a line number of the
      file, and line numbers never go down along the result. */
  lemma TokenizeInLineOrder(lines: seq<string>, file: string)
    requires TokenizeLines(lines, file).Some?
    ensures var ts := TokenizeLines(lines, file).value;
            && (forall t :: t in ts ==> t.file == file && 1 <= t.line <= |lines|)
            && (forall a, b :: 0 <= a < b < |ts| ==> ts[a].line <= ts[b].line)
  {
    LineResultsLocated(lines, file);
    JoinInOrder(LineResults(lines, file), file, 0);
  }

  /** The tokens of a list that carry line number `n`, in order. */
  function OnLine(ts: seq<Token>, n: int): seq<Token>
    decreases |ts|
  {
    if ts == [] then []
    else if ts[0].line == n then [ts[0]] + OnLine(ts[1..], n)
    else OnLine(ts[1..], n)
  }

  lemma {:induction false} OnLineAppend(a: seq<Token>, b: seq<Token>, n: int)
    ensures OnLine(a + b, n) == OnLine(a, n) + OnLine(b, n)
    decreases |a|
  {
    if a == [] {
      assert a + b == b;
    } else {
      assert (a + b)[1..] == a[1..] + b;
      OnLineAppend(a[1..], b, n);
    }
  }

  lemma {:induction false} OnLineAll(ts: seq<Token>, n: int)
    requires forall t :: t in ts ==> t.line == n
    ensures OnLine(ts, n) == ts
    decreases |ts|
  {
    if ts != [] {
      assert forall t :: t in ts[1..] ==> t in ts;
      OnLineAll(ts[1..], n);
    }
  }

  lemma {:induction false} OnLineNone(ts: seq<Token>, n: int)
    requires forall t :: t in ts ==> t.line != n
    ensures OnLine(ts, n) == []
    decreases |ts|
  {
    if ts != [] {
      assert forall t :: t in ts[1..] ==> t in ts;
      OnLineNone(ts[1..], n);
    }
  }

  lemma {:induction false} JoinKeepsEachLine(rs: seq<Option<seq<Token>>>, file: string, k: nat, j: nat)
    requires ResultsLocated(rs, file)
    requires Join(rs, k).Some?
    requires k <= j < |rs|
    ensures rs[j].Some?
    ensures OnLine(Join(rs, k).value, j + 1) == rs[j].value
    decreases |rs| - k
  {
    var here := rs[k].value;
    var rest := Join(rs, k + 1).value;
    assert Join(rs, k).value == here + rest;
    OnLineAppend(here, rest, j + 1);
    JoinInOrder(rs, file, k + 1);
    if j == k {
      OnLineAll(here, j + 1);
      OnLineNone(rest, j + 1);
      assert here + [] == here;
    } else {
      OnLineNone(here, j + 1);
      JoinKeepsEachLine(rs, file, k + 1, j);
    }
  }

  /** The result is the per-line results put end to end: when the file
      scans, every line scans, and picking out the tokens numbered `j + 1`
      gives back exactly what line `j + 1` scanned to. */
  lemma TokenizeKeepsEachLine(lines: seq<string>, file: string, j: nat)
    requires TokenizeLines(lines, file).Some?
    requires j < |lines|
    ensures ScanLine(lines[j], file, j + 1).Some?
    ensures OnLine(TokenizeLines(lines, file).value, j + 1) == ScanLine(lines[j], file, j + 1).value
  {
    LineResultsLocated(lines, file);
    JoinKeepsEachLine(LineResults(lines, file), file, 0, j);
  }
}
