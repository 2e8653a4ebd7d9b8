// The per-file line classifier: the state machine that the loop of
// `CountLinesInFile` runs over the lines of one file, stated as functions.
// Both C++ variants of the loop are proved equal to `CountLines`.
module Classifier {
  import opened Wrappers
  import opened Tallies
  import opened Text
  import opened LineReader

  datatype LineKind = Blank | Comment | Code

  // The loop's state between lines: the tally so far and `in_multiline_comment`.
  datatype ScanState = ScanState(counts: LineCounts, inMultilineComment: bool)

  // The loop body for one line read by `getline`: the kind the line is counted
  // as and the value of `in_multiline_comment` afterwards. The checks are made
  // on the left-trimmed line, in this order: blank, inside an open block
  // comment, starts with "/*", starts with "//", code.
  function ClassifyLine(inComment: bool, line: seq<char>): (LineKind, bool)
  {
    var stripped := TrimLeft(line);
    if stripped == [] then (Blank, inComment)
    else if inComment then (Comment, Find(stripped, "*/").None?)
    else if Find(stripped, "/*") == Some(0) then (Comment, Find(stripped, "*/").None?)
    else if Find(stripped, "//") == Some(0) then (Comment, inComment)
    else (Code, inComment)
  }

  // Increment the counter of kind `k`.
  function Record(c: LineCounts, k: LineKind): LineCounts
  {
    match k
    case Blank => c.(blankLines := c.blankLines + 1)
    case Comment => c.(commentLines := c.commentLines + 1)
    case Code => c.(codeLines := c.codeLines + 1)
  }

  // Each line increments exactly one counter and leaves the others alone.
  lemma RecordCounts(c: LineCounts, k: LineKind)
    ensures Record(c, k).Total() == c.Total() + 1
    ensures Record(c, k).blankLines == c.blankLines + (if k == Blank then 1 else 0)
    ensures Record(c, k).codeLines == c.codeLines + (if k == Code then 1 else 0)
    ensures Record(c, k).commentLines == c.commentLines + (if k == Comment then 1 else 0)
  {
  }

  // One iteration of the loop.
  function Step(st: ScanState, line: seq<char>): ScanState
  {
    var (kind, flag) := ClassifyLine(st.inMultilineComment, line);
    ScanState(Record(st.counts, kind), flag)
  }

  // One step, given how the line classifies.
  lemma StepKind(st: ScanState, line: seq<char>, kind: LineKind, flag: bool)
    requires ClassifyLine(st.inMultilineComment, line) == (kind, flag)
    ensures Step(st, line) == ScanState(Record(st.counts, kind), flag)
  {
  }

  // The body of the `getline` loop for one line, with its early `continue`s
  // written as an if-chain: it updates the tally and the block-comment flag
  // exactly as one step of the classifier does.
  method CountLine(counts0: LineCounts, inComment0: bool, line: seq<char>)
    returns (counts: LineCounts, inMultilineComment: bool)
    ensures ScanState(counts, inMultilineComment) == Step(ScanState(counts0, inComment0), line)
  {
    counts, inMultilineComment := counts0, inComment0;
    var stripped := TrimLeft(line);
    if stripped == [] {
      counts := counts.(blankLines := counts.blankLines + 1);
    } else if inMultilineComment {
      counts := counts.(commentLines := counts.commentLines + 1);
      if Find(stripped, "*/").Some? {
        inMultilineComment := false;
      }
    } else if Find(stripped, "/*") == Some(0) {
      inMultilineComment := true;
      counts := counts.(commentLines := counts.commentLines + 1);
      if Find(stripped, "*/").Some? {
        inMultilineComment := false;
      }
    } else if Find(stripped, "//") == Some(0) {
      counts := counts.(commentLines := counts.commentLines + 1);
    } else {
      counts := counts.(codeLines := counts.codeLines + 1);
    }
  }

  // The loop run over `lines` from a zero tally with no block comment open.
  function Run(lines: seq<seq<char>>): ScanState
  {
    if lines == [] then ScanState(Zero, false)
    else Step(Run(lines[..|lines| - 1]), lines[|lines| - 1])
  }

  // Processing one more line is one more step of the loop.
  lemma RunSnoc(lines: seq<seq<char>>, line: seq<char>)
    ensures Run(lines + [line]) == Step(Run(lines), line)
  {
    assert (lines + [line])[..|lines|] == lines;
  }

  // The tally `CountLinesInFile` computes for a file with these characters:
  // the loop over the lines `getline` extracts, then one more blank line when
  // the `line` left by the last (failing) `getline` is empty, which is when
  // the content is empty or ends with '\n'.
  function CountLines(content: seq<char>): LineCounts
  {
    var counts := Run(Lines(content)).counts;
    if EndsEmpty(content) then counts.(blankLines := counts.blankLines + 1) else counts
  }

  // After the loop: with every line processed and the last `line` left by
  // `getline` empty exactly when the content is empty or ends with '\n', the
  // trailing-blank rule completes `CountLines`.
  lemma CountLinesAfterLoop(content: seq<char>, line: seq<char>, st: ScanState)
    requires st == Run(Lines(content))
    requires line == [] <==> EndsEmpty(content)
    ensures CountLines(content) ==
      if line == [] then st.counts.(blankLines := st.counts.blankLines + 1) else st.counts
  {
  }

  // Each line processed increments exactly one counter.
  lemma {:induction false} RunTotal(lines: seq<seq<char>>)
    ensures Run(lines).counts.Total() == |lines|
  {
    if lines != [] {
      var prev := Run(lines[..|lines| - 1]);
      RunTotal(lines[..|lines| - 1]);
      RecordCounts(prev.counts, ClassifyLine(prev.inMultilineComment, lines[|lines| - 1]).0);
    }
  }

  // blank + code + comment is the number of lines read, plus one when the
  // content is empty or ends with '\n'; that is, one more than the number of
  // line feeds in the file.
  lemma CountLinesTotal(content: seq<char>)
    ensures CountLines(content).Total() == |Lines(content)| + (if EndsEmpty(content) then 1 else 0)
    ensures CountLines(content).Total() == NewlineCount(content) + 1
  {
    RunTotal(Lines(content));
    LinesCount(content);
  }

  // A line counts as blank exactly when it is all whitespace, and a blank line
  // leaves the block-comment flag as it was, even inside a block comment.
  lemma ClassifyBlank(inComment: bool, line: seq<char>)
    ensures ClassifyLine(inComment, line).0 == Blank <==> AllSpace(line)
    ensures AllSpace(line) ==> ClassifyLine(inComment, line).1 == inComment
  {
    TrimLeftSpec(line);
  }

  // Inside a block comment a non-blank line is a comment line, and the comment
  // is closed exactly when "*/" occurs anywhere in the trimmed line.
  lemma ClassifyInsideComment(line: seq<char>)
    requires !AllSpace(line)
    ensures ClassifyLine(true, line) == (Comment, !Contains(TrimLeft(line), "*/"))
  {
    TrimLeftSpec(line);
    FindSpec(TrimLeft(line), "*/");
  }

  // Outside a block comment, a trimmed line starting with "/*" is a comment
  // line, and the comment stays open exactly when no "*/" occurs in the line.
  lemma ClassifyBlockOpen(line: seq<char>)
    requires StartsWith(TrimLeft(line), "/*")
    ensures ClassifyLine(false, line) == (Comment, !Contains(TrimLeft(line), "*/"))
  {
    FindAtStart(TrimLeft(line), "/*");
    FindSpec(TrimLeft(line), "*/");
  }

  // Outside a block comment, a trimmed line starting with "//" is a comment
  // line and opens nothing.
  lemma ClassifyLineComment(line: seq<char>)
    requires StartsWith(TrimLeft(line), "//")
    ensures ClassifyLine(false, line) == (Comment, false)
  {
    var t := TrimLeft(line);
    FindAtStart(t, "/*");
    FindAtStart(t, "//");
  }

  // Outside a block comment, any other non-blank line is code and leaves no
  // comment open, whatever follows its first two characters.
  lemma ClassifyCode(line: seq<char>)
    requires !AllSpace(line)
    requires !StartsWith(TrimLeft(line), "/*") && !StartsWith(TrimLeft(line), "//")
    ensures ClassifyLine(false, line) == (Code, false)
  {
    var t := TrimLeft(line);
    TrimLeftSpec(line);
    FindAtStart(t, "/*");
    FindAtStart(t, "//");
  }

  // The lines of "a\nb\nc" for lines a, b, c without line feeds, c non-empty.
  lemma LinesOfThree(l1: seq<char>, l2: seq<char>, l3: seq<char>)
    requires '\n' !in l1 && '\n' !in l2 && '\n' !in l3 && l3 != []
    ensures Lines(l1 + ['\n'] + (l2 + ['\n'] + l3)) == [l1, l2, l3]
  {
    LinesCons(l1, l2 + ['\n'] + l3);
    LinesCons(l2, l3);
    LinesLast(l3);
  }

  // The lines of "a\nb\n" for lines a, b without line feeds.
  lemma LinesOfTwo(l1: seq<char>, l2: seq<char>)
    requires '\n' !in l1 && '\n' !in l2
    ensures Lines(l1 + ['\n'] + (l2 + ['\n'] + [])) == [l1, l2]
  {
    LinesCons(l1, l2 + ['\n'] + []);
    LinesCons(l2, []);
  }

  // Content "a\nb\nc" with c non-empty is three loop steps and no trailing blank.
  lemma {:induction false} ThreeLineFile(l1: seq<char>, l2: seq<char>, l3: seq<char>)
    requires '\n' !in l1 && '\n' !in l2 && '\n' !in l3 && l3 != []
    ensures CountLines(l1 + ['\n'] + (l2 + ['\n'] + l3)) ==
      Step(Step(Step(ScanState(Zero, false), l1), l2), l3).counts
  {
    LinesOfThree(l1, l2, l3);
    RunSnoc([], l1);
    assert [] + [l1] == [l1];
    RunSnoc([l1], l2);
    assert [l1] + [l2] == [l1, l2];
    RunSnoc([l1, l2], l3);
    assert [l1, l2] + [l3] == [l1, l2, l3];
    var content := l1 + ['\n'] + (l2 + ['\n'] + l3);
    assert content[|content| - 1] == l3[|l3| - 1];
    assert l3[|l3| - 1] in l3;
  }

  // Content "a\nb\n" is two loop steps and the trailing blank line.
  lemma {:induction false} TwoLineFileWithNewline(l1: seq<char>, l2: seq<char>)
    requires '\n' !in l1 && '\n' !in l2
    ensures CountLines(l1 + ['\n'] + (l2 + ['\n'] + [])) ==
      var c := Step(Step(ScanState(Zero, false), l1), l2).counts;
      LineCounts(c.blankLines + 1, c.codeLines, c.commentLines)
  {
    LinesOfTwo(l1, l2);
    RunSnoc([], l1);
    assert [] + [l1] == [l1];
    RunSnoc([l1], l2);
    assert [l1] + [l2] == [l1, l2];
  }
}
