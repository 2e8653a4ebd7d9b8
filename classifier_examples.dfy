// Worked examples of the classifier on concrete lines and files.
module ClassifierExamples {
  import opened Text
  import opened Classifier

  // "/*/" opens and closes a comment: the search finds "*/" at index 1.
  lemma SlashStarSlashCloses()
    ensures ClassifyLine(false, "/*/") == (Comment, false)
  {
    assert OccursAt("/*/", "*/", 1);
  }

  // A "/*" after the first non-blank character opens no comment.
  lemma LateOpenIsCode()
    ensures ClassifyLine(false, "  x = 1; /* c") == (Code, false)
  {
    var l := "  x = 1; /* c";
    var t := l[2..];
    assert TrimLeft(l) == t by {
      assert l[1..][1..] == t && t[0] == 'x';
    }
    assert !AllSpace(l) by { assert !IsSpace(l[2]); }
    assert t[..2][0] == 'x';
    ClassifyCode(l);
  }

  // "/* a" opens a block comment that stays open.
  lemma OpenLineExample()
    ensures ClassifyLine(false, "/* a") == (Comment, true)
  {
    var l := "/* a";
    assert StartsWith(l, "/*");
    assert !Contains(l, "*/") by {
      assert l[1..3][1] == ' ' && l[2..4][1] == 'a';
      assert !OccursAt(l, "*/", 0) && !OccursAt(l, "*/", 1) && !OccursAt(l, "*/", 2);
    }
    ClassifyBlockOpen(l);
  }

  // "b */" inside a block comment is a comment line that closes it.
  lemma CloseLineExample()
    ensures ClassifyLine(true, "b */") == (Comment, false)
  {
    var l := "b */";
    assert OccursAt(l, "*/", 2);
    assert !AllSpace(l) by { assert !IsSpace(l[0]); }
    ClassifyInsideComment(l);
  }

  // A line whose first character is neither whitespace nor '/' is code.
  lemma CodeLineExample(l: seq<char>)
    requires l != [] && !IsSpace(l[0]) && l[0] != '/'
    ensures ClassifyLine(false, l) == (Code, false)
  {
    assert !AllSpace(l);
    assert TrimLeft(l) == l;
    assert !StartsWith(l, "/*") && !StartsWith(l, "//") by {
      if |l| >= 2 { assert l[..2][0] == l[0]; }
    }
    ClassifyCode(l);
  }
}

// File-level examples, kept apart from the line-level ones above.
module FileExamples {
  import opened Tallies
  import opened Classifier
  import ClassifierExamples

  // A file of a line opening a block comment, a line closing it and a line
  // of code, with no final '\n'.
  lemma {:induction false} BlockCommentFile(l1: seq<char>, l2: seq<char>, l3: seq<char>)
    requires '\n' !in l1 && '\n' !in l2 && '\n' !in l3 && l3 != []
    requires ClassifyLine(false, l1) == (Comment, true)
    requires ClassifyLine(true, l2) == (Comment, false)
    requires ClassifyLine(false, l3) == (Code, false)
    ensures CountLines(l1 + ['\n'] + (l2 + ['\n'] + l3)) == LineCounts(0, 1, 2)
  {
    ThreeLineFile(l1, l2, l3);
    StepKind(ScanState(Zero, false), l1, Comment, true);
    StepKind(ScanState(LineCounts(0, 0, 1), true), l2, Comment, false);
    StepKind(ScanState(LineCounts(0, 0, 2), false), l3, Code, false);
  }

  // The loop over a comment line that opens nothing, then a line of code.
  lemma {:induction false} CommentThenCode(l1: seq<char>, l2: seq<char>)
    requires ClassifyLine(false, l1) == (Comment, false)
    requires ClassifyLine(false, l2) == (Code, false)
    ensures Step(Step(ScanState(Zero, false), l1), l2) == ScanState(LineCounts(0, 1, 1), false)
  {
    StepKind(ScanState(Zero, false), l1, Comment, false);
    StepKind(ScanState(LineCounts(0, 0, 1), false), l2, Code, false);
  }

  // A file of a line comment and a line of code, ending in '\n'.
  lemma {:induction false} LineCommentFile(l1: seq<char>, l2: seq<char>)
    requires '\n' !in l1 && '\n' !in l2
    requires ClassifyLine(false, l1) == (Comment, false)
    requires ClassifyLine(false, l2) == (Code, false)
    ensures CountLines(l1 + ['\n'] + (l2 + ['\n'] + [])) == LineCounts(1, 1, 1)
  {
    TwoLineFileWithNewline(l1, l2);
    CommentThenCode(l1, l2);
  }

  // Whitespace-only content is one blank line.
  lemma ExampleBlank()
    ensures CountLines("   ") == LineCounts(1, 0, 0)
  {
    LineReader.LinesLast("   ");
    RunSnoc([], "   ");
  }

  // A block comment over two lines and one code line with no final '\n'.
  lemma ExampleBlockComment()
    ensures CountLines("/* a\nb */\ncode();") == LineCounts(0, 1, 2)
  {
    assert "/* a\nb */\ncode();" == "/* a" + ['\n'] + ("b */" + ['\n'] + "code();");
    ClassifierExamples.OpenLineExample();
    ClassifierExamples.CloseLineExample();
    ClassifierExamples.CodeLineExample("code();");
    BlockCommentFile("/* a", "b */", "code();");
  }

  // A final '\n' adds the trailing blank line.
  lemma ExampleTrailingNewline()
    ensures CountLines("// hi\nx=1;\n") == LineCounts(1, 1, 1)
  {
    assert "// hi\nx=1;\n" == "// hi" + ['\n'] + ("x=1;" + ['\n'] + []);
    assert Text.StartsWith("// hi", "//");
    ClassifyLineComment("// hi");
    ClassifierExamples.CodeLineExample("x=1;");
    LineCommentFile("// hi", "x=1;");
  }
}
