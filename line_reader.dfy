// The input side of `CountLinesInFile`: a model of `std::getline` on an opened
// stream, and the specification of the lines a `while (std::getline(...))`
// loop extracts from a file's characters.
module LineReader {

  // Index of the first occurrence of `c` in `s`.
  function IndexOf(s: seq<char>, c: char): (j: nat)
    requires c in s
    ensures j < |s| && s[j] == c && c !in s[..j]
  {
    if s[0] == c then 0
    else
      var k := IndexOf(s[1..], c);
      assert s[..k + 1] == [s[0]] + s[1..][..k];
      k + 1
  }

  // The lines that successive `std::getline` calls extract from `s`: `s` is
  // cut at every '\n', the delimiter is dropped, and a '\n' at the very end
  // does not start another line.
  function Lines(s: seq<char>): seq<seq<char>>
    decreases |s|
  {
    if s == [] then []
    else if '\n' in s then
      var j := IndexOf(s, '\n');
      [s[..j]] + Lines(s[j + 1..])
    else [s]
  }

  // The content is empty or ends with a line feed.
  predicate EndsEmpty(s: seq<char>)
  {
    s == [] || s[|s| - 1] == '\n'
  }

  // Each line followed by a line feed: the inverse of `Lines`.
  function Unsplit(lines: seq<seq<char>>): seq<char>
  {
    if lines == [] then [] else lines[0] + ['\n'] + Unsplit(lines[1..])
  }

  // The number of line feeds in `s`.
  function NewlineCount(s: seq<char>): nat
  {
    multiset(s)['\n']
  }

  // A line without '\n' followed by the delimiter is the first line read.
  lemma LinesCons(a: seq<char>, b: seq<char>)
    requires '\n' !in a
    ensures Lines(a + ['\n'] + b) == [a] + Lines(b)
  {
    var s := a + ['\n'] + b;
    assert s[|a|] == '\n' && s[..|a|] == a;
    assert IndexOf(s, '\n') == |a|;
    assert s[|a| + 1..] == b;
  }

  // Non-empty content without '\n' is one line.
  lemma LinesLast(a: seq<char>)
    requires a != [] && '\n' !in a
    ensures Lines(a) == [a]
  {
  }

  // Cutting content at a line feed whose prefix holds none.
  lemma SplitAtNewline(s: seq<char>) returns (a: seq<char>, rest: seq<char>)
    requires '\n' in s
    ensures s == a + ['\n'] + rest && '\n' !in a && |rest| < |s|
    ensures Lines(s) == [a] + Lines(rest)
  {
    var j := IndexOf(s, '\n');
    a, rest := s[..j], s[j + 1..];
    assert s == a + ['\n'] + rest;
    LinesCons(a, rest);
  }

  // The line feeds of `a + ['\n'] + b` when `a` holds none.
  lemma NewlineCountSplit(a: seq<char>, b: seq<char>)
    requires '\n' !in a
    ensures NewlineCount(a + ['\n'] + b) == NewlineCount(b) + 1
  {
    assert multiset(a + ['\n'] + b) == multiset(a) + multiset(['\n']) + multiset(b);
    assert multiset(a)['\n'] == 0;
  }

  // Content ending after a line feed ends empty exactly when what follows it does.
  lemma EndsEmptySplit(a: seq<char>, b: seq<char>)
    ensures EndsEmpty(a + ['\n'] + b) <==> (b == [] || EndsEmpty(b))
  {
    var s := a + ['\n'] + b;
    if b != [] {
      assert s[|s| - 1] == b[|b| - 1];
    }
  }

  // No line `getline` extracts holds a '\n'.
  lemma {:induction false} LinesHaveNoNewline(s: seq<char>)
    ensures forall k :: 0 <= k < |Lines(s)| ==> '\n' !in Lines(s)[k]
    decreases |s|
  {
    if s != [] && '\n' in s {
      var a, rest := SplitAtNewline(s);
      LinesHaveNoNewline(rest);
      var ls := [a] + Lines(rest);
      forall k | 0 <= k < |ls|
        ensures '\n' !in ls[k]
      {
        if k > 0 {
          assert ls[k] == Lines(rest)[k - 1];
        }
      }
    } else if s != [] {
      LinesLast(s);
    }
  }

  // `Lines` loses nothing but the delimiters: putting them back gives the
  // content, with one more '\n' when the last line was not terminated.
  lemma {:induction false} LinesRoundTrip(s: seq<char>)
    ensures Unsplit(Lines(s)) == if EndsEmpty(s) then s else s + ['\n']
    decreases |s|
  {
    if s != [] && '\n' in s {
      var a, rest := SplitAtNewline(s);
      LinesRoundTrip(rest);
      EndsEmptySplit(a, rest);
      var ls := [a] + Lines(rest);
      assert ls[1..] == Lines(rest);
      assert Unsplit(ls) == a + ['\n'] + Unsplit(Lines(rest));
      if !EndsEmpty(rest) {
        assert a + ['\n'] + (rest + ['\n']) == s + ['\n'];
      }
    } else if s != [] {
      LinesLast(s);
      assert s[|s| - 1] in s;
    }
  }

  // The number of lines read, plus one when the content is empty or ends with
  // a line feed, is the number of line feeds plus one.
  lemma {:induction false} LinesCount(s: seq<char>)
    ensures |Lines(s)| + (if EndsEmpty(s) then 1 else 0) == NewlineCount(s) + 1
    decreases |s|
  {
    if s != [] && '\n' in s {
      var a, rest := SplitAtNewline(s);
      LinesCount(rest);
      NewlineCountSplit(a, rest);
      EndsEmptySplit(a, rest);
    } else if s != [] {
      LinesLast(s);
      assert s[|s| - 1] in s;
      assert multiset(s)['\n'] == 0;
    }
  }

  // The stream state `std::getline` depends on: the file's characters, the
  // read position, and whether end-of-file has been hit (`eofbit`).
  datatype Stream = Stream(data: seq<char>, pos: nat, eof: bool)

  // What one `std::getline(stream, line)` call leaves: stream, `line`, and whether the stream converts to true.
  datatype ReadResult = ReadResult(stream: Stream, line: seq<char>, ok: bool)

  // `std::getline(stream, line)`. When `eofbit` is already set the sentry
  // fails, the call fails and `line` is left untouched. Otherwise `line` is
  // erased and characters are extracted up to and excluding the next '\n'
  // (which is consumed); reaching the end sets `eofbit`, and extracting
  // nothing at all makes the call fail.
  function GetLine(s: Stream, line: seq<char>): ReadResult
  {
    if s.eof then ReadResult(s, line, false)
    else if s.pos >= |s.data| then ReadResult(s.(eof := true), [], false)
    else
      var rest := s.data[s.pos..];
      if '\n' in rest then
        var j := IndexOf(rest, '\n');
        ReadResult(s.(pos := s.pos + j + 1), rest[..j], true)
      else ReadResult(s.(pos := |s.data|, eof := true), rest, true)
  }

  // A measure that each successful `GetLine` decreases.
  function Remaining(s: Stream): nat
  {
    (if s.pos <= |s.data| then |s.data| - s.pos else 0) + (if s.eof then 0 else 1)
  }

  // What holds of the stream and of `line` between `getline` calls, starting
  // from a freshly opened stream and an empty `line`.
  predicate Consistent(s: Stream, line: seq<char>)
  {
    s.pos <= |s.data| &&
    (s.eof ==> s.pos == |s.data| && (line == [] <==> EndsEmpty(s.data))) &&
    (!s.eof ==> s.pos == 0 || s.data[s.pos - 1] == '\n')
  }

  // One `getline` call in the loop: on success it returns the next line of
  // `Lines` and advances past it; on failure no line is left, and the `line`
  // it leaves is empty exactly when the content is empty or ends with '\n'.
  lemma GetLineAdvances(s: Stream, line: seq<char>)
    requires Consistent(s, line)
    ensures var r := GetLine(s, line);
      r.stream.data == s.data && Consistent(r.stream, r.line) &&
      Remaining(r.stream) <= Remaining(s) && (r.ok ==> Remaining(r.stream) < Remaining(s)) &&
      (r.ok ==> [r.line] + Lines(s.data[r.stream.pos..]) == Lines(s.data[s.pos..])) &&
      (!r.ok ==> r.stream.pos == |s.data| && Lines(s.data[s.pos..]) == [] && (r.line == [] <==> EndsEmpty(s.data)))
  {
    var rest := s.data[s.pos..];
    if s.eof {
    } else if s.pos >= |s.data| {
      assert rest == [];
    } else if '\n' in rest {
      GetLineAtNewline(s, line);
    } else {
      GetLineAtEnd(s, line);
    }
  }

  // A `getline` that finds a '\n' ahead returns the first remaining line.
  lemma GetLineAtNewline(s: Stream, line: seq<char>)
    requires Consistent(s, line) && !s.eof && s.pos < |s.data| && '\n' in s.data[s.pos..]
    ensures var r := GetLine(s, line);
      r.ok && r.stream.data == s.data && Consistent(r.stream, r.line) &&
      Remaining(r.stream) < Remaining(s) &&
      [r.line] + Lines(s.data[r.stream.pos..]) == Lines(s.data[s.pos..])
  {
    var rest := s.data[s.pos..];
    var j := IndexOf(rest, '\n');
    var next := s.(pos := s.pos + j + 1);
    assert GetLine(s, line) == ReadResult(next, rest[..j], true);
    assert s.data[next.pos - 1] == '\n';
    assert Consistent(next, rest[..j]);
    assert rest[j + 1..] == s.data[next.pos..];
    LinesAtFirstNewline(rest);
  }

  // `Lines` takes the text up to the first '\n' as its first line.
  lemma LinesAtFirstNewline(s: seq<char>)
    requires '\n' in s
    ensures Lines(s) == [s[..IndexOf(s, '\n')]] + Lines(s[IndexOf(s, '\n') + 1..])
  {
  }

  // A `getline` that reaches the end without a '\n' returns the last line and sets `eofbit`.
  lemma GetLineAtEnd(s: Stream, line: seq<char>)
    requires Consistent(s, line) && !s.eof && s.pos < |s.data| && '\n' !in s.data[s.pos..]
    ensures var r := GetLine(s, line);
      r.ok && r.stream.data == s.data && Consistent(r.stream, r.line) &&
      Remaining(r.stream) < Remaining(s) &&
      [r.line] + Lines(s.data[r.stream.pos..]) == Lines(s.data[s.pos..])
  {
    var rest := s.data[s.pos..];
    assert s.data[|s.data| - 1] == rest[|rest| - 1];
    assert rest[|rest| - 1] in rest;
    assert Lines(rest) == [rest];
    assert s.data[|s.data|..] == [];
  }

  // What a `while (std::getline(stream, line))` loop keeps between iterations:
  // the lines processed so far, then the line just read, then the lines still
  // to come make up `Lines` of the whole content.
  predicate LoopState(seen: seq<seq<char>>, s: Stream, line: seq<char>, ok: bool)
  {
    Consistent(s, line) &&
    (ok ==> seen + [line] + Lines(s.data[s.pos..]) == Lines(s.data)) &&
    (!ok ==> seen == Lines(s.data) && (line == [] <==> EndsEmpty(s.data)))
  }

  // The first `getline` on a freshly opened stream starts the loop.
  lemma GetLineFirst(data: seq<char>)
    ensures var r := GetLine(Stream(data, 0, false), []);
      r.stream.data == data && LoopState([], r.stream, r.line, r.ok)
  {
    var s := Stream(data, 0, false);
    GetLineAdvances(s, []);
    assert data[0..] == data;
  }

  // Each further `getline` keeps the loop state with the line just processed
  // appended to `seen`, and a successful call uses up some of the content.
  lemma GetLineNext(seen: seq<seq<char>>, s: Stream, line: seq<char>)
    requires LoopState(seen, s, line, true)
    ensures var r := GetLine(s, line);
      r.stream.data == s.data && LoopState(seen + [line], r.stream, r.line, r.ok) &&
      Remaining(r.stream) <= Remaining(s) && (r.ok ==> Remaining(r.stream) < Remaining(s))
  {
    GetLineAdvances(s, line);
    var r := GetLine(s, line);
    if r.ok {
      assert seen + [line] + [r.line] + Lines(s.data[r.stream.pos..]) ==
        seen + [line] + ([r.line] + Lines(s.data[r.stream.pos..]));
    } else {
      assert seen + [line] + Lines(s.data[s.pos..]) == seen + [line];
    }
  }
}
