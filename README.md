# Line counter core, modelled in Dafny

This models the sequential core of FileStatistics, a tool that walks a
directory tree, picks out C and C++ sources by extension, and counts each
file's blank, code and comment lines. The core has three parts:

- the per-file classifier loop `CountLinesInFile`. It exists twice, in
  FileUtils.cpp and as `LineCounter::CountLinesInFile`, with the same logic;
- the extension filter and `ProcessFile`;
- the sequential `ProcessDirectory`, with its single-file shortcut
  `CheckForSingleFile` in the `LineCounter` class.

Modules, in dependency order:

- `Wrappers`: `Option`.
- `Tallies`: `LineCounts`, its `+=` (`Add`), and the laws of the merge.
- `Text`: the ASCII `isspace` set, `TrimLeft`, and `wstring_view::find` (`Find`).
- `LineReader`:
  - `GetLine`, a model of `std::getline` on a stream with a read position and `eofbit`;
  - `Lines`, the lines a `while (getline)` loop extracts;
  - the lemmas that tie the two together.
- `Classifier`:
  - `ClassifyLine`, the priority-ordered decision for one line: blank, open block comment, `/*`, `//`, code;
  - `Step` and `Run`, the loop over those lines;
  - `CountLines`, the file's tally including the trailing-blank rule;
  - `CountLine`, the loop body as a method.
- `ClassifierExamples` and `FileExamples`: concrete lines and files.
- `Entries`: directory entries as values, plus the walk as a sequence of
  entries that may end in a `filesystem_error`. It also holds the filter,
  the per-entry contribution, and sums over a walk, with their order
  independence.
- `FileUtils`: the free functions of FileUtils.cpp as methods. The tally
  passed by reference comes in as an argument and goes out updated as a
  result.
- `LineCounter`: the class with fields `totalLineCounts` and `totalFiles`,
  for `m_total_line_counts` and `m_total_files`.

Both `CountLinesInFile` methods run the real `getline` loop on the stream
model. Each is proved to add exactly `FileTally(file)` to the total, so the
two C++ variants compute the same tally. The final `line` left by `getline`
is empty exactly when the content is empty or ends with '\n'. So the extra
blank after the loop is counted exactly in that case. For example,
"// hi\nx=1;\n" counts one blank line, and an empty file counts one blank
line.

Two behaviours of the code are modelled as written:

- `ProcessFile` increments the file counter before it tries to open the
  file. An accepted but unreadable file is therefore counted as processed,
  and adds no lines.
- The sequential `ProcessDirectory` of FileUtils.cpp returns 0 when a
  `filesystem_error` is caught, not the partial file count. The tallies
  merged before the error stay in `total_counts`.

## Model

| member | source | states |
|---|---|---|
| Tallies.LineCounts.Add | FileUtils.cpp:13-20 | the definition of `operator+=`: each of the three counters of the right-hand tally is added to the same counter; its laws are `AddCommutative`, `AddAssociative`, `AddIdentity` and `AddMonotone` |
| Tallies.AddCommutative | FileUtils.cpp:13-20 | merging tallies is commutative |
| Tallies.AddAssociative | FileUtils.cpp:13-20 | merging tallies is associative |
| Tallies.AddIdentity | FileUtils.cpp:13-20 | a default-constructed (all-zero) tally is the identity of `+=` on both sides |
| Tallies.AddMonotone | FileUtils.cpp:13-20 | `+=` never lowers a counter, and the line totals add up |
| Text.TrimLeft | FileUtils.cpp:29-34 | the definition of `TrimLeft`, shared by LineCounter.cpp:11-16: the view from the first non-whitespace character, or the empty view; `TrimLeftSpec` specifies it |
| Text.TrimLeftSpec | FileUtils.cpp:29-34 | `TrimLeft` returns a suffix of its input; everything it drops is whitespace; its first character is not whitespace; it is empty exactly when the input is all whitespace |
| Text.Find | FileUtils.cpp:65 | the definition of `wstring_view::find` as used at FileUtils.cpp:65, 73, 77 and 85: the first index where the pattern occurs, or `None` for `npos`; `FindSpec` and `FindAtStart` specify it |
| Text.FindFromSpec | FileUtils.cpp:65 | the search from an index returns the least match at or after it, and none exactly when no match exists there |
| Text.FindSpec | FileUtils.cpp:65 | `find` returns the least index where the pattern occurs, and `npos` exactly when it does not occur |
| Text.FindAtStart | FileUtils.cpp:73 | `find(pat) == 0` holds exactly when the line starts with `pat` |
| LineReader.GetLine | FileUtils.cpp:48 | the definition of one `std::getline(file, line)` call: the sentry fails on `eofbit` and leaves `line`; otherwise `line` is erased and filled up to the next '\n', which is consumed, and extracting nothing fails; `GetLineAdvances`, `GetLineFirst` and `GetLineNext` relate it to `Lines` |
| LineReader.LinesHaveNoNewline | FileUtils.cpp:48 | no line extracted by the `getline` loop contains '\n' |
| LineReader.LinesRoundTrip | FileUtils.cpp:48 | rejoining the extracted lines with '\n' gives back the content, plus one '\n' when the last line was unterminated |
| LineReader.LinesCount | FileUtils.cpp:48 | the number of lines read, plus one when the content is empty or ends with '\n', equals the number of line feeds plus one |
| LineReader.GetLineAdvances | FileUtils.cpp:48 | one `getline` keeps the stream consistent: on success it yields the next line and consumes input; on failure no lines remain, and the `line` it leaves is empty exactly when the content is empty or ends with '\n' |
| LineReader.GetLineAtNewline | FileUtils.cpp:48 | a `getline` that finds '\n' ahead returns the text before it and moves past the delimiter |
| LineReader.GetLineAtEnd | FileUtils.cpp:48 | a `getline` that reaches the end without '\n' returns the rest and sets `eofbit` |
| LineReader.GetLineFirst | FileUtils.cpp:45-48 | the first `getline` on a freshly opened stream with an empty `line` establishes the loop state |
| LineReader.GetLineNext | FileUtils.cpp:48 | each further `getline` keeps the loop state with one more line seen, and a successful call strictly consumes input |
| Classifier.ClassifyLine | FileUtils.cpp:51-92 | the definition of how one line is counted and what `in_multiline_comment` becomes, checked in the order blank, open comment, "/*", "//", code; `ClassifyBlank`, `ClassifyInsideComment`, `ClassifyBlockOpen`, `ClassifyLineComment` and `ClassifyCode` specify it against `AllSpace`, `Contains` and `StartsWith` |
| Classifier.Step | FileUtils.cpp:48-93 | the definition of one loop iteration: the counter of the line's kind is incremented and the flag updated; `CountLine` is proved equal to it and `RecordCounts` states what it changes |
| Classifier.Run | FileUtils.cpp:44-93 | the definition of the loop over a sequence of lines, from a zero tally with no comment open; `RunTotal` states its total |
| Classifier.CountLines | FileUtils.cpp:44-100 | the definition of a file's tally: the loop over the lines `getline` extracts, then one more blank when the content is empty or ends with '\n'; `CountLinesTotal` states its total and the file examples its values |
| Classifier.RecordCounts | FileUtils.cpp:55-92 | counting a line increments exactly one counter, by one, and leaves the other two alone |
| Classifier.CountLine | FileUtils.cpp:51-92 | the loop body with its `continue`s updates the tally and `in_multiline_comment` exactly as one classifier step |
| Classifier.RunTotal | FileUtils.cpp:48-93 | after the loop, blank + code + comment equals the number of lines read |
| Classifier.CountLinesTotal | FileUtils.cpp:48-100 | a file's blank + code + comment is the number of lines read plus one iff the content is empty or ends in '\n', which is the number of line feeds plus one |
| Classifier.ClassifyBlank | FileUtils.cpp:55-59 | a line counts as blank exactly when it is all whitespace, and a blank line leaves the block-comment flag unchanged, even inside a comment |
| Classifier.ClassifyInsideComment | FileUtils.cpp:62-71 | inside a block comment, a non-blank line is a comment, and the flag is cleared exactly when "*/" occurs anywhere in the trimmed line |
| Classifier.ClassifyBlockOpen | FileUtils.cpp:73-82 | a trimmed line starting with "/*" is a comment and leaves the flag set exactly when it contains no "*/" |
| Classifier.ClassifyLineComment | FileUtils.cpp:85-89 | outside a block comment, a trimmed line starting with "//" is a comment and opens nothing |
| Classifier.ClassifyCode | FileUtils.cpp:91-92 | outside a block comment, any other non-blank line is code and opens no comment |
| Classifier.LinesOfThree | FileUtils.cpp:48 | "a\nb\nc" with c non-empty yields exactly the lines a, b, c |
| Classifier.LinesOfTwo | FileUtils.cpp:48 | "a\nb\n" yields exactly the lines a, b |
| Classifier.ThreeLineFile | FileUtils.cpp:48-100 | "a\nb\nc" with c non-empty is three classifier steps and no trailing blank |
| Classifier.TwoLineFileWithNewline | FileUtils.cpp:48-100 | "a\nb\n" is two classifier steps plus the trailing blank |
| ClassifierExamples.SlashStarSlashCloses | FileUtils.cpp:73-82 | "/*/" is a comment line that opens and closes at once, because "*/" is found at index 1 |
| ClassifierExamples.LateOpenIsCode | FileUtils.cpp:73-92 | a "/*" after the first non-blank character is code and opens no comment |
| ClassifierExamples.OpenLineExample | LineCounter.cpp:58-67 | "/* a" is a comment line that leaves a block comment open |
| ClassifierExamples.CloseLineExample | LineCounter.cpp:47-56 | "b */" inside a block comment is a comment line that closes it |
| ClassifierExamples.CodeLineExample | LineCounter.cpp:76-77 | a line starting with a character that is neither whitespace nor '/' is code |
| FileExamples.BlockCommentFile | LineCounter.cpp:40-85 | an opening line, a closing line and a code line with no final '\n' count 0 blank, 1 code, 2 comment |
| FileExamples.CommentThenCode | LineCounter.cpp:40-78 | a line comment followed by a code line counts 1 comment and 1 code, with no comment open |
| FileExamples.LineCommentFile | LineCounter.cpp:40-85 | a line comment and a code line ending in '\n' count 1 blank, 1 code, 1 comment |
| FileExamples.ExampleBlank | LineCounter.cpp:40-85 | "   " counts as one blank line |
| FileExamples.ExampleBlockComment | LineCounter.cpp:40-85 | "/* a\nb */\ncode();" counts 0 blank, 1 code, 2 comment |
| FileExamples.ExampleTrailingNewline | LineCounter.cpp:40-85 | "// hi\nx=1;\n" counts 1 blank, 1 code, 1 comment |
| Entries.Accepted | FileUtils.cpp:107-111 | the definition of the filter: a regular file whose extension is one of ".h", ".hpp", ".c", ".cpp"; `LineCounter.IsCppOrCFile` is proved to agree with its extension test |
| Entries.FileTally | FileUtils.cpp:38-100 | an unopenable file contributes a zero tally; an opened one contributes a tally whose total is its line feeds plus one |
| Entries.Contribution | FileUtils.cpp:105-118 | an entry that is not an accepted regular source file, or that cannot be opened, contributes nothing |
| Entries.AcceptedCount | FileUtils.cpp:124-129 | a walk never counts more files than it yields entries |
| Entries.MergeSnoc | FileUtils.cpp:125-128 | merging into a running total one entry at a time gives the total plus the walk's tally so far |
| Entries.AcceptedTally | FileUtils.cpp:125-128 | the definition of the tally a walk merges: the contributions of its entries, added in order; `MergeSnoc`, `AcceptedAppend`, `AcceptedInsert` and `AcceptedPermutation` specify it |
| Entries.AcceptedAppend | FileUtils.cpp:125-128 | walking two runs of entries in turn counts and tallies the sum of what each does |
| Entries.AcceptedInsert | FileUtils.cpp:125-128 | inserting an entry anywhere in a walk adds exactly its count and contribution |
| Entries.AcceptedPermutation | FileUtils.cpp:125-128 | the file count and the merged tally do not depend on the order the walk yields its entries |
| FileUtils.CountLinesInFile | FileUtils.cpp:36-103 | the `getline` loop, the trailing-blank rule and the merge add exactly the file's tally to `total_counts`; an unopenable file leaves it unchanged |
| FileUtils.ProcessFile | FileUtils.cpp:105-118 | `total_files` grows by one exactly for a regular file with a source extension; the counts grow by that entry's contribution, and stay unchanged for rejected or unreadable entries |
| FileUtils.ProcessEntries | FileUtils.cpp:124-129 | the loop over a walk counts its accepted entries from zero and merges their tallies, in order |
| FileUtils.ProcessDirectory | FileUtils.cpp:120-136 | a non-directory root returns 0 and changes nothing; a directory's accepted tallies are merged in either case; it returns the accepted count, or 0 when the walk ends in a `filesystem_error` |
| LineCounter.LineCounter.constructor | LineCounter.h:23-24 | a new counter starts from a zero tally and no files |
| LineCounter.LineCounter.CountLinesInFile | LineCounter.cpp:20-88 | adds exactly the tally the FileUtils.cpp loop computes (`FileTally`) to `m_total_line_counts`; leaves `m_total_files` alone; an unopenable file changes nothing |
| LineCounter.LineCounter.IsCppOrCFile | LineCounter.cpp:100-103 | true exactly for the four case-sensitive extensions ".h", ".hpp", ".c", ".cpp" |
| LineCounter.IsCppOrCFileExamples | LineCounter.cpp:100-103 | ".cpp" and ".h" are accepted; ".CPP", ".cc", "cpp" and "" are rejected |
| LineCounter.LineCounter.ProcessFile | LineCounter.cpp:105-118 | `m_total_files` grows by one exactly for an accepted entry; `m_total_line_counts` grows by its contribution; both are unchanged for any other entry, and the counts for an unreadable one |
| LineCounter.LineCounter.CheckForSingleFile | LineCounter.cpp:90-98 | returns true exactly for a directory, which it leaves untouched; any other root is processed as one entry, adding at most one file |
| LineCounter.LineCounter.ProcessWalk | LineCounter.cpp:126-136 | every entry before the end or the `filesystem_error` goes through `ProcessFile`; the fields grow by the accepted count and the merged tally, and partial results are kept |
| LineCounter.LineCounter.ProcessDirectory | LineCounter.cpp:120-137 | a non-directory root adds at most that one entry with no walk; a directory adds its walk's accepted count and merged tally, whether or not the walk ended in an error |

## Left out

- The concurrent variants `ProcessDirectoryConcurrently` (in both files) and `LineCounter::ProcessFileConcurrently`, along with the `std::async` tasks, `task.wait()`, `g_mutex`, `m_mutex` and their `lock_guard`s. The sequential totals are proved independent of entry order (`Entries.AcceptedPermutation`), which is the property the concurrent merge relies on.
- Output: `operator<<` for `LineCounts`, `SaveToStream`, the `std::cerr` diagnostics, and the `std::chrono` execution time. These only present results.
- File system mechanics: `recursive_directory_iterator`, `is_directory`, `is_regular_file`, `path().extension()` and `directory_entry` construction. Each entry is a value carrying its extension string, a regular-file flag, an opens-successfully flag and its characters. A walk is the entries yielded before it ends or throws.
- Exceptions thrown by `is_regular_file` on an entry are folded into the walk's error flag. An exception from `is_directory` in `CheckForSingleFile` escapes `ProcessDirectory` and is not modelled.
- The wide stream and the locale: `std::wifstream` decoding and `::isspace` on `wchar_t`. Content is a sequence of characters, and whitespace is the fixed ASCII set space, tab, '\n', vertical tab, form feed and carriage return.
- `size_t` wrap-around of the counters and of the file count. Counters are unbounded naturals.
- `LineCountStatistic.h` is not part of this model. `LineCountStatistic` is taken to have the same three counters and the same `+=` as `LineCounts`.
- `operator+=` updates `*this` in place. It is modelled as `LineCounts.Add`, which returns the merged value, because a tally is a plain value with no identity.
- Within each `CountLinesInFile` method the loop body is the call `Classifier.CountLine` rather than being written out inline. Its `continue` chain is a single if/else chain there.
