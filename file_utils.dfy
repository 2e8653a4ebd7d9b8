// The free functions of FileUtils.cpp: the counting loop of
// `CountLinesInFile`, `ProcessFile` and the sequential `ProcessDirectory`.
// The tally passed by reference is an argument and the updated tally a result.
module FileUtils {
  import opened Tallies
  import opened LineReader
  import opened Classifier
  import opened Entries

  // `CountLinesInFile(file_path, total_counts)`: an unopenable file leaves the
  // total as it was; otherwise the `getline` loop classifies each line, one
  // more blank is counted when the last `line` is empty, and the file's tally
  // is merged into the total.
  method CountLinesInFile(file: Entry, totalCounts: LineCounts) returns (newTotal: LineCounts)
    ensures newTotal == totalCounts.Add(FileTally(file))
  {
    if !file.readable {
      AddIdentity(totalCounts);
      return totalCounts;
    }
    var counts := Zero;
    var line: seq<char> := [];
    var inMultilineComment := false;
    GetLineFirst(file.content);
    var read := GetLine(Stream(file.content, 0, false), line);
    var stream, ok;
    stream, line, ok := read.stream, read.line, read.ok;
    ghost var seen: seq<seq<char>> := [];
    while ok
      invariant stream.data == file.content && LoopState(seen, stream, line, ok)
      invariant ScanState(counts, inMultilineComment) == Run(seen)
      decreases Remaining(stream), ok
    {
      RunSnoc(seen, line);
      counts, inMultilineComment := CountLine(counts, inMultilineComment, line);
      GetLineNext(seen, stream, line);
      seen := seen + [line];
      read := GetLine(stream, line);
      stream, line, ok := read.stream, read.line, read.ok;
    }
    ghost var looped := ScanState(counts, inMultilineComment);
    if line == [] {
      counts := counts.(blankLines := counts.blankLines + 1);
    }
    CountLinesAfterLoop(file.content, line, looped);
    newTotal := totalCounts.Add(counts);
  }

  // `ProcessFile(entry, total_counts, total_files)`: a regular file with a
  // source extension is counted as processed before it is opened, so an
  // unreadable one adds a file and no lines; any other entry changes nothing.
  method ProcessFile(entry: Entry, totalCounts: LineCounts, totalFiles: nat)
    returns (newCounts: LineCounts, newFiles: nat)
    ensures newFiles == totalFiles + (if Accepted(entry) then 1 else 0)
    ensures newCounts == totalCounts.Add(Contribution(entry))
    ensures !Accepted(entry) || !entry.readable ==> newCounts == totalCounts
  {
    newCounts, newFiles := totalCounts, totalFiles;
    if entry.isRegular {
      var extension := entry.extension;
      if extension == ".h" || extension == ".hpp" || extension == ".c" || extension == ".cpp" {
        newFiles := newFiles + 1;
        newCounts := CountLinesInFile(entry, newCounts);
      }
    }
    AddIdentity(totalCounts);
  }

  // The loop of `ProcessDirectory`: `ProcessFile` on every entry the walk
  // yields, in order, counting the files processed from zero.
  method ProcessEntries(entries: seq<Entry>, totalCounts: LineCounts) returns (totalFiles: nat, newCounts: LineCounts)
    ensures totalFiles == AcceptedCount(entries)
    ensures newCounts == totalCounts.Add(AcceptedTally(entries))
  {
    newCounts := totalCounts;
    totalFiles := 0;
    var i := 0;
    AddIdentity(totalCounts);
    while i < |entries|
      invariant i <= |entries|
      invariant totalFiles == AcceptedCount(entries[..i])
      invariant newCounts == totalCounts.Add(AcceptedTally(entries[..i]))
    {
      var entry := entries[i];
      assert entries[..i + 1] == entries[..i] + [entry];
      AcceptedSnoc(entries[..i], entry);
      MergeSnoc(totalCounts, entries[..i], entry);
      newCounts, totalFiles := ProcessFile(entry, newCounts, totalFiles);
      i := i + 1;
    }
    assert entries[..i] == entries;
  }

  // The sequential `ProcessDirectory(root_folder, total_counts)`. Every entry
  // the walk yields goes through `ProcessFile`; the number of files processed
  // is returned, except that a `filesystem_error` makes it return 0 while the
  // tallies of the files already merged stay in `total_counts`. A root that is
  // not a directory makes the iterator's construction throw at once.
  method ProcessDirectory(root: Root, totalCounts: LineCounts) returns (processed: nat, newCounts: LineCounts)
    ensures root.NotADirectory? ==> processed == 0 && newCounts == totalCounts
    ensures root.Directory? ==> newCounts == totalCounts.Add(AcceptedTally(root.walk.entries))
    ensures root.Directory? ==> processed == if root.walk.failed then 0 else AcceptedCount(root.walk.entries)
  {
    if root.NotADirectory? {
      return 0, totalCounts;
    }
    var totalFiles;
    totalFiles, newCounts := ProcessEntries(root.walk.entries, totalCounts);
    if root.walk.failed {
      return 0, newCounts;
    }
    return totalFiles, newCounts;
  }
}
