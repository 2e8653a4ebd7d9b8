// The `LineCounter` class of LineCounter.cpp: the same counting loop as
// FileUtils.cpp, with the running totals kept in the object's fields.
module LineCounter {
  import opened Tallies
  import opened LineReader
  import opened Classifier
  import opened Entries

  class LineCounter {
    // `m_total_line_counts`
    var totalLineCounts: LineCounts
    // `m_total_files`
    var totalFiles: nat

    // A new counter starts from a zero tally and no files.
    constructor()
      ensures totalLineCounts == Zero && totalFiles == 0
    {
      totalLineCounts := Zero;
      totalFiles := 0;
    }

    // `CountLinesInFile(file_path)`: an unopenable file changes nothing;
    // otherwise the file's tally is merged into `m_total_line_counts`.
    method CountLinesInFile(file: Entry)
      modifies this
      ensures totalLineCounts == old(totalLineCounts).Add(FileTally(file))
      ensures totalFiles == old(totalFiles)
    {
      if !file.readable {
        assert FileTally(file) == Zero;
        AddIdentity(totalLineCounts);
        return;
      }
      var counts := Zero;
      var line: seq<char> := [];
      var inMultilineComment := false;
      GetLineFirst(file.content);
      var read := GetLine(Stream(file.content, 0, false), line);
      var stream, ok;
      stream, line, ok := read.stream, read.line, read.ok;
      ghost var seen: seq<seq<char>> := [];
      while ok
        invariant stream.data == file.content && LoopState(seen, stream, line, ok)
        invariant ScanState(counts, inMultilineComment) == Run(seen)
        modifies {}
        decreases Remaining(stream), ok
      {
        RunSnoc(seen, line);
        counts, inMultilineComment := CountLine(counts, inMultilineComment, line);
        GetLineNext(seen, stream, line);
        seen := seen + [line];
        read := GetLine(stream, line);
        stream, line, ok := read.stream, read.line, read.ok;
      }
      ghost var looped := ScanState(counts, inMultilineComment);
      if line == [] {
        counts := counts.(blankLines := counts.blankLines + 1);
      }
      CountLinesAfterLoop(file.content, line, looped);
      assert counts == FileTally(file);
      totalLineCounts := totalLineCounts.Add(counts);
    }

    // `IsCppOrCFile`: exactly the four source extensions, compared case-sensitively.
    static function IsCppOrCFile(extension: string): (r: bool)
      ensures r <==> extension in SourceExtensions
    {
      extension == ".h" || extension == ".hpp" || extension == ".c" || extension == ".cpp"
    }

    // `ProcessFile(entry)`: an accepted entry is counted as a file before it
    // is opened, so an unreadable one adds a file and no lines; any other
    // entry leaves both fields unchanged.
    method ProcessFile(entry: Entry)
      modifies this
      ensures totalFiles == old(totalFiles) + (if Accepted(entry) then 1 else 0)
      ensures totalLineCounts == old(totalLineCounts).Add(Contribution(entry))
      ensures !Accepted(entry) || !entry.readable ==> totalLineCounts == old(totalLineCounts)
    {
      if entry.isRegular {
        var extension := entry.extension;
        if IsCppOrCFile(extension) {
          totalFiles := totalFiles + 1;
          CountLinesInFile(entry);
        }
      }
      AddIdentity(old(totalLineCounts));
    }

    // `CheckForSingleFile(root_folder)`: a root that is not a directory is
    // processed as a single entry and `false` is returned; a directory is left
    // to the caller and `true` is returned.
    method CheckForSingleFile(root: Root) returns (isDirectory: bool)
      modifies this
      ensures isDirectory <==> root.Directory?
      ensures root.Directory? ==> totalFiles == old(totalFiles) && totalLineCounts == old(totalLineCounts)
      ensures root.NotADirectory? ==>
        totalFiles == old(totalFiles) + (if Accepted(root.entry) then 1 else 0) &&
        totalLineCounts == old(totalLineCounts).Add(Contribution(root.entry))
    {
      if !root.Directory? {
        ProcessFile(root.entry);
        return false;
      }
      return true;
    }

    // The sequential `ProcessDirectory(root_folder)`. A root that is not a
    // directory is handled by `CheckForSingleFile` alone, adding at most one
    // file; otherwise the fields grow by the number and the merged tally of
    // the accepted entries the walk yields, a `filesystem_error` ending the
    // walk and keeping what was merged before it.
    method ProcessDirectory(root: Root)
      modifies this
      ensures root.NotADirectory? ==>
        totalFiles == old(totalFiles) + (if Accepted(root.entry) then 1 else 0) &&
        totalLineCounts == old(totalLineCounts).Add(Contribution(root.entry))
      ensures root.Directory? ==>
        totalFiles == old(totalFiles) + AcceptedCount(root.walk.entries) &&
        totalLineCounts == old(totalLineCounts).Add(AcceptedTally(root.walk.entries))
    {
      var isDirectory := CheckForSingleFile(root);
      if !isDirectory {
        return;
      }
      ProcessWalk(root.walk);
    }

    // The `try` block of `ProcessDirectory`: every entry the walk yields goes
    // through `ProcessFile`, in order; a `filesystem_error` ends the walk and
    // is caught, keeping what was merged before it.
    method ProcessWalk(walk: Enumeration)
      modifies this
      ensures totalFiles == old(totalFiles) + AcceptedCount(walk.entries)
      ensures totalLineCounts == old(totalLineCounts).Add(AcceptedTally(walk.entries))
    {
      var entries := walk.entries;
      var i := 0;
      AddIdentity(totalLineCounts);
      while i < |entries|
        invariant i <= |entries|
        invariant totalFiles == old(totalFiles) + AcceptedCount(entries[..i])
        invariant totalLineCounts == old(totalLineCounts).Add(AcceptedTally(entries[..i]))
      {
        var entry := entries[i];
        assert entries[..i + 1] == entries[..i] + [entry];
        AcceptedSnoc(entries[..i], entry);
        MergeSnoc(old(totalLineCounts), entries[..i], entry);
        ProcessFile(entry);
        i := i + 1;
      }
      assert entries[..i] == entries;
    }
  }

  // Extensions differing in case, longer or shorter ones, and a missing dot are rejected.
  lemma IsCppOrCFileExamples()
    ensures LineCounter.IsCppOrCFile(".cpp") && LineCounter.IsCppOrCFile(".h")
    ensures !LineCounter.IsCppOrCFile(".CPP") && !LineCounter.IsCppOrCFile(".cc")
    ensures !LineCounter.IsCppOrCFile("cpp") && !LineCounter.IsCppOrCFile("")
  {
  }
}
