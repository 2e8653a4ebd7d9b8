// The directory entries the pipeline visits, abstracted from the file system:
// each entry carries what `ProcessFile` and `CountLinesInFile` look at.
module Entries {
  import opened Tallies
  import opened Classifier

  // One `directory_entry`: the string `path().extension()` returns, whether
  // `is_regular_file()` holds, whether a `std::wifstream` on its path opens,
  // and the characters the stream delivers.
  datatype Entry = Entry(extension: string, isRegular: bool, readable: bool, content: string)

  // What one `recursive_directory_iterator` walk yields: the entries in the
  // order it produces them and whether it then throws a `filesystem_error`
  // (while advancing or while `ProcessFile` queries an entry) instead of
  // reaching its end. Entries it would produce after the error are not part
  // of the walk.
  datatype Enumeration = Enumeration(entries: seq<Entry>, failed: bool)

  // The root path given to the pipeline: not a directory (a file, or nothing at all), or a directory and its walk.
  datatype Root = NotADirectory(entry: Entry) | Directory(walk: Enumeration)

  // The extensions counted as C or C++ sources; the comparison is exact and case-sensitive.
  const SourceExtensions: set<string> := {".h", ".hpp", ".c", ".cpp"}

  // The entries `ProcessFile` counts: regular files with a source extension.
  predicate Accepted(e: Entry)
  {
    e.isRegular && e.extension in SourceExtensions
  }

  // The tally `CountLinesInFile` merges for an entry: nothing when the file cannot be opened.
  function FileTally(e: Entry): (r: LineCounts)
    ensures !e.readable ==> r == Zero
    ensures e.readable ==> r.Total() == LineReader.NewlineCount(e.content) + 1
  {
    if e.readable then
      CountLinesTotal(e.content);
      CountLines(e.content)
    else Zero
  }

  // What processing one entry merges into the total.
  function Contribution(e: Entry): (r: LineCounts)
    ensures !Accepted(e) || !e.readable ==> r == Zero
  {
    if Accepted(e) then FileTally(e) else Zero
  }

  // The number of accepted entries in `es`.
  function AcceptedCount(es: seq<Entry>): (n: nat)
    ensures n <= |es|
  {
    if es == [] then 0
    else AcceptedCount(es[..|es| - 1]) + (if Accepted(es[|es| - 1]) then 1 else 0)
  }

  // The merged tally of the accepted entries in `es`, in order.
  function AcceptedTally(es: seq<Entry>): LineCounts
  {
    if es == [] then Zero
    else
      var e := es[|es| - 1];
      AcceptedTally(es[..|es| - 1]).Add(Contribution(e))
  }

  // Processing one more entry.
  lemma AcceptedSnoc(es: seq<Entry>, e: Entry)
    ensures AcceptedCount(es + [e]) == AcceptedCount(es) + (if Accepted(e) then 1 else 0)
    ensures AcceptedTally(es + [e]) == AcceptedTally(es).Add(Contribution(e))
  {
    assert (es + [e])[..|es|] == es;
  }

  // Merging the running total one entry at a time gives the tally of the walk so far.
  lemma MergeSnoc(total: LineCounts, es: seq<Entry>, e: Entry)
    ensures total.Add(AcceptedTally(es + [e])) == total.Add(AcceptedTally(es)).Add(Contribution(e))
  {
    AcceptedSnoc(es, e);
    AddAssociative(total, AcceptedTally(es), Contribution(e));
  }

  // Walking `a` and then `b` counts and tallies what walking each does, summed.
  lemma {:induction false} AcceptedAppend(a: seq<Entry>, b: seq<Entry>)
    ensures AcceptedCount(a + b) == AcceptedCount(a) + AcceptedCount(b)
    ensures AcceptedTally(a + b) == AcceptedTally(a).Add(AcceptedTally(b))
  {
    if b == [] {
      assert a + b == a;
      AddIdentity(AcceptedTally(a));
    } else {
      var b' := b[..|b| - 1];
      var e := b[|b| - 1];
      assert a + b == (a + b') + [e];
      assert b == b' + [e];
      AcceptedAppend(a, b');
      AcceptedSnoc(a + b', e);
      AcceptedSnoc(b', e);
      AddAssociative(AcceptedTally(a), AcceptedTally(b'), Contribution(e));
    }
  }

  // Inserting an entry anywhere adds what the entry contributes.
  lemma {:induction false} AcceptedInsert(b1: seq<Entry>, e: Entry, b2: seq<Entry>)
    ensures AcceptedCount(b1 + [e] + b2) == AcceptedCount(b1 + b2) + (if Accepted(e) then 1 else 0)
    ensures AcceptedTally(b1 + [e] + b2) == AcceptedTally(b1 + b2).Add(Contribution(e))
  {
    AcceptedAppend(b1, b2);
    AcceptedAppend(b1 + [e], b2);
    AcceptedSnoc(b1, e);
    var t := Contribution(e);
    AddAssociative(AcceptedTally(b1), t, AcceptedTally(b2));
    AddCommutative(t, AcceptedTally(b2));
    AddAssociative(AcceptedTally(b1), AcceptedTally(b2), t);
  }

  // Removing the same element from two equal multisets.
  lemma RemoveCommon(a: seq<Entry>, e: Entry, b1: seq<Entry>, b2: seq<Entry>)
    requires multiset(a + [e]) == multiset(b1 + [e] + b2)
    ensures multiset(a) == multiset(b1 + b2)
  {
    assert multiset(a + [e]) == multiset(a) + multiset{e};
    assert multiset(b1 + [e] + b2) == multiset(b1) + multiset{e} + multiset(b2);
    assert multiset(b1 + b2) == multiset(b1) + multiset(b2);
    forall x
      ensures multiset(a)[x] == multiset(b1 + b2)[x]
    {
      assert (multiset(a) + multiset{e})[x] == (multiset(b1) + multiset{e} + multiset(b2))[x];
    }
  }

  // The count and the tally are independent of the order the walk yields the
  // entries in: any rearrangement gives the same totals.
  lemma {:induction false} AcceptedPermutation(a: seq<Entry>, b: seq<Entry>)
    requires multiset(a) == multiset(b)
    ensures AcceptedCount(a) == AcceptedCount(b)
    ensures AcceptedTally(a) == AcceptedTally(b)
    decreases |a|
  {
    if a == [] {
      assert |b| == |multiset(b)| == 0;
    } else {
      var a' := a[..|a| - 1];
      var e := a[|a| - 1];
      assert a == a' + [e];
      assert e in multiset(b);
      var i :| 0 <= i < |b| && b[i] == e;
      var b1, b2 := b[..i], b[i + 1..];
      assert b == b1 + [e] + b2;
      RemoveCommon(a', e, b1, b2);
      AcceptedPermutation(a', b1 + b2);
      AcceptedSnoc(a', e);
      AcceptedInsert(b1, e, b2);
    }
  }
}
