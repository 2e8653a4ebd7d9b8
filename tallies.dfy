// The per-file and aggregate line tally (`LineCounts` in FileUtils.h; the
// `LineCountStatistic` used by the `LineCounter` class has the same three
// counters and the same `+=`).
module Tallies {

  // Blank, code and comment line counters. `size_t` is modelled as `nat`.
  datatype LineCounts = LineCounts(blankLines: nat, codeLines: nat, commentLines: nat)
  {
    // `operator+=`: the counters of `rhs` are added to those of this tally.
    function Add(rhs: LineCounts): LineCounts
    {
      LineCounts(blankLines + rhs.blankLines, codeLines + rhs.codeLines, commentLines + rhs.commentLines)
    }

    // The number of lines this tally accounts for.
    function Total(): nat
    {
      blankLines + codeLines + commentLines
    }
  }

  // A default-constructed tally: every counter starts at zero.
  const Zero := LineCounts(0, 0, 0)

  // Merging order does not matter.
  lemma AddCommutative(a: LineCounts, b: LineCounts)
    ensures a.Add(b) == b.Add(a)
  {
  }

  // Grouping of merges does not matter.
  lemma AddAssociative(a: LineCounts, b: LineCounts, c: LineCounts)
    ensures a.Add(b).Add(c) == a.Add(b.Add(c))
  {
  }

  // The zero tally is the identity of the merge.
  lemma AddIdentity(a: LineCounts)
    ensures a.Add(Zero) == a && Zero.Add(a) == a
  {
  }

  // A merge never decreases a counter, and the totals add up.
  lemma AddMonotone(a: LineCounts, b: LineCounts)
    ensures a.Add(b).blankLines >= a.blankLines
    ensures a.Add(b).codeLines >= a.codeLines
    ensures a.Add(b).commentLines >= a.commentLines
    ensures a.Add(b).Total() == a.Total() + b.Total()
  {
  }
}
