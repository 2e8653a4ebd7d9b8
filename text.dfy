// Character and substring helpers used by the classifier: the whitespace test
// applied by `TrimLeft`, the left trim itself, and `wstring_view::find`.
module Text {
  import opened Wrappers

  // `::isspace` in the default "C" locale: space, horizontal tab, line feed,
  // vertical tab, form feed and carriage return.
  predicate IsSpace(c: char)
  {
    c == ' ' || c == '\t' || c == '\n' || c == '\U{000B}' || c == '\U{000C}' || c == '\r'
  }

  // Every character of `s` is whitespace (vacuously true of the empty string).
  predicate AllSpace(s: seq<char>)
  {
    forall i :: 0 <= i < |s| ==> IsSpace(s[i])
  }

  // `TrimLeft`: the view that starts at the first non-whitespace character, or
  // the empty view when there is none.
  function TrimLeft(s: seq<char>): seq<char>
  {
    if s == [] || !IsSpace(s[0]) then s else TrimLeft(s[1..])
  }

  // `TrimLeft` returns a suffix of its input, drops only whitespace, keeps a
  // non-whitespace first character, and is empty exactly when the input is
  // all whitespace.
  lemma {:induction false} TrimLeftSpec(s: seq<char>)
    ensures |TrimLeft(s)| <= |s| && TrimLeft(s) == s[|s| - |TrimLeft(s)|..]
    ensures forall i :: 0 <= i < |s| - |TrimLeft(s)| ==> IsSpace(s[i])
    ensures TrimLeft(s) != [] ==> !IsSpace(TrimLeft(s)[0])
    ensures TrimLeft(s) == [] <==> AllSpace(s)
  {
    if s != [] && IsSpace(s[0]) {
      TrimLeftSpec(s[1..]);
      assert s[1..][|s| - 1 - |TrimLeft(s)|..] == s[|s| - |TrimLeft(s)|..];
    }
  }

  // `pat` occurs in `s` starting at index `i`.
  predicate OccursAt(s: seq<char>, pat: seq<char>, i: nat)
  {
    i + |pat| <= |s| && s[i..i + |pat|] == pat
  }

  // `pat` occurs somewhere in `s` (`find` does not return `npos`).
  predicate Contains(s: seq<char>, pat: seq<char>)
  {
    exists i: nat :: i <= |s| && OccursAt(s, pat, i)
  }

  // `s` begins with `pat`.
  predicate StartsWith(s: seq<char>, pat: seq<char>)
  {
    |pat| <= |s| && s[..|pat|] == pat
  }

  // `wstring_view::find(pat)`: the first match, or `None` for `npos`.
  function Find(s: seq<char>, pat: seq<char>): Option<nat>
  {
    FindFrom(s, pat, 0)
  }

  // The search of `Find`, started at index `from`.
  function FindFrom(s: seq<char>, pat: seq<char>, from: nat): Option<nat>
    decreases |s| - from
  {
    if from + |pat| > |s| then None
    else if s[from..from + |pat|] == pat then Some(from)
    else FindFrom(s, pat, from + 1)
  }

  // The search from `from` finds the least match at or after `from`, if any.
  lemma {:induction false} FindFromSpec(s: seq<char>, pat: seq<char>, from: nat)
    decreases |s| - from
    ensures FindFrom(s, pat, from).Some? ==>
      from <= FindFrom(s, pat, from).value && OccursAt(s, pat, FindFrom(s, pat, from).value)
    ensures FindFrom(s, pat, from).Some? ==>
      forall i: nat :: from <= i < FindFrom(s, pat, from).value ==> !OccursAt(s, pat, i)
    ensures FindFrom(s, pat, from).None? ==> forall i: nat :: from <= i ==> !OccursAt(s, pat, i)
  {
    if from + |pat| <= |s| && s[from..from + |pat|] != pat {
      FindFromSpec(s, pat, from + 1);
    }
  }

  // `find` returns the least index at which `pat` occurs, and `npos` exactly when there is none.
  lemma FindSpec(s: seq<char>, pat: seq<char>)
    ensures Find(s, pat).Some? ==> OccursAt(s, pat, Find(s, pat).value)
    ensures Find(s, pat).Some? ==> forall i: nat :: i < Find(s, pat).value ==> !OccursAt(s, pat, i)
    ensures Find(s, pat).None? <==> !Contains(s, pat)
  {
    FindFromSpec(s, pat, 0);
  }

  // `find(pat) == 0` holds exactly when `s` starts with `pat`.
  lemma FindAtStart(s: seq<char>, pat: seq<char>)
    ensures Find(s, pat) == Some(0) <==> StartsWith(s, pat)
  {
    FindSpec(s, pat);
    if StartsWith(s, pat) {
      assert OccursAt(s, pat, 0);
    }
  }
}
