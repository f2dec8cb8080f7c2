/** Sorting heights without repetitions. */
module Sorting {

  ghost predicate Ascending(s: seq<int>) { forall i, j :: 0 <= i < j < |s| ==> s[i] < s[j] }

  ghost predicate NoRepeats(s: seq<int>) { forall i, j :: 0 <= i < j < |s| ==> s[i] != s[j] }

  lemma PrependAscending(x: int, s: seq<int>)
    requires Ascending(s) && forall h :: h in s ==> x < h
    ensures Ascending([x] + s)
  {
    assert forall i :: 0 <= i < |s| ==> s[i] in s;
  }

  lemma AppendAscending(s: seq<int>, x: int)
    requires Ascending(s) && forall h :: h in s ==> h < x
    ensures Ascending(s + [x])
  {
    assert forall i :: 0 <= i < |s| ==> s[i] in s;
  }

  /** Where `x` goes in an ascending list. */
  function Insert(s: seq<int>, x: int): (r: seq<int>)
    requires Ascending(s) && x !in s
    ensures Ascending(r) && forall h :: h in r <==> h == x || h in s
  {
    if s == [] then [x]
    else if x < s[0] then
      PrependAscending(x, s);
      [x] + s
    else
      var rest := Insert(s[1..], x);
      assert s == [s[0]] + s[1..];
      PrependAscending(s[0], rest);
      [s[0]] + rest
  }

  /** sort.Slice on a list without repetitions. */
  function Sort(s: seq<int>): (r: seq<int>)
    requires NoRepeats(s)
    ensures Ascending(r) && forall h :: h in r <==> h in s
  {
    if s == [] then []
    else
      assert s == s[..|s| - 1] + [s[|s| - 1]];
      Insert(Sort(s[..|s| - 1]), s[|s| - 1])
  }
}
