/** Lists without later repetitions. */
module FirstOccurrences {

  function Dedup<T(==)>(s: seq<T>): seq<T> {
    if s == [] then []
    else
      var front := Dedup(s[..|s| - 1]);
      if s[|s| - 1] in front then front else front + [s[|s| - 1]]
  }

  ghost predicate FirstAt<T>(s: seq<T>, x: T, i: nat) { i < |s| && s[i] == x && x !in s[..i] }

  /** Same elements, no repetition, and in the order of their first occurrences. */
  lemma {:induction false} DedupExact<T>(s: seq<T>)
    ensures forall x :: x in Dedup(s) <==> x in s
    ensures forall a, b :: 0 <= a < b < |Dedup(s)| ==> Dedup(s)[a] != Dedup(s)[b]
    ensures forall a, b, i: nat, j: nat ::
              0 <= a < b < |Dedup(s)| && FirstAt(s, Dedup(s)[a], i) && FirstAt(s, Dedup(s)[b], j) ==> i < j
    decreases |s|
  {
    if s != [] {
      var front, x := s[..|s| - 1], s[|s| - 1];
      DedupExact(front);
      assert s == front + [x];
      forall y, i: nat | FirstAt(s, y, i) && y in front
        ensures FirstAt(front, y, i)
      {
        assert i <= |front| ==> s[..i] == front[..i];
      }
    }
  }

  lemma DedupNone<T>()
    ensures Dedup<T>([]) == []
  {
  }

  lemma DedupNext<T>(s: seq<T>, x: T)
    ensures Dedup(s + [x]) == if x in Dedup(s) then Dedup(s) else Dedup(s) + [x]
    ensures x in Dedup(s) <==> x in s
  {
    DedupExact(s);
    assert (s + [x])[..|s|] == s;
  }
}
