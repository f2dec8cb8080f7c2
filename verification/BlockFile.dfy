/** The enqueuer for a file of block heights: deduplicate, sort, keep what the chain has. */
module BlockFile {
  import opened Sorting
  import opened FirstOccurrences

  /** RemoveDuplicatesFromUint64Slice: the first occurrences, in order. */
  method RemoveDuplicates(list: seq<int>) returns (r: seq<int>)
    ensures r == Dedup(list)
  {
    hide Dedup;
    DedupNone<int>();
    var allKeys: set<int> := {};
    r := [];
    assert list[..0] == [];
    for i := 0 to |list|
      invariant r == Dedup(list[..i]) && forall h :: h in allKeys <==> h in list[..i]
    {
      DedupNext(list[..i], list[i]);
      assert list[..i + 1] == list[..i] + [list[i]];
      if list[i] !in allKeys {
        allKeys := allKeys + {list[i]};
        r := r + [list[i]];
      }
    }
    assert list[..|list|] == list;
  }

  lemma DedupIsSet(list: seq<int>)
    ensures NoRepeats(Dedup(list)) && forall h :: h in Dedup(list) <==> h in list
  {
    DedupExact(list);
  }

  /**
   GenerateBlockFileEnqueueFunction after the file is read: `sent` are, strictly ascending and once each, exactly the
   listed heights the chain has; `skipped` are the others, so the two lists partition the deduplicated input.
   */
  method EnqueueFile(listed: seq<int>, earliest: int, latest: int) returns (sent: seq<int>, skipped: seq<int>)
    ensures Ascending(sent) && forall h :: h in sent <==> h in listed && earliest <= h <= latest
    ensures Ascending(skipped) && forall h :: h in skipped <==> h in listed && !(earliest <= h <= latest)
  {
    hide Dedup;
    var blocks := RemoveDuplicates(listed);
    DedupIsSet(listed);
    blocks := Sort(blocks);
    skipped := [];
    var inRange: seq<int> := [];
    for i := 0 to |blocks|
      invariant Ascending(inRange) && forall h :: h in inRange <==> h in blocks[..i] && earliest <= h <= latest
      invariant Ascending(skipped) && forall h :: h in skipped <==> h in blocks[..i] && !(earliest <= h <= latest)
    {
      assert blocks[..i + 1] == blocks[..i] + [blocks[i]];
      assert forall h :: h in blocks[..i] ==> h < blocks[i];
      if blocks[i] > latest || blocks[i] < earliest {
        AppendAscending(skipped, blocks[i]);
        skipped := skipped + [blocks[i]];
      } else {
        AppendAscending(inRange, blocks[i]);
        inRange := inRange + [blocks[i]];
      }
    }
    assert blocks[..|blocks|] == blocks;
    sent := [];
    if |inRange| == 0 { return; }
    for i := 0 to |inRange|
      invariant sent == inRange[..i]
    {
      sent := sent + [inRange[i]];
    }
    assert inRange[..|inRange|] == inRange;
  }
}
