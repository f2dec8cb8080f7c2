/** The failed blocks that the default enqueue function sends before its main loop. */
module FailedBlocks {
  import opened Enqueue
  import opened Sorting

  /** The map uniqueBlockFailures: heights of both tables, with transactions for those of failed_blocks. */
  method MergeFailures(eventRows: seq<int>, blockRows: seq<int>) returns (unique: map<int, bool>)
    ensures forall h :: h in unique <==> h in eventRows || h in blockRows
    ensures forall h :: h in unique ==> (unique[h] <==> h in blockRows)
  {
    unique := map[];
    for i := 0 to |eventRows|
      invariant forall h :: h in unique <==> h in eventRows[..i]
      invariant forall h :: h in unique ==> !unique[h]
    {
      unique := unique[eventRows[i] := false];
    }
    for i := 0 to |blockRows|
      invariant forall h :: h in unique <==> h in eventRows || h in blockRows[..i]
      invariant forall h :: h in unique ==> (unique[h] <==> h in blockRows[..i])
    {
      unique := unique[blockRows[i] := true];
    }
  }

  /** The keys of the map, sorted; a map is traversed in any order. */
  method SortedHeights(unique: map<int, bool>) returns (heights: seq<int>)
    ensures Ascending(heights) && forall h :: h in heights <==> h in unique
  {
    var found: seq<int> := [];
    var rest: set<int> := unique.Keys;
    while rest != {}
      invariant NoRepeats(found) && rest <= unique.Keys
      invariant forall h :: h in unique <==> h in found || h in rest
      invariant forall h :: h in found ==> h !in rest
      decreases |rest|
    {
      assert (forall h :: h !in rest) ==> rest == {};
      var h :| h in rest;
      found := found + [h];
      rest := rest - {h};
    }
    heights := Sort(found);
  }

  /** The jobs are in strictly ascending order of height. */
  ghost predicate AscendingJobs(jobs: seq<Job>) {
    forall i, j :: 0 <= i < j < |jobs| ==> jobs[i].height < jobs[j].height
  }

  /** One job with transactions per height, ascending, and no other job. */
  ghost predicate Reattempts(failed: seq<Job>, heights: set<int>) {
    AscendingJobs(failed) && forall job :: job in failed <==> job.indexTxs && job.height in heights
  }

  /**
   The jobs re-enqueued first.  Whatever the rows, their number and their repetitions: one job with transactions per
   distinct height of failed_blocks, ascending, and none for a height that is only in failed_event_blocks, or if
   reattempts or transactions are switched off.
   */
  method FailedJobs(reattempt: bool, txIndexing: bool, eventRows: seq<int>, blockRows: seq<int>)
    returns (failed: seq<Job>)
    ensures Reattempts(failed, if reattempt && txIndexing then set h | h in blockRows else {})
  {
    failed := [];
    if !reattempt { return; }
    var queried := if txIndexing then blockRows else [];
    var unique := MergeFailures(eventRows, queried);
    var heights := SortedHeights(unique);
    for i := 0 to |heights|
      invariant AscendingJobs(failed)
      invariant forall job :: job in failed <==> job.indexTxs && job.height in heights[..i] && job.height in queried
    {
      AppendJob(failed, heights, i);
      if unique[heights[i]] {
        failed := failed + [Job(heights[i], true)];
      }
    }
  }

  lemma AppendJob(jobs: seq<Job>, heights: seq<int>, i: nat)
    requires AscendingJobs(jobs) && Ascending(heights) && i < |heights|
    requires forall job :: job in jobs ==> job.height in heights[..i]
    ensures AscendingJobs(jobs + [Job(heights[i], true)])
  {
    forall k | 0 <= k < |jobs|
      ensures jobs[k].height < heights[i]
    {
      assert jobs[k] in jobs;
    }
  }
}
