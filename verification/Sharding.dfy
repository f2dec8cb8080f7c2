/**
 Fetcher mode: the height range is cut into shards, one enqueuer per shard.  Shards are inclusive at both ends, so
 neighbouring shards share a height and the last one reaches one past the configured end.
 */
module Sharding {
  import opened Enqueue
  import EnqueueTheorems

  /** The number of shards for `total` heights. */
  function Count(total: int, steps: int): int
    requires steps > 0
  {
    (total + steps - 1) / steps
  }

  lemma CountBounds(total: int, steps: int)
    requires total >= 1 && steps > 0
    ensures var n := Count(total, steps);
            n >= 1 && (n - 1) * steps < total <= n * steps
  {
    var n := Count(total, steps);
    assert n * steps == total + steps - 1 - (total + steps - 1) % steps;
    assert (n - 1) * steps == n * steps - steps;
    if n < 1 {
      MulOrder(n, 0, steps);
    }
  }

  lemma MulOrder(a: int, b: int, c: int)
    requires a <= b && c > 0
    ensures a * c <= b * c
  {
  }

  /** calculateGoroutines: every shard but the last has `steps` heights, the last has the rest. */
  method CalculateGoroutines(startBlock: int, endBlock: int, steps: int) returns (n: int, blocks: seq<int>)
    requires startBlock <= endBlock && steps > 0
    ensures n == Count(endBlock - startBlock + 1, steps) && |blocks| == n >= 1
    ensures forall i :: 0 <= i < n - 1 ==> blocks[i] == steps
    ensures blocks[n - 1] == endBlock - startBlock + 1 - (n - 1) * steps && 1 <= blocks[n - 1] <= steps
  {
    var total := endBlock - startBlock + 1;
    n := (total + steps - 1) / steps;
    CountBounds(total, steps);
    var a := new int[n];
    var rest := total;
    for i := 0 to n
      invariant i < n ==> rest == total - i * steps
      invariant forall k :: 0 <= k < i && k < n - 1 ==> a[k] == steps
      invariant i == n ==> a[n - 1] == total - (n - 1) * steps
    {
      if i < n - 1 {
        MulOrder(i + 1, n - 1, steps);
        assert (i + 1) * steps == i * steps + steps;
      } else {
        assert n * steps == (n - 1) * steps + steps;
      }
      if rest >= steps {
        a[i] := steps;
        rest := rest - steps;
      } else {
        a[i] := rest;
      }
    }
    assert n * steps == (n - 1) * steps + steps;
    blocks := a[..];
  }

  /** The heights from `lo` to `hi`, both included. */
  datatype Shard = Shard(lo: int, hi: int)

  /** Shard `k` of the range. */
  function ShardAt(start: int, end: int, steps: int, k: int): Shard
    requires steps > 0
  {
    Shard(start + k * steps, if k < Count(end - start + 1, steps) - 1 then start + (k + 1) * steps else end + 1)
  }

  /** The loop of runIndexerAsFetcher that walks over the blocks of calculateGoroutines. */
  method MakeShards(startBlock: int, endBlock: int, steps: int) returns (shards: seq<Shard>)
    requires startBlock <= endBlock && steps > 0
    ensures |shards| == Count(endBlock - startBlock + 1, steps)
    ensures forall k :: 0 <= k < |shards| ==> shards[k] == ShardAt(startBlock, endBlock, steps, k)
  {
    var n, blocks := CalculateGoroutines(startBlock, endBlock, steps);
    var counter := startBlock;
    shards := [];
    for i := 0 to n
      invariant |shards| == i
      invariant i < n ==> counter == startBlock + i * steps
      invariant forall k :: 0 <= k < i ==> shards[k] == ShardAt(startBlock, endBlock, steps, k)
    {
      var endInternal := counter + blocks[i];
      assert (i + 1) * steps == i * steps + steps;
      shards := shards + [Shard(counter, endInternal)];
      counter := counter + blocks[i];
    }
  }

  // ---------------------------------------------------------------------------------------------
  // What all shards together send
  // ---------------------------------------------------------------------------------------------

  /** GetBlocksInRange: the stored, stamped heights of a shard. */
  function StoredIn(rows: seq<BlockRow>, shard: Shard): set<int> {
    set row | row in rows && Qualifies(row, shard.lo, shard.hi) :: row.height
  }

  ghost predicate IsStored(rows: seq<BlockRow>, h: int) {
    exists row :: row in rows && row.stamped && row.height == h
  }

  function Hits(jobs: seq<Job>, h: int): nat {
    if jobs == [] then 0 else Hits(jobs[..|jobs| - 1], h) + (if jobs[|jobs| - 1].height == h then 1 else 0)
  }

  /** A kept height is sent once, any other not at all. */
  lemma {:induction false} HitsOfKept(plan: Plan, lo: int, hi: int, h: int)
    requires lo <= hi
    ensures Hits(KeptJobs(plan, lo, hi), h) == if lo <= h < hi && Kept(plan, h) then 1 else 0
    decreases hi - lo
  {
    if lo < hi {
      HitsOfKept(plan, lo, hi - 1, h);
      var front := KeptJobs(plan, lo, hi - 1);
      if Kept(plan, hi - 1) {
        var jobs := front + [Job(hi - 1, plan.cfg.txIndexing)];
        assert jobs[..|jobs| - 1] == front && KeptJobs(plan, lo, hi) == jobs;
      } else {
        assert KeptJobs(plan, lo, hi) == front;
      }
    }
  }

  /** The enqueuer of shard `k` runs in some world, among other producers, until the end-block test stops it. */
  ghost predicate RanToEnd(w: World, t: nat, cfg: Config, rows: seq<BlockRow>, failed: seq<Job>, shard: Shard) {
    && w.plan == MakePlan(cfg, rows, shard.lo, shard.hi, StoredIn(rows, shard), failed)
    && After(w, t).pc == Ended(EndReached)
  }

  /** How often the main loops of the first `k` shards sent height `h`. */
  ghost function TotalHits(worlds: seq<World>, ts: seq<nat>, k: nat, h: int): nat
    requires k <= |worlds| == |ts|
  {
    if k == 0 then 0
    else TotalHits(worlds, ts, k - 1, h) + Hits(EnqueueTheorems.Sends(After(worlds[k - 1], ts[k - 1]).trace), h)
  }

  /** The number of times one shard sends `h`. */
  function One(b: bool): nat { if b then 1 else 0 }

  /**
   Whether a shard's enqueuer sends `h`.  With reindexing it skips the stored heights.  Without, it starts at the
   highest stored height of the shard, which it sends only if its transactions are wanted and not indexed yet.
   */
  ghost predicate SentBy(cfg: Config, rows: seq<BlockRow>, shard: Shard, h: int) {
    && shard.lo <= h <= shard.hi
    && if cfg.reindex then !IsStored(rows, h)
       else forall row :: row in rows && row.stamped && h <= row.height <= shard.hi ==>
              row.height == h && cfg.txIndexing && !row.txIndexed
  }

  /** Heights of table blocks are unique; with reindexing this does not matter. */
  ghost predicate Usable(cfg: Config, rows: seq<BlockRow>) { cfg.reindex || EnqueueTheorems.UniqueHeights(rows) }

  lemma StoredInShard(rows: seq<BlockRow>, shard: Shard, h: int)
    requires shard.lo <= h <= shard.hi
    ensures IsStored(rows, h) <==> h in StoredIn(rows, shard)
  {
    if IsStored(rows, h) {
      var row :| row in rows && row.stamped && row.height == h;
      assert Qualifies(row, shard.lo, shard.hi);
    }
  }

  /** A height of the shard is sent exactly if the plan starts at or below it and keeps it. */
  lemma SentByPlan(cfg: Config, rows: seq<BlockRow>, failed: seq<Job>, shard: Shard, h: int)
    requires 1 <= shard.lo <= h <= shard.hi && Usable(cfg, rows)
    ensures var plan := MakePlan(cfg, rows, shard.lo, shard.hi, StoredIn(rows, shard), failed);
            SentBy(cfg, rows, shard, h) <==> plan.start <= h && Kept(plan, h)
  {
    hide StoredIn, IsStored;
    StoredInShard(rows, shard, h);
    if !cfg.reindex {
      var top := HighestStored(rows, shard.lo, shard.hi);
      if top.None? {
        forall row | row in rows && row.stamped
          ensures !(h <= row.height <= shard.hi)
        {
          assert !Qualifies(row, shard.lo, shard.hi);
        }
        StoredQualifies(rows, shard, h);
      } else {
        TopDecides(cfg, rows, shard, top.value, h);
        if top.value.height < h {
          StoredQualifies(rows, shard, h);
        }
      }
    }
  }

  lemma StoredQualifies(rows: seq<BlockRow>, shard: Shard, h: int)
    requires shard.lo <= h <= shard.hi
    requires forall row :: row in rows && Qualifies(row, shard.lo, shard.hi) ==> row.height < h
    ensures !IsStored(rows, h)
  {
  }

  lemma TopDecides(cfg: Config, rows: seq<BlockRow>, shard: Shard, top: BlockRow, h: int)
    requires !cfg.reindex && 1 <= shard.lo <= h <= shard.hi && EnqueueTheorems.UniqueHeights(rows)
    requires top in rows && Qualifies(top, shard.lo, shard.hi)
    requires forall row :: row in rows && Qualifies(row, shard.lo, shard.hi) ==> row.height <= top.height
    ensures SentBy(cfg, rows, shard, h)
            <==> top.height < h || (top.height == h && cfg.txIndexing && !top.txIndexed)
  {
    if top.height <= h {
      forall row | row in rows && row.stamped && h <= row.height <= shard.hi
        ensures row == top
      {
        assert Qualifies(row, shard.lo, shard.hi);
      }
    }
  }

  lemma ShardSends(w: World, t: nat, cfg: Config, rows: seq<BlockRow>, failed: seq<Job>, shard: Shard, h: int)
    requires 1 <= shard.lo <= shard.hi && Usable(cfg, rows) && RanToEnd(w, t, cfg, rows, failed, shard)
    ensures Hits(EnqueueTheorems.Sends(After(w, t).trace), h) == One(SentBy(cfg, rows, shard, h))
  {
    hide After, SentBy, StoredIn;
    PlanStart(cfg, rows, failed, shard);
    EnqueueTheorems.EndReachedSendsAll(w, t);
    HitsOfKept(w.plan, w.plan.start, shard.hi + 1, h);
    if shard.lo <= h <= shard.hi {
      SentByPlan(cfg, rows, failed, shard, h);
    } else {
      OutsideIsNotSent(cfg, rows, shard, h);
    }
  }

  lemma PlanStart(cfg: Config, rows: seq<BlockRow>, failed: seq<Job>, shard: Shard)
    requires 1 <= shard.lo <= shard.hi
    ensures var plan := MakePlan(cfg, rows, shard.lo, shard.hi, StoredIn(rows, shard), failed);
            shard.lo <= plan.start <= shard.hi && plan.end == shard.hi
  {
  }

  lemma OutsideIsNotSent(cfg: Config, rows: seq<BlockRow>, shard: Shard, h: int)
    requires h < shard.lo || shard.hi < h
    ensures !SentBy(cfg, rows, shard, h)
  {
  }

  // ---------------------------------------------------------------------------------------------
  // Which shards a height is in
  // ---------------------------------------------------------------------------------------------

  /** The last shard that contains `h`. */
  function LastShard(start: int, end: int, steps: int, h: int): int
    requires steps > 0
  {
    Min((h - start) / steps, Count(end - start + 1, steps) - 1)
  }

  /** Only the last shard of `h` and the one before it can contain `h`. */
  lemma TwoShards(start: int, end: int, steps: int, j: nat, h: int)
    requires start <= end && steps > 0 && start <= h <= end + 1 && j < Count(end - start + 1, steps)
    requires j != LastShard(start, end, steps, h) && j != LastShard(start, end, steps, h) - 1
    ensures h < ShardAt(start, end, steps, j).lo || ShardAt(start, end, steps, j).hi < h
  {
    var q, k := (h - start) / steps, LastShard(start, end, steps, h);
    assert q * steps <= h - start < (q + 1) * steps by { DivBounds(h - start, steps); }
    if j < k {
      MulOrder(j + 2, q, steps);
      assert (j + 2) * steps == (j + 1) * steps + steps;
    } else {
      MulOrder(q + 1, j, steps);
    }
  }

  lemma DivBounds(x: int, s: int)
    requires s > 0
    ensures x / s * s <= x < (x / s + 1) * s
  {
    assert x == s * (x / s) + x % s;
    assert (x / s + 1) * s == x / s * s + s;
  }

  lemma {:induction false} FirstShards(start: int, end: int, steps: int, m: nat, worlds: seq<World>, ts: seq<nat>,
                                       cfg: Config, rows: seq<BlockRow>, failed: seq<Job>, h: int)
    requires 1 <= start <= end && steps > 0 && Usable(cfg, rows) && start <= h <= end + 1
    requires m <= |worlds| == |ts| == Count(end - start + 1, steps)
    requires forall i :: 0 <= i < |worlds| ==>
               RanToEnd(worlds[i], ts[i], cfg, rows, failed, ShardAt(start, end, steps, i))
    ensures var k := LastShard(start, end, steps, h);
            TotalHits(worlds, ts, m, h)
            == (if k < m then One(SentBy(cfg, rows, ShardAt(start, end, steps, k), h)) else 0)
               + (if 1 <= k <= m then One(SentBy(cfg, rows, ShardAt(start, end, steps, k - 1), h)) else 0)
    decreases m
  {
    hide After, SentBy, RanToEnd, LastShard;
    LastShardIn(start, end, steps, h);
    if m > 0 {
      FirstShards(start, end, steps, m - 1, worlds, ts, cfg, rows, failed, h);
      var shard := ShardAt(start, end, steps, m - 1);
      ShardOrdered(start, end, steps, m - 1);
      ShardSends(worlds[m - 1], ts[m - 1], cfg, rows, failed, shard, h);
      var k := LastShard(start, end, steps, h);
      if m - 1 != k && m - 1 != k - 1 {
        TwoShards(start, end, steps, m - 1, h);
        OutsideIsNotSent(cfg, rows, shard, h);
      }
    }
  }

  lemma LastShardIn(start: int, end: int, steps: int, h: int)
    requires start <= end && steps > 0 && start <= h
    ensures 0 <= LastShard(start, end, steps, h) < Count(end - start + 1, steps)
  {
    CountBounds(end - start + 1, steps);
    DivBounds(h - start, steps);
    if (h - start) / steps < 0 {
      MulOrder((h - start) / steps + 1, 0, steps);
    }
  }

  lemma ShardOrdered(start: int, end: int, steps: int, k: nat)
    requires 1 <= start <= end && steps > 0 && k < Count(end - start + 1, steps)
    ensures 1 <= ShardAt(start, end, steps, k).lo <= ShardAt(start, end, steps, k).hi <= end + 1
  {
    CountBounds(end - start + 1, steps);
    var n := Count(end - start + 1, steps);
    MulOrder(0, k, steps);
    MulOrder(k, n - 1, steps);
    assert (k + 1) * steps == k * steps + steps;
    if k < n - 1 {
      MulOrder(k + 1, n - 1, steps);
    }
  }

  lemma {:induction false} NothingOutside(start: int, end: int, steps: int, m: nat, worlds: seq<World>, ts: seq<nat>,
                                          cfg: Config, rows: seq<BlockRow>, failed: seq<Job>, h: int)
    requires 1 <= start <= end && steps > 0 && Usable(cfg, rows) && (h < start || end + 1 < h)
    requires m <= |worlds| == |ts| == Count(end - start + 1, steps)
    requires forall i :: 0 <= i < |worlds| ==>
               RanToEnd(worlds[i], ts[i], cfg, rows, failed, ShardAt(start, end, steps, i))
    ensures TotalHits(worlds, ts, m, h) == 0
    decreases m
  {
    hide After, SentBy, RanToEnd;
    if m > 0 {
      NothingOutside(start, end, steps, m - 1, worlds, ts, cfg, rows, failed, h);
      ShardOrdered(start, end, steps, m - 1);
      MulOrder(0, m - 1, steps);
      ShardSends(worlds[m - 1], ts[m - 1], cfg, rows, failed, ShardAt(start, end, steps, m - 1), h);
      OutsideIsNotSent(cfg, rows, ShardAt(start, end, steps, m - 1), h);
    }
  }

  /**
   When every shard's enqueuer has returned by the end-block test, the main loops have together sent each height of
   [start, end + 1] as often as the last shard that contains it and the shard before that one send it, and nothing else.
   */
  lemma ShardedSends(start: int, end: int, steps: int, worlds: seq<World>, ts: seq<nat>,
                     cfg: Config, rows: seq<BlockRow>, failed: seq<Job>, h: int)
    requires 1 <= start <= end && steps > 0 && Usable(cfg, rows)
    requires |worlds| == |ts| == Count(end - start + 1, steps)
    requires forall i :: 0 <= i < |worlds| ==>
               RanToEnd(worlds[i], ts[i], cfg, rows, failed, ShardAt(start, end, steps, i))
    ensures var k := LastShard(start, end, steps, h);
            TotalHits(worlds, ts, |worlds|, h)
            == if h < start || end + 1 < h then 0
               else One(SentBy(cfg, rows, ShardAt(start, end, steps, k), h))
                    + (if k > 0 then One(SentBy(cfg, rows, ShardAt(start, end, steps, k - 1), h)) else 0)
  {
    hide After, SentBy, RanToEnd, TotalHits, LastShard;
    if h < start || end + 1 < h {
      NothingOutside(start, end, steps, |worlds|, worlds, ts, cfg, rows, failed, h);
    } else {
      LastShardIn(start, end, steps, h);
      FirstShards(start, end, steps, |worlds|, worlds, ts, cfg, rows, failed, h);
    }
  }

  /** The last shard contains the height; the one before it only if the height is an interior boundary. */
  lemma InLastShard(start: int, end: int, steps: int, h: int)
    requires 1 <= start <= end && steps > 0 && start <= h <= end + 1
    ensures var n, k := Count(end - start + 1, steps), LastShard(start, end, steps, h);
            && ShardAt(start, end, steps, k).lo <= h <= ShardAt(start, end, steps, k).hi
            && (k > 0 ==> ShardAt(start, end, steps, k - 1).lo <= h)
            && (k > 0 && h <= ShardAt(start, end, steps, k - 1).hi
                <==> h != start && h <= start + (n - 1) * steps && (h - start) % steps == 0)
  {
    var n, q, k := Count(end - start + 1, steps), (h - start) / steps, LastShard(start, end, steps, h);
    LastShardIn(start, end, steps, h);
    DivBounds(h - start, steps);
    CountBounds(end - start + 1, steps);
    MulOrder(k, q, steps);
    assert (k + 1) * steps == k * steps + steps && (k - 1 + 1) * steps == k * steps;
    assert h - start == steps * q + (h - start) % steps && q * steps == steps * q;
    if k > 0 {
      MulOrder(k - 1, q, steps);
    }
    if q > n - 1 {
      MulOrder(n, q, steps);
      assert n * steps == (n - 1) * steps + steps;
    } else {
      MulOrder(q, n - 1, steps);
    }
  }

  /**
   With reindexing, every height of [start, end + 1] that is not stored is sent: the interior shard boundaries twice,
   all others once, and nothing else.
   */
  lemma ShardedCoverage(start: int, end: int, steps: int, worlds: seq<World>, ts: seq<nat>,
                        cfg: Config, rows: seq<BlockRow>, failed: seq<Job>, h: int)
    requires 1 <= start <= end && steps > 0 && cfg.reindex
    requires |worlds| == |ts| == Count(end - start + 1, steps)
    requires forall i :: 0 <= i < |worlds| ==>
               RanToEnd(worlds[i], ts[i], cfg, rows, failed, ShardAt(start, end, steps, i))
    ensures TotalHits(worlds, ts, |worlds|, h)
            == if IsStored(rows, h) || h < start || end + 1 < h then 0
               else if h != start && h <= start + (|worlds| - 1) * steps && (h - start) % steps == 0 then 2
               else 1
  {
    hide After, RanToEnd, TotalHits, LastShard, IsStored, ShardAt;
    ShardedSends(start, end, steps, worlds, ts, cfg, rows, failed, h);
    if start <= h <= end + 1 {
      InLastShard(start, end, steps, h);
    }
  }

  /** With or without reindexing, a height is sent if and only if some shard sends it. */
  lemma SentBySome(start: int, end: int, steps: int, worlds: seq<World>, ts: seq<nat>,
                   cfg: Config, rows: seq<BlockRow>, failed: seq<Job>, h: int)
    requires 1 <= start <= end && steps > 0 && Usable(cfg, rows)
    requires |worlds| == |ts| == Count(end - start + 1, steps)
    requires forall i :: 0 <= i < |worlds| ==>
               RanToEnd(worlds[i], ts[i], cfg, rows, failed, ShardAt(start, end, steps, i))
    ensures TotalHits(worlds, ts, |worlds|, h) > 0
            <==> exists k :: 0 <= k < |worlds| && SentBy(cfg, rows, ShardAt(start, end, steps, k), h)
  {
    hide After, RanToEnd, TotalHits, LastShard, SentBy, ShardAt;
    ShardedSends(start, end, steps, worlds, ts, cfg, rows, failed, h);
    if start <= h <= end + 1 {
      LastShardIn(start, end, steps, h);
    }
    forall k | 0 <= k < |worlds| && SentBy(cfg, rows, ShardAt(start, end, steps, k), h)
      ensures TotalHits(worlds, ts, |worlds|, h) > 0
    {
      ShardWithin(start, end, steps, k);
      if h < start || end + 1 < h {
        OutsideIsNotSent(cfg, rows, ShardAt(start, end, steps, k), h);
      } else if k != LastShard(start, end, steps, h) && k != LastShard(start, end, steps, h) - 1 {
        TwoShards(start, end, steps, k, h);
        OutsideIsNotSent(cfg, rows, ShardAt(start, end, steps, k), h);
      }
    }
  }

  lemma ShardWithin(start: int, end: int, steps: int, k: nat)
    requires 1 <= start <= end && steps > 0 && k < Count(end - start + 1, steps)
    ensures start <= ShardAt(start, end, steps, k).lo && ShardAt(start, end, steps, k).hi <= end + 1
  {
    ShardOrdered(start, end, steps, k);
    MulOrder(0, k, steps);
  }

  /**
   Without reindexing gaps stay: rows 1 and 3 are stored with their transactions, and a single shard of the range [1, 3]
   sends height 4 alone.
   */
  lemma GapInShard(h: int)
    ensures var rows := [BlockRow(1, true, true), BlockRow(3, true, true)];
            && ShardAt(1, 3, 3, 0) == Shard(1, 4)
            && (SentBy(Config(false, true, false), rows, Shard(1, 4), h) <==> h == 4)
  {
    var rows := [BlockRow(1, true, true), BlockRow(3, true, true)];
    assert rows[0] in rows && rows[1] in rows;
  }
}
