/**
 The enqueue loop and the pipeline together, over any number of sessions on the same database: a height that the loop
 keeps is written, or stays in table failed_blocks and is enqueued again, unless its message is lost at the hop.
 */
module Sessions {
  import E = Enqueue
  import L = EnqueueTheorems
  import P = Pipeline
  import T = PipelineTheorems
  import FailedBlocks
  import EnqueueProgress
  import Sharding

  // ---------------------------------------------------------------------------------------------
  // One session
  // ---------------------------------------------------------------------------------------------

  /** The jobs the loop has put on the queue, failed blocks first. */
  function Handed(tr: seq<E.Event>): seq<E.Job> {
    if tr == [] then []
    else Handed(L.Init(tr)) + (if L.Last(tr).Resent? || L.Last(tr).Sent? then [L.Last(tr).job] else [])
  }

  lemma {:induction false} HandedExactly(tr: seq<E.Event>, job: E.Job)
    ensures job in Handed(tr) <==> job in L.Resends(tr) || job in L.Sends(tr)
    decreases |tr|
  {
    if tr != [] {
      HandedExactly(L.Init(tr), job);
    }
  }

  /**
   One call of runIndexer with a single producer: the loop followed for `turns` turns, a schedule of the pipeline, and
   the heights in the tables at the start.
   */
  datatype Session = Session(world: E.World, turns: nat, workers: nat, run: seq<P.Action>, stock: P.Stock)

  ghost function Loop(x: Session): E.State { E.After(x.world, x.turns) }

  ghost predicate Schedules(x: Session) { P.Possible(P.Init(x.world.cap, x.workers, x.stock), x.run) }

  ghost function Final(x: Session): P.State
    requires Schedules(x)
  {
    P.Execute(P.Init(x.world.cap, x.workers, x.stock), x.run)
  }

  /** What was enqueued in the pipeline is what the loop handed over. */
  ghost predicate Fed(handed: seq<E.Job>, enqueued: seq<P.Job>) {
    && |handed| == |enqueued|
    && forall i :: 0 <= i < |handed| ==>
         enqueued[i].height == handed[i].height && enqueued[i].indexTxs == handed[i].indexTxs
  }

  /** The pipeline has come to rest on the jobs of the loop. */
  ghost predicate AtRest(x: Session) {
    Schedules(x) && Fed(Handed(Loop(x).trace), Final(x).front.enqueued) && !T.Busy(Final(x))
  }

  ghost predicate Written(x: Session, h: int)
    requires Schedules(x)
  {
    P.WrittenHeight(Final(x).books.ledger, h)
  }

  ghost predicate Dropped(x: Session, h: int)
    requires Schedules(x)
  {
    exists i :: 0 <= i < |Final(x).books.ledger| && Final(x).books.ledger[i].outcome.Dropped?
                && Final(x).books.ledger[i].job.height == h
  }

  ghost predicate Recorded(x: Session, h: int)
    requires Schedules(x)
  {
    h in Final(x).books.failedRows
  }

  /** Whatever the loop hands over with transactions is written, recorded as failed or dropped at the hop. */
  lemma HandedIsSettled(x: Session, h: int)
    requires AtRest(x) && E.Job(h, true) in Handed(Loop(x).trace)
    ensures Written(x, h) || Recorded(x, h) || Dropped(x, h)
  {
    hide Loop, Handed, P.Possible, P.Execute, P.Inv, T.Busy, T.InFlight, P.Init;
    var handed := Handed(Loop(x).trace);
    var i :| 0 <= i < |handed| && handed[i] == E.Job(h, true);
    var s := Final(x);
    var j := s.front.enqueued[i];
    T.Conservation(x.world.cap, x.workers, x.stock, x.run, j);
    T.IdleMeansSettled(s, j);
    var k := T.FindEntry(s.books.ledger, j);
    BooksInOrder(x);
  }

  lemma BooksInOrder(x: Session)
    requires Schedules(x)
    ensures P.BooksOk(Final(x).books)
  {
    hide P.Possible, P.Execute;
    P.RunInv(P.Init(x.world.cap, x.workers, x.stock), x.run);
  }

  /** The loop keeps the height and has run to the end block. */
  ghost predicate KeptBy(x: Session, h: int) {
    && Loop(x).pc == E.Ended(E.EndReached)
    && x.world.plan.cfg.txIndexing && x.world.plan.start <= h <= x.world.plan.end && E.Kept(x.world.plan, h)
  }

  /**
   When the loop has ended by the end-block test and the pipeline is at rest, every kept height of [start, end] has been
   written, is a row of failed_blocks, or was dropped at the hop.
   */
  lemma KeptIsSettled(x: Session, h: int)
    requires AtRest(x) && KeptBy(x, h)
    ensures Written(x, h) || Recorded(x, h) || Dropped(x, h)
  {
    hide E.After, AtRest, Written, Recorded, Dropped;
    KeptIsHanded(x, h);
    HandedIsSettled(x, h);
  }

  /** A session that reattempts failed blocks sends every recorded height again, before its main loop. */
  lemma RecordedIsReattempted(x: Session, h: int)
    requires AtRest(x) && FailedBlocks.Reattempts(x.world.plan.failed, x.stock.failed) && h in x.stock.failed
    requires !Loop(x).pc.Resending?
    ensures E.Job(h, true) in L.Resends(Loop(x).trace)
    ensures Written(x, h) || Recorded(x, h)
  {
    hide E.After, AtRest, Handed, P.WrittenHeight;
    L.AfterInv(x.world, x.turns);
    RowStays(x, h);
  }

  /** A row of failed_blocks is still there at the end of the session unless its height was written. */
  lemma RowStays(x: Session, h: int)
    requires AtRest(x) && h in x.stock.failed
    ensures Written(x, h) || Recorded(x, h)
  {
    hide P.Possible, P.Execute, Loop, Handed, T.Busy;
    T.RunKeepsRow(P.Init(x.world.cap, x.workers, x.stock), x.run, h);
  }

  /** Conversely, only heights the loop keeps, or that were to be reattempted, get an outcome. */
  lemma NothingElse(x: Session, i: nat)
    requires AtRest(x) && i < |Final(x).books.ledger|
    ensures var h := Final(x).books.ledger[i].job.height;
            || (x.world.plan.start <= h < Loop(x).curr && E.Kept(x.world.plan, h))
            || E.Job(h, true) in x.world.plan.failed
  {
    hide E.After, Handed, P.Possible, P.Execute, T.Busy, L.Sends, L.Resends;
    var s := Final(x);
    T.LedgerSound(x.world.cap, x.workers, x.stock, x.run, i);
    var handed := Handed(Loop(x).trace);
    var k :| 0 <= k < |s.front.enqueued| && s.front.enqueued[k] == s.books.ledger[i].job;
    assert handed[k] in handed;
    HandedExactly(Loop(x).trace, handed[k]);
    if handed[k] in L.Sends(Loop(x).trace) {
      L.SentIsKept(x.world, x.turns, handed[k]);
    } else {
      L.ResendsAreFailed(x.world, x.turns, handed[k]);
    }
  }

  // ---------------------------------------------------------------------------------------------
  // Every loop can be served
  // ---------------------------------------------------------------------------------------------

  /** The pipeline waits for jobs. */
  ghost predicate Ready(s: P.State) {
    && P.Inv(s) && !s.aborted && !s.hop.pipeClosed && s.front.enqueuer.Enqueuing? && !T.Busy(s)
    && s.front.queueCap > 0 && |s.front.workers| > 0 && s.back.txs.cap > 0 && s.back.events.cap > 0
  }

  /** One job goes through the pipeline and is written. */
  lemma ServeOne(s: P.State, job: E.Job) returns (run: seq<P.Action>)
    requires Ready(s)
    ensures P.Possible(s, run) && Ready(P.Execute(s, run))
    ensures P.Execute(s, run).front.enqueued == s.front.enqueued + [P.Job(|s.front.enqueued|, job.height, job.indexTxs)]
    ensures T.OnlyWrote(s.books.ledger, P.Execute(s, run).books.ledger)
    ensures P.Execute(s, run).books.failedRows <= s.books.failedRows
  {
    hide T.Busy, P.Inv, T.OnlyWrote;
    var a := P.ByEnqueuer(P.Enqueue(job.height, job.indexTxs));
    RoomWhenIdle(s);
    var mid := P.Apply(s, a);
    P.StepInv(s, a);
    var rest := T.Drain(mid);
    P.RunInv(mid, rest);
    T.RunShape(mid, rest);
    run := [a] + rest;
    assert run[0] == a && run[1..] == rest;
  }

  lemma RoomWhenIdle(s: P.State)
    requires Ready(s)
    ensures |s.front.queue| < s.front.queueCap && !s.panicked
  {
  }

  lemma {:induction false} Serve(s: P.State, jobs: seq<E.Job>) returns (run: seq<P.Action>)
    requires Ready(s)
    ensures P.Possible(s, run) && Ready(P.Execute(s, run))
    ensures var enqueued := P.Execute(s, run).front.enqueued;
            s.front.enqueued <= enqueued && Fed(jobs, enqueued[|s.front.enqueued|..])
    ensures T.OnlyWrote(s.books.ledger, P.Execute(s, run).books.ledger)
    ensures P.Execute(s, run).books.failedRows <= s.books.failedRows
    decreases |jobs|
  {
    hide P.Possible, P.Execute, Ready;
    if jobs == [] {
      run := [];
      T.RunNone(s);
    } else {
      var first := ServeOne(s, jobs[0]);
      var mid := P.Execute(s, first);
      var rest := Serve(mid, jobs[1..]);
      T.RunSplit(s, first, rest);
      run := first + rest;
      var n, enqueued := |s.front.enqueued|, P.Execute(s, run).front.enqueued;
      assert enqueued[n] == mid.front.enqueued[n];
      assert enqueued[n..] == [enqueued[n]] + enqueued[n + 1..];
    }
  }

  lemma ReadyAtStart(cap: nat, workers: nat, stock: P.Stock)
    requires cap > 0 && workers > 0
    ensures Ready(P.Init(cap, workers, stock))
  {
  }

  /** Whatever the loop does, some schedule of the pipeline comes to rest on its jobs and has written them all. */
  lemma CanRest(w: E.World, turns: nat, workers: nat, stock: P.Stock) returns (x: Session)
    requires w.cap > 0 && workers > 0
    ensures x.world == w && x.turns == turns && x.workers == workers && x.stock == stock && AtRest(x)
    ensures forall h :: E.Job(h, true) in Handed(Loop(x).trace) ==> Written(x, h)
  {
    hide Handed, Loop, P.Possible, P.Execute, T.Busy, P.Inv;
    ReadyAtStart(w.cap, workers, stock);
    var jobs := Handed(E.After(w, turns).trace);
    var run := Serve(P.Init(w.cap, workers, stock), jobs);
    x := Session(w, turns, workers, run, stock);
    LoopIs(x);
    var enqueued := Final(x).front.enqueued;
    assert enqueued[0..] == enqueued;
    forall h | E.Job(h, true) in jobs
      ensures Written(x, h)
    {
      OnlyWrittenSettles(x, h);
    }
  }

  lemma LoopIs(x: Session)
    ensures Loop(x) == E.After(x.world, x.turns)
  {
  }

  lemma OnlyWrittenSettles(x: Session, h: int)
    requires AtRest(x) && E.Job(h, true) in Handed(Loop(x).trace)
    requires T.OnlyWrote([], Final(x).books.ledger)
    ensures Written(x, h)
  {
    hide Loop, Handed, P.Possible, P.Execute, T.Busy, T.InFlight, P.Init;
    var handed := Handed(Loop(x).trace);
    var i :| 0 <= i < |handed| && handed[i] == E.Job(h, true);
    var s := Final(x);
    var j := s.front.enqueued[i];
    T.Conservation(x.world.cap, x.workers, x.stock, x.run, j);
    T.IdleMeansSettled(s, j);
    var k := T.FindEntry(s.books.ledger, j);
  }

  // ---------------------------------------------------------------------------------------------
  // Any job can be lost
  // ---------------------------------------------------------------------------------------------

  /** One job with transactions gets as far as the publisher and is dropped there. */
  lemma LoseOne(s: P.State, job: E.Job) returns (run: seq<P.Action>)
    requires Ready(s) && job.indexTxs
    ensures P.Possible(s, run) && Ready(P.Execute(s, run))
    ensures var j := P.Job(|s.front.enqueued|, job.height, true);
            && P.Execute(s, run).front.enqueued == s.front.enqueued + [j]
            && P.Execute(s, run).books.ledger == s.books.ledger + [P.Entry(j, P.Dropped)]
            && P.Execute(s, run).books.failedRows == s.books.failedRows
  {
    hide P.Possible, P.Execute, P.Inv;
    IdleFront(s);
    var s1 := Apply(s, P.ByEnqueuer(P.Enqueue(job.height, true)));
    var s2 := Apply(s1, P.ByWorker(0, P.Dequeue));
    var s3 := Apply(s2, P.ByWorker(0, P.Fetch(false)));
    var s4 := Apply(s3, P.ByWorker(0, P.HandOver));
    var s5 := Apply(s4, P.AtHop(P.DropAtPublisher));
    assert s5.front.queue == s.front.queue && s5.front.workers == s.front.workers;
    run := [];
    T.RunNone(s5);
    T.RunNext(s4, P.AtHop(P.DropAtPublisher), run);
    run := [P.AtHop(P.DropAtPublisher)] + run;
    T.RunNext(s3, P.ByWorker(0, P.HandOver), run);
    run := [P.ByWorker(0, P.HandOver)] + run;
    T.RunNext(s2, P.ByWorker(0, P.Fetch(false)), run);
    run := [P.ByWorker(0, P.Fetch(false))] + run;
    T.RunNext(s1, P.ByWorker(0, P.Dequeue), run);
    run := [P.ByWorker(0, P.Dequeue)] + run;
    T.RunNext(s, P.ByEnqueuer(P.Enqueue(job.height, true)), run);
    run := [P.ByEnqueuer(P.Enqueue(job.height, true))] + run;
  }

  /** A step together with the invariant it keeps. */
  ghost function Apply(s: P.State, a: P.Action): (s': P.State)
    requires P.Inv(s) && P.Enabled(s, a)
    ensures P.Inv(s')
  {
    P.StepInv(s, a);
    P.Apply(s, a)
  }

  lemma IdleFront(s: P.State)
    requires Ready(s)
    ensures s.front.queue == [] && s.front.workers[0].Idle? && !s.front.resultsClosed && s.hop.publisher.Empty?
    ensures !s.panicked
  {
  }

  /** The handed job `i` was dropped, every other outcome is a write, and no failure was recorded. */
  ghost predicate LostOnly(x: Session, i: nat)
    requires AtRest(x) && i < |Handed(Loop(x).trace)|
  {
    var lost := P.Entry(Final(x).front.enqueued[i], P.Dropped);
    && lost in Final(x).books.ledger && Final(x).books.failedRows <= x.stock.failed
    && forall k :: 0 <= k < |Final(x).books.ledger| ==>
         Final(x).books.ledger[k].outcome.Written? || Final(x).books.ledger[k] == lost
  }

  /** Whatever the loop does, any one of its jobs can be the only one that is not written. */
  lemma CanLose(w: E.World, turns: nat, workers: nat, stock: P.Stock, i: nat) returns (x: Session)
    requires w.cap > 0 && workers > 0
    requires i < |Handed(E.After(w, turns).trace)| && Handed(E.After(w, turns).trace)[i].indexTxs
    ensures x.world == w && x.turns == turns && x.workers == workers && x.stock == stock && AtRest(x) && LostOnly(x, i)
  {
    hide Handed, Loop, P.Possible, P.Execute, T.Busy, P.Inv;
    ReadyAtStart(w.cap, workers, stock);
    var jobs := Handed(E.After(w, turns).trace);
    var s := P.Init(w.cap, workers, stock);
    var before := Serve(s, jobs[..i]);
    var s1 := P.Execute(s, before);
    var loss := LoseOne(s1, jobs[i]);
    var s2 := P.Execute(s1, loss);
    var after := Serve(s2, jobs[i + 1..]);
    T.RunSplit(s1, loss, after);
    T.RunSplit(s, before, loss + after);
    x := Session(w, turns, workers, before + (loss + after), stock);
    LoopIs(x);
    var s3 := Final(x);
    assert s1.front.enqueued[0..] == s1.front.enqueued;
    FedTogether(jobs, i, s1.front.enqueued, s2.front.enqueued, s3.front.enqueued);
    assert s2.books.ledger[|s1.books.ledger|] == P.Entry(s3.front.enqueued[i], P.Dropped);
    assert s3.books.ledger[|s1.books.ledger|] == s2.books.ledger[|s1.books.ledger|];
    forall k | 0 <= k < |s3.books.ledger|
      ensures s3.books.ledger[k].outcome.Written? || s3.books.ledger[k] == P.Entry(s3.front.enqueued[i], P.Dropped)
    {
      if k < |s2.books.ledger| {
        assert s3.books.ledger[k] == s2.books.ledger[k];
      }
    }
  }

  lemma FedTogether(jobs: seq<E.Job>, i: nat, first: seq<P.Job>, second: seq<P.Job>, third: seq<P.Job>)
    requires i < |jobs| && Fed(jobs[..i], first) && second <= third && first <= second && |second| == i + 1
    requires second[i].height == jobs[i].height && second[i].indexTxs == jobs[i].indexTxs
    requires Fed(jobs[i + 1..], third[i + 1..])
    ensures Fed(jobs, third) && third[i] == second[i]
  {
    forall k | 0 <= k < |jobs|
      ensures third[k].height == jobs[k].height && third[k].indexTxs == jobs[k].indexTxs
    {
      if k < i {
        assert third[k] == first[k] && jobs[k] == jobs[..i][k];
      } else if k > i {
        assert third[k] == third[i + 1..][k - i - 1] && jobs[k] == jobs[i + 1..][k - i - 1];
      }
    }
  }

  lemma {:induction false} TwoEntries(ledger: seq<P.Entry>, a: nat, b: nat)
    requires a < b < |ledger| && ledger[a].job == ledger[b].job
    ensures T.CountLedger(ledger, ledger[a].job) >= 2
  {
    if a == 0 {
      T.EntryCounts(ledger[1..], b - 1);
    } else {
      TwoEntries(ledger[1..], a - 1, b - 1);
    }
  }

  /** Every enqueued job with transactions has one entry in the ledger of a session at rest. */
  lemma OneEntry(x: Session, i: nat) returns (k: nat)
    requires AtRest(x) && i < |Final(x).front.enqueued| && Final(x).front.enqueued[i].indexTxs
    ensures var s := Final(x);
            && k < |s.books.ledger| && s.books.ledger[k].job == s.front.enqueued[i]
            && forall l :: 0 <= l < |s.books.ledger| && s.books.ledger[l].job == s.front.enqueued[i] ==> l == k
  {
    hide Loop, Handed, P.Possible, P.Execute, T.Busy, T.InFlight, P.Init, T.CountLedger;
    var s := Final(x);
    var j := s.front.enqueued[i];
    T.Conservation(x.world.cap, x.workers, x.stock, x.run, j);
    T.IdleMeansSettled(s, j);
    k := T.FindEntry(s.books.ledger, j);
    forall l | 0 <= l < |s.books.ledger| && s.books.ledger[l].job == j
      ensures l == k
    {
      if l < k {
        TwoEntries(s.books.ledger, l, k);
      } else if k < l {
        TwoEntries(s.books.ledger, k, l);
      }
    }
  }

  /** Only one handed job has the height of job `i`. */
  ghost predicate OnlyOne(handed: seq<E.Job>, i: nat)
    requires i < |handed|
  {
    forall k :: 0 <= k < |handed| && handed[k].height == handed[i].height ==> k == i
  }

  /** The height of the lost job is neither written nor, unless it had a row before, recorded. */
  lemma LostMeans(x: Session, i: nat)
    requires AtRest(x) && i < |Handed(Loop(x).trace)| && Handed(Loop(x).trace)[i].indexTxs && LostOnly(x, i)
    requires OnlyOne(Handed(Loop(x).trace), i)
    ensures var h := Handed(Loop(x).trace)[i].height;
            Dropped(x, h) && !Written(x, h) && (Recorded(x, h) <==> h in x.stock.failed)
  {
    hide Loop, Handed, T.Busy, Schedules;
    var s, h := Final(x), Handed(Loop(x).trace)[i].height;
    var k := OneEntry(x, i);
    var d :| 0 <= d < |s.books.ledger| && s.books.ledger[d] == P.Entry(s.front.enqueued[i], P.Dropped);
    forall l | 0 <= l < |s.books.ledger| && s.books.ledger[l].job.height == h
      ensures l == d
    {
      LedgerIsHanded(x, l);
    }
    if h in x.stock.failed {
      RowStays(x, h);
    }
  }

  lemma LedgerIsHanded(x: Session, l: nat)
    requires AtRest(x) && l < |Final(x).books.ledger|
    ensures Final(x).books.ledger[l].job in Final(x).front.enqueued
  {
    hide P.Possible, P.Execute, Loop, Handed, T.Busy;
    T.LedgerSound(x.world.cap, x.workers, x.stock, x.run, l);
  }

  /** Every other height with transactions is written. */
  lemma OthersAreWritten(x: Session, i: nat, g: int)
    requires AtRest(x) && i < |Handed(Loop(x).trace)| && LostOnly(x, i)
    requires E.Job(g, true) in Handed(Loop(x).trace) && g != Handed(Loop(x).trace)[i].height
    ensures Written(x, g)
  {
    hide Loop, Handed, T.Busy, Schedules;
    var handed := Handed(Loop(x).trace);
    var k :| 0 <= k < |handed| && handed[k] == E.Job(g, true);
    var l := OneEntry(x, k);
  }

  lemma {:induction false} HandedHits(tr: seq<E.Event>, h: int)
    ensures Sharding.Hits(Handed(tr), h) == Sharding.Hits(L.Resends(tr), h) + Sharding.Hits(L.Sends(tr), h)
    decreases |tr|
  {
    hide Sharding.Hits;
    if tr == [] {
      NoHits(h);
    } else {
      HandedHits(L.Init(tr), h);
      var front, last := L.Init(tr), L.Last(tr);
      assert !last.Resent? ==> L.Resends(tr) == L.Resends(front);
      assert !last.Sent? ==> L.Sends(tr) == L.Sends(front);
      if last.Resent? || last.Sent? {
        HitsNext(Handed(front), last.job, h);
        HitsNext(L.Resends(front), last.job, h);
        HitsNext(L.Sends(front), last.job, h);
      } else {
        assert Handed(tr) == Handed(front);
      }
    }
  }

  lemma NoHits(h: int)
    ensures Sharding.Hits([], h) == 0
  {
  }

  lemma HitsNext(jobs: seq<E.Job>, job: E.Job, h: int)
    ensures Sharding.Hits(jobs + [job], h) == Sharding.Hits(jobs, h) + (if job.height == h then 1 else 0)
  {
    assert (jobs + [job])[..|jobs|] == jobs;
  }

  lemma {:induction false} HitsAtLeast(jobs: seq<E.Job>, h: int, a: nat)
    requires a < |jobs| && jobs[a].height == h
    ensures Sharding.Hits(jobs, h) >= 1
    ensures forall b :: a < b < |jobs| && jobs[b].height == h ==> Sharding.Hits(jobs, h) >= 2
    decreases |jobs|
  {
    var front := jobs[..|jobs| - 1];
    if a < |front| {
      HitsAtLeast(front, h, a);
      assert forall b :: 0 <= b < |front| ==> front[b] == jobs[b];
    }
  }

  lemma {:induction false} HitsNone(jobs: seq<E.Job>, h: int)
    requires forall job :: job in jobs ==> job.height != h
    ensures Sharding.Hits(jobs, h) == 0
    decreases |jobs|
  {
    if jobs != [] {
      HitsNone(jobs[..|jobs| - 1], h);
    }
  }

  /** A run to the end block hands every kept height that is not reattempted over exactly once. */
  lemma HandedOnce(w: E.World, t: nat, h: int) returns (i: nat)
    requires E.After(w, t).pc == E.Ended(E.EndReached) && w.plan.start <= h <= w.plan.end && E.Kept(w.plan, h)
    requires forall job :: job in w.plan.failed ==> job.height != h
    ensures var handed := Handed(E.After(w, t).trace);
            i < |handed| && handed[i] == E.Job(h, w.plan.cfg.txIndexing) && OnlyOne(handed, i)
  {
    hide E.After, Handed, L.Sends, L.Resends, Sharding.Hits;
    var tr := E.After(w, t).trace;
    L.EndReachedSendsAll(w, t);
    E.KeptJobsExact(w.plan, w.plan.start, w.plan.end + 1);
    HandedExactly(tr, E.Job(h, w.plan.cfg.txIndexing));
    var handed := Handed(tr);
    i :| 0 <= i < |handed| && handed[i] == E.Job(h, w.plan.cfg.txIndexing);
    Sharding.HitsOfKept(w.plan, w.plan.start, w.plan.end + 1, h);
    forall job | job in L.Resends(tr)
      ensures job.height != h
    {
      L.ResendsAreFailed(w, t, job);
    }
    HitsNone(L.Resends(tr), h);
    HandedHits(tr, h);
    forall k | 0 <= k < |handed| && handed[k].height == h
      ensures k == i
    {
      HitsAtLeast(handed, h, if k < i then k else i);
    }
  }

  /**
   A loss that leaves no trace: for every plan and every height it keeps, some session ends at the end block, comes to
   rest, has dropped that height and written all others; the height is in failed_blocks only if it was there before.
   */
  lemma LossIsPossible(plan: E.Plan, cap: nat, workers: nat, stock: P.Stock, h: int) returns (x: Session)
    requires cap > 0 && workers > 0 && plan.end != -1 && plan.end <= E.MaxInt64 && plan.cfg.txIndexing
    requires plan.start <= h <= plan.end && E.Kept(plan, h) && forall job :: job in plan.failed ==> job.height != h
    ensures x.world.plan == plan && x.stock == stock && AtRest(x) && KeptBy(x, h)
    ensures Dropped(x, h) && !Written(x, h) && (Recorded(x, h) <==> h in stock.failed)
    ensures forall g :: g != h && KeptBy(x, g) ==> Written(x, g)
  {
    hide E.After, Handed, Dropped, Written, Recorded, LostOnly, Schedules, Fed, T.Busy;
    var w := EnqueueProgress.Idle(plan, cap);
    EnqueueProgress.IdleIsFavourable(plan, cap);
    var t := EnqueueProgress.EndIsReached(w);
    var i := HandedOnce(w, t, h);
    x := CanLose(w, t, workers, stock, i);
    LostMeans(x, i);
    forall g | g != h && KeptBy(x, g)
      ensures Written(x, g)
    {
      KeptIsHanded(x, g);
      OthersAreWritten(x, i, g);
    }
  }

  lemma KeptIsHanded(x: Session, h: int)
    requires KeptBy(x, h)
    ensures E.Job(h, true) in Handed(Loop(x).trace)
  {
    hide E.After, Handed;
    L.EndReachedSendsAll(x.world, x.turns);
    E.KeptJobsExact(x.world.plan, x.world.plan.start, x.world.plan.end + 1);
    HandedExactly(Loop(x).trace, E.Job(h, true));
  }

  // ---------------------------------------------------------------------------------------------
  // Many sessions
  // ---------------------------------------------------------------------------------------------

  /** The heights in the tables when the session is over. */
  ghost function Left(x: Session): P.Stock
    requires Schedules(x)
  {
    P.Stock(Final(x).books.failedRows, Final(x).books.indexed)
  }

  /** Each session finds the tables as the one before it left them. */
  ghost predicate Chain(xs: seq<Session>) {
    && (forall n :: 0 <= n < |xs| ==> AtRest(xs[n]))
    && (forall n :: 1 <= n < |xs| ==> xs[n].stock == Left(xs[n - 1]))
  }

  /**
   A height that session `m` kept, and whose message it did not lose, is written by one of the sessions up to any later
   session `n`, or is still a row of failed_blocks after it.
   */
  lemma {:induction false} NeverForgotten(xs: seq<Session>, m: nat, n: nat, h: int)
    requires Chain(xs) && m <= n < |xs| && KeptBy(xs[m], h) && !Dropped(xs[m], h)
    ensures Recorded(xs[n], h) || exists l :: m <= l <= n && Written(xs[l], h)
    decreases n
  {
    hide KeptBy, Dropped, Written, Schedules, Loop, Handed, Fed, T.Busy;
    if m == n {
      KeptIsSettled(xs[n], h);
    } else {
      NeverForgotten(xs, m, n - 1, h);
      if Recorded(xs[n - 1], h) {
        RowStays(xs[n], h);
      }
    }
  }

  /**
   A height that is not in failed_blocks and lies below a stored one is never sent by a session that does not reindex: a
   message lost at the hop is not made up for once a later block is stored.
   */
  lemma LostIsNotResent(cfg: E.Config, rows: seq<E.BlockRow>, startBlock: int, end: int, skip: set<int>,
                        failed: seq<E.Job>, w: E.World, t: nat, k: nat, h: int)
    requires !cfg.reindex && w.plan == E.MakePlan(cfg, rows, startBlock, end, skip, failed)
    requires k < |rows| && E.Qualifies(rows[k], E.FirstHeight(startBlock), end) && h < rows[k].height
    requires forall job :: job in failed ==> job.height != h
    ensures forall job :: job in Handed(E.After(w, t).trace) ==> job.height != h
  {
    hide E.After, Handed, L.Sends, L.Resends;
    forall job | job in Handed(E.After(w, t).trace)
      ensures job.height != h
    {
      HandedExactly(E.After(w, t).trace, job);
      if job in L.Sends(E.After(w, t).trace) {
        L.SentIsKept(w, t, job);
      } else {
        L.ResendsAreFailed(w, t, job);
      }
    }
  }

  /** So a height that one session left unrecorded is never sent by the next, once a later block is stored. */
  lemma LostForGood(x: Session, cfg: E.Config, rows: seq<E.BlockRow>, startBlock: int, end: int, skip: set<int>,
                    failed: seq<E.Job>, w: E.World, t: nat, k: nat, h: int)
    requires AtRest(x) && !Recorded(x, h) && FailedBlocks.Reattempts(failed, Final(x).books.failedRows)
    requires !cfg.reindex && w.plan == E.MakePlan(cfg, rows, startBlock, end, skip, failed)
    requires k < |rows| && E.Qualifies(rows[k], E.FirstHeight(startBlock), end) && h < rows[k].height
    ensures forall job :: job in Handed(E.After(w, t).trace) ==> job.height != h
  {
    LostIsNotResent(cfg, rows, startBlock, end, skip, failed, w, t, k, h);
  }

  /**
   A session that does not reindex and runs to its end block sends a height that is not stored and not to be reattempted
   if and only if every stored height of its range is below it.
   */
  lemma SentAgainExactly(cfg: E.Config, rows: seq<E.BlockRow>, startBlock: int, end: int, skip: set<int>,
                         failed: seq<E.Job>, w: E.World, t: nat, h: int)
    requires !cfg.reindex && w.plan == E.MakePlan(cfg, rows, startBlock, end, skip, failed)
    requires E.After(w, t).pc == E.Ended(E.EndReached) && E.FirstHeight(startBlock) <= h <= end && h !in skip
    requires forall k :: 0 <= k < |rows| && E.Qualifies(rows[k], E.FirstHeight(startBlock), end) ==> rows[k].height != h
    requires forall job :: job in failed ==> job.height != h
    ensures (exists job :: job in Handed(E.After(w, t).trace) && job.height == h)
            <==> forall k :: 0 <= k < |rows| && E.Qualifies(rows[k], E.FirstHeight(startBlock), end) ==>
                   rows[k].height < h
  {
    hide E.After, Handed;
    var from := E.FirstHeight(startBlock);
    if forall k :: 0 <= k < |rows| && E.Qualifies(rows[k], from, end) ==> rows[k].height < h {
      L.AfterInv(w, t);
      var i := HandedOnce(w, t, h);
    } else {
      var k :| 0 <= k < |rows| && E.Qualifies(rows[k], from, end) && h <= rows[k].height;
      LostIsNotResent(cfg, rows, startBlock, end, skip, failed, w, t, k, h);
    }
  }
}
