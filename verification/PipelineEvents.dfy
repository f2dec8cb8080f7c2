/**
 Theorems about block events and about table failed_blocks in every schedule of the pipeline: the block events of each
 job have exactly one place or one end, and the last step that touches a height decides whether it is a row.
 */
module PipelineEvents {
  import opened Pipeline
  import opened PipelineTheorems

  // ---------------------------------------------------------------------------------------------
  // Conservation: where the block events of a job are
  // ---------------------------------------------------------------------------------------------

  function CountWire(s: seq<Item>, j: Job): nat { if s == [] then 0 else One(s[0].job == j) + CountWire(s[1..], j) }

  function CountHand(s: Slot, j: Job): nat { if s.Full? then One(s.item.job == j) else 0 }

  function CountFetch(w: Worker, j: Job): nat {
    match w
    case Fetching(job) => One(job == j)
    case Sending(item) => One(item.job == j)
    case _ => 0
  }

  function CountFetches(s: seq<Worker>, j: Job): nat {
    if s == [] then 0 else CountFetch(s[0], j) + CountFetches(s[1..], j)
  }

  function CountEnds(s: seq<EventsEntry>, j: Job): nat {
    if s == [] then 0 else One(s[0].job == j) + CountEnds(s[1..], j)
  }

  function EventsInHop(h: Hop, j: Job): nat {
    CountHand(h.publisher, j) + CountWire(h.wire, j) + CountHand(h.subscriber, j) + CountHand(h.forwarder, j)
  }

  /** The processor holds block events only before its event part. */
  function EventsInBack(b: Back, j: Job): nat {
    (if b.processor.Events? then One(b.processor.item.job == j) else 0)
    + CountJobs(b.events.buffer, j) + (if b.writer.WritingEvents? then One(b.writer.job == j) else 0)
  }

  /** In how many channels and goroutines the block events of job `j` are. */
  function EventsInFlight(s: State, j: Job): nat {
    CountJobs(s.front.queue, j) + CountFetches(s.front.workers, j) + EventsInHop(s.hop, j) + EventsInBack(s.back, j)
  }

  /** How many ends the block events of job `j` have had. */
  function EventsEnded(s: State, j: Job): nat { CountEnds(s.books.ends, j) }

  lemma {:induction false} CountWireAppend(s: seq<Item>, x: Item, j: Job)
    ensures CountWire(s + [x], j) == CountWire(s, j) + One(x.job == j)
  {
    if s == [] {
      assert s + [x] == [x];
    } else {
      assert (s + [x])[1..] == s[1..] + [x];
      CountWireAppend(s[1..], x, j);
    }
  }

  lemma {:induction false} CountEndsAppend(s: seq<EventsEntry>, x: EventsEntry, j: Job)
    ensures CountEnds(s + [x], j) == CountEnds(s, j) + One(x.job == j)
  {
    if s == [] {
      assert s + [x] == [x];
    } else {
      assert (s + [x])[1..] == s[1..] + [x];
      CountEndsAppend(s[1..], x, j);
    }
  }

  lemma {:induction false} CountFetchesUpdate(s: seq<Worker>, w: nat, x: Worker, j: Job)
    requires w < |s|
    ensures CountFetches(s[w := x], j) + CountFetch(s[w], j) == CountFetches(s, j) + CountFetch(x, j)
  {
    if w == 0 {
      assert s[0 := x][1..] == s[1..];
    } else {
      assert s[w := x][1..] == s[1..][w - 1 := x];
      CountFetchesUpdate(s[1..], w - 1, x, j);
    }
  }

  lemma EndCount(b: Books, job: Job, end: EventsEnd, j: Job)
    ensures CountEnds(EndEvents(b, job, end).ends, j) == CountEnds(b.ends, j) + One(job == j)
  {
    CountEndsAppend(b.ends, EventsEntry(job, end), j);
  }

  /** Places and ends together, and the jobs enqueued so far. */
  ghost predicate KeepsEvents(s: State, s': State, j: Job) {
    && EventsInFlight(s', j) + EventsEnded(s', j) == EventsInFlight(s, j) + EventsEnded(s, j)
    && s'.front.enqueued == s.front.enqueued
  }

  lemma WorkerEvents(s: State, w: nat, r: WorkerAction, j: Job)
    requires Inv(s) && WorkerEnabled(s, w, r)
    ensures KeepsEvents(s, WorkerStep(s, w, r), j)
  {
    var s' := WorkerStep(s, w, r);
    if !(r.HandOver? && s.front.resultsClosed) {
      CountFetchesUpdate(s.front.workers, w, s'.front.workers[w], j);
    }
    if r.FetchFails? {
      EndCount(s.books, s.front.workers[w].job, NotFetched, j);
    }
  }

  lemma HopEvents(s: State, h: HopAction, j: Job)
    requires HopEnabled(s, h)
    ensures KeepsEvents(s, HopStep(s, h), j)
  {
    match h
    case Publish => CountWireAppend(s.hop.wire, s.hop.publisher.item, j);
    case DropAtPublisher => EndCount(s.books, s.hop.publisher.item.job, Lost, j);
    case DropOnWire => EndCount(s.books, s.hop.wire[0].job, Lost, j);
    case DropAtSubscriber => EndCount(s.books, s.hop.subscriber.item.job, Lost, j);
    case _ =>
  }

  lemma EventsStillOpen(s: State, p: ProcessorAction)
    requires ProcessorEnabled(s, p)
    ensures !(p.EventsParsed? && s.back.EventsClosed())
  {
  }

  lemma ProcessorEvents(s: State, p: ProcessorAction, j: Job)
    requires !(p.EventsParsed? && s.back.EventsClosed()) && ProcessorEnabled(s, p)
    ensures var s' := ProcessorStep(s, p);
            && s'.front == s.front && s'.hop == s.hop
            && EventsInBack(s'.back, j) + EventsEnded(s', j) == EventsInBack(s.back, j) + EventsEnded(s, j)
  {
    match p
    case BlockFails => EndCount(s.books, s.back.processor.item.job, NotProcessed, j);
    case EventsFail => EndCount(s.books, s.back.processor.item.job, NotParsed, j);
    case EventsParsed => CountJobsAppend(s.back.events.buffer, s.back.processor.item.job, j);
    case _ =>
  }

  lemma WriterEvents(s: State, d: WriterAction, j: Job)
    requires WriterEnabled(s.back, d)
    ensures EventsInBack(WriterStep(s.back, d), j) + CountEnds(WriterBooks(s, d).ends, j)
            == EventsInBack(s.back, j) + EventsEnded(s, j)
  {
    if d.WriteEvents? {
      EndCount(s.books, s.back.writer.job, if s.back.writer.job.height in s.books.indexed then Ignored else Indexed, j);
    }
  }

  lemma StepConservesEvents(s: State, a: Action, j: Job)
    requires Inv(s) && Enabled(s, a)
    requires EventsInFlight(s, j) + EventsEnded(s, j) == CountJobs(s.front.enqueued, j)
    ensures var s' := Apply(s, a);
            EventsInFlight(s', j) + EventsEnded(s', j) == CountJobs(s'.front.enqueued, j)
  {
    hide WorkerStep, HopStep, ProcessorStep, WriterStep, WriterBooks, CountJobs, CountFetches, CountEnds;
    hide EventsInHop, EventsInBack;
    match a
    case ByEnqueuer(e) =>
      if e.Enqueue? {
        var job := Job(|s.front.enqueued|, e.height, e.indexTxs);
        CountJobsAppend(s.front.enqueued, job, j);
        CountJobsAppend(s.front.queue, job, j);
      }
    case ByWorker(w, r) => WorkerEvents(s, w, r, j);
    case AtHop(h) => HopEvents(s, h, j);
    case ByProcessor(p) =>
      EventsStillOpen(s, p);
      ProcessorEvents(s, p, j);
    case ByWriter(d) => WriterEvents(s, d, j);
    case _ =>
  }

  lemma {:induction false} RunConservesEvents(s: State, run: seq<Action>, j: Job)
    requires Inv(s) && Possible(s, run)
    requires EventsInFlight(s, j) + EventsEnded(s, j) == CountJobs(s.front.enqueued, j)
    ensures var s' := Execute(s, run);
            EventsInFlight(s', j) + EventsEnded(s', j) == CountJobs(s'.front.enqueued, j)
    decreases |run|
  {
    hide EventsInFlight, EventsEnded, CountJobs, Inv, Apply, Enabled;
    if run != [] {
      StepConservesEvents(s, run[0], j);
      StepInv(s, run[0]);
      RunConservesEvents(Apply(s, run[0]), run[1..], j);
    }
  }

  lemma {:induction false} NoFetches(n: nat, j: Job)
    ensures CountFetches(seq(n, _ => Idle), j) == 0
  {
    if n > 0 {
      assert seq(n, _ => Idle)[1..] == seq(n - 1, _ => Idle);
      NoFetches(n - 1, j);
    }
  }

  lemma NoEventsStarted(queueCap: nat, workers: nat, stock: Stock, j: Job)
    ensures var s := Init(queueCap, workers, stock);
            EventsInFlight(s, j) == 0 && EventsEnded(s, j) == 0 && CountJobs(s.front.enqueued, j) == 0
  {
    NoFetches(workers, j);
  }

  /**
   In every schedule, the block events of every enqueued job, with or without transactions, are in exactly one channel
   or goroutine and have not ended, or are nowhere and have ended in exactly one way.
   */
  lemma EventsConserved(queueCap: nat, workers: nat, stock: Stock, run: seq<Action>, j: Job)
    requires Possible(Init(queueCap, workers, stock), run)
    ensures var s := Execute(Init(queueCap, workers, stock), run);
            EventsInFlight(s, j) + EventsEnded(s, j) == One(j in s.front.enqueued)
  {
    hide Possible, Execute, EventsInFlight, EventsEnded, CountJobs, Init, FrontOk, BackOk, BooksOk;
    var s := Init(queueCap, workers, stock);
    InitInv(queueCap, workers, stock);
    NoEventsStarted(queueCap, workers, stock, j);
    RunConservesEvents(s, run, j);
    RunInv(s, run);
    IdsInOrder(Execute(s, run));
    CountDistinct(Execute(s, run).front.enqueued, 0, j);
  }

  lemma {:induction false} NoFetch(ws: seq<Worker>, j: Job)
    requires forall w :: 0 <= w < |ws| ==> !ws[w].Fetching? && !ws[w].Sending?
    ensures CountFetches(ws, j) == 0
  {
    if ws != [] {
      NoFetch(ws[1..], j);
    }
  }

  lemma IdleMeansEnded(s: State, j: Job)
    requires !Busy(s)
    ensures EventsInFlight(s, j) == 0
  {
    NoFetch(s.front.workers, j);
  }

  lemma {:induction false} FindEnd(ends: seq<EventsEntry>, j: Job) returns (i: nat)
    requires CountEnds(ends, j) > 0
    ensures i < |ends| && ends[i].job == j
  {
    if ends[0].job == j {
      i := 0;
    } else {
      i := FindEnd(ends[1..], j);
      i := i + 1;
    }
  }

  // ---------------------------------------------------------------------------------------------
  // What the writer handled
  // ---------------------------------------------------------------------------------------------

  /** The ends that came about in the writer, in order. */
  function WriterEnds(ends: seq<EventsEntry>): seq<Job> {
    if ends == [] then []
    else WriterEnds(ends[..|ends| - 1]) + (if ByTheWriter(ends[|ends| - 1]) then [ends[|ends| - 1].job] else [])
  }

  lemma WriterEndsNext(ends: seq<EventsEntry>, e: EventsEntry)
    ensures WriterEnds(ends + [e]) == if ByTheWriter(e) then WriterEnds(ends) + [e.job] else WriterEnds(ends)
  {
    assert (ends + [e])[..|ends|] == ends;
  }

  lemma {:induction false} InWriterEnds(ends: seq<EventsEntry>, i: nat)
    requires i < |ends| && ByTheWriter(ends[i])
    ensures ends[i].job in WriterEnds(ends)
    decreases |ends|
  {
    if i < |ends| - 1 {
      InWriterEnds(ends[..|ends| - 1], i);
    }
  }

  lemma StepHandles(s: State, a: Action)
    requires Enabled(s, a) && s.back.events.handled == WriterEnds(s.books.ends)
    ensures Apply(s, a).back.events.handled == WriterEnds(Apply(s, a).books.ends)
  {
    hide WriterEnds;
    var ends, ends' := s.books.ends, Apply(s, a).books.ends;
    if ends' != ends {
      WriterEndsNext(ends, ends'[|ends|]);
      assert ends' == ends + [ends'[|ends|]];
    }
  }

  lemma {:induction false} RunHandles(s: State, run: seq<Action>)
    requires Possible(s, run) && s.back.events.handled == WriterEnds(s.books.ends)
    ensures Execute(s, run).back.events.handled == WriterEnds(Execute(s, run).books.ends)
    decreases |run|
  {
    hide WriterEnds, Enabled, Apply;
    if run != [] {
      StepHandles(s, run[0]);
      RunHandles(Apply(s, run[0]), run[1..]);
    }
  }

  ghost predicate NoEventsFailed(ends: seq<EventsEntry>) { forall i :: 0 <= i < |ends| ==> ByTheWriter(ends[i]) }

  /**
   When the pipeline has come to rest and no block failed, no block events failed and no message was dropped, the writer
   has handled the block events of every enqueued job, each exactly once.
   */
  lemma AllEventsHandled(queueCap: nat, workers: nat, stock: Stock, run: seq<Action>, j: Job)
    requires Possible(Init(queueCap, workers, stock), run)
    requires var s := Execute(Init(queueCap, workers, stock), run);
             !Busy(s) && NoEventsFailed(s.books.ends) && j in s.front.enqueued
    ensures var s := Execute(Init(queueCap, workers, stock), run);
            j in s.back.events.handled && EventsEnded(s, j) == 1
  {
    hide Possible, Execute, Busy, EventsInFlight, CountEnds, WriterEnds;
    var init := Init(queueCap, workers, stock);
    var s := Execute(init, run);
    EventsConserved(queueCap, workers, stock, run, j);
    IdleMeansEnded(s, j);
    var i := FindEnd(s.books.ends, j);
    InWriterEnds(s.books.ends, i);
    NoEnds();
    RunHandles(init, run);
  }

  lemma NoEnds()
    ensures WriterEnds([]) == []
  {
  }

  // ---------------------------------------------------------------------------------------------
  // Ignored block events
  // ---------------------------------------------------------------------------------------------

  /** The indexed heights are those at the start and those written since. */
  ghost predicate IndexedOk(s: State, stock: Stock) {
    forall h :: h in s.books.indexed <==> h in stock.indexed || WrittenHeight(s.books.ledger, h)
  }

  lemma WrittenNext(ledger: seq<Entry>, e: Entry, h: int)
    ensures WrittenHeight(ledger + [e], h) <==> WrittenHeight(ledger, h) || (e.outcome.Written? && e.job.height == h)
  {
    var ledger' := ledger + [e];
    if WrittenHeight(ledger, h) {
      var i :| 0 <= i < |ledger| && ledger[i].outcome.Written? && ledger[i].job.height == h;
      assert ledger'[i] == ledger[i];
    }
    assert ledger'[|ledger|] == e;
  }

  lemma StepIndexed(s: State, a: Action, stock: Stock)
    requires Enabled(s, a) && IndexedOk(s, stock)
    ensures IndexedOk(Apply(s, a), stock)
  {
    hide WrittenHeight;
    var ledger, ledger' := s.books.ledger, Apply(s, a).books.ledger;
    if ledger' != ledger {
      assert ledger' == ledger + [ledger'[|ledger|]];
      forall h
        ensures h in Apply(s, a).books.indexed <==> h in stock.indexed || WrittenHeight(ledger', h)
      {
        WrittenNext(ledger, ledger'[|ledger|], h);
      }
    }
  }

  lemma {:induction false} RunIndexed(s: State, run: seq<Action>, stock: Stock)
    requires Possible(s, run) && IndexedOk(s, stock)
    ensures IndexedOk(Execute(s, run), stock)
    decreases |run|
  {
    hide IndexedOk, Enabled, Apply;
    if run != [] {
      StepIndexed(s, run[0], stock);
      RunIndexed(Apply(s, run[0]), run[1..], stock);
    }
  }

  /**
   The writer ignores the block events of a job if and only if the block's transactions were indexed at the start or
   have been written since.
   */
  lemma IgnoredExactly(queueCap: nat, workers: nat, stock: Stock, run: seq<Action>)
    requires Possible(Init(queueCap, workers, stock), run)
    requires Enabled(Execute(Init(queueCap, workers, stock), run), ByWriter(WriteEvents))
    ensures var s := Execute(Init(queueCap, workers, stock), run);
            var h := s.back.writer.job.height;
            var ends := Apply(s, ByWriter(WriteEvents)).books.ends;
            && |ends| == |s.books.ends| + 1
            && ends[|s.books.ends|] == EventsEntry(
                 s.back.writer.job,
                 if h in stock.indexed || WrittenHeight(s.books.ledger, h) then Ignored else Indexed)
  {
    hide Possible, Execute, WrittenHeight;
    NothingWritten(queueCap, workers, stock);
    RunIndexed(Init(queueCap, workers, stock), run, stock);
  }

  lemma NothingWritten(queueCap: nat, workers: nat, stock: Stock)
    ensures IndexedOk(Init(queueCap, workers, stock), stock)
  {
  }

  /**
   From every state a schedule can reach, some continuation by working steps alone also brings the block events of every
   enqueued job to exactly one end, all that had not ended before in the writer.
   */
  lemma EventsAlwaysDrain(queueCap: nat, workers: nat, stock: Stock, run: seq<Action>) returns (rest: seq<Action>)
    requires workers > 0 && Possible(Init(queueCap, workers, stock), run)
    requires !Execute(Init(queueCap, workers, stock), run).aborted
    requires !Execute(Init(queueCap, workers, stock), run).hop.pipeClosed
    ensures var s := Execute(Init(queueCap, workers, stock), run);
            && Possible(s, rest) && OnlyWorking(rest)
            && OnlyHandled(s.books.ends, Execute(s, rest).books.ends)
            && forall j :: j in s.front.enqueued ==> EventsEnded(Execute(s, rest), j) == 1
  {
    hide Busy, EventsInFlight, EventsEnded, Possible, Execute;
    var init := Init(queueCap, workers, stock);
    var s := Execute(init, run);
    rest := AlwaysDrains(queueCap, workers, stock, run);
    RunSplit(init, run, rest);
    forall j | j in s.front.enqueued
      ensures EventsEnded(Execute(s, rest), j) == 1
    {
      EventsConserved(queueCap, workers, stock, run + rest, j);
      IdleMeansEnded(Execute(s, rest), j);
    }
  }

  // ---------------------------------------------------------------------------------------------
  // Which heights are rows of failed_blocks
  // ---------------------------------------------------------------------------------------------

  /** The step records a failure of height `h`. */
  predicate Records(s: State, a: Action, h: int)
    requires Enabled(s, a)
  {
    match a
    case ByWorker(w, r) => (r.FetchFails? || r == Fetch(true)) && s.front.workers[w].job.height == h
    case ByProcessor(p) => (p.BlockFails? || p.TxsFail?) && s.back.processor.item.job.height == h
    case _ => false
  }

  /** The step writes height `h`. */
  predicate Writes(s: State, a: Action, h: int)
    requires Enabled(s, a)
  {
    a == ByWriter(WriteTx) && s.back.writer.job.height == h
  }

  /** No step of the run records a failure of `h`. */
  ghost predicate NeverRecords(s: State, run: seq<Action>, h: int)
    requires Possible(s, run)
    decreases |run|
  {
    run == [] || (!Records(s, run[0], h) && NeverRecords(Apply(s, run[0]), run[1..], h))
  }

  /** No step of the run writes `h`. */
  ghost predicate NeverWrites(s: State, run: seq<Action>, h: int)
    requires Possible(s, run)
    decreases |run|
  {
    run == [] || (!Writes(s, run[0], h) && NeverWrites(Apply(s, run[0]), run[1..], h))
  }

  lemma StepRow(s: State, a: Action, h: int)
    requires Enabled(s, a)
    ensures h in Apply(s, a).books.failedRows
            <==> Records(s, a, h) || (h in s.books.failedRows && !Writes(s, a, h))
  {
  }

  lemma {:induction false} StaysOut(s: State, run: seq<Action>, h: int)
    requires Possible(s, run) && NeverRecords(s, run, h) && h !in s.books.failedRows
    ensures h !in Execute(s, run).books.failedRows
    decreases |run|
  {
    hide Enabled, Apply, Records;
    if run != [] {
      StepRow(s, run[0], h);
      StaysOut(Apply(s, run[0]), run[1..], h);
    }
  }

  lemma {:induction false} StaysIn(s: State, run: seq<Action>, h: int)
    requires Possible(s, run) && NeverWrites(s, run, h) && h in s.books.failedRows
    ensures h in Execute(s, run).books.failedRows
    decreases |run|
  {
    hide Enabled, Apply, Writes, Records;
    if run != [] {
      StepRow(s, run[0], h);
      StaysIn(Apply(s, run[0]), run[1..], h);
    }
  }

  /**
   A height that is written and not recorded as failed afterwards is not a row of failed_blocks; one that is recorded
   and not written afterwards is.  Together with heights that no step touches this covers every run.
   */
  lemma LastTouchDecides(s: State, before: seq<Action>, a: Action, after: seq<Action>, h: int)
    requires Possible(s, before) && Enabled(Execute(s, before), a)
    requires Possible(Apply(Execute(s, before), a), after)
    ensures var mid := Execute(s, before);
            var next := Apply(mid, a);
            && Possible(s, before + ([a] + after))
            && var rows := Execute(s, before + ([a] + after)).books.failedRows;
            && (Writes(mid, a, h) && NeverRecords(next, after, h) ==> h !in rows)
            && (Records(mid, a, h) && NeverWrites(next, after, h) ==> h in rows)
  {
    hide Possible, Execute, Apply, Enabled, Writes, Records, NeverWrites, NeverRecords;
    var mid := Execute(s, before);
    var next := Apply(mid, a);
    RunNext(mid, a, after);
    RunSplit(s, before, [a] + after);
    StepRow(mid, a, h);
    NotBoth(mid, a, h);
    if Writes(mid, a, h) && NeverRecords(next, after, h) {
      StaysOut(next, after, h);
    }
    if Records(mid, a, h) && NeverWrites(next, after, h) {
      StaysIn(next, after, h);
    }
  }

  lemma NotBoth(s: State, a: Action, h: int)
    requires Enabled(s, a)
    ensures !(Records(s, a, h) && Writes(s, a, h))
  {
  }

  /** A height that no step touches is a row if and only if it was one. */
  lemma Untouched(s: State, run: seq<Action>, h: int)
    requires Possible(s, run) && NeverRecords(s, run, h) && NeverWrites(s, run, h)
    ensures h in Execute(s, run).books.failedRows <==> h in s.books.failedRows
  {
    hide Possible, Execute, NeverRecords, NeverWrites;
    if h in s.books.failedRows {
      StaysIn(s, run, h);
    } else {
      StaysOut(s, run, h);
    }
  }

  // ---------------------------------------------------------------------------------------------
  // A schedule that ignores block events
  // ---------------------------------------------------------------------------------------------

  /** From the processor on, the writer may take the transactions first. */
  lemma TxsFirst(s: State, j: Job) returns (run: seq<Action>)
    requires !s.aborted && !s.panicked && s.back.processor == Events(Item(j, false)) && j.indexTxs
    requires s.back.txs.buffer == [] == s.back.events.buffer && s.back.txs.cap > 0 && s.back.events.cap > 0
    requires !s.back.txs.seenClosed && !s.back.events.seenClosed && s.back.writer.Selecting?
    ensures Possible(s, run) && OnlyWorking(run)
    ensures Execute(s, run).books.ends == s.books.ends + [EventsEntry(j, Ignored)]
  {
    hide Possible, Execute;
    var a1, a2 := ByProcessor(EventsParsed), ByProcessor(TxsParsed);
    var a3, a4 := ByWriter(TakeTx), ByWriter(WriteTx);
    var a5, a6 := ByWriter(TakeEvents), ByWriter(WriteEvents);
    var s1 := Apply(s, a1);
    var s2 := Apply(s1, a2);
    var s3 := Apply(s2, a3);
    var s4 := Apply(s3, a4);
    var s5 := Apply(s4, a5);
    var s6 := Apply(s5, a6);
    run := [];
    RunNone(s6);
    RunNext(s5, a6, run);
    run := [a6] + run;
    RunNext(s4, a5, run);
    run := [a5] + run;
    RunNext(s3, a4, run);
    run := [a4] + run;
    RunNext(s2, a3, run);
    run := [a3] + run;
    RunNext(s1, a2, run);
    run := [a2] + run;
    RunNext(s, a1, run);
    run := [a1] + run;
  }

  /** A fetched item on its way to the processor. */
  lemma ToProcessor(s: State, j: Job) returns (run: seq<Action>)
    requires !s.aborted && !s.panicked && !s.hop.pipeClosed && s.back.processor.Receiving?
    requires s.hop.publisher == Full(Item(j, false)) && s.hop.wire == []
    requires s.hop.subscriber.Empty? && s.hop.forwarder.Empty?
    ensures Possible(s, run) && OnlyWorking(run)
    ensures Execute(s, run).back == s.back.(processor := Events(Item(j, false))) && Execute(s, run).books == s.books
    ensures !Execute(s, run).aborted && !Execute(s, run).panicked
  {
    hide Possible, Execute;
    var a1, a2, a3, a4 := AtHop(Publish), AtHop(Receive), AtHop(Forward), AtHop(PipeSend);
    var s1 := Apply(s, a1);
    var s2 := Apply(s1, a2);
    var s3 := Apply(s2, a3);
    var s4 := Apply(s3, a4);
    run := [];
    RunNone(s4);
    RunNext(s3, a4, run);
    run := [a4] + run;
    RunNext(s2, a3, run);
    run := [a3] + run;
    RunNext(s1, a2, run);
    run := [a2] + run;
    RunNext(s, a1, run);
    run := [a1] + run;
  }

  /** A fresh job, fetched and handed over by the first worker. */
  lemma {:induction false} ToPublisher(s: State, h: int) returns (run: seq<Action>)
    requires !s.aborted && !s.panicked && s.front.enqueuer.Enqueuing? && s.front.queue == [] && s.front.queueCap > 0
    requires |s.front.workers| > 0 && s.front.workers[0].Idle? && !s.front.resultsClosed && s.hop.publisher.Empty?
    ensures Possible(s, run)
    ensures forall i :: 0 <= i < |run| ==> Working(run[i]) || run[i] == ByEnqueuer(Enqueue(h, true))
    ensures Execute(s, run).hop == s.hop.(publisher := Full(Item(Job(|s.front.enqueued|, h, true), false)))
    ensures Execute(s, run).back == s.back && Execute(s, run).books == s.books
    ensures !Execute(s, run).aborted && !Execute(s, run).panicked
  {
    hide Possible, Execute;
    var a1, a2 := ByEnqueuer(Enqueue(h, true)), ByWorker(0, Dequeue);
    var a3, a4 := ByWorker(0, Fetch(false)), ByWorker(0, HandOver);
    var s1 := Apply(s, a1);
    var s2 := Apply(s1, a2);
    var s3 := Apply(s2, a3);
    var s4 := Apply(s3, a4);
    run := [];
    RunNone(s4);
    RunNext(s3, a4, run);
    run := [a4] + run;
    RunNext(s2, a3, run);
    run := [a3] + run;
    RunNext(s1, a2, run);
    run := [a2] + run;
    RunNext(s, a1, run);
    run := [a1] + run;
  }

  /**
   With nothing failing, nothing dropped and nothing stored before, the block events of a block can still be ignored:
   the writer may write its transactions first.
   */
  lemma EventsCanBeIgnored(queueCap: nat, workers: nat, stock: Stock, h: int) returns (run: seq<Action>)
    requires queueCap > 0 && workers > 0
    ensures var s := Init(queueCap, workers, stock);
            && Possible(s, run)
            && (forall i :: 0 <= i < |run| ==> Working(run[i]) || run[i] == ByEnqueuer(Enqueue(h, true)))
            && Execute(s, run).books.ends == [EventsEntry(Job(0, h, true), Ignored)]
  {
    hide Possible, Execute, Working;
    var s, j := Init(queueCap, workers, stock), Job(0, h, true);
    var first := ToPublisher(s, h);
    var s1 := Execute(s, first);
    var second := ToProcessor(s1, j);
    var s2 := Execute(s1, second);
    var third := TxsFirst(s2, j);
    RunSplit(s1, second, third);
    RunSplit(s, first, second + third);
    run := first + (second + third);
  }
}
