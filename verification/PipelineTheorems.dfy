/**
 Theorems about every schedule of the pipeline: each job has exactly one place or one outcome, nothing is sent
 on a closed channel, `doDBUpdates` leaves only when everything was handled, and the pipeline always drains.
 */
module PipelineTheorems {
  import opened Pipeline

  // ---------------------------------------------------------------------------------------------
  // Conservation: where the transactions of a job are
  // ---------------------------------------------------------------------------------------------

  function One(b: bool): nat { if b then 1 else 0 }

  function CountJobs(s: seq<Job>, j: Job): nat { if s == [] then 0 else One(s[0] == j) + CountJobs(s[1..], j) }

  function Holds(item: Item, j: Job): nat { One(Carries(item) && item.job == j) }

  function CountItems(s: seq<Item>, j: Job): nat { if s == [] then 0 else Holds(s[0], j) + CountItems(s[1..], j) }

  function CountSlot(s: Slot, j: Job): nat { if s.Full? then Holds(s.item, j) else 0 }

  function CountWorker(w: Worker, j: Job): nat {
    match w
    case Fetching(job) => One(job == j)
    case Sending(item) => Holds(item, j)
    case _ => 0
  }

  function CountWorkers(s: seq<Worker>, j: Job): nat {
    if s == [] then 0 else CountWorker(s[0], j) + CountWorkers(s[1..], j)
  }

  function CountLedger(s: seq<Entry>, j: Job): nat {
    if s == [] then 0 else One(s[0].job == j) + CountLedger(s[1..], j)
  }

  function InHop(h: Hop, j: Job): nat {
    CountSlot(h.publisher, j) + CountItems(h.wire, j) + CountSlot(h.subscriber, j) + CountSlot(h.forwarder, j)
  }

  function InBack(b: Back, j: Job): nat {
    (if b.processor.Events? || b.processor.Txs? then Holds(b.processor.item, j) else 0)
    + CountJobs(b.txs.buffer, j) + (if b.writer.WritingTx? then One(b.writer.job == j) else 0)
  }

  /** In how many channels and goroutines the transactions of job `j` are. */
  function InFlight(s: State, j: Job): nat {
    CountJobs(s.front.queue, j) + CountWorkers(s.front.workers, j) + InHop(s.hop, j) + InBack(s.back, j)
  }

  /** How many tx outcomes job `j` has. */
  function Settled(s: State, j: Job): nat { CountLedger(s.books.ledger, j) }

  lemma {:induction false} CountJobsAppend(s: seq<Job>, x: Job, j: Job)
    ensures CountJobs(s + [x], j) == CountJobs(s, j) + One(x == j)
  {
    if s == [] {
      assert s + [x] == [x];
    } else {
      assert (s + [x])[1..] == s[1..] + [x];
      CountJobsAppend(s[1..], x, j);
    }
  }

  lemma {:induction false} CountItemsAppend(s: seq<Item>, x: Item, j: Job)
    ensures CountItems(s + [x], j) == CountItems(s, j) + Holds(x, j)
  {
    if s == [] {
      assert s + [x] == [x];
    } else {
      assert (s + [x])[1..] == s[1..] + [x];
      CountItemsAppend(s[1..], x, j);
    }
  }

  lemma {:induction false} CountLedgerAppend(s: seq<Entry>, x: Entry, j: Job)
    ensures CountLedger(s + [x], j) == CountLedger(s, j) + One(x.job == j)
  {
    if s == [] {
      assert s + [x] == [x];
    } else {
      assert (s + [x])[1..] == s[1..] + [x];
      CountLedgerAppend(s[1..], x, j);
    }
  }

  lemma {:induction false} CountWorkersUpdate(s: seq<Worker>, w: nat, x: Worker, j: Job)
    requires w < |s|
    ensures CountWorkers(s[w := x], j) + CountWorker(s[w], j) == CountWorkers(s, j) + CountWorker(x, j)
  {
    if w == 0 {
      assert s[0 := x][1..] == s[1..];
    } else {
      assert s[w := x][1..] == s[1..][w - 1 := x];
      CountWorkersUpdate(s[1..], w - 1, x, j);
    }
  }

  lemma SettleCount(b: Books, item: Item, outcome: Outcome, j: Job)
    ensures CountLedger(Settle(b, item, outcome).ledger, j) == CountLedger(b.ledger, j) + Holds(item, j)
    ensures CountLedger(RecordFailure(b, item).ledger, j) == CountLedger(b.ledger, j) + Holds(item, j)
  {
    CountLedgerAppend(b.ledger, Entry(item.job, outcome), j);
    CountLedgerAppend(b.ledger, Entry(item.job, Failed), j);
  }

  lemma WorkerCount(s: State, w: nat, r: WorkerAction, j: Job)
    requires Inv(s) && WorkerEnabled(s, w, r) && j.indexTxs
    ensures var s' := WorkerStep(s, w, r);
            && InFlight(s', j) + Settled(s', j) == InFlight(s, j) + Settled(s, j)
            && s'.front.enqueued == s.front.enqueued
  {
    var s' := WorkerStep(s, w, r);
    if !(r.HandOver? && s.front.resultsClosed) {
      CountWorkersUpdate(s.front.workers, w, s'.front.workers[w], j);
    }
    if s.front.workers[w].Fetching? {
      SettleCount(s.books, Item(s.front.workers[w].job, false), Failed, j);
    }
  }

  lemma HopCount(s: State, h: HopAction, j: Job)
    requires HopEnabled(s, h) && j.indexTxs
    ensures var s' := HopStep(s, h);
            && InFlight(s', j) + Settled(s', j) == InFlight(s, j) + Settled(s, j)
            && s'.front.enqueued == s.front.enqueued
  {
    match h
    case Publish => CountItemsAppend(s.hop.wire, s.hop.publisher.item, j);
    case DropAtPublisher => SettleCount(s.books, s.hop.publisher.item, Dropped, j);
    case DropOnWire => SettleCount(s.books, s.hop.wire[0], Dropped, j);
    case DropAtSubscriber => SettleCount(s.books, s.hop.subscriber.item, Dropped, j);
    case _ =>
  }

  lemma ProcessorCount(s: State, p: ProcessorAction, j: Job)
    requires ProcessorEnabled(s, p) && j.indexTxs
    ensures var s' := ProcessorStep(s, p);
            && InFlight(s', j) + Settled(s', j) == InFlight(s, j) + Settled(s, j)
            && s'.front.enqueued == s.front.enqueued
  {
    if s.back.processor.Events? || s.back.processor.Txs? {
      SettleCount(s.books, s.back.processor.item, Failed, j);
      CountJobsAppend(s.back.txs.buffer, s.back.processor.item.job, j);
    }
  }

  lemma WriterCount(s: State, d: WriterAction, j: Job)
    requires WriterEnabled(s.back, d)
    ensures InBack(WriterStep(s.back, d), j) + CountLedger(WriterBooks(s, d).ledger, j)
            == InBack(s.back, j) + Settled(s, j)
  {
    if d.WriteTx? {
      CountLedgerAppend(s.books.ledger, Entry(s.back.writer.job, Written), j);
    }
  }

  /** No step creates, copies or loses the transactions of a job. */
  lemma StepConserves(s: State, a: Action, j: Job)
    requires Inv(s) && Enabled(s, a) && j.indexTxs
    requires InFlight(s, j) + Settled(s, j) == CountJobs(s.front.enqueued, j)
    ensures var s' := Apply(s, a);
            InFlight(s', j) + Settled(s', j) == CountJobs(s'.front.enqueued, j)
  {
    hide WorkerStep, HopStep, ProcessorStep, WriterStep, WriterBooks, CountJobs, CountWorkers, InHop, InBack;
    hide CountLedger;
    match a
    case ByEnqueuer(e) =>
      if e.Enqueue? {
        var job := Job(|s.front.enqueued|, e.height, e.indexTxs);
        CountJobsAppend(s.front.enqueued, job, j);
        CountJobsAppend(s.front.queue, job, j);
      }
    case ByWorker(w, r) => WorkerCount(s, w, r, j);
    case AtHop(h) => HopCount(s, h, j);
    case ByProcessor(p) => ProcessorCount(s, p, j);
    case ByWriter(d) => WriterCount(s, d, j);
    case _ =>
  }

  lemma {:induction false} RunConserves(s: State, run: seq<Action>, j: Job)
    requires Inv(s) && Possible(s, run) && j.indexTxs
    requires InFlight(s, j) + Settled(s, j) == CountJobs(s.front.enqueued, j)
    ensures var s' := Execute(s, run);
            InFlight(s', j) + Settled(s', j) == CountJobs(s'.front.enqueued, j)
    decreases |run|
  {
    if run != [] {
      StepConserves(s, run[0], j);
      StepInv(s, run[0]);
      RunConserves(Apply(s, run[0]), run[1..], j);
    }
  }

  lemma {:induction false} IdleWorkers(n: nat, j: Job)
    ensures CountWorkers(seq(n, _ => Idle), j) == 0
  {
    if n > 0 {
      assert seq(n, _ => Idle)[1..] == seq(n - 1, _ => Idle);
      IdleWorkers(n - 1, j);
    }
  }

  /** Jobs are told apart by their ids, so a queue history holds each job once. */
  lemma {:induction false} CountDistinct(s: seq<Job>, base: nat, j: Job)
    requires forall i :: 0 <= i < |s| ==> s[i].id == base + i
    ensures CountJobs(s, j) == One(j in s)
  {
    if s != [] {
      CountDistinct(s[1..], base + 1, j);
      assert s == [s[0]] + s[1..];
    }
  }

  lemma NothingStarted(queueCap: nat, workers: nat, stock: Stock, j: Job)
    ensures var s := Init(queueCap, workers, stock);
            InFlight(s, j) == 0 && Settled(s, j) == 0 && CountJobs(s.front.enqueued, j) == 0
  {
    IdleWorkers(workers, j);
  }

  lemma IdsInOrder(s: State)
    requires Inv(s)
    ensures forall i :: 0 <= i < |s.front.enqueued| ==> s.front.enqueued[i].id == i
  {
  }

  /**
   In every schedule, the transactions of every enqueued job are in exactly one channel or goroutine and have no
   outcome, or are nowhere and have exactly one outcome; a job that was not enqueued has neither.
   */
  lemma Conservation(queueCap: nat, workers: nat, stock: Stock, run: seq<Action>, j: Job)
    requires Possible(Init(queueCap, workers, stock), run) && j.indexTxs
    ensures var s := Execute(Init(queueCap, workers, stock), run);
            InFlight(s, j) + Settled(s, j) == One(j in s.front.enqueued)
  {
    hide Possible, Execute, InFlight, Settled, CountJobs, Init, FrontOk, BackOk, BooksOk;
    var s := Init(queueCap, workers, stock);
    InitInv(queueCap, workers, stock);
    NothingStarted(queueCap, workers, stock, j);
    RunConserves(s, run, j);
    RunInv(s, run);
    IdsInOrder(Execute(s, run));
    CountDistinct(Execute(s, run).front.enqueued, 0, j);
  }

  // ---------------------------------------------------------------------------------------------
  // Channels
  // ---------------------------------------------------------------------------------------------

  /** No schedule sends on a closed channel; once the result channel is closed every worker has exited. */
  lemma NeverSendsOnClosed(queueCap: nat, workers: nat, stock: Stock, run: seq<Action>)
    requires Possible(Init(queueCap, workers, stock), run)
    ensures var s := Execute(Init(queueCap, workers, stock), run);
            && !s.panicked
            && (s.front.resultsClosed ==> AllExited(s.front))
            && |s.front.queue| <= queueCap && |s.front.queue| <= |s.front.enqueued|
            && s.front.queue == s.front.enqueued[|s.front.enqueued| - |s.front.queue|..]
            && |s.back.txs.buffer| <= s.back.txs.cap == 4 * workers
            && |s.back.events.buffer| <= s.back.events.cap == 4 * workers
  {
    RunInv(Init(queueCap, workers, stock), run);
    RunShape(Init(queueCap, workers, stock), run);
  }

  /** The sizes fixed at start-up. */
  predicate SameShape(s: State, t: State) {
    && s.front.queueCap == t.front.queueCap && |s.front.workers| == |t.front.workers|
    && s.back.txs.cap == t.back.txs.cap && s.back.events.cap == t.back.events.cap
  }

  lemma StepShape(s: State, a: Action)
    requires Enabled(s, a)
    ensures SameShape(s, Apply(s, a))
  {
  }

  lemma {:induction false} RunShape(s: State, run: seq<Action>)
    requires Possible(s, run)
    ensures SameShape(s, Execute(s, run))
    decreases |run|
  {
    if run != [] {
      RunShape(Apply(s, run[0]), run[1..]);
    }
  }

  /**
   `doDBUpdates` has left its loop, and `runIndexer` has returned, only when both data channels are closed and
   everything ever sent on them was handled, in the order in which it was sent.
   */
  lemma LeavesWhenAllHandled(queueCap: nat, workers: nat, stock: Stock, run: seq<Action>)
    requires Possible(Init(queueCap, workers, stock), run)
    ensures var s := Execute(Init(queueCap, workers, stock), run);
            && (s.front.enqueuer.Returned? ==> s.back.writer.Left?)
            && (s.back.writer.Left? ==>
                  && s.back.TxClosed() && s.back.EventsClosed()
                  && s.back.txs.handled == s.back.txs.sent
                  && s.back.events.handled == s.back.events.sent)
            && s.back.txs.handled <= s.back.txs.sent
            && s.back.events.handled <= s.back.events.sent
  {
    RunInv(Init(queueCap, workers, stock), run);
  }

  /** Nothing in the program closes the pipe; as wired, the writer never leaves and `runIndexer` never returns. */
  lemma {:induction false} NeverReturnsAsWired(s: State, run: seq<Action>)
    requires Inv(s) && !s.hop.pipeClosed && Possible(s, run)
    requires AtHop(ClosePipe) !in run
    ensures !Execute(s, run).hop.pipeClosed
    ensures !Execute(s, run).back.writer.Left? && !Execute(s, run).front.enqueuer.Returned?
    decreases |run|
  {
    if run != [] {
      StepInv(s, run[0]);
      assert run[0] in run;
      NeverReturnsAsWired(Apply(s, run[0]), run[1..]);
    }
  }

  // ---------------------------------------------------------------------------------------------
  // Termination and progress
  // ---------------------------------------------------------------------------------------------

  function WorkerRank(w: Worker): nat {
    match w case Idle => 1 case Fetching(_) => 20 case Sending(_) => 19 case Exited => 0
  }

  function WorkersRank(s: seq<Worker>): nat { if s == [] then 0 else WorkerRank(s[0]) + WorkersRank(s[1..]) }

  function SlotRank(s: Slot, weight: nat): nat { if s.Full? then weight else 0 }

  function ProcessorRank(p: Processor): nat {
    match p
    case Receiving => 3 case Events(_) => 16 case Txs(_) => 11 case Returning => 2 case TxShut => 1 case AllShut => 0
  }

  function WriterRank(w: Writer): nat {
    match w case Selecting => 1 case WritingTx(_) => 5 case WritingEvents(_) => 3 case Left => 0
  }

  function FrontRank(f: Front): nat {
    20 * |f.queue| + WorkersRank(f.workers) + One(!f.resultsClosed)
    + (match f.enqueuer case Enqueuing => 2 case Waiting => 1 case Returned => 0)
  }

  function HopRank(h: Hop): nat {
    SlotRank(h.publisher, 17) + 16 * |h.wire| + SlotRank(h.subscriber, 15) + SlotRank(h.forwarder, 14)
    + One(!h.pipeClosed)
  }

  function BackRank(b: Back): nat {
    ProcessorRank(b.processor) + 5 * |b.txs.buffer| + 3 * |b.events.buffer| + WriterRank(b.writer)
    + One(!b.txs.seenClosed) + One(!b.events.seenClosed)
  }

  /** An upper bound on the number of steps that are left without further enqueuing. */
  function Rank(s: State): nat { FrontRank(s.front) + HopRank(s.hop) + BackRank(s.back) + One(!s.aborted) }

  lemma {:induction false} WorkersRankUpdate(s: seq<Worker>, w: nat, x: Worker)
    requires w < |s|
    ensures WorkersRank(s[w := x]) + WorkerRank(s[w]) == WorkersRank(s) + WorkerRank(x)
  {
    if w == 0 {
      assert s[0 := x][1..] == s[1..];
    } else {
      assert s[w := x][1..] == s[1..][w - 1 := x];
      WorkersRankUpdate(s[1..], w - 1, x);
    }
  }

  lemma WorkerStepRank(s: State, w: nat, r: WorkerAction)
    requires Inv(s) && WorkerEnabled(s, w, r)
    ensures Rank(WorkerStep(s, w, r)) < Rank(s)
  {
    WorkersRankUpdate(s.front.workers, w, WorkerStep(s, w, r).front.workers[w]);
  }

  lemma HopStepRank(s: State, h: HopAction)
    requires Inv(s) && HopEnabled(s, h)
    ensures if h.ReadZero? then HopStep(s, h) == s else Rank(HopStep(s, h)) < Rank(s)
  {
  }

  lemma ProcessorStepRank(s: State, p: ProcessorAction)
    requires Inv(s) && ProcessorEnabled(s, p)
    ensures Rank(ProcessorStep(s, p)) < Rank(s)
  {
  }

  lemma WriterStepRank(b: Back, d: WriterAction)
    requires BackOk(b) && WriterEnabled(b, d)
    ensures BackRank(WriterStep(b, d)) < BackRank(b)
  {
  }

  lemma StepRank(s: State, a: Action)
    requires Inv(s) && Enabled(s, a)
    ensures if a.ByEnqueuer? && a.e.Enqueue? then Rank(Apply(s, a)) == Rank(s) + 20
            else if a == AtHop(ReadZero) then Apply(s, a) == s
            else Rank(Apply(s, a)) < Rank(s)
  {
    match a
    case ByWorker(w, r) => WorkerStepRank(s, w, r);
    case AtHop(h) => HopStepRank(s, h);
    case ByProcessor(p) => ProcessorStepRank(s, p);
    case ByWriter(d) => WriterStepRank(s.back, d);
    case _ =>
  }

  function Enqueues(run: seq<Action>): nat {
    if run == [] then 0 else One(run[0].ByEnqueuer? && run[0].e.Enqueue?) + Enqueues(run[1..])
  }

  function ZeroReads(run: seq<Action>): nat {
    if run == [] then 0 else One(run[0] == AtHop(ReadZero)) + ZeroReads(run[1..])
  }

  /**
   Apart from reads of zero values, every schedule is finite: its length is bounded by the work present at the start and
   21 steps per job.
   */
  lemma {:induction false} BoundedRun(s: State, run: seq<Action>)
    requires Inv(s) && Possible(s, run)
    ensures |run| + Rank(Execute(s, run)) <= Rank(s) + 21 * Enqueues(run) + ZeroReads(run)
    decreases |run|
  {
    if run != [] {
      StepInv(s, run[0]);
      StepRank(s, run[0]);
      BoundedRun(Apply(s, run[0]), run[1..]);
    }
  }

  predicate FrontBusy(f: Front) {
    f.queue != [] || exists w :: 0 <= w < |f.workers| && (f.workers[w].Fetching? || f.workers[w].Sending?)
  }

  predicate HopBusy(h: Hop) { h.publisher.Full? || h.wire != [] || h.subscriber.Full? || h.forwarder.Full? }

  predicate BackBusy(b: Back) {
    || b.processor.Events? || b.processor.Txs? || b.txs.buffer != [] || b.events.buffer != []
    || b.writer.WritingTx? || b.writer.WritingEvents?
  }

  /** Some channel or goroutine of the pipeline holds a job. */
  predicate Busy(s: State) { FrontBusy(s.front) || HopBusy(s.hop) || BackBusy(s.back) }

  /** The steps that move a job on: no new job, no failure, no lost message, no shutdown and no crash. */
  predicate Working(a: Action) {
    match a
    case ByEnqueuer(_) => false
    case ByWorker(_, r) => r.Dequeue? || r == Fetch(false) || r.HandOver?
    case Closer => false
    case AtHop(h) => h.Publish? || h.Receive? || h.Forward? || h.PipeSend?
    case ByProcessor(p) => p.EventsParsed? || p.SkipTxs? || p.TxsParsed?
    case ByWriter(d) => d.TakeTx? || d.WriteTx? || d.TakeEvents? || d.WriteEvents?
    case Fatal => false
  }

  lemma BackProgress(s: State) returns (a: Action)
    requires Inv(s) && BackBusy(s.back) && !s.aborted && s.back.txs.cap > 0 && s.back.events.cap > 0
    ensures Enabled(s, a) && Working(a)
  {
    var b := s.back;
    a := if b.writer.WritingTx? then ByWriter(WriteTx)
    else if b.writer.WritingEvents? then ByWriter(WriteEvents)
    else if b.txs.buffer != [] then ByWriter(TakeTx)
    else if b.events.buffer != [] then ByWriter(TakeEvents)
    else if b.processor.Events? then ByProcessor(EventsParsed)
    else if Carries(b.processor.item) then ByProcessor(TxsParsed)
    else ByProcessor(SkipTxs);
  }

  lemma HopProgress(s: State) returns (a: Action)
    requires Inv(s) && HopBusy(s.hop) && !BackBusy(s.back) && !s.aborted && !s.hop.pipeClosed
    ensures Enabled(s, a) && Working(a)
  {
    a := if s.hop.forwarder.Full? then AtHop(PipeSend)
    else if s.hop.subscriber.Full? then AtHop(Forward)
    else if s.hop.wire != [] then AtHop(Receive)
    else AtHop(Publish);
  }

  lemma FrontProgress(s: State) returns (a: Action)
    requires Inv(s) && FrontBusy(s.front) && !HopBusy(s.hop) && !s.aborted && |s.front.workers| > 0
    ensures Enabled(s, a) && Working(a)
  {
    var f := s.front;
    if exists w :: 0 <= w < |f.workers| && (f.workers[w].Fetching? || f.workers[w].Sending?) {
      var w :| 0 <= w < |f.workers| && (f.workers[w].Fetching? || f.workers[w].Sending?);
      a := if f.workers[w].Fetching? then ByWorker(w, Fetch(false)) else ByWorker(w, HandOver);
    } else {
      a := ByWorker(0, Dequeue);
    }
  }

  /** The pipeline never deadlocks: while the pipe is open and a job is anywhere, some goroutine can work on. */
  lemma Progress(s: State) returns (a: Action)
    requires Inv(s) && Busy(s) && !s.aborted && !s.hop.pipeClosed
    requires |s.front.workers| > 0 && s.back.txs.cap > 0 && s.back.events.cap > 0
    ensures Enabled(s, a) && Working(a)
  {
    if BackBusy(s.back) {
      a := BackProgress(s);
    } else if HopBusy(s.hop) {
      a := HopProgress(s);
    } else {
      a := FrontProgress(s);
    }
  }

  ghost predicate OnlyWorking(run: seq<Action>) { forall i :: 0 <= i < |run| ==> Working(run[i]) }

  /** The ledger grew by written entries only. */
  ghost predicate OnlyWrote(ledger: seq<Entry>, ledger': seq<Entry>) {
    && ledger <= ledger'
    && forall i :: |ledger| <= i < |ledger'| ==> ledger'[i].outcome.Written?
  }

  predicate ByTheWriter(e: EventsEntry) { e.end.Indexed? || e.end.Ignored? }

  /** The block events that ended were indexed or ignored by the writer. */
  ghost predicate OnlyHandled(ends: seq<EventsEntry>, ends': seq<EventsEntry>) {
    ends <= ends' && forall i :: |ends| <= i < |ends'| ==> ByTheWriter(ends'[i])
  }

  lemma WorkingWrites(s: State, a: Action)
    requires Enabled(s, a) && Working(a)
    ensures OnlyWrote(s.books.ledger, Apply(s, a).books.ledger)
    ensures Apply(s, a).front.enqueued == s.front.enqueued && !Apply(s, a).aborted
    ensures Apply(s, a).hop.pipeClosed == s.hop.pipeClosed && Apply(s, a).front.enqueuer == s.front.enqueuer
    ensures Apply(s, a).books.failedRows <= s.books.failedRows
    ensures OnlyHandled(s.books.ends, Apply(s, a).books.ends)
  {
  }

  lemma {:induction false} Drain(s: State) returns (run: seq<Action>)
    requires Inv(s) && !s.aborted && !s.hop.pipeClosed
    requires |s.front.workers| > 0 && s.back.txs.cap > 0 && s.back.events.cap > 0
    ensures Possible(s, run) && OnlyWorking(run) && !Busy(Execute(s, run))
    ensures Execute(s, run).front.enqueued == s.front.enqueued && Execute(s, run).front.enqueuer == s.front.enqueuer
    ensures !Execute(s, run).aborted && !Execute(s, run).hop.pipeClosed
    ensures OnlyWrote(s.books.ledger, Execute(s, run).books.ledger)
    ensures Execute(s, run).books.failedRows <= s.books.failedRows
    ensures OnlyHandled(s.books.ends, Execute(s, run).books.ends)
    decreases Rank(s)
  {
    hide Apply, Enabled, Rank, Inv;
    if Busy(s) {
      var a := Progress(s);
      StepInv(s, a);
      StepRank(s, a);
      WorkingWrites(s, a);
      StepShape(s, a);
      var rest := Drain(Apply(s, a));
      run := [a] + rest;
      assert run[1..] == rest;
    } else {
      run := [];
    }
  }

  lemma {:induction false} IdleCount(ws: seq<Worker>, j: Job)
    requires forall w :: 0 <= w < |ws| ==> !ws[w].Fetching? && !ws[w].Sending?
    ensures CountWorkers(ws, j) == 0
  {
    if ws != [] {
      IdleCount(ws[1..], j);
    }
  }

  lemma IdleMeansSettled(s: State, j: Job)
    requires !Busy(s)
    ensures InFlight(s, j) == 0
  {
    IdleCount(s.front.workers, j);
  }

  lemma InitInv(queueCap: nat, workers: nat, stock: Stock)
    ensures Inv(Init(queueCap, workers, stock))
  {
  }

  lemma {:induction false} FindEntry(ledger: seq<Entry>, j: Job) returns (i: nat)
    requires CountLedger(ledger, j) > 0
    ensures i < |ledger| && ledger[i].job == j
  {
    if ledger[0].job == j {
      i := 0;
    } else {
      i := FindEntry(ledger[1..], j);
      i := i + 1;
    }
  }

  /**
   When the pipeline has come to rest and no message was dropped at the hop, every enqueued job has exactly one
   outcome: its transactions were written, or its failure was recorded and is still a row of failed_blocks
   unless another job wrote the same height.
   */
  lemma NothingLost(queueCap: nat, workers: nat, stock: Stock, run: seq<Action>, j: Job) returns (i: nat)
    requires Possible(Init(queueCap, workers, stock), run) && j.indexTxs
    requires var s := Execute(Init(queueCap, workers, stock), run);
             && j in s.front.enqueued && !Busy(s)
             && forall k :: 0 <= k < |s.books.ledger| ==> !s.books.ledger[k].outcome.Dropped?
    ensures var s := Execute(Init(queueCap, workers, stock), run);
            && Settled(s, j) == 1
            && i < |s.books.ledger| && s.books.ledger[i].job == j
            && (s.books.ledger[i].outcome.Written?
                || (s.books.ledger[i].outcome.Failed?
                    && (j.height in s.books.failedRows || WrittenHeight(s.books.ledger, j.height))))
  {
    hide Possible, Execute, Busy, InFlight, Init, FrontOk, BackOk, CountLedger;
    InitInv(queueCap, workers, stock);
    var s := Execute(Init(queueCap, workers, stock), run);
    Conservation(queueCap, workers, stock, run, j);
    IdleMeansSettled(s, j);
    i := FindEntry(s.books.ledger, j);
    RunInv(Init(queueCap, workers, stock), run);
  }

  lemma RunNone(s: State)
    ensures Possible(s, []) && Execute(s, []) == s
  {
  }

  lemma {:induction false} RunSplit(s: State, run: seq<Action>, rest: seq<Action>)
    requires Possible(s, run) && Possible(Execute(s, run), rest)
    ensures Possible(s, run + rest) && Execute(s, run + rest) == Execute(Execute(s, run), rest)
    decreases |run|
  {
    if run == [] {
      assert run + rest == rest;
    } else {
      assert (run + rest)[1..] == run[1..] + rest;
      RunSplit(Apply(s, run[0]), run[1..], rest);
    }
  }

  /**
   From every state a schedule can reach, some continuation by working steps alone settles every job that was
   enqueued, each exactly once, and writes all that were not settled before.
   */
  lemma AlwaysDrains(queueCap: nat, workers: nat, stock: Stock, run: seq<Action>) returns (rest: seq<Action>)
    requires workers > 0 && Possible(Init(queueCap, workers, stock), run)
    requires !Execute(Init(queueCap, workers, stock), run).aborted
    requires !Execute(Init(queueCap, workers, stock), run).hop.pipeClosed
    ensures var s := Execute(Init(queueCap, workers, stock), run);
            && Possible(s, rest) && OnlyWorking(rest)
            && OnlyWrote(s.books.ledger, Execute(s, rest).books.ledger)
            && OnlyHandled(s.books.ends, Execute(s, rest).books.ends)
            && !Busy(Execute(s, rest)) && Execute(s, rest).front.enqueued == s.front.enqueued
            && forall j :: j in s.front.enqueued && j.indexTxs ==> Settled(Execute(s, rest), j) == 1
  {
    var init := Init(queueCap, workers, stock);
    var s := Execute(init, run);
    RunInv(init, run);
    RunShape(init, run);
    rest := Drain(s);
    RunSplit(init, run, rest);
    forall j | j in s.front.enqueued && j.indexTxs
      ensures Settled(Execute(s, rest), j) == 1
    {
      Conservation(queueCap, workers, stock, run + rest, j);
      IdleMeansSettled(Execute(s, rest), j);
    }
  }

  // ---------------------------------------------------------------------------------------------
  // Shutting down
  // ---------------------------------------------------------------------------------------------

  lemma RunNext(s: State, a: Action, rest: seq<Action>)
    requires Enabled(s, a) && Possible(Apply(s, a), rest)
    ensures Possible(s, [a] + rest) && Execute(s, [a] + rest) == Execute(Apply(s, a), rest)
  {
    assert ([a] + rest)[0] == a && ([a] + rest)[1..] == rest;
  }

  /** What the shutdown does not touch, and where it ends. */
  ghost predicate Returns(s: State, s': State) {
    && s'.front.enqueuer.Returned? && s'.books == s.books && s'.front.enqueued == s.front.enqueued
    && s'.back.txs.sent == s.back.txs.sent && s'.back.txs.handled == s.back.txs.handled
    && s'.back.events.sent == s.back.events.sent && s'.back.events.handled == s.back.events.handled
  }

  /** With both channels closed and empty, the writer leaves and `runIndexer` returns. */
  lemma WriterLeaves(s: State) returns (run: seq<Action>)
    requires !s.aborted && !s.panicked && s.front.enqueuer.Waiting? && s.back.processor.AllShut?
    requires s.back.writer.Selecting? && s.back.txs.buffer == [] == s.back.events.buffer
    requires !s.back.txs.seenClosed && !s.back.events.seenClosed
    ensures Possible(s, run) && Returns(s, Execute(s, run))
  {
    hide Possible, Execute;
    var s1 := Apply(s, ByWriter(SeeTxClosed));
    var s2 := Apply(s1, ByWriter(SeeEventsClosed));
    var s3 := Apply(s2, ByWriter(Leave));
    run := [];
    RunNone(Apply(s3, ByEnqueuer(MainReturn)));
    RunNext(s3, ByEnqueuer(MainReturn), run);
    run := [ByEnqueuer(MainReturn)] + run;
    RunNext(s2, ByWriter(Leave), run);
    run := [ByWriter(Leave)] + run;
    RunNext(s1, ByWriter(SeeEventsClosed), run);
    run := [ByWriter(SeeEventsClosed)] + run;
    RunNext(s, ByWriter(SeeTxClosed), run);
    run := [ByWriter(SeeTxClosed)] + run;
  }

  /** An idle pipeline whose queue is closed goes through the shutdown once the pipe is closed. */
  lemma ShutsDown(s: State) returns (run: seq<Action>)
    requires Inv(s) && !Busy(s) && !s.aborted && !s.hop.pipeClosed && s.front.enqueuer.Waiting?
    ensures Possible(s, run) && Returns(s, Execute(s, run))
  {
    hide Possible, Execute, Inv, Busy;
    IdleBack(s);
    var s1 := Apply(s, AtHop(ClosePipe));
    var s2 := Apply(s1, ByProcessor(Return));
    var s3 := Apply(s2, ByProcessor(CloseTxData));
    run := WriterLeaves(Apply(s3, ByProcessor(CloseEventData)));
    RunNext(s3, ByProcessor(CloseEventData), run);
    run := [ByProcessor(CloseEventData)] + run;
    RunNext(s2, ByProcessor(CloseTxData), run);
    run := [ByProcessor(CloseTxData)] + run;
    RunNext(s1, ByProcessor(Return), run);
    run := [ByProcessor(Return)] + run;
    RunNext(s, AtHop(ClosePipe), run);
    run := [AtHop(ClosePipe)] + run;
  }

  lemma IdleBack(s: State)
    requires Inv(s) && !Busy(s) && !s.hop.pipeClosed
    ensures !s.panicked && s.hop.forwarder.Empty? && s.back.processor.Receiving? && s.back.writer.Selecting?
    ensures s.back.txs.buffer == [] == s.back.events.buffer && !s.back.txs.seenClosed && !s.back.events.seenClosed
    ensures s.back.txs.handled == s.back.txs.sent && s.back.events.handled == s.back.events.sent
    ensures !s.front.enqueuer.Returned?
  {
  }

  /** The close of the queue if it is still open, then the shutdown. */
  lemma EndSession(s: State) returns (run: seq<Action>)
    requires Inv(s) && !Busy(s) && !s.aborted && !s.hop.pipeClosed
    ensures Possible(s, run) && Returns(s, Execute(s, run))
  {
    hide Possible, Execute, Inv;
    IdleBack(s);
    if s.front.enqueuer.Waiting? {
      run := ShutsDown(s);
    } else {
      var a := ByEnqueuer(CloseQueue);
      StepInv(s, a);
      run := ShutsDown(Apply(s, a));
      RunNext(s, a, run);
      run := [a] + run;
    }
  }

  /**
   From every reachable state that is not aborted, with the pipe open, one close of the pipe lets the program return:
   some continuation writes whatever is not settled, handles all that was ever sent and ends `runIndexer`.
   */
  lemma CanReturn(queueCap: nat, workers: nat, stock: Stock, run: seq<Action>) returns (rest: seq<Action>)
    requires workers > 0 && Possible(Init(queueCap, workers, stock), run)
    requires !Execute(Init(queueCap, workers, stock), run).aborted
    requires !Execute(Init(queueCap, workers, stock), run).hop.pipeClosed
    ensures var s := Execute(Init(queueCap, workers, stock), run);
            && Possible(s, rest) && Execute(s, rest).front.enqueuer.Returned?
            && OnlyWrote(s.books.ledger, Execute(s, rest).books.ledger)
            && Execute(s, rest).back.txs.handled == Execute(s, rest).back.txs.sent
            && Execute(s, rest).back.events.handled == Execute(s, rest).back.events.sent
            && forall j :: j in s.front.enqueued && j.indexTxs ==> Settled(Execute(s, rest), j) == 1
  {
    var init := Init(queueCap, workers, stock);
    var s := Execute(init, run);
    RunInv(init, run);
    RunShape(init, run);
    var work := Drain(s);
    hide Possible, Execute, Inv, Busy, InFlight, CountLedger;
    var idle := Execute(s, work);
    RunInv(s, work);
    IdleBack(idle);
    var end := EndSession(idle);
    RunSplit(s, work, end);
    RunSplit(init, run, work);
    rest := work + end;
    forall j | j in s.front.enqueued && j.indexTxs
      ensures Settled(Execute(s, rest), j) == 1
    {
      Conservation(queueCap, workers, stock, run + work, j);
      IdleMeansSettled(idle, j);
    }
  }

  /**
   After the result channel is closed, an idle publisher can read any number of zero values without any effect: the
   pipeline need never come to a halt by itself.
   */
  lemma {:induction false} SpinsAfterClose(s: State, n: nat)
    requires s.front.resultsClosed && s.hop.publisher.Empty? && !s.aborted && !s.panicked
    ensures Possible(s, seq(n, _ => AtHop(ReadZero))) && Execute(s, seq(n, _ => AtHop(ReadZero))) == s
  {
    if n > 0 {
      SpinsAfterClose(s, n - 1);
      RunNext(s, AtHop(ReadZero), seq(n - 1, _ => AtHop(ReadZero)));
      assert [AtHop(ReadZero)] + seq(n - 1, _ => AtHop(ReadZero)) == seq(n, _ => AtHop(ReadZero));
    }
  }

  // ---------------------------------------------------------------------------------------------
  // The table failed_blocks and the ledger
  // ---------------------------------------------------------------------------------------------

  /** The height is a row of failed_blocks or has been written. */
  ghost predicate RowOrWritten(b: Books, height: int) {
    height in b.failedRows || WrittenHeight(b.ledger, height)
  }

  lemma BooksKeepRow(b: Books, b': Books, height: int)
    requires RowOrWritten(b, height) && b.ledger <= b'.ledger
    requires height in b.failedRows && height !in b'.failedRows ==> WrittenHeight(b'.ledger, height)
    ensures RowOrWritten(b', height)
  {
    if WrittenHeight(b.ledger, height) {
      var i :| 0 <= i < |b.ledger| && b.ledger[i].outcome.Written? && b.ledger[i].job.height == height;
      assert b'.ledger[i] == b.ledger[i];
    }
  }

  lemma StepKeepsRow(s: State, a: Action, height: int)
    requires Enabled(s, a) && RowOrWritten(s.books, height)
    ensures RowOrWritten(Apply(s, a).books, height)
  {
    hide RowOrWritten;
    var s' := Apply(s, a);
    if a.ByWriter? && a.d.WriteTx? {
      assert s'.books.ledger[|s.books.ledger|] == Entry(s.back.writer.job, Written);
    }
    BooksKeepRow(s.books, s'.books, height);
  }

  /** A row of failed_blocks goes away only when its height is written. */
  lemma {:induction false} RunKeepsRow(s: State, run: seq<Action>, height: int)
    requires Possible(s, run) && RowOrWritten(s.books, height)
    ensures RowOrWritten(Execute(s, run).books, height)
    decreases |run|
  {
    hide RowOrWritten, Enabled, Apply;
    if run != [] {
      StepKeepsRow(s, run[0], height);
      RunKeepsRow(Apply(s, run[0]), run[1..], height);
    }
  }

  /** Only jobs with transactions get as far as the tx channel, the writer and the ledger. */
  ghost predicate OnlyIndexed(s: State) {
    && (forall i :: 0 <= i < |s.books.ledger| ==> s.books.ledger[i].job.indexTxs)
    && (forall i :: 0 <= i < |s.back.txs.buffer| ==> s.back.txs.buffer[i].indexTxs)
    && (s.back.writer.WritingTx? ==> s.back.writer.job.indexTxs)
  }

  lemma StepOnlyIndexed(s: State, a: Action)
    requires Enabled(s, a) && OnlyIndexed(s)
    ensures OnlyIndexed(Apply(s, a))
  {
  }

  lemma {:induction false} RunOnlyIndexed(s: State, run: seq<Action>)
    requires Possible(s, run) && OnlyIndexed(s)
    ensures OnlyIndexed(Execute(s, run))
    decreases |run|
  {
    hide OnlyIndexed, Enabled, Apply;
    if run != [] {
      StepOnlyIndexed(s, run[0]);
      RunOnlyIndexed(Apply(s, run[0]), run[1..]);
    }
  }

  lemma {:induction false} EntryCounts(ledger: seq<Entry>, i: nat)
    requires i < |ledger|
    ensures CountLedger(ledger, ledger[i].job) > 0
  {
    if i > 0 {
      EntryCounts(ledger[1..], i - 1);
    }
  }

  /** Every outcome belongs to a job with transactions that was enqueued. */
  lemma LedgerSound(queueCap: nat, workers: nat, stock: Stock, run: seq<Action>, i: nat)
    requires Possible(Init(queueCap, workers, stock), run)
    requires i < |Execute(Init(queueCap, workers, stock), run).books.ledger|
    ensures var s := Execute(Init(queueCap, workers, stock), run);
            s.books.ledger[i].job in s.front.enqueued && s.books.ledger[i].job.indexTxs
  {
    hide Possible, Execute;
    var s := Execute(Init(queueCap, workers, stock), run);
    RunOnlyIndexed(Init(queueCap, workers, stock), run);
    EntryCounts(s.books.ledger, i);
    Conservation(queueCap, workers, stock, run, s.books.ledger[i].job);
  }
}
