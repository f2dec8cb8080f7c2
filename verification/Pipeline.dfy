/**
 The concurrent pipeline set up by `runIndexer`: the enqueuer, the RPC workers, the goroutine that closes
 their result channel, the publish/subscribe hop, `processBlocks` and `doDBUpdates`.

 The pipeline is a labelled transition system.  An `Action` is one atomic step of one goroutine, `Enabled`
 says when the step can be taken and `Apply` what it does.  A schedule is a sequence of actions, so a theorem
 about all schedules is a theorem about all interleavings, all RPC outcomes and all lost messages.

 A send on a closed channel is not forbidden: it leads to a state with `panicked` set.
 */
module Pipeline {

  /** A job on the block queue.  `id` is its position in the order of enqueuing, so two jobs are never equal. */
  datatype Job = Job(id: nat, height: int, indexTxs: bool)

  /** What a worker fetched for a job; `txFailed` is the flag TxRequestsFailed. */
  datatype Item = Item(job: Job, txFailed: bool)

  /** The item still owes its job a tx outcome. */
  predicate Carries(item: Item) { item.job.indexTxs && !item.txFailed }

  /** The hand of a goroutine that holds at most one item. */
  datatype Slot = Empty | Full(item: Item)

  datatype Worker = Idle | Fetching(job: Job) | Sending(item: Item) | Exited

  datatype Enqueuer = Enqueuing | Waiting | Returned

  /** `processBlocks`: receiving, before the event part, before the tx part, and the three deferred calls. */
  datatype Processor = Receiving | Events(item: Item) | Txs(item: Item) | Returning | TxShut | AllShut

  /** `doDBUpdates`. */
  datatype Writer = Selecting | WritingTx(job: Job) | WritingEvents(job: Job) | Left

  datatype Outcome = Written | Failed | Dropped

  /** One settled job: its transactions were written, recorded as failed, or dropped at the hop. */
  datatype Entry = Entry(job: Job, outcome: Outcome)

  /**
   How the block events of a job end: indexed, ignored by the writer because the block's transactions are in already,
   lost with a block that could not be fetched or processed, not parsed, or dropped at the hop.
   */
  datatype EventsEnd = Indexed | Ignored | NotFetched | NotProcessed | NotParsed | Lost

  datatype EventsEntry = EventsEntry(job: Job, end: EventsEnd)

  /** The block queue, its producer and the workers; `enqueued` is the history of the queue. */
  datatype Front = Front(
    queueCap: nat, enqueued: seq<Job>, enqueuer: Enqueuer, queue: seq<Job>, workers: seq<Worker>, resultsClosed: bool)

  /** The publish/subscribe hop and the goroutine that forwards to the pipe. */
  datatype Hop = Hop(publisher: Slot, wire: seq<Item>, subscriber: Slot, forwarder: Slot, pipeClosed: bool)

  /** A data channel of capacity `cap` with its consumer's view and its histories. */
  datatype Channel = Channel(cap: nat, buffer: seq<Job>, seenClosed: bool, sent: seq<Job>, handled: seq<Job>)

  datatype Back = Back(processor: Processor, txs: Channel, events: Channel, writer: Writer)
  {
    predicate TxClosed() { processor.TxShut? || processor.AllShut? }
    predicate EventsClosed() { processor.AllShut? }
    predicate ProcessorDone() { processor.Returning? || processor.TxShut? || processor.AllShut? }
  }

  /**
   The histories of tx outcomes and of the ends of block events, the heights in table failed_blocks, and those in table
   blocks with indexed transactions.
   */
  datatype Books = Books(ledger: seq<Entry>, ends: seq<EventsEntry>, failedRows: set<int>, indexed: set<int>)

  datatype State = State(front: Front, hop: Hop, back: Back, books: Books, aborted: bool, panicked: bool)

  /** The heights in tables failed_blocks and blocks (with indexed transactions) at start-up. */
  datatype Stock = Stock(failed: set<int>, indexed: set<int>)

  function Init(queueCap: nat, workers: nat, stock: Stock): State {
    State(Front(queueCap, [], Enqueuing, [], seq(workers, _ => Idle), false),
          Hop(Empty, [], Empty, Empty, false),
          Back(Receiving, Channel(4 * workers, [], false, [], []), Channel(4 * workers, [], false, [], []), Selecting),
          Books([], [], stock.failed, stock.indexed), false, false)
  }

  datatype EnqueuerAction = Enqueue(height: int, indexTxs: bool) | CloseQueue | MainReturn

  datatype WorkerAction = Dequeue | Exit | FetchFails | Fetch(txFailed: bool) | HandOver

  /**
   The publisher does not notice that its channel is closed: it then reads zero values (`ReadZero`), which it fails to
   publish or crashes on.
   */
  datatype HopAction =
    Publish | DropAtPublisher | ReadZero | Receive | DropOnWire | DropAtSubscriber | Forward | PipeSend | ClosePipe

  datatype ProcessorAction =
    BlockFails | EventsParsed | EventsFail | SkipTxs | TxsFail | TxsParsed | Return | CloseTxData | CloseEventData

  datatype WriterAction = TakeTx | SeeTxClosed | WriteTx | TakeEvents | SeeEventsClosed | WriteEvents | Leave

  /**
   `Closer` is the goroutine that waits for all workers.  `Fatal` is any call of Log.Fatal and any crash, such as
   that of the publisher when it logs the height of a zero value.
   */
  datatype Action =
    | ByEnqueuer(e: EnqueuerAction)
    | ByWorker(w: nat, r: WorkerAction)
    | Closer
    | AtHop(h: HopAction)
    | ByProcessor(p: ProcessorAction)
    | ByWriter(d: WriterAction)
    | Fatal

  // ---------------------------------------------------------------------------------------------
  // Steps, goroutine by goroutine
  // ---------------------------------------------------------------------------------------------

  /** Settle the job if the item still carries its transactions. */
  function Settle(b: Books, item: Item, outcome: Outcome): Books {
    if Carries(item) then b.(ledger := b.ledger + [Entry(item.job, outcome)]) else b
  }

  /** The block events of the job come to an end. */
  function EndEvents(b: Books, job: Job, end: EventsEnd): Books { b.(ends := b.ends + [EventsEntry(job, end)]) }

  /** The message of the item is lost at the hop. */
  function Drop(b: Books, item: Item): Books { EndEvents(Settle(b, item, Dropped), item.job, Lost) }

  /** UpsertFailedBlock for the item's height; this settles the job if it is not settled yet. */
  function RecordFailure(b: Books, item: Item): Books {
    Settle(b, item, Failed).(failedRows := b.failedRows + {item.job.height})
  }

  predicate EnqueuerEnabled(s: State, e: EnqueuerAction) {
    match e
    case Enqueue(_, _) => s.front.enqueuer.Enqueuing? && |s.front.queue| < s.front.queueCap
    case CloseQueue => s.front.enqueuer.Enqueuing?
    case MainReturn => s.front.enqueuer.Waiting? && s.back.writer.Left? && s.back.ProcessorDone()
  }

  function EnqueuerStep(f: Front, e: EnqueuerAction): Front {
    match e
    case Enqueue(height, indexTxs) =>
      var job := Job(|f.enqueued|, height, indexTxs);
      f.(enqueued := f.enqueued + [job], queue := f.queue + [job])
    case CloseQueue => f.(enqueuer := Waiting)
    case MainReturn => f.(enqueuer := Returned)
  }

  predicate WorkerEnabled(s: State, w: nat, r: WorkerAction) {
    && w < |s.front.workers|
    && var me := s.front.workers[w];
       match r
       case Dequeue => me.Idle? && s.front.queue != []
       case Exit => me.Idle? && s.front.queue == [] && !s.front.enqueuer.Enqueuing?
       case FetchFails => me.Fetching?
       case Fetch(txFailed) => me.Fetching? && (txFailed ==> me.job.indexTxs)
       case HandOver => me.Sending? && (s.front.resultsClosed || s.hop.publisher.Empty?)
  }

  function WorkerStep(s: State, w: nat, r: WorkerAction): State
    requires WorkerEnabled(s, w, r)
  {
    var f := s.front;
    match r
    case Dequeue => s.(front := f.(workers := f.workers[w := Fetching(f.queue[0])], queue := f.queue[1..]))
    case Exit => s.(front := f.(workers := f.workers[w := Exited]))
    case FetchFails =>
      var job := f.workers[w].job;
      s.(front := f.(workers := f.workers[w := Idle]),
         books := EndEvents(RecordFailure(s.books, Item(job, false)), job, NotFetched))
    case Fetch(txFailed) =>
      var job := f.workers[w].job;
      s.(front := f.(workers := f.workers[w := Sending(Item(job, txFailed))]),
         books := if txFailed then RecordFailure(s.books, Item(job, false)) else s.books)
    case HandOver =>
      if f.resultsClosed then s.(panicked := true)
      else s.(front := f.(workers := f.workers[w := Idle]), hop := s.hop.(publisher := Full(f.workers[w].item)))
  }

  predicate HopEnabled(s: State, h: HopAction) {
    match h
    case Publish => s.hop.publisher.Full?
    case DropAtPublisher => s.hop.publisher.Full?
    case ReadZero => s.front.resultsClosed && s.hop.publisher.Empty?
    case Receive => s.hop.wire != [] && s.hop.subscriber.Empty?
    case DropOnWire => s.hop.wire != []
    case DropAtSubscriber => s.hop.subscriber.Full?
    case Forward => s.hop.subscriber.Full? && s.hop.forwarder.Empty? && !s.hop.pipeClosed
    case PipeSend => s.hop.forwarder.Full? && (s.hop.pipeClosed || s.back.processor.Receiving?)
    case ClosePipe => !s.hop.pipeClosed && s.hop.forwarder.Empty?
  }

  function HopStep(s: State, h: HopAction): State
    requires HopEnabled(s, h)
  {
    var p := s.hop;
    match h
    case Publish => s.(hop := p.(wire := p.wire + [p.publisher.item], publisher := Empty))
    case DropAtPublisher => s.(hop := p.(publisher := Empty), books := Drop(s.books, p.publisher.item))
    case ReadZero => s
    case Receive => s.(hop := p.(subscriber := Full(p.wire[0]), wire := p.wire[1..]))
    case DropOnWire => s.(hop := p.(wire := p.wire[1..]), books := Drop(s.books, p.wire[0]))
    case DropAtSubscriber => s.(hop := p.(subscriber := Empty), books := Drop(s.books, p.subscriber.item))
    case Forward => s.(hop := p.(forwarder := p.subscriber, subscriber := Empty))
    case PipeSend =>
      if p.pipeClosed then s.(panicked := true)
      else s.(hop := p.(forwarder := Empty), back := s.back.(processor := Events(p.forwarder.item)))
    case ClosePipe => s.(hop := p.(pipeClosed := true))
  }

  function Send(c: Channel, job: Job): Channel { c.(buffer := c.buffer + [job], sent := c.sent + [job]) }

  function Take(c: Channel): Channel
    requires c.buffer != []
  {
    c.(buffer := c.buffer[1..])
  }

  predicate ProcessorEnabled(s: State, p: ProcessorAction) {
    var me := s.back.processor;
    match p
    case BlockFails => me.Events?
    case EventsParsed => me.Events? && (s.back.EventsClosed() || |s.back.events.buffer| < s.back.events.cap)
    case EventsFail => me.Events?
    case SkipTxs => me.Txs? && !Carries(me.item)
    case TxsFail => me.Txs? && Carries(me.item)
    case TxsParsed =>
      me.Txs? && Carries(me.item) && (s.back.TxClosed() || |s.back.txs.buffer| < s.back.txs.cap)
    case Return => me.Receiving? && s.hop.pipeClosed
    case CloseTxData => me.Returning?
    case CloseEventData => me.TxShut?
  }

  function ProcessorStep(s: State, p: ProcessorAction): State
    requires ProcessorEnabled(s, p)
  {
    var b := s.back;
    match p
    case BlockFails =>
      s.(back := b.(processor := Receiving),
         books := EndEvents(RecordFailure(s.books, b.processor.item), b.processor.item.job, NotProcessed))
    case EventsParsed =>
      if b.EventsClosed() then s.(panicked := true)
      else s.(back := b.(processor := Txs(b.processor.item), events := Send(b.events, b.processor.item.job)))
    case EventsFail =>
      s.(back := b.(processor := Txs(b.processor.item)),
         books := EndEvents(s.books, b.processor.item.job, NotParsed))
    case SkipTxs => s.(back := b.(processor := Receiving))
    case TxsFail => s.(back := b.(processor := Receiving), books := RecordFailure(s.books, b.processor.item))
    case TxsParsed =>
      if b.TxClosed() then s.(panicked := true)
      else s.(back := b.(processor := Receiving, txs := Send(b.txs, b.processor.item.job)))
    case Return => s.(back := b.(processor := Returning))
    case CloseTxData => s.(back := b.(processor := TxShut))
    case CloseEventData => s.(back := b.(processor := AllShut))
  }

  predicate WriterEnabled(b: Back, d: WriterAction) {
    match d
    case TakeTx => b.writer.Selecting? && !b.txs.seenClosed && b.txs.buffer != []
    case SeeTxClosed => b.writer.Selecting? && !b.txs.seenClosed && b.txs.buffer == [] && b.TxClosed()
    case WriteTx => b.writer.WritingTx?
    case TakeEvents => b.writer.Selecting? && !b.events.seenClosed && b.events.buffer != []
    case SeeEventsClosed => b.writer.Selecting? && !b.events.seenClosed && b.events.buffer == [] && b.EventsClosed()
    case WriteEvents => b.writer.WritingEvents?
    case Leave => b.writer.Selecting? && b.txs.seenClosed && b.events.seenClosed
  }

  function WriterStep(b: Back, d: WriterAction): Back
    requires WriterEnabled(b, d)
  {
    match d
    case TakeTx => b.(writer := WritingTx(b.txs.buffer[0]), txs := Take(b.txs))
    case SeeTxClosed => b.(txs := b.txs.(seenClosed := true))
    case WriteTx => b.(writer := Selecting, txs := b.txs.(handled := b.txs.handled + [b.writer.job]))
    case TakeEvents => b.(writer := WritingEvents(b.events.buffer[0]), events := Take(b.events))
    case SeeEventsClosed => b.(events := b.events.(seenClosed := true))
    case WriteEvents => b.(writer := Selecting, events := b.events.(handled := b.events.handled + [b.writer.job]))
    case Leave => b.(writer := Left)
  }

  /**
   IndexNewBlock removes the height from failed_blocks and writes the block and its transactions.  Block events are
   indexed unless the block is there already with its transactions.
   */
  function WriterBooks(s: State, d: WriterAction): Books
    requires WriterEnabled(s.back, d)
  {
    if d.WriteTx? then
      var job := s.back.writer.job;
      s.books.(ledger := s.books.ledger + [Entry(job, Written)], failedRows := s.books.failedRows - {job.height},
               indexed := s.books.indexed + {job.height})
    else if d.WriteEvents? then
      var job := s.back.writer.job;
      EndEvents(s.books, job, if job.height in s.books.indexed then Ignored else Indexed)
    else s.books
  }

  predicate Enabled(s: State, a: Action) {
    && !s.aborted && !s.panicked
    && match a
       case ByEnqueuer(e) => EnqueuerEnabled(s, e)
       case ByWorker(w, r) => WorkerEnabled(s, w, r)
       case Closer => !s.front.resultsClosed && AllExited(s.front)
       case AtHop(h) => HopEnabled(s, h)
       case ByProcessor(p) => ProcessorEnabled(s, p)
       case ByWriter(d) => WriterEnabled(s.back, d)
       case Fatal => true
  }

  predicate AllExited(f: Front) { forall w :: 0 <= w < |f.workers| ==> f.workers[w].Exited? }

  function Apply(s: State, a: Action): State
    requires Enabled(s, a)
  {
    match a
    case ByEnqueuer(e) => s.(front := EnqueuerStep(s.front, e))
    case ByWorker(w, r) => WorkerStep(s, w, r)
    case Closer => s.(front := s.front.(resultsClosed := true))
    case AtHop(h) => HopStep(s, h)
    case ByProcessor(p) => ProcessorStep(s, p)
    case ByWriter(d) => s.(back := WriterStep(s.back, d), books := WriterBooks(s, d))
    case Fatal => s.(aborted := true)
  }

  /** The schedule can be followed from `s` to its end. */
  ghost predicate Possible(s: State, run: seq<Action>)
    decreases |run|
  {
    run == [] || (Enabled(s, run[0]) && Possible(Apply(s, run[0]), run[1..]))
  }

  ghost function Execute(s: State, run: seq<Action>): State
    requires Possible(s, run)
    decreases |run|
  {
    if run == [] then s else Execute(Apply(s, run[0]), run[1..])
  }

  // ---------------------------------------------------------------------------------------------
  // What every step keeps
  // ---------------------------------------------------------------------------------------------

  ghost predicate FrontOk(f: Front) {
    && (forall i :: 0 <= i < |f.enqueued| ==> f.enqueued[i].id == i)
    && |f.queue| <= f.queueCap && |f.queue| <= |f.enqueued| && f.queue == f.enqueued[|f.enqueued| - |f.queue|..]
    && (f.resultsClosed ==> AllExited(f))
    && (forall w :: 0 <= w < |f.workers| && f.workers[w].Exited? ==> !f.enqueuer.Enqueuing? && f.queue == [])
  }

  function TxInHand(w: Writer): seq<Job> { if w.WritingTx? then [w.job] else [] }

  function EventsInHand(w: Writer): seq<Job> { if w.WritingEvents? then [w.job] else [] }

  /** The channel is first in, first out and loses nothing; its reader gives up only on a closed, empty channel. */
  ghost predicate ChannelOk(c: Channel, inHand: seq<Job>, closed: bool) {
    && |c.buffer| <= c.cap
    && c.sent == c.handled + inHand + c.buffer
    && (c.seenClosed ==> closed && c.buffer == [])
  }

  ghost predicate BackOk(b: Back) {
    && ChannelOk(b.txs, TxInHand(b.writer), b.TxClosed())
    && ChannelOk(b.events, EventsInHand(b.writer), b.EventsClosed())
    && (b.writer.Left? ==> b.txs.seenClosed && b.events.seenClosed)
  }

  /** A failure in the ledger is a row of failed_blocks unless the height was written as well. */
  ghost predicate BooksOk(b: Books) {
    forall i :: 0 <= i < |b.ledger| && b.ledger[i].outcome.Failed? ==>
      b.ledger[i].job.height in b.failedRows || WrittenHeight(b.ledger, b.ledger[i].job.height)
  }

  ghost predicate WrittenHeight(ledger: seq<Entry>, height: int) {
    exists i :: 0 <= i < |ledger| && ledger[i].outcome.Written? && ledger[i].job.height == height
  }

  ghost predicate Inv(s: State) {
    && !s.panicked && FrontOk(s.front) && BackOk(s.back) && BooksOk(s.books)
    && (s.hop.pipeClosed ==> s.hop.forwarder.Empty?)
    && (s.back.ProcessorDone() ==> s.hop.pipeClosed)
    && (s.front.enqueuer.Returned? ==> s.back.writer.Left?)
  }

  lemma GrowBooks(b: Books, entry: Entry, rows: set<int>)
    requires BooksOk(b)
    requires forall h :: h in b.failedRows && !(entry.outcome.Written? && entry.job.height == h) ==> h in rows
    requires entry.outcome.Failed? ==> entry.job.height in rows
    ensures BooksOk(b.(ledger := b.ledger + [entry], failedRows := rows))
  {
    var ledger' := b.ledger + [entry];
    forall i | 0 <= i < |ledger'| && ledger'[i].outcome.Failed?
      ensures ledger'[i].job.height in rows || WrittenHeight(ledger', ledger'[i].job.height)
    {
      var height := ledger'[i].job.height;
      if i < |b.ledger| && WrittenHeight(b.ledger, height) {
        var k :| 0 <= k < |b.ledger| && b.ledger[k].outcome.Written? && b.ledger[k].job.height == height;
        assert ledger'[k] == b.ledger[k];
      } else if i < |b.ledger| && entry.outcome.Written? && entry.job.height == height {
        assert ledger'[|b.ledger|] == entry;
      }
    }
  }

  lemma SettleBooks(b: Books, item: Item, outcome: Outcome)
    requires BooksOk(b)
    ensures outcome.Dropped? ==> BooksOk(Settle(b, item, outcome))
    ensures BooksOk(RecordFailure(b, item))
  {
    var rows := b.failedRows + {item.job.height};
    if Carries(item) {
      if outcome.Dropped? {
        GrowBooks(b, Entry(item.job, outcome), b.failedRows);
      }
      GrowBooks(b, Entry(item.job, Failed), rows);
    }
  }

  lemma WorkerInv(s: State, w: nat, r: WorkerAction)
    requires Inv(s) && WorkerEnabled(s, w, r)
    ensures Inv(WorkerStep(s, w, r))
  {
    if s.front.workers[w].Fetching? {
      SettleBooks(s.books, Item(s.front.workers[w].job, false), Failed);
    }
  }

  lemma HopInv(s: State, h: HopAction)
    requires Inv(s) && HopEnabled(s, h)
    ensures Inv(HopStep(s, h))
  {
    match h
    case DropAtPublisher => SettleBooks(s.books, s.hop.publisher.item, Dropped);
    case DropOnWire => SettleBooks(s.books, s.hop.wire[0], Dropped);
    case DropAtSubscriber => SettleBooks(s.books, s.hop.subscriber.item, Dropped);
    case _ =>
  }

  lemma ProcessorInv(s: State, p: ProcessorAction)
    requires Inv(s) && ProcessorEnabled(s, p)
    ensures Inv(ProcessorStep(s, p))
  {
    match p
    case BlockFails => SettleBooks(s.books, s.back.processor.item, Failed);
    case TxsFail => SettleBooks(s.books, s.back.processor.item, Failed);
    case _ =>
  }

  lemma WriterInv(b: Back, d: WriterAction)
    requires BackOk(b) && WriterEnabled(b, d)
    ensures BackOk(WriterStep(b, d))
  {
    match d
    case TakeTx => assert [b.txs.buffer[0]] + b.txs.buffer[1..] == b.txs.buffer;
    case TakeEvents => assert [b.events.buffer[0]] + b.events.buffer[1..] == b.events.buffer;
    case _ =>
  }

  lemma EnqueuerInv(s: State, e: EnqueuerAction)
    requires Inv(s) && EnqueuerEnabled(s, e)
    ensures Inv(s.(front := EnqueuerStep(s.front, e)))
  {
  }

  lemma CloserInv(s: State)
    requires Inv(s) && AllExited(s.front)
    ensures Inv(s.(front := s.front.(resultsClosed := true)))
  {
  }

  lemma WriterStepInv(s: State, d: WriterAction)
    requires Inv(s) && WriterEnabled(s.back, d)
    ensures Inv(s.(back := WriterStep(s.back, d), books := WriterBooks(s, d)))
  {
    hide FrontOk, BackOk, BooksOk;
    WriterInv(s.back, d);
    WriterBooksOk(s, d);
    WriterShutdown(s, d);
  }

  lemma WriterBooksOk(s: State, d: WriterAction)
    requires BooksOk(s.books) && WriterEnabled(s.back, d)
    ensures BooksOk(WriterBooks(s, d))
  {
    if d.WriteTx? {
      var entry := Entry(s.back.writer.job, Written);
      GrowBooks(s.books, entry, s.books.failedRows - {entry.job.height});
    }
  }

  lemma WriterShutdown(s: State, d: WriterAction)
    requires WriterEnabled(s.back, d)
    ensures WriterStep(s.back, d).processor == s.back.processor && !s.back.writer.Left?
  {
  }

  lemma StepInv(s: State, a: Action)
    requires Inv(s) && Enabled(s, a)
    ensures Inv(Apply(s, a))
  {
    hide FrontOk, BackOk, BooksOk, EnqueuerStep, WorkerStep, HopStep, ProcessorStep, WriterStep, WriterBooks;
    match a
    case ByEnqueuer(e) => EnqueuerInv(s, e);
    case ByWorker(w, r) => WorkerInv(s, w, r);
    case Closer => CloserInv(s);
    case AtHop(h) => HopInv(s, h);
    case ByProcessor(p) => ProcessorInv(s, p);
    case ByWriter(d) => WriterStepInv(s, d);
    case Fatal =>
  }

  lemma {:induction false} RunInv(s: State, run: seq<Action>)
    requires Inv(s) && Possible(s, run)
    ensures Inv(Execute(s, run))
    decreases |run|
  {
    if run != [] {
      StepInv(s, run[0]);
      RunInv(Apply(s, run[0]), run[1..]);
    }
  }
}
