/**
 Theorems about every reachable point of the default enqueue loop, for every behaviour of the chain head, of the
 consumers and (except where `Alone` is required) of other producers on the same queue.
 */
module EnqueueTheorems {
  import opened Enqueue

  // ---------------------------------------------------------------------------------------------
  // Reading a trace
  // ---------------------------------------------------------------------------------------------

  function Last(tr: seq<Event>): Event
    requires tr != []
  {
    tr[|tr| - 1]
  }

  function Init(tr: seq<Event>): seq<Event>
    requires tr != []
  {
    tr[..|tr| - 1]
  }

  function Delta(e: Event): int {
    match e
    case Others(taken, put) => put - taken
    case Resent(_) => 1
    case Sent(_) => 1
    case _ => 0
  }

  /** The number of jobs on the queue after the trace. */
  function Queued(tr: seq<Event>): int { if tr == [] then 0 else Queued(Init(tr)) + Delta(Last(tr)) }

  /** The number of jobs the consumers took during the trace. */
  function Consumed(tr: seq<Event>): nat {
    if tr == [] then 0 else Consumed(Init(tr)) + (if Last(tr).Others? then Last(tr).taken else 0)
  }

  /** The head reported last; before the first report the loop uses the largest height there is. */
  function LastHead(tr: seq<Event>): int {
    if tr == [] then MaxInt64 else if Last(tr).Asked? then Last(tr).head else LastHead(Init(tr))
  }

  function Sends(tr: seq<Event>): seq<Job> {
    if tr == [] then [] else Sends(Init(tr)) + (if Last(tr).Sent? then [Last(tr).job] else [])
  }

  function Resends(tr: seq<Event>): seq<Job> {
    if tr == [] then [] else Resends(Init(tr)) + (if Last(tr).Resent? then [Last(tr).job] else [])
  }

  /** Event `e` may follow trace `tr`. */
  predicate Lawful(w: World, tr: seq<Event>, e: Event) {
    match e
    case Others(taken, put) => 0 <= Queued(tr) - taken + put <= w.cap
    case Low => Queued(tr) <= w.cap / 4 && Resends(tr) == w.plan.failed
    case High => Queued(tr) > w.cap / 4 && Resends(tr) == w.plan.failed
    case Asked(_) => |tr| >= 2 && Last(tr).Others? && tr[|tr| - 2].Low? && Resends(tr) == w.plan.failed
    case Resent(_) => Queued(tr) < w.cap
    case Sent(job) =>
      && Queued(tr) < w.cap && Resends(tr) == w.plan.failed
      && job.height < LastHead(tr) && (w.plan.end == -1 || job.height <= w.plan.end)
    case Blocked => Queued(tr) == w.cap
  }

  /** After `Low` the others take a turn, and then the head is asked. */
  predicate Follows(tr: seq<Event>, e: Event) {
    && (tr != [] && Last(tr).Low? ==> e.Others?)
    && (|tr| >= 2 && tr[|tr| - 2].Low? ==> e.Asked?)
  }

  /** No head request is due. */
  predicate NothingDue(tr: seq<Event>) {
    (tr != [] ==> !Last(tr).Low?) && (|tr| >= 2 ==> !tr[|tr| - 2].Low?)
  }

  ghost predicate AllLawful(w: World, tr: seq<Event>) {
    tr == [] || (AllLawful(w, Init(tr)) && Lawful(w, Init(tr), Last(tr)) && Follows(Init(tr), Last(tr)))
  }

  lemma Extend(w: World, tr: seq<Event>, e: Event)
    ensures Queued(tr + [e]) == Queued(tr) + Delta(e)
    ensures LastHead(tr + [e]) == if e.Asked? then e.head else LastHead(tr)
    ensures Sends(tr + [e]) == if e.Sent? then Sends(tr) + [e.job] else Sends(tr)
    ensures Resends(tr + [e]) == if e.Resent? then Resends(tr) + [e.job] else Resends(tr)
    ensures AllLawful(w, tr + [e]) <==> AllLawful(w, tr) && Lawful(w, tr, e) && Follows(tr, e)
  {
    assert Init(tr + [e]) == tr && Last(tr + [e]) == e;
  }

  lemma {:induction false} LawfulAt(w: World, tr: seq<Event>, i: nat)
    requires AllLawful(w, tr) && i < |tr|
    ensures AllLawful(w, tr[..i]) && Lawful(w, tr[..i], tr[i]) && Follows(tr[..i], tr[i])
    decreases |tr|
  {
    if i == |tr| - 1 {
      assert tr[..i] == Init(tr);
    } else {
      LawfulAt(w, Init(tr), i);
      assert Init(tr)[..i] == tr[..i];
    }
  }

  lemma {:induction false} QueuedBounds(w: World, tr: seq<Event>)
    requires AllLawful(w, tr)
    ensures 0 <= Queued(tr) <= w.cap
    decreases |tr|
  {
    if tr != [] {
      QueuedBounds(w, Init(tr));
    }
  }

  // ---------------------------------------------------------------------------------------------
  // What every turn keeps
  // ---------------------------------------------------------------------------------------------

  /** The variables of the loop agree with what happened on the channels. */
  ghost predicate Agrees(w: World, s: State) {
    && s.fill <= w.cap && s.fill == Queued(s.trace) && s.latest == LastHead(s.trace) && AllLawful(w, s.trace)
    && w.plan.start <= s.curr && Sends(s.trace) == KeptJobs(w.plan, w.plan.start, s.curr)
    && (w.plan.end != -1 ==> s.curr <= w.plan.start || s.curr <= w.plan.end + 1)
  }

  ghost predicate PcOk(w: World, s: State) {
    && (!s.pc.Asking? && s.pc != Ended(HeadFailed) ==> NothingDue(s.trace))
    && match s.pc
    case Resending(k) => k <= |w.plan.failed| && Resends(s.trace) == w.plan.failed[..k] && s.curr == w.plan.start
    case Polling => Resends(s.trace) == w.plan.failed && WithinEnd(w, s)
    case Asking =>
      && Resends(s.trace) == w.plan.failed && WithinEnd(w, s)
      && s.trace != [] && Last(s.trace).Low? && NothingDue(Init(s.trace))
    case Deciding => Resends(s.trace) == w.plan.failed && InRange(w, s)
    case Stuck => Resends(s.trace) == w.plan.failed && InRange(w, s) && Kept(w.plan, s.curr)
    case Guarding => Resends(s.trace) == w.plan.failed
    case Ended(why) =>
      && Resends(s.trace) == w.plan.failed
      && (why.EndReached? ==> w.plan.end != -1 && s.curr > w.plan.end)
      && (why.CaughtUp? ==> w.plan.cfg.exitWhenCaughtUp && s.curr > s.latest)
  }

  ghost predicate WithinEnd(w: World, s: State) { w.plan.end == -1 || s.curr <= w.plan.end }

  ghost predicate InRange(w: World, s: State) { s.curr < s.latest && WithinEnd(w, s) }

  ghost predicate Inv(w: World, s: State) { Agrees(w, s) && PcOk(w, s) }

  lemma {:induction false} YieldAgrees(w: World, s: State, turn: Turn)
    requires Inv(w, s) && !s.pc.Ended?
    ensures var s' := Yield(w.cap, s, turn);
            && Agrees(w, s') && Resends(s'.trace) == Resends(s.trace)
            && (!s.pc.Asking? ==> PcOk(w, s'))
            && (s.pc.Asking? ==> |s'.trace| >= 2 && Last(s'.trace).Others? && s'.trace[|s'.trace| - 2].Low?)
  {
    hide AllLawful, Queued, LastHead, Sends, Resends, KeptJobs;
    var s' := Yield(w.cap, s, turn);
    Extend(w, s.trace, Last(s'.trace));
  }

  lemma SendInv(w: World, s: State)
    requires Agrees(w, s) && InRange(w, s) && Kept(w.plan, s.curr) && Resends(s.trace) == w.plan.failed
    requires NothingDue(s.trace)
    ensures Inv(w, SendOrBlock(w, s))
  {
    hide AllLawful, Queued, LastHead, Sends, Resends;
    Extend(w, s.trace, Sent(Job(s.curr, w.plan.cfg.txIndexing)));
    Extend(w, s.trace, Blocked);
  }

  lemma SkipInv(w: World, s: State)
    requires Inv(w, s) && s.pc.Deciding? && !Kept(w.plan, s.curr)
    ensures Inv(w, s.(pc := Guarding, curr := s.curr + 1))
  {
    hide AllLawful, Queued, LastHead, Sends, Resends;
    assert KeptJobs(w.plan, w.plan.start, s.curr + 1) == KeptJobs(w.plan, w.plan.start, s.curr);
  }

  lemma ResendInv(w: World, s: State)
    requires Inv(w, s) && s.pc.Resending?
    ensures Inv(w, Resend(w, s, s.pc.k))
  {
    hide AllLawful, Queued, LastHead, Sends, Resends, KeptJobs;
    if s.pc.k < |w.plan.failed| {
      Extend(w, s.trace, Resent(w.plan.failed[s.pc.k]));
      assert w.plan.failed[..s.pc.k + 1] == w.plan.failed[..s.pc.k] + [w.plan.failed[s.pc.k]];
    } else {
      assert w.plan.failed[..s.pc.k] == w.plan.failed;
    }
  }

  lemma TestInv(w: World, s: State)
    requires Inv(w, s) && s.pc.Polling? && s.fill <= w.cap / 4
    ensures Inv(w, s.(pc := Asking, trace := s.trace + [Low]))
  {
    hide AllLawful, Queued, LastHead, Sends, Resends, KeptJobs;
    Extend(w, s.trace, Low);
  }

  lemma HighInv(w: World, s: State)
    requires Inv(w, s) && s.pc.Polling? && s.fill > w.cap / 4
    ensures Inv(w, Tests(w.plan, s.(trace := s.trace + [High])))
  {
    hide AllLawful, Queued, LastHead, Sends, Resends, KeptJobs;
    Extend(w, s.trace, High);
  }

  lemma AskInv(w: World, s: State)
    requires Agrees(w, s) && Resends(s.trace) == w.plan.failed
    requires |s.trace| >= 2 && Last(s.trace).Others? && s.trace[|s.trace| - 2].Low?
    ensures Inv(w, Ask(w, s))
  {
    hide AllLawful, Queued, LastHead, Sends, Resends, KeptJobs;
    if w.head(s.asks).Head? {
      Extend(w, s.trace, Asked(w.head(s.asks).height));
    }
  }

  lemma {:induction false} StepInv(w: World, s: State, turn: Turn)
    requires Inv(w, s)
    ensures Inv(w, Step(w, s, turn))
  {
    hide AllLawful, Queued, LastHead, Sends, Resends, KeptJobs, Ask, Resend, SendOrBlock;
    if s.pc.Ended? { return; }
    YieldAgrees(w, s, turn);
    var s' := Yield(w.cap, s, turn);
    match s.pc
    case Resending(k) => ResendInv(w, s');
    case Polling => if s'.fill <= w.cap / 4 { TestInv(w, s'); } else { HighInv(w, s'); }
    case Asking => AskInv(w, s');
    case Deciding => if Kept(w.plan, s.curr) { SendInv(w, s'); } else { SkipInv(w, s'); }
    case Stuck => SendInv(w, s');
    case Guarding =>
  }

  lemma StartInv(w: World)
    ensures Inv(w, Start(w.plan))
  {
  }

  lemma {:induction false} AfterInv(w: World, t: nat)
    ensures Inv(w, After(w, t))
  {
    hide *;
    if t == 0 {
      AfterNone(w);
      StartInv(w);
    } else {
      AfterInv(w, t - 1);
      AfterNext(w, t - 1);
      StepInv(w, After(w, t - 1), w.env(t - 1));
    }
  }

  // ---------------------------------------------------------------------------------------------
  // The theorems
  // ---------------------------------------------------------------------------------------------

  /**
   At every point the main loop has sent, strictly ascending and once each, exactly the kept heights between its
   start and its current height.  The skip rule is that of the map before any deletion.
   */
  lemma SendsExactly(w: World, t: nat)
    ensures var s := After(w, t);
            var sent := Sends(s.trace);
            && w.plan.start <= s.curr
            && (forall i, j :: 0 <= i < j < |sent| ==> sent[i].height < sent[j].height)
            && (forall h :: (exists i :: 0 <= i < |sent| && sent[i].height == h)
                            <==> w.plan.start <= h < s.curr && Kept(w.plan, h))
            && (forall i :: 0 <= i < |sent| ==> sent[i].indexTxs == w.plan.cfg.txIndexing)
  {
    hide After;
    AfterInv(w, t);
    var s := After(w, t);
    KeptJobsExact(w.plan, w.plan.start, s.curr);
    forall h | w.plan.start <= h < s.curr && Kept(w.plan, h)
      ensures exists i :: 0 <= i < |Sends(s.trace)| && Sends(s.trace)[i].height == h
    {
      assert Job(h, w.plan.cfg.txIndexing) in Sends(s.trace);
    }
  }

  lemma SentIsKept(w: World, t: nat, job: Job)
    requires job in Sends(After(w, t).trace)
    ensures w.plan.start <= job.height < After(w, t).curr && Kept(w.plan, job.height)
  {
    hide After, Sends, KeptJobs, Kept;
    AfterInv(w, t);
    JobIsKept(w.plan, w.plan.start, After(w, t).curr, job);
  }

  lemma {:induction false} JobIsKept(plan: Plan, lo: int, hi: int, job: Job)
    requires lo <= hi && job in KeptJobs(plan, lo, hi)
    ensures lo <= job.height < hi && Kept(plan, job.height)
    decreases hi - lo
  {
    if job in KeptJobs(plan, lo, hi - 1) {
      JobIsKept(plan, lo, hi - 1, job);
    }
  }

  lemma ResendsAreFailed(w: World, t: nat, job: Job)
    requires job in Resends(After(w, t).trace)
    ensures job in w.plan.failed
  {
    hide After, Resends;
    AfterInv(w, t);
  }

  /**
   The queue never holds more than its capacity.  Every send finds room, is below the head reported last and within
   the end block, and comes after all failed blocks.  Every head request follows, after one turn of the others, a test
   that found the queue at most a quarter full.
   */
  lemma QueueDiscipline(w: World, t: nat, i: nat)
    requires i < |After(w, t).trace|
    ensures var tr := After(w, t).trace;
            && 0 <= Queued(tr[..i]) <= w.cap
            && (tr[i].Low? ==> Queued(tr[..i]) <= w.cap / 4)
            && (tr[i].High? ==> Queued(tr[..i]) > w.cap / 4)
            && (tr[i].Low? && i + 1 < |tr| ==> tr[i + 1].Others?)
            && (tr[i].Low? && i + 2 < |tr| ==> tr[i + 2].Asked?)
            && (tr[i].Asked? ==> i >= 2 && tr[i - 1].Others? && tr[i - 2].Low?)
            && (tr[i].Sent? ==>
                  && Queued(tr[..i]) < w.cap
                  && tr[i].job.height < LastHead(tr[..i])
                  && (w.plan.end == -1 || tr[i].job.height <= w.plan.end)
                  && Resends(tr[..i]) == w.plan.failed)
  {
    hide After;
    AfterInv(w, t);
    LawfulAt(w, After(w, t).trace, i);
    if After(w, t).trace[i].Low? {
      NextTwo(w, After(w, t).trace, i);
    }
    QueuedBounds(w, After(w, t).trace[..i]);
  }

  lemma NextTwo(w: World, tr: seq<Event>, i: nat)
    requires AllLawful(w, tr) && i < |tr| && tr[i].Low?
    ensures i + 1 < |tr| ==> tr[i + 1].Others?
    ensures i + 2 < |tr| ==> tr[i + 2].Asked?
  {
    if i + 1 < |tr| {
      LawfulAt(w, tr, i + 1);
    }
    if i + 2 < |tr| {
      LawfulAt(w, tr, i + 2);
    }
  }

  /**
   Every length test is decided by what the others left on the queue: at most a quarter of its capacity, and the head is
   asked after their next turn, which ends the run if the request fails and else tells the loop the head; more, and it
   is not asked.
   */
  lemma TestDecides(w: World, t: nat)
    requires After(w, t).pc.Polling?
    ensures var tr, tr1, tr2 := After(w, t).trace, After(w, t + 1).trace, After(w, t + 2).trace;
            && |tr1| == |tr| + 2 && tr <= tr1 && tr1[|tr|].Others?
            && (if Queued(tr1[..|tr| + 1]) <= w.cap / 4
                then
                  && Last(tr1).Low?
                  && match w.head(After(w, t).asks)
                     case HeadError => After(w, t + 2).pc == Ended(HeadFailed)
                     case Head(h) =>
                       tr1 < tr2 && Last(tr2) == Asked(h) && After(w, t + 2).latest == h && !After(w, t + 2).pc.Ended?
                else
                  Last(tr1).High?)
  {
    hide After, Queued, AllLawful, LastHead, Sends, Resends, KeptJobs;
    AfterNext(w, t);
    AfterNext(w, t + 1);
    AfterInv(w, t);
    var s := Yield(w.cap, After(w, t), w.env(t));
    Extend(w, After(w, t).trace, Last(s.trace));
    assert After(w, t + 1).trace[..|After(w, t).trace| + 1] == s.trace;
  }

  /**
   The inner loop goes on exactly while the next height is below the head reported last, within the end block, and the
   queue, as the others left it, is not full; otherwise the exit tests decide.
   */
  lemma GuardDecides(w: World, t: nat)
    requires After(w, t).pc.Guarding?
    ensures var tr, curr, pc := After(w, t + 1).trace, After(w, t + 1).curr, After(w, t + 1).pc;
            && curr == After(w, t).curr
            && (pc.Deciding? <==> curr < LastHead(tr) && (w.plan.end == -1 || curr <= w.plan.end) && Queued(tr) < w.cap)
            && (pc == Ended(EndReached) <==> w.plan.end != -1 && curr > w.plan.end)
            && (pc == Ended(CaughtUp)
                <==> !(w.plan.end != -1 && curr > w.plan.end) && w.plan.cfg.exitWhenCaughtUp && curr > LastHead(tr))
            && (pc.Deciding? || pc.Polling? || pc.Ended?)
  {
    hide After, Queued, AllLawful, LastHead, Sends, Resends, KeptJobs;
    AfterNext(w, t);
    AfterInv(w, t);
    AfterInv(w, t + 1);
  }

  /** Without a stored row in range the loop starts at the configured height, or at 1 if that is not positive. */
  lemma StartHeight(cfg: Config, rows: seq<BlockRow>, startBlock: int, end: int, skip: set<int>, failed: seq<Job>)
    ensures var plan := MakePlan(cfg, rows, startBlock, end, skip, failed);
            && plan.end == end && plan.cfg == cfg && plan.failed == failed && plan.skip == skip && plan.start >= 1
            && (cfg.reindex ==> plan.start == if startBlock >= 1 then startBlock else 1)
            && ((forall row :: row in rows ==> row.height < startBlock) && startBlock >= 1 ==> plan.start == startBlock)
            && (rows == [] && startBlock < 1 ==> plan.start == 1)
  {
  }

  /**
   The skip rule over the stored rows: the height at which a run without reindexing resumes is sent exactly if its
   transactions are wanted and not indexed; any other height of the range exactly if it is not in the skip set.
   */
  lemma SkipRule(cfg: Config, rows: seq<BlockRow>, startBlock: int, end: int, skip: set<int>, failed: seq<Job>,
                 w: World, t: nat, h: int)
    requires w.plan == MakePlan(cfg, rows, startBlock, end, skip, failed) && w.plan.start <= h < After(w, t).curr
    ensures var top := HighestStored(rows, FirstHeight(startBlock), end);
            (exists i :: 0 <= i < |Sends(After(w, t).trace)| && Sends(After(w, t).trace)[i].height == h)
            <==> if !cfg.reindex && top.Some? && top.value.height == h then cfg.txIndexing && !top.value.txIndexed
                 else h !in skip
  {
    hide After, HighestStored, Sends, KeptJobs;
    var sent := Sends(After(w, t).trace);
    if i :| 0 <= i < |sent| && sent[i].height == h {
      SentIsKept(w, t, sent[i]);
    }
    if Kept(w.plan, h) {
      AfterInv(w, t);
      KeptJobsExact(w.plan, w.plan.start, After(w, t).curr);
      assert Job(h, cfg.txIndexing) in sent;
    }
  }

  /** No other goroutine puts jobs on the queue. */
  ghost predicate Alone(w: World) { forall t :: w.env(t).put == 0 }

  ghost predicate Free(w: World, s: State) {
    && Blocked !in s.trace && !s.pc.Stuck?
    && (s.pc.Deciding? ==> s.fill < w.cap)
    && s.fill <= w.cap
  }

  lemma StepFree(w: World, s: State, turn: Turn)
    requires Free(w, s) && turn.put == 0
    ensures Free(w, Step(w, s, turn))
  {
  }

  /** With a single producer a send of the main loop never blocks. */
  lemma {:induction false} NeverBlocks(w: World, t: nat)
    requires Alone(w)
    ensures Blocked !in After(w, t).trace && !After(w, t).pc.Stuck?
    ensures Free(w, After(w, t))
  {
    hide After;
    if t == 0 {
      AfterNone(w);
    } else {
      NeverBlocks(w, t - 1);
      AfterNext(w, t - 1);
      StepFree(w, After(w, t - 1), w.env(t - 1));
    }
  }

  lemma {:induction false} ConsumedAtLeast(w: World, tr: seq<Event>, i: nat)
    requires i <= |tr| && AllLawful(w, tr)
    ensures Consumed(tr) - Consumed(tr[..i]) >= Queued(tr[..i]) - Queued(tr)
    decreases |tr|
  {
    if i == |tr| {
      assert tr[..i] == tr;
    } else {
      ConsumedAtLeast(w, Init(tr), i);
      assert Init(tr)[..i] == tr[..i];
    }
  }

  /** Nobody else has put a job on the queue. */
  ghost predicate Quiet(tr: seq<Event>) { forall i :: 0 <= i < |tr| && tr[i].Others? ==> tr[i].put == 0 }

  lemma {:induction false} AloneIsQuiet(w: World, t: nat)
    requires Alone(w)
    ensures Quiet(After(w, t).trace)
  {
    hide After;
    if t == 0 {
      AfterNone(w);
    } else {
      AloneIsQuiet(w, t - 1);
      AfterNext(w, t - 1);
    }
  }

  /** With a single producer the queue is at most a quarter full at the request, too. */
  lemma AskedWhenLow(w: World, t: nat, i: nat)
    requires Alone(w) && i < |After(w, t).trace| && After(w, t).trace[i].Asked?
    ensures Queued(After(w, t).trace[..i]) <= w.cap / 4
  {
    hide After;
    QueueDiscipline(w, t, i);
    QueueDiscipline(w, t, i - 2);
    AloneIsQuiet(w, t);
    AskedLowExactly(w, t, i);
  }

  /** Among any producers it is, if and only if the turn during the request did not fill it beyond. */
  lemma AskedLowExactly(w: World, t: nat, i: nat)
    requires i < |After(w, t).trace| && After(w, t).trace[i].Asked?
    ensures var tr := After(w, t).trace;
            && i >= 2 && tr[i - 1].Others?
            && (Queued(tr[..i]) <= w.cap / 4 <==> Queued(tr[..i - 2]) + tr[i - 1].put <= w.cap / 4 + tr[i - 1].taken)
  {
    hide After;
    var tr := After(w, t).trace;
    QueueDiscipline(w, t, i);
    assert Init(tr[..i]) == tr[..i - 1] && Init(tr[..i - 1]) == tr[..i - 2];
  }

  /** Another producer fills the queue while the first head request is under way. */
  function Crowded(plan: Plan, cap: nat, head: int): World {
    World(plan, cap, t => Turn(0, if t == 2 then cap else 0), _ => Head(head))
  }

  lemma CrowdedTest(plan: Plan, cap: nat, head: int)
    requires plan.failed == [] && plan.end == -1 && plan.start <= MaxInt64
    ensures After(Crowded(plan, cap, head), 2)
            == State(Asking, plan.start, MaxInt64, 0, 0, [Others(0, 0)] + [Others(0, 0)] + [Low])
  {
    hide After;
    var w := Crowded(plan, cap, head);
    AfterNone(w);
    AfterNext(w, 0);
    assert After(w, 1) == State(Polling, plan.start, MaxInt64, 0, 0, [] + [Others(0, 0)]);
    AfterNext(w, 1);
  }

  /** Among several producers the queue need not be low at the request: here it is full. */
  lemma AskedOnFullQueue(plan: Plan, cap: nat, head: int)
    requires plan.failed == [] && plan.end == -1 && plan.start <= MaxInt64
    ensures var tr := After(Crowded(plan, cap, head), 3).trace;
            tr != [] && Last(tr) == Asked(head) && Queued(Init(tr)) == cap
  {
    hide After, Queued, AllLawful, LastHead, Sends, Resends, KeptJobs;
    var w := Crowded(plan, cap, head);
    CrowdedTest(plan, cap, head);
    AfterInv(w, 2);
    AfterNext(w, 2);
    var tr := After(w, 2).trace;
    Extend(w, tr, Others(0, cap));
    assert After(w, 3).trace == tr + [Others(0, cap)] + [Asked(head)];
    assert Init(After(w, 3).trace) == tr + [Others(0, cap)];
  }

  /**
   Once the queue was full, it is found a quarter full again, and with a single producer the head is asked again, only
   after cap - cap/4 jobs have been consumed.
   */
  lemma RefillNeedsDrain(w: World, t: nat, i: nat, j: nat)
    requires i <= j < |After(w, t).trace| && Queued(After(w, t).trace[..i]) == w.cap
    requires After(w, t).trace[j].Low? || (Alone(w) && After(w, t).trace[j].Asked?)
    ensures var tr := After(w, t).trace;
            Consumed(tr[..j]) - Consumed(tr[..i]) >= w.cap - w.cap / 4
  {
    hide After;
    var tr := After(w, t).trace;
    AfterInv(w, t);
    LawfulAt(w, tr, j);
    if tr[j].Asked? {
      AskedWhenLow(w, t, j);
    }
    ConsumedAtLeast(w, tr[..j], i);
    assert tr[..j][..i] == tr[..i];
  }

  /** A run that ends by the end-block test has sent exactly the kept heights up to and including the end block. */
  lemma EndReachedSendsAll(w: World, t: nat)
    requires After(w, t).pc == Ended(EndReached) && w.plan.start <= w.plan.end + 1
    ensures Sends(After(w, t).trace) == KeptJobs(w.plan, w.plan.start, w.plan.end + 1)
  {
    hide After;
    AfterInv(w, t);
  }

  // ---------------------------------------------------------------------------------------------
  // Catching up
  // ---------------------------------------------------------------------------------------------

  /** Reported heads never go down, and the first is not below the start. */
  ghost predicate SteadyHead(w: World) {
    && (w.head(0).Head? ==> w.plan.start <= w.head(0).height)
    && (forall i, j :: 0 <= i < j && w.head(i).Head? && w.head(j).Head? ==> w.head(i).height <= w.head(j).height)
  }

  ghost predicate BelowHead(w: World, s: State) {
    && (s.asks == 0 ==> s.latest == MaxInt64 && s.curr == w.plan.start)
    && (s.asks > 0 ==> w.head(s.asks - 1) == Head(s.latest) && w.plan.start <= s.latest)
    && s.curr <= s.latest && s.pc != Ended(CaughtUp)
    && (s.pc.Deciding? || s.pc.Stuck? ==> s.curr < s.latest)
    && (s.pc.Deciding? || s.pc.Stuck? || s.pc.Guarding? ==> s.asks > 0)
    && s.fill <= w.cap
  }

  lemma StepBelowHead(w: World, s: State, turn: Turn)
    requires SteadyHead(w) && BelowHead(w, s)
    ensures BelowHead(w, Step(w, s, turn))
  {
    if s.asks > 0 {
      assert w.head(s.asks).Head? ==> w.head(s.asks - 1).height <= w.head(s.asks).height;
    }
  }

  /**
   The option to exit when caught up never ends a run on a chain whose head does not go down: the inner loop stops
   strictly below the head, the exit test asks for a height above it.
   */
  lemma {:induction false} NeverCaughtUp(w: World, t: nat)
    requires SteadyHead(w) && w.plan.start <= MaxInt64
    ensures After(w, t).pc != Ended(CaughtUp) && After(w, t).curr <= After(w, t).latest
    ensures BelowHead(w, After(w, t))
  {
    hide After;
    if t == 0 {
      AfterNone(w);
    } else {
      NeverCaughtUp(w, t - 1);
      AfterNext(w, t - 1);
      StepBelowHead(w, After(w, t - 1), w.env(t - 1));
    }
  }

  /** A head report below the current height. */
  ghost predicate ShortReport(w: World, t: nat) {
    var s := After(w, t);
    s.pc.Asking? && w.head(s.asks).Head? && w.head(s.asks).height < s.curr
  }

  /** Two turns after such a report the test ends the run. */
  lemma CaughtUpAfter(w: World, t: nat)
    requires ShortReport(w, t) && w.plan.cfg.exitWhenCaughtUp
    ensures After(w, t + 2).pc == Ended(CaughtUp)
  {
    hide After;
    AfterInv(w, t);
    AfterNext(w, t);
    AfterNext(w, t + 1);
  }

  /** Only such a report takes the head below the current height. */
  lemma {:induction false} ShortReportBefore(w: World, t: nat) returns (u: nat)
    requires After(w, t).latest < After(w, t).curr && w.plan.start <= MaxInt64
    ensures u < t && ShortReport(w, u)
  {
    hide After;
    if t == 0 {
      AfterNone(w);
      assert false;
    } else {
      AfterNext(w, t - 1);
      var s := After(w, t - 1);
      if s.latest < s.curr {
        u := ShortReportBefore(w, t - 1);
      } else {
        HeadFalls(w, s, w.env(t - 1)) by { AfterInv(w, t - 1); }
        u := t - 1;
      }
    }
  }

  lemma HeadFalls(w: World, s: State, turn: Turn)
    requires Inv(w, s) && s.curr <= s.latest && Step(w, s, turn).latest < Step(w, s, turn).curr
    ensures s.pc.Asking? && w.head(s.asks).Head? && w.head(s.asks).height < s.curr
  {
    hide AllLawful, Queued, LastHead, Sends, Resends, KeptJobs, Allowed;
  }

  /** The option ends a run if and only if some head report of the run is below the current height. */
  lemma CaughtUpExactly(w: World)
    requires w.plan.start <= MaxInt64
    ensures (exists t :: After(w, t).pc == Ended(CaughtUp))
            <==> w.plan.cfg.exitWhenCaughtUp && exists u :: ShortReport(w, u)
  {
    hide After, ShortReport;
    if t :| After(w, t).pc == Ended(CaughtUp) {
      AfterInv(w, t);
      var u := ShortReportBefore(w, t);
    }
    if u :| w.plan.cfg.exitWhenCaughtUp && ShortReport(w, u) {
      CaughtUpAfter(w, u);
    }
  }

  // ---------------------------------------------------------------------------------------------
  // Resuming
  // ---------------------------------------------------------------------------------------------

  /** No stored, stamped row of the height has its transactions indexed. */
  ghost predicate Missing(rows: seq<BlockRow>, h: int) {
    forall i :: 0 <= i < |rows| && rows[i].stamped && rows[i].height == h ==> !rows[i].txIndexed
  }

  /** Heights of table blocks are unique. */
  ghost predicate UniqueHeights(rows: seq<BlockRow>) {
    forall i, j :: 0 <= i < j < |rows| ==> rows[i].height != rows[j].height
  }

  ghost predicate Covers(plan: Plan, rows: seq<BlockRow>, from: int, curr: int)
    requires plan.start <= curr
  {
    forall h :: from <= h < curr && Missing(rows, h) ==> Job(h, true) in KeptJobs(plan, plan.start, curr)
  }

  /**
   Without reindexing, the loop sends every height that is not indexed yet if and only if none lies below the
   highest stored height: the loop starts there, so earlier gaps are never filled.
   */
  lemma ResumeCoversExactly(cfg: Config, rows: seq<BlockRow>, startBlock: int, end: int, failed: seq<Job>, curr: int)
    requires !cfg.reindex && cfg.txIndexing && UniqueHeights(rows)
    requires MakePlan(cfg, rows, startBlock, end, {}, failed).start <= curr
    ensures var plan := MakePlan(cfg, rows, startBlock, end, {}, failed);
            Covers(plan, rows, FirstHeight(startBlock), curr)
            <==> (forall h :: FirstHeight(startBlock) <= h < plan.start ==> !Missing(rows, h))
  {
    var plan := MakePlan(cfg, rows, startBlock, end, {}, failed);
    KeptJobsExact(plan, plan.start, curr);
    var jobs := KeptJobs(plan, plan.start, curr);
    var from := FirstHeight(startBlock);
    forall h | plan.start <= h < curr && Missing(rows, h)
      ensures Job(h, true) in jobs
    {
      assert Kept(plan, h);
    }
    if Covers(plan, rows, from, curr) {
      forall h | from <= h < plan.start
        ensures !Missing(rows, h)
      {
        assert Missing(rows, h) ==> Job(h, true) in jobs;
      }
    }
  }

  /** Rows 1 and 3 are stored, 2 is not: the loop starts at 3 and never sends 2. */
  lemma GapIsSkipped(curr: int)
    requires 3 <= curr
    ensures var rows := [BlockRow(1, true, true), BlockRow(3, true, true)];
            var plan := MakePlan(Config(false, true, false), rows, 1, -1, {}, []);
            plan.start == 3 && Missing(rows, 2) && !Covers(plan, rows, 1, curr)
  {
    var rows := [BlockRow(1, true, true), BlockRow(3, true, true)];
    var plan := MakePlan(Config(false, true, false), rows, 1, -1, {}, []);
    assert Qualifies(rows[1], 1, -1) && plan.start == 3;
    KeptJobsExact(plan, 3, curr);
    assert Job(2, true) !in KeptJobs(plan, 3, curr);
  }
}
