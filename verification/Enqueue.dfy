/**
 The default enqueue function: where it starts, which heights it keeps, and its loop against a bounded queue, a
 moving chain head and other goroutines that take jobs from the queue (and, in fetcher mode, put jobs on it).
 */
module Enqueue {

  import opened Options

  datatype Job = Job(height: int, indexTxs: bool)

  /** A row of table blocks for the chain; `stamped` says that its timestamp is not the zero time. */
  datatype BlockRow = BlockRow(height: int, txIndexed: bool, stamped: bool)

  datatype Config = Config(reindex: bool, txIndexing: bool, exitWhenCaughtUp: bool)

  predicate Qualifies(row: BlockRow, start: int, end: int) {
    row.stamped && row.height >= start && (end != -1 ==> row.height <= end)
  }

  /** GetBlocksFromStart: order by height descending, limit 1. */
  function HighestStored(rows: seq<BlockRow>, start: int, end: int): (r: Option<BlockRow>)
    ensures r.None? <==> forall i :: 0 <= i < |rows| ==> !Qualifies(rows[i], start, end)
    ensures r.Some? ==> r.value in rows && Qualifies(r.value, start, end)
    ensures r.Some? ==> forall i :: 0 <= i < |rows| && Qualifies(rows[i], start, end) ==>
              rows[i].height <= r.value.height
  {
    if rows == [] then None
    else
      var rest := HighestStored(rows[1..], start, end);
      assert forall i :: 1 <= i < |rows| ==> rows[i] == rows[1..][i - 1];
      if Qualifies(rows[0], start, end) && (rest.None? || rest.value.height < rows[0].height) then Some(rows[0])
      else rest
  }

  /**
   What is fixed before the loop starts.  `inDb` maps the stored height found by HighestStored to its TxIndexed
   flag, `skip` is the set allBlocks, `failed` are the jobs re-enqueued first.
   */
  datatype Plan = Plan(cfg: Config, start: int, end: int, inDb: map<int, bool>, skip: set<int>, failed: seq<Job>)

  function FirstHeight(startBlock: int): int { if startBlock <= 0 then 1 else startBlock }

  function MakePlan(cfg: Config, rows: seq<BlockRow>, startBlock: int, end: int, skip: set<int>,
                    failed: seq<Job>): Plan {
    var start := FirstHeight(startBlock);
    var stored := if cfg.reindex then None else HighestStored(rows, start, end);
    match stored
    case None => Plan(cfg, start, end, map[], skip, failed)
    case Some(row) => Plan(cfg, row.height, end, map[row.height := row.txIndexed], skip, failed)
  }

  // ---------------------------------------------------------------------------------------------
  // The skip rule
  // ---------------------------------------------------------------------------------------------

  predicate Kept(plan: Plan, h: int) {
    if !plan.cfg.reindex && h in plan.inDb then plan.cfg.txIndexing && !plan.inDb[h] else h !in plan.skip
  }

  /** The jobs for the kept heights of [lo, hi), in ascending order. */
  function KeptJobs(plan: Plan, lo: int, hi: int): seq<Job>
    requires lo <= hi
    decreases hi - lo
  {
    if lo == hi then []
    else KeptJobs(plan, lo, hi - 1) + (if Kept(plan, hi - 1) then [Job(hi - 1, plan.cfg.txIndexing)] else [])
  }

  /** Strictly ascending, and exactly the kept heights. */
  lemma {:induction false} KeptJobsExact(plan: Plan, lo: int, hi: int)
    requires lo <= hi
    ensures var jobs := KeptJobs(plan, lo, hi);
            && (forall i :: 0 <= i < |jobs| ==> lo <= jobs[i].height < hi && Kept(plan, jobs[i].height))
            && (forall i, j :: 0 <= i < j < |jobs| ==> jobs[i].height < jobs[j].height)
            && (forall h :: lo <= h < hi && Kept(plan, h) ==> Job(h, plan.cfg.txIndexing) in jobs)
            && (forall i :: 0 <= i < |jobs| ==> jobs[i].indexTxs == plan.cfg.txIndexing)
    decreases hi - lo
  {
    if lo < hi {
      KeptJobsExact(plan, lo, hi - 1);
      var front := KeptJobs(plan, lo, hi - 1);
      if Kept(plan, hi - 1) {
        var jobs := front + [Job(hi - 1, plan.cfg.txIndexing)];
        assert KeptJobs(plan, lo, hi) == jobs && jobs[|front|].height == hi - 1;
        forall i | 0 <= i < |jobs|
          ensures lo <= jobs[i].height < hi && Kept(plan, jobs[i].height)
        {
          assert i < |front| ==> jobs[i] == front[i];
        }
      } else {
        assert KeptJobs(plan, lo, hi) == front;
      }
    }
  }

  // ---------------------------------------------------------------------------------------------
  // The loop as a machine: one turn of the other goroutines, then the code up to the next point at which they can run
  // ---------------------------------------------------------------------------------------------

  /** How many jobs the consumers take, and other producers put, in any order, if the queue lets them. */
  datatype Turn = Turn(take: nat, put: nat)

  datatype HeadReport = Head(height: int) | HeadError

  /** `Low` is a length test that found the queue at most a quarter full, `High` one that did not. */
  datatype Event =
    | Others(taken: nat, put: nat)
    | Low
    | High
    | Asked(head: int)
    | Resent(job: Job)
    | Sent(job: Job)
    | Blocked

  datatype Why = EndReached | CaughtUp | HeadFailed

  /**
   Resending(k): about to send the k-th failed job.  Polling: about to compare the queue length with a quarter of
   its capacity.  Asking: in the head request.  Guarding: about to evaluate the inner loop's condition.  Deciding:
   inside the inner loop.  Stuck: in a send on a full queue.
   */
  datatype Pc = Resending(k: nat) | Polling | Asking | Guarding | Deciding | Stuck | Ended(why: Why)

  datatype State = State(pc: Pc, curr: int, latest: int, fill: nat, asks: nat, trace: seq<Event>)

  /** A queue of capacity `cap`; `env(t)` is the t-th turn of the other goroutines, `head(k)` the k-th head report. */
  datatype World = World(plan: Plan, cap: nat, env: nat -> Turn, head: nat -> HeadReport)

  const MaxInt64: int := 0x7FFF_FFFF_FFFF_FFFF

  function Min(a: int, b: int): int { if a <= b then a else b }

  /** What the queue lets the other goroutines do of their turn. */
  function Allowed(cap: nat, fill: nat, turn: Turn): Turn
    requires fill <= cap
  {
    if turn.take <= fill + turn.put <= cap + turn.take then turn
    else
      var take := Min(turn.take, fill);
      Turn(take, Min(turn.put, cap - (fill - take)))
  }

  /** The other goroutines run. */
  function Yield(cap: nat, s: State, turn: Turn): State
    requires s.fill <= cap
  {
    var did := Allowed(cap, s.fill, turn);
    s.(fill := s.fill - did.take + did.put, trace := s.trace + [Others(did.take, did.put)])
  }

  /** Where the tests at the head of the outer loop lead. */
  function TestsPc(plan: Plan, curr: int, latest: int): Pc {
    if plan.end != -1 && curr > plan.end then Ended(EndReached)
    else if plan.cfg.exitWhenCaughtUp && curr > latest then Ended(CaughtUp)
    else Polling
  }

  function Tests(plan: Plan, s: State): State { s.(pc := TestsPc(plan, s.curr, s.latest)) }

  /** The condition of the inner loop, and where it leads. */
  predicate Continues(w: World, s: State) {
    s.curr < s.latest && (s.curr <= w.plan.end || w.plan.end == -1) && s.fill != w.cap
  }

  function Guard(w: World, s: State): State {
    s.(pc := if Continues(w, s) then Deciding else TestsPc(w.plan, s.curr, s.latest))
  }

  function SendOrBlock(w: World, s: State): State {
    if s.fill < w.cap then
      s.(pc := Guarding, curr := s.curr + 1, fill := s.fill + 1,
         trace := s.trace + [Sent(Job(s.curr, w.plan.cfg.txIndexing))])
    else s.(pc := Stuck, trace := s.trace + [Blocked])
  }

  function Resend(w: World, s: State, k: nat): State {
    if k >= |w.plan.failed| then Tests(w.plan, s)
    else if s.fill < w.cap then
      s.(pc := Resending(k + 1), fill := s.fill + 1, trace := s.trace + [Resent(w.plan.failed[k])])
    else s.(pc := Resending(k))
  }

  function Ask(w: World, s: State): State {
    match w.head(s.asks)
    case HeadError => s.(pc := Ended(HeadFailed))
    case Head(h) => s.(pc := Guarding, latest := h, asks := s.asks + 1, trace := s.trace + [Asked(h)])
  }

  function Step(w: World, s: State, turn: Turn): State
    requires s.fill <= w.cap
  {
    var s' := Yield(w.cap, s, turn);
    match s.pc
    case Resending(k) => Resend(w, s', k)
    case Polling =>
      if s'.fill <= w.cap / 4 then s'.(pc := Asking, trace := s'.trace + [Low])
      else Tests(w.plan, s'.(trace := s'.trace + [High]))
    case Asking => Ask(w, s')
    case Deciding => if Kept(w.plan, s.curr) then SendOrBlock(w, s') else s'.(pc := Guarding, curr := s.curr + 1)
    case Stuck => SendOrBlock(w, s')
    case Guarding => Guard(w, s')
    case Ended(_) => s
  }

  function Start(plan: Plan): State { State(Resending(0), plan.start, MaxInt64, 0, 0, []) }

  /** The state after `t` turns.  Over all worlds and all `t` these are the reachable states. */
  function After(w: World, t: nat): (s: State)
    ensures s.fill <= w.cap
  {
    if t == 0 then Start(w.plan) else Step(w, After(w, t - 1), w.env(t - 1))
  }

  lemma AfterNone(w: World)
    ensures After(w, 0) == Start(w.plan)
  {
  }

  lemma AfterNext(w: World, t: nat)
    ensures After(w, t + 1) == Step(w, After(w, t), w.env(t))
  {
  }

  lemma {:induction false} EndedStays(w: World, t: nat, u: nat)
    requires t <= u && After(w, t).pc.Ended?
    ensures After(w, u) == After(w, t)
    decreases u
  {
    hide After;
    if t < u {
      EndedStays(w, t, u - 1);
      AfterNext(w, u - 1);
    }
  }

  // ---------------------------------------------------------------------------------------------
  // The loop as the source writes it
  // ---------------------------------------------------------------------------------------------

  /** Re-enqueue the failed blocks; a send waits while the queue is full. */
  method ResendFailed(w: World, budget: nat) returns (t: nat, s: State, done: bool)
    ensures t <= budget && s.fill <= w.cap
    ensures done ==> After(w, t) == Tests(w.plan, s) && s.curr == w.plan.start
    ensures !done ==> t == budget && s == After(w, t)
  {
    hide After;
    t, s := 0, Start(w.plan);
    AfterNone(w);
    var k := 0;
    while true
      invariant k <= |w.plan.failed| && t <= budget && s.fill <= w.cap
      invariant s == After(w, t) && s.pc == Resending(k) && s.curr == w.plan.start
      decreases budget - t
    {
      if t == budget { return t, s, false; }
      AfterNext(w, t);
      s, t := Yield(w.cap, s, w.env(t)), t + 1;
      if k == |w.plan.failed| { return t, s, true; }
      if s.fill < w.cap {
        s := s.(pc := Resending(k + 1), fill := s.fill + 1, trace := s.trace + [Resent(w.plan.failed[k])]);
        k := k + 1;
      }
    }
  }

  /** A channel send of the inner loop: it waits while the queue is full. */
  method Send(w: World, budget: nat, t0: nat, s0: State) returns (t: nat, s: State, sent: bool)
    requires t0 <= budget && s0.fill <= w.cap && After(w, t0) == SendOrBlock(w, s0)
    ensures t0 <= t <= budget && s == After(w, t)
    ensures if sent then s.pc.Guarding? && s.curr == s0.curr + 1 else t == budget
  {
    hide After;
    t, s := t0, s0;
    while s.fill == w.cap
      invariant t0 <= t <= budget && s.fill <= w.cap && s.curr == s0.curr
      invariant After(w, t) == SendOrBlock(w, s)
      decreases budget - t
    {
      s := s.(pc := Stuck, trace := s.trace + [Blocked]);
      if t == budget { return t, s, false; }
      AfterNext(w, t);
      s, t := Yield(w.cap, s, w.env(t)), t + 1;
    }
    s := s.(pc := Guarding, curr := s.curr + 1, fill := s.fill + 1,
            trace := s.trace + [Sent(Job(s.curr, w.plan.cfg.txIndexing))]);
    sent := true;
  }

  /** What the map blocksInDB still has to say at and above `curr`. */
  ghost predicate SameFrom(db: map<int, bool>, original: map<int, bool>, curr: int) {
    forall h :: h >= curr ==> (h in db <==> h in original) && (h in db ==> db[h] == original[h])
  }

  /** One pass through the body of the inner loop, starting from the map `db0`. */
  method Decide(w: World, budget: nat, t0: nat, s0: State, db0: map<int, bool>)
    returns (t: nat, s: State, db: map<int, bool>, done: bool)
    requires t0 < budget && s0 == After(w, t0) && s0.pc.Deciding? && SameFrom(db0, w.plan.inDb, s0.curr)
    ensures t0 < t <= budget && s == After(w, t)
    ensures if done then s.pc.Guarding? && SameFrom(db, w.plan.inDb, s.curr) else t == budget
  {
    hide After;
    AfterNext(w, t0);
    t, s, db := t0 + 1, Yield(w.cap, s0, w.env(t0)), db0;
    if !w.plan.cfg.reindex && s.curr in db {
      var needsIndex := w.plan.cfg.txIndexing && !db[s.curr];
      if !needsIndex {
        s := s.(pc := Guarding, curr := s.curr + 1);
        return t, s, db, true;
      }
      t, s, done := Send(w, budget, t, s);
      db := db - {s0.curr};
      return t, s, db, done;
    }
    if |w.plan.skip| > 0 && s.curr in w.plan.skip {
      s := s.(pc := Guarding, curr := s.curr + 1);
      return t, s, db, true;
    }
    t, s, done := Send(w, budget, t, s);
  }

  /** The inner loop. */
  method FillQueue(w: World, budget: nat, t0: nat, s0: State, db0: map<int, bool>)
    returns (t: nat, s: State, db: map<int, bool>, done: bool)
    requires t0 <= budget && s0.fill <= w.cap && After(w, t0) == Guard(w, s0) && SameFrom(db0, w.plan.inDb, s0.curr)
    ensures t0 <= t <= budget && s.fill <= w.cap
    ensures done ==> After(w, t) == Tests(w.plan, s) && SameFrom(db, w.plan.inDb, s.curr)
    ensures !done ==> t == budget && s == After(w, t)
  {
    hide After;
    t, s, db := t0, s0, db0;
    while s.curr < s.latest && (s.curr <= w.plan.end || w.plan.end == -1) && s.fill != w.cap
      invariant t0 <= t <= budget && s.fill <= w.cap
      invariant After(w, t) == Guard(w, s) && SameFrom(db, w.plan.inDb, s.curr)
      decreases budget - t
    {
      s := s.(pc := Deciding);
      if t == budget { return t, s, db, false; }
      t, s, db, done := Decide(w, budget, t, s, db);
      if !done || t == budget { return t, s, db, false; }
      AfterNext(w, t);
      s, t := Yield(w.cap, s, w.env(t)), t + 1;
    }
    done := true;
  }

  /** The function returned by GenerateDefaultEnqueueFunction, followed for `budget` turns of the other goroutines. */
  method Run(w: World, budget: nat) returns (s: State)
    ensures s == After(w, budget)
  {
    hide After, Allowed, Kept, SendOrBlock, Resend;
    var blocksInDb := w.plan.inDb;
    var t, done;
    t, s, done := ResendFailed(w, budget);
    if !done { return; }
    while true
      invariant t <= budget && s.fill <= w.cap
      invariant After(w, t) == Tests(w.plan, s) && SameFrom(blocksInDb, w.plan.inDb, s.curr)
      decreases budget - t
    {
      if w.plan.end != -1 && s.curr > w.plan.end {
        EndedStays(w, t, budget);
        return s.(pc := Ended(EndReached));
      } else if w.plan.cfg.exitWhenCaughtUp && s.curr > s.latest {
        EndedStays(w, t, budget);
        return s.(pc := Ended(CaughtUp));
      }
      s := s.(pc := Polling);
      if t == budget { return; }
      AfterNext(w, t);
      s, t := Yield(w.cap, s, w.env(t)), t + 1;
      if s.fill <= w.cap / 4 {
        s := s.(pc := Asking, trace := s.trace + [Low]);
        if t == budget { return; }
        AfterNext(w, t);
        s, t := Yield(w.cap, s, w.env(t)), t + 1;
        if w.head(s.asks).HeadError? {
          EndedStays(w, t, budget);
          return s.(pc := Ended(HeadFailed));
        }
        var latest := w.head(s.asks).height;
        s := s.(pc := Guarding, latest := latest, asks := s.asks + 1, trace := s.trace + [Asked(latest)]);
        if t == budget { return; }
        AfterNext(w, t);
        s, t := Yield(w.cap, s, w.env(t)), t + 1;
        t, s, blocksInDb, done := FillQueue(w, budget, t, s, blocksInDb);
        if !done { return; }
      } else {
        s := s.(trace := s.trace + [High]);
      }
    }
  }
}
