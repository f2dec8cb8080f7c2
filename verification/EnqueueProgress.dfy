/**
 The default enqueue loop gets to its end block: if the head is beyond it, the consumers bring the queue down to a
 quarter again and again, and nobody else puts jobs on it, every run ends by the end-block test.
 */
module EnqueueProgress {
  import opened Enqueue
  import opened EnqueueTheorems

  /** Infinitely often the consumers bring even a full queue down to a quarter. */
  ghost predicate Relieved(w: World) { forall t: nat :: RelievesFrom(w, t) }

  ghost predicate RelievesFrom(w: World, t: nat) { exists u: nat :: t <= u && Relieves(w, u) }

  ghost predicate Relieves(w: World, u: nat) { w.env(u).take >= w.cap - w.cap / 4 }

  ghost predicate HeadBeyond(w: World) { forall k: nat :: w.head(k).Head? && w.plan.end < w.head(k).height }

  ghost predicate Favourable(w: World) {
    w.cap > 0 && Alone(w) && Relieved(w) && HeadBeyond(w) && w.plan.end != -1 && w.plan.end <= MaxInt64
  }

  /** What every state of such a run satisfies. */
  ghost predicate OnCourse(w: World, s: State) {
    && Free(w, s) && w.plan.end <= s.latest
    && (s.pc.Guarding? || s.pc.Deciding? ==> w.plan.end < s.latest)
    && (s.pc.Polling? || s.pc.Asking? || s.pc.Deciding? ==> s.curr <= w.plan.end)
    && (s.pc.Asking? ==> s.fill <= w.cap / 4)
    && (s.pc.Resending? ==> s.pc.k <= |w.plan.failed|)
    && (s.pc.Ended? ==> s.pc.why.EndReached?)
  }

  /** How much is left to do.  Heights count most, then the way back to the inner loop from a full queue. */
  function Rank(w: World, s: State): nat {
    var ahead := if s.curr <= w.plan.end then 5 * (w.plan.end + 1 - s.curr) else 0;
    match s.pc
    case Resending(k) => ahead + 5 + (if k <= |w.plan.failed| then |w.plan.failed| - k else 0)
    case Polling => ahead + 3
    case Asking => ahead + 2
    case Guarding => ahead + if s.fill == w.cap then 4 else 1
    case Deciding => ahead
    case Stuck => ahead
    case Ended(_) => 0
  }

  lemma StepOnCourse(w: World, s: State, turn: Turn)
    requires Favourable(w) && OnCourse(w, s) && turn.put == 0
    ensures OnCourse(w, Step(w, s, turn))
  {
    hide Relieved;
    StepFree(w, s, turn);
  }

  lemma StepRank(w: World, s: State, turn: Turn)
    requires Favourable(w) && OnCourse(w, s) && turn.put == 0 && !s.pc.Ended?
    ensures Rank(w, Step(w, s, turn)) <= Rank(w, s)
    ensures turn.take >= w.cap - w.cap / 4 ==> Rank(w, Step(w, s, turn)) < Rank(w, s)
  {
    hide Relieved;
  }

  lemma {:induction false} StaysOnCourse(w: World, t: nat)
    requires Favourable(w)
    ensures OnCourse(w, After(w, t))
  {
    hide After;
    if t == 0 {
      AfterNone(w);
    } else {
      StaysOnCourse(w, t - 1);
      AfterNext(w, t - 1);
      StepOnCourse(w, After(w, t - 1), w.env(t - 1));
    }
  }

  lemma {:induction false} RankFalls(w: World, t: nat, u: nat)
    requires Favourable(w) && t <= u
    ensures Rank(w, After(w, u)) <= Rank(w, After(w, t))
    decreases u
  {
    hide After, Rank, Step;
    if t < u {
      RankFalls(w, t, u - 1);
      StaysOnCourse(w, u - 1);
      AfterNext(w, u - 1);
      if After(w, u - 1).pc.Ended? {
        EndedStays(w, u - 1, u);
      } else {
        StepRank(w, After(w, u - 1), w.env(u - 1));
      }
    }
  }

  lemma {:induction false} EndFrom(w: World, t: nat) returns (u: nat)
    requires Favourable(w)
    ensures After(w, u).pc == Ended(EndReached)
    decreases Rank(w, After(w, t))
  {
    hide After, Rank, Step;
    StaysOnCourse(w, t);
    if After(w, t).pc.Ended? {
      u := t;
    } else {
      assert RelievesFrom(w, t);
      var v: nat :| t <= v && Relieves(w, v);
      RankFalls(w, t, v);
      StaysOnCourse(w, v);
      AfterNext(w, v);
      if After(w, v).pc.Ended? {
        u := v;
      } else {
        StepRank(w, After(w, v), w.env(v));
        u := EndFrom(w, v + 1);
      }
    }
  }

  /** Every favourable run ends by the end-block test. */
  lemma EndIsReached(w: World) returns (t: nat)
    requires Favourable(w)
    ensures After(w, t).pc == Ended(EndReached)
  {
    t := EndFrom(w, 0);
  }

  /** A favourable world for a plan: the queue is emptied at every turn, the head is one past the end block. */
  function Idle(plan: Plan, cap: nat): World { World(plan, cap, _ => Turn(cap, 0), _ => Head(plan.end + 1)) }

  lemma IdleIsFavourable(plan: Plan, cap: nat)
    requires cap > 0 && plan.end != -1 && plan.end <= MaxInt64
    ensures Favourable(Idle(plan, cap))
  {
    var w := Idle(plan, cap);
    forall t: nat
      ensures RelievesFrom(w, t)
    {
      assert Relieves(w, t);
    }
  }
}
