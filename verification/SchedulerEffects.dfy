/** What each scheduler step does to the thread it is about, to the run queue and to the cache. */
module SchedulerEffects {
  import opened WaitQueue
  import Q = RunQueue
  import opened Scheduler
  import opened SchedulerRuns
  import R = Rotation

  // ---------------------------------------------------------- vocabulary

  /** Nothing but `t`'s own record, the run queue, the cache and the current thread has changed. */
  ghost predicate Changes(s: State, t: Tid, th: Thread, r: State) {
    r.threads == s.threads[t := th] && r.idle == s.idle && r.highest == s.highest && r.meta == s.meta
  }

  /** `t` has moved to where a newcomer of priority `p` belongs, and nobody else has moved. */
  ghost predicate Moved(q: seq<Waiter<()>>, t: Tid, p: int, r: seq<Waiter<()>>) {
    exists rest :: Chosen(q, (w: Waiter<()>) => w.tid != t, rest) && Joins(rest, Waiter(t, p, ()), r)
  }

  ghost function Head(s: State): Tid {
    if s.runq == [] then s.idle else s.runq[0].tid
  }

  /** The current thread cannot run, is unlocked and of preemptible priority, or is the idle thread; or
      the head of the queue is a meta-IRQ. */
  ghost predicate GivesWay(s: State)
    requires s.current in s.threads && Head(s) in s.threads
  {
    || s.threads[s.current].blocked != {}
    || (s.threads[s.current].locked == 0 && s.threads[s.current].prio >= 0)
    || s.current == s.idle
    || (s.meta > 0 && s.threads[Head(s)].prio - s.highest < s.meta)
  }

  /** The cache names the head of the queue if the current thread gives way, and the current thread
      otherwise. */
  ghost predicate Cached(s: State) {
    && s.current in s.threads && Head(s) in s.threads
    && s.cache == if GivesWay(s) then Head(s) else s.current
  }

  lemma CacheIsCached(s: State)
    requires Queues(s)
    ensures Cached(UpdateCache(s, false)) && UpdateCache(s, true).cache == Head(s)
  {
    assert s.runq != [] ==> s.runq[0] in s.runq;
    PreemptEncoding(s.threads[s.current]);
  }

  // ------------------------------------------------------------ each step

  lemma RequeuedMoved(s: State, t: Tid, p: int, ok: bool)
    requires Queues(s) && t in s.threads
    ensures Moved(s.runq, t, p, Requeued(s, t, p, ok).runq)
    ensures Changes(s, t, s.threads[t].(prio := p), Requeued(s, t, p, ok)) && Requeued(s, t, p, ok).current == s.current
  {
    WithoutChosen(s.runq, t);
    WithoutSorted(s.runq, t);
    EnqueueJoins(Without(s.runq, t), Waiter(t, p, ()));
    hide Without, Enqueue, Sorted, Joins;
  }

  lemma RequeuedCached(s: State, t: Tid, p: int, ok: bool)
    requires Queues(s) && t in s.threads && t != s.idle && Ready(s, t) && -128 <= p <= 127
    ensures if ok then Requeued(s, t, p, ok).cache == Head(Requeued(s, t, p, ok)) else Cached(Requeued(s, t, p, ok))
  {
    RemoveQueues(s, t);
    var th := s.threads[t].(prio := p);
    SetQueues(Remove(s, t), t, th);
    var s1 := Set(Remove(s, t), t, th);
    AddQueues(s1, t);
    hide Queues, Enqueue, Without, Cached;
    CacheIsCached(Scheduler.Add(s1, t));
  }

  /** The thread gets the priority, queued or not; a ready one moves behind its new equals, and the
      best thread is next. */
  lemma SetPrioEffect(s: State, t: Tid, p: int)
    requires Inv(s) && Legal(s, SetPrio(t, p))
    ensures var r := Do(s, SetPrio(t, p));
            && Changes(s, t, Thread(p, s.threads[t].locked, s.threads[t].blocked), r) && r.current == s.current
            && (s.threads[t].blocked != {} ==> r.runq == s.runq && r.cache == s.cache)
            && (s.threads[t].blocked == {} ==> Moved(s.runq, t, p, r.runq) && r.cache == Head(r))
  {
    hide AllQueued, CacheSafe, Requeued, Moved;
    if Ready(s, t) {
      RequeuedMoved(s, t, p, true);
      RequeuedCached(s, t, p, true);
    }
  }

  /** The thread moves behind its equals and nothing else about it changes. */
  lemma MoveEffect(s: State, t: Tid)
    requires Inv(s) && Legal(s, MoveToEnd(t))
    ensures var r := Do(s, MoveToEnd(t));
            && Changes(s, t, s.threads[t], r) && r.current == s.current
            && Moved(s.runq, t, s.threads[t].prio, r.runq) && Cached(r)
  {
    hide AllQueued, CacheSafe, Requeued, Moved, Cached;
    RequeuedMoved(s, t, s.threads[t].prio, false);
    RequeuedCached(s, t, s.threads[t].prio, false);
  }

  /** The caller moves behind its equals, unless it is the idle thread, and the best thread runs. */
  lemma YieldEffect(s: State)
    requires Inv(s) && Legal(s, Yield)
    ensures var r := Do(s, Yield);
            && Changes(s, s.current, s.threads[s.current], r) && r.current == r.cache
            && (s.current != s.idle ==>
                  Moved(s.runq, s.current, s.threads[s.current].prio, r.runq) && r.current == Head(r))
            && (s.current == s.idle ==> r.runq == s.runq && r.cache == s.cache)
  {
    hide AllQueued, CacheSafe, Requeued, Moved;
    if s.current != s.idle {
      RequeuedMoved(s, s.current, s.threads[s.current].prio, true);
      RequeuedCached(s, s.current, s.threads[s.current].prio, true);
    }
  }

  /** The reason is added to the thread's others; a ready thread leaves the queue, where nobody else
      moves. */
  lemma BlockEffect(s: State, t: Tid, why: Reason)
    requires Inv(s) && Legal(s, Block(t, why))
    ensures var r := Do(s, Block(t, why));
            && Changes(s, t, Thread(s.threads[t].prio, s.threads[t].locked, s.threads[t].blocked + {why}), r)
            && r.current == s.current
            && (s.threads[t].blocked != {} ==> r.runq == s.runq && r.cache == s.cache)
            && (s.threads[t].blocked == {} ==> Chosen(s.runq, (w: Waiter<()>) => w.tid != t, r.runq) && Cached(r))
  {
    WithoutChosen(s.runq, t);
    if Ready(s, t) {
      RemoveQueues(s, t);
      BlockedCached(s, t, why);
    }
  }

  lemma BlockedCached(s: State, t: Tid, why: Reason)
    requires Queues(s) && Legal(s, Block(t, why)) && Ready(s, t) && Queues(Remove(s, t)) && !Q.Has(Remove(s, t).runq, t)
    ensures Cached(Do(s, Block(t, why)))
  {
    hide Without, Sorted, Distinct;
    var s1 := Remove(s, t);
    CacheIsCached(s1);
    var r := Do(s, Block(t, why));
    assert s1.runq != [] ==> s1.runq[0] in s1.runq;
    assert Head(r) == Head(s1) != t && r.threads[Head(s1)] == s1.threads[Head(s1)];
  }

  /** Exactly that reason is gone; a thread with no reason left joins the queue behind its equals. */
  lemma UnblockEffect(s: State, t: Tid, why: Reason)
    requires Inv(s) && Legal(s, Unblock(t, why))
    ensures var r := Do(s, Unblock(t, why));
            && Changes(s, t, Thread(s.threads[t].prio, s.threads[t].locked, s.threads[t].blocked - {why}), r)
            && r.current == s.current
            && (s.threads[t].blocked != {why} ==> r.runq == s.runq && r.cache == s.cache)
            && (s.threads[t].blocked == {why} ==> Joins(s.runq, Waiter(t, s.threads[t].prio, ()), r.runq) && Cached(r))
  {
    NotReadyNotQueued(s, t);
    var th := s.threads[t].(blocked := s.threads[t].blocked - {why});
    assert s.threads[t].blocked == {why} <==> th.blocked == {};
    SetQueues(s, t, th);
    EnqueueJoins(s.runq, Waiter(t, s.threads[t].prio, ()));
    hide AllQueued, CacheSafe, Enqueue, Joins, Cached, Sorted, Distinct;
    if th.blocked == {} {
      AddQueues(Set(s, t, th), t);
      CacheIsCached(Scheduler.Add(Set(s, t, th), t));
    }
  }

  /** Locking counts one down in eight bits and moves nobody. */
  lemma LockEffect(s: State)
    requires Legal(s, Lock) && Bytes(s.threads[s.current])
    ensures var r, th := Do(s, Lock), s.threads[s.current];
            && Changes(s, s.current, Thread(th.prio, (th.locked + 255) % 256, th.blocked), r)
            && r.current == s.current && r.runq == s.runq && r.cache == s.cache
  {
  }

  /** Unlocking counts one up in eight bits, the last unlock reaching zero, and the best thread runs. */
  lemma UnlockEffect(s: State)
    requires Inv(s) && Legal(s, Unlock)
    ensures var r, th := Do(s, Unlock), s.threads[s.current];
            && Changes(s, s.current, Thread(th.prio, (th.locked + 1) % 256, th.blocked), r)
            && r.runq == s.runq && r.current == r.cache == Head(s)
  {
  }

  lemma SwapEffect(s: State)
    requires Legal(s, Swap)
    ensures var r := Do(s, Swap);
            Changes(s, s.current, s.threads[s.current], r) && r.runq == s.runq && r.current == r.cache == s.cache
  {
  }

  // ---------------------------------------------------------- time slices

  /** Time slicing is on, and the current thread is unlocked, of a preemptible priority that slicing
      applies to, and as urgent as the head of the queue. */
  ghost predicate TakesPart(c: R.Clock) {
    && c.duration > 0
    && c.sched.current in c.sched.threads && c.sched.runq != []
    && c.sched.threads[c.sched.current].locked == 0
    && 0 <= c.sched.threads[c.sched.current].prio == c.sched.runq[0].prio
    && c.ceiling <= c.sched.threads[c.sched.current].prio
  }

  /** Ticks mean nothing to a thread that does not take part; else they are counted, and at the end of
      the slice the thread moves behind its equals. */
  lemma SliceEffect(c: R.Clock, ticks: int)
    requires Inv(c.sched) && c.sched.current != c.sched.idle && Ready(c.sched, c.sched.current)
    ensures var r, t := R.Sliced(c, ticks), c.sched.current;
            && r.duration == c.duration && r.ceiling == c.ceiling
            && (!TakesPart(c) ==> r == c)
            && (TakesPart(c) && c.elapsed + ticks < c.duration ==> r.elapsed == c.elapsed + ticks && r.sched == c.sched)
            && (TakesPart(c) && c.elapsed + ticks >= c.duration ==>
                  && r.elapsed == 0 && r.sched.current == t && Changes(c.sched, t, c.sched.threads[t], r.sched)
                  && Moved(c.sched.runq, t, c.sched.threads[t].prio, r.sched.runq) && Cached(r.sched))
  {
    var t := c.sched.current;
    assert Bytes(c.sched.threads[t]);
    PreemptEncoding(c.sched.threads[t]);
    hide AllQueued, CacheSafe, Requeued, Moved, Cached;
    RequeuedMoved(c.sched, t, c.sched.threads[t].prio, false);
    RequeuedCached(c.sched, t, c.sched.threads[t].prio, false);
  }

  /** A thread that runs and does not take part runs on however many ticks pass. */
  lemma {:induction false} ExemptRunsOn(c: R.Clock, m: nat)
    requires c.sched.current in c.sched.threads && Bytes(c.sched.threads[c.sched.current])
    requires c.sched.cache == c.sched.current && !TakesPart(c)
    ensures R.Ticked(c, m) == c
  {
    if m > 0 {
      ExemptRunsOn(c, m - 1);
      PreemptEncoding(c.sched.threads[c.sched.current]);
    }
  }

  // ----------------------------------------------------------- whole runs

  /** How many locks `t` holds according to its record. */
  ghost function Locks(th: Thread): nat
    requires Bytes(th)
  {
    if th.locked == 0 then 0 else 256 - th.locked
  }

  /** The locks `t` has taken in a run and not given back. */
  ghost function Taken(s: State, es: seq<Event>, t: Tid): int
    requires LegalRun(s, es)
    decreases |es|
  {
    if es == [] then 0
    else
      (if s.current == t && es[0].Lock? then 1 else if s.current == t && es[0].Unlock? then -1 else 0)
      + Taken(Do(s, es[0]), es[1..], t)
  }

  /** The thread a step is about, and its record after it. */
  ghost function About(s: State, e: Event): Tid {
    match e
    case Block(t, _) => t
    case Unblock(t, _) => t
    case MoveToEnd(t) => t
    case SetPrio(t, _) => t
    case _ => s.current
  }

  ghost function Record(th: Thread, e: Event): Thread {
    match e
    case Block(_, why) => Thread(th.prio, th.locked, th.blocked + {why})
    case Unblock(_, why) => Thread(th.prio, th.locked, th.blocked - {why})
    case SetPrio(_, p) => Thread(p, th.locked, th.blocked)
    case Lock => Thread(th.prio, (th.locked + 255) % 256, th.blocked)
    case Unlock => Thread(th.prio, (th.locked + 1) % 256, th.blocked)
    case _ => th
  }

  /** Every step changes the record of one thread at most, and exactly so. */
  lemma StepChanges(s: State, e: Event)
    requires Inv(s) && Legal(s, e)
    ensures About(s, e) in s.threads && Changes(s, About(s, e), Record(s.threads[About(s, e)], e), Do(s, e))
  {
    assert Bytes(s.threads[s.current]);
    hide Inv, Changes, Moved, Cached, Joins, Chosen, Head, Do;
    match e
    case Block(u, why) => BlockEffect(s, u, why);
    case Unblock(u, why) => UnblockEffect(s, u, why);
    case MoveToEnd(u) => MoveEffect(s, u);
    case SetPrio(u, p) => SetPrioEffect(s, u, p);
    case Yield => YieldEffect(s);
    case Lock => LockEffect(s);
    case Unlock => UnlockEffect(s);
    case Swap => SwapEffect(s);
  }

  lemma StepRecord(s: State, e: Event, t: Tid)
    requires Inv(s) && Legal(s, e) && t in s.threads
    ensures t in Do(s, e).threads && Bytes(s.threads[t]) && Bytes(Do(s, e).threads[t]) && Do(s, e).idle == s.idle
    ensures Locks(Do(s, e).threads[t]) == Locks(s.threads[t])
              + if s.current == t && e.Lock? then 1 else if s.current == t && e.Unlock? then -1 else 0
    ensures Do(s, e).threads[t].prio == if e.SetPrio? && e.tid == t then e.prio else s.threads[t].prio
    ensures Do(s, e).threads[t].blocked ==
              if e.Block? && e.tid == t then s.threads[t].blocked + {e.why}
              else if e.Unblock? && e.tid == t then s.threads[t].blocked - {e.why}
              else s.threads[t].blocked
  {
    BytesOf(s, t);
    hide Inv, Do;
    DoInv(s, e);
    StepChanges(s, e);
    BytesOf(Do(s, e), t);
  }

  lemma BytesOf(s: State, t: Tid)
    requires Inv(s) && t in s.threads
    ensures Bytes(s.threads[t])
  {
  }

  /** In every run a thread's lock count is the locks it has taken and not given back, so it is
      unlocked exactly when it has given all of them back. */
  lemma {:induction false} LockCountIsTaken(s: State, es: seq<Event>, t: Tid)
    requires Inv(s) && LegalRun(s, es) && t in s.threads
    ensures var r := Run(s, es);
            && t in r.threads && Bytes(s.threads[t]) && Bytes(r.threads[t])
            && Locks(r.threads[t]) == Locks(s.threads[t]) + Taken(s, es, t)
            && (s.threads[t].locked == 0 ==> (r.threads[t].locked == 0 <==> Taken(s, es, t) == 0))
    decreases |es|
  {
    assert Bytes(s.threads[t]);
    if es != [] {
      hide Do, Inv, Legal;
      StepRecord(s, es[0], t);
      DoInv(s, es[0]);
      LockCountIsTaken(Do(s, es[0]), es[1..], t);
    }
  }

  /** The priority `t` was last set to, or `p` if it was not. */
  ghost function LastSet(es: seq<Event>, t: Tid, p: int): int {
    if es == [] then p else LastSet(es[1..], t, if es[0].SetPrio? && es[0].tid == t then es[0].prio else p)
  }

  /** In every run a thread has the priority it was last set to. */
  lemma {:induction false} PriorityIsLastSet(s: State, es: seq<Event>, t: Tid)
    requires Inv(s) && LegalRun(s, es) && t in s.threads
    ensures t in Run(s, es).threads && Run(s, es).idle == s.idle
    ensures Run(s, es).threads[t].prio == LastSet(es, t, s.threads[t].prio)
    decreases |es|
  {
    if es != [] {
      hide Do, Inv, Legal;
      StepRecord(s, es[0], t);
      DoInv(s, es[0]);
      PriorityIsLastSet(Do(s, es[0]), es[1..], t);
    }
  }

  /** Whether the last step of `es` about `t` and `why` blocked it, or `was` if there was none. */
  ghost predicate LastBlocked(es: seq<Event>, t: Tid, why: Reason, was: bool) {
    if es == [] then was
    else
      LastBlocked(es[1..], t, why,
                  if es[0] == Block(t, why) then true else if es[0] == Unblock(t, why) then false else was)
  }

  /** In every run a thread is kept from running by exactly those reasons that were given last and
      not taken back. */
  lemma {:induction false} BlockedIsLastGiven(s: State, es: seq<Event>, t: Tid, why: Reason)
    requires Inv(s) && LegalRun(s, es) && t in s.threads
    ensures var r := Run(s, es);
            && t in r.threads
            && (why in r.threads[t].blocked <==> LastBlocked(es, t, why, why in s.threads[t].blocked))
    decreases |es|
  {
    if es != [] {
      hide Do, Inv, Legal;
      StepRecord(s, es[0], t);
      DoInv(s, es[0]);
      BlockedIsLastGiven(Do(s, es[0]), es[1..], t, why);
    }
  }

  /** And it is in the run queue, at the priority it was last set to, exactly if there is none. */
  lemma QueuedIff(s: State, es: seq<Event>, t: Tid)
    requires Inv(s) && LegalRun(s, es) && t in s.threads && t != s.idle
    ensures Waiter(t, LastSet(es, t, s.threads[t].prio), ()) in Run(s, es).runq
       <==> forall why :: !LastBlocked(es, t, why, why in s.threads[t].blocked)
  {
    RunInv(s, es);
    var r := Run(s, es);
    PriorityIsLastSet(s, es, t);
    forall why ensures why in r.threads[t].blocked <==> LastBlocked(es, t, why, why in s.threads[t].blocked) {
      BlockedIsLastGiven(s, es, t, why);
    }
    hide LastBlocked, LastSet, Run, LegalRun;
    assert r.threads[t].blocked == {} <==> forall why :: why !in r.threads[t].blocked;
  }
}
