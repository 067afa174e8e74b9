/** What the scheduler guarantees over whole runs, and who gets the processor when. */
module SchedulerRuns {
  import opened WaitQueue
  import opened Scheduler

  ghost predicate LegalRun(s: State, es: seq<Event>)
    decreases |es|
  {
    es != [] ==> Legal(s, es[0]) && LegalRun(Do(s, es[0]), es[1..])
  }

  ghost function Run(s: State, es: seq<Event>): (r: State)
    requires LegalRun(s, es)
    decreases |es|
  {
    if es == [] then s else Run(Do(s, es[0]), es[1..])
  }

  lemma {:induction false} RunInv(s: State, es: seq<Event>)
    requires Inv(s) && LegalRun(s, es)
    ensures Inv(Run(s, es))
    decreases |es|
  {
    hide Inv, Do;
    if es != [] {
      DoInv(s, es[0]);
      RunInv(Do(s, es[0]), es[1..]);
    }
  }

  /** Only the idle thread runs; the others have not been started. */
  ghost predicate Boot(s: State) {
    && s.idle in s.threads && s.current == s.cache == s.idle && s.runq == []
    && (forall t | t in s.threads :: Bytes(s.threads[t]))
    && (forall t | t in s.threads :: Ready(s, t) <==> t == s.idle)
  }

  /** Cache safety in every run: the cached thread is ready and known to the run queue, and unless
      the current thread is ready and cannot be preempted, nobody queued is more urgent; so after
      every switch the running thread is the most urgent one or is entitled to hold on. */
  lemma SchedulerSafety(s: State, es: seq<Event>)
    requires Boot(s) && LegalRun(s, es)
    ensures var r := Run(s, es);
            && Shape(r) && CacheSafe(r)
            && Ready(r, r.cache)
            && (Preemptible(r.threads[r.current]) || !Ready(r, r.current) ==> MostUrgent(r, r.cache))
            && (Preemptible(r.threads[r.cache]) ==> MostUrgent(Switch(r), Switch(r).current))
  {
    BootInv(s);
    RunInv(s, es);
    CachedRuns(Run(s, es));
  }

  lemma BootInv(s: State)
    requires Boot(s)
    ensures Inv(s)
  {
  }

  lemma CachedRuns(r: State)
    requires Inv(r)
    ensures Ready(r, r.cache)
    ensures Preemptible(r.threads[r.current]) || !Ready(r, r.current) ==> MostUrgent(r, r.cache)
    ensures Preemptible(r.threads[r.cache]) ==> MostUrgent(Switch(r), Switch(r).current)
  {
    hide Sorted, Distinct, Preemptible;
    if r.cache != r.idle {
      assert InPlace(r, Entry(r, r.cache));
    }
  }

  // ------------------------------------------------ cooperative threads

  /** Steps that other threads and interrupts take while the current thread minds its own business. */
  predicate Passive(s: State, e: Event) {
    match e
    case Block(t, _) => t != s.current
    case Unblock(_, _) => true
    case MoveToEnd(_) => true
    case Swap => true
    case _ => false
  }

  ghost predicate PassiveRun(s: State, es: seq<Event>)
    requires LegalRun(s, es)
    decreases |es|
  {
    es != [] ==> Passive(s, es[0]) && PassiveRun(Do(s, es[0]), es[1..])
  }

  /** The current thread is running, cooperative or locked, and no meta-IRQ thread exists. */
  ghost predicate Entitled(s: State) {
    && s.current in s.threads
    && s.cache == s.current != s.idle
    && Ready(s, s.current)
    && !Preemptible(s.threads[s.current])
    && (forall t | t in s.threads :: !MetaIrq(s, t))
  }

  lemma PassiveKeeps(s: State, e: Event)
    requires Legal(s, e) && Passive(s, e) && Entitled(s)
    ensures Entitled(Do(s, e)) && Do(s, e).current == s.current
  {
    hide Enqueue, Without, Preemptible;
  }

  /** A cooperative or scheduler-locked thread keeps the processor whatever other threads become
      ready, block or are rotated, for as long as it makes no scheduling call itself. */
  lemma {:induction false} CooperativeKeepsCpu(s: State, es: seq<Event>)
    requires LegalRun(s, es) && PassiveRun(s, es) && Entitled(s)
    ensures Run(s, es).current == s.current
    decreases |es|
  {
    if es != [] {
      PassiveKeeps(s, es[0]);
      CooperativeKeepsCpu(Do(s, es[0]), es[1..]);
    }
  }

  // -------------------------------------------------------- preemption

  /** `t` waits for `why` alone and is more urgent than every thread in the run queue. */
  ghost predicate AboutToWin(s: State, t: Tid, why: Reason) {
    && Legal(s, Unblock(t, why))
    && s.threads[t].blocked == {why}
    && (forall w | w in s.runq :: s.threads[t].prio < w.prio)
  }

  lemma WokenFirst(s: State, t: Tid, why: Reason)
    requires AboutToWin(s, t, why)
    ensures var th := s.threads[t].(blocked := {});
            Do(s, Unblock(t, why)) == UpdateCache(Set(s, t, th).(runq := [Waiter(t, th.prio, ())] + s.runq), false)
  {
    assert s.threads[t].blocked - {why} == {};
    FrontSlot(s.runq, Entry(s, t));
  }

  lemma FrontSlot(q: seq<Waiter<()>>, w: Waiter<()>)
    requires forall x | x in q :: w.prio < x.prio
    ensures Enqueue(q, w) == [w] + q
  {
    if q != [] {
      assert q[0] in q;
    }
    assert q[..0] + [w] + q[0..] == [w] + q;
  }

  /** A thread woken up as the strictly most urgent one is next exactly when the current thread
      gives way: it cannot run, is preemptible, is the idle thread, or the newcomer is a meta-IRQ. */
  lemma WakeupPreemptsIff(s: State, t: Tid, why: Reason)
    requires AboutToWin(s, t, why) && Bytes(s.threads[s.current])
    ensures Do(s, Unblock(t, why)).cache == t
       <==> || s.threads[s.current].blocked != {}
            || (s.threads[s.current].locked == 0 && s.threads[s.current].prio >= 0)
            || s.current == s.idle
            || MetaIrq(s, t)
  {
    WokenFirst(s, t, why);
    PreemptEncoding(s.threads[s.current]);
    hide Do;
  }

  // ----------------------------------------------------- nested unlocking

  /** `t` comes before every other queued thread: it is more urgent, or as urgent and queued earlier. */
  ghost predicate First(s: State, t: Tid)
    requires t in s.threads
  {
    forall i | 0 <= i < |s.runq| && s.runq[i].tid != t ::
      || s.threads[t].prio < s.runq[i].prio
      || (s.threads[t].prio == s.runq[i].prio && exists j :: 0 <= j < i && s.runq[j].tid == t)
  }

  lemma FirstIsHead(s: State, t: Tid)
    requires Inv(s) && t in s.threads && t != s.idle && Ready(s, t)
    ensures First(s, t) <==> NextUp(s) == t
  {
    assert Entry(s, t) in s.runq && s.runq[0] in s.runq;
    if NextUp(s) == t {
      assert InPlace(s, s.runq[0]);
    }
  }

  /** While `t` runs, it only locks and unlocks the scheduler, and never gives up its last lock. */
  ghost predicate Nested(s: State, t: Tid, es: seq<Event>)
    requires LegalRun(s, es)
    decreases |es|
  {
    es != [] && s.current == t ==>
      && (|| Passive(s, es[0])
          || es[0].Lock?
          || (es[0].Unlock? && UnlockStep(s.threads[t].locked) != 0))
      && Nested(Do(s, es[0]), t, es[1..])
  }

  /** `t` runs at every point of the run. */
  ghost predicate Keeps(s: State, t: Tid, es: seq<Event>)
    requires LegalRun(s, es)
    decreases |es|
  {
    s.current == t && (es != [] ==> Keeps(Do(s, es[0]), t, es[1..]))
  }

  /** `t` comes first in the run queue whenever it unlocks. */
  ghost predicate FirstAtUnlocks(s: State, t: Tid, es: seq<Event>)
    requires LegalRun(s, es)
    decreases |es|
  {
    es != [] ==>
      && (es[0].Unlock? ==> t in s.threads && First(s, t))
      && FirstAtUnlocks(Do(s, es[0]), t, es[1..])
  }

  lemma LockKeeps(s: State)
    requires Inv(s) && Entitled(s) && Legal(s, Lock)
    ensures Entitled(Do(s, Lock)) && Do(s, Lock).current == s.current
  {
    var r := Do(s, Lock);
    PreemptEncoding(r.threads[r.current]);
    assert forall t | t in r.threads :: MetaIrq(r, t) == MetaIrq(s, t);
  }

  lemma UnlockKeeps(s: State)
    requires Inv(s) && Entitled(s) && Legal(s, Unlock) && UnlockStep(s.threads[s.current].locked) != 0
    ensures Do(s, Unlock).current == s.current <==> First(s, s.current)
    ensures Do(s, Unlock).current == s.current ==> Entitled(Do(s, Unlock))
  {
    FirstIsHead(s, s.current);
    hide First, Inv;
    var r := Do(s, Unlock);
    PreemptEncoding(r.threads[s.current]);
    assert forall t | t in r.threads :: MetaIrq(r, t) == MetaIrq(s, t);
  }

  /** A thread that holds the scheduler lock throughout, nesting further locks inside, keeps the
      processor if and only if it comes first in the run queue at each of its inner unlocks. */
  lemma {:induction false} NestedLocksKeepIff(s: State, t: Tid, es: seq<Event>)
    requires Inv(s) && Entitled(s) && s.current == t && LegalRun(s, es) && Nested(s, t, es)
    ensures Keeps(s, t, es) <==> FirstAtUnlocks(s, t, es)
    decreases |es|
  {
    assert es != [] && es[0].Unlock? ==> t in s.threads && UnlockStep(s.threads[t].locked) != 0;
    hide Inv, Entitled, Do, First, Legal, Passive;
    if es != [] {
      var e, r := es[0], Do(s, es[0]);
      DoInv(s, e);
      if e.Unlock? {
        UnlockKeeps(s);
      } else if e.Lock? {
        LockKeeps(s);
      } else {
        PassiveKeeps(s, e);
      }
      if r.current == t {
        NestedLocksKeepIff(r, t, es[1..]);
      } else {
        assert !Keeps(r, t, es[1..]);
      }
    }
  }

  /** The documented promise, that a thread becomes preemptible only with its last unlock, fails:
      having locked twice and unlocked once, a thread loses the processor to a more urgent one that
      was woken in between. */
  lemma NestedUnlockGivesWay(s: State, t: Tid, why: Reason)
    requires AboutToWin(s, t, why)
    requires Ready(s, s.current) && s.threads[s.current].locked == 0
    ensures LegalRun(s, [Lock, Lock, Unblock(t, why), Unlock])
    ensures var r := Run(s, [Lock, Lock, Unblock(t, why), Unlock]);
            r.current == t != s.current && s.current in r.threads && r.threads[s.current].locked == 255
  {
    var s1 := Do(s, Lock);
    var s2 := Do(s1, Lock);
    assert AboutToWin(s2, t, why);
    WokenFirst(s2, t, why);
    var s3 := Do(s2, Unblock(t, why));
    assert NextUp(s3) == t && s3.threads[s.current] == s2.threads[s.current];
    var s4 := Do(s3, Unlock);
    assert s4.current == t && s4.threads[s.current].locked == 255;
    hide Do, Legal;
    FourSteps(s, s1, s2, s3, s4, Lock, Lock, Unblock(t, why), Unlock);
  }

  lemma FourSteps(s: State, s1: State, s2: State, s3: State, s4: State, a: Event, b: Event, c: Event, d: Event)
    requires Legal(s, a) && s1 == Do(s, a)
    requires Legal(s1, b) && s2 == Do(s1, b)
    requires Legal(s2, c) && s3 == Do(s2, c)
    requires Legal(s3, d) && s4 == Do(s3, d)
    ensures LegalRun(s, [a, b, c, d]) && Run(s, [a, b, c, d]) == s4
  {
    hide Do, Legal;
    assert [d][1..] == [] && [c, d][1..] == [d] && [b, c, d][1..] == [c, d] && [a, b, c, d][1..] == [b, c, d];
    assert LegalRun(s4, []) && Run(s4, []) == s4;
    assert LegalRun(s3, [d]) && Run(s3, [d]) == s4;
    assert LegalRun(s2, [c, d]) && Run(s2, [c, d]) == s4;
    assert LegalRun(s1, [b, c, d]) && Run(s1, [b, c, d]) == s4;
  }

  // ------------------------------------------------- the idle priority

  /** Every other thread is more urgent than the idle one. */
  ghost predicate Idlest(s: State) {
    s.idle in s.threads && forall t | t in s.threads && t != s.idle :: s.threads[t].prio < s.threads[s.idle].prio
  }

  /** Priorities are set to application priorities only, as `k_thread_priority_set` asserts. */
  ghost predicate Assigns(s: State, es: seq<Event>) {
    s.idle in s.threads && forall e | e in es && e.SetPrio? :: e.prio < s.threads[s.idle].prio
  }

  lemma IdlestStep(s: State, e: Event)
    requires Idlest(s) && Legal(s, e) && (e.SetPrio? ==> e.prio < s.threads[s.idle].prio)
    ensures Idlest(Do(s, e)) && Do(s, e).idle == s.idle && Do(s, e).threads[s.idle].prio == s.threads[s.idle].prio
  {
    hide Enqueue, Without, NextUp, ShouldPreempt;
  }

  /** Nobody ever comes to share the idle thread's priority. */
  lemma {:induction false} IdlestAlways(s: State, es: seq<Event>)
    requires Idlest(s) && LegalRun(s, es) && Assigns(s, es)
    ensures Idlest(Run(s, es))
    decreases |es|
  {
    hide Do, Legal;
    if es != [] {
      IdlestStep(s, es[0]);
      assert Assigns(Do(s, es[0]), es[1..]);
      IdlestAlways(Do(s, es[0]), es[1..]);
    }
  }
}
