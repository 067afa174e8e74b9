/** What each mutex call answers and changes, and how the lock count follows from the answers. */
module MutexEffects {
  import opened Basics
  import opened WaitQueue
  import opened Mutex

  // ------------------------------------------------------------ each call

  /** `r` is the mutex of `s` except for its waiters and the owner's priority. */
  ghost predicate SameOwner(s: State, r: State) {
    && r.owner == s.owner && r.count == s.count && r.orig == s.orig && r.prio.Keys == s.prio.Keys
    && (forall t | t in s.prio && s.owner != Held(t) :: r.prio[t] == s.prio[t])
  }

  /** Success means that the caller owns the mutex, one level deeper than before; a refusal, that
      somebody else does, that the call may not wait and that nothing has changed; and otherwise the
      caller waits, at its own priority, behind everyone at least as urgent. */
  lemma LockAnswer(c: int, base: Prios, s: State, t: Tid, wait: Wait)
    requires Kept(base, s) && Legal(base, s, LockEv(t, wait))
    ensures var (r, code) := Lock(c, s, t, wait);
            && (code.Ok? <==> r.owner == Held(t))
            && (code.Ok? <==> s.owner.Nobody? || s.owner == Held(t))
            && (code.Ok? ==>
                  && r.count == (if s.owner == Held(t) then s.count else 0) + 1
                  && r.orig == base[t] && r.waiters == s.waiters && r.prio == s.prio)
            && (code.Ebusy? <==> s.owner.Held? && s.owner.tid != t && wait.NoWait?)
            && (code.Ebusy? ==> r == s)
            && (code.Blocked? <==> s.owner.Held? && s.owner.tid != t && wait.MayWait?)
            && (code.Blocked? ==> SameOwner(s, r) && Joins(s.waiters, Waiter(t, base[t], ()), r.waiters))
  {
    EnqueueJoins(s.waiters, Waiter(t, s.prio[t], ()));
    hide Enqueue, Joins, Sorted, Distinct;
  }

  /** An unlock gives up one level; the last one restores the owner's priority and passes the mutex,
      one level deep, to the first in the queue, whom the others wait on behind. */
  lemma UnlockEffect(c: int, base: Prios, s: State, t: Tid)
    requires Kept(base, s) && Legal(base, s, UnlockEv(t))
    ensures var r := Unlock(s, t);
            && (r.owner == Held(t) <==> s.count > 1)
            && (s.count > 1 ==>
                  r.count == s.count - 1 && r.orig == s.orig && r.waiters == s.waiters && r.prio == s.prio)
            && (s.count == 1 ==> r.prio == base)
            && (s.count == 1 && s.waiters == [] ==> r.owner.Nobody? && r.count == 0 && r.waiters == [])
            && (s.count == 1 && s.waiters != [] ==>
                  && r.owner == Held(s.waiters[0].tid) && r.count == 1 && r.orig == base[s.waiters[0].tid]
                  && s.waiters == [s.waiters[0]] + r.waiters)
  {
    UnlockInv(c, base, s, t);
    if s.waiters != [] {
      assert s.waiters[0] in s.waiters;
    }
  }

  /** A waiter that times out leaves the others as they were. */
  lemma ExpireEffect(c: int, base: Prios, s: State, t: Tid)
    requires Kept(base, s) && Legal(base, s, ExpireEv(t))
    ensures var r := Expire(c, s, t);
            SameOwner(s, r) && Chosen(s.waiters, (w: Waiter<()>) => w.tid != t, r.waiters)
  {
    WithoutChosen(s.waiters, t);
    hide Without;
  }

  // ----------------------------------------------------------- whole runs

  /** How many levels a step gives `t`, by what its callers see: a lock that answers success gives
      one, an unlock takes one, and coming to own the mutex by somebody's unlock gives one. */
  ghost function Gained(c: int, base: Prios, s: State, e: Event, t: Tid): int
    requires Kept(base, s) && Legal(base, s, e)
  {
    match e
    case LockEv(u, wait) => if u == t && Lock(c, s, u, wait).1.Ok? then 1 else 0
    case UnlockEv(u) => if u == t then -1 else if Unlock(s, u).owner == Held(t) then 1 else 0
    case ExpireEv(_) => 0
  }

  ghost function Levels(c: int, base: Prios, s: State, es: seq<Event>, t: Tid): int
    requires Kept(base, s) && LegalRun(c, base, s, es)
    decreases |es|
  {
    if es == [] then 0
    else
      StepKept(c, base, s, es[0]);
      Gained(c, base, s, es[0], t) + Levels(c, base, Do(c, base, s, es[0]), es[1..], t)
  }

  ghost function Own(s: State, t: Tid): nat {
    if s.owner == Held(t) then s.count else 0
  }

  lemma StepLevels(c: int, base: Prios, s: State, e: Event, t: Tid)
    requires Kept(base, s) && Legal(base, s, e)
    ensures Own(Do(c, base, s, e), t) == Own(s, t) + Gained(c, base, s, e, t)
  {
    hide Enqueue, Without, Sorted, Distinct;
    match e
    case LockEv(u, wait) => LockAnswer(c, base, s, u, wait);
    case UnlockEv(u) => UnlockEffect(c, base, s, u);
    case ExpireEv(u) => ExpireEffect(c, base, s, u);
  }

  lemma {:induction false} RunLevels(c: int, base: Prios, s: State, es: seq<Event>, t: Tid)
    requires Kept(base, s) && LegalRun(c, base, s, es)
    ensures Own(Run(c, base, s, es), t) == Own(s, t) + Levels(c, base, s, es, t)
    decreases |es|
  {
    hide Do, Legal, Gained, Own, Kept;
    if es != [] {
      StepKept(c, base, s, es[0]);
      StepLevels(c, base, s, es[0], t);
      RunLevels(c, base, Do(c, base, s, es[0]), es[1..], t);
    }
  }

  /** In every run the lock count is what the owner was granted and has not given back, and nobody
      else has anything left to give back: so a thread owns the mutex from its first grant until
      exactly as many unlocks. */
  lemma CountIsLevels(c: int, base: Prios, orig: int, es: seq<Event>)
    requires LegalRun(c, base, Init(base, orig), es)
    ensures var s := Run(c, base, Init(base, orig), es);
            && (forall t: Tid :: Levels(c, base, Init(base, orig), es, t) == if s.owner == Held(t) then s.count else 0)
            && (forall t: Tid :: s.owner == Held(t) <==> Levels(c, base, Init(base, orig), es, t) > 0)
  {
    var s := Run(c, base, Init(base, orig), es);
    forall t: Tid
      ensures Levels(c, base, Init(base, orig), es, t) == if s.owner == Held(t) then s.count else 0
      ensures s.owner == Held(t) <==> Levels(c, base, Init(base, orig), es, t) > 0
    {
      RunLevels(c, base, Init(base, orig), es, t);
    }
  }

  // ------------------------------------------------- nobody is forgotten

  /** Threads whose lock call has not come back: blocked and neither timed out nor handed the mutex. */
  ghost function Outstanding(c: int, base: Prios, s: State, e: Event, who: set<Tid>): set<Tid>
    requires Kept(base, s) && Legal(base, s, e)
  {
    match e
    case LockEv(t, wait) => if Lock(c, s, t, wait).1.Blocked? then who + {t} else who
    case UnlockEv(t) => set u | u in who && Unlock(s, t).owner != Held(u)
    case ExpireEv(t) => who - {t}
  }

  ghost function OutstandingAfter(c: int, base: Prios, s: State, es: seq<Event>, who: set<Tid>): set<Tid>
    requires Kept(base, s) && LegalRun(c, base, s, es)
    decreases |es|
  {
    if es == [] then who
    else
      StepKept(c, base, s, es[0]);
      OutstandingAfter(c, base, Do(c, base, s, es[0]), es[1..], Outstanding(c, base, s, es[0], who))
  }

  lemma StepWaits(c: int, base: Prios, s: State, e: Event, who: set<Tid>)
    requires Kept(base, s) && Legal(base, s, e) && (forall t :: t in who <==> IsWaiting(s, t))
    ensures forall t :: t in Outstanding(c, base, s, e, who) <==> IsWaiting(Do(c, base, s, e), t)
  {
    match e
    case LockEv(t, wait) => LockWaits(c, base, s, t, wait);
    case UnlockEv(t) => UnlockWaits(c, base, s, t);
    case ExpireEv(t) => ExpireWaits(c, base, s, t);
  }

  lemma LockWaits(c: int, base: Prios, s: State, t: Tid, wait: Wait)
    requires Kept(base, s) && Legal(base, s, LockEv(t, wait))
    ensures var (r, code) := Lock(c, s, t, wait);
            forall u :: IsWaiting(r, u) <==> IsWaiting(s, u) || (code.Blocked? && u == t)
  {
    var w := Waiter(t, s.prio[t], ());
    EnqueueMembers(s.waiters, w);
    hide Enqueue, Distinct, Sorted;
    var r := Lock(c, s, t, wait).0;
    if r.waiters != s.waiters {
      assert w in r.waiters;
    }
  }

  lemma UnlockWaits(c: int, base: Prios, s: State, t: Tid)
    requires Kept(base, s) && Legal(base, s, UnlockEv(t))
    ensures var r := Unlock(s, t);
            forall u :: IsWaiting(r, u) <==> IsWaiting(s, u) && r.owner != Held(u)
  {
    if s.count == 1 && s.waiters != [] {
      TailQueue(base, s.waiters);
      assert s.waiters == [s.waiters[0]] + s.waiters[1..];
    }
  }

  lemma ExpireWaits(c: int, base: Prios, s: State, t: Tid)
    requires Kept(base, s) && Legal(base, s, ExpireEv(t))
    ensures forall u :: IsWaiting(Expire(c, s, t), u) <==> IsWaiting(s, u) && u != t
  {
    WithoutMembers(s.waiters, t);
    hide Without;
    forall u ensures IsWaiting(Expire(c, s, t), u) <==> IsWaiting(s, u) && u != t {
      if w :| w in s.waiters && w.tid == u && u != t {
        assert w in Expire(c, s, t).waiters;
      }
    }
  }

  lemma {:induction false} RunWaits(c: int, base: Prios, s: State, es: seq<Event>, who: set<Tid>)
    requires Kept(base, s) && LegalRun(c, base, s, es) && (forall t :: t in who <==> IsWaiting(s, t))
    ensures forall t :: t in OutstandingAfter(c, base, s, es, who) <==> IsWaiting(Run(c, base, s, es), t)
    decreases |es|
  {
    hide Do, Legal, Outstanding, IsWaiting, Kept;
    if es != [] {
      StepKept(c, base, s, es[0]);
      StepWaits(c, base, s, es[0], who);
      RunWaits(c, base, Do(c, base, s, es[0]), es[1..], Outstanding(c, base, s, es[0], who));
    }
  }

  /** In every run the queue holds exactly the threads whose lock call has not come back. */
  lemma WaitersAreOutstanding(c: int, base: Prios, orig: int, es: seq<Event>)
    requires LegalRun(c, base, Init(base, orig), es)
    ensures forall t :: t in OutstandingAfter(c, base, Init(base, orig), es, {})
                   <==> IsWaiting(Run(c, base, Init(base, orig), es), t)
  {
    RunWaits(c, base, Init(base, orig), es, {});
  }
}
