/** The uniprocessor scheduler: the run queue, the cached next thread, the preemption rule and the
    operations that change them.  The current thread stays in the run queue while it runs. */
module Scheduler {
  import opened WaitQueue
  import opened RunQueue

  /** Why a thread may not run: the state bits `_THREAD_PENDING` and so on, and an active timeout. */
  datatype Reason = Pending | Prestart | Dead | Dummy | Suspended | Timeout

  datatype Thread = Thread(prio: int, locked: nat, blocked: set<Reason>)

  /** `highest` is the most urgent priority there is, the first `meta` of which are meta-IRQs. */
  datatype State = State(highest: int, meta: nat, idle: Tid, threads: map<Tid, Thread>, current: Tid, cache: Tid,
                         runq: seq<Waiter<()>>)

  // ---------------------------------------------------------- preemptibility

  /** The `preempt` field: scheduler lock count above the priority's byte. */
  function Preempt(t: Thread): int {
    256 * t.locked + (if t.prio < 0 then t.prio + 256 else t.prio)
  }

  ghost predicate Bytes(t: Thread) {
    -128 <= t.prio <= 127 && t.locked < 256
  }

  /** `_is_preempt`. */
  predicate Preemptible(t: Thread) {
    Preempt(t) <= 0x7f
  }

  /** Comparing the bundled field with one threshold tests lock count and sign together. */
  lemma PreemptEncoding(t: Thread)
    requires Bytes(t)
    ensures Preemptible(t) <==> t.locked == 0 && t.prio >= 0
    ensures 0 <= Preempt(t) <= 0xffff
  {
  }

  predicate Ready(s: State, t: Tid)
    requires t in s.threads
  {
    s.threads[t].blocked == {}
  }

  predicate MetaIrq(s: State, t: Tid) {
    t in s.threads && s.meta > 0 && s.threads[t].prio - s.highest < s.meta
  }

  // -------------------------------------------------------------- invariant

  /** The run queue holds ready threads other than the idle one, in order, once each. */
  ghost predicate Queues(s: State) {
    && s.idle in s.threads && s.current in s.threads && s.cache in s.threads
    && (forall t | t in s.threads :: Bytes(s.threads[t]))
    && Ready(s, s.idle)
    && Orderly(s.runq)
    && (forall w | w in s.runq :: InPlace(s, w))
  }

  ghost predicate AllQueued(s: State) {
    forall t | t in s.threads && t != s.idle && Ready(s, t) :: Entry(s, t) in s.runq
  }

  /** And it holds all of them. */
  ghost predicate Shape(s: State) {
    Queues(s) && AllQueued(s)
  }

  /** A run-queue entry tells the truth about its thread. */
  ghost predicate InPlace(s: State, w: Waiter<()>) {
    w.tid in s.threads && w.tid != s.idle && Ready(s, w.tid) && w == Entry(s, w.tid)
  }

  ghost function Entry(s: State, t: Tid): Waiter<()>
    requires t in s.threads
  {
    Waiter(t, s.threads[t].prio, ())
  }

  /** No queued thread is more urgent than `t`. */
  ghost predicate MostUrgent(s: State, t: Tid)
    requires t in s.threads
  {
    if t == s.idle then s.runq == [] else forall w | w in s.runq :: s.threads[t].prio <= w.prio
  }

  /** The current thread may keep the processor although somebody more urgent is queued. */
  ghost predicate Holds(s: State)
    requires s.current in s.threads
  {
    && s.current != s.idle
    && Ready(s, s.current)
    && !Preemptible(s.threads[s.current])
    && s.runq != []
    && !MetaIrq(s, s.runq[0].tid)
  }

  /** The cached thread can run, and it is either the most urgent one or the current one holding on. */
  ghost predicate CacheSafe(s: State)
    requires s.cache in s.threads && s.current in s.threads
  {
    && (s.cache == s.idle || Entry(s, s.cache) in s.runq)
    && (MostUrgent(s, s.cache) || (s.cache == s.current && Holds(s)))
  }

  ghost predicate Inv(s: State) {
    Shape(s) && CacheSafe(s)
  }

  // ------------------------------------------------------------ operations

  function NextUp(s: State): Tid {
    if s.runq == [] then s.idle else s.runq[0].tid
  }

  /** `should_preempt`. */
  predicate ShouldPreempt(s: State, t: Tid, ok: bool)
    requires s.current in s.threads
  {
    || ok
    || !Ready(s, s.current)
    || Preemptible(s.threads[s.current])
    || MetaIrq(s, t)
    || s.current == s.idle
  }

  function UpdateCache(s: State, ok: bool): State
    requires s.current in s.threads
  {
    s.(cache := if ShouldPreempt(s, NextUp(s), ok) then NextUp(s) else s.current)
  }

  function Add(s: State, t: Tid): State
    requires t in s.threads
  {
    s.(runq := Enqueue(s.runq, Waiter(t, s.threads[t].prio, ())))
  }

  function Remove(s: State, t: Tid): State {
    s.(runq := Without(s.runq, t))
  }

  function Set(s: State, t: Tid, th: Thread): State {
    s.(threads := s.threads[t := th])
  }

  /** `_reschedule` outside an interrupt, and the switch on leaving one. */
  function Switch(s: State): State {
    s.(current := s.cache)
  }

  datatype Event =
    | Block(tid: Tid, why: Reason)
    | Unblock(tid: Tid, why: Reason)
    | MoveToEnd(tid: Tid)
    | SetPrio(tid: Tid, prio: int)
    | Yield
    | Lock
    | Unlock
    | Swap

  /** The idle thread is never blocked, moved or given a priority; the calls of the current thread
      need it to be running; the lock count neither over- nor underflows. */
  predicate Legal(s: State, e: Event) {
    && s.current in s.threads
    && match e
       case Block(t, _) => t in s.threads && t != s.idle
       case Unblock(t, why) => t in s.threads && t != s.idle && why in s.threads[t].blocked
       case MoveToEnd(t) => t in s.threads && t != s.idle && Ready(s, t)
       case SetPrio(t, p) => t in s.threads && t != s.idle && -128 <= p <= 127
       case Yield => Ready(s, s.current)
       case Lock => Ready(s, s.current) && s.threads[s.current].locked != 1
       case Unlock => Ready(s, s.current) && s.threads[s.current].locked != 0
       case Swap => true
  }

  /** Eight-bit lock count: locking counts down from zero, unlocking back up. */
  function LockStep(n: nat): nat {
    if n == 0 then 255 else n - 1
  }

  function UnlockStep(n: nat): nat {
    if n == 255 then 0 else n + 1
  }

  /** `pend`, `k_thread_suspend` and the like: off the run queue first, then marked. */
  function Blocked(s: State, t: Tid, why: Reason): State
    requires t in s.threads && s.current in s.threads
  {
    var s1 := if Ready(s, t) then UpdateCache(Remove(s, t), t == s.current) else s;
    Set(s1, t, s.threads[t].(blocked := s.threads[t].blocked + {why}))
  }

  function Unblocked(s: State, t: Tid, why: Reason): State
    requires t in s.threads && s.current in s.threads
  {
    var s1 := Set(s, t, s.threads[t].(blocked := s.threads[t].blocked - {why}));
    if Ready(s1, t) then UpdateCache(Add(s1, t), false) else s1
  }

  /** Off the run queue and on again, at the given priority. */
  function Requeued(s: State, t: Tid, prio: int, ok: bool): State
    requires t in s.threads && s.current in s.threads
  {
    UpdateCache(Add(Set(Remove(s, t), t, s.threads[t].(prio := prio)), t), ok)
  }

  function Relocked(s: State, n: nat): State
    requires s.current in s.threads
  {
    Set(s, s.current, s.threads[s.current].(locked := n))
  }

  function Do(s: State, e: Event): State
    requires Legal(s, e)
  {
    match e
    case Block(t, why) => Blocked(s, t, why)
    case Unblock(t, why) => Unblocked(s, t, why)
    case MoveToEnd(t) => Requeued(s, t, s.threads[t].prio, false)
    case SetPrio(t, p) =>
      if Ready(s, t) then Requeued(s, t, p, true) else Set(s, t, s.threads[t].(prio := p))
    case Yield =>
      Switch(if s.current == s.idle then s else Requeued(s, s.current, s.threads[s.current].prio, true))
    case Lock => Relocked(s, LockStep(s.threads[s.current].locked))
    case Unlock => Switch(UpdateCache(Relocked(s, UnlockStep(s.threads[s.current].locked)), true))
    case Swap => Switch(s)
  }

  // ---------------------------------------------------- every step is safe

  lemma AddQueues(s: State, t: Tid)
    requires Queues(s) && t in s.threads && t != s.idle && Ready(s, t) && !Has(s.runq, t)
    ensures Queues(Add(s, t))
    ensures forall w :: w in Add(s, t).runq <==> w in s.runq || w == Entry(s, t)
  {
    hide Sorted, Distinct, Enqueue;
    JoinOrderly(s.runq, Entry(s, t));
    EnqueueMembers(s.runq, Entry(s, t));
  }

  lemma RemoveQueues(s: State, t: Tid)
    requires Queues(s)
    ensures Queues(Remove(s, t)) && !Has(Remove(s, t).runq, t)
    ensures forall w :: w in Remove(s, t).runq <==> w in s.runq && w.tid != t
  {
    hide Sorted, Distinct, Without;
    LeaveOrderly(s.runq, t);
    WithoutMembers(s.runq, t);
    assert forall w | w in Remove(s, t).runq :: w in s.runq && w.tid != t;
  }

  /** A thread that is not queued may change. */
  lemma SetQueues(s: State, t: Tid, th: Thread)
    requires Queues(s) && !Has(s.runq, t) && Bytes(th) && t in s.threads && t != s.idle
    ensures Queues(Set(s, t, th))
  {
    hide Sorted, Distinct, Bytes;
    forall w | w in s.runq ensures InPlace(Set(s, t, th), w) {
      assert InPlace(s, w) && w.tid != t;
    }
  }

  lemma UpdateCacheSafe(s: State, ok: bool)
    requires Queues(s)
    requires ok || s.current == s.idle || !Ready(s, s.current) || Entry(s, s.current) in s.runq
    ensures Queues(UpdateCache(s, ok)) && CacheSafe(UpdateCache(s, ok))
  {
    if s.runq != [] {
      assert s.runq[0] in s.runq && InPlace(s, s.runq[0]);
      assert forall w | w in s.runq :: s.runq[0].prio <= w.prio;
    }
  }

  /** Marking a thread that is not queued changes nothing for the cache. */
  lemma SetSafe(s: State, t: Tid, th: Thread)
    requires Queues(s) && CacheSafe(s) && !Has(s.runq, t) && Bytes(th) && t in s.threads && t != s.idle
    ensures Queues(Set(s, t, th)) && CacheSafe(Set(s, t, th))
  {
    SetQueues(s, t, th);
    assert s.cache != t;
    assert Set(s, t, th).threads[s.cache] == s.threads[s.cache];
    if s.runq != [] {
      assert s.runq[0] in s.runq;
    }
  }

  lemma BlockInv(s: State, t: Tid, why: Reason)
    requires Inv(s) && Legal(s, Block(t, why))
    ensures Inv(Blocked(s, t, why))
  {
    hide Sorted, Distinct, Enqueue, Without;
    if Ready(s, t) {
      RemoveQueues(s, t);
      var s1 := Remove(s, t);
      UpdateCacheSafe(s1, t == s.current);
      var s2 := UpdateCache(s1, t == s.current);
      SetSafe(s2, t, s2.threads[t].(blocked := s2.threads[t].blocked + {why}));
    } else {
      NotReadyNotQueued(s, t);
      SetSafe(s, t, s.threads[t].(blocked := s.threads[t].blocked + {why}));
    }
  }

  lemma NotReadyNotQueued(s: State, t: Tid)
    requires Queues(s) && t in s.threads && !Ready(s, t)
    ensures !Has(s.runq, t)
  {
  }

  lemma UnblockInv(s: State, t: Tid, why: Reason)
    requires Inv(s) && Legal(s, Unblock(t, why))
    ensures Inv(Unblocked(s, t, why))
  {
    hide Sorted, Distinct, Enqueue, Without, CacheSafe;
    NotReadyNotQueued(s, t);
    var th := s.threads[t].(blocked := s.threads[t].blocked - {why});
    SetSafe(s, t, th);
    var s1 := Set(s, t, th);
    if Ready(s1, t) {
      AddQueues(s1, t);
      AddedAll(s, t, th);
      UpdateCacheSafe(Add(s1, t), false);
    }
  }

  /** Adding the one thread that became ready leaves nobody out. */
  lemma AddedAll(s: State, t: Tid, th: Thread)
    requires t in s.threads
    requires forall u | u in s.threads && u != s.idle && u != t && Ready(s, u) :: Entry(s, u) in s.runq
    ensures AllQueued(Add(Set(s, t, th), t))
  {
    var s1 := Set(s, t, th);
    hide Enqueue;
    EnqueueMembers(s.runq, Entry(s1, t));
    forall u | u in s1.threads && u != s.idle && Ready(s1, u) ensures Entry(s1, u) in Add(s1, t).runq {
      assert u != t ==> Entry(s1, u) == Entry(s, u);
    }
  }

  lemma RequeueInv(s: State, t: Tid, prio: int, ok: bool)
    requires Inv(s) && t in s.threads && t != s.idle && Ready(s, t) && -128 <= prio <= 127
    ensures Inv(Requeued(s, t, prio, ok))
  {
    hide Sorted, Distinct, Enqueue, Without, CacheSafe;
    RemoveQueues(s, t);
    var th := s.threads[t].(prio := prio);
    SetQueues(Remove(s, t), t, th);
    var s1 := Set(Remove(s, t), t, th);
    AddQueues(s1, t);
    AddedAll(Remove(s, t), t, th);
    UpdateCacheSafe(Add(s1, t), ok);
  }

  lemma SwitchInv(s: State)
    requires Inv(s)
    ensures Inv(Switch(s))
  {
    hide Sorted, Distinct;
  }

  /** A change of lock count moves nobody. */
  lemma RelockShape(s: State, locked: nat)
    requires Shape(s) && locked < 256
    ensures Shape(Relocked(s, locked))
  {
    hide Sorted, Distinct;
    var s1 := Relocked(s, locked);
    forall w | w in s1.runq ensures InPlace(s1, w) {
      assert InPlace(s, w);
    }
    forall t | t in s1.threads && t != s.idle && Ready(s1, t) ensures Entry(s1, t) in s1.runq {
      assert Entry(s1, t) == Entry(s, t);
    }
  }

  lemma LockInv(s: State)
    requires Inv(s) && Legal(s, Lock)
    ensures Inv(Do(s, Lock))
  {
    var s1 := Do(s, Lock);
    RelockShape(s, LockStep(s.threads[s.current].locked));
    PreemptEncoding(s1.threads[s.current]);
    assert s1.threads[s.cache].prio == s.threads[s.cache].prio;
    assert s.runq != [] ==> s1.threads[s.runq[0].tid].prio == s.threads[s.runq[0].tid].prio by {
      assert s.runq != [] ==> s.runq[0] in s.runq;
    }
  }

  lemma UnlockInv(s: State)
    requires Inv(s) && Legal(s, Unlock)
    ensures Inv(Do(s, Unlock))
  {
    hide Sorted, Distinct, CacheSafe;
    var n := UnlockStep(s.threads[s.current].locked);
    RelockShape(s, n);
    var s1 := Relocked(s, n);
    UpdateCacheSafe(s1, true);
    SwitchInv(UpdateCache(s1, true));
  }

  lemma DoInv(s: State, e: Event)
    requires Inv(s) && Legal(s, e)
    ensures Inv(Do(s, e))
  {
    hide Queues, AllQueued, CacheSafe, Blocked, Unblocked, Requeued;
    match e
    case Block(t, why) => BlockInv(s, t, why);
    case Unblock(t, why) => UnblockInv(s, t, why);
    case MoveToEnd(t) => MoveInv(s, t);
    case SetPrio(t, p) => SetPrioInv(s, t, p);
    case Yield => YieldInv(s);
    case Lock => LockInv(s);
    case Unlock => UnlockInv(s);
    case Swap => SwitchInv(s);
  }

  lemma MoveInv(s: State, t: Tid)
    requires Inv(s) && Legal(s, MoveToEnd(t))
    ensures Inv(Do(s, MoveToEnd(t)))
  {
    RequeueInv(s, t, s.threads[t].prio, false);
  }

  lemma SetPrioInv(s: State, t: Tid, p: int)
    requires Inv(s) && Legal(s, SetPrio(t, p))
    ensures Inv(Do(s, SetPrio(t, p)))
  {
    if Ready(s, t) {
      RequeueInv(s, t, p, true);
    } else {
      NotReadyNotQueued(s, t);
      SetSafe(s, t, s.threads[t].(prio := p));
    }
  }

  lemma YieldInv(s: State)
    requires Inv(s) && Legal(s, Yield)
    ensures Inv(Do(s, Yield))
  {
    if s.current != s.idle {
      RequeueInv(s, s.current, s.threads[s.current].prio, true);
      SwitchInv(Requeued(s, s.current, s.threads[s.current].prio, true));
    } else {
      SwitchInv(s);
    }
  }
}
