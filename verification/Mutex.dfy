/** `struct k_mutex`: a recursive lock with priority inheritance.  While threads wait, the owner runs
    at the best of its own priority and theirs, but is never raised past the configured ceiling.
    Calls are atomic steps, a thread's priority changes only through the mutex, and a waiter that
    times out adjusts the owner in the same step that takes it off the queue. */
module Mutex {
  import opened WaitQueue

  datatype Owner = Nobody | Held(tid: Tid)

  datatype Code = Ok | Ebusy | Blocked

  datatype Wait = NoWait | MayWait

  type Prios = map<Tid, int>

  /** `orig` is the owner's saved priority and means nothing while nobody owns the mutex; `prio` is
      the current priority of every thread. */
  datatype State = State(owner: Owner, count: nat, orig: int, waiters: seq<Waiter<()>>, prio: Prios)

  /** The more urgent of two priorities. */
  function MoreUrgent(a: int, b: int): int {
    if a < b then a else b
  }

  /** `_get_new_prio_with_ceiling`. */
  function Clamp(ceiling: int, p: int): int {
    if p >= ceiling then p else ceiling
  }

  // ----------------------------------------------------------- operations

  function Lock(c: int, s: State, t: Tid, wait: Wait): (State, Code)
    requires t in s.prio && (s.count > 0 ==> s.owner.Held? && s.owner.tid in s.prio)
  {
    if s.count == 0 then (s.(owner := Held(t), count := 1, orig := s.prio[t]), Ok)
    else if s.owner.tid == t then (s.(count := s.count + 1), Ok)
    else if wait.NoWait? then (s, Ebusy)
    else
      (s.(prio := s.prio[s.owner.tid := MoreUrgent(s.prio[s.owner.tid], Clamp(c, s.prio[t]))],
          waiters := Enqueue(s.waiters, Waiter(t, s.prio[t], ()))), Blocked)
  }

  function Unlock(s: State, t: Tid): State
    requires s.owner == Held(t) && s.count > 0
  {
    if s.count > 1 then s.(count := s.count - 1)
    else
      var prio := s.prio[t := s.orig];
      if s.waiters == [] then s.(owner := Nobody, count := 0, prio := prio)
      else s.(owner := Held(s.waiters[0].tid), count := 1, orig := s.waiters[0].prio,
              waiters := s.waiters[1..], prio := prio)
  }

  /** The end of a `k_mutex_lock` whose time ran out. */
  function Expire(c: int, s: State, t: Tid): State
    requires s.owner.Held?
  {
    var q := Without(s.waiters, t);
    s.(waiters := q,
       prio := s.prio[s.owner.tid := if q == [] then s.orig else Clamp(c, MoreUrgent(q[0].prio, s.orig))])
  }

  // ------------------------------------------------------------ invariant

  /** `p` is the best of `own` and the waiters' priorities, those being cut off at the ceiling. */
  ghost predicate Inherited(c: int, p: int, own: int, q: seq<Waiter<()>>) {
    && p <= own
    && (forall w | w in q :: p <= Clamp(c, w.prio))
    && (p == own || exists w :: w in q && p == Clamp(c, w.prio))
  }

  /** Waiters stand in priority order, once each, at their own priority. */
  ghost predicate Queue(base: Prios, q: seq<Waiter<()>>) {
    && Sorted(q)
    && Distinct(q)
    && (forall w | w in q :: w.tid in base && w.prio == base[w.tid])
  }

  /** The book-keeping that every call keeps: who runs at which priority apart from the owner. */
  ghost predicate Kept(base: Prios, s: State) {
    && s.prio.Keys == base.Keys
    && Queue(base, s.waiters)
    && (s.owner.Nobody? ==> s.count == 0 && s.waiters == [] && s.prio == base)
    && (s.owner.Held? ==>
          && s.count > 0
          && s.owner.tid in base
          && s.orig == base[s.owner.tid]
          && (forall w | w in s.waiters :: w.tid != s.owner.tid)
          && (forall t | t in base && t != s.owner.tid :: s.prio[t] == base[t]))
  }

  /** Priority inheritance proper. */
  ghost predicate Boosted(c: int, base: Prios, s: State)
    requires Kept(base, s)
  {
    s.owner.Held? ==> Inherited(c, s.prio[s.owner.tid], base[s.owner.tid], s.waiters)
  }

  ghost predicate Inv(c: int, base: Prios, s: State) {
    Kept(base, s) && Boosted(c, base, s)
  }

  datatype Event = LockEv(tid: Tid, wait: Wait) | UnlockEv(tid: Tid) | ExpireEv(tid: Tid)

  ghost predicate IsWaiting(s: State, t: Tid) {
    exists w :: w in s.waiters && w.tid == t
  }

  /** Only a thread that is not waiting calls; only the owner unlocks; only a waiter times out. */
  ghost predicate Legal(base: Prios, s: State, e: Event) {
    match e
    case LockEv(t, _) => t in base && !IsWaiting(s, t)
    case UnlockEv(t) => s.owner == Held(t)
    case ExpireEv(t) => IsWaiting(s, t)
  }

  ghost function Do(c: int, base: Prios, s: State, e: Event): State
    requires Kept(base, s) && Legal(base, s, e)
  {
    match e
    case LockEv(t, wait) => Lock(c, s, t, wait).0
    case UnlockEv(t) => Unlock(s, t)
    case ExpireEv(t) => Expire(c, s, t)
  }

  // ---------------------------------------------------------- each call

  lemma LockKept(c: int, base: Prios, s: State, t: Tid, wait: Wait)
    requires Kept(base, s) && Legal(base, s, LockEv(t, wait))
    ensures Kept(base, Lock(c, s, t, wait).0)
  {
    if s.count > 0 && s.owner.tid != t {
      var w := Waiter(t, s.prio[t], ());
      EnqueueSorted(s.waiters, w);
      EnqueueMembers(s.waiters, w);
    }
  }

  lemma LockBoosted(c: int, base: Prios, s: State, t: Tid, wait: Wait)
    requires Inv(c, base, s) && Legal(base, s, LockEv(t, wait))
    ensures Inv(c, base, Lock(c, s, t, wait).0)
  {
    LockKept(c, base, s, t, wait);
    if s.count > 0 && s.owner.tid != t && wait.MayWait? {
      var w := Waiter(t, s.prio[t], ());
      EnqueueMembers(s.waiters, w);
      RaisedBy(c, s.prio[s.owner.tid], s.orig, s.waiters, w);
    }
  }

  /** A new waiter raises the owner just far enough. */
  lemma RaisedBy(c: int, p: int, own: int, q: seq<Waiter<()>>, w: Waiter<()>)
    requires Inherited(c, p, own, q)
    ensures Inherited(c, MoreUrgent(p, Clamp(c, w.prio)), own, Enqueue(q, w))
  {
    EnqueueMembers(q, w);
    var r, p' := Enqueue(q, w), MoreUrgent(p, Clamp(c, w.prio));
    if p' != own {
      if p' == p {
        var x :| x in q && p == Clamp(c, x.prio);
        assert x in r;
      } else {
        assert w in r;
      }
    }
  }

  lemma TailQueue(base: Prios, q: seq<Waiter<()>>)
    requires Queue(base, q) && q != []
    ensures Queue(base, q[1..])
    ensures forall w | w in q[1..] :: w.tid != q[0].tid && q[0].prio <= w.prio
  {
    forall w | w in q[1..] ensures w in q && w.tid != q[0].tid && q[0].prio <= w.prio {
      var i :| 0 <= i < |q[1..]| && q[1..][i] == w;
      assert q[i + 1] == w;
    }
  }

  /** Hand-off needs no adjustment: the queue head is at least as urgent as those behind it. */
  lemma UnlockInv(c: int, base: Prios, s: State, t: Tid)
    requires Kept(base, s) && Legal(base, s, UnlockEv(t))
    ensures Kept(base, Unlock(s, t))
    ensures s.count == 1 || Boosted(c, base, s) ==> Inv(c, base, Unlock(s, t))
    ensures s.count == 1 ==> Unlock(s, t).prio == base
  {
    if s.count == 1 {
      assert Unlock(s, t).prio == base;
      if s.waiters != [] {
        assert s.waiters[0] in s.waiters;
        TailQueue(base, s.waiters);
      }
    }
  }

  lemma ExpireKept(c: int, base: Prios, s: State, t: Tid)
    requires Kept(base, s) && Legal(base, s, ExpireEv(t))
    ensures Kept(base, Expire(c, s, t))
  {
    WithoutMembers(s.waiters, t);
    WithoutSorted(s.waiters, t);
    WithoutDistinct(s.waiters, t);
  }

  /** Exactly when a time-out leaves the owner at the right priority: nobody else waits, or the
      owner's own priority is not above the ceiling. */
  lemma ExpireBoostedIff(c: int, base: Prios, s: State, t: Tid)
    requires Kept(base, s) && Legal(base, s, ExpireEv(t))
    ensures Kept(base, Expire(c, s, t))
    ensures Boosted(c, base, Expire(c, s, t)) <==> (Without(s.waiters, t) == [] || c <= base[s.owner.tid])
  {
    ExpireKept(c, base, s, t);
    var q := Without(s.waiters, t);
    if q != [] {
      HeadBest(c, s.orig, q);
    }
  }

  /** What the owner should run at depends on the queue head alone. */
  lemma HeadBest(c: int, own: int, q: seq<Waiter<()>>)
    requires Sorted(q) && q != []
    ensures forall p :: Inherited(c, p, own, q) <==> p == MoreUrgent(own, Clamp(c, q[0].prio))
  {
    assert q[0] in q;
    assert forall w | w in q :: q[0].prio <= w.prio;
  }

  // ----------------------------------------------------------------- runs

  ghost predicate LegalRun(c: int, base: Prios, s: State, es: seq<Event>)
    requires Kept(base, s)
    decreases |es|
  {
    es != [] ==> Legal(base, s, es[0]) && (StepKept(c, base, s, es[0]); LegalRun(c, base, Do(c, base, s, es[0]), es[1..]))
  }

  ghost function Run(c: int, base: Prios, s: State, es: seq<Event>): State
    requires Kept(base, s) && LegalRun(c, base, s, es)
    ensures Kept(base, Run(c, base, s, es))
    decreases |es|
  {
    if es == [] then s else StepKept(c, base, s, es[0]); Run(c, base, Do(c, base, s, es[0]), es[1..])
  }

  lemma StepKept(c: int, base: Prios, s: State, e: Event)
    requires Kept(base, s) && Legal(base, s, e)
    ensures Kept(base, Do(c, base, s, e))
  {
    match e
    case LockEv(t, wait) => LockKept(c, base, s, t, wait);
    case UnlockEv(t) => UnlockInv(c, base, s, t);
    case ExpireEv(t) => ExpireKept(c, base, s, t);
  }

  /** `k_mutex_init` among threads of the given priorities; the saved priority is left as it was. */
  function Init(base: Prios, orig: int): State {
    State(Nobody, 0, orig, [], base)
  }

  /** No thread outranks the ceiling, or there are too few threads for two to wait. */
  ghost predicate Harmless(c: int, base: Prios) {
    (forall t | t in base :: c <= base[t]) || |base| < 3
  }

  lemma StepInv(c: int, base: Prios, s: State, e: Event)
    requires Inv(c, base, s) && Legal(base, s, e) && Harmless(c, base)
    ensures Inv(c, base, Do(c, base, s, e))
  {
    match e
    case LockEv(t, wait) => LockBoosted(c, base, s, t, wait);
    case UnlockEv(t) => UnlockInv(c, base, s, t);
    case ExpireEv(t) =>
      ExpireBoostedIff(c, base, s, t);
      if Without(s.waiters, t) != [] {
        ThreeThreads(base, s, t);
      }
  }

  /** The owner, the one timing out and one who still waits are three threads. */
  lemma ThreeThreads(base: Prios, s: State, t: Tid)
    requires Kept(base, s) && IsWaiting(s, t) && Without(s.waiters, t) != []
    ensures |base| >= 3
  {
    WithoutMembers(s.waiters, t);
    var u := Without(s.waiters, t)[0].tid;
    assert {s.owner.tid, t, u} <= base.Keys;
    AtLeastThree(s.owner.tid, t, u, base.Keys);
  }

  lemma AtLeastThree(a: Tid, b: Tid, d: Tid, k: set<Tid>)
    requires a != b && b != d && a != d && {a, b, d} <= k
    ensures |k| >= 3
  {
    assert k == {a, b, d} + (k - {a, b, d});
    assert |{a, b, d}| == 3;
  }

  lemma {:induction false} RunInv(c: int, base: Prios, s: State, es: seq<Event>)
    requires Inv(c, base, s) && LegalRun(c, base, s, es) && Harmless(c, base)
    ensures Inv(c, base, Run(c, base, s, es))
    decreases |es|
  {
    if es != [] {
      StepKept(c, base, s, es[0]);
      StepInv(c, base, s, es[0]);
      RunInv(c, base, Do(c, base, s, es[0]), es[1..]);
    }
  }

  /** In every run of locks, unlocks and time-outs, among threads none of which outranks the
      ceiling: the owner runs at the best of its own priority and all waiters', every other thread
      at its own, and with the mutex free everybody is back at their own priority. */
  lemma InheritanceSafety(c: int, base: Prios, orig: int, es: seq<Event>)
    requires LegalRun(c, base, Init(base, orig), es)
    requires Harmless(c, base)
    ensures var s := Run(c, base, Init(base, orig), es);
            && Inv(c, base, s)
            && (s.owner.Held? ==> forall w | w in s.waiters && c <= w.prio :: s.prio[s.owner.tid] <= w.prio)
            && (s.owner.Nobody? ==> s.prio == base)
  {
    RunInv(c, base, Init(base, orig), es);
  }

  /** Whatever the ceiling, releasing the mutex for good gives every thread its own priority back,
      and passes the mutex to a waiter none of the others outranks. */
  lemma FinalUnlockRestores(c: int, base: Prios, orig: int, es: seq<Event>, t: Tid)
    requires LegalRun(c, base, Init(base, orig), es)
    requires Run(c, base, Init(base, orig), es).owner == Held(t)
    requires Run(c, base, Init(base, orig), es).count == 1
    ensures var s := Run(c, base, Init(base, orig), es);
            var s' := Unlock(s, t);
            && s'.prio == base
            && Inv(c, base, s')
            && (s.waiters == [] ==> s'.owner.Nobody?)
            && (s.waiters != [] ==>
                  && s'.owner == Held(s.waiters[0].tid)
                  && (forall w | w in s.waiters :: s'.orig <= w.prio))
  {
    var s := Run(c, base, Init(base, orig), es);
    UnlockInv(c, base, s, t);
    assert forall w | w in s.waiters :: s.waiters[0].prio <= w.prio;
  }

  // ---------------------------------------------------- above the ceiling

  /** Owner `o` above the ceiling, two waiters, one of whom gives up. */
  function Trouble(o: Tid, t: Tid, u: Tid): seq<Event> {
    [LockEv(o, MayWait), LockEv(t, MayWait), LockEv(u, MayWait), ExpireEv(u)]
  }

  lemma RunCons(c: int, base: Prios, s: State, e: Event, es: seq<Event>)
    requires Kept(base, s) && Legal(base, s, e)
    ensures Kept(base, Do(c, base, s, e))
    ensures LegalRun(c, base, Do(c, base, s, e), es) ==>
              && LegalRun(c, base, s, [e] + es)
              && Run(c, base, s, [e] + es) == Run(c, base, Do(c, base, s, e), es)
  {
    StepKept(c, base, s, e);
    assert ([e] + es)[1..] == es;
  }

  /** Below the ceiling nobody's waiting moves an owner above it. */
  lemma StillAbove(c: int, base: Prios, orig: int, o: Tid, t: Tid, q: seq<Waiter<()>>)
    requires o in base && t in base && o != t && base[o] < c
    ensures Lock(c, State(Held(o), 1, orig, q, base), t, MayWait).0
         == State(Held(o), 1, orig, Enqueue(q, Waiter(t, base[t], ())), base)
  {
    assert base[o := base[o]] == base;
  }

  ghost predicate Demoted(c: int, base: Prios, s: State, o: Tid) {
    Kept(base, s) && s.owner == Held(o) && base[o] < s.prio[o] == c
  }

  lemma GivesUp(c: int, base: Prios, s: State, o: Tid, t: Tid, u: Tid)
    requires Kept(base, s) && s.owner == Held(o) && base[o] < c && {t, u} <= base.Keys && t != u
    requires s.waiters == Enqueue([Waiter(t, base[t], ())], Waiter(u, base[u], ()))
    ensures LegalRun(c, base, s, [ExpireEv(u)])
    ensures Demoted(c, base, Run(c, base, s, [ExpireEv(u)]), o)
  {
    var w, x := Waiter(t, base[t], ()), Waiter(u, base[u], ());
    EnqueueMembers([w], x);
    assert x in s.waiters;
    OneLeft(w, x);
    RunCons(c, base, s, ExpireEv(u), []);
    assert [ExpireEv(u)] == [ExpireEv(u)] + [];
  }

  lemma SecondWaits(c: int, base: Prios, s: State, o: Tid, t: Tid, u: Tid)
    requires o != t && t != u && o != u && {o, t, u} <= base.Keys && base[o] < c
    requires Kept(base, s) && s == State(Held(o), 1, base[o], [Waiter(t, base[t], ())], base)
    ensures LegalRun(c, base, s, [LockEv(u, MayWait), ExpireEv(u)])
    ensures Demoted(c, base, Run(c, base, s, [LockEv(u, MayWait), ExpireEv(u)]), o)
  {
    StillAbove(c, base, base[o], o, u, s.waiters);
    hide Enqueue, Without, Expire;
    RunCons(c, base, s, LockEv(u, MayWait), [ExpireEv(u)]);
    GivesUp(c, base, Lock(c, s, u, MayWait).0, o, t, u);
    assert [LockEv(u, MayWait), ExpireEv(u)] == [LockEv(u, MayWait)] + [ExpireEv(u)];
  }

  lemma FirstWaits(c: int, base: Prios, s: State, o: Tid, t: Tid, u: Tid)
    requires o != t && t != u && o != u && {o, t, u} <= base.Keys && base[o] < c
    requires Kept(base, s) && s == State(Held(o), 1, base[o], [], base)
    ensures LegalRun(c, base, s, [LockEv(t, MayWait), LockEv(u, MayWait), ExpireEv(u)])
    ensures Demoted(c, base, Run(c, base, s, [LockEv(t, MayWait), LockEv(u, MayWait), ExpireEv(u)]), o)
  {
    StillAbove(c, base, base[o], o, t, []);
    hide Without, Expire;
    var rest := [LockEv(u, MayWait), ExpireEv(u)];
    RunCons(c, base, s, LockEv(t, MayWait), rest);
    SecondWaits(c, base, Lock(c, s, t, MayWait).0, o, t, u);
    assert [LockEv(t, MayWait), LockEv(u, MayWait), ExpireEv(u)] == [LockEv(t, MayWait)] + rest;
  }

  /** A thread above the ceiling is pushed below its own priority by somebody else's time-out. */
  lemma AboveCeilingDemoted(c: int, base: Prios, orig: int, o: Tid, t: Tid, u: Tid)
    requires o != t && t != u && o != u && {o, t, u} <= base.Keys && base[o] < c
    ensures LegalRun(c, base, Init(base, orig), Trouble(o, t, u))
    ensures var s := Run(c, base, Init(base, orig), Trouble(o, t, u));
            Demoted(c, base, s, o) && !Inv(c, base, s)
  {
    hide Enqueue, Without, Expire;
    var rest := [LockEv(t, MayWait), LockEv(u, MayWait), ExpireEv(u)];
    RunCons(c, base, Init(base, orig), LockEv(o, MayWait), rest);
    FirstWaits(c, base, Lock(c, Init(base, orig), o, MayWait).0, o, t, u);
    assert Trouble(o, t, u) == [LockEv(o, MayWait)] + rest;
  }

  lemma OneLeft(w: Waiter<()>, x: Waiter<()>)
    requires w.tid != x.tid
    ensures Without(Enqueue([w], x), x.tid) == [w]
  {
    assert Enqueue([w], x) == [w, x] || Enqueue([w], x) == [x, w];
    assert Without([x], x.tid) == [];
    assert [w, x][1..] == [x] && [x, w][1..] == [w];
  }

  /** The exact condition under which every run keeps the inheritance invariant. */
  lemma SafeForAllRunsIff(c: int, base: Prios, orig: int)
    ensures (forall es | LegalRun(c, base, Init(base, orig), es) :: Inv(c, base, Run(c, base, Init(base, orig), es)))
       <==> Harmless(c, base)
  {
    if Harmless(c, base) {
      forall es | LegalRun(c, base, Init(base, orig), es)
        ensures Inv(c, base, Run(c, base, Init(base, orig), es))
      {
        InheritanceSafety(c, base, orig, es);
      }
    } else {
      var o :| o in base && base[o] < c;
      var t, u := TwoOthers(base.Keys, o);
      AboveCeilingDemoted(c, base, orig, o, t, u);
    }
  }

  lemma TwoOthers(k: set<Tid>, o: Tid) returns (t: Tid, u: Tid)
    requires o in k && |k| >= 3
    ensures t in k && u in k && t != o && u != o && t != u
  {
    var a := k - {o};
    assert |a| >= 2;
    t :| t in a;
    var b := a - {t};
    assert |b| >= 1;
    u :| u in b;
  }

  // -------------------------------------------------------------- code

  class KMutex {
    const ceiling: int
    var owner: Owner
    var lockCount: nat
    var ownerOrigPrio: int
    var waitQ: seq<Waiter<()>>
    /** `base.prio` of every thread. */
    var prio: Prios

    ghost function View(): State
      reads this
    {
      State(owner, lockCount, ownerOrigPrio, waitQ, prio)
    }

    constructor (ceiling: int, prio: Prios, orig: int)
      ensures this.ceiling == ceiling && View() == Init(prio, orig)
    {
      this.ceiling := ceiling;
      owner, lockCount, waitQ := Nobody, 0, [];
      ownerOrigPrio, this.prio := orig, prio;
    }

    /** Never past the ceiling; short of it, as urgent as the more urgent of the two. */
    function NewPrioForInheritance(target: int, limit: int): (p: int)
      ensures ceiling <= p
      ensures ceiling <= target && ceiling <= limit ==> p <= target && p <= limit && (p == target || p == limit)
      ensures target < ceiling || limit < ceiling ==> p == ceiling
    {
      var best := if target < limit then target else limit;
      if best >= ceiling then best else ceiling
    }

    method AdjustOwnerPrio(p: int)
      requires owner.Held? && owner.tid in prio
      modifies this`prio
      ensures prio == old(prio)[owner.tid := p]
    {
      if prio[owner.tid] != p {
        prio := prio[owner.tid := p];
      }
    }

    method LockBy(t: Tid, wait: Wait, ghost base: Prios) returns (r: Code)
      requires Kept(base, View()) && Legal(base, View(), LockEv(t, wait))
      modifies this
      ensures (View(), r) == Lock(ceiling, old(View()), t, wait)
      ensures r.Ok? <==> owner == Held(t)
      ensures r.Ok? ==> lockCount == old(lockCount) + 1 && waitQ == old(waitQ) && prio == old(prio)
      ensures r.Ebusy? ==> wait.NoWait? && View() == old(View())
    {
      if lockCount == 0 || owner == Held(t) {
        ownerOrigPrio := if lockCount == 0 then prio[t] else ownerOrigPrio;
        lockCount := lockCount + 1;
        owner := Held(t);
        return Ok;
      }
      if wait.NoWait? {
        return Ebusy;
      }
      var mine := prio[t];
      var p := NewPrioForInheritance(mine, prio[owner.tid]);
      if p < prio[owner.tid] {
        AdjustOwnerPrio(p);
      }
      waitQ := Add(waitQ, Waiter(t, mine, ()));
      assert prio == old(prio)[owner.tid := MoreUrgent(old(prio)[owner.tid], Clamp(ceiling, mine))];
      r := Blocked;
    }

    method TimedOut(t: Tid, ghost base: Prios)
      requires Kept(base, View()) && Legal(base, View(), ExpireEv(t))
      modifies this
      ensures View() == Expire(ceiling, old(View()), t)
    {
      waitQ := Without(waitQ, t);
      var p := ownerOrigPrio;
      if waitQ != [] {
        p := NewPrioForInheritance(waitQ[0].prio, p);
      }
      AdjustOwnerPrio(p);
    }

    method UnlockBy(t: Tid, ghost base: Prios)
      requires Kept(base, View()) && Legal(base, View(), UnlockEv(t))
      modifies this
      ensures View() == Unlock(old(View()), t)
    {
      lockCount := lockCount - 1;
      if lockCount != 0 {
        return;
      }
      AdjustOwnerPrio(ownerOrigPrio);
      if waitQ == [] {
        owner := Nobody;
      } else {
        assert waitQ[0] in waitQ;
        owner := Held(waitQ[0].tid);
        waitQ := waitQ[1..];
        lockCount := lockCount + 1;
        ownerOrigPrio := prio[owner.tid];
      }
    }
  }
}
