/** What the scheduler expects of its run queue, whichever of the three implementations is built in:
    threads in priority order, first-in first-out among equals. */
module RunQueue {
  import opened WaitQueue

  datatype Choice = None | Some(tid: Tid)

  /** Adding a thread, taking it off, and giving a queued thread another priority.  `data` is
      whatever the implementation stores with the thread. */
  datatype Op<T> = Join(tid: Tid, prio: int, data: T) | Leave(tid: Tid) | Move(tid: Tid, prio: int, data: T)

  ghost predicate Has<T>(q: seq<Waiter<T>>, tid: Tid) {
    exists w :: w in q && w.tid == tid
  }

  /** A thread is queued at most once, and only a queued thread is taken off or moved. */
  ghost predicate Legal<T>(q: seq<Waiter<T>>, op: Op<T>) {
    if op.Join? then !Has(q, op.tid) else Has(q, op.tid)
  }

  function Apply<T>(q: seq<Waiter<T>>, op: Op<T>): seq<Waiter<T>> {
    match op
    case Join(tid, prio, data) => Enqueue(q, Waiter(tid, prio, data))
    case Leave(tid) => Without(q, tid)
    case Move(tid, prio, data) => Enqueue(Without(q, tid), Waiter(tid, prio, data))
  }

  function Best<T>(q: seq<Waiter<T>>): Choice {
    if q == [] then None else Some(q[0].tid)
  }

  ghost predicate LegalRun<T>(q: seq<Waiter<T>>, ops: seq<Op<T>>)
    decreases |ops|
  {
    ops != [] ==> Legal(q, ops[0]) && LegalRun(Apply(q, ops[0]), ops[1..])
  }

  ghost function Run<T>(q: seq<Waiter<T>>, ops: seq<Op<T>>): seq<Waiter<T>>
    decreases |ops|
  {
    if ops == [] then q else Run(Apply(q, ops[0]), ops[1..])
  }

  ghost predicate Orderly<T>(q: seq<Waiter<T>>) {
    Sorted(q) && Distinct(q)
  }

  lemma LeaveOrderly<T>(q: seq<Waiter<T>>, tid: Tid)
    requires Orderly(q)
    ensures Orderly(Without(q, tid)) && !Has(Without(q, tid), tid)
  {
    WithoutSorted(q, tid);
    WithoutDistinct(q, tid);
    WithoutMembers(q, tid);
  }

  lemma JoinOrderly<T>(q: seq<Waiter<T>>, w: Waiter<T>)
    requires Orderly(q) && !Has(q, w.tid)
    ensures Orderly(Enqueue(q, w))
  {
    EnqueueSorted(q, w);
    EnqueueMembers(q, w);
  }

  lemma ApplyOrderly<T>(q: seq<Waiter<T>>, op: Op<T>)
    requires Orderly(q) && Legal(q, op)
    ensures Orderly(Apply(q, op))
  {
    if !op.Join? {
      LeaveOrderly(q, op.tid);
    }
    if !op.Leave? {
      JoinOrderly(if op.Join? then q else Without(q, op.tid), Waiter(op.tid, op.prio, op.data));
    }
  }

  // --------------------------------------------------- first in, first out

  /** `w` goes before `v`: it is more urgent, or equally urgent and carries the smaller stamp. */
  predicate Before(w: Waiter<nat>, v: Waiter<nat>) {
    w.prio < v.prio || (w.prio == v.prio && w.data < v.data)
  }

  ghost predicate InOrder(q: seq<Waiter<nat>>) {
    forall i, j | 0 <= i < j < |q| :: Before(q[i], q[j])
  }

  ghost predicate Older(q: seq<Waiter<nat>>, now: nat) {
    forall w | w in q :: w.data < now
  }

  /** Operations stamped with their position in the run, starting at `now`. */
  ghost predicate Timed(ops: seq<Op<nat>>, now: nat) {
    forall i | 0 <= i < |ops| :: !ops[i].Leave? ==> ops[i].data == now + i
  }

  lemma InsertInOrder(q: seq<Waiter<nat>>, k: nat, w: Waiter<nat>)
    requires InOrder(q) && k <= |q|
    requires forall i | 0 <= i < k :: Before(q[i], w)
    requires forall i | k <= i < |q| :: Before(w, q[i])
    ensures InOrder(q[..k] + [w] + q[k..])
  {
    var r := q[..k] + [w] + q[k..];
    forall i, j | 0 <= i < j < |r| ensures Before(r[i], r[j]) {
      hide Before;
      assert j < k ==> r[i] == q[i] && r[j] == q[j];
      assert k < i ==> r[i] == q[i - 1] && r[j] == q[j - 1];
      assert i < k < j ==> r[i] == q[i] && r[j] == q[j - 1];
    }
  }

  lemma EnqueueInOrder(q: seq<Waiter<nat>>, w: Waiter<nat>)
    requires Sorted(q) && InOrder(q) && Older(q, w.data)
    ensures InOrder(Enqueue(q, w))
  {
    hide Sorted, InOrder;
    BehindSlot(q, w.prio);
    InsertInOrder(q, Slot(q, w.prio), w);
  }

  lemma {:induction false} WithoutInOrder(q: seq<Waiter<nat>>, tid: Tid)
    requires InOrder(q)
    ensures InOrder(Without(q, tid))
  {
    if q != [] {
      var r := Without(q[1..], tid);
      WithoutInOrder(q[1..], tid);
      WithoutMembers(q[1..], tid);
      assert forall x | x in q[1..] :: Before(q[0], x);
      assert forall i | 0 <= i < |r| :: Before(q[0], r[i]);
    }
  }

  lemma ApplyInOrder(q: seq<Waiter<nat>>, op: Op<nat>, now: nat)
    requires Orderly(q) && InOrder(q) && Older(q, now) && Legal(q, op)
    requires !op.Leave? ==> op.data == now
    ensures InOrder(Apply(q, op)) && Older(Apply(q, op), now + 1)
  {
    hide InOrder, Sorted, Distinct, Enqueue, Without;
    var p := if op.Join? then q else Without(q, op.tid);
    if !op.Join? {
      WithoutInOrder(q, op.tid);
      LeaveOrderly(q, op.tid);
      WithoutMembers(q, op.tid);
    }
    if !op.Leave? {
      var w := Waiter(op.tid, op.prio, op.data);
      EnqueueInOrder(p, w);
      EnqueueMembers(p, w);
    }
  }

  lemma {:induction false} RunInOrder(q: seq<Waiter<nat>>, ops: seq<Op<nat>>, now: nat)
    requires Orderly(q) && InOrder(q) && Older(q, now)
    requires LegalRun(q, ops) && Timed(ops, now)
    ensures Orderly(Run(q, ops)) && InOrder(Run(q, ops))
    decreases |ops|
  {
    if ops != [] {
      ApplyOrderly(q, ops[0]);
      ApplyInOrder(q, ops[0], now);
      RunInOrder(Apply(q, ops[0]), ops[1..], now + 1);
    }
  }

  /** How thread `tid` stands after the operations: as it last joined or was moved, if it has not left
      since; `was` says how it stood before. */
  ghost function Standing<T>(ops: seq<Op<T>>, tid: Tid, was: seq<Waiter<T>>): seq<Waiter<T>>
    decreases |ops|
  {
    if ops == [] then was
    else
      Standing(ops[1..], tid,
               if ops[0].tid != tid then was
               else if ops[0].Leave? then []
               else [Waiter(tid, ops[0].prio, ops[0].data)])
  }

  lemma ApplyMembers<T>(q: seq<Waiter<T>>, op: Op<T>)
    requires Legal(q, op)
    ensures forall w :: w in Apply(q, op) <==>
              if w.tid != op.tid then w in q else !op.Leave? && w == Waiter(op.tid, op.prio, op.data)
  {
    WithoutMembers(q, op.tid);
    if !op.Leave? {
      EnqueueMembers(if op.Join? then q else Without(q, op.tid), Waiter(op.tid, op.prio, op.data));
    }
    hide Enqueue, Without;
  }

  /** The queue holds exactly the threads that have joined and not left, each at the priority it was
      given last. */
  lemma {:induction false} RunMembers<T>(q: seq<Waiter<T>>, ops: seq<Op<T>>, tid: Tid, was: seq<Waiter<T>>)
    requires LegalRun(q, ops) && forall w: Waiter<T> :: w.tid == tid ==> (w in q <==> w in was)
    ensures forall w: Waiter<T> :: w.tid == tid ==> (w in Run(q, ops) <==> w in Standing(ops, tid, was))
    decreases |ops|
  {
    if ops != [] {
      ApplyMembers(q, ops[0]);
      var now := if ops[0].tid != tid then was
                 else if ops[0].Leave? then []
                 else [Waiter(tid, ops[0].prio, ops[0].data)];
      hide Apply, Legal;
      RunMembers(Apply(q, ops[0]), ops[1..], tid, now);
    }
  }

  /** In every run: the queue holds who has joined and not left, at the priority given last; the best
      thread is the most urgent one, and of the equally urgent the one that joined, or was given its
      priority, earliest. */
  lemma BestIsOldest(ops: seq<Op<nat>>)
    requires LegalRun([], ops) && Timed(ops, 0)
    ensures forall w :: w in Run([], ops) <==> w in Standing(ops, w.tid, [])
    ensures var q := Run([], ops);
            && (Best(q).None? <==> q == [])
            && (q != [] ==> q[0].tid == Best(q).tid && forall w | w in q && w != q[0] :: Before(q[0], w))
  {
    RunInOrder([], ops, 0);
    forall w ensures w in Run([], ops) <==> w in Standing(ops, w.tid, []) {
      RunMembers([], ops, w.tid, []);
    }
  }
}

/** The sorted list. */
module ListQueue {
  import opened WaitQueue
  import opened RunQueue

  lemma {:induction false} UnlinkIsLeave(q: seq<Waiter<()>>, i: nat, tid: Tid)
    requires Distinct(q) && i <= |q| && forall j | 0 <= j < i :: q[j].tid != tid
    requires i < |q| ==> q[i].tid == tid
    ensures Without(q, tid) == if i < |q| then q[..i] + q[i + 1..] else q
  {
    if i == 0 {
      if q != [] {
        WithoutAbsent(q[1..], tid);
      }
    } else {
      UnlinkIsLeave(q[1..], i - 1, tid);
    }
  }

  class DumbQueue {
    var list: seq<Waiter<()>>

    constructor ()
      ensures list == []
    {
      list := [];
    }

    method AddThread(tid: Tid, prio: int)
      modifies this
      ensures list == Apply(old(list), Join(tid, prio, ()))
    {
      list := Add(list, Waiter(tid, prio, ()));
    }

    /** Unlinks the thread's node; a thread is linked in at most once. */
    method RemoveThread(tid: Tid)
      requires Distinct(list)
      modifies this
      ensures list == Apply(old(list), Leave(tid))
    {
      var i := 0;
      while i < |list| && list[i].tid != tid
        invariant 0 <= i <= |list| && list == old(list)
        invariant forall j | 0 <= j < i :: list[j].tid != tid
      {
        i := i + 1;
      }
      UnlinkIsLeave(list, i, tid);
      if i < |list| {
        list := list[..i] + list[i + 1..];
      }
    }

    /** Some thread unless the list is empty, and none is more urgent. */
    method BestThread() returns (r: Choice)
      ensures r == Best(list)
      ensures r.None? <==> list == []
      ensures Sorted(list) && r.Some? ==>
                exists w :: w in list && w.tid == r.tid && forall x | x in list :: w.prio <= x.prio
    {
      if list != [] && Sorted(list) {
        assert list[0] in list && forall x | x in list :: list[0].prio <= x.prio;
      }
      r := if list == [] then None else Some(list[0].tid);
    }
  }
}
