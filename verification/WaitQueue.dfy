/** Wait queues of pended threads: a list kept in priority order, first-in first-out among
    threads of equal priority.  A numerically smaller priority is more urgent.  Every blocking
    kernel object of this project queues its callers here. */
module WaitQueue {

  type Tid = nat

  /** A pended thread: its identity, its priority and what its `swap_data` refers to. */
  datatype Waiter<T> = Waiter(tid: Tid, prio: int, data: T)

  ghost predicate Sorted<T>(q: seq<Waiter<T>>) {
    forall i, j | 0 <= i < j < |q| :: q[i].prio <= q[j].prio
  }

  ghost predicate Distinct<T>(q: seq<Waiter<T>>) {
    forall i, j | 0 <= i < j < |q| :: q[i].tid != q[j].tid
  }

  /** The waiters of one priority, in queue order. */
  ghost function OfPrio<T>(q: seq<Waiter<T>>, p: int): seq<Waiter<T>> {
    if q == [] then []
    else if q[0].prio == p then [q[0]] + OfPrio(q[1..], p)
    else OfPrio(q[1..], p)
  }

  /** Where a newcomer of priority `p` goes: behind everyone at least as urgent. */
  function Slot<T>(q: seq<Waiter<T>>, p: int): (k: nat)
    ensures k <= |q|
    ensures forall i | 0 <= i < k :: q[i].prio <= p
    ensures k < |q| ==> p < q[k].prio
  {
    if q == [] || p < q[0].prio then 0 else 1 + Slot(q[1..], p)
  }

  lemma {:induction false} SlotUnique<T>(q: seq<Waiter<T>>, p: int, k: nat)
    requires k <= |q| && forall i | 0 <= i < k :: q[i].prio <= p
    requires k < |q| ==> p < q[k].prio
    ensures Slot(q, p) == k
  {
    if k > 0 {
      SlotUnique(q[1..], p, k - 1);
    }
  }

  function Enqueue<T>(q: seq<Waiter<T>>, w: Waiter<T>): seq<Waiter<T>> {
    var k := Slot(q, w.prio);
    q[..k] + [w] + q[k..]
  }

  /** A newcomer passes the head or becomes it. */
  lemma EnqueueStep<T>(q: seq<Waiter<T>>, w: Waiter<T>)
    ensures Enqueue(q, w) == if q != [] && q[0].prio <= w.prio then [q[0]] + Enqueue(q[1..], w) else [w] + q
  {
  }

  /** The queue without thread `tid`. */
  function Without<T>(q: seq<Waiter<T>>, tid: Tid): seq<Waiter<T>> {
    if q == [] then []
    else if q[0].tid == tid then Without(q[1..], tid)
    else [q[0]] + Without(q[1..], tid)
  }

  /** `_priq_dumb_add`: walk to the first strictly less urgent thread and link in front of it,
      or append. */
  method Add<T>(q: seq<Waiter<T>>, w: Waiter<T>) returns (r: seq<Waiter<T>>)
    ensures r == Enqueue(q, w)
  {
    var i := 0;
    while i < |q|
      invariant 0 <= i <= |q|
      invariant Slot(q, w.prio) == i + Slot(q[i..], w.prio)
    {
      if w.prio < q[i].prio {
        return q[..i] + [w] + q[i..];
      }
      assert q[i..][1..] == q[i + 1..];
      i := i + 1;
    }
    assert q[..|q|] == q && q[|q|..] == [];
    r := q + [w];
  }

  lemma EnqueueSorted<T>(q: seq<Waiter<T>>, w: Waiter<T>)
    requires Sorted(q)
    ensures Sorted(Enqueue(q, w))
  {
  }

  lemma InsertedMembers<T>(q: seq<Waiter<T>>, k: nat, w: Waiter<T>)
    requires k <= |q|
    ensures forall x :: x in q[..k] + [w] + q[k..] <==> x in q || x == w
  {
    assert q == q[..k] + q[k..];
  }

  lemma InsertedDistinct<T>(q: seq<Waiter<T>>, k: nat, w: Waiter<T>)
    requires k <= |q| && Distinct(q) && forall x | x in q :: x.tid != w.tid
    ensures Distinct(q[..k] + [w] + q[k..])
  {
    assert forall i | 0 <= i < |q| :: q[i] in q;
  }

  lemma EnqueueMembers<T>(q: seq<Waiter<T>>, w: Waiter<T>)
    ensures forall x :: x in Enqueue(q, w) <==> x in q || x == w
    ensures Distinct(q) && (forall x | x in q :: x.tid != w.tid) ==> Distinct(Enqueue(q, w))
  {
    hide Distinct;
    InsertedMembers(q, Slot(q, w.prio), w);
    if Distinct(q) && forall x | x in q :: x.tid != w.tid {
      InsertedDistinct(q, Slot(q, w.prio), w);
    }
  }

  lemma {:induction false} WithoutMembers<T>(q: seq<Waiter<T>>, tid: Tid)
    ensures forall i | 0 <= i < |Without(q, tid)| :: Without(q, tid)[i] in q && Without(q, tid)[i].tid != tid
    ensures forall x | x in q && x.tid != tid :: x in Without(q, tid)
  {
    if q != [] {
      WithoutMembers(q[1..], tid);
      assert q == [q[0]] + q[1..];
    }
  }

  lemma {:induction false} WithoutSorted<T>(q: seq<Waiter<T>>, tid: Tid)
    requires Sorted(q)
    ensures Sorted(Without(q, tid))
  {
    if q != [] {
      var r := Without(q[1..], tid);
      WithoutSorted(q[1..], tid);
      WithoutMembers(q[1..], tid);
      assert forall x | x in q[1..] :: q[0].prio <= x.prio;
      assert forall i | 0 <= i < |r| :: q[0].prio <= r[i].prio;
    }
  }

  lemma {:induction false} WithoutDistinct<T>(q: seq<Waiter<T>>, tid: Tid)
    requires Distinct(q)
    ensures Distinct(Without(q, tid))
  {
    if q != [] {
      var r := Without(q[1..], tid);
      WithoutDistinct(q[1..], tid);
      WithoutMembers(q[1..], tid);
      assert forall x | x in q[1..] :: q[0].tid != x.tid;
      assert forall i | 0 <= i < |r| :: q[0].tid != r[i].tid;
    }
  }

  lemma {:induction false} WithoutAbsent<T>(q: seq<Waiter<T>>, tid: Tid)
    requires forall i | 0 <= i < |q| :: q[i].tid != tid
    ensures Without(q, tid) == q
  {
    if q != [] {
      WithoutAbsent(q[1..], tid);
    }
  }

  // ------------------------------------------------------- parts of a queue

  /** `r` consists of the elements of `q` at the places `at`, in order. */
  ghost predicate Places<T>(q: seq<T>, at: seq<nat>, r: seq<T>) {
    && |at| == |r|
    && (forall i | 0 <= i < |r| :: at[i] < |q| && r[i] == q[at[i]])
    && (forall i, j | 0 <= i < j < |r| :: at[i] < at[j])
  }

  /** `r` consists of exactly those elements of `q` that `keep` holds of, in their order. */
  ghost predicate Chosen<T>(q: seq<T>, keep: T -> bool, r: seq<T>) {
    exists at :: Places(q, at, r) && forall k | 0 <= k < |q| :: k in at <==> keep(q[k])
  }

  lemma ChosenNone<T>(keep: T -> bool)
    ensures Chosen([], keep, [])
  {
    assert Places<T>([], [], []);
  }

  ghost function Later(at: seq<nat>): (r: seq<nat>)
    ensures |r| == |at| && forall i | 0 <= i < |at| :: r[i] == at[i] + 1
  {
    seq(|at|, i requires 0 <= i < |at| => at[i] + 1)
  }

  lemma LaterMembers(at: seq<nat>, k: nat)
    ensures k in Later(at) <==> k > 0 && k - 1 in at
  {
    if k > 0 && k - 1 in at {
      var i :| 0 <= i < |at| && at[i] == k - 1;
      assert Later(at)[i] == k;
    }
  }

  lemma PlacesLater<T>(q: seq<T>, at: seq<nat>, r: seq<T>)
    requires q != [] && Places(q[1..], at, r)
    ensures Places(q, Later(at), r) && Places(q, [0] + Later(at), [q[0]] + r)
  {
    forall i | 0 <= i < |r| ensures Later(at)[i] < |q| && r[i] == q[Later(at)[i]] {
      assert r[i] == q[1..][at[i]];
    }
  }

  lemma ChosenCons<T>(q: seq<T>, keep: T -> bool, r: seq<T>)
    requires q != [] && Chosen(q[1..], keep, r)
    ensures Chosen(q, keep, if keep(q[0]) then [q[0]] + r else r)
  {
    var at :| Places(q[1..], at, r) && forall k | 0 <= k < |q[1..]| :: k in at <==> keep(q[1..][k]);
    PlacesLater(q, at, r);
    var all := if keep(q[0]) then [0] + Later(at) else Later(at);
    hide Places, Later;
    forall k | 0 <= k < |q| ensures k in all <==> keep(q[k]) {
      LaterMembers(at, k);
      assert k > 0 ==> q[k] == q[1..][k - 1];
    }
  }

  /** Being chosen says who is in, and pins the order. */
  lemma ChosenMembers<T>(q: seq<T>, keep: T -> bool, r: seq<T>)
    requires Chosen(q, keep, r)
    ensures forall w :: w in r <==> w in q && keep(w)
  {
    var at :| Places(q, at, r) && forall k | 0 <= k < |q| :: k in at <==> keep(q[k]);
    forall w | w in r ensures w in q && keep(w) {
      var i :| 0 <= i < |r| && r[i] == w;
      assert at[i] in at;
    }
    forall w | w in q && keep(w) ensures w in r {
      var k :| 0 <= k < |q| && q[k] == w;
      var i :| 0 <= i < |at| && at[i] == k;
      assert r[i] == w;
    }
  }

  lemma {:induction false} WithoutChosen<T>(q: seq<Waiter<T>>, tid: Tid)
    ensures Chosen(q, (w: Waiter<T>) => w.tid != tid, Without(q, tid))
  {
    var keep := (w: Waiter<T>) => w.tid != tid;
    if q == [] {
      ChosenNone(keep);
    } else {
      WithoutChosen(q[1..], tid);
      ChosenCons(q, keep, Without(q[1..], tid));
    }
  }

  /** `r` is `q` with `w` behind everyone at least as urgent and in front of everyone less urgent. */
  ghost predicate Joins<T>(q: seq<Waiter<T>>, w: Waiter<T>, r: seq<Waiter<T>>) {
    exists k ::
      && 0 <= k <= |q| && r == q[..k] + [w] + q[k..]
      && (forall i | 0 <= i < k :: q[i].prio <= w.prio) && (forall i | k <= i < |q| :: w.prio < q[i].prio)
  }

  lemma EnqueueJoins<T>(q: seq<Waiter<T>>, w: Waiter<T>)
    requires Sorted(q)
    ensures Joins(q, w, Enqueue(q, w))
  {
    BehindSlot(q, w.prio);
  }

  lemma Assoc<T>(a: seq<T>, b: seq<T>, c: seq<T>)
    ensures (a + b) + c == a + (b + c)
  {
  }

  lemma {:induction false} OfPrioConcat<T>(a: seq<Waiter<T>>, b: seq<Waiter<T>>, p: int)
    ensures OfPrio(a + b, p) == OfPrio(a, p) + OfPrio(b, p)
  {
    if a == [] {
      assert a + b == b;
    } else {
      assert (a + b)[1..] == a[1..] + b;
      OfPrioConcat(a[1..], b, p);
      Assoc([a[0]], OfPrio(a[1..], p), OfPrio(b, p));
    }
  }

  lemma {:induction false} OfPrioNone<T>(q: seq<Waiter<T>>, p: int)
    requires forall i | 0 <= i < |q| :: q[i].prio != p
    ensures OfPrio(q, p) == []
  {
    if q != [] {
      OfPrioNone(q[1..], p);
    }
  }

  lemma OfPrioInsert<T>(a: seq<Waiter<T>>, w: Waiter<T>, b: seq<Waiter<T>>, p: int)
    ensures OfPrio(a + [w] + b, p) == OfPrio(a, p) + (if w.prio == p then [w] else []) + OfPrio(b, p)
  {
    OfPrioConcat(a + [w], b, p);
    OfPrioConcat(a, [w], p);
    assert OfPrio([w], p) == if w.prio == p then [w] else [];
  }

  /** Everyone behind the newcomer is strictly less urgent. */
  lemma BehindSlot<T>(q: seq<Waiter<T>>, p: int)
    requires Sorted(q)
    ensures forall i | Slot(q, p) <= i < |q| :: p < q[i].prio
    ensures OfPrio(q[Slot(q, p)..], p) == []
  {
    var b := q[Slot(q, p)..];
    assert forall i | 0 <= i < |b| :: b[i] == q[Slot(q, p) + i];
    OfPrioNone(b, p);
  }

  /** Among equals the newcomer is last; nobody of another priority moves relative to their peers. */
  lemma EnqueueFifo<T>(q: seq<Waiter<T>>, w: Waiter<T>, p: int)
    requires Sorted(q)
    ensures OfPrio(Enqueue(q, w), p) == OfPrio(q, p) + (if w.prio == p then [w] else [])
  {
    hide Sorted, OfPrio;
    var k := Slot(q, w.prio);
    BehindSlot(q, w.prio);
    OfPrioInsert(q[..k], w, q[k..], p);
    assert q == q[..k] + q[k..];
    OfPrioConcat(q[..k], q[k..], p);
  }

  /** Priority order together with the per-priority arrival order pins the whole queue down. */
  lemma {:induction false} SortedFifoUnique<T>(a: seq<Waiter<T>>, b: seq<Waiter<T>>)
    requires Sorted(a) && Sorted(b)
    requires forall p :: OfPrio(a, p) == OfPrio(b, p)
    ensures a == b
  {
    if a != [] {
      var p := a[0].prio;
      assert OfPrio(a, p)[0] == a[0];
      HeadOfPrio(b, p);
      HeadOfPrio(a, b[0].prio);
      assert OfPrio(a, b[0].prio) == OfPrio(b, b[0].prio) != [];
      assert b[0] == OfPrio(b, p)[0] == a[0];
      forall p' ensures OfPrio(a[1..], p') == OfPrio(b[1..], p') {
        var h := if p == p' then [a[0]] else [];
        assert h + OfPrio(a[1..], p') == OfPrio(a, p') == OfPrio(b, p') == h + OfPrio(b[1..], p');
        assert OfPrio(a[1..], p') == (h + OfPrio(a[1..], p'))[|h|..];
        assert OfPrio(b[1..], p') == (h + OfPrio(b[1..], p'))[|h|..];
      }
      SortedFifoUnique(a[1..], b[1..]);
      assert a == [a[0]] + a[1..] && b == [b[0]] + b[1..];
    }
  }

  lemma {:induction false} HeadOfPrio<T>(q: seq<Waiter<T>>, p: int)
    requires Sorted(q)
    ensures OfPrio(q, p) != [] ==> q != [] && q[0].prio <= p
    ensures OfPrio(q, p) == [] ==> forall i | 0 <= i < |q| :: q[i].prio != p
  {
    if q != [] {
      HeadOfPrio(q[1..], p);
      if OfPrio(q[1..], p) != [] {
        assert q[1].prio <= p;
      }
    }
  }
}
