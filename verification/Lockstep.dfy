/** The three run queues side by side: whichever is built in, the scheduler sees the same thing. */
module Lockstep {
  import opened WaitQueue
  import opened RunQueue
  import opened ListQueue
  import opened MultiQueue
  import B = RbQueue
  import T = TreeQueue

  /** What an observer asking for the best thread after every operation gets to see. */
  function Bests(q: seq<Waiter<()>>, ops: seq<Op<()>>): seq<Choice>
    decreases |ops|
  {
    if ops == [] then [] else [Best(Apply(q, ops[0]))] + Bests(Apply(q, ops[0]), ops[1..])
  }

  ghost predicate AllShow(l: DumbQueue, m: MqQueue, r: B.RbQueue, q: seq<Waiter<()>>)
    reads l, m, m.queues, r
  {
    && l.list == q
    && m.Valid() && m.View() == q
    && r.Sound() && T.Strip(r.View().tree) == q
  }

  /** Takes a thread of priority `prio` off all three queues. */
  method LeaveAll(l: DumbQueue, m: MqQueue, r: B.RbQueue, tid: Tid, prio: int)
    requires AllShow(l, m, r, l.list) && Orderly(l.list) && Waiter(tid, prio, ()) in l.list
    modifies l, m, m.queues, r
    ensures AllShow(l, m, r, Without(old(l.list), tid))
    ensures r.View() == T.Left(old(r.View()), tid)
  {
    hide T.Valid, T.Strip, Flat;
    T.StripHas(r.View().tree, tid);
    T.StripWithout(r.View().tree, tid);
    l.RemoveThread(tid);
    m.RemoveThread(tid, prio);
    r.RemoveThread(tid);
  }

  /** Adds a thread to all three queues. */
  method JoinAll(l: DumbQueue, m: MqQueue, r: B.RbQueue, tid: Tid, prio: int)
    requires AllShow(l, m, r, l.list) && !Has(l.list, tid) && m.highest <= prio < m.highest + 32
    requires |r.View().tree| < T.KEYS - 1 && T.InTurn(r.View(), prio)
    modifies l, m, m.queues, r
    ensures AllShow(l, m, r, Enqueue(old(l.list), Waiter(tid, prio, ())))
    ensures r.View() == T.Joined(old(r.View()), tid, prio)
  {
    hide T.Valid, T.Strip, Flat, T.InTurn, T.Joined;
    T.StripHas(r.View().tree, tid);
    T.JoinedIsJoinIff(r.View(), tid, prio);
    l.AddThread(tid, prio);
    m.AddThread(tid, prio);
    r.AddThread(tid, prio);
  }

  method BestOfAll(l: DumbQueue, m: MqQueue, r: B.RbQueue) returns (a: Choice, b: Choice, c: Choice)
    requires AllShow(l, m, r, l.list)
    ensures a == b == c == Best(l.list)
  {
    a := l.BestThread();
    b := m.BestThread();
    c := r.BestThread();
  }

  /** The priority map knows every queued thread. */
  ghost predicate Knows(prios: map<Tid, int>, q: seq<Waiter<()>>) {
    forall w | w in q :: w.tid in prios && prios[w.tid] == w.prio
  }

  lemma KnowsQueued(prios: map<Tid, int>, q: seq<Waiter<()>>, tid: Tid)
    requires Knows(prios, q) && Has(q, tid)
    ensures tid in prios && Waiter(tid, prios[tid], ()) in q
  {
    var w :| w in q && w.tid == tid;
    assert w.data == ();
  }

  lemma KnowsLeave(prios: map<Tid, int>, q: seq<Waiter<()>>, tid: Tid)
    requires Knows(prios, q)
    ensures Knows(prios, Without(q, tid))
  {
    WithoutMembers(q, tid);
    hide Without;
    forall w | w in Without(q, tid) ensures w.tid in prios && prios[w.tid] == w.prio {
      var i :| 0 <= i < |Without(q, tid)| && Without(q, tid)[i] == w;
      assert w in q;
    }
  }

  lemma KnowsJoin(prios: map<Tid, int>, q: seq<Waiter<()>>, w: Waiter<()>)
    requires Knows(prios, q) && !Has(q, w.tid)
    ensures Knows(prios[w.tid := w.prio], Enqueue(q, w))
  {
    hide Enqueue;
    EnqueueMembers(q, w);
  }

  lemma KnowsAfter(prios: map<Tid, int>, q: seq<Waiter<()>>, op: Op<()>)
    requires Knows(prios, q) && Orderly(q) && Legal(q, op)
    ensures Knows(if op.Leave? then prios else prios[op.tid := op.prio], Apply(q, op))
  {
    hide Knows, Enqueue, Without, Sorted, Distinct;
    var p := q;
    if !op.Join? {
      KnowsLeave(prios, q, op.tid);
      LeaveOrderly(q, op.tid);
      p := Without(q, op.tid);
    }
    if !op.Leave? {
      KnowsJoin(prios, p, Waiter(op.tid, op.prio, op.data));
    }
  }

  /** One operation on all three queues; `was` is the priority of a thread that is queued already. */
  method Perform(l: DumbQueue, m: MqQueue, r: B.RbQueue, op: Op<()>, was: int)
    requires AllShow(l, m, r, l.list) && Orderly(l.list)
    requires T.Allowed(r.View(), op) && T.OpInTurn(r.View(), op)
    requires !op.Leave? ==> m.highest <= op.prio < m.highest + 32
    requires !op.Join? ==> Waiter(op.tid, was, ()) in l.list
    modifies l, m, m.queues, r
    ensures AllShow(l, m, r, Apply(old(l.list), op))
    ensures r.View() == T.Step(old(r.View()), op)
  {
    hide T.Valid, T.Strip, Flat, T.InTurn, T.Joined, Sorted, Distinct, Enqueue, Without;
    if !op.Join? {
      T.WithoutShorter(r.View().tree, op.tid);
      LeaveOrderly(l.list, op.tid);
      LeaveAll(l, m, r, op.tid, was);
    }
    if !op.Leave? {
      assert op.data == ();
      JoinAll(l, m, r, op.tid, op.prio);
    }
  }

  /** Observational equality: over any sequence of add, remove and re-prioritise in which the tree's
      newcomers are in turn, the list, the multiqueue and the tree name the same best thread after
      every operation, and it is the one the ordered queue names. */
  method Observe(ops: seq<Op<()>>, highest: int)
    returns (ofList: seq<Choice>, ofMulti: seq<Choice>, ofTree: seq<Choice>)
    requires T.AllowedRun(T.State([], 0), ops) && T.InTurnRun(T.State([], 0), ops)
    requires forall i | 0 <= i < |ops| && !ops[i].Leave? :: highest <= ops[i].prio < highest + 32
    ensures ofList == Bests([], ops)
    ensures ofMulti == Bests([], ops)
    ensures ofTree == Bests([], ops)
  {
    hide T.Valid, T.Strip, Flat, T.Step, T.Allowed, T.OpInTurn, T.AllowedRun, T.InTurnRun, Sorted, Distinct,
         Bests, Knows, Apply;
    var l := new DumbQueue();
    var m := new MqQueue(highest);
    var r := new B.RbQueue();
    ofList, ofMulti, ofTree := [], [], [];
    var prios: map<Tid, int> := map[];
    Nothing();
    var i := 0;
    assert ops[i..] == ops;
    while i < |ops|
      invariant 0 <= i <= |ops| && m.highest == highest
      invariant fresh(l) && fresh(m) && fresh(m.queues) && fresh(r)
      invariant AllShow(l, m, r, l.list) && Orderly(l.list) && Knows(prios, l.list)
      invariant T.AllowedRun(r.View(), ops[i..]) && T.InTurnRun(r.View(), ops[i..])
      invariant ofList == ofMulti == ofTree && ofList + Bests(l.list, ops[i..]) == Bests([], ops)
    {
      var op := ops[i];
      Advance(r.View(), l.list, ops, i, ofList);
      AllowedLegal(r.View(), l.list, op);
      KnowsAfter(prios, l.list, op);
      ApplyOrderly(l.list, op);
      var was := 0;
      if !op.Join? {
        KnowsQueued(prios, l.list, op.tid);
        was := prios[op.tid];
      }
      Perform(l, m, r, op, was);
      if !op.Leave? {
        prios := prios[op.tid := op.prio];
      }
      var x, y, z := BestOfAll(l, m, r);
      ofList, ofMulti, ofTree := ofList + [x], ofMulti + [y], ofTree + [z];
      i := i + 1;
    }
    BestsDone(l.list, ops, ofList);
  }

  lemma Nothing()
    ensures T.Strip([]) == [] && Orderly<()>([]) && Knows(map[], []) && forall s: seq<Choice> :: [] + s == s
  {
  }

  lemma Advance(s: T.State, q: seq<Waiter<()>>, ops: seq<Op<()>>, i: nat, a: seq<Choice>)
    requires i < |ops| && T.AllowedRun(s, ops[i..]) && T.InTurnRun(s, ops[i..])
    ensures T.Allowed(s, ops[i]) && T.OpInTurn(s, ops[i])
    ensures T.AllowedRun(T.Step(s, ops[i]), ops[i + 1..]) && T.InTurnRun(T.Step(s, ops[i]), ops[i + 1..])
    ensures a + Bests(q, ops[i..]) == a + [Best(Apply(q, ops[i]))] + Bests(Apply(q, ops[i]), ops[i + 1..])
  {
    hide T.Allowed, T.OpInTurn, T.Step, Apply;
    assert ops[i..][0] == ops[i] && ops[i..][1..] == ops[i + 1..];
    Assoc(a, [Best(Apply(q, ops[i]))], Bests(Apply(q, ops[i]), ops[i + 1..]));
  }

  lemma BestsDone(q: seq<Waiter<()>>, ops: seq<Op<()>>, a: seq<Choice>)
    ensures a + Bests(q, ops[|ops|..]) == a
  {
  }

  lemma AllowedLegal(s: T.State, q: seq<Waiter<()>>, op: Op<()>)
    requires T.Allowed(s, op) && T.Strip(s.tree) == q
    ensures Legal(q, op)
  {
  }
}
