/** The tree queue: an ordered tree whose nodes are compared by priority and then by an order key
    taken from a 32-bit counter.  Here the tree is the ordered sequence of its nodes; `RbTree` and
    `RbQueue` are the balanced tree that holds them. */
module TreeQueue {
  import opened WaitQueue
  import opened RunQueue

  /** How many order keys there are. */
  const KEYS: nat := 0x1_0000_0000

  /** Counting up in 32 bits. */
  function NextKey(k: nat): nat {
    if k + 1 == KEYS then 0 else k + 1
  }

  /** `next` is the key the next thread gets. */
  datatype State = State(tree: seq<Waiter<nat>>, next: nat)

  /** `_priq_rb_lessthan`. */
  predicate LessThan(a: Waiter<nat>, b: Waiter<nat>) {
    if a.prio < b.prio then true
    else if b.prio < a.prio then false
    else a.data < b.data
  }

  /** The comparator is a strict total order on nodes that differ in priority or key, and it is the
      order by urgency and age. */
  lemma LessThanTotal(a: Waiter<nat>, b: Waiter<nat>, c: Waiter<nat>)
    ensures LessThan(a, b) <==> Before(a, b)
    ensures !LessThan(a, a)
    ensures LessThan(a, b) ==> !LessThan(b, a)
    ensures LessThan(a, b) && LessThan(b, c) ==> LessThan(a, c)
    ensures (a.prio, a.data) != (b.prio, b.data) ==> LessThan(a, b) || LessThan(b, a)
  {
  }

  /** Where the comparator puts a new node. */
  function Place(q: seq<Waiter<nat>>, w: Waiter<nat>): (k: nat)
    ensures k <= |q|
    ensures forall i | 0 <= i < k :: !LessThan(w, q[i])
    ensures k < |q| ==> LessThan(w, q[k])
  {
    if q == [] || LessThan(w, q[0]) then 0 else 1 + Place(q[1..], w)
  }

  function Insert(q: seq<Waiter<nat>>, w: Waiter<nat>): seq<Waiter<nat>> {
    q[..Place(q, w)] + [w] + q[Place(q, w)..]
  }

  /** Keys replaced by positions. */
  function Renumbered(q: seq<Waiter<nat>>): seq<Waiter<nat>> {
    seq(|q|, i requires 0 <= i < |q| => q[i].(data := i))
  }

  function Joined(s: State, tid: Tid, prio: int): State {
    if s.next + 1 < KEYS then State(Insert(s.tree, Waiter(tid, prio, s.next)), s.next + 1)
    else State(Insert(Renumbered(s.tree), Waiter(tid, prio, s.next)), |s.tree|)
  }

  function Left(s: State, tid: Tid): State {
    var t := Without(s.tree, tid);
    State(t, if t == [] then 0 else s.next)
  }

  function Step(s: State, op: Op<()>): State {
    match op
    case Join(tid, prio, _) => Joined(s, tid, prio)
    case Leave(tid) => Left(s, tid)
    case Move(tid, prio, _) => Joined(Left(s, tid), tid, prio)
  }

  // ------------------------------------------------------------ invariant

  /** Keys already given out: below the counter, or the last one before it wrapped. */
  ghost predicate Issued(q: seq<Waiter<nat>>, next: nat) {
    forall w | w in q :: w.data < next || w.data == KEYS - 1
  }

  ghost predicate Valid(s: State) {
    s.next < KEYS && InOrder(s.tree) && Distinct(s.tree) && Issued(s.tree, s.next)
  }

  /** A newcomer of priority `p` would get a key above those of its equals: either the counter is
      about to wrap, or none of them still holds the key from the last wrap. */
  predicate InTurn(s: State, p: int) {
    s.next == KEYS - 1 || forall w | w in s.tree && w.prio == p :: w.data != KEYS - 1
  }

  /** The queue as the scheduler sees it. */
  function Strip(q: seq<Waiter<nat>>): seq<Waiter<()>> {
    seq(|q|, i requires 0 <= i < |q| => Waiter(q[i].tid, q[i].prio, ()))
  }

  /** Renumbering keeps every thread where it is and the nodes in comparator order. */
  lemma RenumberKeepsOrder(q: seq<Waiter<nat>>)
    requires InOrder(q)
    ensures InOrder(Renumbered(q)) && Strip(Renumbered(q)) == Strip(q)
    ensures Issued(Renumbered(q), |q|)
    ensures forall w | w in Renumbered(q) :: w.data < |q|
  {
  }

  lemma RenumberDistinct(q: seq<Waiter<nat>>)
    requires Distinct(q)
    ensures Distinct(Renumbered(q))
    ensures forall tid :: Has(Renumbered(q), tid) ==> Has(q, tid)
  {
    var r := Renumbered(q);
    forall tid | Has(r, tid) ensures Has(q, tid) {
      var w :| w in r && w.tid == tid;
      var i :| 0 <= i < |r| && r[i] == w;
      assert q[i] in q;
    }
  }

  /** The tree as the insertion finds it. */
  function Ready(s: State): seq<Waiter<nat>> {
    if s.next + 1 < KEYS then s.tree else Renumbered(s.tree)
  }

  lemma InsertMembers(q: seq<Waiter<nat>>, w: Waiter<nat>)
    ensures forall x :: x in Insert(q, w) <==> x in q || x == w
    ensures Distinct(q) && !Has(q, w.tid) ==> Distinct(Insert(q, w))
  {
    hide Distinct, Place;
    InsertedMembers(q, Place(q, w), w);
    if Distinct(q) && !Has(q, w.tid) {
      InsertedDistinct(q, Place(q, w), w);
    }
  }

  /** Inserting by the comparator keeps the nodes in order when no node compares equal. */
  lemma InsertKeepsOrder(q: seq<Waiter<nat>>, w: Waiter<nat>)
    requires InOrder(q)
    requires forall x | x in q && x.prio == w.prio :: x.data != w.data
    ensures InOrder(Insert(q, w))
  {
    var k := Place(q, w);
    forall i | 0 <= i < k ensures Before(q[i], w) {
      assert q[i] in q && !LessThan(w, q[i]);
    }
    forall i | k <= i < |q| ensures Before(w, q[i]) {
      assert LessThan(w, q[k]);
      assert i > k ==> Before(q[k], q[i]);
    }
    hide InOrder, Before;
    InsertInOrder(q, k, w);
  }

  lemma ReadyKeeps(s: State)
    requires Valid(s) && |s.tree| < KEYS - 1
    ensures InOrder(Ready(s)) && Distinct(Ready(s)) && Strip(Ready(s)) == Strip(s.tree)
    ensures forall w | w in Ready(s) :: w.data != s.next
    ensures forall tid :: Has(Ready(s), tid) ==> Has(s.tree, tid)
  {
    hide InOrder, Distinct;
    if s.next + 1 == KEYS {
      RenumberKeepsOrder(s.tree);
      RenumberDistinct(s.tree);
    }
  }

  lemma JoinedValid(s: State, tid: Tid, prio: int)
    requires Valid(s) && !Has(s.tree, tid) && |s.tree| < KEYS - 1
    ensures Valid(Joined(s, tid, prio))
  {
    hide InOrder, Distinct, Insert;
    ReadyKeeps(s);
    if s.next + 1 == KEYS {
      RenumberKeepsOrder(s.tree);
    }
    var w := Waiter(tid, prio, s.next);
    InsertMembers(Ready(s), w);
    InsertKeepsOrder(Ready(s), w);
  }

  lemma LeftValid(s: State, tid: Tid)
    requires Valid(s)
    ensures Valid(Left(s, tid)) && !Has(Left(s, tid).tree, tid)
  {
    hide InOrder, Distinct;
    WithoutInOrder(s.tree, tid);
    WithoutDistinct(s.tree, tid);
    WithoutMembers(s.tree, tid);
  }

  // ---------------------------------------------------- against the queue

  lemma StripHas(q: seq<Waiter<nat>>, tid: Tid)
    ensures Has(Strip(q), tid) <==> Has(q, tid)
  {
    if Has(q, tid) {
      var i :| 0 <= i < |q| && q[i].tid == tid;
      assert Strip(q)[i] in Strip(q);
    }
    if Has(Strip(q), tid) {
      var i :| 0 <= i < |Strip(q)| && Strip(q)[i].tid == tid;
      assert q[i] in q;
    }
  }

  lemma StripCons(w: Waiter<nat>, q: seq<Waiter<nat>>)
    ensures Strip([w] + q) == [Waiter(w.tid, w.prio, ())] + Strip(q)
  {
  }

  lemma {:induction false} StripWithout(q: seq<Waiter<nat>>, tid: Tid)
    ensures Strip(Without(q, tid)) == Without(Strip(q), tid)
  {
    if q != [] {
      assert Strip(q)[1..] == Strip(q[1..]);
      StripWithout(q[1..], tid);
      var w := Waiter(q[0].tid, q[0].prio, ());
      StripCons(q[0], Without(q[1..], tid));
      assert Strip(q)[0] == w;
      hide Strip;
    }
  }

  /** No queued thread of the newcomer's priority holds a larger key. */
  predicate NoneAbove(q: seq<Waiter<nat>>, w: Waiter<nat>) {
    forall i | 0 <= i < |q| && q[i].prio == w.prio :: q[i].data <= w.data
  }

  lemma PlaceIsSlot(q: seq<Waiter<nat>>, w: Waiter<nat>)
    requires InOrder(q)
    ensures NoneAbove(q, w) ==> Place(q, w) == Slot(Strip(q), w.prio)
    ensures !NoneAbove(q, w) ==> Place(q, w) < Slot(Strip(q), w.prio)
  {
    var k, m := Place(q, w), Slot(Strip(q), w.prio);
    assert k < |q| ==> Strip(q)[k].prio == q[k].prio;
    assert m < |q| ==> Strip(q)[m].prio == q[m].prio;
    if !NoneAbove(q, w) {
      var i :| 0 <= i < |q| && q[i].prio == w.prio && q[i].data > w.data;
      assert LessThan(w, q[i]);
      assert k <= i;
      BehindSlot(Strip(q), w.prio);
      assert Strip(q)[i].prio == w.prio;
    }
  }

  lemma StripInsert(q: seq<Waiter<nat>>, k: nat, w: Waiter<nat>)
    requires k <= |q|
    ensures Strip(q[..k] + [w] + q[k..]) == Strip(q)[..k] + [Waiter(w.tid, w.prio, ())] + Strip(q)[k..]
  {
  }

  lemma EarlierDiffers(q: seq<Waiter<()>>, k: nat, m: nat, w: Waiter<()>)
    requires k < m <= |q| && !Has(q, w.tid)
    ensures q[..k] + [w] + q[k..] != q[..m] + [w] + q[m..]
  {
    assert (q[..k] + [w] + q[k..])[k] == w;
    assert (q[..m] + [w] + q[m..])[k] == q[k];
    assert q[k] in q;
  }

  /** The tree takes the newcomer in where the list would exactly when no equal holds a larger key. */
  lemma InsertIsJoinIff(q: seq<Waiter<nat>>, w: Waiter<nat>)
    requires InOrder(q) && !Has(q, w.tid)
    ensures Strip(Insert(q, w)) == Enqueue(Strip(q), Waiter(w.tid, w.prio, ())) <==> NoneAbove(q, w)
  {
    var k, m := Place(q, w), Slot(Strip(q), w.prio);
    PlaceIsSlot(q, w);
    StripHas(q, w.tid);
    hide InOrder, Has, NoneAbove, Strip;
    StripInsert(q, k, w);
    if !NoneAbove(q, w) {
      EarlierDiffers(Strip(q), k, m, Waiter(w.tid, w.prio, ()));
    }
  }

  /** When adding to the tree is first-in first-out: exactly when the newcomer is in turn. */
  lemma JoinedIsJoinIff(s: State, tid: Tid, prio: int)
    requires Valid(s) && !Has(s.tree, tid) && |s.tree| < KEYS - 1
    ensures Strip(Joined(s, tid, prio).tree) == Enqueue(Strip(s.tree), Waiter(tid, prio, ())) <==> InTurn(s, prio)
  {
    var w := Waiter(tid, prio, s.next);
    ReadyKeeps(s);
    InsertIsJoinIff(Ready(s), w);
    assert NoneAbove(Ready(s), w) <==> InTurn(s, prio) by {
      hide InOrder, Distinct;
      if s.next + 1 < KEYS {
        assert forall i | 0 <= i < |s.tree| :: s.tree[i] in s.tree;
      }
    }
  }

  // ----------------------------------------------------------------- runs

  /** The state in which an operation adds its thread. */
  function AddPoint(s: State, op: Op<()>): State
    requires !op.Leave?
  {
    if op.Join? then s else Left(s, op.tid)
  }

  ghost predicate OpInTurn(s: State, op: Op<()>) {
    op.Leave? || InTurn(AddPoint(s, op), op.prio)
  }

  /** A 32-bit machine does not hold as many threads as there are keys. */
  ghost predicate Allowed(s: State, op: Op<()>) {
    Legal(Strip(s.tree), op) && |s.tree| < KEYS - 1
  }

  lemma {:induction false} WithoutShorter<T>(q: seq<Waiter<T>>, tid: Tid)
    ensures |Without(q, tid)| <= |q|
  {
    if q != [] {
      WithoutShorter(q[1..], tid);
    }
  }

  lemma StepValid(s: State, op: Op<()>)
    requires Valid(s) && Allowed(s, op)
    ensures Valid(Step(s, op))
  {
    hide Valid;
    StripHas(s.tree, op.tid);
    if !op.Join? {
      LeftValid(s, op.tid);
      WithoutShorter(s.tree, op.tid);
    }
    if !op.Leave? {
      JoinedValid(AddPoint(s, op), op.tid, op.prio);
    }
  }

  /** One operation agrees with the list exactly when its thread is in turn. */
  lemma StepAgreesIff(s: State, op: Op<()>)
    requires Valid(s) && Allowed(s, op)
    ensures Strip(Step(s, op).tree) == Apply(Strip(s.tree), op) <==> OpInTurn(s, op)
  {
    hide Valid, Strip, Joined;
    StripHas(s.tree, op.tid);
    if !op.Join? {
      LeftValid(s, op.tid);
      WithoutShorter(s.tree, op.tid);
      StripWithout(s.tree, op.tid);
    }
    if !op.Leave? {
      assert op.data == ();
      JoinedIsJoinIff(AddPoint(s, op), op.tid, op.prio);
    }
  }

  ghost predicate AllowedRun(s: State, ops: seq<Op<()>>)
    decreases |ops|
  {
    ops != [] ==> Allowed(s, ops[0]) && AllowedRun(Step(s, ops[0]), ops[1..])
  }

  ghost predicate InTurnRun(s: State, ops: seq<Op<()>>)
    decreases |ops|
  {
    ops != [] ==> OpInTurn(s, ops[0]) && InTurnRun(Step(s, ops[0]), ops[1..])
  }

  /** The tree shows what the list would show, after every operation of the run. */
  ghost predicate Agrees(s: State, q: seq<Waiter<()>>, ops: seq<Op<()>>)
    decreases |ops|
  {
    Strip(s.tree) == q && (ops != [] ==> Agrees(Step(s, ops[0]), Apply(q, ops[0]), ops[1..]))
  }

  /** The tree queue and the sorted list agree all through a run exactly when every thread added in
      it was in turn. */
  lemma {:induction false} RunAgreesIff(s: State, ops: seq<Op<()>>)
    requires Valid(s) && AllowedRun(s, ops)
    ensures Agrees(s, Strip(s.tree), ops) <==> InTurnRun(s, ops)
    decreases |ops|
  {
    if ops != [] {
      StepAgreesIff(s, ops[0]);
      StepValid(s, ops[0]);
      RunAgreesIff(Step(s, ops[0]), ops[1..]);
    }
  }

  /** The counter has not wrapped: the last key has not been given out. */
  ghost predicate Fresh(s: State) {
    Valid(s) && forall w | w in s.tree :: w.data != KEYS - 1
  }

  /** No operation of the run makes the counter wrap. */
  ghost predicate NoWrap(s: State, ops: seq<Op<()>>)
    decreases |ops|
  {
    ops != [] ==>
      && (ops[0].Leave? || AddPoint(s, ops[0]).next + 1 < KEYS)
      && NoWrap(Step(s, ops[0]), ops[1..])
  }

  lemma StepFresh(s: State, op: Op<()>)
    requires Fresh(s) && Allowed(s, op)
    requires op.Leave? || AddPoint(s, op).next + 1 < KEYS
    ensures Fresh(Step(s, op)) && OpInTurn(s, op)
  {
    StepValid(s, op);
    hide Valid, InTurn;
    WithoutMembers(s.tree, op.tid);
    if !op.Leave? {
      var p := AddPoint(s, op);
      assert forall w | w in p.tree :: w.data != KEYS - 1;
      assert InTurn(p, op.prio);
      InsertMembers(p.tree, Waiter(op.tid, op.prio, p.next));
    }
  }

  lemma {:induction false} NoWrapInTurn(s: State, ops: seq<Op<()>>)
    requires Fresh(s) && AllowedRun(s, ops) && NoWrap(s, ops)
    ensures InTurnRun(s, ops)
    decreases |ops|
  {
    if ops != [] {
      StepFresh(s, ops[0]);
      NoWrapInTurn(Step(s, ops[0]), ops[1..]);
    }
  }

  /** As long as the counter does not wrap, the tree queue is the sorted list. */
  lemma TreeIsList(ops: seq<Op<()>>)
    requires AllowedRun(State([], 0), ops) && NoWrap(State([], 0), ops)
    ensures Agrees(State([], 0), [], ops)
  {
    NoWrapInTurn(State([], 0), ops);
    assert Strip([]) == [];
    RunAgreesIff(State([], 0), ops);
  }

  /** The queue once a thread that is to be moved, or to leave, has left; and how many threads were
      added since it was last emptied, `n` counting those up to now. */
  ghost function Emptier(q: seq<Waiter<()>>, op: Op<()>): seq<Waiter<()>> {
    if op.Join? then q else Without(q, op.tid)
  }

  ghost function Since(q: seq<Waiter<()>>, n: nat, op: Op<()>): nat {
    if !op.Join? && Emptier(q, op) == [] then 0 else n
  }

  /** Between two times that the queue is empty, fewer threads are added than there are keys. */
  ghost predicate OftenEmpty(q: seq<Waiter<()>>, n: nat, ops: seq<Op<()>>)
    decreases |ops|
  {
    ops != [] ==>
      var k := Since(q, n, ops[0]);
      && (ops[0].Leave? || k + 1 < KEYS)
      && OftenEmpty(Apply(q, ops[0]), if ops[0].Leave? then k else k + 1, ops[1..])
  }

  lemma StepCounts(s: State, op: Op<()>)
    requires Allowed(s, op)
    ensures !op.Leave? ==> AddPoint(s, op).next == Since(Strip(s.tree), s.next, op)
    ensures op.Leave? ==> Step(s, op).next == Since(Strip(s.tree), s.next, op)
    ensures !op.Leave? && AddPoint(s, op).next + 1 < KEYS ==> Step(s, op).next == Since(Strip(s.tree), s.next, op) + 1
  {
    StripWithout(s.tree, op.tid);
    assert |Strip(Without(s.tree, op.tid))| == |Without(s.tree, op.tid)|;
    hide Strip, Without, Insert;
  }

  lemma {:induction false} NoWrapIff(s: State, ops: seq<Op<()>>)
    requires Fresh(s) && AllowedRun(s, ops)
    ensures NoWrap(s, ops) <==> OftenEmpty(Strip(s.tree), s.next, ops)
    decreases |ops|
  {
    if ops != [] {
      hide Step, Apply, Strip, Allowed, Fresh, Since, AddPoint, OpInTurn, Valid;
      StepCounts(s, ops[0]);
      if ops[0].Leave? || AddPoint(s, ops[0]).next + 1 < KEYS {
        StepFresh(s, ops[0]);
        FreshValid(s);
        StepAgreesIff(s, ops[0]);
        NoWrapIff(Step(s, ops[0]), ops[1..]);
      }
    }
  }

  lemma FreshValid(s: State)
    requires Fresh(s)
    ensures Valid(s)
  {
  }

  /** Because the keys start over whenever the queue is empty, the counter wraps only if the queue goes
      without being empty for as many additions as there are keys; until then it is the sorted list. */
  lemma EmptyingRestarts(ops: seq<Op<()>>)
    requires AllowedRun(State([], 0), ops)
    ensures NoWrap(State([], 0), ops) <==> OftenEmpty([], 0, ops)
    ensures OftenEmpty([], 0, ops) ==> Agrees(State([], 0), [], ops)
  {
    assert Strip([]) == [];
    NoWrapIff(State([], 0), ops);
    if OftenEmpty([], 0, ops) {
      TreeIsList(ops);
    }
  }

  // ------------------------------------------------- always, wrap or not

  /** The same threads at the same priorities. */
  ghost predicate Same(q: seq<Waiter<()>>, t: seq<Waiter<nat>>) {
    forall x :: x in q <==> x in Strip(t)
  }

  lemma JoinedMembers(s: State, tid: Tid, prio: int)
    requires Valid(s) && |s.tree| < KEYS - 1
    ensures forall x :: x in Strip(Joined(s, tid, prio).tree) <==> x in Strip(s.tree) || x == Waiter(tid, prio, ())
  {
    ReadyKeeps(s);
    var q, w := Ready(s), Waiter(tid, prio, s.next);
    hide Strip, Valid;
    StripInsert(q, Place(q, w), w);
    InsertedMembers(Strip(q), Place(q, w), Waiter(tid, prio, ()));
  }

  lemma StepSame(s: State, q: seq<Waiter<()>>, op: Op<()>)
    requires Valid(s) && Allowed(s, op) && Same(q, s.tree)
    ensures Legal(q, op) && Same(Apply(q, op), Step(s, op).tree)
  {
    var p, t := q, s;
    if !op.Join? {
      LeftValid(s, op.tid);
      WithoutShorter(s.tree, op.tid);
      StripWithout(s.tree, op.tid);
      SameLeave(q, Strip(s.tree), op.tid);
      p, t := Without(q, op.tid), Left(s, op.tid);
    }
    if !op.Leave? {
      assert op.data == ();
      hide Strip, Valid;
      JoinedMembers(t, op.tid, op.prio);
      EnqueueMembers(p, Waiter(op.tid, op.prio, ()));
    }
  }

  lemma SameLeave(a: seq<Waiter<()>>, b: seq<Waiter<()>>, tid: Tid)
    requires forall x :: x in a <==> x in b
    ensures forall x :: x in Without(a, tid) <==> x in Without(b, tid)
  {
    WithoutMembers(a, tid);
    WithoutMembers(b, tid);
  }

  lemma SameBest(q: seq<Waiter<()>>, t: seq<Waiter<nat>>)
    requires Same(q, t) && Sorted(q) && InOrder(t)
    ensures (q == [] <==> t == []) && (q != [] ==> q[0].prio == t[0].prio)
  {
    if q != [] {
      assert q[0] in Strip(t);
    }
    if t != [] {
      assert Strip(t)[0] in Strip(t);
      assert Strip(t)[0] in q;
    }
  }

  lemma {:induction false} RunSame(s: State, q: seq<Waiter<()>>, ops: seq<Op<()>>)
    requires Valid(s) && AllowedRun(s, ops) && Orderly(q) && Same(q, s.tree)
    ensures Valid(RunTree(s, ops)) && Orderly(Run(q, ops)) && Same(Run(q, ops), RunTree(s, ops).tree)
    decreases |ops|
  {
    if ops != [] {
      StepSame(s, q, ops[0]);
      StepValid(s, ops[0]);
      ApplyOrderly(q, ops[0]);
      RunSame(Step(s, ops[0]), Apply(q, ops[0]), ops[1..]);
    }
  }

  /** In every run, through any number of wraps: the tree holds exactly the queued threads, its nodes
      are in comparator order, and its first thread is one of the most urgent. */
  lemma TreeAlwaysUrgent(ops: seq<Op<()>>)
    requires AllowedRun(State([], 0), ops)
    ensures var q, s := Run([], ops), RunTree(State([], 0), ops);
            && Valid(s)
            && Same(q, s.tree)
            && (q == [] <==> s.tree == [])
            && (q != [] ==> q[0].prio == s.tree[0].prio)
  {
    assert Strip([]) == [];
    RunSame(State([], 0), [], ops);
    SameBest(Run([], ops), RunTree(State([], 0), ops).tree);
  }

  ghost function RunTree(s: State, ops: seq<Op<()>>): State
    decreases |ops|
  {
    if ops == [] then s else RunTree(Step(s, ops[0]), ops[1..])
  }

  // --------------------------------------------------- past the last key

  /** Threads 0 and 1 of priority `p`, the second about to be given the last key. */
  function LastKey(p: int): State {
    State([Waiter(0, p, 0), Waiter(1, p, KEYS - 2)], KEYS - 1)
  }

  /** Past the last key: thread 1 keeps it while the counter starts over. */
  function Wrapped(p: int): State {
    State([Waiter(0, p, 0), Waiter(1, p, KEYS - 1)], 1)
  }

  function Again(n: nat, p: int): seq<Op<()>> {
    seq(n, _ => Move(1, p, ()))
  }

  lemma MoveOnce(p: int, k: nat)
    requires 0 < k
    ensures var s := State([Waiter(0, p, 0), Waiter(1, p, k)], k + 1);
            && (k + 2 < KEYS ==> Allowed(s, Move(1, p, ())))
            && (k + 2 < KEYS ==> Step(s, Move(1, p, ())) == State([Waiter(0, p, 0), Waiter(1, p, k + 1)], k + 2))
  {
    var s := State([Waiter(0, p, 0), Waiter(1, p, k)], k + 1);
    var t := [Waiter(0, p, 0)];
    assert s.tree[1] in s.tree;
    StripHas(s.tree, 1);
    assert s.tree[1..] == [Waiter(1, p, k)] && Without([Waiter(1, p, k)], 1) == [];
    assert Without(s.tree, 1) == t;
    var w := Waiter(1, p, k + 1);
    assert t[1..] == [] && Place([], w) == 0 && Place(t, w) == 1;
    assert Insert(t, w) == [Waiter(0, p, 0), w];
  }

  lemma {:induction false} MoveOften(p: int, k: nat, n: nat)
    requires 0 < k && k + n + 1 < KEYS
    ensures var s := State([Waiter(0, p, 0), Waiter(1, p, k)], k + 1);
            && AllowedRun(s, Again(n, p))
            && RunTree(s, Again(n, p)) == State([Waiter(0, p, 0), Waiter(1, p, k + n)], k + n + 1)
    decreases n
  {
    hide Allowed, Step;
    if n > 0 {
      MoveOnce(p, k);
      MoveOften(p, k + 1, n - 1);
      assert Again(n, p)[1..] == Again(n - 1, p);
    }
  }

  lemma {:induction false} RunConcat(s: State, a: seq<Op<()>>, b: seq<Op<()>>)
    ensures AllowedRun(s, a + b) <==> AllowedRun(s, a) && AllowedRun(RunTree(s, a), b)
    ensures InTurnRun(s, a + b) <==> InTurnRun(s, a) && InTurnRun(RunTree(s, a), b)
    ensures RunTree(s, a + b) == RunTree(RunTree(s, a), b)
    decreases |a|
  {
    hide Allowed, Step, OpInTurn;
    if a == [] {
      assert a + b == b;
    } else {
      assert (a + b)[1..] == a[1..] + b;
      RunConcat(Step(s, a[0]), a[1..], b);
    }
  }

  lemma Start(p: int)
    ensures AllowedRun(State([], 0), [Join(0, p, ()), Join(1, p, ())])
    ensures RunTree(State([], 0), [Join(0, p, ()), Join(1, p, ())])
         == State([Waiter(0, p, 0), Waiter(1, p, 1)], 2)
  {
    var s0 := State([], 0);
    var s1 := State([Waiter(0, p, 0)], 1);
    var w := Waiter(1, p, 1);
    assert Step(s0, Join(0, p, ())) == s1;
    assert s1.tree[1..] == [] && Place([], w) == 0 && Place(s1.tree, w) == 1;
    assert Step(s1, Join(1, p, ())) == State([Waiter(0, p, 0), w], 2);
    assert Strip([]) == [] && Strip(s1.tree) == [Waiter(0, p, ())];
    assert Allowed(s0, Join(0, p, ())) && Allowed(s1, Join(1, p, ()));
    hide Step, Allowed;
    OneOp(s0, Join(0, p, ()));
    OneOp(s1, Join(1, p, ()));
    RunConcat(s0, [Join(0, p, ())], [Join(1, p, ())]);
    assert [Join(0, p, ())] + [Join(1, p, ())] == [Join(0, p, ()), Join(1, p, ())];
  }

  lemma TakeLastKey(p: int)
    ensures Allowed(LastKey(p), Move(1, p, ())) && Step(LastKey(p), Move(1, p, ())) == Wrapped(p)
  {
    var s, w := LastKey(p), Waiter(1, p, KEYS - 1);
    var t: seq<Waiter<nat>> := [Waiter(0, p, 0)];
    assert s.tree[1] in s.tree;
    StripHas(s.tree, 1);
    assert s.tree[1..] == [Waiter(1, p, KEYS - 2)] && Without([Waiter(1, p, KEYS - 2)], 1) == [];
    assert Without(s.tree, 1) == [s.tree[0]] + Without(s.tree[1..], 1) == t;
    assert |Renumbered(t)| == 1 && Renumbered(t)[0] == t[0];
    assert Renumbered(t) == t;
    assert t[1..] == [] && Place([], w) == 0 && Place(t, w) == 1;
  }

  lemma Overtake(p: int)
    ensures Allowed(Wrapped(p), Join(2, p, ())) && !OpInTurn(Wrapped(p), Join(2, p, ()))
    ensures Step(Wrapped(p), Join(2, p, ())).tree == [Waiter(0, p, 0), Waiter(2, p, 1), Waiter(1, p, KEYS - 1)]
  {
    var s, w := Wrapped(p), Waiter(2, p, 1);
    StripHas(s.tree, 2);
    assert s.tree[1] in s.tree;
    assert s.tree[1..] == [Waiter(1, p, KEYS - 1)] && Place(s.tree[1..], w) == 0 && Place(s.tree, w) == 1;
  }

  /** Thread 1 keeps giving up its place to itself until the keys run out; then thread 2 joins. */
  function WrapRun(p: int): seq<Op<()>> {
    [Join(0, p, ()), Join(1, p, ())] + (Again(KEYS - 3, p) + ([Move(1, p, ())] + [Join(2, p, ())]))
  }

  /** First-in first-out fails after the keys have run out: thread 2, which joined last, stands
      before thread 1 of the same priority. */
  lemma WrapBreaksFifo(p: int)
    ensures AllowedRun(State([], 0), WrapRun(p))
    ensures !Agrees(State([], 0), [], WrapRun(p))
    ensures Strip(RunTree(State([], 0), WrapRun(p)).tree) == [Waiter(0, p, ()), Waiter(2, p, ()), Waiter(1, p, ())]
  {
    var s0 := State([], 0);
    var s2 := State([Waiter(0, p, 0), Waiter(1, p, 1)], 2);
    Start(p);
    MoveOften(p, 1, KEYS - 3);
    TakeLastKey(p);
    Overtake(p);
    assert Strip([]) == [];
    var last := Step(Wrapped(p), Join(2, p, ()));
    assert Strip(last.tree) == [Waiter(0, p, ()), Waiter(2, p, ()), Waiter(1, p, ())];
    hide Allowed, Step, OpInTurn, Again, Strip;
    OneOp(LastKey(p), Move(1, p, ()));
    OneOp(Wrapped(p), Join(2, p, ()));
    RunConcat(LastKey(p), [Move(1, p, ())], [Join(2, p, ())]);
    RunConcat(s2, Again(KEYS - 3, p), [Move(1, p, ())] + [Join(2, p, ())]);
    RunConcat(s0, [Join(0, p, ()), Join(1, p, ())], Again(KEYS - 3, p) + ([Move(1, p, ())] + [Join(2, p, ())]));
    RunAgreesIff(s0, WrapRun(p));
  }

  lemma OneOp(s: State, op: Op<()>)
    ensures AllowedRun(s, [op]) <==> Allowed(s, op)
    ensures InTurnRun(s, [op]) <==> OpInTurn(s, op)
    ensures RunTree(s, [op]) == Step(s, op)
  {
    hide Allowed, OpInTurn, Step;
    assert [op][1..] == [];
  }
}
