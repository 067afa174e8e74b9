/** Message queues over whole runs. */
module MessageRuns {
  import opened WaitQueue
  import opened MessageQueue

  ghost predicate AllAre<M>(q: seq<Pended<M>>, r: Role) {
    forall i | 0 <= i < |q| :: q[i].data.role == r
  }

  /** The shared wait queue holds only one kind of thread. */
  ghost predicate Uniform<M>(s: State<M>) {
    AllAre(s.waiters, Reader) || AllAre(s.waiters, Writer)
  }

  /** Readers wait only on an empty queue and writers only on a full one. */
  ghost predicate Shape<M>(s: State<M>) {
    && |s.ring| <= s.max
    && (s.waiters != [] ==>
          || (AllAre(s.waiters, Reader) && s.ring == [])
          || (AllAre(s.waiters, Writer) && |s.ring| == s.max))
    && Sorted(s.waiters)
  }

  datatype Event<M> =
    | PutEv(c: (Tid, int), m: M, wait: Wait)
    | GetEv(c: (Tid, int), room: M, wait: Wait)
    | PurgeEv
    | ExpireEv(tid: Tid)

  function Do<M>(s: State<M>, e: Event<M>): StepOut<M> {
    match e
    case PutEv(c, m, wait) => Put(s, c, m, wait)
    case GetEv(c, room, wait) => Get(s, c, room, wait)
    case PurgeEv => Purge(s)
    case ExpireEv(tid) => Expire(s, tid)
  }

  // ---------------------------------------------------------------- shape

  lemma EnqueueAll<M>(q: seq<Pended<M>>, w: Pended<M>)
    requires AllAre(q, w.data.role)
    ensures AllAre(Enqueue(q, w), w.data.role)
  {
  }

  lemma StepShape<M>(s: State<M>, e: Event<M>)
    requires s.max > 0 && Shape(s)
    ensures Do(s, e).next.max == s.max && Shape(Do(s, e).next)
  {
    match e
    case PutEv(c, m, wait) =>
      if |s.ring| == s.max {
        EnqueueAll(s.waiters, Waiter(c.0, c.1, Swap(Writer, m)));
        EnqueueSorted(s.waiters, Waiter(c.0, c.1, Swap(Writer, m)));
      }
    case GetEv(c, room, wait) =>
      if s.ring == [] {
        EnqueueAll(s.waiters, Waiter(c.0, c.1, Swap(Reader, room)));
        EnqueueSorted(s.waiters, Waiter(c.0, c.1, Swap(Reader, room)));
      }
    case PurgeEv =>
    case ExpireEv(tid) =>
      WithoutSorted(s.waiters, tid);
      WithoutMembers(s.waiters, tid);
  }

  // ---------------------------------------------------------------- what one call does

  function Msgs<M>(q: seq<Pended<M>>): seq<M> {
    if q == [] then [] else [q[0].data.msg] + Msgs(q[1..])
  }

  lemma {:induction false} MsgsConcat<M>(a: seq<Pended<M>>, b: seq<Pended<M>>)
    ensures Msgs(a + b) == Msgs(a) + Msgs(b)
  {
    if a == [] {
      assert a + b == b;
    } else {
      MsgsConcat(a[1..], b);
      assert (a + b)[1..] == a[1..] + b;
    }
  }

  /** The messages on their way: those queued, then those of the waiting writers. */
  ghost function Stream<M>(s: State<M>): seq<M> {
    s.ring + if AllAre(s.waiters, Writer) then Msgs(s.waiters) else []
  }

  /** A read takes the front of the stream and leaves the rest as it was; the thread it wakes, if
      any, was waiting to write. */
  lemma GetTakesFront<M>(s: State<M>, c: (Tid, int), room: M, wait: Wait)
    requires s.max > 0 && Shape(s) && s.ring != []
    ensures var o := Get(s, c, room, wait);
            && o.outcome == Returned(Ok) && o.got == [Stream(s)[0]] && Stream(o.next) == Stream(s)[1..]
            && (o.woken != [] ==> o.woken[0].waiter.data.role == Writer)
  {
    assert AllAre(s.waiters, Writer);
    if s.waiters != [] {
      var o := Get(s, c, room, wait);
      assert AllAre(o.next.waiters, Writer);
      MiddleMoves(s.ring, s.waiters[0].data.msg, Msgs(s.waiters[1..]));
    }
  }

  lemma MiddleMoves<M>(a: seq<M>, m: M, b: seq<M>)
    requires a != []
    ensures (a[1..] + [m]) + b == (a + ([m] + b))[1..]
  {
  }

  /** A write goes to a waiting reader if there is one, and otherwise joins the stream: at its end
      if there is room, else behind every waiting writer at least as urgent. */
  lemma PutJoinsStream<M>(s: State<M>, c: (Tid, int), m: M, wait: Wait)
    requires s.max > 0 && Shape(s)
    requires Put(s, c, m, wait).outcome != Returned(Enomsg)
    ensures var o := Put(s, c, m, wait);
            if s.waiters != [] && s.waiters[0].data.role == Reader then
              && Stream(o.next) == Stream(s) == [] && |o.woken| == 1
              && o.woken[0].waiter == s.waiters[0].(data := Swap(Reader, m))
            else
              var k := Slot(s.waiters, c.1);
              && o.woken == []
              && Stream(o.next) == s.ring + Msgs(s.waiters[..k]) + [m] + Msgs(s.waiters[k..])
              && (o.outcome == Returned(Ok) ==> s.waiters == [])
  {
    var o := Put(s, c, m, wait);
    if s.waiters != [] && s.waiters[0].data.role == Reader {
      assert forall i | 0 <= i < |s.waiters[1..]| :: s.waiters[1..][i] == s.waiters[i + 1];
      assert o.next.waiters != [] ==> o.next.waiters[0].data.role == Reader;
    } else {
      assert AllAre(s.waiters, Writer);
      if o.outcome == Blocked {
        var w, k := Waiter(c.0, c.1, Swap(Writer, m)), Slot(s.waiters, c.1);
        EnqueueAll(s.waiters, w);
        assert Msgs([w]) == [m];
        hide Msgs, Sorted;
        MsgsConcat(s.waiters[..k], [w]);
        MsgsConcat(s.waiters[..k] + [w], s.waiters[k..]);
        Regroup(s.ring, Msgs(s.waiters[..k]), m, Msgs(s.waiters[k..]));
      }
    }
  }

  lemma Regroup<M>(a: seq<M>, b: seq<M>, m: M, c: seq<M>)
    ensures a + ((b + [m]) + c) == a + b + [m] + c
  {
  }

  // ---------------------------------------------------------------- whole runs

  /** How an accepted message leaves the queue. */
  datatype Exit<M> = Delivered(msg: M) | Purged(msg: M)

  /** A queue with its history: the messages accepted and the messages that left, in order, and how
      many writes and reads reported success. */
  datatype History<M> = History(q: State<M>, taken: seq<M>, exits: seq<Exit<M>>, written: nat, received: nat)

  function Exited<M>(x: seq<Exit<M>>): seq<M> {
    if x == [] then [] else [x[0].msg] + Exited(x[1..])
  }

  function Deliveries<M>(x: seq<Exit<M>>): nat {
    if x == [] then 0 else (if x[0].Delivered? then 1 else 0) + Deliveries(x[1..])
  }

  function AllPurged<M>(ms: seq<M>): seq<Exit<M>> {
    if ms == [] then [] else [Purged(ms[0])] + AllPurged(ms[1..])
  }

  /** One step of a run.  A reader woken by a write, and a writer woken by a read, return success. */
  ghost function Next<M>(h: History<M>, e: Event<M>): History<M> {
    var o := Do(h.q, e);
    match e
    case PutEv(c, m, wait) =>
      if o.outcome != Returned(Ok) then h.(q := o.next)
      else if o.woken == [] then h.(q := o.next, taken := h.taken + [m], written := h.written + 1)
      else History(o.next, h.taken + [m], h.exits + [Delivered(o.woken[0].waiter.data.msg)], h.written + 1, h.received + 1)
    case GetEv(c, room, wait) =>
      if o.outcome != Returned(Ok) then h.(q := o.next)
      else if o.woken == [] then
        h.(q := o.next, exits := h.exits + [Delivered(o.got[0])], received := h.received + 1)
      else
        History(o.next, h.taken + [o.woken[0].waiter.data.msg], h.exits + [Delivered(o.got[0])],
                h.written + 1, h.received + 1)
    case PurgeEv => h.(q := o.next, exits := h.exits + AllPurged(h.q.ring))
    case ExpireEv(tid) => h.(q := o.next)
  }

  /** Every accepted message has left exactly once, in order, or is still in the ring; successful
      writes are the accepted messages and successful reads the delivered ones. */
  ghost predicate Accounted<M>(h: History<M>) {
    && h.taken == Exited(h.exits) + h.q.ring
    && |h.taken| == h.written && Deliveries(h.exits) == h.received
  }

  lemma {:induction false} ExitedConcat<M>(a: seq<Exit<M>>, b: seq<Exit<M>>)
    ensures Exited(a + b) == Exited(a) + Exited(b)
    ensures Deliveries(a + b) == Deliveries(a) + Deliveries(b)
  {
    if a == [] {
      assert a + b == b;
    } else {
      ExitedConcat(a[1..], b);
      assert (a + b)[1..] == a[1..] + b;
      Assoc([a[0].msg], Exited(a[1..]), Exited(b));
    }
  }

  lemma {:induction false} PurgedExit<M>(ms: seq<M>)
    ensures Exited(AllPurged(ms)) == ms && Deliveries(AllPurged(ms)) == 0
  {
    if ms != [] {
      PurgedExit(ms[1..]);
      assert AllPurged(ms)[1..] == AllPurged(ms[1..]);
    }
  }

  lemma HeadExits<M>(x: seq<M>, ring: seq<M>, more: seq<M>)
    requires ring != []
    ensures (x + ring) + more == (x + [ring[0]]) + (ring[1..] + more)
  {
    assert ring == [ring[0]] + ring[1..];
  }

  lemma GetAccounted<M>(h: History<M>, c: (Tid, int), room: M, wait: Wait)
    requires Accounted(h)
    ensures Accounted(Next(h, GetEv(c, room, wait)))
  {
    var e := GetEv(c, room, wait);
    var o := Do(h.q, e);
    if h.q.ring != [] {
      ExitedConcat(h.exits, [Delivered(h.q.ring[0])]);
      HeadExits(Exited(h.exits), h.q.ring, if o.woken == [] then [] else [o.woken[0].waiter.data.msg]);
      assert Exited([Delivered(h.q.ring[0])]) == [h.q.ring[0]] + [];
    }
  }

  lemma PutAccounted<M>(h: History<M>, c: (Tid, int), m: M, wait: Wait)
    requires Shape(h.q) && Accounted(h)
    ensures Accounted(Next(h, PutEv(c, m, wait)))
  {
    hide Sorted, Enqueue;
    ExitedConcat(h.exits, [Delivered(m)]);
    assert Exited([Delivered(m)]) == [m] + [];
  }

  lemma NextAccounted<M>(h: History<M>, e: Event<M>)
    requires Shape(h.q) && Accounted(h)
    ensures Accounted(Next(h, e))
  {
    match e
    case PutEv(c, m, wait) => PutAccounted(h, c, m, wait);
    case GetEv(c, room, wait) => GetAccounted(h, c, room, wait);
    case PurgeEv =>
      ExitedConcat(h.exits, AllPurged(h.q.ring));
      PurgedExit(h.q.ring);
    case ExpireEv(tid) =>
  }

  ghost function Run<M>(h: History<M>, es: seq<Event<M>>): History<M>
    decreases |es|
  {
    if es == [] then h else Run(Next(h, es[0]), es[1..])
  }

  function Fresh<M>(max: nat): History<M> {
    History(State(max, [], []), [], [], 0, 0)
  }

  lemma {:induction false} RunSafe<M>(h: History<M>, es: seq<Event<M>>)
    requires h.q.max > 0 && Shape(h.q) && Accounted(h)
    ensures Shape(Run(h, es).q) && Accounted(Run(h, es))
    decreases |es|
  {
    if es != [] {
      StepShape(h.q, es[0]);
      NextAccounted(h, es[0]);
      hide Shape, Accounted;
      RunSafe(Next(h, es[0]), es[1..]);
    }
  }

  /** A bounded queue in every run: one kind of waiter at a time, every accepted message delivered or
      purged exactly once and in order of acceptance. */
  lemma QueueSafety<M>(max: nat, es: seq<Event<M>>)
    requires max > 0
    ensures var h := Run(Fresh<M>(max), es); Shape(h.q) && Uniform(h.q) && Accounted(h)
  {
    RunSafe(Fresh<M>(max), es);
  }

  /** Without any room, a reader and a writer end up in the same wait queue and never meet. */
  lemma NoRoomMixes<M>(m: M)
    ensures var es := [PutEv((1, 0), m, MayWait), GetEv((2, 0), m, MayWait)];
            !Uniform(Run(Fresh<M>(0), es).q)
  {
    var e1, e2 := PutEv((1, 0), m, MayWait), GetEv((2, 0), m, MayWait);
    var es := [e1, e2];
    var w1, w2 := Waiter(1, 0, Swap(Writer, m)), Waiter(2, 0, Swap(Reader, m));
    var h1 := Next(Fresh<M>(0), e1);
    assert h1.q.waiters == [w1];
    var h2 := Next(h1, e2);
    assert Slot([w1], 0) == 1 + Slot([w1][1..], 0) == 1;
    assert h2.q.waiters == [w1, w2];
    assert es[1..] == [e2] && es[1..][1..] == [];
    assert Run(Fresh<M>(0), es) == Run(h1, [e2]) == h2;
    assert h2.q.waiters[0].data.role == Writer && h2.q.waiters[1].data.role == Reader;
  }

  /** The wait queue holds one kind of thread in every run exactly when the ring has room at all. */
  lemma UniformIffRoom<M>(max: nat, m: M)
    ensures (forall es: seq<Event<M>> :: Uniform(Run(Fresh<M>(max), es).q)) <==> max > 0
  {
    if max == 0 {
      NoRoomMixes(m);
    } else {
      forall es: seq<Event<M>> ensures Uniform(Run(Fresh<M>(max), es).q) {
        QueueSafety(max, es);
      }
    }
  }
}
