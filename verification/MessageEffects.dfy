/** What each message-queue call answers, and whom it wakes with what. */
module MessageEffects {
  import opened WaitQueue
  import opened MessageQueue
  import opened MessageRuns

  /** A send is accepted exactly if there is room, whether or not it may wait: by the first waiter if
      anybody waits, who gets the message and success, and at the end of the ring otherwise.  It is
      refused, changing nothing, exactly if there is none and it may not wait; else it queues with
      its message behind everyone at least as urgent. */
  lemma PutAnswer<M>(s: State<M>, c: (Tid, int), m: M, wait: Wait)
    requires Sorted(s.waiters)
    ensures var o := Put(s, c, m, wait);
            && o.next.max == s.max && o.got == []
            && (o.outcome == Returned(Ok) <==> |s.ring| < s.max)
            && (o.outcome == Returned(Enomsg) <==> |s.ring| >= s.max && wait.NoWait?)
            && (o.outcome == Blocked <==> |s.ring| >= s.max && wait.MayWait?)
            && (o.outcome == Returned(Ok) && s.waiters == [] ==>
                  o.next.ring == s.ring + [m] && o.next.waiters == [] && o.woken == [])
            && (o.outcome == Returned(Ok) && s.waiters != [] ==>
                  var w := s.waiters[0];
                  && o.next.ring == s.ring && s.waiters == [w] + o.next.waiters
                  && o.woken == [Wake(Waiter(w.tid, w.prio, Swap(w.data.role, m)), Ok)])
            && (o.outcome == Returned(Enomsg) ==> o.next == s && o.woken == [])
            && (o.outcome == Blocked ==>
                  && o.next.ring == s.ring && o.woken == []
                  && Joins(s.waiters, Waiter(c.0, c.1, Swap(Writer, m)), o.next.waiters))
  {
    EnqueueJoins(s.waiters, Waiter(c.0, c.1, Swap(Writer, m)));
    hide Enqueue, Joins, Sorted;
  }

  /** A receive gets the oldest message exactly if there is one, and lets the first waiter, if any,
      put its message at the end with success.  It is refused, changing nothing, exactly if there is
      none and it may not wait; else it queues behind everyone at least as urgent. */
  lemma GetAnswer<M>(s: State<M>, c: (Tid, int), room: M, wait: Wait)
    requires Sorted(s.waiters)
    ensures var o := Get(s, c, room, wait);
            && o.next.max == s.max
            && (o.outcome == Returned(Ok) <==> s.ring != [])
            && (o.outcome == Returned(Enomsg) <==> s.ring == [] && wait.NoWait?)
            && (o.outcome == Blocked <==> s.ring == [] && wait.MayWait?)
            && (o.outcome == Returned(Ok) && s.waiters == [] ==>
                  && |o.got| == 1 && s.ring == o.got + o.next.ring && o.next.waiters == [] && o.woken == [])
            && (o.outcome == Returned(Ok) && s.waiters != [] ==>
                  var w := s.waiters[0];
                  && |o.got| == 1 && s.ring + [w.data.msg] == o.got + o.next.ring
                  && s.waiters == [w] + o.next.waiters && o.woken == [Wake(w, Ok)])
            && (o.outcome != Returned(Ok) ==> o.got == [] && o.woken == [])
            && (o.outcome == Returned(Enomsg) ==> o.next == s)
            && (o.outcome == Blocked ==>
                  && o.next.ring == s.ring
                  && Joins(s.waiters, Waiter(c.0, c.1, Swap(Reader, room)), o.next.waiters))
  {
    EnqueueJoins(s.waiters, Waiter(c.0, c.1, Swap(Reader, room)));
    hide Enqueue, Joins, Sorted;
    if s.ring != [] && s.waiters != [] {
      Passes(s.ring, s.waiters[0].data.msg);
    }
  }

  lemma Passes<M>(ring: seq<M>, m: M)
    requires ring != []
    ensures ring + [m] == [ring[0]] + (ring[1..] + [m])
  {
  }

  /** A purge empties the ring and sends everyone who waits away with -ENOMSG, in queue order. */
  lemma PurgeEffect<M>(s: State<M>)
    ensures var o := Purge(s);
            && o.next == State(s.max, [], []) && o.outcome == Returned(Ok) && o.got == []
            && |o.woken| == |s.waiters|
            && (forall i | 0 <= i < |s.waiters| :: o.woken[i] == Wake(s.waiters[i], Enomsg))
  {
  }

  lemma ExpireEffect<M>(s: State<M>, tid: Tid)
    ensures var o := Expire(s, tid);
            && o.next.max == s.max && o.next.ring == s.ring && o.woken == [] && o.got == []
            && Chosen(s.waiters, (w: Pended<M>) => w.tid != tid, o.next.waiters)
  {
    WithoutChosen(s.waiters, tid);
  }

  // ----------------------------------------------------------- whole runs

  /** What the callers of a run are told: how many sends and how many receives came back with
      success, at once or after waiting. */
  ghost function Told<M>(s: State<M>, e: Event<M>): (nat, nat) {
    var o := Do(s, e);
    var now := if o.outcome == Returned(Ok) then 1 else 0;
    var woken := |o.woken|;
    match e
    case PutEv(_, _, _) => (now, woken)
    case GetEv(_, _, _) => (woken, now)
    case _ => (0, 0)
  }

  ghost function ToldIn<M>(h: History<M>, es: seq<Event<M>>): (nat, nat)
    decreases |es|
  {
    if es == [] then (0, 0)
    else
      var t, more := Told(h.q, es[0]), ToldIn(Next(h, es[0]), es[1..]);
      (t.0 + more.0, t.1 + more.1)
  }

  lemma StepTold<M>(h: History<M>, e: Event<M>)
    requires Sorted(h.q.waiters)
    ensures var t := Told(h.q, e);
            Next(h, e).written == h.written + t.0 && Next(h, e).received == h.received + t.1
  {
    match e
    case PutEv(c, m, wait) =>
      PutAnswer(h.q, c, m, wait);
      hide Put;
    case GetEv(c, room, wait) =>
      GetAnswer(h.q, c, room, wait);
      hide Get;
    case PurgeEv =>
    case ExpireEv(tid) =>
  }

  lemma {:induction false} RunTold<M>(h: History<M>, es: seq<Event<M>>)
    requires h.q.max > 0 && Shape(h.q)
    ensures var t := ToldIn(h, es);
            Run(h, es).written == h.written + t.0 && Run(h, es).received == h.received + t.1
    decreases |es|
  {
    if es != [] {
      StepShape(h.q, es[0]);
      StepTold(h, es[0]);
      hide Shape, Next, Told;
      NextState(h, es[0]);
      RunTold(Next(h, es[0]), es[1..]);
    }
  }

  lemma NextState<M>(h: History<M>, e: Event<M>)
    ensures Next(h, e).q == Do(h.q, e).next
  {
  }

  /** In every run, what is in the ring is what the senders were told was accepted, less what was
      delivered to receivers and what was purged. */
  lemma AnswersBalance<M>(max: nat, es: seq<Event<M>>)
    requires max > 0
    ensures var h, t := Run(Fresh<M>(max), es), ToldIn(Fresh<M>(max), es);
            && |h.taken| == t.0 && Deliveries(h.exits) == t.1
            && h.taken == Exited(h.exits) + h.q.ring
  {
    RunTold(Fresh<M>(max), es);
    QueueSafety<M>(max, es);
  }
}
