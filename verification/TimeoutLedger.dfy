/** The delta queue against a ledger without any queue: when each timeout is due, and which of them
    were aborted in time. */
module TimeoutLedger {
  import opened Basics
  import opened TimeoutSpec
  import opened TimeoutRuns

  datatype Ledger = Ledger(now: nat, deadline: seq<nat>, aborted: set<Id>)

  /** Starting sets a deadline so many ticks ahead; aborting counts if the timeout was started and is
      not due yet; announcing moves the clock. */
  ghost function Write(b: Ledger, e: Event): Ledger {
    match e
    case Start(t) => b.(deadline := b.deadline + [b.now + t])
    case Abort(id) =>
      if id < |b.deadline| && b.now < b.deadline[id] then b.(aborted := b.aborted + {id}) else b
    case Announce(t) => b.(now := b.now + t)
  }

  ghost function Books(b: Ledger, es: seq<Event>): Ledger
    decreases |es|
  {
    if es == [] then b else Books(Write(b, es[0]), es[1..])
  }

  ghost function Of(c: Clock): Ledger {
    Ledger(c.now, c.deadline, c.aborted)
  }

  ghost predicate Waits(b: Ledger, id: Id) {
    id < |b.deadline| && b.now < b.deadline[id] && id !in b.aborted
  }

  ghost predicate Came(b: Ledger, id: Id) {
    id < |b.deadline| && b.deadline[id] <= b.now && id !in b.aborted
  }

  lemma QueueIffWaits(c: Clock, id: Id)
    requires Good(c)
    ensures Pending(c.es, id) <==> Waits(Of(c), id)
    ensures Logged(c.log, id) <==> Came(Of(c), id)
  {
    assert Count(Pending(c.es, id)) + Count(Logged(c.log, id)) + Count(id in c.aborted) == Count(id < |c.deadline|);
    hide Ordered, LatestFirst, Fair, Placed;
    if Pending(c.es, id) {
      var i :| 0 <= i < |c.es| && c.es[i].id == id;
    } else if Logged(c.log, id) {
      var i :| 0 <= i < |c.log| && c.log[i].id == id;
    }
  }

  lemma StepWrites(c: Clock, e: Event)
    requires Good(c) && Legal(e)
    ensures Of(Step(c, e)) == Write(Of(c), e)
  {
    hide Insert, Remove, Surviving, Fired, Good;
    if e.Abort? {
      QueueIffWaits(c, e.id);
      if e.id in c.aborted {
        assert c.aborted + {e.id} == c.aborted;
      }
    }
  }

  lemma {:induction false} RunWrites(c: Clock, es: seq<Event>)
    requires Good(c) && forall e | e in es :: Legal(e)
    ensures Of(Run(c, es)) == Books(Of(c), es)
    decreases |es|
  {
    if es != [] {
      hide Good, Step, Write;
      StepGood(c, es[0]);
      StepWrites(c, es[0]);
      RunWrites(Step(c, es[0]), es[1..]);
    }
  }

  /** In every run the clock and its queue do what the ledger says: a timeout is pending exactly if it
      was started, is not due yet and was not aborted, and has been handled exactly if it was started,
      has come due and was not aborted before. */
  lemma TimeoutsFollowLedger(es: seq<Event>, id: Id)
    requires forall e | e in es :: Legal(e)
    ensures var c, b := Run(Boot(), es), Books(Ledger(0, [], {}), es);
            && c.now == b.now && c.deadline == b.deadline && c.aborted == b.aborted
            && (Pending(c.es, id) <==> Waits(b, id))
            && (Logged(c.log, id) <==> Came(b, id))
  {
    RunWrites(Boot(), es);
    QueueIffWaits(Run(Boot(), es), id);
  }
}
