/** Timeouts over whole runs: whatever is started, aborted and announced, in any order. */
module TimeoutRuns {
  import opened Basics
  import opened TimeoutSpec

  /** A timeout is named by how many were started before it. */
  datatype Event = Start(ticks: nat) | Abort(id: Id) | Announce(ticks: nat)

  /** A handled timeout, with the clock before and after the announcement that expired it. */
  datatype Firing = Firing(id: Id, before: nat, after: nat)

  /** The clock, the pending timeouts, the absolute deadline of every timeout ever started, the log
      of those handled, in the order they were handled, and those aborted while pending. */
  datatype Clock = Clock(now: nat, es: seq<Entry>, deadline: seq<nat>, log: seq<Firing>, aborted: set<Id>)

  predicate Legal(e: Event) {
    e.Start? ==> e.ticks >= 1
  }

  ghost function Firings(f: seq<Entry>, before: nat, after: nat): (r: seq<Firing>)
    ensures |r| == |f|
    ensures forall i | 0 <= i < |f| :: r[i] == Firing(f[i].id, before, after)
  {
    seq(|f|, i requires 0 <= i < |f| => Firing(f[i].id, before, after))
  }

  ghost function Step(c: Clock, e: Event): Clock
    requires Ordered(c.es)
  {
    match e
    case Start(t) => c.(es := Insert(c.es, Entry(|c.deadline|, t)), deadline := c.deadline + [c.now + t])
    case Abort(id) =>
      c.(es := Remove(c.es, id), aborted := if Pending(c.es, id) then c.aborted + {id} else c.aborted)
    case Announce(t) =>
      c.(now := c.now + t, es := Surviving(c.es, t),
         log := c.log + Firings(Fired(c.es, t), c.now, c.now + t))
  }

  // ---------------------------------------------------------------- invariant

  /** Equal deadlines are queued latest start first. */
  ghost predicate LatestFirst(es: seq<Entry>) {
    forall i, j | 0 <= i < j < |es| :: es[i].due == es[j].due ==> es[i].id > es[j].id
  }

  /** The queue tells every pending timeout its own deadline. */
  ghost predicate Truthful(es: seq<Entry>, now: nat, deadline: seq<nat>) {
    forall i | 0 <= i < |es| :: es[i].id < |deadline| && now + es[i].due == deadline[es[i].id]
  }

  /** Nothing was handled early, or later than the announcement covering its deadline. */
  ghost predicate Punctual(log: seq<Firing>, now: nat, deadline: seq<nat>) {
    forall i | 0 <= i < |log| ::
      log[i].id < |deadline| && log[i].before < deadline[log[i].id] <= log[i].after <= now
  }

  /** Timeouts with one deadline are handled in the order they were started. */
  ghost predicate Fair(log: seq<Firing>, deadline: seq<nat>)
    requires forall i | 0 <= i < |log| :: log[i].id < |deadline|
  {
    forall i, j | 0 <= i < j < |log| :: deadline[log[i].id] == deadline[log[j].id] ==> log[i].id < log[j].id
  }

  ghost predicate Logged(log: seq<Firing>, id: Id) {
    exists i :: 0 <= i < |log| && log[i].id == id
  }

  /** Every timeout ever started is in exactly one place: pending, handled or aborted. */
  ghost predicate Placed(c: Clock) {
    forall id: Id ::
      Count(Pending(c.es, id)) + Count(Logged(c.log, id)) + Count(id in c.aborted) == Count(id < |c.deadline|)
  }

  ghost predicate Good(c: Clock) {
    && Ordered(c.es) && Future(c.es) && LatestFirst(c.es)
    && Truthful(c.es, c.now, c.deadline)
    && Punctual(c.log, c.now, c.deadline) && Fair(c.log, c.deadline)
    && Placed(c)
  }

  /** Nothing is queued twice. */
  lemma PendingOnce(es: seq<Entry>, now: nat, deadline: seq<nat>, i: nat, j: nat)
    requires Truthful(es, now, deadline) && LatestFirst(es) && i < j < |es|
    ensures es[i].id != es[j].id
  {
  }

  /** Where a new timeout lands. */
  lemma {:induction false} InsertAt(es: seq<Entry>, e: Entry) returns (k: nat)
    requires Ordered(es)
    ensures k <= |es| && |Insert(es, e)| == |es| + 1 && Insert(es, e)[k] == e
    ensures forall i | 0 <= i < k :: Insert(es, e)[i] == es[i] && es[i].due < e.due
    ensures forall i | k < i <= |es| :: Insert(es, e)[i] == es[i - 1]
    ensures forall i | k <= i < |es| :: e.due <= es[i].due
  {
    if es == [] || e.due <= es[0].due {
      k := 0;
    } else {
      var m := InsertAt(es[1..], e);
      k := m + 1;
      forall i | 0 < i <= |es| ensures Insert(es, e)[i] == Insert(es[1..], e)[i - 1] {}
    }
  }

  lemma StartOrdered(es: seq<Entry>, e: Entry)
    requires Ordered(es)
    ensures Ordered(Insert(es, e))
  {
    hide Insert;
    var k := InsertAt(es, e);
  }

  lemma StartLatestFirst(es: seq<Entry>, e: Entry)
    requires Ordered(es) && LatestFirst(es) && forall i | 0 <= i < |es| :: es[i].id < e.id
    ensures LatestFirst(Insert(es, e))
  {
    hide Insert;
    var k := InsertAt(es, e);
    var r := Insert(es, e);
    forall i, j | 0 <= i < j < |r| && r[i].due == r[j].due ensures r[i].id > r[j].id {
      assert i != k ==> r[i] == es[if i < k then i else i - 1];
      assert j != k ==> r[j] == es[if j < k then j else j - 1];
    }
  }

  lemma StartTruthful(es: seq<Entry>, now: nat, deadline: seq<nat>, e: Entry)
    requires Ordered(es) && Future(es) && Truthful(es, now, deadline)
    requires e.id == |deadline| && e.due >= 1
    ensures Future(Insert(es, e)) && Truthful(Insert(es, e), now, deadline + [now + e.due])
  {
    var k := InsertAt(es, e);
    hide Insert, Ordered;
    var r := Insert(es, e);
    forall i | 0 <= i < |r|
      ensures r[i].due >= 1 && r[i].id <= |deadline| && now + r[i].due == (deadline + [now + e.due])[r[i].id]
    {
      assert i != k ==> r[i] == es[if i < k then i else i - 1];
    }
  }

  lemma StartPlaced(c: Clock, e: Entry)
    requires Ordered(c.es) && Placed(c) && e.id == |c.deadline|
    ensures Placed(c.(es := Insert(c.es, e), deadline := c.deadline + [c.now + e.due]))
  {
    hide Insert, Ordered, Logged;
    var k := InsertAt(c.es, e);
    var r := Insert(c.es, e);
    forall id ensures Pending(r, id) <==> Pending(c.es, id) || id == e.id {
      if i :| 0 <= i < |c.es| && c.es[i].id == id {
        assert r[if i < k then i else i + 1].id == id;
      }
      if i :| 0 <= i < |r| && r[i].id == id && i != k {
        assert c.es[if i < k then i else i - 1].id == id;
      }
      assert r[k].id == e.id;
    }
    hide Pending;
  }

  lemma LogKeeps(log: seq<Firing>, now: nat, deadline: seq<nat>, d: nat)
    requires Punctual(log, now, deadline) && Fair(log, deadline)
    ensures Punctual(log, now, deadline + [d]) && Fair(log, deadline + [d])
  {
  }

  lemma StartGood(c: Clock, t: nat)
    requires Good(c) && t >= 1
    ensures Good(Step(c, Start(t)))
  {
    var e := Entry(|c.deadline|, t);
    assert forall i | 0 <= i < |c.es| :: c.es[i].id < e.id;
    hide Ordered, Future, LatestFirst, Truthful, Punctual, Insert, Placed;
    StartOrdered(c.es, e);
    StartLatestFirst(c.es, e);
    StartTruthful(c.es, c.now, c.deadline, e);
    StartPlaced(c, e);
    LogKeeps(c.log, c.now, c.deadline, c.now + t);
  }

  lemma {:induction false} RemoveAt(es: seq<Entry>, id: Id) returns (k: nat)
    ensures k <= |es| && |Remove(es, id)| == (if k < |es| then |es| - 1 else |es|)
    ensures forall i | 0 <= i < k :: Remove(es, id)[i] == es[i]
    ensures forall i | k <= i < |Remove(es, id)| :: Remove(es, id)[i] == es[i + 1]
    ensures forall i | 0 <= i < k :: es[i].id != id
    ensures k < |es| ==> es[k].id == id
  {
    if es == [] || es[0].id == id {
      k := 0;
    } else {
      var m := RemoveAt(es[1..], id);
      k := m + 1;
      forall i | 0 < i < |Remove(es, id)| ensures Remove(es, id)[i] == Remove(es[1..], id)[i - 1] {}
    }
  }

  lemma AbortGood(c: Clock, id: Id)
    requires Good(c)
    ensures Good(Step(c, Abort(id)))
  {
    AbortPlaced(c, id);
    AbortQueue(c.es, c.now, c.deadline, id);
    hide Remove, Punctual, Placed, Pending, Ordered, Future, LatestFirst, Truthful;
  }

  lemma AbortQueue(es: seq<Entry>, now: nat, deadline: seq<nat>, id: Id)
    requires Ordered(es) && Future(es) && LatestFirst(es) && Truthful(es, now, deadline)
    ensures var r := Remove(es, id);
            Ordered(r) && Future(r) && LatestFirst(r) && Truthful(r, now, deadline)
  {
    hide Remove;
    var k := RemoveAt(es, id);
  }

  lemma AbortPlaced(c: Clock, x: Id)
    requires Truthful(c.es, c.now, c.deadline) && LatestFirst(c.es) && Ordered(c.es) && Placed(c)
    ensures Placed(Step(c, Abort(x)))
  {
    var k := RemoveAt(c.es, x);
    var r := Remove(c.es, x);
    hide Remove, Ordered, Logged;
    forall id ensures Pending(r, id) <==> Pending(c.es, id) && id != x {
      if i :| 0 <= i < |c.es| && c.es[i].id == id && id != x {
        assert r[if i < k then i else i - 1].id == id;
      }
      if i :| 0 <= i < |r| && r[i].id == id {
        assert c.es[if i < k then i else i + 1].id == id;
        if i >= k {
          PendingOnce(c.es, c.now, c.deadline, k, i + 1);
        }
      }
    }
    hide Pending;
  }

  lemma AnnounceQueue(c: Clock, t: nat)
    requires Good(c)
    ensures var s := Surviving(c.es, t);
            Ordered(s) && Future(s) && LatestFirst(s) && Truthful(s, c.now + t, c.deadline)
  {
    AnnounceExact(c.es, t);
  }

  lemma FiredAt(c: Clock, t: nat, i: nat)
    requires Ordered(c.es) && Truthful(c.es, c.now, c.deadline) && Future(c.es)
    requires i < |Fired(c.es, t)|
    ensures var f := Fired(c.es, t);
            && |f| <= |c.es| && f[i] == c.es[|f| - 1 - i]
            && f[i].id < |c.deadline| && c.now < c.deadline[f[i].id] <= c.now + t
  {
  }

  lemma AnnouncePunctual(c: Clock, t: nat)
    requires Good(c)
    ensures Punctual(Step(c, Announce(t)).log, c.now + t, c.deadline)
  {
    hide Fair, Reversed, Surviving;
    var n, log := |c.log|, Step(c, Announce(t)).log;
    forall i | n <= i < |log|
      ensures log[i].id < |c.deadline| && log[i].before < c.deadline[log[i].id] <= log[i].after <= c.now + t
    {
      FiredAt(c, t, i - n);
    }
  }

  lemma AnnounceFair(c: Clock, t: nat)
    requires Good(c) && Punctual(Step(c, Announce(t)).log, c.now + t, c.deadline)
    ensures Fair(Step(c, Announce(t)).log, c.deadline)
  {
    hide Reversed, Surviving;
    var n, d, log := |c.log|, c.deadline, Step(c, Announce(t)).log;
    forall i, j | 0 <= i < j < |log| && d[log[i].id] == d[log[j].id] ensures log[i].id < log[j].id {
      if j >= n {
        FiredAt(c, t, j - n);
        if i >= n {
          FiredAt(c, t, i - n);
        }
      }
    }
  }

  /** A queue cut in two, the front part reversed, holds each of its timeouts in one of the parts. */
  lemma CutPending(es: seq<Entry>, f: seq<Entry>, s: seq<Entry>, n: nat, id: Id)
    requires n == |f| && n + |s| == |es|
    requires forall i | 0 <= i < n :: f[n - 1 - i].id == es[i].id
    requires forall i | 0 <= i < n :: f[i].id == es[n - 1 - i].id
    requires forall i | n <= i < |es| :: s[i - n].id == es[i].id
    requires forall i | 0 <= i < |s| :: s[i].id == es[n + i].id
    requires forall i, j | 0 <= i < j < |es| :: es[i].id != es[j].id
    ensures Count(Pending(f, id)) + Count(Pending(s, id)) == Count(Pending(es, id))
  {
    if i :| 0 <= i < |es| && es[i].id == id {
      if i < n {
        assert f[n - 1 - i].id == id;
      } else {
        assert s[i - n].id == id;
      }
    }
  }

  lemma PartsOf(es: seq<Entry>, t: nat)
    requires Ordered(es)
    ensures var f, s := Fired(es, t), Surviving(es, t);
            && |f| + |s| == |es|
            && (forall i | 0 <= i < |f| :: f[|f| - 1 - i].id == es[i].id)
            && (forall i | 0 <= i < |f| :: f[i].id == es[|f| - 1 - i].id)
            && (forall i | |f| <= i < |es| :: s[i - |f|].id == es[i].id)
            && (forall i | 0 <= i < |s| :: s[i].id == es[|f| + i].id)
  {
    hide Ordered, Within, Sooner;
    var f, s := Fired(es, t), Surviving(es, t);
    forall i | |f| <= i < |es| ensures s[i - |f|].id == es[i].id {
      SurvivorAt(es, t, i - |f|);
    }
    forall i | 0 <= i < |s| ensures s[i].id == es[|f| + i].id {
      SurvivorAt(es, t, i);
    }
  }

  /** Whatever was pending either fires or survives. */
  lemma FiresOrSurvives(c: Clock, t: nat, id: Id)
    requires Ordered(c.es) && Truthful(c.es, c.now, c.deadline) && LatestFirst(c.es)
    ensures Count(Pending(Fired(c.es, t), id)) + Count(Pending(Surviving(c.es, t), id)) == Count(Pending(c.es, id))
  {
    hide Fired, Surviving, Pending, Truthful, LatestFirst, Ordered, Within;
    forall i, j | 0 <= i < j < |c.es| ensures c.es[i].id != c.es[j].id {
      PendingOnce(c.es, c.now, c.deadline, i, j);
    }
    PartsOf(c.es, t);
    CutPending(c.es, Fired(c.es, t), Surviving(c.es, t), |Fired(c.es, t)|, id);
  }

  lemma AnnouncePlaced(c: Clock, t: nat)
    requires Good(c)
    ensures Placed(Step(c, Announce(t)))
  {
    hide Fired, Surviving, Pending, Logged, Ordered, Future, LatestFirst, Truthful, Punctual, Fair;
    var f, c' := Fired(c.es, t), Step(c, Announce(t));
    forall id: Id
      ensures Count(Pending(c'.es, id)) + Count(Logged(c'.log, id)) + Count(id in c'.aborted)
           == Count(id < |c'.deadline|)
    {
      FiresOrSurvives(c, t, id);
      LoggedMore(c.log, f, c.now, c.now + t, id);
    }
  }

  lemma LoggedMore(log: seq<Firing>, f: seq<Entry>, before: nat, after: nat, id: Id)
    ensures Logged(log + Firings(f, before, after), id) <==> Logged(log, id) || Pending(f, id)
  {
    var l := log + Firings(f, before, after);
    if i :| 0 <= i < |log| && log[i].id == id {
      assert l[i].id == id;
    }
    if i :| 0 <= i < |f| && f[i].id == id {
      assert l[|log| + i].id == id;
    }
    if i :| 0 <= i < |l| && l[i].id == id && i >= |log| {
      assert f[i - |log|].id == id;
    }
  }

  ghost function Run(c: Clock, es: seq<Event>): (r: Clock)
    requires Good(c) && forall e | e in es :: Legal(e)
    ensures Good(r)
    decreases |es|
  {
    if es == [] then c
    else
      StepGood(c, es[0]);
      Run(Step(c, es[0]), es[1..])
  }

  lemma StepGood(c: Clock, e: Event)
    requires Good(c) && Legal(e)
    ensures Good(Step(c, e))
  {
    match e
    case Start(t) => StartGood(c, t);
    case Abort(id) => AbortGood(c, id);
    case Announce(t) =>
      AnnounceQueue(c, t);
      AnnouncePunctual(c, t);
      AnnounceFair(c, t);
      AnnouncePlaced(c, t);
  }

  ghost function Boot(): (c: Clock)
    ensures Good(c)
  {
    Clock(0, [], [], [], {})
  }

  /** In every run: each timeout started is in exactly one place, pending, handled or aborted, and
      was handled at most once; one that has reached its deadline without being aborted has been
      handled, by the announcement that reached it; timeouts sharing a deadline are handled in the
      order they were started; and whatever is still pending is due in exactly the ticks the queue
      records. */
  lemma {:induction false} TimeoutSafety(es: seq<Event>)
    requires forall e | e in es :: Legal(e)
    ensures var c := Run(Boot(), es);
            && Placed(c)
            && (forall i, j | 0 <= i < j < |c.log| :: c.log[i].id != c.log[j].id)
            && (forall id | 0 <= id < |c.deadline| && c.deadline[id] <= c.now && id !in c.aborted :: Logged(c.log, id))
            && Punctual(c.log, c.now, c.deadline) && Fair(c.log, c.deadline)
            && Truthful(c.es, c.now, c.deadline)
  {
    hide Boot, Run, Placed, Logged, Truthful, Punctual, Ordered, Future, LatestFirst;
    var c := Run(Boot(), es);
    LoggedOnce(c.log, c.now, c.deadline);
    forall id | 0 <= id < |c.deadline| && c.deadline[id] <= c.now && id !in c.aborted ensures Logged(c.log, id) {
      DueIsHandled(c, id);
    }
  }

  lemma LoggedOnce(log: seq<Firing>, now: nat, deadline: seq<nat>)
    requires Punctual(log, now, deadline) && Fair(log, deadline)
    ensures forall i, j | 0 <= i < j < |log| :: log[i].id != log[j].id
  {
  }

  lemma DueIsHandled(c: Clock, id: Id)
    requires Truthful(c.es, c.now, c.deadline) && Future(c.es) && Placed(c)
    requires id < |c.deadline| && c.deadline[id] <= c.now && id !in c.aborted
    ensures Logged(c.log, id)
  {
    assert !Pending(c.es, id);
    hide Pending, Logged;
  }

  /** With announcements of one tick, the whole log is in deadline order. */
  ghost predicate InDeadlineOrder(c: Clock)
    requires Good(c)
  {
    forall i, j | 0 <= i < j < |c.log| :: c.deadline[c.log[i].id] <= c.deadline[c.log[j].id]
  }

  lemma TickInOrder(c: Clock, e: Event)
    requires Good(c) && Legal(e) && InDeadlineOrder(c) && (e.Announce? ==> e.ticks == 1)
    ensures Good(Step(c, e)) && InDeadlineOrder(Step(c, e))
  {
    StepGood(c, e);
    if e.Announce? {
      var f, n, c' := Fired(c.es, 1), |c.log|, Step(c, e);
      forall i | n <= i < |c'.log| ensures c.deadline[c'.log[i].id] == c.now + 1 {
        assert f[i - n] == c.es[|f| - 1 - (i - n)];
      }
    }
  }

  lemma {:induction false} TicksInOrder(c: Clock, es: seq<Event>)
    requires Good(c) && InDeadlineOrder(c)
    requires forall e | e in es :: Legal(e) && (e.Announce? ==> e.ticks == 1)
    ensures InDeadlineOrder(Run(c, es))
    decreases |es|
  {
    if es != [] {
      TickInOrder(c, es[0]);
      TicksInOrder(Step(c, es[0]), es[1..]);
    }
  }
}
