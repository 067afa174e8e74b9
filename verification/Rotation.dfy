/** Round robin among equally urgent threads: by yielding, and by time slices. */
module Rotation {
  import opened Basics
  import opened WaitQueue
  import opened Scheduler
  import opened MultiQueue
  import opened SchedulerRuns

  /** A full turn of the ring by one place. */
  function Turned(ring: seq<Tid>): seq<Tid>
    requires ring != []
  {
    ring[1..] + [ring[0]]
  }

  ghost function TurnedBy(ring: seq<Tid>, k: nat): (r: seq<Tid>)
    requires ring != []
    ensures |r| == |ring|
  {
    if k == 0 then ring else Turned(TurnedBy(ring, k - 1))
  }

  lemma ModSucc(a: nat, n: nat)
    requires n > 0
    ensures (a % n + 1) % n == (a + 1) % n
    ensures (a + 1) % n == if a % n + 1 == n then 0 else a % n + 1
    ensures (a + 1) / n == if a % n + 1 == n then a / n + 1 else a / n
  {
    var q, r := a / n, a % n;
    assert a == n * q + r;
    if r + 1 == n {
      DivModUnique(a + 1, n, q + 1, 0);
      DivModUnique(n, n, 1, 0);
    } else {
      DivModUnique(a + 1, n, q, r + 1);
      DivModUnique(r + 1, n, 0, r + 1);
    }
  }

  lemma DivModUnique(a: nat, n: nat, q: nat, r: nat)
    requires n > 0 && a == n * q + r && r < n
    ensures a / n == q && a % n == r
  {
    var d, m := a / n, a % n;
    assert a == n * d + m;
    SameQuotient(n, q, d, m - r);
  }

  lemma SameQuotient(n: nat, q: int, d: int, e: int)
    requires n > 0 && n * q == n * d + e && 0 - n < e < n
    ensures q == d && e == 0
  {
    assert n * (q - d) == e;
    if q - d >= 1 {
      MulMono(n, 1, q - d);
    } else if q - d <= -1 {
      MulMono(n, 1, d - q);
    }
  }

  /** Where everybody is after `k` places. */
  lemma {:induction false} TurnedAt(ring: seq<Tid>, k: nat, i: nat)
    requires i < |ring|
    ensures TurnedBy(ring, k)[i] == ring[(i + k) % |ring|]
  {
    var n := |ring|;
    if k == 0 {
      DivModUnique(i, n, 0, i);
    } else if i + 1 < n {
      TurnedAt(ring, k - 1, i + 1);
    } else {
      TurnedAt(ring, k - 1, 0);
      WrapsAround(k - 1, n);
    }
  }

  lemma WrapsAround(k: nat, n: nat)
    requires n > 0
    ensures (n + k) % n == k % n
  {
    DivModUnique(n + k, n, k / n + 1, k % n);
  }

  // --------------------------------------------------------------- queue

  /** The ring's threads are ready at priority `p`; everyone behind them is less urgent. */
  ghost predicate Front(s: State, ring: seq<Tid>, p: int, rest: Queue) {
    && ring != []
    && NoRepeat(ring)
    && s.runq == Tag(ring, p) + rest
    && (forall w | w in rest :: p < w.prio && w.tid !in ring)
    && (forall t | t in ring :: t in s.threads && t != s.idle && s.threads[t].prio == p && Ready(s, t))
  }

  /** The ring is at the front and its first thread is running. */
  ghost predicate Rotating(s: State, ring: seq<Tid>, p: int, rest: Queue) {
    Front(s, ring, p, rest) && s.current == s.cache == ring[0]
  }

  lemma TagAbsent(l: seq<Tid>, p: int, t: Tid)
    requires t !in l
    ensures Without(Tag(l, p), t) == Tag(l, p)
  {
    DropAbsent(l, t);
    TagDrop(l, t, p);
  }

  lemma LeavesFront(ring: seq<Tid>, p: int, rest: Queue)
    requires ring != [] && NoRepeat(ring) && forall w | w in rest :: w.tid !in ring
    ensures Without(Tag(ring, p) + rest, ring[0]) == Tag(ring[1..], p) + rest
  {
    var t, l := ring[0], ring[1..];
    assert Tag(ring, p) + rest == [Waiter(t, p, ())] + (Tag(l, p) + rest);
    WithoutConcat([Waiter(t, p, ())], Tag(l, p) + rest, t);
    WithoutConcat(Tag(l, p), rest, t);
    assert Without([Waiter(t, p, ())], t) == [] by {
      assert [Waiter(t, p, ())][1..] == [];
    }
    assert t in ring;
    assert forall i | 0 <= i < |rest| :: rest[i] in rest;
    WithoutAbsent(rest, t);
    TagAbsent(l, p, t);
  }

  lemma JoinsBehind(l: seq<Tid>, p: int, rest: Queue, t: Tid)
    requires forall w | w in rest :: p < w.prio
    ensures Enqueue(Tag(l, p) + rest, Waiter(t, p, ())) == Tag(l + [t], p) + rest
  {
    var q := Tag(l, p) + rest;
    if rest != [] {
      assert q[|l|] == rest[0] && rest[0] in rest;
    }
    SlotUnique(q, p, |l|);
    TagAppend(l, t, p);
    assert q[..|l|] == Tag(l, p) && q[|l|..] == rest;
  }

  // --------------------------------------------------------------- yield

  lemma TurnedKeeps(ring: seq<Tid>)
    requires ring != [] && NoRepeat(ring)
    ensures NoRepeat(Turned(ring)) && forall t :: t in Turned(ring) <==> t in ring
  {
    var r := Turned(ring);
    assert ring == [ring[0]] + ring[1..];
    forall i, j | 0 <= i < j < |r| ensures r[i] != r[j] {
      assert r[i] == ring[i + 1];
      assert j + 1 < |ring| ==> r[j] == ring[j + 1];
    }
  }

  /** Taking the front thread off and adding it again turns the ring by one place. */
  lemma RequeueTurns(s: State, ring: seq<Tid>, p: int, rest: Queue, ok: bool)
    requires Front(s, ring, p, rest) && s.current in s.threads
    ensures ring[0] in s.threads
    ensures Front(Requeued(s, ring[0], p, ok), Turned(ring), p, rest)
    ensures Requeued(s, ring[0], p, ok).threads == s.threads
  {
    var t := ring[0];
    assert t in ring;
    LeavesFront(ring, p, rest);
    JoinsBehind(ring[1..], p, rest, t);
    TurnedKeeps(ring);
    assert s.threads[t := s.threads[t].(prio := p)] == s.threads;
  }

  lemma YieldTurns(s: State, ring: seq<Tid>, p: int, rest: Queue)
    requires Rotating(s, ring, p, rest)
    ensures Legal(s, Yield) && Rotating(Do(s, Yield), Turned(ring), p, rest)
    ensures Do(s, Yield).threads == s.threads
  {
    assert ring[0] in ring;
    RequeueTurns(s, ring, p, rest, true);
    hide Enqueue, Without, NoRepeat;
  }

  /** `k` yields in a row, each by whoever is running. */
  ghost function Yields(k: nat): seq<Event> {
    seq(k, _ => Yield)
  }

  lemma {:induction false} YieldsTurn(s: State, ring: seq<Tid>, p: int, rest: Queue, k: nat)
    requires Rotating(s, ring, p, rest)
    ensures LegalRun(s, Yields(k))
    ensures Rotating(Run(s, Yields(k)), TurnedBy(ring, k), p, rest)
    decreases k
  {
    if k > 0 {
      hide Rotating, Do;
      YieldTurns(s, ring, p, rest);
      assert Yields(k)[1..] == Yields(k - 1);
      YieldsTurn(Do(s, Yield), Turned(ring), p, rest, k - 1);
      TurnedFirst(ring, k);
    }
  }

  lemma {:induction false} TurnedFirst(ring: seq<Tid>, k: nat)
    requires ring != [] && k > 0
    ensures TurnedBy(Turned(ring), k - 1) == TurnedBy(ring, k)
  {
    if k > 1 {
      TurnedFirst(ring, k - 1);
    }
  }

  /** With the ring's threads equally urgent at the front of the run queue and the first of them
      running, after `k` yields it is the turn of number `k` modulo their number. */
  lemma YieldRotation(s: State, ring: seq<Tid>, p: int, rest: Queue, k: nat)
    requires Rotating(s, ring, p, rest)
    ensures LegalRun(s, Yields(k)) && Run(s, Yields(k)).current == ring[k % |ring|]
  {
    YieldsTurn(s, ring, p, rest, k);
    TurnedAt(ring, k, 0);
  }

  // --------------------------------------------------------- time slices

  /** The scheduler with `_time_slice_duration`, `_time_slice_elapsed` and `_time_slice_prio_ceiling`. */
  datatype Clock = Clock(sched: State, duration: int, elapsed: int, ceiling: int)

  /** `_is_thread_time_slicing` of the current thread. */
  predicate Slicing(c: Clock) {
    && c.sched.current in c.sched.threads
    && c.duration > 0
    && Preemptible(c.sched.threads[c.sched.current])
    && c.ceiling <= c.sched.threads[c.sched.current].prio
    && c.sched.runq != []
    && c.sched.threads[c.sched.current].prio == c.sched.runq[0].prio
  }

  /** `handle_time_slicing`. */
  function Sliced(c: Clock, ticks: int): Clock {
    if !Slicing(c) then c
    else if c.elapsed + ticks < c.duration then c.(elapsed := c.elapsed + ticks)
    else
      var t := c.sched.current;
      c.(elapsed := 0, sched := Requeued(c.sched, t, c.sched.threads[t].prio, false))
  }

  /** The clock interrupt announcing one tick, and the switch on leaving it. */
  function Tick(c: Clock): Clock {
    var c1 := Sliced(c, 1);
    c1.(sched := Switch(c1.sched))
  }

  function Ticked(c: Clock, m: nat): Clock {
    if m == 0 then c else Tick(Ticked(c, m - 1))
  }

  /** Every thread of the ring takes part in time slicing. */
  ghost predicate Eligible(c: Clock, ring: seq<Tid>, p: int) {
    && 0 <= c.elapsed < c.duration
    && 0 <= p <= 127 && c.ceiling <= p
    && (forall t | t in ring :: t in c.sched.threads && c.sched.threads[t].locked == 0)
  }

  ghost predicate InSlices(c: Clock, ring: seq<Tid>, p: int, rest: Queue) {
    Rotating(c.sched, ring, p, rest) && Eligible(c, ring, p)
  }

  lemma RingSlices(c: Clock, ring: seq<Tid>, p: int, rest: Queue)
    requires InSlices(c, ring, p, rest)
    ensures Slicing(c)
  {
    assert ring[0] in ring;
    assert c.sched.runq[0] == Tag(ring, p)[0];
    PreemptEncoding(c.sched.threads[ring[0]]);
  }

  /** Within a slice a tick only counts; the tick that ends it turns the ring by one place. */
  lemma TickTurns(c: Clock, ring: seq<Tid>, p: int, rest: Queue)
    requires InSlices(c, ring, p, rest)
    ensures 0 <= c.elapsed < c.duration
    ensures c.elapsed + 1 < c.duration ==>
              InSlices(Tick(c), ring, p, rest) && Tick(c).elapsed == c.elapsed + 1
    ensures c.elapsed + 1 == c.duration ==>
              InSlices(Tick(c), Turned(ring), p, rest) && Tick(c).elapsed == 0
    ensures Tick(c).duration == c.duration
  {
    RingSlices(c, ring, p, rest);
    if c.elapsed + 1 == c.duration {
      assert ring[0] in ring;
      RequeueTurns(c.sched, ring, p, rest, false);
      TurnedKeeps(ring);
      hide Enqueue, Without, NoRepeat, Preemptible;
    }
  }

  lemma {:induction false} TicksTurn(c: Clock, ring: seq<Tid>, p: int, rest: Queue, m: nat)
    requires ring != [] && c.duration > 0 && InSlices(c, ring, p, rest) && c.elapsed == 0
    ensures var r := Ticked(c, m);
            && r.duration == c.duration
            && r.elapsed == m % c.duration
            && InSlices(r, TurnedBy(ring, m / c.duration), p, rest)
    decreases m
  {
    hide InSlices, Tick, TurnedBy;
    var d := c.duration;
    TickTurns(c, ring, p, rest);
    if m == 0 {
      DivModUnique(0, d, 0, 0);
      TurnedByNone(ring);
    } else {
      TicksTurn(c, ring, p, rest, m - 1);
      ModSucc(m - 1, d);
      var k := (m - 1) / d;
      TickTurns(Ticked(c, m - 1), TurnedBy(ring, k), p, rest);
      TurnedByNext(ring, k);
    }
  }

  lemma TurnedByNone(ring: seq<Tid>)
    requires ring != []
    ensures TurnedBy(ring, 0) == ring
  {
  }

  lemma TurnedByNext(ring: seq<Tid>, k: nat)
    requires ring != []
    ensures TurnedBy(ring, k + 1) == Turned(TurnedBy(ring, k))
  {
  }

  /** With time slicing on and ticks announced one at a time, the same rotation happens every
      `duration` ticks. */
  lemma SliceRotation(c: Clock, ring: seq<Tid>, p: int, rest: Queue, m: nat)
    requires InSlices(c, ring, p, rest) && c.elapsed == 0
    ensures Ticked(c, m).sched.current == ring[(m / c.duration) % |ring|]
  {
    hide Ticked, TurnedBy, InSlices;
    assert ring != [] && c.duration > 0 by {
      SlicesDefined(c, ring, p, rest);
    }
    var k := m / c.duration;
    TicksTurn(c, ring, p, rest, m);
    TurnedAt(ring, k, 0);
    FirstRuns(Ticked(c, m), TurnedBy(ring, k), p, rest);
  }

  lemma SlicesDefined(c: Clock, ring: seq<Tid>, p: int, rest: Queue)
    requires InSlices(c, ring, p, rest)
    ensures ring != [] && c.duration > 0
  {
  }

  lemma FirstRuns(c: Clock, ring: seq<Tid>, p: int, rest: Queue)
    requires InSlices(c, ring, p, rest)
    ensures ring != [] && c.sched.current == ring[0]
  {
  }

  /** Fairness: whenever it is, each of the `n` threads runs within the next `n - 1` slices. */
  lemma WaitsAtMost(c: Clock, ring: seq<Tid>, p: int, rest: Queue, m: nat, i: nat)
    requires InSlices(c, ring, p, rest) && c.elapsed == 0 && i < |ring|
    ensures exists m': nat :: m <= m' <= m + (|ring| - 1) * c.duration && Ticked(c, m').sched.current == ring[i]
  {
    var d, n := c.duration, |ring|;
    var j := NextTurn(m / d, n, i);
    var m' := NextStart(m, d, j, n);
    SliceRotation(c, ring, p, rest, m');
  }

  /** The first slice from `a` on that belongs to number `i`. */
  lemma NextTurn(a: nat, n: nat, i: nat) returns (j: nat)
    requires i < n
    ensures a <= j <= a + n - 1 && j % n == i
  {
    var r := a % n;
    if r <= i {
      j := a + (i - r);
      DivModUnique(j, n, a / n, i);
    } else {
      j := a + (n + i - r);
      DivModUnique(j, n, a / n + 1, i);
    }
  }

  /** A tick of slice `j`, not before `m`. */
  lemma NextStart(m: nat, d: nat, j: nat, n: nat) returns (m': nat)
    requires d > 0 && m / d <= j <= m / d + n - 1
    ensures m <= m' <= m + (n - 1) * d && m' / d == j
  {
    var a := m / d;
    assert m == d * a + m % d;
    MulMono(d, j - a, n - 1);
    if j == a {
      m' := m;
    } else {
      m' := d * j;
      DivModUnique(m', d, j, 0);
      MulMono(d, a + 1, j);
    }
  }
}
