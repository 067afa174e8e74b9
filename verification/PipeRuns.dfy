/** What holds of a pipe in every state that any mix of writes, reads and timeouts can reach. */
module PipeRuns {
  import opened Basics
  import opened WaitQueue
  import opened PipeSpec
  import opened PipeQueues

  /** The shape the kernel relies on: readers wait only on an empty pipe nobody waits to write to,
      writers wait only on a full one, and nobody waits for nothing.  On a pipe of size zero,
      empty and full are the same. */
  ghost predicate Shape(s: PipeState) {
    && Fits(s) && Sides(s)
    && Positive(s.readers) && Positive(s.writers)
    && Sorted(s.readers) && Sorted(s.writers)
  }

  ghost predicate Fits(s: PipeState) {
    |s.ring| <= s.size && WritersOk(s.writers)
  }

  ghost predicate Sides(s: PipeState) {
    && (s.readers != [] ==> s.ring == [] && s.writers == [])
    && (s.writers != [] ==> |s.ring| == s.size)
  }

  datatype Event =
    | PutEv(c: (Tid, int), data: seq<byte>, min: nat, wait: Wait, async: bool, late: set<Tid>)
    | GetEv(c: (Tid, int), want: nat, min: nat, wait: Wait, late: set<Tid>)
    | ExpireEv(tid: Tid)

  /** What the callers must respect: no more than the request may be demanded. */
  predicate Legal(e: Event) {
    match e
    case PutEv(_, data, min, _, _, _) => min <= |data|
    case GetEv(_, want, min, _, _) => min <= want
    case ExpireEv(_) => true
  }

  ghost function Do(s: PipeState, e: Event): StepOut
    requires Fits(s) && Legal(e)
  {
    match e
    case PutEv(c, data, min, wait, async, late) => Put(s, c, data, min, wait, async, late)
    case GetEv(c, want, min, wait, late) => Get(s, c, want, min, wait, late)
    case ExpireEv(tid) => Expire(s, tid)
  }

  // ---------------------------------------------------------------- writes

  lemma NothingOpen(q: seq<Pended>)
    requires Need(q) == 0 && Positive(q)
    ensures q == []
  {
  }

  lemma {:induction false} NeedPositive(q: seq<Pended>)
    requires Positive(q)
    ensures Need(q) >= |q|
  {
    if q != [] {
      NeedPositive(q[1..]);
    }
  }

  /** The readers left after handing out `d`: gone if everyone was served. */
  lemma FilledReaders(q: seq<Pended>, d: seq<byte>, late: set<Tid>)
    requires Sorted(q) && |d| <= Need(q)
    ensures var r := Only(Only(Fill(q, d), Open), OnTime(late));
            Sorted(r) && Positive(r) && (|d| == Need(q) ==> r == [])
  {
    var f := Fill(q, d);
    FillDelivers(q, d);
    assert Sorted(f);
    OnlySorted(f, Open);
    OnlyPicks(f, Open);
    OpenKeeps(f);
    var o := Only(f, Open);
    assert Positive(o);
    OnlySorted(o, OnTime(late));
    OnlyPicks(o, OnTime(late));
    if |d| == Need(q) {
      NothingOpen(o);
    }
  }

  lemma PutShape(s: PipeState, c: (Tid, int), data: seq<byte>, min: nat, wait: Wait, async: bool, late: set<Tid>)
    requires Shape(s) && min <= |data|
    ensures Shape(Put(s, c, data, min, wait, async, late).next)
  {
    hide Slot, Sorted, Positive, Fill, Only, Enqueue, WritersOk;
    var give := Min(|data|, Need(s.readers));
    NeedPositive(s.readers);
    FilledReaders(s.readers, data[..give], late);
    var writers := Only(s.writers, OnTime(late));
    OnlySorted(s.writers, OnTime(late));
    OnlyPicks(s.writers, OnTime(late));
    var moved := give + Min(|data| - give, s.size - |s.ring|);
    NobodyPicked(s.writers, OnTime(late));
    if moved < |data| {
      var me := Waiter(c.0, c.1, Desc(data, |data| - moved, min, async));
      EnqueueSorted(writers, me);
      EnqueueGot(writers, me);
      EnqueueGiven(writers, me);
    }
  }

  lemma NobodyPicked(q: seq<Pended>, c: Choice)
    ensures q == [] ==> Only(q, c) == []
  {
  }

  // ---------------------------------------------------------------- reads

  lemma SplitRest(r: seq<byte>, b: seq<byte>, n: nat, m: nat)
    requires |r| <= n + m <= |r| + |b|
    ensures (r + b)[n..n + m] + b[n + m - |r|..] == (r + b)[n..]
  {
    var all := r + b;
    assert all[n + m..] == b[n + m - |r|..];
    assert all[n..] == all[n..n + m] + all[n + m..];
  }

  /** The writers still owing bytes once `n` bytes of the stream are read. */
  ghost function Owing(s: PipeState, n: nat): (w: seq<Pended>)
    requires Fits(s) && n <= |Stream(s)|
  {
    Only(Drain(s.writers, Supplied(s, n)), Open)
  }

  lemma OwingBytes(s: PipeState, n: nat)
    requires Fits(s) && n <= |Stream(s)|
    ensures var w := Owing(s, n);
            WritersOk(w) && Positive(w) && Bytes(w) == Bytes(s.writers)[Supplied(s, n)..]
  {
    var d := Drain(s.writers, Supplied(s, n));
    DrainTakes(s.writers, Supplied(s, n));
    OpenKeeps(d);
    OnlyPicks(d, Open);
  }

  /** After `n` bytes are read, buffer and writers together hold exactly the rest of the stream. */
  lemma ReadKeepsRest(s: PipeState, n: nat)
    requires Fits(s) && n <= |Stream(s)|
    ensures WritersOk(Owing(s, n)) && Refilled(s, n) + Bytes(Owing(s, n)) == Stream(s)[n..]
  {
    OwingBytes(s, n);
    SplitRest(s.ring, Bytes(s.writers), n, |Refilled(s, n)|);
  }

  /** Unless the buffer is full again, no writer has anything left. */
  lemma ReadDrainsWriters(s: PipeState, n: nat)
    requires Fits(s) && n <= |Stream(s)|
    ensures Owing(s, n) != [] ==> |Refilled(s, n)| == s.size
  {
    OwingBytes(s, n);
    if |Refilled(s, n)| < s.size {
      assert |Bytes(Owing(s, n))| == 0;
      NothingOpen(Owing(s, n));
    }
  }

  /** A read returns the front of the stream and readies a writer only when nothing of that writer's
      data is left.  Buffer and owing writers together hold exactly the rest of the stream, in order;
      the owing writers whose timeout fired meanwhile leave the queue with what they still owe, and
      all the others stay. */
  lemma GetTakesFront(s: PipeState, c: (Tid, int), want: nat, min: nat, wait: Wait, late: set<Tid>)
    requires Fits(s) && min <= want
    requires !(wait.NoWait? && |Stream(s)| < min)
    ensures var o := Get(s, c, want, min, wait, late);
            var n := Min(want, |Stream(s)|);
            && o.delivered == Stream(s)[..n]
            && WritersOk(Owing(s, n)) && o.next.ring + Bytes(Owing(s, n)) == Stream(s)[n..]
            && o.next.writers == Only(Owing(s, n), OnTime(late))
            && o.lateWriters == Only(Owing(s, n), Late(late))
            && (late == {} ==> WritersOk(o.next.writers) && Stream(o.next) == Stream(s)[n..])
            && (forall i | 0 <= i < |o.woken| :: o.woken[i].data.left == 0)
  {
    var n := Min(want, |Stream(s)|);
    ReadKeepsRest(s, n);
    OnlyPicks(Drain(s.writers, Supplied(s, n)), Done);
    OnlyEveryone(Owing(s, n));
  }

  lemma {:induction false} OnlyEveryone(q: seq<Pended>)
    ensures Only(q, OnTime({})) == q
  {
    if q != [] {
      OnlyEveryone(q[1..]);
    }
  }

  /** The writers left after a read of `n` bytes. */
  lemma ReadWriters(s: PipeState, n: nat, late: set<Tid>)
    requires Shape(s) && n <= |Stream(s)|
    ensures var w := Only(Owing(s, n), OnTime(late));
            && Sorted(w) && Positive(w) && WritersOk(w)
            && (w != [] ==> |Refilled(s, n)| == s.size)
  {
    OwingBytes(s, n);
    ReadDrainsWriters(s, n);
    DrainKept(s.writers, Supplied(s, n));
    OnlySorted(Drain(s.writers, Supplied(s, n)), Open);
    OnlySorted(Owing(s, n), OnTime(late));
    OnlyPicks(Owing(s, n), OnTime(late));
  }

  /** The readers left after a read that came away with `n` bytes. */
  lemma ReadReaders(s: PipeState, me: Pended, late: set<Tid>)
    requires Shape(s)
    ensures var r := Only(s.readers, OnTime(late));
            && Sorted(r) && Positive(r) && (s.readers == [] ==> r == [])
            && Sorted(Enqueue(r, me)) && (me.data.left >= 1 ==> Positive(Enqueue(r, me)))
  {
    var r := Only(s.readers, OnTime(late));
    OnlySorted(s.readers, OnTime(late));
    OnlyPicks(s.readers, OnTime(late));
    EnqueueSorted(r, me);
    EnqueueGot(r, me);
  }

  /** Reading the whole stream leaves nothing buffered and nobody waiting to write. */
  lemma ReadEverything(s: PipeState)
    requires Fits(s)
    ensures Refilled(s, |Stream(s)|) == [] && Owing(s, |Stream(s)|) == []
  {
    OwingBytes(s, |Stream(s)|);
    assert Need(Owing(s, |Stream(s)|)) == |Bytes(Owing(s, |Stream(s)|))| == 0;
    NothingOpen(Owing(s, |Stream(s)|));
  }

  lemma GetSides(s: PipeState, c: (Tid, int), want: nat, min: nat, wait: Wait, late: set<Tid>)
    requires Fits(s) && Sides(s) && min <= want
    ensures Sides(Get(s, c, want, min, wait, late).next)
  {
    var n := Min(want, |Stream(s)|);
    ReadDrainsWriters(s, n);
    if n < want || s.readers != [] {
      ReadEverything(s);
    }
  }

  lemma GetShape(s: PipeState, c: (Tid, int), want: nat, min: nat, wait: Wait, late: set<Tid>)
    requires Shape(s) && min <= want
    ensures Shape(Get(s, c, want, min, wait, late).next)
  {
    hide Need, Only, Slot, Drain, Bytes, Sorted, Positive;
    var n := Min(want, |Stream(s)|);
    GetSides(s, c, want, min, wait, late);
    ReadWriters(s, n, late);
    ReadReaders(s, Waiter(c.0, c.1, Desc(Stream(s)[..n], want - n, min, false)), late);
  }

  lemma ExpireShape(s: PipeState, tid: Tid)
    requires Shape(s)
    ensures Shape(Expire(s, tid).next)
  {
    OnlySorted(s.readers, OnTime({tid}));
    OnlyPicks(s.readers, OnTime({tid}));
    OnlySorted(s.writers, OnTime({tid}));
    OnlyPicks(s.writers, OnTime({tid}));
  }

  // ---------------------------------------------------------------- what one call moves

  /** How a write is split: to the waiting readers first, then to the buffer behind the bytes
      already there, and the rest only once readers are gone and the buffer is full. */
  lemma PutSplits(s: PipeState, c: (Tid, int), data: seq<byte>, min: nat, wait: Wait, async: bool, late: set<Tid>)
    requires Fits(s) && min <= |data|
    requires Put(s, c, data, min, wait, async, late).outcome != Returned(Eio, 0)
    ensures var o := Put(s, c, data, min, wait, async, late);
            && o.delivered <= o.taken <= data
            && o.next.ring == s.ring + o.taken[|o.delivered|..]
            && |o.delivered| == Min(|data|, Need(s.readers))
            && (o.taken != data ==> |o.next.ring| == s.size && |o.delivered| == Need(s.readers))
  {
    var give := Min(|data|, Need(s.readers));
    var moved := give + Min(|data| - give, s.size - |s.ring|);
    assert data[..moved][give..] == data[give..moved] && data[..give] == data[..moved][..give];
    assert moved == |data| ==> data[..moved] == data;
  }

  /** Waiting readers receive exactly the delivered bytes, in queue order, each completely before
      the next, and a reader is readied exactly when it has all it asked for. */
  lemma PutServesInOrder(s: PipeState, c: (Tid, int), data: seq<byte>, min: nat, wait: Wait, async: bool, late: set<Tid>)
    requires Fits(s) && min <= |data|
    requires Put(s, c, data, min, wait, async, late).outcome != Returned(Eio, 0)
    ensures var o := Put(s, c, data, min, wait, async, late);
            var filled := Fill(s.readers, o.delivered);
            && FillExtends(s.readers, o.delivered) && Gained(s.readers, filled) == o.delivered
            && o.woken == Only(filled, Done)
            && (forall i | 0 <= i < |o.woken| :: o.woken[i].data.left == 0)
            && (o.taken != data ==> o.woken == filled)
  {
    PutSplits(s, c, data, min, wait, async, late);
    var o := Put(s, c, data, min, wait, async, late);
    ServedInOrder(s.readers, o.delivered);
  }

  lemma ServedInOrder(q: seq<Pended>, d: seq<byte>)
    requires |d| <= Need(q)
    ensures FillExtends(q, d) && Gained(q, Fill(q, d)) == d
    ensures forall i | 0 <= i < |Only(Fill(q, d), Done)| :: Only(Fill(q, d), Done)[i].data.left == 0
    ensures |d| == Need(q) ==> Only(Fill(q, d), Done) == Fill(q, d)
  {
    FillDelivers(q, d);
    OnlyPicks(Fill(q, d), Done);
    if |d| == Need(q) {
      AllDone(Fill(q, d));
    }
  }

  lemma EnqueueBytes(q: seq<Pended>, w: Pended)
    requires WritersOk(q) && w.data.left <= |w.data.buffer|
    ensures var k := Slot(q, w.prio);
            && WritersOk(q[..k]) && WritersOk(q[k..]) && WritersOk(Enqueue(q, w))
            && Bytes(Enqueue(q, w)) == Bytes(q[..k]) + Rest(w) + Bytes(q[k..])
  {
    var k := Slot(q, w.prio);
    BytesConcat(q[..k], [w]);
    BytesConcat(q[..k] + [w], q[k..]);
    assert Bytes([w]) == Rest(w) + [] == Rest(w);
  }

  lemma SlotSplits(q: seq<Pended>, p: int)
    requires Sorted(q)
    ensures forall i | 0 <= i < |q| :: i < Slot(q, p) <==> q[i].prio <= p
  {
  }

  /** The queue `r` is `q` with the bytes `rest` behind every writer at least as urgent as `p` and in
      front of strictly less urgent ones only. */
  ghost predicate Behind(q: seq<Pended>, p: int, rest: seq<byte>, r: seq<Pended>) {
    var k := Slot(q, p);
    && (forall i | 0 <= i < |q| :: i < k <==> q[i].prio <= p)
    && WritersOk(q[..k]) && WritersOk(q[k..]) && WritersOk(r)
    && Bytes(r) == Bytes(q[..k]) + rest + Bytes(q[k..])
  }

  lemma EnqueueBehind(q: seq<Pended>, w: Pended)
    requires Sorted(q) && WritersOk(q) && w.data.left <= |w.data.buffer|
    ensures Behind(q, w.prio, Rest(w), Enqueue(q, w))
  {
    SlotSplits(q, w.prio);
    EnqueueBytes(q, w);
    hide Sorted, WritersOk, Bytes, Slot;
  }

  /** A blocked writer queues behind the buffer and behind every waiting writer at least as urgent,
      and only in front of strictly less urgent ones, whoever's timeout fires while it copies. */
  lemma PutOvertakesNobody(s: PipeState, c: (Tid, int), data: seq<byte>, min: nat, wait: Wait, async: bool,
                           late: set<Tid>)
    requires Fits(s) && Sorted(s.writers) && min <= |data|
    requires var o := Put(s, c, data, min, wait, async, late); o.outcome == Blocked || o.outcome == Posted
    ensures var o := Put(s, c, data, min, wait, async, late);
            && |o.taken| <= |data|
            && Behind(Only(s.writers, OnTime(late)), c.1, data[|o.taken|..], o.next.writers)
            && s.ring <= o.next.ring
  {
    hide Put, Sorted, WritersOk, Enqueue, Behind, Only;
    var o := Put(s, c, data, min, wait, async, late);
    PutPends(s, c, data, min, wait, async, late);
    var me := Waiter(c.0, c.1, Desc(data, |data| - |o.taken|, min, async));
    OnlySorted(s.writers, OnTime(late));
    OnlyPicks(s.writers, OnTime(late));
    EnqueueBehind(Only(s.writers, OnTime(late)), me);
    assert Rest(me) == data[|o.taken|..];
  }

  lemma PutPends(s: PipeState, c: (Tid, int), data: seq<byte>, min: nat, wait: Wait, async: bool, late: set<Tid>)
    requires Fits(s) && min <= |data|
    requires var o := Put(s, c, data, min, wait, async, late); o.outcome == Blocked || o.outcome == Posted
    ensures var o := Put(s, c, data, min, wait, async, late);
            && |o.taken| <= |data|
            && o.next.writers == Enqueue(Only(s.writers, OnTime(late)),
                                         Waiter(c.0, c.1, Desc(data, |data| - |o.taken|, min, async)))
            && s.ring <= o.next.ring
  {
    hide Need, Fill, Only, Enqueue;
  }

  /** Without waiting, a write or a read either fails having moved nothing, or moves at least the
      minimum and reports success; -EAGAIN cannot come out. */
  lemma NoWaitAllOrNothing(s: PipeState, e: Event)
    requires Fits(s) && Legal(e)
    requires (e.PutEv? || e.GetEv?) && e.wait.NoWait? && !(e.PutEv? && e.async)
    ensures var o := Do(s, e);
            && o.outcome.Returned?
            && (o.outcome.code == Eio ==> o.outcome.moved == 0 && o.next == s && o.taken == o.delivered == [])
            && (o.outcome.code != Eio ==> o.outcome.code == Ok && o.outcome.moved >= e.min)
            && (o.outcome.code == Eio <==>
                  e.min > if e.PutEv? then Need(s.readers) + s.size - |s.ring| else |Stream(s)|)
  {
  }

  // ---------------------------------------------------------------- whole runs

  /** A pipe with the history of its run: every byte ever taken from a writer and every byte ever
      delivered to a reader, in order, and what the finished calls reported to their callers. */
  datatype History = History(pipe: PipeState, taken: seq<byte>, delivered: seq<byte>, written: nat, read: nat)

  /** Bytes reported to callers by one step: by the call itself if it returned, and by every waiter
      whose call ended with it. */
  ghost function Reported(e: Event, o: StepOut): (r: (nat, nat))
    requires e.GetEv? ==> WritersOk(o.woken)
    requires WritersOk(o.lateWriters)
  {
    var now := if o.outcome.Returned? then o.outcome.moved else 0;
    match e
    case PutEv(_, _, _, _, _, _) => (now + Given(o.lateWriters), Got(o.woken) + Got(o.lateReaders))
    case GetEv(_, _, _, _, _) => (Given(o.woken) + Given(o.lateWriters), now + Got(o.lateReaders))
    case ExpireEv(_) => (Given(o.lateWriters), Got(o.lateReaders))
  }

  ghost predicate Consistent(h: History) {
    && Shape(h.pipe)
    && h.taken == h.delivered + h.pipe.ring
    && |h.taken| == h.written + Given(h.pipe.writers)
    && |h.delivered| == h.read + Got(h.pipe.readers)
  }

  lemma PutStream(s: PipeState, c: (Tid, int), data: seq<byte>, min: nat, wait: Wait, async: bool, late: set<Tid>)
    requires Fits(s) && Sides(s) && min <= |data|
    ensures var o := Put(s, c, data, min, wait, async, late); s.ring + o.taken == o.delivered + o.next.ring
  {
    hide Fill, Only, Slot, Enqueue;
    var o := Put(s, c, data, min, wait, async, late);
    if o.outcome == Returned(Eio, 0) {
      assert o.taken == o.delivered == [] && o.next == s;
    } else {
      PutSplits(s, c, data, min, wait, async, late);
      hide Put;
      Through(s.ring, o.taken, o.delivered);
    }
  }

  /** Bytes go round an empty buffer, or into it. */
  lemma Through(ring: seq<byte>, taken: seq<byte>, delivered: seq<byte>)
    requires delivered <= taken && (ring == [] || delivered == [])
    ensures ring + taken == delivered + (ring + taken[|delivered|..])
  {
    assert taken == delivered + taken[|delivered|..];
    assert [] + taken == taken && [] + taken[|delivered|..] == taken[|delivered|..];
  }

  lemma SplitFront(r: seq<byte>, b: seq<byte>, n: nat, m: nat)
    requires |r| <= n + m <= |r| + |b|
    ensures r + b[..n + m - |r|] == (r + b)[..n] + (r + b)[n..n + m]
  {
    assert (r + b)[..n + m] == r + b[..n + m - |r|];
  }

  lemma GetStream(s: PipeState, c: (Tid, int), want: nat, min: nat, wait: Wait, late: set<Tid>)
    requires Fits(s) && min <= want
    ensures var o := Get(s, c, want, min, wait, late); s.ring + o.taken == o.delivered + o.next.ring
  {
    hide Bytes, Drain, Only, Need, Enqueue;
    var n := Min(want, |Stream(s)|);
    SplitFront(s.ring, Bytes(s.writers), n, |Refilled(s, n)|);
  }

  lemma StepStream(s: PipeState, e: Event)
    requires Fits(s) && Sides(s) && Legal(e)
    ensures var o := Do(s, e); s.ring + o.taken == o.delivered + o.next.ring
  {
    match e
    case PutEv(c, data, min, wait, async, late) => PutStream(s, c, data, min, wait, async, late);
    case GetEv(c, want, min, wait, late) => GetStream(s, c, want, min, wait, late);
    case ExpireEv(tid) =>
  }

  lemma FillReports(q: seq<Pended>, d: seq<byte>, late: set<Tid>)
    requires |d| <= Need(q)
    ensures var f := Fill(q, d);
            var o := Only(f, Open);
            Got(q) + |d| == Got(Only(f, Done)) + Got(Only(o, Late(late))) + Got(Only(o, OnTime(late)))
  {
    FillDelivers(q, d);
    SplitGot(Fill(q, d), Done, Open);
    SplitGot(Only(Fill(q, d), Open), Late(late), OnTime(late));
  }

  lemma WritersReport(q: seq<Pended>, me: Pended, late: set<Tid>)
    requires WritersOk(q) && me.data.left <= |me.data.buffer|
    ensures var w := Only(q, OnTime(late));
            && WritersOk(w) && WritersOk(Only(q, Late(late))) && WritersOk(Enqueue(w, me))
            && Given(q) == Given(Only(q, Late(late))) + Given(w)
            && Given(Enqueue(w, me)) == Given(w) + |me.data.buffer| - me.data.left
  {
    SplitGiven(q, Late(late), OnTime(late));
    EnqueueGiven(Only(q, OnTime(late)), me);
  }

  lemma PutReports(s: PipeState, e: Event)
    requires Fits(s) && Legal(e) && e.PutEv?
    ensures var o := Do(s, e);
            && WritersOk(o.lateWriters) && WritersOk(o.next.writers)
            && Given(s.writers) + |o.taken| == Reported(e, o).0 + Given(o.next.writers)
            && Got(s.readers) + |o.delivered| == Reported(e, o).1 + Got(o.next.readers)
  {
    hide Need, Only, Enqueue, Fill;
    var o := Do(s, e);
    if o.outcome != Returned(Eio, 0) {
      FillReports(s.readers, e.data[..Min(|e.data|, Need(s.readers))], e.late);
      WritersReport(s.writers, Waiter(e.c.0, e.c.1, Desc(e.data, |e.data| - |o.taken|, e.min, e.async)), e.late);
    }
  }

  lemma DrainReports(q: seq<Pended>, k: nat, late: set<Tid>)
    requires WritersOk(q) && k <= Need(q)
    ensures var d := Drain(q, k);
            var o := Only(d, Open);
            && WritersOk(d) && WritersOk(Only(d, Done)) && WritersOk(o)
            && WritersOk(Only(o, Late(late))) && WritersOk(Only(o, OnTime(late)))
            && Given(q) + k == Given(Only(d, Done)) + Given(Only(o, Late(late))) + Given(Only(o, OnTime(late)))
  {
    DrainGives(q, k);
    SplitGiven(Drain(q, k), Done, Open);
    SplitGiven(Only(Drain(q, k), Open), Late(late), OnTime(late));
  }

  lemma ReadersReport(q: seq<Pended>, me: Pended, late: set<Tid>)
    ensures var r := Only(q, OnTime(late));
            && Got(q) == Got(Only(q, Late(late))) + Got(r)
            && Got(Enqueue(r, me)) == Got(r) + |me.data.buffer|
  {
    SplitGot(q, Late(late), OnTime(late));
    EnqueueGot(Only(q, OnTime(late)), me);
  }

  lemma GetReports(s: PipeState, e: Event)
    requires Fits(s) && Legal(e) && e.GetEv?
    ensures var o := Do(s, e);
            && WritersOk(o.woken) && WritersOk(o.lateWriters) && WritersOk(o.next.writers)
            && Given(s.writers) + |o.taken| == Reported(e, o).0 + Given(o.next.writers)
            && Got(s.readers) + |o.delivered| == Reported(e, o).1 + Got(o.next.readers)
  {
    var o := Do(s, e);
    if o.outcome != Returned(Eio, 0) {
      var n := Min(e.want, |Stream(s)|);
      DrainReports(s.writers, Supplied(s, n), e.late);
      ReadersReport(s.readers, Waiter(e.c.0, e.c.1, Desc(Stream(s)[..n], e.want - n, e.min, false)), e.late);
    }
  }

  lemma ExpireReports(s: PipeState, e: Event)
    requires Fits(s) && e.ExpireEv?
    ensures var o := Do(s, e);
            && WritersOk(o.lateWriters) && WritersOk(o.next.writers)
            && Given(s.writers) == Reported(e, o).0 + Given(o.next.writers)
            && Got(s.readers) == Reported(e, o).1 + Got(o.next.readers)
  {
    SplitGiven(s.writers, Late({e.tid}), OnTime({e.tid}));
    SplitGot(s.readers, Late({e.tid}), OnTime({e.tid}));
  }

  lemma StepReports(s: PipeState, e: Event)
    requires Fits(s) && Legal(e)
    ensures var o := Do(s, e);
            && (e.GetEv? ==> WritersOk(o.woken)) && WritersOk(o.lateWriters) && WritersOk(o.next.writers)
            && Given(s.writers) + |o.taken| == Reported(e, o).0 + Given(o.next.writers)
            && Got(s.readers) + |o.delivered| == Reported(e, o).1 + Got(o.next.readers)
  {
    match e
    case PutEv(_, _, _, _, _, _) => PutReports(s, e);
    case GetEv(_, _, _, _, _) => GetReports(s, e);
    case ExpireEv(_) => ExpireReports(s, e);
  }

  lemma StepShape(s: PipeState, e: Event)
    requires Shape(s) && Legal(e)
    ensures Shape(Do(s, e).next)
  {
    match e
    case PutEv(c, data, min, wait, async, late) => PutShape(s, c, data, min, wait, async, late);
    case GetEv(c, want, min, wait, late) => GetShape(s, c, want, min, wait, late);
    case ExpireEv(tid) => ExpireShape(s, tid);
  }

  ghost function Next(h: History, e: Event): History
    requires Fits(h.pipe) && Legal(e)
  {
    var o := Do(h.pipe, e);
    StepReports(h.pipe, e);
    History(o.next, h.taken + o.taken, h.delivered + o.delivered,
            h.written + Reported(e, o).0, h.read + Reported(e, o).1)
  }

  ghost function Run(h: History, es: seq<Event>): (r: History)
    requires Shape(h.pipe) && forall e | e in es :: Legal(e)
    ensures Shape(r.pipe)
    decreases |es|
  {
    if es == [] then h
    else
      StepShape(h.pipe, es[0]);
      Run(Next(h, es[0]), es[1..])
  }

  function Fresh(size: nat): History {
    History(PipeState(size, [], [], []), [], [], 0, 0)
  }

  lemma NextConsistent(h: History, e: Event)
    requires Consistent(h) && Legal(e)
    ensures Consistent(Next(h, e))
  {
    hide Got, Given, Put, Get, Expire, Reported, Sorted, Positive;
    var o := Do(h.pipe, e);
    StepShape(h.pipe, e);
    StepStream(h.pipe, e);
    StepReports(h.pipe, e);
    calc {
      h.taken + o.taken;
      h.delivered + h.pipe.ring + o.taken;
      h.delivered + (h.pipe.ring + o.taken);
      h.delivered + (o.delivered + o.next.ring);
      h.delivered + o.delivered + o.next.ring;
    }
  }

  lemma {:induction false} RunConsistent(h: History, es: seq<Event>)
    requires Consistent(h) && forall e | e in es :: Legal(e)
    ensures Consistent(Run(h, es))
    decreases |es|
  {
    if es != [] {
      NextConsistent(h, es[0]);
      RunConsistent(Next(h, es[0]), es[1..]);
    }
  }

  /** From a fresh pipe of any size, after any run: the shape holds; readers have received exactly
      the bytes writers parted with, in order, except for what is still buffered; and the bytes
      reported written or already taken from pending writers equal the bytes reported read, held
      by pending readers, or buffered. */
  lemma PipeSafety(size: nat, es: seq<Event>)
    requires forall e | e in es :: Legal(e)
    ensures var h := Run(Fresh(size), es);
            && Shape(h.pipe)
            && h.delivered <= h.taken && h.taken[|h.delivered|..] == h.pipe.ring
            && h.written + Given(h.pipe.writers) == h.read + Got(h.pipe.readers) + |h.pipe.ring|
  {
    RunConsistent(Fresh(size), es);
    hide Run, Shape, Given, Got;
  }
}
