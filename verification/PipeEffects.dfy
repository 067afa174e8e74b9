/** What each pipe call does to every waiter, position by position, and what it answers. */
module PipeEffects {
  import opened Basics
  import opened WaitQueue
  import opened PipeSpec
  import opened PipeQueues
  import opened PipeRuns

  // ------------------------------------------------------- who gets what

  /** How many of `n` bytes have gone by once the waiters in front of place `i` are served. */
  ghost function Passed(q: seq<Pended>, n: nat, i: nat): nat
    requires i <= |q|
  {
    Min(n, Need(q[..i]))
  }

  lemma PassedTail(q: seq<Pended>, n: nat, i: nat)
    requires 0 < i <= |q|
    ensures var k := Min(q[0].data.left, n);
            Passed(q, n, i) == k + Passed(q[1..], n - k, i - 1)
  {
    assert q[..i] == [q[0]] + q[1..][..i - 1];
    NeedConcat([q[0]], q[1..][..i - 1]);
    assert Need([q[0]]) == q[0].data.left + Need([]);
  }

  lemma PassedMono(q: seq<Pended>, n: nat, i: nat)
    requires i < |q|
    ensures Passed(q, n, i) <= Passed(q, n, i + 1) <= n
  {
    assert q[..i + 1] == q[..i] + [q[i]];
    NeedConcat(q[..i], [q[i]]);
  }

  /** The reader at place `i` receives exactly the bytes after those in front of it took theirs, as
      many as it still wants and there are, and nothing else about it changes. */
  lemma {:induction false} ReaderShare(q: seq<Pended>, d: seq<byte>, i: nat)
    requires i < |q|
    ensures var lo, hi := Passed(q, |d|, i), Passed(q, |d|, i + 1);
            && lo <= hi <= |d| && hi - lo <= q[i].data.left
            && Fill(q, d)[i] == Waiter(q[i].tid, q[i].prio,
                                       Desc(q[i].data.buffer + d[lo..hi], q[i].data.left - (hi - lo),
                                            q[i].data.min, q[i].data.dummy))
  {
    hide Fill, Need;
    PassedMono(q, |d|, i);
    var k := Min(q[0].data.left, |d|);
    PassedTail(q, |d|, i + 1);
    FillStep(q, d, k);
    if i == 0 {
      PassedNone(q, |d|);
      PassedNone(q[1..], |d| - k);
      assert d[0..k] == d[..k];
    } else {
      PassedTail(q, |d|, i);
      hide Passed;
      ReaderShare(q[1..], d[k..], i - 1);
      SliceLater(d, k, Passed(q[1..], |d| - k, i - 1), Passed(q[1..], |d| - k, i));
    }
  }

  lemma PassedNone(q: seq<Pended>, n: nat)
    ensures Passed(q, n, 0) == 0
  {
  }

  lemma SliceLater(d: seq<byte>, k: nat, lo: nat, hi: nat)
    requires k <= |d| && lo <= hi <= |d| - k
    ensures d[k..][lo..hi] == d[k + lo..k + hi]
  {
  }

  /** The writer at place `i` parts with its next bytes once those in front of it have none left. */
  lemma {:induction false} WriterShare(q: seq<Pended>, n: nat, i: nat)
    requires i < |q|
    ensures var lo, hi := Passed(q, n, i), Passed(q, n, i + 1);
            && lo <= hi && hi - lo <= q[i].data.left
            && Drain(q, n)[i] == Waiter(q[i].tid, q[i].prio,
                                        Desc(q[i].data.buffer, q[i].data.left - (hi - lo),
                                             q[i].data.min, q[i].data.dummy))
  {
    PassedMono(q, n, i);
    var k := Min(q[0].data.left, n);
    PassedTail(q, n, i + 1);
    if i > 0 {
      PassedTail(q, n, i);
      WriterShare(q[1..], n - k, i - 1);
      assert Drain(q, n)[i] == Drain(q[1..], n - k)[i - 1];
    }
  }

  // ------------------------------------------------------ who stays queued

  lemma {:induction false} OnlyChosen(q: seq<Pended>, c: Choice, keep: Pended -> bool)
    requires forall w :: Picks(c, w) <==> keep(w)
    ensures Chosen(q, keep, Only(q, c))
  {
    if q == [] {
      ChosenNone(keep);
    } else {
      OnlyChosen(q[1..], c, keep);
      ChosenCons(q, keep, Only(q[1..], c));
    }
  }

  lemma {:induction false} OpenChosen(q: seq<Pended>, c: Choice, keep: Pended -> bool)
    requires forall w :: keep(w) <==> w.data.left > 0 && Picks(c, w)
    ensures Chosen(q, keep, Only(Only(q, Open), c))
  {
    if q == [] {
      ChosenNone(keep);
    } else {
      OpenChosen(q[1..], c, keep);
      ChosenCons(q, keep, Only(Only(q[1..], Open), c));
    }
  }

  /** A queue touched only by time-outs and, if it pends, by the caller's own entry. */
  ghost predicate Touched(q: seq<Pended>, late: set<Tid>, pends: bool, me: Pended, r: seq<Pended>, gone: seq<Pended>) {
    && Chosen(q, (w: Pended) => w.tid in late, gone)
    && if pends then exists kept :: Chosen(q, (w: Pended) => w.tid !in late, kept) && Joins(kept, me, r)
       else Chosen(q, (w: Pended) => w.tid !in late, r)
  }

  /** A queue that was served: completed requests are readied; of the others, those whose timeout
      fired leave and the rest stay. */
  ghost predicate Served(f: seq<Pended>, late: set<Tid>, woken: seq<Pended>, r: seq<Pended>, gone: seq<Pended>) {
    && Chosen(f, (w: Pended) => w.data.left == 0, woken)
    && Chosen(f, (w: Pended) => w.data.left > 0 && w.tid !in late, r)
    && Chosen(f, (w: Pended) => w.data.left > 0 && w.tid in late, gone)
  }

  lemma IsTouched(q: seq<Pended>, late: set<Tid>, pends: bool, me: Pended)
    requires Sorted(q)
    ensures var kept := Only(q, OnTime(late));
            Touched(q, late, pends, me, if pends then Enqueue(kept, me) else kept, Only(q, Late(late)))
  {
    OnlyChosen(q, OnTime(late), (w: Pended) => w.tid !in late);
    OnlyChosen(q, Late(late), (w: Pended) => w.tid in late);
    OnlySorted(q, OnTime(late));
    EnqueueJoins(Only(q, OnTime(late)), me);
  }

  lemma IsServed(f: seq<Pended>, late: set<Tid>)
    ensures Served(f, late, Only(f, Done), Only(Only(f, Open), OnTime(late)), Only(Only(f, Open), Late(late)))
  {
    OnlyChosen(f, Done, (w: Pended) => w.data.left == 0);
    OpenChosen(f, OnTime(late), (w: Pended) => w.data.left > 0 && w.tid !in late);
    OpenChosen(f, Late(late), (w: Pended) => w.data.left > 0 && w.tid in late);
  }

  // ------------------------------------------------------------ each call

  /** What a write does to both queues, whoever's timeout fires while it copies.  The readers are
      served with the bytes delivered; the writers are not touched. */
  lemma PutQueues(s: PipeState, c: (Tid, int), data: seq<byte>, min: nat, wait: Wait, async: bool, late: set<Tid>)
    requires Shape(s) && min <= |data|
    requires !(wait.NoWait? && Need(s.readers) + s.size - |s.ring| < min)
    ensures var o := Put(s, c, data, min, wait, async, late);
            && |o.taken| <= |data|
            && Served(Fill(s.readers, o.delivered), late, o.woken, o.next.readers, o.lateReaders)
            && Touched(s.writers, late, o.outcome.Blocked? || o.outcome.Posted?,
                       Waiter(c.0, c.1, Desc(data, |data| - |o.taken|, min, async)), o.next.writers, o.lateWriters)
  {
    var o := Put(s, c, data, min, wait, async, late);
    IsServed(Fill(s.readers, o.delivered), late);
    var pends := o.outcome.Blocked? || o.outcome.Posted?;
    IsTouched(s.writers, late, pends, Waiter(c.0, c.1, Desc(data, |data| - |o.taken|, min, async)));
    hide Only, Enqueue, Fill, Touched, Served;
  }

  /** What a write moves and answers: refused exactly when it may not wait and readers and buffer
      have no place for the minimum; else it moves what they have place for, and answers success
      unless it has to wait for more place. */
  lemma PutAnswer(s: PipeState, c: (Tid, int), data: seq<byte>, min: nat, wait: Wait, async: bool, late: set<Tid>)
    requires Fits(s) && min <= |data|
    ensures var o := Put(s, c, data, min, wait, async, late);
            var place := Need(s.readers) + (s.size - |s.ring|);
            var moved := Min(|data|, place);
            && o.next.size == s.size
            && (wait.NoWait? && place < min ==>
                  o.next == s && o.outcome == Returned(Eio, 0) && o.taken == o.delivered == []
                  && o.woken == o.lateReaders == o.lateWriters == [])
            && (!(wait.NoWait? && place < min) ==>
                  && o.taken == data[..moved] && o.delivered == data[..Min(|data|, Need(s.readers))]
                  && o.next.ring == s.ring + data[|o.delivered|..moved]
                  && (o.outcome == Returned(Ok, moved) <==> moved == |data| || (wait.NoWait? && !async))
                  && (o.outcome.Returned? ==> o.outcome == Returned(Ok, moved))
                  && (o.outcome.Posted? <==> moved < |data| && async)
                  && (o.outcome.Blocked? <==> moved < |data| && !async && !wait.NoWait?))
  {
    hide Only, Enqueue, Fill;
  }

  lemma GetQueues(s: PipeState, c: (Tid, int), want: nat, min: nat, wait: Wait, late: set<Tid>)
    requires Shape(s) && min <= want
    requires !(wait.NoWait? && |Stream(s)| < min)
    ensures var o := Get(s, c, want, min, wait, late);
            && |o.delivered| <= want
            && Served(Drain(s.writers, |o.taken|), late, o.woken, o.next.writers, o.lateWriters)
            && Touched(s.readers, late, o.outcome.Blocked?,
                       Waiter(c.0, c.1, Desc(o.delivered, want - |o.delivered|, min, false)),
                       o.next.readers, o.lateReaders)
  {
    var o := Get(s, c, want, min, wait, late);
    IsServed(Drain(s.writers, |o.taken|), late);
    IsTouched(s.readers, late, o.outcome.Blocked?,
              Waiter(c.0, c.1, Desc(o.delivered, want - |o.delivered|, min, false)));
    hide Only, Enqueue, Drain, Touched, Served;
  }

  /** What a read moves: the front of buffer and writers together to the caller, and as much of what
      follows into the buffer as it holds. */
  lemma GetMoves(s: PipeState, c: (Tid, int), want: nat, min: nat, wait: Wait, late: set<Tid>)
    requires Fits(s) && min <= want && !(wait.NoWait? && |s.ring + Bytes(s.writers)| < min)
    ensures var o := Get(s, c, want, min, wait, late);
            var all := s.ring + Bytes(s.writers);
            var n := Min(want, |all|);
            var kept := Min(s.size, |all| - n);
            o.delivered == all[..n] && o.next.ring == all[n..n + kept] && s.ring + o.taken == all[..n + kept]
  {
    hide Only, Enqueue, Drain, Bytes, Need;
    var all := s.ring + Bytes(s.writers);
    var n := Min(want, |all|);
    TakenWith(s.ring, Bytes(s.writers), n + Min(s.size, |all| - n));
  }

  /** What it answers: refused exactly when it may not wait and there is less than the minimum; else
      success unless it has to wait for more. */
  lemma GetAnswer(s: PipeState, c: (Tid, int), want: nat, min: nat, wait: Wait, late: set<Tid>)
    requires Fits(s) && min <= want
    ensures var o := Get(s, c, want, min, wait, late);
            var n := Min(want, |s.ring| + |Bytes(s.writers)|);
            && o.next.size == s.size
            && (wait.NoWait? && |s.ring| + |Bytes(s.writers)| < min ==>
                  o.next == s && o.outcome == Returned(Eio, 0) && o.taken == o.delivered == []
                  && o.woken == o.lateReaders == o.lateWriters == [])
            && (!(wait.NoWait? && |s.ring| + |Bytes(s.writers)| < min) ==>
                  && (o.outcome == Returned(Ok, n) <==> n == want || wait.NoWait?)
                  && (o.outcome.Blocked? <==> n < want && !wait.NoWait?))
  {
    hide Only, Enqueue, Drain, Bytes, Need;
  }

  lemma TakenWith(ring: seq<byte>, b: seq<byte>, m: nat)
    requires |ring| <= m <= |ring| + |b|
    ensures ring + b[..m - |ring|] == (ring + b)[..m]
  {
  }

  /** A timeout between calls takes off exactly the thread's own requests and moves no byte. */
  lemma ExpireExactly(s: PipeState, tid: Tid)
    ensures var o := Expire(s, tid);
            && o.next.size == s.size && o.next.ring == s.ring && o.woken == [] && o.taken == o.delivered == []
            && Chosen(s.readers, (w: Pended) => w.tid != tid, o.next.readers)
            && Chosen(s.writers, (w: Pended) => w.tid != tid, o.next.writers)
            && Chosen(s.readers, (w: Pended) => w.tid == tid, o.lateReaders)
            && Chosen(s.writers, (w: Pended) => w.tid == tid, o.lateWriters)
  {
    OnlyChosen(s.readers, OnTime({tid}), (w: Pended) => w.tid != tid);
    OnlyChosen(s.writers, OnTime({tid}), (w: Pended) => w.tid != tid);
    OnlyChosen(s.readers, Late({tid}), (w: Pended) => w.tid == tid);
    OnlyChosen(s.writers, Late({tid}), (w: Pended) => w.tid == tid);
  }

  // ----------------------------------------------- answers after waiting

  /** What a reader that waited is told: its code, and how many bytes it has. */
  function ReaderAnswer(r: Pended): Outcome {
    Returned(ReturnCode(r.data.min, r.data.left, |r.data.buffer| + r.data.left), |r.data.buffer|)
  }

  function WriterAnswer(w: Pended): Outcome
    requires w.data.left <= |w.data.buffer|
  {
    Returned(ReturnCode(w.data.min, w.data.left, |w.data.buffer|), |w.data.buffer| - w.data.left)
  }

  /** Nobody demands more than it asked for. */
  ghost predicate Modest(readers: seq<Pended>, writers: seq<Pended>) {
    && (forall r | r in readers :: r.data.min <= |r.data.buffer| + r.data.left)
    && (forall w | w in writers :: w.data.min <= |w.data.buffer|)
  }

  lemma FillModest(q: seq<Pended>, d: seq<byte>)
    requires Modest(q, [])
    ensures Modest(Fill(q, d), [])
  {
    forall r | r in Fill(q, d) ensures r.data.min <= |r.data.buffer| + r.data.left {
      var i :| 0 <= i < |q| && Fill(q, d)[i] == r;
      ReaderShare(q, d, i);
      assert q[i] in q;
    }
  }

  lemma DrainModest(q: seq<Pended>, n: nat)
    requires Modest([], q)
    ensures Modest([], Drain(q, n))
  {
    forall w | w in Drain(q, n) ensures w.data.min <= |w.data.buffer| {
      var i :| 0 <= i < |q| && Drain(q, n)[i] == w;
      WriterShare(q, n, i);
      assert q[i] in q;
    }
  }

  lemma ServedFrom(f: seq<Pended>, late: set<Tid>, woken: seq<Pended>, r: seq<Pended>, gone: seq<Pended>)
    requires Served(f, late, woken, r, gone)
    ensures forall w | w in woken || w in r || w in gone :: w in f
  {
    ChosenMembers(f, (w: Pended) => w.data.left == 0, woken);
    ChosenMembers(f, (w: Pended) => w.data.left > 0 && w.tid !in late, r);
    ChosenMembers(f, (w: Pended) => w.data.left > 0 && w.tid in late, gone);
  }

  lemma TouchedFrom(q: seq<Pended>, late: set<Tid>, pends: bool, me: Pended, r: seq<Pended>, gone: seq<Pended>)
    requires Touched(q, late, pends, me, r, gone)
    ensures forall w | w in r || w in gone :: w in q || (pends && w == me)
  {
    var keep := (w: Pended) => w.tid !in late;
    ChosenMembers(q, (w: Pended) => w.tid in late, gone);
    if pends {
      var kept :| Chosen(q, keep, kept) && Joins(kept, me, r);
      ChosenMembers(q, keep, kept);
    } else {
      ChosenMembers(q, keep, r);
    }
  }

  /** So a reader or writer that leaves the pipe, readied or timed out, and one that stays, are all
      told the truth about what they asked for. */
  lemma StepModest(s: PipeState, e: Event)
    requires Shape(s) && Modest(s.readers, s.writers) && Legal(e)
    ensures var o := Do(s, e);
            && Modest(o.next.readers, o.next.writers) && Modest(o.lateReaders, o.lateWriters)
            && (e.PutEv? ==> Modest(o.woken, [])) && (e.GetEv? ==> Modest([], o.woken))
  {
    hide Put, Get, Expire, Shape, Modest;
    match e
    case PutEv(c, data, min, wait, async, late) => PutModest(s, c, data, min, wait, async, late);
    case GetEv(c, want, min, wait, late) => GetModest(s, c, want, min, wait, late);
    case ExpireEv(tid) => ExpireModest(s, tid);
  }

  lemma PutRefused(s: PipeState, c: (Tid, int), data: seq<byte>, min: nat, wait: Wait, async: bool, late: set<Tid>)
    requires Fits(s) && min <= |data| && wait.NoWait? && Need(s.readers) + s.size - |s.ring| < min
    ensures Put(s, c, data, min, wait, async, late) == Unchanged(s, Returned(Eio, 0))
  {
  }

  lemma GetRefused(s: PipeState, c: (Tid, int), want: nat, min: nat, wait: Wait, late: set<Tid>)
    requires Fits(s) && min <= want && wait.NoWait? && |Stream(s)| < min
    ensures Get(s, c, want, min, wait, late) == Unchanged(s, Returned(Eio, 0))
  {
  }

  lemma ExpireModest(s: PipeState, tid: Tid)
    requires Modest(s.readers, s.writers)
    ensures var o := Expire(s, tid);
            Modest(o.next.readers, o.next.writers) && Modest(o.lateReaders, o.lateWriters)
  {
    OnlyPicks(s.readers, OnTime({tid}));
    OnlyPicks(s.writers, OnTime({tid}));
    OnlyPicks(s.readers, Late({tid}));
    OnlyPicks(s.writers, Late({tid}));
    hide Only;
  }

  lemma PutModest(s: PipeState, c: (Tid, int), data: seq<byte>, min: nat, wait: Wait, async: bool, late: set<Tid>)
    requires Shape(s) && Modest(s.readers, s.writers) && min <= |data|
    ensures var o := Put(s, c, data, min, wait, async, late);
            && Modest(o.next.readers, o.next.writers) && Modest(o.lateReaders, o.lateWriters) && Modest(o.woken, [])
  {
    hide Put, Served, Touched, Fill, Drain;
    var o := Put(s, c, data, min, wait, async, late);
    if wait.NoWait? && Need(s.readers) + s.size - |s.ring| < min {
      PutRefused(s, c, data, min, wait, async, late);
    } else {
      PutQueues(s, c, data, min, wait, async, late);
      FillModest(s.readers, o.delivered);
      ServedFrom(Fill(s.readers, o.delivered), late, o.woken, o.next.readers, o.lateReaders);
      TouchedFrom(s.writers, late, o.outcome.Blocked? || o.outcome.Posted?,
                  Waiter(c.0, c.1, Desc(data, |data| - |o.taken|, min, async)), o.next.writers, o.lateWriters);
    }
  }

  lemma GetModest(s: PipeState, c: (Tid, int), want: nat, min: nat, wait: Wait, late: set<Tid>)
    requires Shape(s) && Modest(s.readers, s.writers) && min <= want
    ensures var o := Get(s, c, want, min, wait, late);
            && Modest(o.next.readers, o.next.writers) && Modest(o.lateReaders, o.lateWriters) && Modest([], o.woken)
  {
    hide Get, Served, Touched, Fill, Drain, Stream, Sorted, Positive, Sides;
    var o := Get(s, c, want, min, wait, late);
    if wait.NoWait? && |Stream(s)| < min {
      GetRefused(s, c, want, min, wait, late);
    } else {
      GetQueues(s, c, want, min, wait, late);
      DrainModest(s.writers, |o.taken|);
      ServedFrom(Drain(s.writers, |o.taken|), late, o.woken, o.next.writers, o.lateWriters);
      TouchedFrom(s.readers, late, o.outcome.Blocked?,
                  Waiter(c.0, c.1, Desc(o.delivered, want - |o.delivered|, min, false)), o.next.readers, o.lateReaders);
    }
  }

  /** After waiting, a call answers success exactly if it moved its minimum, in particular if it was
      readied, and -EAGAIN otherwise. */
  lemma AnswersAfterWaiting(s: PipeState, e: Event, w: Pended)
    requires Shape(s) && Modest(s.readers, s.writers) && Legal(e)
    ensures var o := Do(s, e);
            && (w in o.lateReaders ==>
                  ReaderAnswer(w) == Returned(if |w.data.buffer| >= w.data.min then Ok else Eagain, |w.data.buffer|))
            && (w in o.lateWriters && w.data.left <= |w.data.buffer| ==>
                  var gave := |w.data.buffer| - w.data.left;
                  WriterAnswer(w) == Returned(if gave >= w.data.min then Ok else Eagain, gave))
            && (e.PutEv? && w in o.woken ==> ReaderAnswer(w) == Returned(Ok, |w.data.buffer|))
            && (e.GetEv? && w in o.woken && w.data.left <= |w.data.buffer| ==>
                  WriterAnswer(w) == Returned(Ok, |w.data.buffer|))
  {
    hide Do, Shape;
    StepModest(s, e);
    WokenDone(s, e);
  }

  lemma WokenDone(s: PipeState, e: Event)
    requires Shape(s) && Legal(e)
    ensures forall w | w in Do(s, e).woken :: w.data.left == 0
  {
    hide Fill, Drain, Enqueue;
    match e
    case PutEv(c, data, min, wait, async, late) =>
      OnlyPicks(Fill(s.readers, Put(s, c, data, min, wait, async, late).delivered), Done);
    case GetEv(c, want, min, wait, late) =>
      OnlyPicks(Drain(s.writers, |Get(s, c, want, min, wait, late).taken|), Done);
    case ExpireEv(tid) =>
  }
}
