/** What a mailbox keeps in every run. */
module MailboxRuns {
  import opened Basics
  import opened WaitQueue
  import opened MailboxSpec

  // ----------------------------------------------------------- invariant

  /** Nobody waits who could be served: no waiting sender is compatible with a waiting receiver. */
  ghost predicate Maximal(s: State) {
    forall v, w | v in s.tx && w in s.rx :: !Compatible(v.data, w.data)
  }

  /** Senders wait in order, once each, with the letter they sent. */
  ghost predicate TxOk(s: State) {
    && Sorted(s.tx) && Distinct(s.tx)
    && (forall v | v in s.tx :: v.data.sync == v.tid && v.data.id in s.sent && s.sent[v.data.id] == v.data)
  }

  /** Receivers wait in order, once each, with descriptors nobody else uses. */
  ghost predicate RxOk(s: State) {
    && Sorted(s.rx) && Distinct(s.rx)
    && (forall w | w in s.rx :: w.data.me == w.tid && w.data.desc !in s.held)
    && (forall v, w | v in s.rx && w in s.rx && v.data.desc == w.data.desc :: v == w)
  }

  /** The receiver of a letter without data gets its block, if it has one. */
  predicate Carries(l: Letter) {
    l.data.Null? && l.block.Mem?
  }

  /** A held descriptor shows the letter it was matched with. */
  ghost predicate Shows(h: Held, l: Letter) {
    && h.id == l.id && h.sync == l.sync && h.from == l.from && h.info == l.info
    && h.size == Least(l.size, h.want.size)
    && h.data == (if l.data.Null? then l.block else l.data)
    && h.block == (if Carries(l) then l.block else Null)
    && Compatible(l, h.want)
  }

  /** Each matched letter is in one descriptor, and no longer in the queue. */
  ghost predicate HeldOk(s: State) {
    && (forall d | d in s.held ::
          s.held[d].want.desc == d && s.held[d].id in s.sent && Shows(s.held[d], s.sent[s.held[d].id]))
    && (forall d, e | d in s.held && e in s.held && s.held[d].sync == s.held[e].sync :: d == e)
    && (forall d, v | d in s.held && v in s.tx :: s.held[d].sync != v.tid)
  }

  ghost predicate IsDone(s: State, id: nat) {
    exists i :: 0 <= i < |s.done| && s.done[i].id == id
  }

  /** Each letter is disposed of at most once, and not while it is still about. */
  ghost predicate DoneOk(s: State) {
    && (forall i | 0 <= i < |s.done| :: s.done[i].id in s.sent && s.done[i].sync == s.sent[s.done[i].id].sync)
    && (forall i, j | 0 <= i < j < |s.done| :: s.done[i].id != s.done[j].id)
    && (forall d | d in s.held :: !IsDone(s, s.held[d].id))
    && (forall v | v in s.tx :: !IsDone(s, v.data.id))
  }

  /** A block is freed or handed over, once, exactly when its letter carries it and is done with. */
  ghost predicate BlockOk(s: State) {
    && NoRepeat(s.freed + s.given)
    && (forall id :: id in s.freed + s.given <==> id in s.sent && IsDone(s, id) && Carries(s.sent[id]))
  }

  ghost predicate Waits(s: State, t: Tid) {
    exists v :: v in s.tx && v.tid == t
  }

  ghost predicate Holds(s: State, t: Tid) {
    exists d :: d in s.held && s.held[d].sync == t
  }

  /** Each dummy is in one place: on the stack, in the queue, or in a matched descriptor. */
  ghost predicate PoolOk(s: State) {
    && NoRepeat(s.free)
    && (forall t | t in s.free :: t in s.pool)
    && (forall t | t in s.pool :: t in s.free <==> !Waits(s, t) && !Holds(s, t))
  }

  ghost predicate Core(s: State) {
    Maximal(s) && TxOk(s) && RxOk(s) && HeldOk(s) && DoneOk(s) && BlockOk(s)
  }

  ghost predicate Inv(s: State) {
    Core(s) && PoolOk(s)
  }

  // -------------------------------------------------------------- events

  datatype Event =
    | PutEv(prio: int, l: Letter, wait: Wait)
    | AsyncEv(prio: int, l: Letter)
    | GetEv(prio: int, w: Want, wait: Wait)
    | CheckEv(d: nat)
    | DataEv(d: nat, buffer: bool)
    | BlockEv(d: nat, pool: bool, gotBlock: bool)
    | TxExpireEv(t: Tid)
    | RxExpireEv(t: Tid)

  /** Sends are numbered afresh and have their data; a synchronous sender has no other send under
      way; an asynchronous one finds an unused dummy; a receiver is not waiting already and uses a
      descriptor that is neither waiting nor holds a message; dummies do not time out. */
  ghost predicate Legal(s: State, e: Event) {
    match e
    case PutEv(_, l, _) =>
      Proper(l) && l.id !in s.sent && l.sync == l.from && l.sync !in s.pool && !Waits(s, l.sync) && !Holds(s, l.sync)
    case AsyncEv(_, l) => Proper(l) && l.id !in s.sent && s.free != []
    case GetEv(_, w, _) => w.desc !in s.held && forall v | v in s.rx :: v.tid != w.me && v.data.desc != w.desc
    case CheckEv(d) => d in s.held
    case DataEv(_, _) => true
    case BlockEv(_, _, _) => true
    case TxExpireEv(t) => t !in s.pool
    case RxExpireEv(_) => true
  }

  ghost function Do(s: State, e: Event): State
    requires Legal(s, e)
  {
    match e
    case PutEv(prio, l, wait) => Put(s, prio, l, wait).0
    case AsyncEv(prio, l) => AsyncPut(s, prio, l).0
    case GetEv(prio, w, wait) => Get(s, prio, w, wait).0
    case CheckEv(d) => Check(s, d)
    case DataEv(d, buffer) => DataGet(s, d, buffer)
    case BlockEv(d, pool, gotBlock) => BlockGet(s, d, pool, gotBlock)
    case TxExpireEv(t) => TxExpire(s, t)
    case RxExpireEv(t) => RxExpire(s, t)
  }

  // ------------------------------------------------------------ disposal

  /** `t` is `s` with descriptor `d` disposed of in one way or another: the sender is let go, and a
      block that was still in the descriptor is either freed or handed over. */
  ghost predicate Ends(s: State, d: nat, t: State) {
    && d in s.held
    && t.tx == s.tx && t.rx == s.rx && t.pool == s.pool && t.sent == s.sent && t.withdrawn == s.withdrawn
    && t.held == s.held - {d}
    && t.free == (if s.held[d].sync in s.pool then s.free + [s.held[d].sync] else s.free)
    && |t.done| == |s.done| + 1 && t.done[..|s.done|] == s.done
    && t.done[|s.done|].id == s.held[d].id && t.done[|s.done|].sync == s.held[d].sync
    && Releases(s, s.held[d], t)
  }

  ghost predicate Releases(s: State, h: Held, t: State) {
    if h.block.Null? then t.freed == s.freed && t.given == s.given
    else (t.freed == s.freed + [h.id] && t.given == s.given) || (t.freed == s.freed && t.given == s.given + [h.id])
  }

  lemma DisposeEnds(s: State, d: nat)
    requires d in s.held
    ensures Ends(s, d, Dispose(s, d))
    ensures Ends(s, d, Discard(s, d))
  {
    var s1 := s.(held := s.held[d := s.held[d].(size := 0)]);
    assert s1.held - {d} == s.held - {d};
  }

  lemma GiveEnds(s: State, d: nat)
    requires d in s.held && s.held[d].block.Mem?
    ensures Ends(s, d, BlockGet(s, d, true, false))
    ensures BlockGet(s, d, true, true) == BlockGet(s, d, true, false)
  {
    var s1 := s.(given := s.given + [s.held[d].id], held := s.held[d := s.held[d].(block := Null)]);
    assert s1.held - {d} == s.held - {d};
  }

  lemma EndsDoneIff(s: State, d: nat, t: State)
    requires Ends(s, d, t)
    ensures forall id :: IsDone(t, id) <==> IsDone(s, id) || id == s.held[d].id
  {
    forall id ensures IsDone(t, id) <==> IsDone(s, id) || id == s.held[d].id {
      if IsDone(s, id) {
        var i :| 0 <= i < |s.done| && s.done[i].id == id;
        assert t.done[i] == t.done[..|s.done|][i];
      }
      if IsDone(t, id) {
        var i :| 0 <= i < |t.done| && t.done[i].id == id;
        assert i < |s.done| ==> t.done[i] == t.done[..|s.done|][i];
      }
    }
  }

  /** Two descriptors, or a descriptor and a queued letter, never show the same letter. */
  lemma OneShowing(s: State, d: nat)
    requires TxOk(s) && HeldOk(s) && d in s.held
    ensures forall e | e in s.held && e != d :: s.held[e].id != s.held[d].id
    ensures forall v | v in s.tx :: v.data.id != s.held[d].id
  {
    forall e | e in s.held && e != d ensures s.held[e].id != s.held[d].id {
      assert s.held[e].sync != s.held[d].sync;
    }
    forall v | v in s.tx ensures v.data.id != s.held[d].id {
      assert s.held[d].sync != v.tid;
    }
  }

  lemma EndsDone(s: State, d: nat, t: State)
    requires TxOk(s) && HeldOk(s) && DoneOk(s) && Ends(s, d, t)
    ensures DoneOk(t)
  {
    EndsDoneIff(s, d, t);
    OneShowing(s, d);
    var n := |s.done|;
    assert forall i | 0 <= i < n :: t.done[i] == t.done[..n][i] == s.done[i];
    hide Shows;
    forall i | 0 <= i < n ensures t.done[i].id != s.held[d].id {
      assert IsDone(s, s.done[i].id) && !IsDone(s, s.held[d].id);
    }
  }

  lemma NoRepeatAppend(a: seq<nat>, b: seq<nat>, x: nat)
    requires NoRepeat(a + b) && x !in a + b
    ensures NoRepeat(a + [x] + b) && NoRepeat(a + (b + [x]))
    ensures forall y :: y in a + [x] + b <==> y in a + b || y == x
    ensures forall y :: y in a + (b + [x]) <==> y in a + b || y == x
  {
    NoRepeatInsert(a, b, x);
    assert a + (b + [x]) == (a + b) + [x];
    NoRepeatInsert(a + b, [], x);
    assert (a + b) + [x] + [] == (a + b) + [x] && (a + b) + [] == a + b;
  }

  lemma NoRepeatInsert(a: seq<nat>, b: seq<nat>, x: nat)
    requires NoRepeat(a + b) && x !in a + b
    ensures NoRepeat(a + [x] + b)
    ensures forall y :: y in a + [x] + b <==> y in a + b || y == x
  {
    var r := a + [x] + b;
    forall i, j | 0 <= i < j < |r| ensures r[i] != r[j] {
      assert i < |a| ==> r[i] == (a + b)[i];
      assert j < |a| ==> r[j] == (a + b)[j];
      assert i > |a| ==> r[i] == (a + b)[i - 1];
      assert j > |a| ==> r[j] == (a + b)[j - 1];
    }
  }

  lemma EndsBlock(s: State, d: nat, t: State)
    requires HeldOk(s) && DoneOk(s) && BlockOk(s) && Ends(s, d, t)
    ensures BlockOk(t)
  {
    EndsDoneIff(s, d, t);
    var h := s.held[d];
    assert Shows(h, s.sent[h.id]) && !IsDone(s, h.id);
    assert h.id !in s.freed + s.given;
    hide HeldOk, DoneOk, IsDone;
    if h.block.Mem? {
      NoRepeatAppend(s.freed, s.given, h.id);
    }
  }

  lemma EndsPool(s: State, d: nat, t: State)
    requires HeldOk(s) && PoolOk(s) && Ends(s, d, t)
    ensures PoolOk(t)
  {
    var h := s.held[d];
    forall x ensures Holds(t, x) <==> Holds(s, x) && x != h.sync {
      if Holds(s, x) && x != h.sync {
        var e :| e in s.held && s.held[e].sync == x;
        assert e in t.held && t.held[e].sync == x;
      }
      if Holds(t, x) {
        var e :| e in t.held && t.held[e].sync == x;
        assert e in s.held && e != d;
      }
    }
    assert Holds(s, h.sync);
    forall x ensures Waits(t, x) <==> Waits(s, x) {
    }
    assert !Waits(s, h.sync);
    hide HeldOk, Waits, Holds;
    if h.sync in s.pool {
      assert s.free + [] == s.free;
      NoRepeatAppend(s.free, [], h.sync);
      assert s.free + [h.sync] + [] == s.free + [h.sync];
    }
  }

  lemma EndsInv(s: State, d: nat, t: State)
    requires Inv(s) && Ends(s, d, t)
    ensures Inv(t)
  {
    EndsDone(s, d, t);
    EndsBlock(s, d, t);
    EndsPool(s, d, t);
    EndsHeld(s, d, t);
    EndsQueues(s, d, t);
    hide DoneOk, BlockOk, PoolOk, TxOk, RxOk, HeldOk, Maximal, Ends;
  }

  lemma EndsHeld(s: State, d: nat, t: State)
    requires HeldOk(s) && Ends(s, d, t)
    ensures HeldOk(t)
  {
    hide Shows;
    assert forall e | e in t.held :: e in s.held && t.held[e] == s.held[e];
  }

  lemma EndsQueues(s: State, d: nat, t: State)
    requires Maximal(s) && TxOk(s) && RxOk(s) && Ends(s, d, t)
    ensures Maximal(t) && TxOk(t) && RxOk(t)
  {
    hide Sorted, Distinct, Compatible;
    assert forall e | e in t.held :: e in s.held;
  }

  // ------------------------------------------------------------- meeting

  /** As `PoolOk`, with `x` nowhere. */
  ghost predicate PoolBut(s: State, x: Tid) {
    && NoRepeat(s.free)
    && (forall t | t in s.free :: t in s.pool && t != x)
    && (forall t | t in s.pool && t != x :: t in s.free <==> !Waits(s, t) && !Holds(s, t))
    && !Waits(s, x) && !Holds(s, x)
  }

  /** A descriptor not in use takes up a letter that is nowhere else. */
  ghost function Hold(s: State, l: Letter, w: Want): State {
    s.(held := s.held[w.desc := Match(l, w)], sent := s.sent[l.id := l])
  }

  ghost predicate Fresh(s: State, l: Letter) {
    l.id !in s.sent && !Waits(s, l.sync) && !Holds(s, l.sync)
  }

  lemma HoldHeld(s: State, l: Letter, w: Want)
    requires HeldOk(s) && w.desc !in s.held && Compatible(l, w)
    requires !Waits(s, l.sync) && !Holds(s, l.sync)
    requires l.id in s.sent ==> s.sent[l.id] == l
    ensures HeldOk(Hold(s, l, w))
  {
    var t := Hold(s, l, w);
    assert Shows(t.held[w.desc], l) && t.held[w.desc].want == w;
    hide Shows, Match;
    forall d | d in t.held
      ensures t.held[d].want.desc == d && t.held[d].id in t.sent && Shows(t.held[d], t.sent[t.held[d].id])
    {
      assert d != w.desc ==> t.held[d] == s.held[d];
    }
    forall d | d in s.held ensures s.held[d].sync != l.sync {
      assert !Holds(s, l.sync);
    }
  }

  lemma HoldDone(s: State, l: Letter, w: Want)
    requires DoneOk(s) && !IsDone(s, l.id)
    requires l.id in s.sent ==> s.sent[l.id] == l
    ensures DoneOk(Hold(s, l, w))
    ensures forall id :: IsDone(Hold(s, l, w), id) <==> IsDone(s, id)
  {
    var t := Hold(s, l, w);
    assert t.done == s.done;
    forall id ensures IsDone(t, id) <==> IsDone(s, id) {
    }
    forall i | 0 <= i < |s.done| ensures s.done[i].id != l.id {
      assert !IsDone(s, l.id);
    }
  }

  lemma HoldBlock(s: State, l: Letter, w: Want)
    requires BlockOk(s) && !IsDone(s, l.id)
    requires l.id in s.sent ==> s.sent[l.id] == l
    ensures BlockOk(Hold(s, l, w))
  {
    var t := Hold(s, l, w);
    forall id ensures IsDone(t, id) <==> IsDone(s, id) {
    }
    hide IsDone, NoRepeat;
  }

  lemma HoldPool(s: State, l: Letter, w: Want)
    requires PoolBut(s, l.sync) && w.desc !in s.held
    ensures PoolOk(Hold(s, l, w))
  {
    var t := Hold(s, l, w);
    forall x ensures Holds(t, x) <==> Holds(s, x) || x == l.sync {
      if Holds(s, x) {
        var e :| e in s.held && s.held[e].sync == x;
        assert e in t.held && t.held[e].sync == x;
      }
      if Holds(t, x) {
        var e :| e in t.held && t.held[e].sync == x;
        assert e != w.desc ==> e in s.held && s.held[e].sync == x;
      }
      assert t.held[w.desc].sync == l.sync;
    }
    forall x ensures Waits(t, x) <==> Waits(s, x) {
    }
    hide Holds, Waits, NoRepeat;
  }

  lemma HoldTx(s: State, l: Letter, w: Want)
    requires TxOk(s) && (l.id in s.sent ==> s.sent[l.id] == l)
    ensures TxOk(Hold(s, l, w))
  {
    hide Sorted, Distinct;
  }

  /** The receiver at place `k` of the queue leaves with the letter. */
  lemma RxLeaves(s: State, k: nat, l: Letter)
    requires RxOk(s) && k < |s.rx|
    ensures RxOk(Hold(s.(rx := Without(s.rx, s.rx[k].tid)), l, s.rx[k].data))
  {
    var w := s.rx[k];
    assert w in s.rx;
    WithoutSorted(s.rx, w.tid);
    WithoutDistinct(s.rx, w.tid);
    WithoutMembers(s.rx, w.tid);
    hide Sorted, Distinct, Without, Match;
    assert forall v | v in Without(s.rx, w.tid) :: v in s.rx && v.tid != w.tid;
  }

  lemma RxLess(s: State, t: Tid)
    requires Maximal(s)
    ensures Maximal(s.(rx := Without(s.rx, t)))
  {
    WithoutMembers(s.rx, t);
    hide Without, Compatible;
    assert forall v | v in Without(s.rx, t) :: v in s.rx;
  }

  lemma PutMatchedInv(s: State, l: Letter, k: nat)
    requires Core(s) && PoolBut(s, l.sync) && Fresh(s, l)
    requires k < |s.rx| && Compatible(l, s.rx[k].data)
    ensures Inv(Hold(s.(rx := Without(s.rx, s.rx[k].tid)), l, s.rx[k].data))
  {
    var w := s.rx[k];
    assert w in s.rx;
    var s1 := s.(rx := Without(s.rx, w.tid));
    RxLess(s, w.tid);
    RxLeaves(s, k, l);
    assert !IsDone(s, l.id);
    SameElsewhere(s, s1);
    hide Maximal, TxOk, RxOk, HeldOk, DoneOk, BlockOk, PoolOk, PoolBut, IsDone, Waits, Holds, Compatible;
    HoldTx(s1, l, w.data);
    HoldHeld(s1, l, w.data);
    HoldDone(s1, l, w.data);
    HoldBlock(s1, l, w.data);
    HoldPool(s1, l, w.data);
    assert Maximal(Hold(s1, l, w.data)) by {
      SameQueues(s1, Hold(s1, l, w.data));
    }
  }

  lemma SameQueues(s: State, t: State)
    requires Maximal(s) && t.tx == s.tx && t.rx == s.rx
    ensures Maximal(t)
  {
  }

  lemma SameParts(s: State, t: State)
    requires t == s.(rx := t.rx)
    ensures TxOk(t) == TxOk(s) && HeldOk(t) == HeldOk(s)
    ensures forall x :: Waits(t, x) == Waits(s, x) && Holds(t, x) == Holds(s, x)
    ensures forall x :: IsDone(t, x) == IsDone(s, x)
  {
    hide Shows, Sorted, Distinct;
  }

  /** What does not look at the receivers' queue does not mind its changing. */
  lemma SameElsewhere(s: State, t: State)
    requires t == s.(rx := t.rx)
    ensures TxOk(t) == TxOk(s) && HeldOk(t) == HeldOk(s)
    ensures forall x :: Waits(t, x) == Waits(s, x) && Holds(t, x) == Holds(s, x)
    ensures forall x :: IsDone(t, x) == IsDone(s, x)
    ensures forall x :: PoolBut(t, x) == PoolBut(s, x)
    ensures DoneOk(t) == DoneOk(s) && BlockOk(t) == BlockOk(s) && PoolOk(t) == PoolOk(s)
  {
    SameParts(s, t);
    hide TxOk, HeldOk, Waits, Holds, IsDone, NoRepeat;
  }

  // ------------------------------------------------------------- queueing

  ghost function Post(s: State, prio: int, l: Letter): State {
    s.(tx := Enqueue(s.tx, Waiter(l.sync, prio, l)), sent := s.sent[l.id := l])
  }

  lemma PostMembers(s: State, prio: int, l: Letter)
    ensures forall v :: v in Post(s, prio, l).tx <==> v in s.tx || v == Waiter(l.sync, prio, l)
    ensures forall x :: Waits(Post(s, prio, l), x) <==> Waits(s, x) || x == l.sync
    ensures forall x :: Holds(Post(s, prio, l), x) <==> Holds(s, x)
    ensures forall x :: IsDone(Post(s, prio, l), x) <==> IsDone(s, x)
  {
    var v := Waiter(l.sync, prio, l);
    EnqueueMembers(s.tx, v);
    hide Enqueue;
    assert v in Post(s, prio, l).tx;
  }

  lemma PostTx(s: State, prio: int, l: Letter)
    requires TxOk(s) && Fresh(s, l)
    ensures TxOk(Post(s, prio, l))
  {
    var v := Waiter(l.sync, prio, l);
    EnqueueSorted(s.tx, v);
    EnqueueMembers(s.tx, v);
    hide Enqueue, Sorted, Distinct;
    assert forall x | x in s.tx :: x.tid != v.tid;
  }

  lemma PostHeld(s: State, prio: int, l: Letter)
    requires HeldOk(s) && Fresh(s, l)
    ensures HeldOk(Post(s, prio, l))
  {
    PostMembers(s, prio, l);
    hide Enqueue, Shows;
    forall d | d in s.held ensures s.held[d].sync != l.sync {
      assert !Holds(s, l.sync);
    }
  }

  lemma PostDone(s: State, prio: int, l: Letter)
    requires DoneOk(s) && Fresh(s, l)
    ensures DoneOk(Post(s, prio, l)) && !IsDone(s, l.id)
  {
    PostMembers(s, prio, l);
    assert !IsDone(s, l.id);
    hide Enqueue, Waits, Holds;
  }

  lemma PostBlock(s: State, prio: int, l: Letter)
    requires BlockOk(s) && l.id !in s.sent && !IsDone(s, l.id)
    ensures BlockOk(Post(s, prio, l))
  {
    PostMembers(s, prio, l);
    hide Enqueue, NoRepeat, IsDone, Waits, Holds;
  }

  lemma PostPool(s: State, prio: int, l: Letter)
    requires PoolBut(s, l.sync)
    ensures PoolOk(Post(s, prio, l))
  {
    PostMembers(s, prio, l);
    hide Enqueue, NoRepeat, IsDone, Waits, Holds;
  }

  lemma PostInv(s: State, prio: int, l: Letter)
    requires Core(s) && PoolBut(s, l.sync) && Fresh(s, l)
    requires forall w | w in s.rx :: !Compatible(l, w.data)
    ensures Inv(Post(s, prio, l))
  {
    PostTx(s, prio, l);
    PostHeld(s, prio, l);
    PostDone(s, prio, l);
    PostBlock(s, prio, l);
    PostPool(s, prio, l);
    PostMembers(s, prio, l);
    hide TxOk, HeldOk, DoneOk, BlockOk, PoolOk, Sorted, Distinct, Compatible, Enqueue;
  }

  lemma PutInv(s: State, prio: int, l: Letter, wait: Wait)
    requires Core(s) && PoolBut(s, l.sync) && Fresh(s, l)
    ensures Put(s, prio, l, wait).1.Enomsg? || Inv(Put(s, prio, l, wait).0)
  {
    var k := FirstRx(s.rx, l);
    if k < |s.rx| {
      PutMatchedInv(s, l, k);
    } else if wait.MayWait? {
      NoneCompatible(s.rx, l);
      PostInv(s, prio, l);
    }
  }

  lemma NoneCompatible(q: seq<Waiter<Want>>, l: Letter)
    requires FirstRx(q, l) == |q|
    ensures forall w | w in q :: !Compatible(l, w.data)
  {
  }

  lemma SyncPutInv(s: State, prio: int, l: Letter, wait: Wait)
    requires Inv(s) && Legal(s, PutEv(prio, l, wait))
    ensures Inv(Put(s, prio, l, wait).0)
  {
    assert PoolBut(s, l.sync);
    hide Core, PoolOk, PoolBut, Waits, Holds;
    PutInv(s, prio, l, wait);
    assert Put(s, prio, l, wait).1.Enomsg? ==> Put(s, prio, l, wait).0 == s;
  }

  lemma PopPool(s: State)
    requires PoolOk(s) && s.free != []
    ensures var n := |s.free| - 1;
            PoolBut(s.(free := s.free[..n]), s.free[n])
  {
    var n := |s.free| - 1;
    var t := s.(free := s.free[..n]);
    assert s.free[n] in s.free;
    assert s.free == t.free + [s.free[n]];
    forall x ensures Waits(t, x) == Waits(s, x) && Holds(t, x) == Holds(s, x) {
    }
    hide Waits, Holds;
  }

  lemma AsyncPutInv(s: State, prio: int, l: Letter)
    requires Inv(s) && Legal(s, AsyncEv(prio, l))
    ensures Inv(AsyncPut(s, prio, l).0)
  {
    var n := |s.free| - 1;
    var t, m := s.(free := s.free[..n]), l.(sync := s.free[n]);
    PopPool(s);
    assert Core(t) by {
      hide PoolOk, PoolBut, Shows, Sorted, Distinct, Compatible;
      forall id ensures IsDone(t, id) == IsDone(s, id) {
      }
      hide IsDone;
    }
    hide Core, PoolOk, Inv;
    PutInv(t, prio, m, MayWait);
  }

  // ------------------------------------------------------------ receiving

  lemma TxLeaveMembers(s: State, x: Tid)
    ensures forall v | v in TxLeave(s, x).tx :: v in s.tx && v.tid != x
    ensures forall y :: Waits(TxLeave(s, x), y) <==> Waits(s, y) && y != x
    ensures forall y :: Holds(TxLeave(s, x), y) <==> Holds(s, y)
    ensures forall y :: IsDone(TxLeave(s, x), y) <==> IsDone(s, y)
  {
    var t := TxLeave(s, x);
    WithoutMembers(s.tx, x);
    hide Without;
    forall y ensures Waits(t, y) <==> Waits(s, y) && y != x {
      if Waits(s, y) && y != x {
        var v :| v in s.tx && v.tid == y;
        assert v in t.tx;
      }
      if Waits(t, y) {
        var v :| v in t.tx && v.tid == y;
        assert v in s.tx;
      }
    }
  }

  lemma TxLeaveCore(s: State, x: Tid)
    requires Core(s)
    ensures Core(TxLeave(s, x))
  {
    TxLeaveMembers(s, x);
    WithoutSorted(s.tx, x);
    WithoutDistinct(s.tx, x);
    hide Without, Sorted, Distinct, Shows, Compatible, Waits, Holds, IsDone, NoRepeat;
  }

  lemma TxLeavePool(s: State, x: Tid)
    requires PoolOk(s) && (Waits(s, x) ==> !Holds(s, x))
    ensures x !in s.pool ==> PoolOk(TxLeave(s, x))
    ensures Waits(s, x) ==> PoolBut(TxLeave(s, x), x)
  {
    TxLeaveMembers(s, x);
    hide Without, Waits, Holds, NoRepeat;
  }

  lemma GetMatchedInv(s: State, w: Want, k: nat)
    requires Inv(s) && w.desc !in s.held && (forall v | v in s.rx :: v.data.desc != w.desc)
    requires k < |s.tx| && Compatible(s.tx[k].data, w)
    ensures Inv(Hold(TxLeave(s, s.tx[k].tid), s.tx[k].data, w))
  {
    var v, l := s.tx[k], s.tx[k].data;
    assert v in s.tx;
    TxTaken(s, v);
    var s1 := TxLeave(s, v.tid);
    TxLeaveCore(s, v.tid);
    HoldRx(s1, l, w);
    hide Core, PoolOk, PoolBut, TxOk, RxOk, HeldOk, DoneOk, BlockOk, Maximal, Waits, Holds, IsDone, Compatible;
    assert TxOk(s1) && HeldOk(s1) && DoneOk(s1) && BlockOk(s1) && Maximal(s1) by {
      CoreParts(s1);
    }
    HoldTx(s1, l, w);
    HoldHeld(s1, l, w);
    HoldDone(s1, l, w);
    HoldBlock(s1, l, w);
    HoldPool(s1, l, w);
    SameQueues(s1, Hold(s1, l, w));
    PartsCore(Hold(s1, l, w));
  }

  lemma CoreParts(s: State)
    requires Core(s)
    ensures Maximal(s) && TxOk(s) && RxOk(s) && HeldOk(s) && DoneOk(s) && BlockOk(s)
  {
  }

  lemma PartsCore(s: State)
    requires Maximal(s) && TxOk(s) && RxOk(s) && HeldOk(s) && DoneOk(s) && BlockOk(s)
    ensures Core(s)
  {
  }

  lemma HoldRx(s: State, l: Letter, w: Want)
    requires RxOk(s) && forall v | v in s.rx :: v.data.desc != w.desc
    ensures RxOk(Hold(s, l, w))
  {
    hide Sorted, Distinct, Match;
  }

  /** A letter taken out of the queue is nowhere. */
  lemma TxTaken(s: State, v: Waiter<Letter>)
    requires Inv(s) && v in s.tx
    ensures var t := TxLeave(s, v.tid);
            && PoolBut(t, v.data.sync)
            && !Waits(t, v.data.sync) && !Holds(t, v.data.sync) && !IsDone(t, v.data.id)
            && v.data.id in t.sent && t.sent[v.data.id] == v.data
  {
    assert Waits(s, v.tid) && !Holds(s, v.tid);
    TxLeaveMembers(s, v.tid);
    TxLeavePool(s, v.tid);
    hide Without, Sorted, Distinct, Shows, NoRepeat, Maximal, RxOk, BlockOk;
  }

  lemma RxJoins(s: State, x: Waiter<Want>)
    requires RxOk(s) && x.data.me == x.tid && x.data.desc !in s.held
    requires forall v | v in s.rx :: v.tid != x.tid && v.data.desc != x.data.desc
    ensures RxOk(s.(rx := Enqueue(s.rx, x)))
  {
    EnqueueSorted(s.rx, x);
    EnqueueMembers(s.rx, x);
    hide Enqueue, Sorted, Distinct;
  }

  lemma RxMore(s: State, x: Waiter<Want>)
    requires Maximal(s) && forall v | v in s.tx :: !Compatible(v.data, x.data)
    ensures Maximal(s.(rx := Enqueue(s.rx, x)))
  {
    EnqueueMembers(s.rx, x);
    hide Enqueue, Compatible;
  }

  lemma GetQueuedInv(s: State, prio: int, w: Want)
    requires Inv(s) && w.desc !in s.held && (forall v | v in s.rx :: v.tid != w.me && v.data.desc != w.desc)
    requires forall v | v in s.tx :: !Compatible(v.data, w)
    ensures Inv(s.(rx := Enqueue(s.rx, Waiter(w.me, prio, w))))
  {
    var x := Waiter(w.me, prio, w);
    hide Enqueue, Maximal, RxOk, TxOk, HeldOk, DoneOk, BlockOk, PoolOk;
    RxJoins(s, x);
    RxMore(s, x);
    SameElsewhere(s, s.(rx := Enqueue(s.rx, x)));
  }

  lemma NoSender(q: seq<Waiter<Letter>>, w: Want)
    requires FirstTx(q, w) == |q|
    ensures forall v | v in q :: !Compatible(v.data, w)
  {
  }

  lemma CheckInv(s: State, d: nat)
    requires Inv(s) && d in s.held
    ensures Inv(Check(s, d))
  {
    hide Inv, Ends;
    DisposeEnds(s, d);
    EndsWell(s, d, Dispose(s, d));
  }

  lemma EndsWell(s: State, d: nat, t: State)
    requires Inv(s) && Ends(s, d, t)
    ensures Inv(t)
  {
    EndsInv(s, d, t);
  }

  lemma SentAlready(s: State, v: Waiter<Letter>)
    requires TxOk(s) && v in s.tx
    ensures s.sent[v.data.id := v.data] == s.sent
  {
  }

  lemma GetMatched(s: State, prio: int, w: Want, wait: Wait, k: nat)
    requires k == FirstTx(s.tx, w) < |s.tx| && s.sent[s.tx[k].data.id := s.tx[k].data] == s.sent
    ensures Get(s, prio, w, wait).0 == Check(Hold(TxLeave(s, s.tx[k].tid), s.tx[k].data, w), w.desc)
  {
    hide Check, Match, Without;
  }

  lemma GetInv(s: State, prio: int, w: Want, wait: Wait)
    requires Inv(s) && Legal(s, GetEv(prio, w, wait))
    ensures Inv(Get(s, prio, w, wait).0)
  {
    var k := FirstTx(s.tx, w);
    if k < |s.tx| {
      GetMatchedInv(s, w, k);
      SentAlready(s, s.tx[k]);
      hide Inv, Hold, Check, Match, Without;
      CheckInv(Hold(TxLeave(s, s.tx[k].tid), s.tx[k].data, w), w.desc);
      GetMatched(s, prio, w, wait, k);
    } else if wait.MayWait? {
      NoSender(s.tx, w);
      GetQueuedInv(s, prio, w);
    }
  }

  lemma DataInv(s: State, d: nat, buffer: bool)
    requires Inv(s)
    ensures Inv(DataGet(s, d, buffer))
  {
    hide Inv, Ends;
    if d in s.held {
      DisposeEnds(s, d);
      EndsWell(s, d, if buffer then Dispose(s, d) else Discard(s, d));
    }
  }

  lemma BlockInv(s: State, d: nat, pool: bool, gotBlock: bool)
    requires Inv(s)
    ensures Inv(BlockGet(s, d, pool, gotBlock))
  {
    hide Inv, Ends;
    if d in s.held {
      if pool && s.held[d].block.Mem? {
        GiveEnds(s, d);
        EndsWell(s, d, BlockGet(s, d, true, false));
      } else {
        DataInv(s, d, pool);
      }
    }
  }

  lemma TxExpireInv(s: State, t: Tid)
    requires Inv(s) && t !in s.pool
    ensures Inv(TxExpire(s, t))
  {
    TxLeaveCore(s, t);
    if Waits(s, t) {
      assert !Holds(s, t);
    }
    hide Core;
    TxLeavePool(s, t);
    WithdrawnApart(TxLeave(s, t), TxExpire(s, t));
  }

  /** The record of time-outs matters to no other part. */
  lemma WithdrawnApart(s: State, t: State)
    requires t == s.(withdrawn := t.withdrawn) && Inv(s)
    ensures Inv(t)
  {
    assert Maximal(t) && TxOk(t) && RxOk(t) && HeldOk(t) by {
      hide Compatible, Shows, Sorted, Distinct;
    }
    forall x ensures Waits(t, x) == Waits(s, x) && Holds(t, x) == Holds(s, x) && IsDone(t, x) == IsDone(s, x) {
    }
    hide Maximal, TxOk, RxOk, HeldOk, Waits, Holds, IsDone, NoRepeat;
  }

  lemma RxExpireInv(s: State, t: Tid)
    requires Inv(s)
    ensures Inv(RxExpire(s, t))
  {
    var s1 := RxExpire(s, t);
    RxLess(s, t);
    SameElsewhere(s, s1);
    WithoutSorted(s.rx, t);
    WithoutDistinct(s.rx, t);
    WithoutMembers(s.rx, t);
    hide Without, Sorted, Distinct, Maximal, TxOk, HeldOk, DoneOk, BlockOk, PoolOk;
    assert forall v | v in s1.rx :: v in s.rx;
  }

  lemma DoInv(s: State, e: Event)
    requires Inv(s) && Legal(s, e)
    ensures Inv(Do(s, e))
  {
    hide Inv;
    match e
    case PutEv(prio, l, wait) => SyncPutInv(s, prio, l, wait);
    case AsyncEv(prio, l) => AsyncPutInv(s, prio, l);
    case GetEv(prio, w, wait) => GetInv(s, prio, w, wait);
    case CheckEv(d) => CheckInv(s, d);
    case DataEv(d, buffer) => DataInv(s, d, buffer);
    case BlockEv(d, pool, gotBlock) => BlockInv(s, d, pool, gotBlock);
    case TxExpireEv(t) => TxExpireInv(s, t);
    case RxExpireEv(t) => RxExpireInv(s, t);
  }

  // --------------------------------------------------- nothing gets lost

  ghost predicate Waiting(s: State, id: nat) {
    exists v :: v in s.tx && v.data.id == id
  }

  ghost predicate Showing(s: State, id: nat) {
    exists d :: d in s.held && s.held[d].id == id
  }

  /** In how many of the four places a letter can be it is. */
  ghost function Places(s: State, id: nat): nat {
    Count(Waiting(s, id)) + Count(Showing(s, id)) + Count(IsDone(s, id)) + Count(id in s.withdrawn)
  }

  /** A letter that was accepted is in one place, every other in none. */
  ghost predicate Kept(s: State) {
    forall id :: Places(s, id) == Count(id in s.sent)
  }

  /** As `Kept`, with letter `x` nowhere. */
  ghost predicate KeptBut(s: State, x: nat) {
    Places(s, x) == 0 && forall id | id != x :: Places(s, id) == Count(id in s.sent)
  }

  lemma SamePlaces(s: State, t: State)
    requires t.tx == s.tx && t.held == s.held && t.done == s.done && t.withdrawn == s.withdrawn
    ensures forall id :: Places(t, id) == Places(s, id)
  {
    forall id ensures Places(t, id) == Places(s, id) {
      assert Waiting(t, id) == Waiting(s, id) && Showing(t, id) == Showing(s, id) && IsDone(t, id) == IsDone(s, id);
    }
  }

  lemma EndsKept(s: State, d: nat, t: State)
    requires TxOk(s) && HeldOk(s) && DoneOk(s) && Kept(s) && Ends(s, d, t)
    ensures Kept(t)
  {
    EndsDoneIff(s, d, t);
    OneShowing(s, d);
    var x := s.held[d].id;
    assert Showing(s, x) && !IsDone(s, x);
    forall id ensures Showing(t, id) <==> Showing(s, id) && id != x {
      if e :| e in s.held && s.held[e].id == id && id != x {
        assert e in t.held && t.held[e].id == id;
      }
      if e :| e in t.held && t.held[e].id == id {
        assert e in s.held && e != d && s.held[e].id == id;
      }
    }
    forall id ensures Waiting(t, id) == Waiting(s, id) {
    }
    hide TxOk, HeldOk, DoneOk, Waiting, Showing, IsDone;
    forall id ensures Places(t, id) == Count(id in t.sent) {
      assert Places(s, id) == Count(id in s.sent);
    }
  }

  lemma HoldKept(s: State, l: Letter, w: Want)
    requires KeptBut(s, l.id) && w.desc !in s.held
    ensures Kept(Hold(s, l, w))
  {
    var t := Hold(s, l, w);
    forall id ensures Showing(t, id) <==> Showing(s, id) || id == l.id {
      if e :| e in s.held && s.held[e].id == id {
        assert e in t.held && t.held[e].id == id;
      }
      if e :| e in t.held && t.held[e].id == id {
        assert e != w.desc ==> e in s.held && s.held[e].id == id;
      }
      assert t.held[w.desc].id == l.id;
    }
    forall id ensures Waiting(t, id) == Waiting(s, id) && IsDone(t, id) == IsDone(s, id) {
    }
    hide Waiting, Showing, IsDone;
    forall id ensures Places(t, id) == Count(id in t.sent) {
      assert id != l.id ==> Places(s, id) == Count(id in s.sent);
    }
  }

  lemma PostKept(s: State, prio: int, l: Letter)
    requires KeptBut(s, l.id)
    ensures Kept(Post(s, prio, l))
  {
    var t, v := Post(s, prio, l), Waiter(l.sync, prio, l);
    PostMembers(s, prio, l);
    hide Enqueue;
    forall id ensures Waiting(t, id) <==> Waiting(s, id) || id == l.id {
      if x :| x in s.tx && x.data.id == id {
        assert x in t.tx;
      }
      assert v in t.tx && v.data.id == l.id;
    }
    forall id ensures Showing(t, id) == Showing(s, id) {
    }
    hide Waiting, Showing, IsDone, Waits, Holds;
    forall id ensures Places(t, id) == Count(id in t.sent) {
      assert id != l.id ==> Places(s, id) == Count(id in s.sent);
    }
  }

  lemma LeaveKept(s: State, v: Waiter<Letter>)
    requires TxOk(s) && Kept(s) && v in s.tx
    ensures KeptBut(TxLeave(s, v.tid), v.data.id)
  {
    var t, x := TxLeave(s, v.tid), v.data.id;
    TxLeaveMembers(s, v.tid);
    WithoutMembers(s.tx, v.tid);
    hide Without, Sorted, Distinct;
    assert Waiting(s, x);
    forall id ensures Waiting(t, id) <==> Waiting(s, id) && id != x {
      if y :| y in s.tx && y.data.id == id && id != x {
        if y.tid == v.tid {
          SameWaiter(s.tx, y, v);
        }
        assert y in t.tx;
      }
      if y :| y in t.tx && y.data.id == id {
        assert y in s.tx && y.tid != v.tid && s.sent[y.data.id] == y.data && s.sent[v.data.id] == v.data;
      }
    }
    forall id ensures Showing(t, id) == Showing(s, id) {
    }
    hide TxOk, Waiting, Showing, IsDone, Waits, Holds;
    forall id ensures Places(t, id) == if id == x then 0 else Count(id in t.sent) {
      assert Places(s, id) == Count(id in s.sent);
    }
  }

  lemma SameWaiter<T>(q: seq<Waiter<T>>, v: Waiter<T>, w: Waiter<T>)
    requires Distinct(q) && v in q && w in q && v.tid == w.tid
    ensures v == w
  {
  }

  lemma ExpireKept(s: State, x: Tid)
    requires TxOk(s) && Kept(s)
    ensures Kept(TxExpire(s, x))
  {
    var t := TxExpire(s, x);
    if v :| v in s.tx && v.tid == x {
      LeaveKept(s, v);
      forall w | w in s.tx && w.tid == x ensures w == v {
        SameWaiter(s.tx, v, w);
      }
      assert v.data.id in t.withdrawn && t.withdrawn == s.withdrawn + {v.data.id};
      var s1 := TxLeave(s, x);
      forall id
        ensures Waiting(t, id) == Waiting(s1, id) && Showing(t, id) == Showing(s1, id)
        ensures IsDone(t, id) == IsDone(s1, id)
      {
      }
      hide TxOk, Without, Waiting, Showing, IsDone;
      forall id ensures Places(t, id) == Count(id in t.sent) {
        assert id != v.data.id ==> Places(s1, id) == Count(id in s1.sent);
      }
    } else {
      WithoutAbsent(s.tx, x);
      assert t == s;
    }
  }

  lemma PutKept(s: State, prio: int, l: Letter, wait: Wait)
    requires Kept(s) && RxOk(s) && l.id !in s.sent
    ensures Kept(Put(s, prio, l, wait).0)
  {
    assert Places(s, l.id) == 0;
    var k := FirstRx(s.rx, l);
    if k < |s.rx| {
      var w := s.rx[k];
      assert w in s.rx;
      var s1 := s.(rx := Without(s.rx, w.tid));
      hide RxOk, Places, Without;
      SamePlaces(s, s1);
      HoldKept(s1, l, w.data);
    } else if wait.MayWait? {
      PostKept(s, prio, l);
    }
  }

  lemma AsyncKept(s: State, prio: int, l: Letter)
    requires Kept(s) && RxOk(s) && l.id !in s.sent && s.free != []
    ensures Kept(AsyncPut(s, prio, l).0)
  {
    var t := s.(free := s.free[..|s.free| - 1]);
    SamePlaces(s, t);
    assert RxOk(t) by {
      hide Sorted, Distinct;
    }
    hide RxOk, Places, Put;
    PutKept(t, prio, l.(sync := s.free[|s.free| - 1]), MayWait);
  }

  /** Disposal in one of its ways, or nothing. */
  lemma DataKept(s: State, d: nat, buffer: bool)
    requires Inv(s) && Kept(s)
    ensures Kept(DataGet(s, d, buffer))
  {
    hide Ends, Kept, TxOk, RxOk, HeldOk, DoneOk, BlockOk, PoolOk, Maximal;
    if d in s.held {
      DisposeEnds(s, d);
      EndsKept(s, d, if buffer then Dispose(s, d) else Discard(s, d));
    }
  }

  lemma BlockKept(s: State, d: nat, pool: bool, gotBlock: bool)
    requires Inv(s) && Kept(s)
    ensures Kept(BlockGet(s, d, pool, gotBlock))
  {
    hide Ends, Kept, TxOk, RxOk, HeldOk, DoneOk, BlockOk, PoolOk, Maximal;
    if d in s.held {
      if pool && s.held[d].block.Mem? {
        GiveEnds(s, d);
        EndsKept(s, d, BlockGet(s, d, true, false));
      } else {
        DataKept(s, d, pool);
      }
    }
  }

  lemma CheckKept(s: State, d: nat)
    requires Inv(s) && Kept(s) && d in s.held
    ensures Kept(Check(s, d))
  {
    hide Ends, Kept, TxOk, RxOk, HeldOk, DoneOk, BlockOk, PoolOk, Maximal;
    DisposeEnds(s, d);
    EndsKept(s, d, Dispose(s, d));
  }

  lemma GetKept(s: State, prio: int, w: Want, wait: Wait)
    requires Inv(s) && Kept(s) && Legal(s, GetEv(prio, w, wait))
    ensures Kept(Get(s, prio, w, wait).0)
  {
    var k := FirstTx(s.tx, w);
    if k < |s.tx| {
      var v := s.tx[k];
      SentAlready(s, v);
      GetMatchedInv(s, w, k);
      LeaveKept(s, v);
      hide Inv, Kept, KeptBut, Without, Match, Check, TxOk;
      HoldKept(TxLeave(s, v.tid), v.data, w);
      CheckKept(Hold(TxLeave(s, v.tid), v.data, w), w.desc);
      GetMatched(s, prio, w, wait, k);
    } else if wait.MayWait? {
      SamePlaces(s, Get(s, prio, w, wait).0);
    }
  }

  lemma DoKept(s: State, e: Event)
    requires Inv(s) && Kept(s) && Legal(s, e)
    ensures Kept(Do(s, e))
  {
    assert TxOk(s) && RxOk(s);
    hide Inv, Kept, TxOk, RxOk;
    match e
    case PutEv(prio, l, wait) => PutKept(s, prio, l, wait);
    case AsyncEv(prio, l) => AsyncKept(s, prio, l);
    case GetEv(prio, w, wait) => GetKept(s, prio, w, wait);
    case CheckEv(d) => CheckKept(s, d);
    case DataEv(d, buffer) => DataKept(s, d, buffer);
    case BlockEv(d, pool, gotBlock) => BlockKept(s, d, pool, gotBlock);
    case TxExpireEv(t) => ExpireKept(s, t);
    case RxExpireEv(t) => RxExpireKept(s, t);
  }

  lemma RxExpireKept(s: State, t: Tid)
    requires Kept(s)
    ensures Kept(RxExpire(s, t))
  {
    SamePlaces(s, RxExpire(s, t));
  }

  // ----------------------------------------------------------------- runs

  ghost predicate LegalRun(s: State, es: seq<Event>)
    decreases |es|
  {
    es != [] ==> Legal(s, es[0]) && LegalRun(Do(s, es[0]), es[1..])
  }

  ghost function Run(s: State, es: seq<Event>): State
    requires LegalRun(s, es)
    decreases |es|
  {
    if es == [] then s else Run(Do(s, es[0]), es[1..])
  }

  /** A mailbox at rest, all dummies on the stack. */
  function Init(dummies: seq<Tid>): State {
    State([], [], (set t | t in dummies), dummies, map[], map[], [], {}, [], [])
  }

  ghost predicate AllProper(s: State) {
    forall id | id in s.sent :: Proper(s.sent[id])
  }

  lemma DoProper(s: State, e: Event)
    requires AllProper(s) && Legal(s, e)
    ensures AllProper(Do(s, e)) && s.pool == Do(s, e).pool
  {
    hide FirstRx, FirstTx, Match, Without, Enqueue;
  }

  lemma {:induction false} RunInv(s: State, es: seq<Event>)
    requires Inv(s) && Kept(s) && AllProper(s) && LegalRun(s, es)
    ensures Inv(Run(s, es)) && Kept(Run(s, es)) && AllProper(Run(s, es)) && Run(s, es).pool == s.pool
    decreases |es|
  {
    hide Inv, Kept, AllProper, Do, Legal;
    if es != [] {
      DoInv(s, es[0]);
      DoKept(s, es[0]);
      DoProper(s, es[0]);
      RunInv(Do(s, es[0]), es[1..]);
    }
  }

  lemma InitInv(dummies: seq<Tid>)
    requires NoRepeat(dummies)
    ensures Inv(Init(dummies)) && Kept(Init(dummies)) && AllProper(Init(dummies))
  {
  }

  /** In every run of sends, receives, retrievals and time-outs: nobody waits who could be served; every
      letter that was accepted is in exactly one of the queue, one receive descriptor, the record of
      disposals and the record of time-outs, and disposed of at most once; every dummy is in exactly
      one of the stack, the queue and one receive descriptor. */
  lemma MailboxSafety(dummies: seq<Tid>, es: seq<Event>)
    requires NoRepeat(dummies) && LegalRun(Init(dummies), es)
    ensures var s := Run(Init(dummies), es);
            && (forall v, w | v in s.tx && w in s.rx :: !Compatible(v.data, w.data))
            && (forall id :: Count(Waiting(s, id)) + Count(Showing(s, id)) + Count(IsDone(s, id))
                             + Count(id in s.withdrawn) == Count(id in s.sent))
            && (forall i, j | 0 <= i < j < |s.done| :: s.done[i].id != s.done[j].id)
            && (forall d, e | d in s.held && e in s.held && s.held[d].id == s.held[e].id :: d == e)
            && (forall t | t in dummies :: Count(t in s.free) + Count(Waits(s, t)) + Count(Holds(s, t)) == 1)
  {
    InitInv(dummies);
    RunInv(Init(dummies), es);
    var s := Run(Init(dummies), es);
    assert forall id :: Places(s, id) == Count(id in s.sent);
    forall t | t in dummies ensures Count(t in s.free) + Count(Waits(s, t)) + Count(Holds(s, t)) == 1 {
      OneHome(s, t);
    }
    forall d, e | d in s.held && e in s.held && s.held[d].id == s.held[e].id ensures d == e {
      OneShowing(s, d);
    }
  }

  lemma OneHome(s: State, t: Tid)
    requires Inv(s) && t in s.pool
    ensures Count(t in s.free) + Count(Waits(s, t)) + Count(Holds(s, t)) == 1
  {
    hide Sorted, Distinct, RxOk, BlockOk, DoneOk, TxOk, Maximal, NoRepeat;
    assert !(Waits(s, t) && Holds(s, t));
  }

  /** A letter's block is freed or handed over exactly once when the letter is disposed of, if the
      letter carried no data of its own; if it did, the block is neither freed nor handed over. */
  lemma BlockReleasedIff(dummies: seq<Tid>, es: seq<Event>, id: nat)
    requires NoRepeat(dummies) && LegalRun(Init(dummies), es)
    requires id in Run(Init(dummies), es).sent && Run(Init(dummies), es).sent[id].block.Mem?
    ensures var s := Run(Init(dummies), es);
            multiset(s.freed + s.given)[id] == Count(IsDone(s, id) && s.sent[id].data.Null?)
  {
    InitInv(dummies);
    RunInv(Init(dummies), es);
    var s := Run(Init(dummies), es);
    hide Maximal, TxOk, RxOk, HeldOk, DoneOk, PoolOk, IsDone;
    OnceAtMost(s.freed + s.given, id);
  }

  lemma {:induction false} OnceAtMost(ids: seq<nat>, x: nat)
    requires NoRepeat(ids)
    ensures multiset(ids)[x] == Count(x in ids)
  {
    if ids != [] {
      var a, y := ids[..|ids| - 1], ids[|ids| - 1];
      assert ids == a + [y];
      OnceAtMost(a, x);
    }
  }

  /** Such a block does get lost: any letter with data and a block, queued and then received into a
      buffer, is disposed of, while its block is neither freed nor handed over, and no receive
      descriptor names it.  (A synchronous sender's own descriptor still does.) */
  lemma BlockLost(l: Letter, w: Want, p: int, r: int)
    requires Proper(l) && l.data.Mem? && l.block.Mem? && l.sync == l.from
    requires Compatible(l, w) && w.buffer
    ensures LegalRun(Init([]), [PutEv(p, l, MayWait), GetEv(r, w, MayWait)])
    ensures var s := Run(Init([]), [PutEv(p, l, MayWait), GetEv(r, w, MayWait)]);
            IsDone(s, l.id) && l.id !in s.freed + s.given && s.held == map[] && s.tx == []
  {
    var s0, a, b := Init([]), PutEv(p, l, MayWait), GetEv(r, w, MayWait);
    var v := Waiter(l.sync, p, l);
    assert Legal(s0, a);
    var s1 := Do(s0, a);
    assert s1 == s0.(tx := [v], sent := map[l.id := l]);
    assert Legal(s1, b);
    var s2 := Do(s1, b);
    assert FirstTx([v], w) == 0 && Without([v], v.tid) == Without([v][1..], v.tid) == [];
    assert s2.done[0].id == l.id;
    assert s2.held == map[];
    hide Do, Legal;
    TwoSteps(s0, s1, s2, a, b);
  }

  lemma TwoSteps(s0: State, s1: State, s2: State, a: Event, b: Event)
    requires Legal(s0, a) && s1 == Do(s0, a)
    requires Legal(s1, b) && s2 == Do(s1, b)
    ensures LegalRun(s0, [a, b]) && Run(s0, [a, b]) == s2
  {
    hide Do, Legal;
    assert [b][1..] == [] && [a, b][1..] == [b];
    assert LegalRun(s2, []) && Run(s2, []) == s2;
    assert LegalRun(s1, [b]) && Run(s1, [b]) == s2;
  }

  /** The requests that the waiting and the matched receivers made are among `ws`. */
  ghost predicate Asked(s: State, ws: set<Want>) {
    && (forall x | x in s.rx :: x.data in ws)
    && (forall d | d in s.held :: s.held[d].want in ws)
  }

  ghost function Requests(es: seq<Event>): set<Want> {
    set e | e in es && e.GetEv? :: e.w
  }

  /** Fewer receivers wait and fewer descriptors hold a message, each as before. */
  ghost predicate Fewer(s: State, t: State) {
    && (forall x | x in t.rx :: x in s.rx)
    && (forall d | d in t.held :: d in s.held && t.held[d] == s.held[d])
  }

  lemma CheckFewer(s: State, d: nat)
    requires d in s.held
    ensures Fewer(s, Check(s, d))
  {
  }

  lemma DataFewer(s: State, d: nat, buffer: bool)
    ensures Fewer(s, DataGet(s, d, buffer))
  {
  }

  lemma BlockFewer(s: State, d: nat, pool: bool, gotBlock: bool)
    ensures Fewer(s, BlockGet(s, d, pool, gotBlock))
  {
    DataFewer(s, d, pool);
  }

  lemma RxFewer(s: State, t: Tid)
    ensures Fewer(s, RxExpire(s, t))
  {
    WithoutMembers(s.rx, t);
  }

  lemma PutAsked(s: State, prio: int, l: Letter, wait: Wait, ws: set<Want>)
    requires Asked(s, ws)
    ensures Asked(Put(s, prio, l, wait).0, ws)
  {
    var k := FirstRx(s.rx, l);
    if k < |s.rx| {
      assert s.rx[k] in s.rx;
      WithoutMembers(s.rx, s.rx[k].tid);
    }
  }

  lemma GetAsked(s: State, prio: int, w: Want, wait: Wait, ws: set<Want>)
    requires Asked(s, ws)
    ensures Asked(Get(s, prio, w, wait).0, ws + {w})
  {
    var k := FirstTx(s.tx, w);
    if k < |s.tx| {
      var s1 := s.(tx := Without(s.tx, s.tx[k].tid), held := s.held[w.desc := Match(s.tx[k].data, w)]);
      assert Asked(s1, ws + {w});
      CheckFewer(s1, w.desc);
      hide Check, Without;
    } else {
      EnqueueMembers(s.rx, Waiter(w.me, prio, w));
      hide Enqueue;
    }
  }

  ghost function Asking(ws: set<Want>, e: Event): set<Want> {
    if e.GetEv? then ws + {e.w} else ws
  }

  lemma DoAsked(s: State, e: Event, ws: set<Want>)
    requires Asked(s, ws) && Legal(s, e)
    ensures Asked(Do(s, e), Asking(ws, e))
  {
    hide Put, Get, Check, DataGet, BlockGet, RxExpire;
    match e
    case PutEv(prio, l, wait) => PutAsked(s, prio, l, wait, ws);
    case AsyncEv(prio, l) =>
      PutAsked(s.(free := s.free[..|s.free| - 1]), prio, l.(sync := s.free[|s.free| - 1]), MayWait, ws);
    case GetEv(prio, w, wait) => GetAsked(s, prio, w, wait, ws);
    case CheckEv(d) => CheckFewer(s, d);
    case DataEv(d, buffer) => DataFewer(s, d, buffer);
    case BlockEv(d, pool, gotBlock) => BlockFewer(s, d, pool, gotBlock);
    case TxExpireEv(t) =>
    case RxExpireEv(t) => RxFewer(s, t);
  }

  lemma {:induction false} RunAsked(s: State, es: seq<Event>, ws: set<Want>)
    requires Asked(s, ws) && LegalRun(s, es)
    ensures Asked(Run(s, es), ws + Requests(es))
    decreases |es|
  {
    hide Do, Legal, Asked;
    if es != [] {
      DoAsked(s, es[0], ws);
      RunAsked(Do(s, es[0]), es[1..], Asking(ws, es[0]));
      assert es == [es[0]] + es[1..];
      assert Asking(ws, es[0]) + Requests(es[1..]) == ws + Requests(es);
    } else {
      assert ws + Requests(es) == ws;
    }
  }

  /** Whatever a receiver retrieves is the first so many bytes that the sender sent, so many as were
      sent and asked for; each of the two accepts the other; and the descriptor answers a request that
      was made with it. */
  lemma ReceivedIsSent(dummies: seq<Tid>, es: seq<Event>, d: nat)
    requires NoRepeat(dummies) && LegalRun(Init(dummies), es)
    requires d in Run(Init(dummies), es).held
    ensures var s := Run(Init(dummies), es);
            var h := s.held[d];
            && h.id in s.sent && Proper(s.sent[h.id])
            && (h.data.Mem? ==> h.size <= |h.data.bytes|)
            && h.size == Least(s.sent[h.id].size, h.want.size)
            && Copied(h) == Promised(s.sent[h.id], h.want)
            && h.from == s.sent[h.id].from && h.info == s.sent[h.id].info
            && Compatible(s.sent[h.id], h.want)
            && h.want.desc == d && exists e :: e in es && e.GetEv? && e.w == h.want
  {
    InitInv(dummies);
    RunInv(Init(dummies), es);
    RunAsked(Init(dummies), es, {});
    assert Run(Init(dummies), es).held[d].want in Requests(es);
    hide Maximal, TxOk, RxOk, DoneOk, BlockOk, PoolOk, Kept, Run, LegalRun;
  }
}
