/** What each mailbox call answers, whom it matches, and what sender and receiver are told. */
module MailboxEffects {
  import opened Basics
  import opened WaitQueue
  import opened MailboxSpec
  import opened MailboxRuns

  // ---------------------------------------------------------- vocabulary

  /** The receive descriptor shows the letter, cut to what was asked for; the data is the letter's
      own, or else in its block, which only then changes hands. */
  ghost predicate Answers(l: Letter, w: Want, h: Held) {
    && h.id == l.id && h.info == l.info && h.from == l.from && h.sync == l.sync && h.want == w
    && h.size == (if l.size <= w.size then l.size else w.size)
    && (l.data.Mem? ==> h.data == l.data && h.block.Null?)
    && (l.data.Null? ==> h.data == l.block && h.block == l.block)
  }

  ghost predicate FirstFit(q: seq<Waiter<Want>>, l: Letter, k: nat) {
    k < |q| && Compatible(l, q[k].data) && forall i | 0 <= i < k :: !Compatible(l, q[i].data)
  }

  ghost predicate FirstSender(q: seq<Waiter<Letter>>, w: Want, k: nat) {
    k < |q| && Compatible(q[k].data, w) && forall i | 0 <= i < k :: !Compatible(q[i].data, w)
  }

  /** The place `k` of the queue is vacated. */
  ghost predicate Vacates<T>(q: seq<T>, k: nat, r: seq<T>) {
    k < |q| && r == q[..k] + q[k + 1..]
  }

  /** Letter `l` reaches the first receiver that fits, at place `k`, whose descriptor is then `h`. */
  ghost predicate Received(s: State, l: Letter, k: nat, h: Held, r: State) {
    && FirstFit(s.rx, l, k) && Answers(l, s.rx[k].data, h) && Vacates(s.rx, k, r.rx)
    && r == s.(rx := r.rx, held := s.held[s.rx[k].data.desc := h], sent := s.sent[l.id := l])
  }

  /** Request `w` takes up the letter of the first sender that fits, at place `k`. */
  ghost predicate Fetched(s: State, w: Want, k: nat, h: Held, r: State) {
    && FirstSender(s.tx, w, k) && Answers(s.tx[k].data, w, h) && Vacates(s.tx, k, r.tx)
    && r == s.(tx := r.tx, held := s.held[w.desc := h])
  }

  lemma {:induction false} WithoutVacates<T>(q: seq<Waiter<T>>, k: nat)
    requires Distinct(q) && k < |q|
    ensures Vacates(q, k, Without(q, q[k].tid))
  {
    if k == 0 {
      WithoutAbsent(q[1..], q[0].tid);
    } else {
      WithoutVacates(q[1..], k - 1);
      assert q[1..][k - 1] == q[k];
      assert [q[0]] + (q[1..][..k - 1] + q[1..][k..]) == q[..k] + q[k + 1..];
    }
  }

  // -------------------------------------------------------------- sending

  /** A send meets the first receiver in the queue that it is compatible with, exactly if there is
      one and whether or not it may wait: that receiver leaves the queue, and its descriptor shows
      the letter.  It is refused, changing nothing, exactly if there is none and it may not wait;
      else it queues behind everyone at least as urgent. */
  lemma PutAnswer(s: State, prio: int, l: Letter, wait: Wait)
    requires Sorted(s.tx) && Distinct(s.rx)
    ensures var (r, code) := Put(s, prio, l, wait);
            && (code.Matched? <==> exists x :: x in s.rx && Compatible(l, x.data))
            && (code.Matched? ==> exists k: nat, h :: Received(s, l, k, h, r))
            && (code.Enomsg? <==> wait.NoWait? && !exists x :: x in s.rx && Compatible(l, x.data))
            && (code.Enomsg? ==> r == s)
            && (code.Queued? <==> wait.MayWait? && !exists x :: x in s.rx && Compatible(l, x.data))
            && (code.Queued? ==> Joins(s.tx, Waiter(l.sync, prio, l), r.tx)
                                 && r == s.(tx := r.tx, sent := s.sent[l.id := l]))
  {
    var k := FirstRx(s.rx, l);
    if k < |s.rx| {
      assert s.rx[k] in s.rx;
      WithoutVacates(s.rx, k);
      assert Received(s, l, k, Match(l, s.rx[k].data), Put(s, prio, l, wait).0);
      hide Received, Without, Match, Distinct, Sorted, Compatible;
    } else {
      NoneCompatible(s.rx, l);
      EnqueueJoins(s.tx, Waiter(l.sync, prio, l));
      hide Joins, Enqueue, Distinct, Sorted, Compatible;
    }
  }

  /** An asynchronous send takes the dummy on top of the stack and is never refused. */
  lemma AsyncPutAnswer(s: State, prio: int, l: Letter)
    requires Sorted(s.tx) && Distinct(s.rx) && s.free != []
    ensures var (r, code) := AsyncPut(s, prio, l);
            var (dummy, left) := (s.free[|s.free| - 1], s.free[..|s.free| - 1]);
            var m := l.(sync := dummy);
            && r.free == left && (code.Matched? || code.Queued?)
            && (code.Matched? <==> exists x :: x in s.rx && Compatible(l, x.data))
            && (code.Matched? ==> exists k: nat, h :: Received(s.(free := left), m, k, h, r))
            && (code.Queued? ==> Joins(s.tx, Waiter(dummy, prio, m), r.tx)
                                 && r == s.(free := left, tx := r.tx, sent := s.sent[l.id := m]))
  {
    var m := l.(sync := s.free[|s.free| - 1]);
    assert forall w :: Compatible(m, w) == Compatible(l, w);
    hide Compatible, Received, Joins, Put, Distinct, Sorted;
    PutAnswer(s.(free := s.free[..|s.free| - 1]), prio, m, MayWait);
  }

  // ------------------------------------------------------------- disposal

  /** The letter is done with: its sender is let go and told who got it, with what information, and
      how much; a dummy is back on the stack.  Everything else, blocks apart, is as before. */
  ghost predicate LetGo(s: State, d: nat, size: nat, r: State) {
    && d in s.held
    && r.tx == s.tx && r.rx == s.rx && r.pool == s.pool && r.sent == s.sent && r.withdrawn == s.withdrawn
    && r.held == s.held - {d}
    && r.done == s.done + [Done(s.held[d].id, s.held[d].sync, s.held[d].want.me, s.held[d].want.info, size)]
    && r.free == s.free + if s.held[d].sync in s.pool then [s.held[d].sync] else []
  }

  /** Retrieving into a buffer reports the size shown and discarding reports none; either way a block
      still in the descriptor is freed.  Nothing happens on a descriptor disposed of. */
  lemma DataGetEffect(s: State, d: nat, buffer: bool)
    ensures var r := DataGet(s, d, buffer);
            && (d !in s.held ==> r == s)
            && (d in s.held ==>
                  && LetGo(s, d, if buffer then s.held[d].size else 0, r)
                  && r.freed == s.freed + (if s.held[d].block.Mem? then [s.held[d].id] else []) && r.given == s.given)
  {
    if d in s.held {
      assert s.held[d := s.held[d].(size := 0)] - {d} == s.held - {d};
    }
  }

  /** Retrieving as a block: without a pool the data is discarded; a block in the message is handed
      over and not freed; else the data is copied if a block was to be had, and if not nothing
      happens. */
  lemma BlockGetEffect(s: State, d: nat, pool: bool, gotBlock: bool)
    ensures var r := BlockGet(s, d, pool, gotBlock);
            && (d !in s.held ==> r == s)
            && (d in s.held && !pool ==>
                  && LetGo(s, d, 0, r)
                  && r.freed == s.freed + (if s.held[d].block.Mem? then [s.held[d].id] else []) && r.given == s.given)
            && (d in s.held && pool && s.held[d].block.Mem? ==>
                  LetGo(s, d, s.held[d].size, r) && r.freed == s.freed && r.given == s.given + [s.held[d].id])
            && (d in s.held && pool && s.held[d].block.Null? && gotBlock ==>
                  LetGo(s, d, s.held[d].size, r) && r.freed == s.freed && r.given == s.given)
            && (d in s.held && pool && s.held[d].block.Null? && !gotBlock ==> r == s)
  {
    DataGetEffect(s, d, pool);
    if d in s.held {
      assert s.held[d := s.held[d].(block := Null)] - {d} == s.held - {d};
    }
  }

  /** A receiver that gave a buffer, or was sent nothing, is through with the message at once; any
      other keeps it in its descriptor. */
  lemma CheckEffect(s: State, d: nat)
    requires d in s.held
    ensures var r := Check(s, d);
            && (s.held[d].want.buffer || s.held[d].size == 0 ==>
                  && LetGo(s, d, s.held[d].size, r)
                  && r.freed == s.freed + (if s.held[d].block.Mem? then [s.held[d].id] else []) && r.given == s.given)
            && (!s.held[d].want.buffer && s.held[d].size > 0 ==> r == s)
  {
    DataGetEffect(s, d, true);
  }

  // ------------------------------------------------------------ receiving

  /** A receive meets the first sender in the queue that it is compatible with, exactly if there is
      one and whether or not it may wait, and then goes on as in `CheckEffect`.  It is refused,
      changing nothing, exactly if there is none and it may not wait; else it queues. */
  lemma GetAnswer(s: State, prio: int, w: Want, wait: Wait)
    requires Distinct(s.tx) && Sorted(s.rx)
    ensures var (r, code) := Get(s, prio, w, wait);
            && (code.Matched? <==> exists x :: x in s.tx && Compatible(x.data, w))
            && (code.Matched? ==> exists k: nat, h, m :: Fetched(s, w, k, h, m) && r == Check(m, w.desc))
            && (code.Enomsg? <==> wait.NoWait? && !exists x :: x in s.tx && Compatible(x.data, w))
            && (code.Enomsg? ==> r == s)
            && (code.Queued? <==> wait.MayWait? && !exists x :: x in s.tx && Compatible(x.data, w))
            && (code.Queued? ==> Joins(s.rx, Waiter(w.me, prio, w), r.rx) && r == s.(rx := r.rx))
  {
    var k := FirstTx(s.tx, w);
    if k < |s.tx| {
      assert s.tx[k] in s.tx;
      WithoutVacates(s.tx, k);
      var h := Match(s.tx[k].data, w);
      assert Fetched(s, w, k, h, s.(tx := Without(s.tx, s.tx[k].tid), held := s.held[w.desc := h]));
      hide Fetched, Without, Match, Distinct, Sorted, Compatible, Check;
    } else {
      NoSender(s.tx, w);
      EnqueueJoins(s.rx, Waiter(w.me, prio, w));
      hide Joins, Enqueue, Distinct, Sorted, Compatible;
    }
  }

  // ------------------------------------------------------------ timing out

  lemma TxExpireEffect(s: State, t: Tid)
    ensures var r := TxExpire(s, t);
            && Chosen(s.tx, (v: Waiter<Letter>) => v.tid != t, r.tx)
            && (forall id :: id in r.withdrawn <==>
                  id in s.withdrawn || exists v :: v in s.tx && v.tid == t && v.data.id == id)
            && r == s.(tx := r.tx, withdrawn := r.withdrawn)
  {
    WithoutChosen(s.tx, t);
  }

  lemma RxExpireEffect(s: State, t: Tid)
    ensures var r := RxExpire(s, t);
            Chosen(s.rx, (v: Waiter<Want>) => v.tid != t, r.rx) && r == s.(rx := r.rx)
  {
    WithoutChosen(s.rx, t);
  }

  // ----------------------------------------------------------- whole runs

  /** A record of disposal agrees with some request among `ws` that its letter answered. */
  ghost predicate Truthful(s: State, x: Done, ws: set<Want>) {
    x.id in s.sent && exists w :: w in ws && Tells(s.sent[x.id], w, x)
  }

  /** What a sender is told when a receiver with request `w` is through with its letter. */
  ghost predicate Tells(l: Letter, w: Want, x: Done) {
    && Compatible(l, w) && x.sync == l.sync && x.to == w.me && x.info == w.info
    && (x.size == (if l.size <= w.size then l.size else w.size) || x.size == 0)
  }

  ghost predicate AllTruthful(s: State, ws: set<Want>) {
    forall i | 0 <= i < |s.done| :: Truthful(s, s.done[i], ws)
  }

  lemma LetGoTruthful(s: State, d: nat, size: nat, r: State, ws: set<Want>)
    requires HeldOk(s) && Asked(s, ws) && AllTruthful(s, ws) && LetGo(s, d, size, r)
    requires size == s.held[d].size || size == 0
    ensures AllTruthful(r, ws)
  {
    var h := s.held[d];
    assert Shows(h, s.sent[h.id]) && h.want in ws;
    assert Tells(s.sent[h.id], h.want, r.done[|s.done|]);
    hide HeldOk, Tells, Shows;
    forall i | 0 <= i < |r.done| ensures Truthful(r, r.done[i], ws) {
      if i < |s.done| {
        assert Truthful(s, s.done[i], ws);
      }
    }
  }

  lemma SameTruthful(s: State, r: State, ws: set<Want>, more: set<Want>)
    requires AllTruthful(s, ws) && r.done == s.done && ws <= more
    requires forall id | id in s.sent :: id in r.sent && r.sent[id] == s.sent[id]
    ensures AllTruthful(r, more)
  {
    hide Tells;
    forall i | 0 <= i < |r.done| ensures Truthful(r, r.done[i], more) {
      assert Truthful(s, s.done[i], ws);
    }
  }

  lemma PutTruthful(s: State, prio: int, l: Letter, wait: Wait, ws: set<Want>)
    requires AllTruthful(s, ws) && l.id !in s.sent
    ensures AllTruthful(Put(s, prio, l, wait).0, ws)
  {
    hide Truthful, Match, Without, Enqueue;
    SameTruthful(s, Put(s, prio, l, wait).0, ws, ws);
  }

  lemma CheckTruthful(s: State, d: nat, ws: set<Want>)
    requires HeldOk(s) && Asked(s, ws) && AllTruthful(s, ws) && d in s.held
    ensures AllTruthful(Check(s, d), ws)
  {
    CheckEffect(s, d);
    hide LetGo, HeldOk, AllTruthful, Check, Asked;
    if s.held[d].want.buffer || s.held[d].size == 0 {
      LetGoTruthful(s, d, s.held[d].size, Check(s, d), ws);
    }
  }

  lemma GetTruthful(s: State, prio: int, w: Want, wait: Wait, ws: set<Want>)
    requires Inv(s) && Legal(s, GetEv(prio, w, wait)) && Asked(s, ws) && AllTruthful(s, ws)
    ensures AllTruthful(Get(s, prio, w, wait).0, ws + {w})
  {
    var k := FirstTx(s.tx, w);
    if k < |s.tx| {
      var m := Hold(TxLeave(s, s.tx[k].tid), s.tx[k].data, w);
      SentAlready(s, s.tx[k]);
      HoldAsked(s, w, k, ws);
      GetMatchedInv(s, w, k);
      hide Inv, Truthful, Check, Get, Asked, Hold, HeldOk;
      GetMatched(s, prio, w, wait, k);
      SameTruthful(s, m, ws, ws + {w});
      InvHeld(m);
      CheckTruthful(m, w.desc, ws + {w});
    } else {
      SameTruthful(s, Get(s, prio, w, wait).0, ws, ws + {w});
    }
  }

  lemma HoldAsked(s: State, w: Want, k: nat, ws: set<Want>)
    requires Asked(s, ws) && k < |s.tx| && s.sent[s.tx[k].data.id := s.tx[k].data] == s.sent
    ensures var m := Hold(TxLeave(s, s.tx[k].tid), s.tx[k].data, w);
            Asked(m, ws + {w}) && m.done == s.done && m.sent == s.sent && w.desc in m.held
  {
    hide Without;
  }

  lemma InvHeld(s: State)
    requires Inv(s)
    ensures HeldOk(s)
  {
  }

  lemma DataTruthful(s: State, d: nat, buffer: bool, ws: set<Want>)
    requires HeldOk(s) && Asked(s, ws) && AllTruthful(s, ws)
    ensures AllTruthful(DataGet(s, d, buffer), ws)
  {
    DataGetEffect(s, d, buffer);
    hide LetGo, HeldOk, AllTruthful, DataGet, Asked;
    if d in s.held {
      LetGoTruthful(s, d, if buffer then s.held[d].size else 0, DataGet(s, d, buffer), ws);
    }
  }

  lemma BlockTruthful(s: State, d: nat, pool: bool, gotBlock: bool, ws: set<Want>)
    requires HeldOk(s) && Asked(s, ws) && AllTruthful(s, ws)
    ensures AllTruthful(BlockGet(s, d, pool, gotBlock), ws)
  {
    BlockGetEffect(s, d, pool, gotBlock);
    hide LetGo, HeldOk, AllTruthful, BlockGet, Asked;
    if d in s.held && (!pool || s.held[d].block.Mem? || gotBlock) {
      LetGoTruthful(s, d, if pool then s.held[d].size else 0, BlockGet(s, d, pool, gotBlock), ws);
    }
  }

  lemma DoTruthful(s: State, e: Event, ws: set<Want>)
    requires Inv(s) && Legal(s, e) && Asked(s, ws) && AllTruthful(s, ws)
    ensures AllTruthful(Do(s, e), Asking(ws, e))
  {
    InvHeld(s);
    hide Inv, HeldOk, Truthful, Asked, Put, Get, Check, DataGet, BlockGet, TxExpire, RxExpire;
    match e
    case PutEv(prio, l, wait) => PutTruthful(s, prio, l, wait, ws);
    case AsyncEv(prio, l) =>
      SameTruthful(s, s.(free := s.free[..|s.free| - 1]), ws, ws);
      PutTruthful(s.(free := s.free[..|s.free| - 1]), prio, l.(sync := s.free[|s.free| - 1]), MayWait, ws);
    case GetEv(prio, w, wait) => GetTruthful(s, prio, w, wait, ws);
    case CheckEv(d) => CheckTruthful(s, d, ws);
    case DataEv(d, buffer) => DataTruthful(s, d, buffer, ws);
    case BlockEv(d, pool, gotBlock) => BlockTruthful(s, d, pool, gotBlock, ws);
    case TxExpireEv(t) =>
      TxExpireEffect(s, t);
      SameTruthful(s, TxExpire(s, t), ws, ws);
    case RxExpireEv(t) =>
      RxExpireEffect(s, t);
      SameTruthful(s, RxExpire(s, t), ws, ws);
  }

  lemma {:induction false} RunTruthful(s: State, es: seq<Event>, ws: set<Want>)
    requires Inv(s) && LegalRun(s, es) && Asked(s, ws) && AllTruthful(s, ws)
    ensures AllTruthful(Run(s, es), ws + Requests(es))
    decreases |es|
  {
    hide Do, Legal, Asked, Inv, AllTruthful;
    if es != [] {
      DoInv(s, es[0]);
      DoAsked(s, es[0], ws);
      DoTruthful(s, es[0], ws);
      RunTruthful(Do(s, es[0]), es[1..], Asking(ws, es[0]));
      assert es == [es[0]] + es[1..];
      assert Asking(ws, es[0]) + Requests(es[1..]) == ws + Requests(es);
    } else {
      assert ws + Requests(es) == ws;
    }
  }

  /** In every run, whoever is let go was sent for a request that somebody made and that accepts its
      letter, and finds in its descriptor who that was, the information given, and how many bytes
      were retrieved: as many as were sent and asked for, or none. */
  lemma SenderIsTold(dummies: seq<Tid>, es: seq<Event>, i: nat)
    requires NoRepeat(dummies) && LegalRun(Init(dummies), es) && i < |Run(Init(dummies), es).done|
    ensures var s := Run(Init(dummies), es);
            && s.done[i].id in s.sent
            && exists e :: e in es && e.GetEv? && Tells(s.sent[s.done[i].id], e.w, s.done[i])
  {
    InitInv(dummies);
    RunTruthful(Init(dummies), es, {});
    var s := Run(Init(dummies), es);
    assert Truthful(s, s.done[i], {} + Requests(es));
    hide Tells, Run, LegalRun;
  }
}
