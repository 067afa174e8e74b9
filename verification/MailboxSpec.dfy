/** `struct k_mbox`: senders and receivers meet in a mailbox when each accepts the other; the message
    stays with the receiver until it is disposed of, which is when the sender is let go. */
module MailboxSpec {
  import opened Basics
  import opened WaitQueue

  /** Whom a party is willing to deal with. */
  datatype Peer = Any | Is(tid: Tid)

  /** A pointer to data, or none. */
  datatype Ptr = Null | Mem(addr: nat, bytes: seq<byte>)

  /** A transmit descriptor.  `id` numbers the sends of a run; `from` is the thread that sends; `sync`
      is the thread that is let go at the end: `from` itself, or a dummy for an asynchronous send. */
  datatype Letter = Letter(id: nat, size: nat, info: int, data: Ptr, block: Ptr, from: Tid, target: Peer, sync: Tid)

  /** A receive descriptor that has not been matched: `desc` names it, `buffer` says whether the
      receiver supplied one. */
  datatype Want = Want(desc: nat, size: nat, info: int, source: Peer, me: Tid, buffer: bool)

  /** A matched receive descriptor, together with the request it answers. */
  datatype Held = Held(id: nat, size: nat, info: int, data: Ptr, block: Ptr, from: Tid, sync: Tid, want: Want)

  /** What the sender finds in its descriptor when it is let go. */
  datatype Done = Done(id: nat, sync: Tid, to: Tid, info: int, size: nat)

  datatype Wait = NoWait | MayWait

  datatype Code = Matched | Enomsg | Queued

  /** Two wait queues, the stack of unused dummies out of `pool`, and the matched descriptors not
      disposed of yet; then what has happened: letters accepted, disposals, sends that timed out,
      blocks freed and blocks handed over, the last three by letter number. */
  datatype State = State(tx: seq<Waiter<Letter>>, rx: seq<Waiter<Want>>, pool: set<Tid>, free: seq<Tid>,
                         held: map<nat, Held>, sent: map<nat, Letter>, done: seq<Done>, withdrawn: set<nat>,
                         freed: seq<nat>, given: seq<nat>)

  // ------------------------------------------------------------ matching

  /** Each side accepts the other. */
  predicate Compatible(l: Letter, w: Want) {
    (l.target.Any? || l.target == Is(w.me)) && (w.source.Any? || w.source == Is(l.from))
  }

  /** What the two descriptors say once matched. */
  function Match(l: Letter, w: Want): Held {
    Held(l.id,
         if w.size > l.size then l.size else w.size,
         l.info,
         if l.data.Null? then l.block else l.data,
         if l.data.Null? then l.block else Null,
         l.from, l.sync, w)
  }

  /** There are as many bytes as the descriptor says. */
  predicate Proper(l: Letter) {
    && (l.data.Mem? ==> l.size <= |l.data.bytes|)
    && (l.data.Null? && l.block.Mem? ==> l.size <= |l.block.bytes|)
  }

  function Payload(l: Letter): seq<byte> {
    if l.data.Mem? then l.data.bytes else if l.block.Mem? then l.block.bytes else []
  }

  function Least(a: nat, b: nat): nat {
    if a <= b then a else b
  }

  /** What the receiver is promised of a letter: as much of its payload as was sent and asked for. */
  function Promised(l: Letter, w: Want): seq<byte>
    requires Proper(l)
  {
    if l.data.Null? && l.block.Null? then [] else Payload(l)[..Least(l.size, w.size)]
  }

  /** The first receiver in the queue compatible with `l`, or the queue's length. */
  function FirstRx(q: seq<Waiter<Want>>, l: Letter): (k: nat)
    ensures k <= |q|
    ensures forall i | 0 <= i < k :: !Compatible(l, q[i].data)
    ensures k < |q| ==> Compatible(l, q[k].data)
  {
    if q == [] || Compatible(l, q[0].data) then 0 else 1 + FirstRx(q[1..], l)
  }

  /** The first sender in the queue compatible with `w`, or the queue's length. */
  function FirstTx(q: seq<Waiter<Letter>>, w: Want): (k: nat)
    ensures k <= |q|
    ensures forall i | 0 <= i < k :: !Compatible(q[i].data, w)
    ensures k < |q| ==> Compatible(q[k].data, w)
  {
    if q == [] || Compatible(q[0].data, w) then 0 else 1 + FirstTx(q[1..], w)
  }

  // ------------------------------------------------------------- sending

  /** `mbox_message_put`. */
  function Put(s: State, prio: int, l: Letter, wait: Wait): (State, Code) {
    var k := FirstRx(s.rx, l);
    if k < |s.rx| then
      var w := s.rx[k];
      (s.(rx := Without(s.rx, w.tid), held := s.held[w.data.desc := Match(l, w.data)], sent := s.sent[l.id := l]),
       Matched)
    else if wait.NoWait? then (s, Enomsg)
    else (s.(tx := Enqueue(s.tx, Waiter(l.sync, prio, l)), sent := s.sent[l.id := l]), Queued)
  }

  /** `k_mbox_async_put`: the letter is sent in the name of an unused dummy. */
  function AsyncPut(s: State, prio: int, l: Letter): (State, Code)
    requires s.free != []
  {
    Put(s.(free := s.free[..|s.free| - 1]), prio, l.(sync := s.free[|s.free| - 1]), MayWait)
  }

  // ----------------------------------------------------------- disposing

  /** `mbox_message_dispose`: free the block if there still is one, let the sender go, and return a
      dummy to the stack. */
  function Dispose(s: State, d: nat): State
    requires d in s.held
  {
    var h := s.held[d];
    s.(held := s.held - {d},
       free := if h.sync in s.pool then s.free + [h.sync] else s.free,
       freed := if h.block.Mem? then s.freed + [h.id] else s.freed,
       done := s.done + [Done(h.id, h.sync, h.want.me, h.want.info, h.size)])
  }

  function Discard(s: State, d: nat): State
    requires d in s.held
  {
    Dispose(s.(held := s.held[d := s.held[d].(size := 0)]), d)
  }

  /** What `k_mbox_data_get` copies into the receiver's buffer. */
  function Copied(h: Held): seq<byte>
    requires h.data.Mem? ==> h.size <= |h.data.bytes|
  {
    if h.data.Mem? then h.data.bytes[..h.size] else []
  }

  /** `k_mbox_data_get`, into a buffer or to discard; nothing happens on a descriptor disposed of. */
  function DataGet(s: State, d: nat, buffer: bool): State {
    if d !in s.held then s else if buffer then Dispose(s, d) else Discard(s, d)
  }

  /** `k_mbox_data_block_get`: without a pool the data is discarded; a block in the message changes
      hands; otherwise the data is copied into a new block, if there is one. */
  function BlockGet(s: State, d: nat, pool: bool, gotBlock: bool): State {
    if d !in s.held then s
    else if !pool then Discard(s, d)
    else if s.held[d].block.Mem? then
      Dispose(s.(given := s.given + [s.held[d].id], held := s.held[d := s.held[d].(block := Null)]), d)
    else if !gotBlock then s
    else DataGet(s, d, true)
  }

  /** `mbox_message_data_check`: consume the data at once if there is a buffer or no data. */
  function Check(s: State, d: nat): State
    requires d in s.held
  {
    if s.held[d].want.buffer then DataGet(s, d, true)
    else if s.held[d].size == 0 then Dispose(s, d)
    else s
  }

  // ----------------------------------------------------------- receiving

  /** `k_mbox_get`. */
  function Get(s: State, prio: int, w: Want, wait: Wait): (State, Code) {
    var k := FirstTx(s.tx, w);
    if k < |s.tx| then
      var l := s.tx[k].data;
      (Check(s.(tx := Without(s.tx, s.tx[k].tid), held := s.held[w.desc := Match(l, w)]), w.desc), Matched)
    else if wait.NoWait? then (s, Enomsg)
    else (s.(rx := Enqueue(s.rx, Waiter(w.me, prio, w))), Queued)
  }

  // ------------------------------------------------------------ timing out

  function TxLeave(s: State, t: Tid): State {
    s.(tx := Without(s.tx, t))
  }

  function TxExpire(s: State, t: Tid): State {
    TxLeave(s, t).(withdrawn := s.withdrawn + (set v | v in s.tx && v.tid == t :: v.data.id))
  }

  function RxExpire(s: State, t: Tid): State {
    s.(rx := Without(s.rx, t))
  }
}
