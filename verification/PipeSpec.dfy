/** What a pipe call does, stated on values: a byte stream with a bounded buffer, readers still
    owed bytes and writers still holding bytes.  `Pipe` implements these calls in place. */
module PipeSpec {
  import opened Basics
  import opened WaitQueue

  datatype Wait = NoWait | Timed | Forever

  datatype Code = Ok | Eio | Eagain

  /** `struct k_pipe_desc` of a pended call, with what the caller's stack remembers.
      A reader's `buffer` holds the bytes received so far.  A writer's `buffer` is all of the
      caller's data, of which the last `left` bytes have not been taken yet.
      `dummy` marks the stand-in thread of an asynchronous write. */
  datatype Desc = Desc(buffer: seq<byte>, left: nat, min: nat, dummy: bool)

  type Pended = Waiter<Desc>

  datatype PipeState = PipeState(size: nat, ring: seq<byte>, readers: seq<Pended>, writers: seq<Pended>)

  /** How a call leaves its caller: returned, pended, or posted (asynchronous, still in progress). */
  datatype Outcome = Returned(code: Code, moved: nat) | Blocked | Posted

  /** One step: the new state, the caller's outcome, the waiters made ready, the readers and the
      writers whose timeout fired meanwhile, the bytes that left writers and those that reached
      readers. */
  datatype StepOut = StepOut(next: PipeState, outcome: Outcome, woken: seq<Pended>,
                             lateReaders: seq<Pended>, lateWriters: seq<Pended>,
                             taken: seq<byte>, delivered: seq<byte>)

  function Min(a: nat, b: nat): nat {
    if a < b then a else b
  }

  // ---------------------------------------------------------------- queues of descriptors

  /** Bytes the queue still has to move. */
  function Need(q: seq<Pended>): nat {
    if q == [] then 0 else q[0].data.left + Need(q[1..])
  }

  /** A writer's untaken bytes. */
  function Rest(w: Pended): seq<byte>
    requires w.data.left <= |w.data.buffer|
  {
    w.data.buffer[|w.data.buffer| - w.data.left..]
  }

  ghost predicate WritersOk(q: seq<Pended>) {
    forall i | 0 <= i < |q| :: q[i].data.left <= |q[i].data.buffer|
  }

  /** The untaken bytes of all writers, in queue order. */
  function Bytes(q: seq<Pended>): (b: seq<byte>)
    requires WritersOk(q)
    ensures |b| == Need(q)
  {
    if q == [] then [] else Rest(q[0]) + Bytes(q[1..])
  }

  function Receive(r: Pended, b: seq<byte>): Pended
    requires |b| <= r.data.left
  {
    r.(data := r.data.(buffer := r.data.buffer + b, left := r.data.left - |b|))
  }

  function Take(w: Pended, n: nat): Pended
    requires n <= w.data.left
  {
    w.(data := w.data.(left := w.data.left - n))
  }

  /** Hand `b` to the readers in queue order, each served completely before the next. */
  function Fill(q: seq<Pended>, b: seq<byte>): (r: seq<Pended>)
    ensures |r| == |q|
  {
    if q == [] then []
    else
      var n := Min(q[0].data.left, |b|);
      [Receive(q[0], b[..n])] + Fill(q[1..], b[n..])
  }

  /** Take `n` bytes from the writers in queue order. */
  function Drain(q: seq<Pended>, n: nat): (r: seq<Pended>)
    ensures |r| == |q|
  {
    if q == [] then []
    else
      var k := Min(q[0].data.left, n);
      [Take(q[0], k)] + Drain(q[1..], n - k)
  }

  /** A way to pick waiters out of a queue: requests completed or still open, timeout fired or not. */
  datatype Choice = Done | Open | Late(late: set<Tid>) | OnTime(late: set<Tid>)

  predicate Picks(c: Choice, w: Pended) {
    match c
    case Done => w.data.left == 0
    case Open => w.data.left > 0
    case Late(t) => w.tid in t
    case OnTime(t) => w.tid !in t
  }

  function Only(q: seq<Pended>, c: Choice): seq<Pended> {
    if q == [] then []
    else if Picks(c, q[0]) then [q[0]] + Only(q[1..], c)
    else Only(q[1..], c)
  }

  // ---------------------------------------------------------------- the calls

  /** `pipe_return_code`. */
  function ReturnCode(min: nat, left: nat, requested: nat): Code
    requires left <= requested
  {
    if requested - left >= min then Ok else Eagain
  }

  function Unchanged(s: PipeState, o: Outcome): StepOut {
    StepOut(s, o, [], [], [], [], [])
  }

  /** A write by thread `c.0` of priority `c.1`.  Bytes go to the waiting readers, then to the
      buffer, then wait with the caller.  `late` are the threads whose timeout fires while the
      call copies with interrupts enabled. */
  function Put(s: PipeState, c: (Tid, int), data: seq<byte>, min: nat, wait: Wait,
               async: bool, late: set<Tid>): StepOut
    requires |s.ring| <= s.size
    requires min <= |data|
  {
    var demand, room := Need(s.readers), s.size - |s.ring|;
    if wait.NoWait? && demand + room < min then
      Unchanged(s, Returned(Eio, 0))
    else
      var give := Min(|data|, demand);
      var moved := give + Min(|data| - give, room);
      var filled := Fill(s.readers, data[..give]);
      var readers := Only(Only(filled, Open), OnTime(late));
      var writers := Only(s.writers, OnTime(late));
      var pends := moved < |data| && (async || !wait.NoWait?);
      var me := Waiter(c.0, c.1, Desc(data, |data| - moved, min, async));
      StepOut(PipeState(s.size, s.ring + data[give..moved], readers,
                        if pends then Enqueue(writers, me) else writers),
              if !pends then Returned(ReturnCode(min, |data| - moved, |data|), moved)
              else if async then Posted
              else Blocked,
              Only(filled, Done),
              Only(Only(filled, Open), Late(late)), Only(s.writers, Late(late)),
              data[..moved], data[..give])
  }

  /** Everything a reader could obtain now: the buffer, then the writers in queue order. */
  function Stream(s: PipeState): seq<byte>
    requires WritersOk(s.writers)
  {
    s.ring + Bytes(s.writers)
  }

  /** The buffer once `n` bytes of the stream are gone: as much of the rest as fits. */
  function Refilled(s: PipeState, n: nat): seq<byte>
    requires WritersOk(s.writers) && n <= |Stream(s)|
  {
    Stream(s)[n..n + Min(s.size, |Stream(s)| - n)]
  }

  /** How many bytes the writers part with when `n` bytes of the stream are read. */
  function Supplied(s: PipeState, n: nat): (k: nat)
    requires |s.ring| <= s.size && WritersOk(s.writers) && n <= |Stream(s)|
    ensures k <= Need(s.writers)
  {
    n + |Refilled(s, n)| - |s.ring|
  }

  /** A read of up to `want` bytes: the front of the stream goes to the caller and the buffer is
      topped up from the writers. */
  function Get(s: PipeState, c: (Tid, int), want: nat, min: nat, wait: Wait, late: set<Tid>): StepOut
    requires |s.ring| <= s.size && WritersOk(s.writers)
    requires min <= want
  {
    if wait.NoWait? && |Stream(s)| < min then
      Unchanged(s, Returned(Eio, 0))
    else
      var n := Min(want, |Stream(s)|);
      var read := Stream(s)[..n];
      var drained := Drain(s.writers, Supplied(s, n));
      var readers := Only(s.readers, OnTime(late));
      var pends := n < want && !wait.NoWait?;
      var me := Waiter(c.0, c.1, Desc(read, want - n, min, false));
      StepOut(PipeState(s.size, Refilled(s, n),
                        if pends then Enqueue(readers, me) else readers,
                        Only(Only(drained, Open), OnTime(late))),
              if pends then Blocked else Returned(ReturnCode(min, want - n, want), n),
              Only(drained, Done),
              Only(s.readers, Late(late)), Only(Only(drained, Open), Late(late)),
              Bytes(s.writers)[..Supplied(s, n)], read)
  }

  /** A waiter's timeout fires between calls. */
  function Expire(s: PipeState, tid: Tid): StepOut {
    StepOut(s.(readers := Only(s.readers, OnTime({tid})), writers := Only(s.writers, OnTime({tid}))),
            Blocked, [], Only(s.readers, Late({tid})), Only(s.writers, Late({tid})), [], [])
  }
}
