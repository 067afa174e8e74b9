/** `struct k_msgq`: a ring of fixed-size messages and a single wait queue that threads waiting to
    read and threads waiting to write share.  Nothing in the queue says which kind it holds. */
module MessageQueue {
  import opened WaitQueue
  import opened Circular

  datatype Wait = NoWait | MayWait

  datatype Code = Ok | Enomsg

  /** Why a thread waits; the calls below never look. */
  datatype Role = Reader | Writer

  /** What `swap_data` points to: the message to send, or room for one. */
  datatype Swap<M> = Swap(role: Role, msg: M)

  type Pended<M> = Waiter<Swap<M>>

  datatype State<M> = State(max: nat, ring: seq<M>, waiters: seq<Pended<M>>)

  datatype Outcome = Returned(code: Code) | Blocked

  /** A waiter that a call made ready, with what its buffer holds and its return code. */
  datatype Wake<M> = Wake(waiter: Pended<M>, code: Code)

  datatype StepOut<M> = StepOut(next: State<M>, outcome: Outcome, woken: seq<Wake<M>>, got: seq<M>)

  function Put<M>(s: State<M>, c: (Tid, int), m: M, wait: Wait): StepOut<M> {
    if |s.ring| < s.max then
      if s.waiters != [] then
        var w := s.waiters[0];
        StepOut(s.(waiters := s.waiters[1..]), Returned(Ok), [Wake(w.(data := w.data.(msg := m)), Ok)], [])
      else
        StepOut(s.(ring := s.ring + [m]), Returned(Ok), [], [])
    else if wait.NoWait? then StepOut(s, Returned(Enomsg), [], [])
    else StepOut(s.(waiters := Enqueue(s.waiters, Waiter(c.0, c.1, Swap(Writer, m)))), Blocked, [], [])
  }

  /** `room` is whatever the caller's buffer holds beforehand. */
  function Get<M>(s: State<M>, c: (Tid, int), room: M, wait: Wait): StepOut<M> {
    if s.ring != [] then
      if s.waiters != [] then
        StepOut(State(s.max, s.ring[1..] + [s.waiters[0].data.msg], s.waiters[1..]), Returned(Ok),
                [Wake(s.waiters[0], Ok)], [s.ring[0]])
      else
        StepOut(s.(ring := s.ring[1..]), Returned(Ok), [], [s.ring[0]])
    else if wait.NoWait? then StepOut(s, Returned(Enomsg), [], [])
    else StepOut(s.(waiters := Enqueue(s.waiters, Waiter(c.0, c.1, Swap(Reader, room)))), Blocked, [], [])
  }

  function Wakes<M>(q: seq<Pended<M>>, code: Code): (r: seq<Wake<M>>)
    ensures |r| == |q|
    ensures forall i | 0 <= i < |q| :: r[i] == Wake(q[i], code)
  {
    if q == [] then [] else [Wake(q[0], code)] + Wakes(q[1..], code)
  }

  lemma WakesStep<M>(a: seq<Wake<M>>, q: seq<Pended<M>>, code: Code)
    requires q != []
    ensures a + Wakes(q, code) == a + [Wake(q[0], code)] + Wakes(q[1..], code)
  {
    Assoc(a, [Wake(q[0], code)], Wakes(q[1..], code));
  }

  lemma NoWindow<M>(mem: seq<M>, start: nat)
    requires start <= |mem|
    ensures Window(mem, start, 0) == []
  {
  }

  lemma OneAt<M>(mem: seq<M>, i: nat)
    requires i < |mem|
    ensures mem[i..i + 1] == [mem[i]]
  {
  }

  function Purge<M>(s: State<M>): StepOut<M> {
    StepOut(State(s.max, [], []), Returned(Ok), Wakes(s.waiters, Enomsg), [])
  }

  function Expire<M>(s: State<M>, tid: Tid): StepOut<M> {
    StepOut(s.(waiters := Without(s.waiters, tid)), Returned(Ok), [], [])
  }

  // ---------------------------------------------------------------- in place

  class MsgQ<M(0)> {
    const maxMsgs: nat
    const buffer: array<M>
    var readPtr: nat
    var writePtr: nat
    var usedMsgs: nat
    var waiters: seq<Pended<M>>

    ghost predicate Valid()
      reads this
    {
      && buffer.Length == maxMsgs && usedMsgs <= maxMsgs
      && (if maxMsgs == 0 then readPtr == 0 && writePtr == 0
          else readPtr < maxMsgs && writePtr == Wrap(readPtr + usedMsgs, maxMsgs))
    }

    ghost function View(): State<M>
      requires Valid()
      reads this, buffer
    {
      State(maxMsgs, Window(buffer[..], readPtr, usedMsgs), waiters)
    }

    /** `k_msgq_init`. */
    constructor (max: nat)
      ensures Valid() && fresh(buffer) && View() == State(max, [], [])
    {
      maxMsgs := max;
      buffer := new M[max];
      readPtr, writePtr, usedMsgs, waiters := 0, 0, 0, [];
    }

    /** Copy a message to the write pointer and move the pointer on. */
    method Store(m: M)
      requires Valid() && usedMsgs < maxMsgs
      modifies this`writePtr, this`usedMsgs, buffer
      ensures Valid() && View().ring == old(View().ring) + [m]
    {
      hide Window;
      ghost var before := buffer[..];
      buffer[writePtr] := m;
      assert buffer[..] == before[..writePtr] + [m] + before[writePtr + 1..];
      WindowExtends(before, buffer[..], readPtr, usedMsgs, [m]);
      writePtr := writePtr + 1;
      if writePtr == maxMsgs {
        writePtr := 0;
      }
      usedMsgs := usedMsgs + 1;
    }

    /** `_impl_k_msgq_put`. */
    method PutMsg(tid: Tid, prio: int, m: M, wait: Wait) returns (outcome: Outcome, woken: seq<Wake<M>>)
      requires Valid()
      modifies this, buffer
      ensures Valid()
      ensures var o := Put(old(View()), (tid, prio), m, wait);
              View() == o.next && outcome == o.outcome && woken == o.woken
      ensures outcome == Returned(Ok) <==> old(usedMsgs) < maxMsgs
      ensures outcome == Returned(Enomsg) <==> old(usedMsgs) == maxMsgs && wait.NoWait?
    {
      hide Window, Enqueue, Wrap;
      woken := [];
      if usedMsgs < maxMsgs {
        if waiters != [] {
          var pending := waiters[0];
          waiters := waiters[1..];
          woken := [Wake(pending.(data := pending.data.(msg := m)), Ok)];
        } else {
          Store(m);
        }
        outcome := Returned(Ok);
      } else if wait.NoWait? {
        outcome := Returned(Enomsg);
      } else {
        waiters := WaitQueue.Add(waiters, Waiter(tid, prio, Swap(Writer, m)));
        outcome := Blocked;
      }
    }

    /** `_impl_k_msgq_get`; `got` is empty unless a message was taken. */
    method GetMsg(tid: Tid, prio: int, room: M, wait: Wait)
      returns (outcome: Outcome, got: seq<M>, woken: seq<Wake<M>>)
      requires Valid()
      modifies this, buffer
      ensures Valid()
      ensures var o := Get(old(View()), (tid, prio), room, wait);
              View() == o.next && outcome == o.outcome && got == o.got && woken == o.woken
    {
      hide Window, Enqueue;
      woken, got := [], [];
      if usedMsgs > 0 {
        WindowSplits(buffer[..], readPtr, usedMsgs, 1);
        OneAt(buffer[..], readPtr);
        got := [buffer[readPtr]];
        readPtr := readPtr + 1;
        if readPtr == maxMsgs {
          readPtr := 0;
        }
        usedMsgs := usedMsgs - 1;
        if waiters != [] {
          var pending := waiters[0];
          waiters := waiters[1..];
          Store(pending.data.msg);
          woken := [Wake(pending, Ok)];
        }
        outcome := Returned(Ok);
      } else if wait.NoWait? {
        outcome := Returned(Enomsg);
      } else {
        waiters := WaitQueue.Add(waiters, Waiter(tid, prio, Swap(Reader, room)));
        outcome := Blocked;
      }
    }

    /** `_impl_k_msgq_purge`. */
    method PurgeMsgs() returns (woken: seq<Wake<M>>)
      requires Valid()
      modifies this
      ensures Valid() && View() == Purge(old(View())).next && woken == Purge(old(View())).woken
    {
      hide Window, Wakes;
      woken := [];
      while waiters != []
        invariant Valid() && usedMsgs == old(usedMsgs) && writePtr == old(writePtr)
        invariant woken + Wakes(waiters, Enomsg) == Wakes(old(waiters), Enomsg)
        decreases |waiters|
      {
        WakesStep(woken, waiters, Enomsg);
        woken := woken + [Wake(waiters[0], Enomsg)];
        waiters := waiters[1..];
      }
      usedMsgs := 0;
      readPtr := writePtr;
      NoWindow(buffer[..], readPtr);
    }
  }
}
