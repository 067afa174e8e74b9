/** `struct k_pipe` and its calls, in place: a circular buffer, a queue of waiting readers and a
    queue of waiting writers.  Data passes directly between threads where it can. */
module Pipe {
  import opened Basics
  import opened WaitQueue
  import opened PipeSpec
  import opened PipeQueues
  import opened PipeRuns
  import opened Circular

  /** `pipe_xfer` into the circular buffer. */
  method CopyIn(dest: array<byte>, at: nat, room: nat, src: seq<byte>) returns (n: nat)
    requires at + room <= dest.Length
    modifies dest
    ensures n == Min(room, |src|)
    ensures dest[..] == old(dest[..at]) + src[..n] + old(dest[at + n..])
  {
    n := Min(room, |src|);
    var i := 0;
    while i < n
      invariant 0 <= i <= n
      invariant dest[..at] == old(dest[..at])
      invariant dest[at..at + i] == src[..i]
      invariant dest[at + i..] == old(dest[at + i..])
    {
      dest[at + i] := src[i];
      i := i + 1;
    }
    assert dest[..] == dest[..at] + dest[at..at + n] + dest[at + n..];
  }

  /** `pipe_xfer` out of the circular buffer. */
  method CopyOut(room: nat, src: array<byte>, at: nat, avail: nat) returns (bytes: seq<byte>)
    requires at + avail <= src.Length
    ensures bytes == src[at..at + Min(room, avail)]
  {
    var n := Min(room, avail);
    bytes := [];
    while |bytes| < n
      invariant |bytes| <= n && bytes == src[at..at + |bytes|]
    {
      bytes := bytes + [src[at + |bytes|]];
    }
  }

  /** `pipe_xfer_prepare`: take off the wait queue the requests that can be satisfied completely.
      `rest` is what stays queued; its head, if any, can be served in part. */
  method XferPrepare(queue: seq<Pended>, space: nat, request: nat, min: nat, noWait: bool)
    returns (ok: bool, xfer: seq<Pended>, rest: seq<Pended>)
    requires min <= request
    ensures ok <==> !(noWait && Need(queue) + space < min)
    ensures queue == xfer + rest
    ensures ok ==> Need(xfer) <= request
    ensures ok && rest != [] ==> request < Need(xfer) + rest[0].data.left
  {
    xfer, rest := [], queue;
    if noWait {
      var i, sum := 0, 0;
      while i < |queue|
        invariant 0 <= i <= |queue| && sum == Need(queue[..i])
      {
        NeedConcat(queue[..i], [queue[i]]);
        assert queue[..i + 1] == queue[..i] + [queue[i]];
        sum := sum + queue[i].data.left;
        i := i + 1;
        if sum >= request {
          break;
        }
      }
      assert queue == queue[..i] + queue[i..];
      NeedConcat(queue[..i], queue[i..]);
      if sum + space < min {
        return false, xfer, rest;
      }
    }
    var sum := 0;
    while rest != []
      invariant queue == xfer + rest && sum == Need(xfer) <= request
      decreases |rest|
    {
      sum := sum + rest[0].data.left;
      if sum > request {
        break;
      }
      NeedConcat(xfer, [rest[0]]);
      xfer, rest := xfer + [rest[0]], rest[1..];
    }
    return true, xfer, rest;
  }

  /** The first loop of a write: fill every reader of the transfer list and ready it. */
  method ServeReaders(xfer: seq<Pended>, data: seq<byte>) returns (written: nat, woken: seq<Pended>)
    requires Need(xfer) <= |data|
    ensures written == Need(xfer)
    ensures woken == Fill(xfer, data[..written])
  {
    written, woken := 0, [];
    for i := 0 to |xfer|
      invariant written == Need(xfer[..i]) && written <= |data| && woken == Fill(xfer[..i], data[..written])
    {
      assert xfer[..i + 1] == xfer[..i] + [xfer[i]];
      assert xfer == xfer[..i + 1] + xfer[i + 1..];
      NeedConcat(xfer[..i], [xfer[i]]);
      NeedConcat(xfer[..i + 1], xfer[i + 1..]);
      var n := Min(xfer[i].data.left, |data| - written);
      FillConcat(xfer[..i], [xfer[i]], data[..written + n], written);
      SliceOfSlice(data, written, written + n);
      FillHead([xfer[i]], data[written..][..n]);
      woken := woken + [Receive(xfer[i], data[written..][..n])];
      written := written + n;
    }
    assert xfer[..|xfer|] == xfer;
  }

  /** What the transfer list and the head of the remaining queue get is the declared service. */
  lemma PutPlan(xfer: seq<Pended>, rest: seq<Pended>, data: seq<byte>)
    requires Positive(xfer + rest) && Need(xfer) <= |data|
    requires rest != [] ==> |data| < Need(xfer) + rest[0].data.left
    ensures var k, give := Need(xfer), Min(|data|, Need(xfer + rest));
            var f := Fill(xfer + rest, data[..give]);
            && give == (if rest == [] then k else |data|)
            && Only(f, Done) == Fill(xfer, data[..k])
            && Only(f, Open) == HeadReceives(rest, data[k..])
  {
    hide Fill, Only;
    var k := Need(xfer);
    NeedConcat(xfer, rest);
    assert forall i | 0 <= i < |rest| :: rest[i] == (xfer + rest)[|xfer| + i];
    if rest == [] {
      assert data[..k][..k] == data[..k];
      FillPrefix(xfer, rest, data[..k]);
    } else {
      assert data[..|data|] == data;
      FillPrefix(xfer, rest, data);
    }
  }

  lemma HeadGivesOk(q: seq<Pended>, n: nat)
    requires q != [] && WritersOk(q) && n <= q[0].data.left
    ensures WritersOk(HeadGives(q, n)) && WritersOk(q[1..])
    ensures Bytes(HeadGives(q, n)) == Rest(q[0])[n..] + Bytes(q[1..])
  {
    assert HeadGives(q, n)[1..] == q[1..];
  }

  lemma SplitConcat(r: seq<byte>, n: nat, b: seq<byte>)
    requires n <= |r|
    ensures r + b == r[..n] + (r[n..] + b)
  {
  }

  /** Taking `n` bytes from the first writer moves the front of the queue's bytes. */
  lemma HeadGivesBytes(q: seq<Pended>, n: nat)
    requires q != [] && WritersOk(q) && n <= q[0].data.left
    ensures var h := HeadGives(q, n);
            && WritersOk(h) && WritersOk(q[1..]) && Bytes(q) == Rest(q[0])[..n] + Bytes(h)
            && (n == q[0].data.left ==> Bytes(h) == Bytes(q[1..]))
  {
    HeadGivesOk(q, n);
    SplitConcat(Rest(q[0]), n, Bytes(q[1..]));
  }

  lemma NoDemand()
    ensures Need([]) == 0 && Bytes([]) == []
  {
  }

  lemma HeadGivesSum(q: seq<Pended>, a: nat, b: nat)
    requires q == [] || a + b <= q[0].data.left
    ensures HeadGives(q, 0) == q && |HeadGives(q, a)| == |q|
    ensures q != [] ==> HeadGives(q, a)[0].data.left == q[0].data.left - a
    ensures HeadGives(HeadGives(q, a), b) == HeadGives(q, a + b)
  {
  }

  lemma HeadGivesEmptied(q: seq<Pended>, n: nat)
    requires q != [] && n <= q[0].data.left
    ensures Emptied(HeadGives(q, n)) == Emptied(q)
    ensures Emptied(q) == [Take(q[0], q[0].data.left)] + Emptied(q[1..])
    ensures HeadGives(q, n)[0] == Take(q[0], n) && HeadGives(q, n)[1..] == q[1..]
  {
    var h := HeadGives(q, n);
    assert h[1..] == q[1..];
    assert Take(h[0], h[0].data.left) == Take(q[0], q[0].data.left);
  }

  /** The first loop of a read: copy from the writers of the transfer list until the request is
      satisfied.  A writer is readied once drained; the one at which the copy stops stays listed. */
  method TakeFromWriters(xfer: seq<Pended>, want: nat, already: seq<byte>)
    returns (bytes: seq<byte>, list: seq<Pended>, woken: seq<Pended>)
    requires WritersOk(xfer)
    ensures WritersOk(list) && bytes + Bytes(list) == already + Bytes(xfer)
    ensures already <= bytes && (|already| <= want ==> |bytes| <= want) && (list != [] ==> want <= |bytes|)
    ensures |already| >= want ==> bytes == already && list == xfer
    ensures woken + Emptied(list) == Emptied(xfer)
  {
    hide Bytes, Emptied, HeadGives;
    bytes, list, woken := already, xfer, [];
    while list != [] && |bytes| < want
      invariant WritersOk(list) && bytes + Bytes(list) == already + Bytes(xfer)
      invariant already <= bytes && (|already| <= want ==> |bytes| <= want)
      invariant |already| >= want ==> bytes == already && list == xfer
      invariant woken + Emptied(list) == Emptied(xfer)
      decreases |list|
    {
      var n := Min(want - |bytes|, list[0].data.left);
      HeadGivesBytes(list, n);
      HeadGivesEmptied(list, n);
      var l := HeadGives(list, n);
      assert bytes + Bytes(list) == bytes + Rest(list[0])[..n] + Bytes(l);
      bytes, list := bytes + Rest(list[0])[..n], l;
      if |bytes| == want {
        break;
      }
      woken := woken + [list[0]];
      list := list[1..];
    }
  }

  lemma StreamKept(front: seq<byte>, ring: seq<byte>, x: seq<byte>, bytes: seq<byte>, l: seq<byte>, r: seq<byte>)
    requires bytes + l == front + x && (ring == [] || (bytes == front && l == x))
    ensures bytes + (ring + (l + r)) == (front + ring) + (x + r)
  {
    if ring == [] {
      assert bytes + (ring + (l + r)) == (bytes + l) + r;
      assert (front + ring) + (x + r) == (front + x) + r;
    } else {
      assert front + (ring + (x + r)) == (front + ring) + (x + r);
    }
  }

  lemma StreamMoved(bytes: seq<byte>, ring: seq<byte>, l: seq<byte>, r: seq<byte>, more: seq<byte>, less: seq<byte>)
    requires more + less == bytes + r && ((ring == [] && l == []) || (more == bytes && less == r))
    ensures more + (ring + (l + less)) == bytes + (ring + (l + r))
  {
    if ring == [] && l == [] {
      assert ring + (l + less) == less && ring + (l + r) == r;
    }
  }

  /** The head of the remaining queue gives what the reader still wants. */
  method TakeFromHead(bytes: seq<byte>, want: nat, rest: seq<Pended>) returns (more: seq<byte>, t: nat)
    requires WritersOk(rest) && |bytes| <= want
    ensures if rest == [] then t == 0 else t == Min(want - |bytes|, rest[0].data.left)
    ensures |more| == |bytes| + t && (t == 0 ==> more == bytes && HeadGives(rest, t) == rest)
    ensures WritersOk(HeadGives(rest, t)) && more + Bytes(HeadGives(rest, t)) == bytes + Bytes(rest)
  {
    hide Bytes, HeadGives;
    more, t := bytes, 0;
    HeadGivesSum(rest, 0, 0);
    if rest != [] && |bytes| < want {
      t := Min(want - |bytes|, rest[0].data.left);
      HeadGivesBytes(rest, t);
      Assoc(bytes, Rest(rest[0])[..t], Bytes(HeadGives(rest, t)));
      more := bytes + Rest(rest[0])[..t];
    }
    assert bytes + [] == bytes;
  }

  /** The declared write, in the terms its implementation computes: `give` bytes go to readers and
      `n` to the buffer. */
  lemma PutAgrees(s: PipeState, c: (Tid, int), data: seq<byte>, min: nat, wait: Wait, async: bool, late: set<Tid>,
                  xfer: seq<Pended>, rest: seq<Pended>, give: nat, n: nat)
    requires |s.ring| <= s.size && Positive(s.readers) && min <= |data| && s.readers == xfer + rest
    requires !(wait.NoWait? && Need(s.readers) + (s.size - |s.ring|) < min)
    requires Need(xfer) <= |data| && (rest != [] ==> |data| < Need(xfer) + rest[0].data.left)
    requires give == (if rest == [] then Need(xfer) else |data|) && n == Min(|data| - give, s.size - |s.ring|)
    ensures var o := PipeSpec.Put(s, c, data, min, wait, async, late);
            var left := HeadReceives(rest, data[Need(xfer)..]);
            && o.next.size == s.size && o.next.ring == s.ring + data[give..][..n]
            && o.next.readers == Only(left, OnTime(late)) && o.lateReaders == Only(left, Late(late))
            && o.lateWriters == Only(s.writers, Late(late))
            && o.woken == Fill(xfer, data[..Need(xfer)])
            && PutEnds(o, c, data, min, wait, async, Only(s.writers, OnTime(late)), give + n)
  {
    hide Fill, Only, Need, Slot, Positive;
    PutPlan(xfer, rest, data);
    assert data[give..][..n] == data[give..give + n];
  }

  /** How a write that moved `moved` bytes ends. */
  ghost predicate PutEnds(o: StepOut, c: (Tid, int), data: seq<byte>, min: nat, wait: Wait, async: bool,
                          writers: seq<Pended>, moved: nat)
    requires moved <= |data|
  {
    if moved < |data| && (async || !wait.NoWait?) then
      && o.next.writers == Enqueue(writers, Waiter(c.0, c.1, Desc(data, |data| - moved, min, async)))
      && o.outcome == (if async then Posted else Blocked)
    else
      && o.next.writers == writers
      && o.outcome == Returned(ReturnCode(min, |data| - moved, |data|), moved)
  }

  lemma PutRefused(s: PipeState, c: (Tid, int), data: seq<byte>, min: nat, wait: Wait, async: bool, late: set<Tid>)
    requires |s.ring| <= s.size && min <= |data|
    requires wait.NoWait? && Need(s.readers) + (s.size - |s.ring|) < min
    ensures PipeSpec.Put(s, c, data, min, wait, async, late) == Unchanged(s, Returned(Eio, 0))
  {
  }

  lemma GetRefused(s: PipeState, c: (Tid, int), want: nat, min: nat, wait: Wait, late: set<Tid>)
    requires Fits(s) && min <= want
    requires wait.NoWait? && Need(s.writers) + |s.ring| < min
    ensures PipeSpec.Get(s, c, want, min, wait, late) == Unchanged(s, Returned(Eio, 0))
  {
  }

  /** If reading leaves `ring` in the buffer and takes `t` bytes from the head of `rest`, this is
      what the declared read leaves and takes. */
  lemma GetCounts(s: PipeState, want: nat, xfer: seq<Pended>, rest: seq<Pended>,
                  bytes: seq<byte>, ring: seq<byte>, t: nat)
    requires Fits(s) && s.writers == xfer + rest
    requires if rest == [] then t == 0 else t < rest[0].data.left && |ring| == s.size
    requires |ring| <= s.size && |bytes| <= want && (|bytes| < want ==> rest == [] && ring == [])
    requires var r := HeadGives(rest, t); WritersOk(r) && bytes + (ring + Bytes(r)) == Stream(s)
    ensures var n := Min(want, |Stream(s)|);
            && n == |bytes| && bytes == Stream(s)[..n]
            && ring == Refilled(s, n) && Supplied(s, n) == Need(xfer) + t
  {
    hide Bytes;
    var r := HeadGives(rest, t);
    var all := Stream(s);
    NeedConcat(xfer, rest);
    HeadGivesNeed(rest, t);
    assert |all| == |bytes| + |ring| + Need(r);
    assert all[..|bytes|] == bytes;
    assert all[|bytes|..|bytes| + |ring|] == ring;
  }

  lemma HeadGivesNeed(q: seq<Pended>, t: nat)
    requires q == [] || t <= q[0].data.left
    ensures Need(HeadGives(q, t)) == Need(q) - (if q == [] then 0 else t)
  {
    if q != [] {
      assert HeadGives(q, t)[1..] == q[1..];
    }
  }

  lemma SplitWriters(a: seq<Pended>, b: seq<Pended>)
    requires WritersOk(a + b)
    ensures WritersOk(a) && WritersOk(b) && Bytes(a + b) == Bytes(a) + Bytes(b)
  {
    assert forall i | 0 <= i < |a| :: a[i] == (a + b)[i];
    assert forall i | 0 <= i < |b| :: b[i] == (a + b)[|a| + i];
    BytesConcat(a, b);
  }

  /** The declared read, in the terms its implementation computes. */
  lemma GetAgrees(s: PipeState, c: (Tid, int), want: nat, min: nat, wait: Wait, late: set<Tid>,
                  xfer: seq<Pended>, rest: seq<Pended>, bytes: seq<byte>, ring: seq<byte>, t: nat)
    requires Shape(s) && min <= want && s.writers == xfer + rest
    requires !(wait.NoWait? && Need(s.writers) + |s.ring| < min)
    requires if rest == [] then t == 0 else t < rest[0].data.left && |ring| == s.size
    requires |ring| <= s.size && |bytes| <= want && (|bytes| < want ==> rest == [] && ring == [])
    requires var r := HeadGives(rest, t); WritersOk(r) && bytes + (ring + Bytes(r)) == Stream(s)
    ensures var o := PipeSpec.Get(s, c, want, min, wait, late);
            var r, readers := HeadGives(rest, t), Only(s.readers, OnTime(late));
            var pends := |bytes| < want && !wait.NoWait?;
            && o.next.size == s.size && o.next.ring == ring && o.delivered == bytes
            && o.next.readers == (if pends then Enqueue(readers, Waiter(c.0, c.1, Desc(bytes, want - |bytes|, min, false)))
                                  else readers)
            && o.lateReaders == Only(s.readers, Late(late))
            && o.next.writers == Only(r, OnTime(late)) && o.lateWriters == Only(r, Late(late))
            && o.woken == Emptied(xfer)
            && o.outcome == (if pends then Blocked
                             else Returned(ReturnCode(min, want - |bytes|, want), |bytes|))
  {
    hide Bytes, Need, Drain, Only, Emptied, HeadGives, Sorted, Enqueue, Refilled, Supplied;
    GetCounts(s, want, xfer, rest, bytes, ring, t);
    assert forall i | 0 <= i < |rest| :: rest[i] == (xfer + rest)[|xfer| + i];
    DrainPrefix(xfer, rest, t);
  }

  class Pipe {
    const size: nat
    const buffer: array<byte>
    var bytesUsed: nat
    var readIndex: nat
    var writeIndex: nat
    var readers: seq<Pended>
    var writers: seq<Pended>

    ghost predicate RingOk()
      reads this
    {
      && buffer.Length == size && bytesUsed <= size
      && (if size == 0 then readIndex == 0 && writeIndex == 0
          else readIndex < size && writeIndex == Wrap(readIndex + bytesUsed, size))
    }

    /** The buffered bytes, oldest first. */
    ghost function Contents(): seq<byte>
      requires RingOk()
      reads this, buffer
    {
      Window(buffer[..], readIndex, bytesUsed)
    }

    ghost function View(): PipeState
      requires RingOk()
      reads this, buffer
    {
      PipeState(size, Contents(), readers, writers)
    }

    /** `k_pipe_init`. */
    constructor (n: nat)
      ensures RingOk() && fresh(buffer) && View() == PipeState(n, [], [], [])
    {
      size := n;
      buffer := new byte[n];
      bytesUsed, readIndex, writeIndex := 0, 0, 0;
      readers, writers := [], [];
    }

    /** One pass of `pipe_buffer_put`: up to the physical end of the buffer. */
    method PutPass(src: seq<byte>) returns (n: nat)
      requires RingOk()
      modifies this`bytesUsed, this`writeIndex, buffer
      ensures RingOk() && n <= |src| && bytesUsed == old(bytesUsed) + n
      ensures Contents() == old(Contents()) + src[..n]
      ensures n == Min(|src|, size - old(bytesUsed)) || (writeIndex == 0 && old(writeIndex) != 0)
    {
      hide Window;
      n := CopyIn(buffer, writeIndex, Min(size - bytesUsed, size - writeIndex), src);
      if size > 0 {
        WindowExtends(old(buffer[..]), buffer[..], readIndex, bytesUsed, src[..n]);
      }
      bytesUsed := bytesUsed + n;
      writeIndex := writeIndex + n;
      if writeIndex == size {
        writeIndex := 0;
      }
    }

    /** `pipe_buffer_put`: two passes always suffice, the second one after a wrap to the start. */
    method BufferPut(src: seq<byte>) returns (written: nat)
      requires RingOk()
      modifies this`bytesUsed, this`writeIndex, buffer
      ensures RingOk() && bytesUsed == old(bytesUsed) + written
      ensures written == Min(|src|, size - old(bytesUsed))
      ensures Contents() == old(Contents()) + src[..written]
    {
      hide Window;
      written := 0;
      for i := 0 to 2
        invariant RingOk() && written <= |src| && bytesUsed == old(bytesUsed) + written
        invariant Contents() == old(Contents()) + src[..written]
        invariant i == 1 ==> written == Min(|src|, size - old(bytesUsed)) || writeIndex == 0
        invariant i == 2 ==> written == Min(|src|, size - old(bytesUsed))
      {
        var n := PutPass(src[written..]);
        assert src[..written + n] == src[..written] + src[written..][..n];
        written := written + n;
      }
    }

    /** One pass of `pipe_buffer_get`. */
    method GetPass(room: nat) returns (bytes: seq<byte>)
      requires RingOk()
      modifies this`bytesUsed, this`readIndex
      ensures RingOk() && |bytes| <= room && old(bytesUsed) == bytesUsed + |bytes|
      ensures old(Contents()) == bytes + Contents()
      ensures |bytes| == Min(room, old(bytesUsed)) || (readIndex == 0 && old(readIndex) != 0)
    {
      hide Window;
      bytes := CopyOut(room, buffer, readIndex, Min(bytesUsed, size - readIndex));
      if size > 0 {
        WindowSplits(buffer[..], readIndex, bytesUsed, |bytes|);
      }
      bytesUsed := bytesUsed - |bytes|;
      readIndex := readIndex + |bytes|;
      if readIndex == size {
        readIndex := 0;
      }
    }

    /** `pipe_buffer_get`: likewise in two passes. */
    method BufferGet(room: nat) returns (bytes: seq<byte>)
      requires RingOk()
      modifies this`bytesUsed, this`readIndex
      ensures RingOk() && old(bytesUsed) == bytesUsed + |bytes|
      ensures |bytes| == Min(room, old(bytesUsed))
      ensures old(Contents()) == bytes + Contents()
    {
      hide Window;
      bytes := [];
      for i := 0 to 2
        invariant RingOk() && |bytes| <= room && old(bytesUsed) == bytesUsed + |bytes|
        invariant old(Contents()) == bytes + Contents()
        invariant i == 1 ==> |bytes| == Min(room, old(bytesUsed)) || readIndex == 0
        invariant i == 2 ==> |bytes| == Min(room, old(bytesUsed))
      {
        var chunk := GetPass(room - |bytes|);
        bytes := bytes + chunk;
      }
    }

    // -------------------------------------------------------------- calls

    /** The second loop of a read: the writers still listed finish into the buffer. */
    method RefillFromWriters(list: seq<Pended>) returns (woken: seq<Pended>)
      requires RingOk() && WritersOk(list) && Need(list) <= size - bytesUsed
      modifies this`bytesUsed, this`writeIndex, buffer
      ensures RingOk() && bytesUsed == old(bytesUsed) + Need(list)
      ensures Contents() == old(Contents()) + Bytes(list)
      ensures woken == Emptied(list)
    {
      hide Window, Wrap;
      woken := [];
      var todo := list;
      while todo != []
        invariant RingOk() && WritersOk(todo) && Need(todo) <= size - bytesUsed
        invariant bytesUsed + Need(todo) == old(bytesUsed) + Need(list)
        invariant Contents() + Bytes(todo) == old(Contents()) + Bytes(list)
        invariant woken + Emptied(todo) == Emptied(list)
        decreases |todo|
      {
        var n := BufferPut(Rest(todo[0]));
        assert Rest(todo[0])[..n] == Rest(todo[0]);
        woken := woken + [Take(todo[0], n)];
        todo := todo[1..];
      }
    }

    /** `_k_pipe_put_internal`.  `late` are the threads whose timeout fires while data is copied with
        interrupts enabled: they leave the wait queues, but a descriptor in use stays in use. */
    method Put(tid: Tid, prio: int, data: seq<byte>, min: nat, wait: Wait, async: bool, late: set<Tid>)
      returns (outcome: Outcome, woken: seq<Pended>, lateReaders: seq<Pended>, lateWriters: seq<Pended>)
      requires RingOk() && Shape(View()) && min <= |data|
      modifies this, buffer
      ensures RingOk()
      ensures var o := PipeSpec.Put(old(View()), (tid, prio), data, min, wait, async, late);
              && View() == o.next && outcome == o.outcome && woken == o.woken
              && lateReaders == o.lateReaders && lateWriters == o.lateWriters
    {
      hide Window, Wrap, Sorted, Positive, WritersOk, Sides, Fill, Only, Need, Enqueue, PipeSpec.Put;
      ghost var s := View();
      var ok, xfer, rest := XferPrepare(readers, size - bytesUsed, |data|, min, wait.NoWait?);
      if !ok {
        PutRefused(s, (tid, prio), data, min, wait, async, late);
        return Returned(Eio, 0), [], [], [];
      }
      ghost var give := if rest == [] then Need(xfer) else |data|;
      PutAgrees(s, (tid, prio), data, min, wait, async, late, xfer, rest, give, Min(|data| - give, size - bytesUsed));
      var written;
      written, woken := ServeReaders(xfer, data);
      if rest != [] {
        var m := Min(rest[0].data.left, |data| - written);
        assert data[written..][..m] == data[written..];
        rest := HeadReceives(rest, data[written..][..m]);
        written := written + m;
      }
      readers, lateReaders := Only(rest, OnTime(late)), Only(rest, Late(late));
      writers, lateWriters := Only(writers, OnTime(late)), Only(writers, Late(late));

      var n := BufferPut(data[written..]);
      written := written + n;

      if written == |data| {
        return Returned(Ok, written), woken, lateReaders, lateWriters;
      }
      var desc := Desc(data, |data| - written, min, async);
      if async || !wait.NoWait? {
        writers := WaitQueue.Add(writers, Waiter(tid, prio, desc));
        outcome := if async then Posted else Blocked;
      } else {
        outcome := Returned(ReturnCode(min, desc.left, |data|), |data| - desc.left);
      }
    }

    /** The copying part of a read: from the buffer, then from the transfer list, then from the head
        of the remaining queue.  `list` are the writers not drained yet, and `t` bytes are taken
        from the head of `rest`. */
    method ReadOut(want: nat, xfer: seq<Pended>, rest: seq<Pended>)
      returns (bytes: seq<byte>, list: seq<Pended>, woken: seq<Pended>, t: nat)
      requires RingOk() && WritersOk(xfer) && WritersOk(rest) && Need(xfer) <= want
      requires rest != [] ==> want < Need(xfer) + rest[0].data.left
      modifies this`bytesUsed, this`readIndex
      ensures RingOk() && WritersOk(list) && woken + Emptied(list) == Emptied(xfer)
      ensures Need(list) <= size - bytesUsed
      ensures |bytes| == (if rest == [] then Min(want, old(bytesUsed) + Need(xfer)) else want)
      ensures if rest == [] then t == 0 else t <= rest[0].data.left
      ensures bytesUsed + Need(list) + want == old(bytesUsed) + Need(xfer) + t || rest == []
      ensures var r := HeadGives(rest, t);
              && WritersOk(r)
              && bytes + (Contents() + (Bytes(list) + Bytes(r))) == old(Contents()) + (Bytes(xfer) + Bytes(rest))
    {
      NoDemand();
      hide Window, Wrap, Bytes, Emptied, HeadGives, Need, WritersOk;
      var front := BufferGet(want);
      var some;
      some, list, woken := TakeFromWriters(xfer, want, front);
      StreamKept(front, Contents(), Bytes(xfer), some, Bytes(list), Bytes(rest));
      bytes, t := TakeFromHead(some, want, rest);
      StreamMoved(some, Contents(), Bytes(list), Bytes(rest), bytes, Bytes(HeadGives(rest, t)));
    }

    /** The refilling part of a read: `n` bytes come from the head of `r`. */
    method Refill(list: seq<Pended>, r: seq<Pended>) returns (woken: seq<Pended>, n: nat)
      requires RingOk() && WritersOk(list) && WritersOk(r) && Need(list) <= size - bytesUsed
      modifies this`bytesUsed, this`writeIndex, buffer
      ensures RingOk() && woken == Emptied(list)
      ensures n == if r == [] then 0 else Min(r[0].data.left, size - old(bytesUsed) - Need(list))
      ensures bytesUsed == old(bytesUsed) + Need(list) + n
      ensures WritersOk(HeadGives(r, n))
      ensures Contents() + Bytes(HeadGives(r, n)) == old(Contents()) + (Bytes(list) + Bytes(r))
    {
      hide Window, Wrap, Bytes, Emptied, HeadGives;
      woken := RefillFromWriters(list);
      n := 0;
      HeadGivesSum(r, 0, 0);
      if r != [] {
        n := BufferPut(Rest(r[0]));
        HeadGivesBytes(r, n);
      }
    }

    /** Both parts of a read together; `t` bytes in all are taken from the head of `rest`. */
    method Transfer(want: nat, xfer: seq<Pended>, rest: seq<Pended>)
      returns (bytes: seq<byte>, woken: seq<Pended>, t: nat)
      requires RingOk() && WritersOk(xfer) && WritersOk(rest) && Need(xfer) <= want
      requires rest != [] ==> want < Need(xfer) + rest[0].data.left && bytesUsed == size
      modifies this`bytesUsed, this`readIndex, this`writeIndex, buffer
      ensures RingOk() && woken == Emptied(xfer)
      ensures |bytes| <= want && (|bytes| < want ==> rest == [] && bytesUsed == 0)
      ensures if rest == [] then t == 0 else t < rest[0].data.left && bytesUsed == size
      ensures var r := HeadGives(rest, t);
              WritersOk(r) && bytes + (Contents() + Bytes(r)) == old(Contents()) + (Bytes(xfer) + Bytes(rest))
    {
      NoDemand();
      hide Window, Wrap, Bytes, Emptied, HeadGives, Need, WritersOk;
      var list, more, n;
      bytes, list, woken, t := ReadOut(want, xfer, rest);
      HeadGivesSum(rest, t, 0);
      more, n := Refill(list, HeadGives(rest, t));
      HeadGivesSum(rest, t, n);
      woken := woken + more;
      t := t + n;
    }

    /** `_impl_k_pipe_get`. */
    method Get(tid: Tid, prio: int, want: nat, min: nat, wait: Wait, late: set<Tid>)
      returns (outcome: Outcome, bytes: seq<byte>,
               woken: seq<Pended>, lateReaders: seq<Pended>, lateWriters: seq<Pended>)
      requires RingOk() && Shape(View()) && min <= want
      modifies this, buffer
      ensures RingOk()
      ensures var o := PipeSpec.Get(old(View()), (tid, prio), want, min, wait, late);
              && View() == o.next && outcome == o.outcome && bytes == o.delivered && woken == o.woken
              && lateReaders == o.lateReaders && lateWriters == o.lateWriters
    {
      hide Window, Wrap, Sorted, Positive, Bytes, Drain, Only, Emptied, Need, Enqueue, HeadGives, PipeSpec.Get;
      ghost var s := View();
      var ok, xfer, rest := XferPrepare(writers, bytesUsed, want, min, wait.NoWait?);
      if !ok {
        GetRefused(s, (tid, prio), want, min, wait, late);
        return Returned(Eio, 0), [], [], [], [];
      }
      assert |s.ring| == bytesUsed;
      SplitWriters(xfer, rest);
      var t;
      bytes, woken, t := Transfer(want, xfer, rest);
      GetAgrees(s, (tid, prio), want, min, wait, late, xfer, rest, bytes, Contents(), t);
      rest := HeadGives(rest, t);

      readers, lateReaders := Only(readers, OnTime(late)), Only(readers, Late(late));
      writers, lateWriters := Only(rest, OnTime(late)), Only(rest, Late(late));

      if |bytes| == want {
        return Returned(Ok, |bytes|), bytes, woken, lateReaders, lateWriters;
      }
      var desc := Desc(bytes, want - |bytes|, min, false);
      if !wait.NoWait? {
        readers := WaitQueue.Add(readers, Waiter(tid, prio, desc));
        outcome := Blocked;
      } else {
        outcome := Returned(ReturnCode(min, desc.left, want), want - desc.left);
      }
    }
  }
}
