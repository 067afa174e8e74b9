/** The algebra of serving queues of pipe descriptors. */
module PipeQueues {
  import opened Basics
  import opened WaitQueue
  import opened PipeSpec

  /** Every waiter still has at least one byte to move. */
  ghost predicate Positive(q: seq<Pended>) {
    forall i | 0 <= i < |q| :: q[i].data.left >= 1
  }

  /** Bytes the readers of the queue hold already. */
  ghost function Got(q: seq<Pended>): nat {
    if q == [] then 0 else |q[0].data.buffer| + Got(q[1..])
  }

  /** Bytes already taken from the writers of the queue. */
  ghost function Given(q: seq<Pended>): nat
    requires WritersOk(q)
  {
    if q == [] then 0 else |q[0].data.buffer| - q[0].data.left + Given(q[1..])
  }

  /** What each reader received between `before` and `after`, in queue order. */
  ghost function Gained(before: seq<Pended>, after: seq<Pended>): seq<byte>
    requires |before| == |after|
    requires forall i | 0 <= i < |before| :: before[i].data.buffer <= after[i].data.buffer
  {
    if before == [] then []
    else after[0].data.buffer[|before[0].data.buffer|..] + Gained(before[1..], after[1..])
  }

  /** The queue with every request completed. */
  function Emptied(q: seq<Pended>): (r: seq<Pended>)
    ensures |r| == |q|
  {
    if q == [] then [] else [Take(q[0], q[0].data.left)] + Emptied(q[1..])
  }

  // ---------------------------------------------------------------- concatenation

  lemma {:induction false} NeedConcat(a: seq<Pended>, b: seq<Pended>)
    ensures Need(a + b) == Need(a) + Need(b)
  {
    if a == [] {
      assert a + b == b;
    } else {
      NeedConcat(a[1..], b);
      assert (a + b)[1..] == a[1..] + b;
    }
  }

  lemma {:induction false} BytesConcat(a: seq<Pended>, b: seq<Pended>)
    requires WritersOk(a) && WritersOk(b)
    ensures WritersOk(a + b) && Bytes(a + b) == Bytes(a) + Bytes(b)
  {
    if a == [] {
      assert a + b == b;
    } else {
      BytesConcat(a[1..], b);
      assert (a + b)[1..] == a[1..] + b;
      hide Rest;
      Assoc(Rest(a[0]), Bytes(a[1..]), Bytes(b));
    }
  }

  lemma SliceOfSlice(d: seq<byte>, k: nat, n: nat)
    requires k <= n <= |d|
    ensures d[k..][..n - k] == d[..n][k..] == d[k..n] && d[k..][n - k..] == d[n..] && d[..n][..k] == d[..k]
  {
  }

  lemma FillStep(q: seq<Pended>, d: seq<byte>, k: nat)
    requires q != [] && k == Min(q[0].data.left, |d|)
    ensures Fill(q, d) == [Receive(q[0], d[..k])] + Fill(q[1..], d[k..])
  {
  }

  lemma {:induction false} FillConcat(a: seq<Pended>, b: seq<Pended>, d: seq<byte>, n: nat)
    requires n == Min(Need(a), |d|)
    ensures Fill(a + b, d) == Fill(a, d[..n]) + Fill(b, d[n..])
  {
    if a == [] {
      assert a + b == b && d[0..] == d;
    } else {
      hide Fill;
      var k := Min(a[0].data.left, |d|);
      assert (a + b)[1..] == a[1..] + b;
      FillStep(a + b, d, k);
      FillStep(a, d[..n], k);
      SliceOfSlice(d, k, n);
      FillConcat(a[1..], b, d[k..], n - k);
      hide Need;
      Assoc([Receive(a[0], d[..k])], Fill(a[1..], d[k..n]), Fill(b, d[n..]));
    }
  }

  lemma {:induction false} DrainConcat(a: seq<Pended>, b: seq<Pended>, n: nat)
    ensures Drain(a + b, n) == Drain(a, Min(Need(a), n)) + Drain(b, n - Min(Need(a), n))
  {
    if a == [] {
      assert a + b == b;
    } else {
      assert (a + b)[1..] == a[1..] + b;
      DrainConcat(a[1..], b, n - Min(a[0].data.left, n));
    }
  }

  lemma {:induction false} FillNothing(q: seq<Pended>)
    ensures Fill(q, []) == q
  {
    if q != [] {
      FillNothing(q[1..]);
      assert q[0].data.buffer + [] == q[0].data.buffer;
    }
  }

  lemma {:induction false} DrainNothing(q: seq<Pended>)
    ensures Drain(q, 0) == q
  {
    if q != [] {
      DrainNothing(q[1..]);
    }
  }

  lemma {:induction false} DrainAll(q: seq<Pended>)
    ensures Drain(q, Need(q)) == Emptied(q)
  {
    if q != [] {
      DrainAll(q[1..]);
    }
  }

  // ---------------------------------------------------------------- what serving achieves

  /** Serving readers hands over exactly the given bytes, in queue order and nowhere else. */
  lemma {:induction false} FillDelivers(q: seq<Pended>, d: seq<byte>)
    requires |d| <= Need(q)
    ensures FillExtends(q, d)
    ensures Gained(q, Fill(q, d)) == d
    ensures Need(Fill(q, d)) == Need(q) - |d|
    ensures Got(Fill(q, d)) == Got(q) + |d|
  {
    FillGrows(q, d);
    FillCounts(q, d);
    if q != [] {
      var n := Min(q[0].data.left, |d|);
      FillDelivers(q[1..], d[n..]);
      var f := Fill(q, d);
      assert f[1..] == Fill(q[1..], d[n..]);
      assert d == d[..n] + d[n..];
      assert f[0].data.buffer[|q[0].data.buffer|..] == d[..n];
      hide Fill, Need, Got;
    }
  }

  lemma {:induction false} FillCounts(q: seq<Pended>, d: seq<byte>)
    requires |d| <= Need(q)
    ensures Need(Fill(q, d)) == Need(q) - |d|
    ensures Got(Fill(q, d)) == Got(q) + |d|
  {
    if q != [] {
      var n := Min(q[0].data.left, |d|);
      FillCounts(q[1..], d[n..]);
      assert Fill(q, d)[1..] == Fill(q[1..], d[n..]);
    }
  }

  /** Serving changes nobody's identity and only appends to what a reader holds. */
  ghost predicate FillExtends(q: seq<Pended>, d: seq<byte>) {
    var f := Fill(q, d);
    forall i | 0 <= i < |q| ::
      f[i].tid == q[i].tid && f[i].prio == q[i].prio && q[i].data.buffer <= f[i].data.buffer
  }

  lemma {:induction false} FillGrows(q: seq<Pended>, d: seq<byte>)
    ensures FillExtends(q, d)
  {
    if q != [] {
      var n := Min(q[0].data.left, |d|);
      FillGrows(q[1..], d[n..]);
      var f := Fill(q, d);
      forall i | 0 <= i < |q|
        ensures f[i].tid == q[i].tid && f[i].prio == q[i].prio && q[i].data.buffer <= f[i].data.buffer
      {
        if i > 0 {
          assert f[i] == Fill(q[1..], d[n..])[i - 1] && q[i] == q[1..][i - 1];
        }
      }
    }
  }

  ghost predicate DrainKeeps(q: seq<Pended>, n: nat) {
    var d := Drain(q, n);
    forall i | 0 <= i < |q| ::
      && d[i].tid == q[i].tid && d[i].prio == q[i].prio
      && d[i].data.buffer == q[i].data.buffer && d[i].data.left <= q[i].data.left
  }

  lemma {:induction false} DrainKept(q: seq<Pended>, n: nat)
    ensures DrainKeeps(q, n)
  {
    if q != [] {
      var k := Min(q[0].data.left, n);
      DrainKept(q[1..], n - k);
      var d := Drain(q, n);
      forall i | 0 <= i < |q|
        ensures d[i].tid == q[i].tid && d[i].prio == q[i].prio
        ensures d[i].data.buffer == q[i].data.buffer && d[i].data.left <= q[i].data.left
      {
        if i > 0 {
          assert d[i] == Drain(q[1..], n - k)[i - 1] && q[i] == q[1..][i - 1];
        }
      }
    }
  }

  /** Draining writers takes exactly the front of their bytes. */
  lemma {:induction false} DrainTakes(q: seq<Pended>, n: nat)
    requires WritersOk(q) && n <= Need(q)
    ensures WritersOk(Drain(q, n)) && Bytes(Drain(q, n)) == Bytes(q)[n..]
  {
    DrainKept(q, n);
    if q != [] {
      var k := Min(q[0].data.left, n);
      DrainTakes(q[1..], n - k);
      DrainStep(q, n, k);
    }
  }

  lemma DrainStep(q: seq<Pended>, n: nat, k: nat)
    requires q != [] && WritersOk(q) && k == Min(q[0].data.left, n) && n <= Need(q)
    requires WritersOk(Drain(q, n)) && WritersOk(Drain(q[1..], n - k))
    requires Bytes(Drain(q[1..], n - k)) == Bytes(q[1..])[n - k..]
    ensures Bytes(Drain(q, n)) == Bytes(q)[n..]
  {
    var d := Drain(q, n);
    assert d[0] == Take(q[0], k) && d[1..] == Drain(q[1..], n - k);
    assert Rest(d[0]) == Rest(q[0])[k..];
    DropConcat(Rest(q[0]), Bytes(q[1..]), k, n);
  }

  lemma DropConcat(a: seq<byte>, b: seq<byte>, k: nat, n: nat)
    requires k == Min(|a|, n) && n <= |a| + |b|
    ensures (a + b)[n..] == a[k..] + b[n - k..]
  {
  }

  lemma {:induction false} DrainGives(q: seq<Pended>, n: nat)
    requires WritersOk(q) && n <= Need(q)
    ensures WritersOk(Drain(q, n)) && Given(Drain(q, n)) == Given(q) + n
  {
    DrainKept(q, n);
    if q != [] {
      var k := Min(q[0].data.left, n);
      DrainGives(q[1..], n - k);
      assert Drain(q, n)[1..] == Drain(q[1..], n - k);
    }
  }

  // ---------------------------------------------------------------- picking waiters

  lemma {:induction false} OnlyPicks(q: seq<Pended>, c: Choice)
    ensures forall i | 0 <= i < |Only(q, c)| :: Only(q, c)[i] in q && Picks(c, Only(q, c)[i])
    ensures Positive(q) ==> Positive(Only(q, c))
    ensures WritersOk(q) ==> WritersOk(Only(q, c))
  {
    if q != [] {
      OnlyPicks(q[1..], c);
      assert forall w | w in q[1..] :: w in q;
    }
  }

  lemma {:induction false} OnlySorted(q: seq<Pended>, c: Choice)
    requires Sorted(q)
    ensures Sorted(Only(q, c))
  {
    if q != [] {
      OnlySorted(q[1..], c);
      OnlyPicks(q[1..], c);
    }
  }

  /** Dropping completed waiters loses no demand and no bytes. */
  lemma {:induction false} OpenKeeps(q: seq<Pended>)
    ensures Need(Only(q, Open)) == Need(q)
    ensures WritersOk(q) ==> WritersOk(Only(q, Open)) && Bytes(Only(q, Open)) == Bytes(q)
  {
    OnlyPicks(q, Open);
    if q != [] {
      OpenKeeps(q[1..]);
      if Picks(Open, q[0]) {
        assert Only(q, Open)[1..] == Only(q[1..], Open);
      }
    }
  }

  ghost predicate Opposite(c: Choice, d: Choice) {
    (c.Done? && d.Open?) || (c.Late? && d.OnTime? && c.late == d.late)
  }

  /** Splitting a queue by completion, or by expiry, conserves the bytes already moved. */
  lemma {:induction false} SplitGot(q: seq<Pended>, c: Choice, d: Choice)
    requires Opposite(c, d)
    ensures Got(Only(q, c)) + Got(Only(q, d)) == Got(q)
  {
    if q != [] {
      SplitGot(q[1..], c, d);
      assert [q[0]] + Only(q[1..], c) != [] && ([q[0]] + Only(q[1..], c))[1..] == Only(q[1..], c);
      assert [q[0]] + Only(q[1..], d) != [] && ([q[0]] + Only(q[1..], d))[1..] == Only(q[1..], d);
    }
  }

  lemma {:induction false} SplitGiven(q: seq<Pended>, c: Choice, d: Choice)
    requires Opposite(c, d) && WritersOk(q)
    ensures WritersOk(Only(q, c)) && WritersOk(Only(q, d))
    ensures Given(Only(q, c)) + Given(Only(q, d)) == Given(q)
  {
    OnlyPicks(q, c);
    OnlyPicks(q, d);
    if q != [] {
      SplitGiven(q[1..], c, d);
      assert ([q[0]] + Only(q[1..], c))[1..] == Only(q[1..], c);
      assert ([q[0]] + Only(q[1..], d))[1..] == Only(q[1..], d);
    }
  }

  lemma {:induction false} EnqueueGot(q: seq<Pended>, w: Pended)
    ensures Got(Enqueue(q, w)) == Got(q) + |w.data.buffer|
    ensures Positive(q) && w.data.left >= 1 ==> Positive(Enqueue(q, w))
  {
    EnqueueStep(q, w);
    hide Enqueue;
    if q != [] && q[0].prio <= w.prio {
      EnqueueGot(q[1..], w);
      assert ([q[0]] + Enqueue(q[1..], w))[1..] == Enqueue(q[1..], w);
    } else {
      assert ([w] + q)[1..] == q;
    }
  }

  lemma {:induction false} EnqueueGiven(q: seq<Pended>, w: Pended)
    requires WritersOk(q) && w.data.left <= |w.data.buffer|
    ensures WritersOk(Enqueue(q, w))
    ensures Given(Enqueue(q, w)) == Given(q) + |w.data.buffer| - w.data.left
  {
    EnqueueStep(q, w);
    hide Enqueue;
    if q != [] && q[0].prio <= w.prio {
      EnqueueGiven(q[1..], w);
      assert ([q[0]] + Enqueue(q[1..], w))[1..] == Enqueue(q[1..], w);
    } else {
      assert ([w] + q)[1..] == q;
    }
  }

  // ---------------------------------------------------------------- complete and partial service

  lemma {:induction false} OnlyConcat(a: seq<Pended>, b: seq<Pended>, c: Choice)
    ensures Only(a + b, c) == Only(a, c) + Only(b, c)
  {
    if a == [] {
      assert a + b == b;
    } else {
      OnlyConcat(a[1..], b, c);
      assert (a + b)[1..] == a[1..] + b;
    }
  }

  lemma {:induction false} AllOpen(q: seq<Pended>)
    requires Positive(q)
    ensures Only(q, Open) == q && Only(q, Done) == []
  {
    if q != [] {
      AllOpen(q[1..]);
    }
  }

  lemma {:induction false} AllDone(q: seq<Pended>)
    requires Need(q) == 0
    ensures Only(q, Done) == q && Only(q, Open) == []
  {
    if q != [] {
      AllDone(q[1..]);
    }
  }

  lemma {:induction false} EmptiedNeed(q: seq<Pended>)
    ensures Need(Emptied(q)) == 0
  {
    if q != [] {
      EmptiedNeed(q[1..]);
      assert Emptied(q)[1..] == Emptied(q[1..]);
    }
  }

  /** The head of a queue served in part, the others untouched. */
  function HeadReceives(q: seq<Pended>, d: seq<byte>): seq<Pended>
    requires q != [] ==> |d| <= q[0].data.left
  {
    if q == [] then [] else [Receive(q[0], d)] + q[1..]
  }

  function HeadGives(q: seq<Pended>, n: nat): seq<Pended>
    requires q != [] ==> n <= q[0].data.left
  {
    if q == [] then [] else [Take(q[0], n)] + q[1..]
  }

  lemma FillHead(q: seq<Pended>, d: seq<byte>)
    requires q == [] || |d| <= q[0].data.left
    ensures Fill(q, d) == HeadReceives(q, d)
  {
    if q != [] {
      FillNothing(q[1..]);
      assert d[..|d|] == d && d[|d|..] == [];
    }
  }

  /** Bytes that complete `served` and leave the head of `rest` unsatisfied. */
  lemma FillPrefix(served: seq<Pended>, rest: seq<Pended>, d: seq<byte>)
    requires Positive(rest) && Need(served) <= |d|
    requires if rest == [] then |d| == Need(served) else |d| < Need(served) + rest[0].data.left
    ensures var f, k := Fill(served + rest, d), Need(served);
            Only(f, Done) == Fill(served, d[..k]) && Only(f, Open) == HeadReceives(rest, d[k..])
  {
    hide Fill, Only, Need, Positive;
    var k := Need(served);
    FillConcat(served, rest, d, k);
    FillCompletes(served, d[..k]);
    FillHead(rest, d[k..]);
    HeadOpen(rest, d[k..]);
    hide HeadReceives;
    DoneThenOpen(Fill(served, d[..k]), HeadReceives(rest, d[k..]));
  }

  lemma FillCompletes(q: seq<Pended>, d: seq<byte>)
    requires |d| == Need(q)
    ensures Need(Fill(q, d)) == 0
  {
    FillDelivers(q, d);
  }

  lemma HeadOpen(q: seq<Pended>, d: seq<byte>)
    requires Positive(q) && (q != [] ==> |d| < q[0].data.left)
    ensures Positive(HeadReceives(q, d))
  {
  }

  lemma HeadStillOpen(q: seq<Pended>, n: nat)
    requires Positive(q) && (q != [] ==> n < q[0].data.left)
    ensures Positive(HeadGives(q, n))
  {
  }

  /** Completed requests in front of open ones. */
  lemma DoneThenOpen(a: seq<Pended>, b: seq<Pended>)
    requires Need(a) == 0 && Positive(b)
    ensures Only(a + b, Done) == a && Only(a + b, Open) == b
  {
    hide Only, Need, Positive;
    AllDone(a);
    AllOpen(b);
    OnlyConcat(a, b, Done);
    OnlyConcat(a, b, Open);
  }

  lemma DrainHead(q: seq<Pended>, n: nat)
    requires if q == [] then n == 0 else n <= q[0].data.left
    ensures Drain(q, n) == HeadGives(q, n)
  {
    if q != [] {
      DrainNothing(q[1..]);
    }
  }

  /** Likewise for writers. */
  lemma DrainPrefix(served: seq<Pended>, rest: seq<Pended>, n: nat)
    requires Positive(rest)
    requires if rest == [] then n == 0 else n < rest[0].data.left
    ensures var d := Drain(served + rest, Need(served) + n);
            Only(d, Done) == Emptied(served) && Only(d, Open) == HeadGives(rest, n)
  {
    hide Drain, Only, Need, Emptied, Positive;
    DrainConcat(served, rest, Need(served) + n);
    DrainAll(served);
    EmptiedNeed(served);
    DrainHead(rest, n);
    HeadStillOpen(rest, n);
    hide HeadGives;
    DoneThenOpen(Emptied(served), HeadGives(rest, n));
  }
}
