/** What each slab call answers and changes, and whom a block is promised to over whole runs. */
module SlabEffects {
  import opened WaitQueue
  import opened Slab

  // ------------------------------------------------------------ each call

  /** An allocation succeeds exactly if some block is not held, with a block that nobody held and that
      the caller holds from then on, the one at the front of the list; it is refused exactly if none
      is free and it may not wait; else the caller queues behind everyone at least as urgent.  Nobody
      else's holding changes. */
  lemma AllocAnswer(s: State, tid: Tid, prio: int, wait: Wait)
    requires Sound(s)
    ensures var (r, o) := Alloc(s, tid, prio, wait);
            && r.n == s.n
            && (o.Got? <==> |s.held| < s.n)
            && (o.Got? ==> o.block < s.n && o.block !in s.held && r.held == s.held[o.block := tid]
                           && s.free == [o.block] + r.free && r.waiters == s.waiters)
            && (o.Enomem? <==> |s.held| == s.n && wait.NoWait?)
            && (o.Enomem? ==> r == s)
            && (o.Blocked? <==> |s.held| == s.n && wait.MayWait?)
            && (o.Blocked? ==>
                  r.held == s.held && r.free == s.free && Joins(s.waiters, Waiter(tid, prio, ()), r.waiters))
  {
    EnqueueJoins(s.waiters, Waiter(tid, prio, ()));
    hide Enqueue, Joins, Sorted;
    if s.free != [] {
      assert s.free[0] in s.free;
    }
  }

  /** A freed block goes to the first waiter, and to the front of the list if nobody waits. */
  lemma FreeEffect(s: State, block: nat)
    requires Sound(s) && block in s.held
    ensures var (r, woken) := Free(s, block);
            && r.n == s.n
            && (s.waiters != [] ==>
                  && woken == [s.waiters[0].tid] && r.held == s.held[block := s.waiters[0].tid]
                  && r.free == s.free && s.waiters == [s.waiters[0]] + r.waiters)
            && (s.waiters == [] ==>
                  && woken == [] && r.held == s.held - {block} && r.free == [block] + s.free && r.waiters == [])
  {
  }

  lemma ExpireEffect(s: State, tid: Tid)
    ensures var r := Expire(s, tid);
            && r.n == s.n && r.held == s.held && r.free == s.free
            && Chosen(s.waiters, (w: Waiter<()>) => w.tid != tid, r.waiters)
  {
    WithoutChosen(s.waiters, tid);
  }

  // ----------------------------------------------------------- whole runs

  /** Step `e` tells some thread that block `b` is its own. */
  ghost predicate Tells(s: State, e: Event, b: nat) {
    match e
    case AllocEv(tid, prio, wait) => Alloc(s, tid, prio, wait).1 == Got(b)
    case FreeEv(c) => c == b && Free(s, c).1 != []
    case ExpireEv(_) => false
  }

  /** What a thread has been told is its own stays so until it is freed. */
  lemma {:induction false} StaysHeld(s: State, es: seq<Event>, b: nat)
    requires Sound(s) && LegalRun(s, es) && b in s.held && FreeEv(b) !in es
    ensures b in Run(s, es).held && Run(s, es).held[b] == s.held[b] && Sound(Run(s, es))
    decreases |es|
  {
    if es != [] {
      NextSound(s, es[0]);
      hide Sound, Enqueue;
      assert es[0] in es && FreeEv(b) !in es[1..];
      KeepsHolder(s, es[0], b);
      StaysHeld(Next(s, es[0]), es[1..], b);
    }
  }

  lemma KeepsHolder(s: State, e: Event, b: nat)
    requires Sound(s) && Legal(s, e) && b in s.held && e != FreeEv(b)
    ensures b in Next(s, e).held && Next(s, e).held[b] == s.held[b]
  {
    match e
    case AllocEv(tid, prio, wait) => AllocAnswer(s, tid, prio, wait);
    case FreeEv(c) => FreeEffect(s, c);
    case ExpireEv(tid) => ExpireEffect(s, tid);
  }

  lemma TellsHeld(s: State, e: Event, b: nat)
    requires Sound(s) && Legal(s, e) && Tells(s, e, b)
    ensures b in Next(s, e).held && (e.AllocEv? ==> b !in s.held && Next(s, e).held[b] == e.tid)
  {
    match e
    case AllocEv(tid, prio, wait) => AllocAnswer(s, tid, prio, wait);
    case FreeEv(c) => FreeEffect(s, c);
    case ExpireEv(tid) =>
  }

  lemma {:induction false} RunConcat(s: State, a: seq<Event>, b: seq<Event>)
    requires LegalRun(s, a + b)
    ensures LegalRun(s, a) && LegalRun(Run(s, a), b) && Run(s, a + b) == Run(Run(s, a), b)
    decreases |a|
  {
    hide Next, Legal;
    if a == [] {
      assert a + b == b;
    } else {
      assert (a + b)[1..] == a[1..] + b;
      RunConcat(Next(s, a[0]), a[1..], b);
    }
  }

  /** No block is ever promised to two threads: between two steps that each tell a thread that the
      block is its own, or in the second, the block was freed. */
  lemma PromisedOnce(n: nat, es: seq<Event>, i: nat, j: nat, b: nat)
    requires LegalRun(Fresh(n), es) && i < j < |es|
    requires Tells(Run(Fresh(n), es[..i]), es[i], b) && Tells(Run(Fresh(n), es[..j]), es[j], b)
    ensures exists k :: i < k <= j && es[k] == FreeEv(b)
  {
    hide Tells, Sound;
    var s := Reaches(n, es, i);
    TellsHeld(s, es[i], b);
    NextSound(s, es[i]);
    var between := es[i + 1..j];
    var last := Reaches(n, es, j);
    Onward(n, es, i, j);
    if FreeEv(b) in between {
      var m :| 0 <= m < |between| && between[m] == FreeEv(b);
      assert es[i + 1 + m] == FreeEv(b);
    } else if es[j] != FreeEv(b) {
      StaysHeld(Next(s, es[i]), between, b);
      TellsHeld(last, es[j], b);
      NotByFree(last, es[j], b);
    }
  }

  lemma NotByFree(s: State, e: Event, b: nat)
    requires Tells(s, e, b) && e != FreeEv(b)
    ensures e.AllocEv?
  {
  }

  lemma Reaches(n: nat, es: seq<Event>, i: nat) returns (s: State)
    requires LegalRun(Fresh(n), es) && i < |es|
    ensures s == Run(Fresh(n), es[..i]) && Sound(s) && Legal(s, es[i])
  {
    s := Run(Fresh(n), es[..i]);
    assert es == es[..i] + es[i..];
    RunConcat(Fresh(n), es[..i], es[i..]);
    SlabSafety(n, es[..i]);
  }

  lemma Onward(n: nat, es: seq<Event>, i: nat, j: nat)
    requires LegalRun(Fresh(n), es) && i < j < |es|
    ensures var s := Run(Fresh(n), es[..i]);
            LegalRun(Next(s, es[i]), es[i + 1..j]) && Run(Fresh(n), es[..j]) == Run(Next(s, es[i]), es[i + 1..j])
  {
    hide Next, Legal;
    assert es == es[..j] + es[j..] && es[..j] == es[..i] + es[i..j];
    RunConcat(Fresh(n), es[..j], es[j..]);
    RunConcat(Fresh(n), es[..i], es[i..j]);
    assert es[i..j][0] == es[i] && es[i..j][1..] == es[i + 1..j];
  }
}
