/** `struct k_mem_slab`: equal blocks of one buffer, the free ones linked through their own first
    word, and a queue of threads waiting for a block. */
module Slab {
  import opened WaitQueue

  datatype Wait = NoWait | MayWait

  datatype Outcome = Got(block: nat) | Enomem | Blocked

  /** Blocks by number: the free ones in list order, and who holds each of the others. */
  datatype State = State(n: nat, free: seq<nat>, held: map<nat, Tid>, waiters: seq<Waiter<()>>)

  function Alloc(s: State, tid: Tid, prio: int, wait: Wait): (State, Outcome) {
    if s.free != [] then
      (s.(free := s.free[1..], held := s.held[s.free[0] := tid]), Got(s.free[0]))
    else if wait.NoWait? then (s, Enomem)
    else (s.(waiters := Enqueue(s.waiters, Waiter(tid, prio, ()))), Blocked)
  }

  /** A freed block goes straight to the first waiter, if any; the waiter is the second result. */
  function Free(s: State, block: nat): (State, seq<Tid>) {
    if s.waiters != [] then
      (s.(held := s.held[block := s.waiters[0].tid], waiters := s.waiters[1..]), [s.waiters[0].tid])
    else
      (s.(free := [block] + s.free, held := s.held - {block}), [])
  }

  function Expire(s: State, tid: Tid): State {
    s.(waiters := Without(s.waiters, tid))
  }

  // ---------------------------------------------------------------- runs

  /** Each block is free once or held once, never both; nobody waits while a block is free, and
      those who wait stand in priority order. */
  ghost predicate Sound(s: State) {
    && (forall i, j | 0 <= i < j < |s.free| :: s.free[i] != s.free[j])
    && (forall b | b in s.free :: b < s.n && b !in s.held)
    && (forall b | 0 <= b < s.n && b !in s.held :: b in s.free)
    && (forall b | b in s.held :: b < s.n)
    && |s.held| + |s.free| == s.n
    && (s.waiters != [] ==> s.free == [])
    && Sorted(s.waiters)
  }

  datatype Event = AllocEv(tid: Tid, prio: int, wait: Wait) | FreeEv(block: nat) | ExpireEv(tid: Tid)

  /** A caller frees only a block that is held. */
  ghost predicate Legal(s: State, e: Event) {
    e.FreeEv? ==> e.block in s.held
  }

  ghost function Next(s: State, e: Event): State {
    match e
    case AllocEv(tid, prio, wait) => Alloc(s, tid, prio, wait).0
    case FreeEv(b) => Free(s, b).0
    case ExpireEv(tid) => Expire(s, tid)
  }

  lemma AllocSound(s: State, tid: Tid, prio: int, wait: Wait)
    requires Sound(s)
    ensures Sound(Alloc(s, tid, prio, wait).0)
  {
    if s.free != [] {
      var b, s' := s.free[0], Alloc(s, tid, prio, wait).0;
      assert s'.held.Keys == s.held.Keys + {b};
      assert s.free == [b] + s'.free;
      forall x | x in s'.free ensures x < s.n && x !in s'.held {
        assert x in s.free && x != b;
      }
      forall x | 0 <= x < s.n && x !in s'.held ensures x in s'.free {
        assert x in s.free;
      }
    } else {
      EnqueueSorted(s.waiters, Waiter(tid, prio, ()));
    }
  }

  lemma FreeSound(s: State, block: nat)
    requires Sound(s) && block in s.held
    ensures Sound(Free(s, block).0)
  {
    var s' := Free(s, block).0;
    if s.waiters != [] {
      assert s'.held.Keys == s.held.Keys;
    } else {
      assert s'.held.Keys == s.held.Keys - {block};
    }
  }

  lemma NextSound(s: State, e: Event)
    requires Sound(s) && Legal(s, e)
    ensures Sound(Next(s, e)) && Next(s, e).n == s.n
  {
    match e
    case AllocEv(tid, prio, wait) => AllocSound(s, tid, prio, wait);
    case FreeEv(b) => FreeSound(s, b);
    case ExpireEv(tid) => WithoutSorted(s.waiters, tid);
  }

  ghost predicate LegalRun(s: State, es: seq<Event>)
    decreases |es|
  {
    es != [] ==> Legal(s, es[0]) && LegalRun(Next(s, es[0]), es[1..])
  }

  ghost function Run(s: State, es: seq<Event>): State
    decreases |es|
  {
    if es == [] then s else Run(Next(s, es[0]), es[1..])
  }

  lemma {:induction false} RunSound(s: State, es: seq<Event>)
    requires Sound(s) && LegalRun(s, es)
    ensures Sound(Run(s, es)) && Run(s, es).n == s.n
    decreases |es|
  {
    if es != [] {
      NextSound(s, es[0]);
      RunSound(Next(s, es[0]), es[1..]);
    }
  }

  /** The free list `create_free_list` builds: highest block first. */
  function Countdown(n: nat): (r: seq<nat>)
    ensures |r| == n
    ensures forall i | 0 <= i < n :: r[i] == n - 1 - i
  {
    if n == 0 then [] else [n - 1] + Countdown(n - 1)
  }

  function Fresh(n: nat): State {
    State(n, Countdown(n), map[], [])
  }

  lemma FreshSound(n: nat)
    ensures Sound(Fresh(n))
  {
    forall b | 0 <= b < n ensures b in Countdown(n) {
      assert Countdown(n)[n - 1 - b] == b;
    }
  }

  /** In every run of legal calls and timeouts, no block has two holders or is both free and held,
      used and free blocks add up, and nobody waits while a block is free. */
  lemma SlabSafety(n: nat, es: seq<Event>)
    requires LegalRun(Fresh(n), es)
    ensures Sound(Run(Fresh(n), es))
  {
    FreshSound(n);
    RunSound(Fresh(n), es);
  }

  /** A block handed over goes to one thread directly: it is never on the free list in between, and
      nobody else's holdings change. */
  lemma HandOff(s: State, block: nat)
    requires Sound(s) && block in s.held && s.waiters != []
    ensures var (s', woken) := Free(s, block);
            && woken == [s.waiters[0].tid] && s'.held[block] == s.waiters[0].tid && block !in s'.free
            && s'.free == s.free && |s'.held| == |s.held|
            && (forall b | b in s.held && b != block :: b in s'.held && s'.held[b] == s.held[b])
  {
    assert s.held[block := s.waiters[0].tid].Keys == s.held.Keys;
  }

  /** Different blocks never overlap in memory. */
  lemma BlocksDisjoint(base: nat, size: nat, i: nat, j: nat)
    requires i < j
    ensures base + i * size + size <= base + j * size
  {
    assert (i + 1) * size <= j * size;
  }

  // ---------------------------------------------------------------- in place

  const NULL := -1

  /** `head` starts a list through `link` that visits exactly the blocks `free`, in order. */
  ghost predicate Chain(link: seq<int>, head: int, free: seq<nat>) {
    && head == (if free == [] then NULL else free[0])
    && (forall i | 0 <= i < |free| :: free[i] < |link|)
    && (forall i | 0 <= i < |free| - 1 :: link[free[i]] == free[i + 1])
    && (free != [] ==> link[free[|free| - 1]] == NULL)
  }

  /** Taking the first block off the list leaves a list of the others. */
  lemma ChainTail(link: seq<int>, head: int, free: seq<nat>)
    requires Chain(link, head, free) && free != []
    ensures head == free[0] < |link| && Chain(link, link[free[0]], free[1..])
  {
  }

  /** A block that was not on the list becomes its first. */
  lemma ChainPush(link: seq<int>, head: int, free: seq<nat>, b: nat)
    requires Chain(link, head, free) && b < |link| && b !in free
    ensures Chain(link[b := head], b, [b] + free)
  {
  }

  lemma AllocCount(s: State, t: Tid)
    requires Sound(s) && s.free != []
    ensures |s.held[s.free[0] := t]| == |s.held| + 1
  {
    assert s.held[s.free[0] := t].Keys == s.held.Keys + {s.free[0]};
  }

  lemma FreeCount(s: State, b: nat)
    requires Sound(s) && b in s.held
    ensures b !in s.free && b < s.n && |s.held - {b}| == |s.held| - 1
  {
    assert (s.held - {b}).Keys == s.held.Keys - {b};
  }

  lemma HandOffCount(s: State, b: nat, t: Tid)
    requires b in s.held
    ensures |s.held[b := t]| == |s.held|
  {
    assert s.held[b := t].Keys == s.held.Keys;
  }

  class MemSlab {
    const numBlocks: nat
    /** The first word of each block: the next free block while the block is free, the holder's
        own data otherwise. */
    const link: array<int>
    var freeList: int
    var numUsed: nat
    var waiters: seq<Waiter<()>>
    ghost var free: seq<nat>
    ghost var held: map<nat, Tid>

    ghost function View(): State
      reads this
    {
      State(numBlocks, free, held, waiters)
    }

    ghost predicate Valid()
      reads this, link
    {
      && link.Length == numBlocks
      && Sound(View())
      && numUsed == |held|
      && Chain(link[..], freeList, free)
    }

    /** `k_mem_slab_init` with `create_free_list`: thread every block onto the list. */
    constructor (n: nat)
      ensures Valid() && fresh(link) && View() == Fresh(n)
    {
      numBlocks := n;
      link := new int[n];
      freeList, numUsed, waiters, free, held := NULL, 0, [], [], map[];
      new;
      for j := 0 to n
        invariant numBlocks == n && link.Length == n && fresh(link)
        invariant free == Countdown(j) && Chain(link[..], freeList, free)
        invariant numUsed == 0 && waiters == [] && held == map[]
      {
        link[j] := freeList;
        freeList := j;
        free := [j] + free;
      }
      FreshSound(n);
    }

    /** `k_mem_slab_alloc`. */
    method AllocBlock(tid: Tid, prio: int, wait: Wait) returns (outcome: Outcome)
      requires Valid()
      modifies this
      ensures Valid() && (View(), outcome) == Alloc(old(View()), tid, prio, wait)
      ensures outcome.Got? <==> old(freeList) != NULL
      ensures outcome.Got? ==> outcome.block == old(freeList) && held == old(held)[outcome.block := tid]
    {
      AllocSound(View(), tid, prio, wait);
      if free != [] {
        AllocCount(View(), tid);
      }
      hide Sound, Enqueue;
      if freeList != NULL {
        ChainTail(link[..], freeList, free);
        hide Chain;
        outcome := Got(freeList);
        freeList := link[freeList];
        numUsed := numUsed + 1;
        held := held[free[0] := tid];
        free := free[1..];
      } else if wait.NoWait? {
        outcome := Enomem;
      } else {
        waiters := WaitQueue.Add(waiters, Waiter(tid, prio, ()));
        outcome := Blocked;
      }
    }

    /** `k_mem_slab_free`. */
    method FreeBlock(block: nat) returns (woken: seq<Tid>)
      requires Valid() && block in held
      modifies this, link
      ensures Valid() && (View(), woken) == Free(old(View()), block)
    {
      FreeSound(View(), block);
      FreeCount(View(), block);
      ChainPush(link[..], freeList, free, block);
      hide Sound, Chain;
      if waiters != [] {
        woken := [waiters[0].tid];
        HandOffCount(View(), block, waiters[0].tid);
        held := held[block := waiters[0].tid];
        waiters := waiters[1..];
      } else {
        woken := [];
        link[block] := freeList;
        freeList := block;
        numUsed := numUsed - 1;
        held := held - {block};
        free := [block] + free;
        assert link[..] == old(link[..])[block := old(freeList)];
      }
    }

    /** A holder may store anything in its block: the free list does not run through it. */
    method HolderWrites(block: nat, word: int)
      requires Valid() && block in held
      modifies link
      ensures Valid() && View() == old(View())
    {
      link[block] := word;
    }
  }
}
