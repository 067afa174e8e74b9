/** The multiqueue: one list per priority and a word with a bit for every list that is not empty. */
module MultiQueue {
  import opened WaitQueue
  import opened RunQueue
  import Bits

  type Queue = seq<Waiter<()>>

  /** One list's threads, all of priority `p`. */
  ghost function Tag(l: seq<Tid>, p: int): Queue {
    seq(|l|, i requires 0 <= i < |l| => Waiter(l[i], p, ()))
  }

  /** The lists one after the other, the first holding priority `top`. */
  ghost function Flat(ls: seq<seq<Tid>>, top: int): Queue {
    if ls == [] then [] else Tag(ls[0], top) + Flat(ls[1..], top + 1)
  }

  lemma {:induction false} FlatRange(ls: seq<seq<Tid>>, top: int)
    ensures Sorted(Flat(ls, top))
    ensures forall i | 0 <= i < |Flat(ls, top)| :: top <= Flat(ls, top)[i].prio < top + |ls|
  {
    if ls != [] {
      FlatRange(ls[1..], top + 1);
    }
  }

  lemma {:induction false} TagOfPrio(l: seq<Tid>, p: int)
    ensures OfPrio(Tag(l, p), p) == Tag(l, p)
  {
    if l != [] {
      assert Tag(l, p)[1..] == Tag(l[1..], p);
      TagOfPrio(l[1..], p);
    }
  }

  /** The threads of one priority are that priority's list. */
  lemma {:induction false} FlatOfPrio(ls: seq<seq<Tid>>, top: int, p: int)
    ensures OfPrio(Flat(ls, top), p) == if top <= p < top + |ls| then Tag(ls[p - top], p) else []
  {
    if ls != [] {
      assert Flat(ls, top) == Tag(ls[0], top) + Flat(ls[1..], top + 1);
      hide OfPrio, Flat;
      OfPrioConcat(Tag(ls[0], top), Flat(ls[1..], top + 1), p);
      FlatOfPrio(ls[1..], top + 1, p);
      if p == top {
        TagOfPrio(ls[0], top);
      } else {
        OfPrioNone(Tag(ls[0], top), p);
      }
    }
  }

  lemma TagAppend(l: seq<Tid>, t: Tid, p: int)
    ensures Tag(l + [t], p) == Tag(l, p) + [Waiter(t, p, ())]
  {
  }

  /** Appending to its priority's list is joining the whole queue. */
  lemma AppendIsJoin(ls: seq<seq<Tid>>, top: int, t: Tid, p: int)
    requires top <= p < top + |ls|
    ensures Flat(ls[p - top := ls[p - top] + [t]], top) == Enqueue(Flat(ls, top), Waiter(t, p, ()))
  {
    var q, w := Flat(ls, top), Waiter(t, p, ());
    var ls' := ls[p - top := ls[p - top] + [t]];
    FlatRange(ls, top);
    FlatRange(ls', top);
    EnqueueSorted(q, w);
    hide Flat, Sorted, Enqueue, OfPrio;
    forall x ensures OfPrio(Flat(ls', top), x) == OfPrio(Enqueue(q, w), x) {
      FlatOfPrio(ls, top, x);
      FlatOfPrio(ls', top, x);
      EnqueueFifo(q, w, x);
      TagAppend(ls[p - top], t, p);
    }
    SortedFifoUnique(Flat(ls', top), Enqueue(q, w));
  }

  // ------------------------------------------------------------ removing

  /** A list without thread `t`. */
  function Drop(l: seq<Tid>, t: Tid): seq<Tid> {
    if l == [] then []
    else if l[0] == t then Drop(l[1..], t)
    else [l[0]] + Drop(l[1..], t)
  }

  lemma {:induction false} DropAbsent(l: seq<Tid>, t: Tid)
    requires t !in l
    ensures Drop(l, t) == l
  {
    if l != [] {
      DropAbsent(l[1..], t);
    }
  }

  lemma {:induction false} TagDrop(l: seq<Tid>, t: Tid, p: int)
    ensures Without(Tag(l, p), t) == Tag(Drop(l, t), p)
  {
    if l != [] {
      assert Tag(l, p)[1..] == Tag(l[1..], p);
      TagDrop(l[1..], t, p);
      assert l[0] != t ==> Tag(Drop(l, t), p) == [Waiter(l[0], p, ())] + Tag(Drop(l[1..], t), p);
    }
  }

  lemma {:induction false} WithoutConcat(a: Queue, b: Queue, t: Tid)
    ensures Without(a + b, t) == Without(a, t) + Without(b, t)
  {
    if a == [] {
      assert a + b == b;
    } else {
      assert (a + b)[1..] == a[1..] + b;
      WithoutConcat(a[1..], b, t);
    }
  }

  /** Thread `t` is in no list but that of priority `p`. */
  ghost predicate OnlyIn(ls: seq<seq<Tid>>, t: Tid, k: int) {
    forall i | 0 <= i < |ls| && i != k :: t !in ls[i]
  }

  /** Unlinking from its priority's list is leaving the whole queue. */
  lemma {:induction false} DropIsLeave(ls: seq<seq<Tid>>, top: int, t: Tid, k: nat)
    requires k < |ls| && OnlyIn(ls, t, k)
    ensures Flat(ls[k := Drop(ls[k], t)], top) == Without(Flat(ls, top), t)
  {
    var ls' := ls[k := Drop(ls[k], t)];
    WithoutConcat(Tag(ls[0], top), Flat(ls[1..], top + 1), t);
    TagDrop(ls[0], t, top);
    if k == 0 {
      assert ls'[1..] == ls[1..];
      NotThere(ls[1..], top + 1, t);
    } else {
      DropAbsent(ls[0], t);
      assert ls'[1..] == ls[1..][k - 1 := Drop(ls[1..][k - 1], t)];
      DropIsLeave(ls[1..], top + 1, t, k - 1);
    }
  }

  lemma {:induction false} NotThere(ls: seq<seq<Tid>>, top: int, t: Tid)
    requires forall i | 0 <= i < |ls| :: t !in ls[i]
    ensures Without(Flat(ls, top), t) == Flat(ls, top)
  {
    if ls != [] {
      WithoutConcat(Tag(ls[0], top), Flat(ls[1..], top + 1), t);
      TagDrop(ls[0], t, top);
      DropAbsent(ls[0], t);
      NotThere(ls[1..], top + 1, t);
    }
  }

  lemma {:induction false} InFlat(ls: seq<seq<Tid>>, top: int, t: Tid, k: nat)
    requires k < |ls| && t in ls[k]
    ensures Waiter(t, top + k, ()) in Flat(ls, top)
  {
    if k == 0 {
      var i :| 0 <= i < |ls[0]| && ls[0][i] == t;
      assert Tag(ls[0], top)[i] == Waiter(t, top, ());
    } else {
      InFlat(ls[1..], top + 1, t, k - 1);
    }
  }

  lemma QueuedOnce(ls: seq<seq<Tid>>, top: int, t: Tid, p: int)
    requires Distinct(Flat(ls, top)) && Waiter(t, p, ()) in Flat(ls, top)
    ensures OnlyIn(ls, t, p - top)
  {
    forall i | 0 <= i < |ls| && i != p - top ensures t !in ls[i] {
      if t in ls[i] {
        InFlat(ls, top, t, i);
      }
    }
  }

  // ---------------------------------------------------------------- best

  /** The first non-empty list's head is the head of the whole queue. */
  lemma {:induction false} FlatHead(ls: seq<seq<Tid>>, top: int, k: nat)
    requires k < |ls| && ls[k] != []
    requires forall i | 0 <= i < k :: ls[i] == []
    ensures Flat(ls, top) != [] && Flat(ls, top)[0].tid == ls[k][0]
  {
    if k > 0 {
      FlatHead(ls[1..], top + 1, k - 1);
      assert Tag(ls[0], top) == [];
    }
  }

  lemma {:induction false} FlatNothing(ls: seq<seq<Tid>>, top: int)
    requires forall i | 0 <= i < |ls| :: ls[i] == []
    ensures Flat(ls, top) == []
  {
    if ls != [] {
      FlatNothing(ls[1..], top + 1);
    }
  }

  // ---------------------------------------------------------------- code

  class MqQueue {
    const highest: int
    const queues: array<seq<Tid>>
    var bitmask: bv32

    ghost predicate Valid()
      reads this, queues
    {
      && queues.Length == 32
      && (forall k | 0 <= k < 32 :: Bits.Has(bitmask, k) <==> queues[k] != [])
    }

    ghost function View(): Queue
      reads this, queues
    {
      Flat(queues[..], highest)
    }

    constructor (highest: int)
      ensures Valid() && View() == [] && this.highest == highest && fresh(queues)
    {
      hide Bits.Has;
      this.highest := highest;
      bitmask := 0;
      queues := new seq<Tid>[32](_ => []);
      new;
      forall k | 0 <= k < 32 ensures !Bits.Has(bitmask, k) {
        Bits.NoBit(k);
      }
      FlatNothing(queues[..], highest);
    }

    /** `_priq_mq_add`; the build refuses more than 32 priorities. */
    method AddThread(tid: Tid, prio: int)
      requires Valid() && highest <= prio < highest + 32
      modifies this`bitmask, queues
      ensures Valid() && View() == Apply(old(View()), Join(tid, prio, ()))
    {
      hide Bits.Has, Flat;
      var bit := prio - highest;
      AppendIsJoin(queues[..], highest, tid, prio);
      queues[bit] := queues[bit] + [tid];
      forall k | 0 <= k < 32
        ensures Bits.Has(Bits.Or(bitmask, Bits.Bit(bit)), k) <==> k == bit || Bits.Has(bitmask, k)
      {
        Bits.SetBit(bitmask, bit, k);
      }
      bitmask := Bits.Or(bitmask, Bits.Bit(bit));
      assert queues[..] == old(queues[..])[bit := old(queues[..])[bit] + [tid]];
    }

    /** `_priq_mq_remove` of a thread queued at its current priority. */
    method RemoveThread(tid: Tid, prio: int)
      requires Valid() && Distinct(View()) && Waiter(tid, prio, ()) in View()
      modifies this`bitmask, queues
      ensures Valid() && View() == Apply(old(View()), Leave(tid))
    {
      hide Bits.Has, Flat;
      FlatRange(queues[..], highest);
      QueuedOnce(queues[..], highest, tid, prio);
      var bit := prio - highest;
      DropIsLeave(queues[..], highest, tid, bit);
      queues[bit] := Drop(queues[bit], tid);
      assert queues[..] == old(queues[..])[bit := Drop(old(queues[..])[bit], tid)];
      if queues[bit] == [] {
        forall k | 0 <= k < 32
          ensures Bits.Has(Bits.AndNot(bitmask, Bits.Bit(bit)), k) <==> k != bit && Bits.Has(bitmask, k)
        {
          Bits.ClearBit(bitmask, bit, k);
        }
        bitmask := Bits.AndNot(bitmask, Bits.Bit(bit));
      }
    }

    method BestThread() returns (r: Choice)
      requires Valid()
      ensures r == Best(View())
    {
      hide Bits.Has, Flat;
      if bitmask == 0 {
        forall k | 0 <= k < 32 ensures queues[k] == [] {
          Bits.NoBit(k);
        }
        FlatNothing(queues[..], highest);
        return None;
      }
      Bits.SomeBit(bitmask);
      var k := Bits.TrailingZeros(bitmask);
      FlatHead(queues[..], highest, k);
      r := Some(queues[k][0]);
    }
  }
}
