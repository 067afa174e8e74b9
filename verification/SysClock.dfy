/** The kernel clock and its timeout queue, in place.  Each queued timeout stores only the ticks
    between the previous one and itself. */
module SysClock {
  import opened Ticks
  import opened TimeoutSpec

  datatype Node = Node(id: Id, delta: nat)

  /** The deadlines a delta list stands for, `base` ticks from now on. */
  ghost function Dues(q: seq<Node>, base: nat): (es: seq<Entry>)
    ensures |es| == |q|
    decreases |q|
  {
    if q == [] then []
    else
      var d := base + q[0].delta;
      [Entry(q[0].id, d)] + Dues(q[1..], d)
  }

  lemma {:induction false} DuesOrdered(q: seq<Node>, base: nat)
    ensures forall i | 0 <= i < |q| :: Dues(q, base)[i].id == q[i].id && Dues(q, base)[i].due >= base
    ensures Ordered(Dues(q, base))
    decreases |q|
  {
    if q != [] {
      DuesOrdered(q[1..], base + q[0].delta);
    }
  }

  lemma {:induction false} DuesShift(q: seq<Node>, base: nat, t: nat)
    requires t <= base
    ensures forall i | 0 <= i < |q| :: Dues(q, base)[i].due >= t
    ensures Sooner(Dues(q, base), t) == Dues(q, base - t)
    decreases |q|
  {
    if q != [] {
      DuesShift(q[1..], base + q[0].delta, t);
      assert Dues(q, base)[1..] == Dues(q[1..], base + q[0].delta);
    }
  }

  function AddNode(q: seq<Node>, id: Id, delta: nat): seq<Node>
    decreases |q|
  {
    if q == [] then [Node(id, delta)]
    else if delta <= q[0].delta then [Node(id, delta), Node(q[0].id, q[0].delta - delta)] + q[1..]
    else [q[0]] + AddNode(q[1..], id, delta - q[0].delta)
  }

  lemma {:induction false} AddNodeInserts(q: seq<Node>, base: nat, id: Id, delta: nat)
    ensures Dues(AddNode(q, id, delta), base) == Insert(Dues(q, base), Entry(id, base + delta))
    decreases |q|
  {
    if q == [] {
    } else if delta <= q[0].delta {
      var r := [Node(id, delta), Node(q[0].id, q[0].delta - delta)] + q[1..];
      assert r[1..] == [Node(q[0].id, q[0].delta - delta)] + q[1..] && r[1..][1..] == q[1..];
    } else {
      AddNodeInserts(q[1..], base + q[0].delta, id, delta - q[0].delta);
      assert Dues(q, base)[1..] == Dues(q[1..], base + q[0].delta);
    }
  }

  function AbortNode(q: seq<Node>, id: Id): seq<Node>
    decreases |q|
  {
    if q == [] then []
    else if q[0].id != id then [q[0]] + AbortNode(q[1..], id)
    else if |q| == 1 then []
    else [Node(q[1].id, q[1].delta + q[0].delta)] + q[2..]
  }

  lemma {:induction false} AbortNodeRemoves(q: seq<Node>, base: nat, id: Id)
    ensures Dues(AbortNode(q, id), base) == Remove(Dues(q, base), id)
    decreases |q|
  {
    if q != [] {
      assert Dues(q, base)[1..] == Dues(q[1..], base + q[0].delta);
      if q[0].id != id {
        AbortNodeRemoves(q[1..], base + q[0].delta, id);
      } else if |q| > 1 {
        assert q[1..][1..] == q[2..];
        assert ([Node(q[1].id, q[1].delta + q[0].delta)] + q[2..])[1..] == q[2..];
      }
    }
  }

  lemma {:induction false} DuesConcat(a: seq<Node>, b: seq<Node>, base: nat)
    ensures Dues(a + b, base) == Dues(a, base) + Dues(b, Total(a) + base)
    decreases |a|
  {
    if a == [] {
      assert a + b == b;
    } else {
      DuesConcat(a[1..], b, base + a[0].delta);
      assert (a + b)[1..] == a[1..] + b;
    }
  }

  ghost function Total(q: seq<Node>): nat {
    if q == [] then 0 else q[0].delta + Total(q[1..])
  }

  lemma {:induction false} TotalSnoc(q: seq<Node>, n: Node)
    ensures Total(q + [n]) == Total(q) + n.delta
  {
    if q == [] {
      assert q + [n] == [n];
    } else {
      TotalSnoc(q[1..], n);
      assert (q + [n])[1..] == q[1..] + [n];
    }
  }

  /** The walk of `_add_timeout`: it uses up the deltas it passes and splits the one it stops at. */
  method LinkIn(q: seq<Node>, id: Id, ticks: nat) returns (r: seq<Node>)
    ensures r == AddNode(q, id, ticks)
  {
    var passed, ahead := [], q;
    var delta: nat := ticks;
    while ahead != []
      invariant AddNode(q, id, ticks) == passed + AddNode(ahead, id, delta)
      decreases |ahead|
    {
      if delta <= ahead[0].delta {
        return passed + ([Node(id, delta), Node(ahead[0].id, ahead[0].delta - delta)] + ahead[1..]);
      }
      assert passed + ([ahead[0]] + AddNode(ahead[1..], id, delta - ahead[0].delta)) ==
             (passed + [ahead[0]]) + AddNode(ahead[1..], id, delta - ahead[0].delta);
      delta := delta - ahead[0].delta;
      passed, ahead := passed + [ahead[0]], ahead[1..];
    }
    r := passed + [Node(id, delta)];
  }

  /** The unlinking of `_abort_timeout`: the successor takes over the removed delta. */
  method Unlink(q: seq<Node>, id: Id) returns (r: seq<Node>, active: bool)
    ensures r == AbortNode(q, id)
    ensures active <==> exists i :: 0 <= i < |q| && q[i].id == id
  {
    var passed, ahead := [], q;
    while ahead != [] && ahead[0].id != id
      invariant q == passed + ahead && forall i | 0 <= i < |passed| :: q[i].id != id
      invariant AbortNode(q, id) == passed + AbortNode(ahead, id)
      decreases |ahead|
    {
      assert passed + ([ahead[0]] + AbortNode(ahead[1..], id)) == (passed + [ahead[0]]) + AbortNode(ahead[1..], id);
      passed, ahead := passed + [ahead[0]], ahead[1..];
    }
    active := ahead != [];
    if |ahead| > 1 {
      r := passed + ([Node(ahead[1].id, ahead[1].delta + ahead[0].delta)] + ahead[2..]);
    } else {
      r := passed;
    }
    assert active ==> q[|passed|].id == id;
  }

  lemma HeadShortened(q: seq<Node>, base: nat, t: nat)
    requires q != [] && base <= t < base + q[0].delta
    ensures forall i | 0 <= i < |q| :: Dues(q, base)[i].due >= t
    ensures Sooner(Dues(q, base), t) == Dues([Node(q[0].id, base + q[0].delta - t)] + q[1..], 0)
  {
    var d := base + q[0].delta;
    DuesShift(q[1..], d, t);
    assert Dues(q, base)[1..] == Dues(q[1..], d);
    assert ([Node(q[0].id, d - t)] + q[1..])[1..] == q[1..];
  }

  /** How far the walk over the queue `es` has come: `gone` expired and listed newest first, `q`
      still ahead with `base` ticks used up. */
  ghost predicate Walked(es: seq<Entry>, t: nat, gone: seq<Entry>, expired: seq<Id>, q: seq<Node>, base: nat) {
    && Ordered(es) && es == gone + Dues(q, base) && base <= t
    && (gone != [] ==> gone[|gone| - 1].due <= t)
    && expired == Ids(Reversed(gone))
  }

  lemma ReversedIds(es: seq<Entry>, e: Entry)
    ensures Ids(Reversed(es + [e])) == [e.id] + Ids(Reversed(es))
  {
    ReversedSnoc(es, e);
    hide Reversed;
    assert ([e] + Reversed(es))[1..] == Reversed(es);
  }

  lemma Regroup(a: seq<Entry>, e: Entry, b: seq<Entry>)
    ensures a + ([e] + b) == (a + [e]) + b && (a + [e])[|a|] == e
  {
  }

  lemma WalkStarts(q: seq<Node>, t: nat)
    ensures Ordered(Dues(q, 0)) && Walked(Dues(q, 0), t, [], [], q, 0) && Dues([], 0) == []
  {
    DuesOrdered(q, 0);
    hide Ordered, Dues;
    assert Reversed([]) == [] && Ids([]) == [];
    assert [] + Dues(q, 0) == Dues(q, 0);
    NoDues();
  }

  lemma NoDues()
    ensures Dues([], 0) == []
  {
  }

  lemma WalkStep(es: seq<Entry>, t: nat, gone: seq<Entry>, expired: seq<Id>, q: seq<Node>, base: nat)
    requires Walked(es, t, gone, expired, q, base) && q != [] && base + q[0].delta <= t
    ensures Walked(es, t, gone + [Entry(q[0].id, base + q[0].delta)], [q[0].id] + expired, q[1..], base + q[0].delta)
  {
    var e := Entry(q[0].id, base + q[0].delta);
    hide Reversed, Ordered, Ids, Dues;
    ReversedIds(gone, e);
    WalkSplit(es, gone, q, base);
    LastAppended(gone, e);
  }

  lemma LastAppended(gone: seq<Entry>, e: Entry)
    ensures gone + [e] != [] && (gone + [e])[|gone + [e]| - 1] == e
  {
  }

  lemma WalkSplit(es: seq<Entry>, gone: seq<Entry>, q: seq<Node>, base: nat)
    requires q != [] && es == gone + Dues(q, base)
    ensures es == gone + [Entry(q[0].id, base + q[0].delta)] + Dues(q[1..], base + q[0].delta)
  {
    var e := Entry(q[0].id, base + q[0].delta);
    hide Dues;
    DuesHead(q, base);
    Regroup(gone, e, Dues(q[1..], e.due));
  }

  /** A walk that has taken off everything due, and stands before a timeout that is not, only has to
      shorten that timeout's delta. */
  lemma WalkEnds(es: seq<Entry>, t: nat, gone: seq<Entry>, expired: seq<Id>, q: seq<Node>, base: nat)
    requires Walked(es, t, gone, expired, q, base)
    requires q != [] ==> t < base + q[0].delta
    ensures Ordered(es) && expired == Ids(Fired(es, t))
    ensures Surviving(es, t) ==
            if q == [] then [] else Dues([Node(q[0].id, base + q[0].delta - t)] + q[1..], 0)
  {
    if q != [] {
      DuesHead(q, base);
      HeadShortened(q, base, t);
    }
    hide Ordered, Dues, Within, Sooner;
    WithinUnique(es, t, |gone|);
    assert es[..|gone|] == gone && es[|gone|..] == Dues(q, base);
  }

  /** The loop of `handle_timeouts`: expired timeouts are moved, one by one, to the front of a list
      of their own. */
  method HandleTimeouts(was: seq<Node>, announced: nat) returns (q: seq<Node>, expired: seq<Id>)
    ensures Ordered(Dues(was, 0))
    ensures Dues(q, 0) == Surviving(Dues(was, 0), announced)
    ensures expired == Ids(Fired(Dues(was, 0), announced))
  {
    hide Dues, Ordered, Walked, Ids, Fired, Surviving;
    WalkStarts(was, announced);
    ghost var es, gone := Dues(was, 0), [];
    q, expired := was, [];
    var ticks: int := announced;
    while q != []
      invariant 0 <= ticks <= announced && Walked(es, announced, gone, expired, q, announced - ticks)
      decreases |q|
    {
      var head, tail := q[0], q[1..];
      var delta := if head.delta < ticks then 0 else head.delta - ticks;
      if delta == 0 {
        WalkStep(es, announced, gone, expired, q, announced - ticks);
      } else {
        WalkEnds(es, announced, gone, expired, q, announced - ticks);
      }
      ticks := ticks - head.delta;
      if delta == 0 {
        expired := [head.id] + expired;
        gone := gone + [Entry(head.id, announced - ticks)];
        q := tail;
      } else {
        q := [Node(head.id, delta)] + tail;
        if ticks <= 0 {
          return;
        }
      }
    }
    WalkEnds(es, announced, gone, expired, q, announced - ticks);
  }

  lemma DuesHead(q: seq<Node>, base: nat)
    requires q != []
    ensures Dues(q, base) == [Entry(q[0].id, base + q[0].delta)] + Dues(q[1..], base + q[0].delta)
  {
  }

  lemma NoTicksNoMs(hw: nat, tps: nat)
    requires Rates(hw, tps)
    ensures Narrow(ToMs(0, hw, tps)) == 0
  {
  }

  class SysClock {
    var tickCount: nat
    var q: seq<Node>

    ghost function Timeouts(): seq<Entry>
      reads this
    {
      Dues(q, 0)
    }

    constructor ()
      ensures tickCount == 0 && Timeouts() == []
    {
      tickCount, q := 0, [];
    }

    /** `_add_timeout`: a timeout of zero ticks is handled at once, any other is linked in at its
        deadline. */
    method Add(id: Id, ticks: nat) returns (handledNow: bool)
      modifies this`q
      ensures handledNow == (ticks == 0)
      ensures Timeouts() == if ticks == 0 then old(Timeouts()) else Insert(old(Timeouts()), Entry(id, ticks))
    {
      handledNow := ticks == 0;
      if !handledNow {
        AddNodeInserts(q, 0, id, ticks);
        q := LinkIn(q, id, ticks);
      }
    }

    /** `_abort_timeout`. */
    method Abort(id: Id) returns (active: bool)
      modifies this`q
      ensures active == Pending(old(Timeouts()), id)
      ensures Timeouts() == Remove(old(Timeouts()), id)
    {
      AbortNodeRemoves(q, 0, id);
      DuesOrdered(q, 0);
      ghost var es := Timeouts();
      ghost var was := q;
      q, active := Unlink(q, id);
      assert active ==> exists i :: 0 <= i < |was| && was[i].id == id && es[i].id == id;
    }

    /** `_nano_sys_clock_tick_announce`, up to the handling of the expired timeouts. */
    method Announce(ticks: nat) returns (expired: seq<Id>)
      modifies this
      ensures tickCount == old(tickCount) + ticks
      ensures Ordered(old(Timeouts())) && Timeouts() == Surviving(old(Timeouts()), ticks)
      ensures expired == Ids(Fired(old(Timeouts()), ticks))
    {
      tickCount := tickCount + ticks;
      q, expired := HandleTimeouts(q, ticks);
    }

    /** `_timeout_remaining_get`: the ticks a timeout has left, in milliseconds of 32 bits; zero when
        it is inactive. */
    method Remaining(id: Id, hw: nat, tps: nat) returns (ms: int)
      requires Rates(hw, tps)
      ensures !Pending(Timeouts(), id) ==> ms == 0
      ensures Pending(Timeouts(), id) ==>
                exists e :: e in Timeouts() && e.id == id && ms == Narrow(ToMs(e.due, hw, tps))
    {
      var ticks := SumOfDeltas(id);
      NoTicksNoMs(hw, tps);
      assert Pending(Timeouts(), id) ==> Entry(id, ticks) in Timeouts();
      ms := Narrow(ToMs(ticks, hw, tps));
    }

    /** The walk over the list: zero when the timeout is inactive, else the deltas up to it. */
    method SumOfDeltas(id: Id) returns (ticks: nat)
      ensures !Pending(Timeouts(), id) ==> ticks == 0
      ensures Pending(Timeouts(), id) ==> Entry(id, ticks) in Timeouts()
    {
      DuesOrdered(q, 0);
      ghost var es := Timeouts();
      ticks := 0;
      var i := 0;
      while i < |q|
        invariant 0 <= i <= |q| && ticks == Total(q[..i])
        invariant forall j | 0 <= j < i :: es[j].id != id
      {
        assert q[..i + 1] == q[..i] + [q[i]];
        TotalSnoc(q[..i], q[i]);
        ticks := ticks + q[i].delta;
        if q[i].id == id {
          assert q == q[..i] + q[i..];
          DuesConcat(q[..i], q[i..], 0);
          assert es[i] == Entry(id, ticks);
          return;
        }
        i := i + 1;
      }
      ticks := 0;
    }
  }
}
