/** The kernel's pending timeouts as deadlines: who is due, in how many ticks, in queue order. */
module TimeoutSpec {

  type Id = nat

  datatype Entry = Entry(id: Id, due: nat)

  ghost predicate Ordered(es: seq<Entry>) {
    forall i, j | 0 <= i < j < |es| :: es[i].due <= es[j].due
  }

  /** Nobody waits zero ticks. */
  ghost predicate Future(es: seq<Entry>) {
    forall i | 0 <= i < |es| :: es[i].due >= 1
  }

  ghost predicate Pending(es: seq<Entry>, id: Id) {
    exists i :: 0 <= i < |es| && es[i].id == id
  }

  /** A new timeout goes in front of everything due no earlier, equals included. */
  function Insert(es: seq<Entry>, e: Entry): seq<Entry> {
    if es == [] || e.due <= es[0].due then [e] + es else [es[0]] + Insert(es[1..], e)
  }

  function Remove(es: seq<Entry>, id: Id): seq<Entry> {
    if es == [] then [] else if es[0].id == id then es[1..] else [es[0]] + Remove(es[1..], id)
  }

  /** How many entries at the front are due within `t` ticks. */
  function Within(es: seq<Entry>, t: nat): (k: nat)
    ensures k <= |es|
    ensures forall i | 0 <= i < k :: es[i].due <= t
    ensures k < |es| ==> t < es[k].due
  {
    if es == [] || t < es[0].due then 0 else 1 + Within(es[1..], t)
  }

  /** Every deadline `t` ticks nearer. */
  function Sooner(es: seq<Entry>, t: nat): (r: seq<Entry>)
    requires forall i | 0 <= i < |es| :: es[i].due >= t
    ensures |r| == |es|
    ensures forall i | 0 <= i < |es| :: r[i] == Entry(es[i].id, es[i].due - t)
  {
    if es == [] then [] else [Entry(es[0].id, es[0].due - t)] + Sooner(es[1..], t)
  }

  function Reversed(es: seq<Entry>): (r: seq<Entry>)
    ensures |r| == |es|
    ensures forall i | 0 <= i < |es| :: r[i] == es[|es| - 1 - i]
  {
    if es == [] then [] else Reversed(es[1..]) + [es[0]]
  }

  lemma ReversedSnoc(es: seq<Entry>, e: Entry)
    ensures Reversed(es + [e]) == [e] + Reversed(es)
  {
  }

  function Ids(es: seq<Entry>): seq<Id> {
    if es == [] then [] else [es[0].id] + Ids(es[1..])
  }

  /** The entries that expire when `t` ticks pass, in queue order. */
  function Expiring(es: seq<Entry>, t: nat): seq<Entry> {
    es[..Within(es, t)]
  }

  /** The order in which expired timeouts are handled: the queue order reversed. */
  function Fired(es: seq<Entry>, t: nat): seq<Entry> {
    Reversed(Expiring(es, t))
  }

  function Surviving(es: seq<Entry>, t: nat): (r: seq<Entry>)
    requires Ordered(es)
    ensures |r| == |es| - Within(es, t)
  {
    Sooner(es[Within(es, t)..], t)
  }

  // ---------------------------------------------------------------- one announcement

  lemma SurvivorAt(es: seq<Entry>, t: nat, i: nat)
    requires Ordered(es) && Within(es, t) + i < |es|
    ensures Surviving(es, t)[i] == Entry(es[Within(es, t) + i].id, es[Within(es, t) + i].due - t)
  {
    assert es[Within(es, t)..][i] == es[Within(es, t) + i];
  }

  lemma SurvivorsOrdered(es: seq<Entry>, t: nat)
    requires Ordered(es)
    ensures Ordered(Surviving(es, t)) && Future(Surviving(es, t))
  {
    var s := Surviving(es, t);
    forall i, j | 0 <= i < j < |s| ensures s[i].due <= s[j].due {
      SurvivorAt(es, t, i);
      SurvivorAt(es, t, j);
    }
    forall i | 0 <= i < |s| ensures s[i].due >= 1 {
      SurvivorAt(es, t, i);
    }
  }

  /** Announcing expires exactly what is due, brings everyone else exactly `t` ticks nearer, and
      leaves nobody due at once. */
  lemma AnnounceExact(es: seq<Entry>, t: nat)
    requires Ordered(es)
    ensures forall i | 0 <= i < |es| :: i < |Expiring(es, t)| <==> es[i].due <= t
    ensures var k, s := |Expiring(es, t)|, Surviving(es, t);
            |s| == |es| - k && forall i | 0 <= i < |s| :: s[i] == Entry(es[k + i].id, es[k + i].due - t)
    ensures Ordered(Surviving(es, t)) && Future(Surviving(es, t))
  {
    SurvivorsOrdered(es, t);
    hide Within, Sooner;
    forall i | 0 <= i < |Surviving(es, t)|
      ensures Surviving(es, t)[i] == Entry(es[Within(es, t) + i].id, es[Within(es, t) + i].due - t)
    {
      SurvivorAt(es, t, i);
    }
  }

  lemma WithinUnique(es: seq<Entry>, t: nat, k: nat)
    requires Ordered(es) && k <= |es|
    requires k > 0 ==> es[k - 1].due <= t
    requires k < |es| ==> t < es[k].due
    ensures k == Within(es, t)
  {
  }

  lemma WithinSum(es: seq<Entry>, a: nat, b: nat)
    requires Ordered(es) && Ordered(Surviving(es, a))
    ensures Within(es, a + b) == Within(es, a) + Within(Surviving(es, a), b)
  {
    hide Within, Sooner, Ordered;
    var s := Surviving(es, a);
    var k, m := Within(es, a), Within(s, b);
    if m > 0 {
      SurvivorAt(es, a, m - 1);
    } else if k > 0 {
      assert es[k - 1].due <= a;
    }
    if k + m < |es| {
      SurvivorAt(es, a, m);
    }
    WithinUnique(es, a + b, k + m);
  }

  lemma SurviveTwiceAt(es: seq<Entry>, a: nat, b: nat, i: nat)
    requires Ordered(es) && Ordered(Surviving(es, a))
    requires Within(es, a + b) == Within(es, a) + Within(Surviving(es, a), b)
    requires Within(es, a + b) + i < |es|
    ensures Surviving(Surviving(es, a), b)[i] == Surviving(es, a + b)[i]
  {
    hide Within, Surviving, Ordered;
    var s := Surviving(es, a);
    SurvivorAt(es, a + b, i);
    SurvivorAt(s, b, i);
    SurvivorAt(es, a, Within(s, b) + i);
  }

  lemma SurviveTwice(es: seq<Entry>, a: nat, b: nat)
    requires Ordered(es) && Ordered(Surviving(es, a))
    ensures Surviving(Surviving(es, a), b) == Surviving(es, a + b)
  {
    WithinSum(es, a, b);
    hide Within, Surviving, Ordered;
    var u, v := Surviving(Surviving(es, a), b), Surviving(es, a + b);
    assert |u| == |v|;
    forall i: nat | i < |v| ensures u[i] == v[i] {
      SurviveTwiceAt(es, a, b, i);
    }
  }

  /** Two announcements are one announcement of their sum, for the survivors and for those expired. */
  lemma AnnounceTwice(es: seq<Entry>, a: nat, b: nat)
    requires Ordered(es)
    ensures Ordered(Surviving(es, a)) && Surviving(Surviving(es, a), b) == Surviving(es, a + b)
    ensures var x, y, z := Expiring(es, a), Expiring(Surviving(es, a), b), Expiring(es, a + b);
            && |z| == |x| + |y| && z[..|x|] == x
            && forall i | 0 <= i < |y| :: z[|x| + i].id == y[i].id
  {
    SurvivorsOrdered(es, a);
    SurviveTwice(es, a, b);
    WithinSum(es, a, b);
    hide Within, Sooner, Ordered;
    var y := Expiring(Surviving(es, a), b);
    forall i | 0 <= i < |y| ensures es[Within(es, a) + i].id == y[i].id {
      SurvivorAt(es, a, i);
    }
  }

  /** Timeouts handled together are handled latest deadline first.  So they run in deadline order
      exactly when the announcement covers no two different deadlines. */
  lemma FiredInDeadlineOrderIff(es: seq<Entry>, t: nat)
    requires Ordered(es)
    ensures var f := Fired(es, t);
            (forall i, j | 0 <= i < j < |f| :: f[i].due <= f[j].due) <==>
            (forall i, j | 0 <= i < j < |Expiring(es, t)| :: es[i].due == es[j].due)
  {
    var f, n := Fired(es, t), |Expiring(es, t)|;
    if forall i, j | 0 <= i < j < |f| :: f[i].due <= f[j].due {
      forall i, j | 0 <= i < j < n ensures es[i].due == es[j].due {
        assert f[n - 1 - j] == es[j] && f[n - 1 - i] == es[i];
      }
    }
  }

  /** Two deadlines in one announcement: the timeout due at tick 2 is handled before the one due at
      tick 1. */
  lemma LaterHandledFirst()
    ensures var es := [Entry(0, 1), Entry(1, 2)];
            Ordered(es) && Fired(es, 2) == [Entry(1, 2), Entry(0, 1)]
  {
    var es := [Entry(0, 1), Entry(1, 2)];
    WithinUnique(es, 2, 2);
    assert es[..2] == es;
  }

  /** One tick at a time, everything that expires has the same deadline. */
  lemma TickByTick(es: seq<Entry>)
    requires Ordered(es) && Future(es)
    ensures forall i | 0 <= i < |Expiring(es, 1)| :: es[i].due == 1
  {
  }
}
