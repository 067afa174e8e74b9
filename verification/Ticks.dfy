/** Conversion between milliseconds and clock ticks, and the narrowing of tick counts to 32 bits.
    `hw` is the hardware clock rate and `tps` the tick rate, both per second. */
module Ticks {
  import opened Basics

  const MSEC_PER_SEC := 1000

  /** `ceiling_fraction` on the non-negative values the kernel passes. */
  function CeilDiv(n: nat, d: nat): nat
    requires d >= 1
  {
    (n + (d - 1)) / d
  }

  /** The rates for which the build selects the simple 32-bit conversions. */
  predicate Simple(hw: nat, tps: nat)
    requires tps >= 1
  {
    hw % tps == 0 && MSEC_PER_SEC % tps == 0
  }

  /** A configuration in which the conversions do not divide by zero. */
  predicate Rates(hw: nat, tps: nat) {
    1 <= hw && 1 <= tps <= MSEC_PER_SEC * hw
  }

  function PreciseTicks(ms: nat, hw: nat, tps: nat): nat
    requires Rates(hw, tps)
  {
    AtLeastOne(hw, tps);
    CeilDiv(ms * hw, (MSEC_PER_SEC * hw) / tps)
  }

  function SimpleTicks(ms: nat, tps: nat): nat
    requires 1 <= tps <= MSEC_PER_SEC
  {
    CeilDiv(ms, MSEC_PER_SEC / tps)
  }

  function PreciseMs(ticks: nat, tps: nat): nat
    requires tps >= 1
  {
    ticks * MSEC_PER_SEC / tps
  }

  function SimpleMs(ticks: nat, tps: nat): nat
    requires tps >= 1
  {
    ticks * (MSEC_PER_SEC / tps)
  }

  /** `_ms_to_ticks`. */
  function ToTicks(ms: nat, hw: nat, tps: nat): nat
    requires Rates(hw, tps)
  {
    if Simple(hw, tps) then
      FactorAtMost(tps, MSEC_PER_SEC);
      SimpleTicks(ms, tps)
    else
      PreciseTicks(ms, hw, tps)
  }

  /** `__ticks_to_ms`. */
  function ToMs(ticks: nat, hw: nat, tps: nat): nat
    requires Rates(hw, tps)
  {
    if Simple(hw, tps) then SimpleMs(ticks, tps) else PreciseMs(ticks, tps)
  }

  /** One more than the largest delay, and the largest tick count, of 32 bits. */
  const LIMIT: nat := 0x8000_0000

  /** The cast to `s32_t`. */
  function Narrow(x: int): int {
    var m := x % (2 * LIMIT);
    if m < LIMIT then m else m - 2 * LIMIT
  }

  // ---------------------------------------------------------------- arithmetic

  lemma AtLeastOne(hw: nat, tps: nat)
    requires Rates(hw, tps)
    ensures (MSEC_PER_SEC * hw) / tps >= 1
  {
    DivAtLeast(MSEC_PER_SEC * hw, tps, 1);
  }

  lemma FactorAtMost(d: nat, n: nat)
    requires d >= 1 && n >= 1 && n % d == 0
    ensures d <= n && n == d * (n / d) && n / d >= 1
  {
    assert n == d * (n / d);
    MulCancel(d, 0, n / d);
    MulMono(d, 1, n / d);
  }

  lemma CeilBounds(n: nat, d: nat)
    requires d >= 1
    ensures var q := CeilDiv(n, d); n <= q * d < n + d
  {
    var m := n + (d - 1);
    assert m == d * (m / d) + m % d;
  }

  lemma CeilUnique(n: nat, d: nat, q: nat)
    requires d >= 1 && n <= q * d < n + d
    ensures CeilDiv(n, d) == q
  {
    CeilBounds(n, d);
    var r := CeilDiv(n, d);
    assert d * (r + 1) == r * d + d && d * (q + 1) == q * d + d;
    MulCancel(d, r, q + 1);
    MulCancel(d, q, r + 1);
  }

  lemma DivAtLeast(n: nat, d: nat, q: nat)
    requires d >= 1 && q * d <= n
    ensures n / d >= q
  {
    assert n < d * (n / d) + d == d * (n / d + 1);
    MulCancel(d, q, n / d + 1);
  }

  // ---------------------------------------------------------------- what the conversions promise

  /** The tick count covers the delay at the precise rates. */
  lemma PreciseCovers(ms: nat, hw: nat, tps: nat)
    requires Rates(hw, tps)
    ensures ms * tps <= PreciseTicks(ms, hw, tps) * MSEC_PER_SEC
  {
    AtLeastOne(hw, tps);
    var n := MSEC_PER_SEC * hw;
    var d, t := n / tps, PreciseTicks(ms, hw, tps);
    CeilBounds(ms * hw, d);
    assert d * tps <= n by {
      assert n == tps * d + n % tps;
    }
    calc {
      hw * (ms * tps);
      (ms * hw) * tps;
    <= { MulMono(tps, ms * hw, t * d); }
      (t * d) * tps;
      t * (d * tps);
    <= { MulMono(t, d * tps, n); }
      t * n;
      hw * (t * MSEC_PER_SEC);
    }
    assert hw * (t * MSEC_PER_SEC + 1) == hw * (t * MSEC_PER_SEC) + hw;
    MulCancel(hw, ms * tps, t * MSEC_PER_SEC + 1);
  }

  /** Where the simple conversions are selected they agree with the precise ones, and no delay of 32
      bits is too long for the result. */
  lemma SimpleAgrees(ms: nat, ticks: nat, hw: nat, tps: nat)
    requires Rates(hw, tps) && Simple(hw, tps)
    ensures tps <= MSEC_PER_SEC
    ensures SimpleTicks(ms, tps) == PreciseTicks(ms, hw, tps)
    ensures SimpleMs(ticks, tps) == PreciseMs(ticks, tps)
    ensures ms < LIMIT ==> Narrow(SimpleTicks(ms, tps)) == SimpleTicks(ms, tps) < LIMIT
  {
    FactorAtMost(tps, MSEC_PER_SEC);
    var p, q := MSEC_PER_SEC / tps, SimpleTicks(ms, tps);
    ExactQuotient(p * hw, tps, MSEC_PER_SEC * hw);
    CeilBounds(ms, p);
    ScaleBounds(ms, q, p, hw);
    AtLeastOne(hw, tps);
    CeilUnique(ms * hw, p * hw, q);
    ExactQuotient(ticks * p, tps, ticks * MSEC_PER_SEC);
    CeilAtMost(ms, p);
    NarrowSmall(q);
  }

  lemma CeilAtMost(n: nat, d: nat)
    requires d >= 1
    ensures CeilDiv(n, d) <= n
  {
    CeilBounds(n, d);
    MulMono(n, 1, d);
    assert d * (n + 1) == n * d + d;
    MulCancel(d, CeilDiv(n, d), n + 1);
  }

  lemma NarrowSmall(x: int)
    ensures 0 <= x < LIMIT ==> Narrow(x) == x
    ensures x >= LIMIT ==> Narrow(x) < 0 || Narrow(x) + 2 * LIMIT <= x
  {
  }

  lemma ExactQuotient(q: nat, d: nat, n: nat)
    requires d >= 1 && n == q * d
    ensures n / d == q
  {
    DivAtLeast(n, d, q);
    assert d * (n / d) <= n < d * q + d == d * (q + 1);
    MulCancel(d, n / d, q + 1);
  }

  lemma ScaleBounds(n: nat, q: nat, d: nat, c: nat)
    requires c >= 1 && n <= q * d < n + d
    ensures n * c <= q * (d * c) < n * c + d * c
  {
    MulMono(c, n, q * d);
    MulMono(c, q * d + 1, n + d);
    assert c * (q * d) == q * (d * c);
    assert c * (q * d + 1) == q * (d * c) + c;
    assert c * (n + d) == n * c + d * c;
  }

  /** The tick count lasts at least as long as the delay. */
  ghost predicate Covers(ticks: int, ms: nat, tps: nat) {
    0 <= ticks && ms * tps <= ticks * MSEC_PER_SEC
  }

  /** Converting a delay to ticks and back never shortens it. */
  lemma NeverShortens(ms: nat, hw: nat, tps: nat)
    requires Rates(hw, tps)
    ensures ToMs(ToTicks(ms, hw, tps), hw, tps) >= ms
    ensures Covers(ToTicks(ms, hw, tps), ms, tps)
  {
    var t := PreciseTicks(ms, hw, tps);
    PreciseCovers(ms, hw, tps);
    DivAtLeast(t * MSEC_PER_SEC, tps, ms);
    if Simple(hw, tps) {
      SimpleAgrees(ms, t, hw, tps);
    }
  }

  /** Ticks come out as the whole milliseconds they last. */
  lemma MsExact(ticks: nat, hw: nat, tps: nat)
    requires Rates(hw, tps)
    ensures ToMs(ticks, hw, tps) * tps <= ticks * MSEC_PER_SEC < (ToMs(ticks, hw, tps) + 1) * tps
  {
    if Simple(hw, tps) {
      SimpleAgrees(0, ticks, hw, tps);
    }
    var n := ticks * MSEC_PER_SEC;
    assert n == tps * (n / tps) + n % tps;
  }

  /** At two ticks per millisecond, half the range of delays no longer fits. */
  lemma LongDelayCutOff()
    ensures ToTicks(0x4000_0000, 1_000_000, 2_000) == LIMIT
    ensures Narrow(LIMIT) < 0 && !Covers(Narrow(LIMIT), 0x4000_0000, 2_000)
  {
    assert !Simple(1_000_000, 2_000) && (MSEC_PER_SEC * 1_000_000) / 2_000 == 500_000;
    assert 0x4000_0000 * 1_000_000 + (500_000 - 1) == 500_000 * LIMIT + 499_999;
    assert Narrow(LIMIT) < 0;
    hide Narrow;
  }

  /** As the code returns it, in 32 bits, the tick count covers a delay exactly when it fits: a count
      cut off is negative or too small. */
  lemma NarrowCoversIff(ms: nat, hw: nat, tps: nat)
    requires Rates(hw, tps) && ms < LIMIT
    ensures Covers(Narrow(ToTicks(ms, hw, tps)), ms, tps) <==> ToTicks(ms, hw, tps) < LIMIT
    ensures Simple(hw, tps) ==> ToTicks(ms, hw, tps) < LIMIT
  {
    var x := ToTicks(ms, hw, tps);
    NarrowSmall(x);
    NeverShortens(ms, hw, tps);
    if Simple(hw, tps) {
      SimpleAgrees(ms, x, hw, tps);
    } else if x >= LIMIT && Covers(Narrow(x), ms, tps) {
      AtMostDoubled(ms, hw, tps, Narrow(x));
    }
  }

  /** The rounded divisor does not even double a delay: no tick count that covers it is as small as
      half the precise one. */
  lemma AtMostDoubled(ms: nat, hw: nat, tps: nat, t: int)
    requires Rates(hw, tps) && Covers(t, ms, tps)
    ensures PreciseTicks(ms, hw, tps) < 2 * (t + 1)
  {
    AtLeastOne(hw, tps);
    var n := MSEC_PER_SEC * hw;
    var d := n / tps;
    assert n < tps * d + tps == tps * (d + 1);
    CyclesBound(ms, hw, tps, t, d);
    CeilBounds(ms * hw, d);
    Halved(PreciseTicks(ms, hw, tps), t, d, ms * hw);
  }

  lemma CyclesBound(ms: nat, hw: nat, tps: nat, t: nat, d: nat)
    requires tps >= 1 && ms * tps <= t * MSEC_PER_SEC && MSEC_PER_SEC * hw <= tps * (d + 1)
    ensures ms * hw <= t * (d + 1)
  {
    calc {
      tps * (ms * hw);
      hw * (ms * tps);
    <= { MulMono(hw, ms * tps, t * MSEC_PER_SEC); }
      hw * (t * MSEC_PER_SEC);
      t * (MSEC_PER_SEC * hw);
    <= { MulMono(t, MSEC_PER_SEC * hw, tps * (d + 1)); }
      t * (tps * (d + 1));
      { Rotate3(t, tps, d + 1); }
      tps * (t * (d + 1));
    }
    OneMore(tps, t * (d + 1));
    MulCancel(tps, ms * hw, t * (d + 1) + 1);
  }

  lemma Rotate3(a: int, b: int, c: int)
    ensures a * (b * c) == b * (a * c)
  {
  }

  lemma OneMore(a: nat, b: int)
    ensures a * (b + 1) == a * b + a
  {
  }

  lemma Halved(x: nat, t: nat, d: nat, y: nat)
    requires d >= 1 && x * d < y + d && y <= t * (d + 1)
    ensures x < 2 * (t + 1)
  {
    OneMore(d + 1, t);
    MulMono(t + 1, d + 1, 2 * d);
    Rotate3(t + 1, 2, d);
    assert d * x < d * (2 * (t + 1)) by {
      assert (t + 1) * (2 * d) == 2 * ((t + 1) * d) == d * (2 * (t + 1));
    }
    MulCancel(d, x, 2 * (t + 1));
  }

  /** With a clock rate of 32 bits the products fit into 64. */
  lemma ProductsFit(ms: nat, hw: nat, ticks: nat)
    requires ms < LIMIT && hw < LIMIT && ticks < LIMIT
    ensures ms * hw < LIMIT * LIMIT && MSEC_PER_SEC * hw < LIMIT * LIMIT && ticks * MSEC_PER_SEC < LIMIT * LIMIT
  {
    MulMono(ms, hw, LIMIT - 1);
    MulMono(LIMIT - 1, ms, LIMIT - 1);
  }

  /** At the simple rates the delay grows by less than one tick. */
  lemma SimpleOvershoot(ms: nat, hw: nat, tps: nat)
    requires Rates(hw, tps) && Simple(hw, tps)
    ensures ToMs(ToTicks(ms, hw, tps), hw, tps) < ms + MSEC_PER_SEC / tps
  {
    FactorAtMost(tps, MSEC_PER_SEC);
    CeilBounds(ms, MSEC_PER_SEC / tps);
  }

  /** The exact tick count of a delay: the least number of ticks that lasts as long. */
  ghost predicate Tight(ms: nat, hw: nat, tps: nat)
    requires Rates(hw, tps)
  {
    PreciseTicks(ms, hw, tps) * MSEC_PER_SEC < ms * tps + MSEC_PER_SEC
  }

  /** The precise conversion is tight for every delay of 32 bits exactly when a tick is a whole number
      of thousandths of a hardware cycle; otherwise the rounded divisor already stretches one second. */
  lemma PreciseTightIff(hw: nat, tps: nat)
    requires Rates(hw, tps)
    ensures (forall ms: nat | ms < LIMIT :: Tight(ms, hw, tps)) <==> (MSEC_PER_SEC * hw) % tps == 0
  {
    if (MSEC_PER_SEC * hw) % tps == 0 {
      forall ms: nat | ms < LIMIT ensures Tight(ms, hw, tps) {
        TightWhenExact(ms, hw, tps);
      }
    } else {
      OneSecondGrows(hw, tps);
    }
  }

  lemma TightWhenExact(ms: nat, hw: nat, tps: nat)
    requires Rates(hw, tps) && (MSEC_PER_SEC * hw) % tps == 0
    ensures Tight(ms, hw, tps)
  {
    var n := MSEC_PER_SEC * hw;
    var d, t := n / tps, PreciseTicks(ms, hw, tps);
    AtLeastOne(hw, tps);
    assert n == tps * d;
    CeilBounds(ms * hw, d);
    calc {
      hw * (t * MSEC_PER_SEC);
      t * n;
      { assert t * (tps * d) == tps * (t * d); }
      tps * (t * d);
    <= { MulMono(tps, t * d, ms * hw + d - 1); }
      tps * (ms * hw + d - 1);
      { assert tps * (ms * hw + d - 1) == tps * (ms * hw) + tps * d - tps; }
      tps * (ms * hw) + n - tps;
      { assert tps * (ms * hw) == hw * (ms * tps); }
      hw * (ms * tps) + n - tps;
    <
      hw * (ms * tps) + n;
      hw * (ms * tps + MSEC_PER_SEC);
    }
    MulCancel(hw, t * MSEC_PER_SEC, ms * tps + MSEC_PER_SEC);
  }

  /** One second comes out as more ticks than a second has. */
  lemma OneSecondGrows(hw: nat, tps: nat)
    requires Rates(hw, tps) && (MSEC_PER_SEC * hw) % tps != 0
    ensures PreciseTicks(MSEC_PER_SEC, hw, tps) > tps && !Tight(MSEC_PER_SEC, hw, tps)
  {
    AtLeastOne(hw, tps);
    var n := MSEC_PER_SEC * hw;
    var d := n / tps;
    assert n == tps * d + n % tps;
    CeilBounds(n, d);
    MulCancel(d, tps, PreciseTicks(MSEC_PER_SEC, hw, tps));
  }
}
