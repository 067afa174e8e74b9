/** Single bits of a 32-bit word: what the multiqueue's bitmask needs. */
module Bits {

  /** The word with only bit `k` set. */
  function Bit(k: nat): bv32
    requires k < 32
  {
    if k == 0 then 1 else Bit(k - 1) << 1
  }

  function Or(m: bv32, a: bv32): bv32 {
    m | a
  }

  function AndNot(m: bv32, a: bv32): bv32 {
    m & !a
  }

  function And(m: bv32, a: bv32): bv32 {
    m & a
  }

  predicate Meets(m: bv32, a: bv32) {
    And(m, a) != 0
  }

  /** Bit `k` of `m` is set. */
  predicate Has(m: bv32, k: nat)
    requires k < 32
  {
    Meets(m, Bit(k))
  }

  // ------------------------------------------------------------- words

  lemma OrDistributes(m: bv32, a: bv32, b: bv32)
    ensures And(Or(m, b), a) == Or(And(m, a), And(b, a))
  {
  }

  lemma OrZero(a: bv32, b: bv32)
    ensures Or(a, b) != 0 <==> a != 0 || b != 0
  {
  }

  lemma OrMeets(m: bv32, a: bv32, b: bv32)
    ensures Meets(Or(m, b), a) <==> Meets(m, a) || Meets(b, a)
  {
    hide And, Or;
    OrDistributes(m, a, b);
    OrZero(And(m, a), And(b, a));
  }

  lemma MeetsSelf(a: bv32)
    ensures Meets(a, a) <==> a != 0
  {
  }

  lemma AndNotMeets(m: bv32, a: bv32, b: bv32)
    ensures !Meets(a, b) ==> (Meets(AndNot(m, b), a) <==> Meets(m, a))
    ensures !Meets(AndNot(m, b), b)
  {
  }

  lemma ShiftBoth(a: bv32, b: bv32)
    requires !Meets(a, b)
    ensures !Meets(a << 1, b << 1)
  {
  }

  lemma LowBit(a: bv32)
    ensures !Meets(1, a << 1)
  {
  }

  lemma Commutes(a: bv32, b: bv32)
    ensures Meets(a, b) == Meets(b, a)
  {
  }

  lemma SomeWord(m: bv32)
    requires m != 0
    ensures
      || Meets(m, 0x1) || Meets(m, 0x2) || Meets(m, 0x4) || Meets(m, 0x8)
      || Meets(m, 0x10) || Meets(m, 0x20) || Meets(m, 0x40) || Meets(m, 0x80)
      || Meets(m, 0x100) || Meets(m, 0x200) || Meets(m, 0x400) || Meets(m, 0x800)
      || Meets(m, 0x1000) || Meets(m, 0x2000) || Meets(m, 0x4000) || Meets(m, 0x8000)
      || Meets(m, 0x10000) || Meets(m, 0x20000) || Meets(m, 0x40000) || Meets(m, 0x80000)
      || Meets(m, 0x100000) || Meets(m, 0x200000) || Meets(m, 0x400000) || Meets(m, 0x800000)
      || Meets(m, 0x1000000) || Meets(m, 0x2000000) || Meets(m, 0x4000000) || Meets(m, 0x8000000)
      || Meets(m, 0x10000000) || Meets(m, 0x20000000) || Meets(m, 0x40000000) || Meets(m, 0x80000000)
  {
  }

  // -------------------------------------------------------------- bits

  lemma {:induction false} BitsBelow(i: nat, j: nat)
    requires i < j < 32
    ensures !Meets(Bit(i), Bit(j))
  {
    hide Meets;
    if i == 0 {
      LowBit(Bit(j - 1));
    } else {
      BitsBelow(i - 1, j - 1);
      ShiftBoth(Bit(i - 1), Bit(j - 1));
    }
  }

  lemma BitsApart(i: nat, j: nat)
    requires i < 32 && j < 32 && i != j
    ensures !Meets(Bit(i), Bit(j))
  {
    hide Meets, Bit;
    if i < j {
      BitsBelow(i, j);
    } else {
      BitsBelow(j, i);
      Commutes(Bit(i), Bit(j));
    }
  }

  lemma LowBits()
    ensures Bit(0) == 0x1 && Bit(1) == 0x2 && Bit(2) == 0x4 && Bit(3) == 0x8
    ensures Bit(4) == 0x10 && Bit(5) == 0x20 && Bit(6) == 0x40 && Bit(7) == 0x80
    ensures Bit(8) == 0x100 && Bit(9) == 0x200 && Bit(10) == 0x400 && Bit(11) == 0x800
    ensures Bit(12) == 0x1000 && Bit(13) == 0x2000 && Bit(14) == 0x4000 && Bit(15) == 0x8000
  {
  }

  lemma HighBits()
    ensures Bit(16) == 0x10000 && Bit(17) == 0x20000 && Bit(18) == 0x40000 && Bit(19) == 0x80000
    ensures Bit(20) == 0x100000 && Bit(21) == 0x200000 && Bit(22) == 0x400000 && Bit(23) == 0x800000
    ensures Bit(24) == 0x1000000 && Bit(25) == 0x2000000 && Bit(26) == 0x4000000 && Bit(27) == 0x8000000
    ensures Bit(28) == 0x10000000 && Bit(29) == 0x20000000 && Bit(30) == 0x40000000 && Bit(31) == 0x80000000
  {
    LowBits();
  }

  lemma Nonzero(k: nat)
    requires k < 32
    ensures Bit(k) != 0
  {
    LowBits();
    HighBits();
  }

  /** Setting a bit sets that bit and no other. */
  lemma SetBit(m: bv32, k: nat, j: nat)
    requires k < 32 && j < 32
    ensures Has(Or(m, Bit(k)), j) <==> j == k || Has(m, j)
  {
    hide Bit, Meets, Or;
    OrMeets(m, Bit(j), Bit(k));
    if j == k {
      Nonzero(k);
      MeetsSelf(Bit(k));
    } else {
      BitsApart(k, j);
    }
  }

  /** Clearing a bit clears that bit and no other. */
  lemma ClearBit(m: bv32, k: nat, j: nat)
    requires k < 32 && j < 32
    ensures Has(AndNot(m, Bit(k)), j) <==> j != k && Has(m, j)
  {
    hide Bit, Meets, AndNot;
    AndNotMeets(m, Bit(j), Bit(k));
    if j != k {
      BitsApart(j, k);
    }
  }

  lemma SomeBit(m: bv32)
    requires m != 0
    ensures exists k: nat :: k < 32 && Has(m, k)
  {
    hide Bit, Meets;
    LowBits();
    HighBits();
    SomeWord(m);
    assert
      || Has(m, 0) || Has(m, 1) || Has(m, 2) || Has(m, 3) || Has(m, 4) || Has(m, 5) || Has(m, 6) || Has(m, 7)
      || Has(m, 8) || Has(m, 9) || Has(m, 10) || Has(m, 11) || Has(m, 12) || Has(m, 13) || Has(m, 14) || Has(m, 15)
      || Has(m, 16) || Has(m, 17) || Has(m, 18) || Has(m, 19) || Has(m, 20) || Has(m, 21) || Has(m, 22) || Has(m, 23)
      || Has(m, 24) || Has(m, 25) || Has(m, 26) || Has(m, 27) || Has(m, 28) || Has(m, 29) || Has(m, 30) || Has(m, 31);
  }

  lemma NoBit(k: nat)
    requires k < 32
    ensures !Has(0, k)
  {
    hide Bit;
  }

  /** `__builtin_ctz`: how many bits lie below the lowest set one. */
  function TrailingZeros(m: bv32, from: nat := 0): (k: nat)
    requires exists i: nat :: from <= i < 32 && Has(m, i)
    ensures from <= k < 32 && Has(m, k)
    ensures forall i | from <= i < k :: !Has(m, i)
    decreases 32 - from
  {
    if Has(m, from) then from else TrailingZeros(m, from + 1)
  }
}
