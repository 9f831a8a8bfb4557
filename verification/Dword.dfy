/** The bits of a DWORD, numbered from the least significant one. */
module Dword {

  // ---------------------------------------------------------------- masks

  predicate Has(x: bv32, m: bv32) { x & m != 0 }

  function Set(x: bv32, m: bv32): bv32 { x | m }

  function Clear(x: bv32, m: bv32): bv32 { x & !m }

  // ---------------------------------------------------------------- bits

  predicate Low(x: bv32) { x & 1 == 1 }

  function Half(x: bv32): bv32 { x >> 1 }

  predicate Bit(x: bv32, k: nat)
    decreases k
  {
    if k == 0 then Low(x) else Bit(Half(x), k - 1)
  }

  function Bits(x: bv32): set<nat> { set k: nat | k < 32 && Bit(x, k) }

  predicate IsAnd(x: bv32, y: bv32, z: bv32) { z == x & y }

  lemma ShiftAnd(x: bv32, y: bv32, z: bv32)
    requires IsAnd(x, y, z)
    ensures IsAnd(Half(x), Half(y), Half(z))
  {}

  lemma {:induction false} AndBit(x: bv32, y: bv32, z: bv32, k: nat)
    requires IsAnd(x, y, z)
    ensures Bit(z, k) <==> Bit(x, k) && Bit(y, k)
    decreases k
  {
    if k > 0 {
      ShiftAnd(x, y, z);
      AndBit(Half(x), Half(y), Half(z), k - 1);
    }
  }

  predicate IsOr(x: bv32, y: bv32, z: bv32) { z == x | y }

  lemma ShiftOr(x: bv32, y: bv32, z: bv32)
    requires IsOr(x, y, z)
    ensures IsOr(Half(x), Half(y), Half(z))
  {}

  lemma {:induction false} OrBit(x: bv32, y: bv32, z: bv32, k: nat)
    requires IsOr(x, y, z)
    ensures Bit(z, k) <==> Bit(x, k) || Bit(y, k)
    decreases k
  {
    if k > 0 {
      ShiftOr(x, y, z);
      OrBit(Half(x), Half(y), Half(z), k - 1);
    }
  }

  predicate IsButNot(x: bv32, y: bv32, z: bv32) { z == x & !y }

  lemma ShiftButNot(x: bv32, y: bv32, z: bv32)
    requires IsButNot(x, y, z)
    ensures IsButNot(Half(x), Half(y), Half(z))
  {}

  lemma {:induction false} ButNotBit(x: bv32, y: bv32, z: bv32, k: nat)
    requires IsButNot(x, y, z)
    ensures Bit(z, k) <==> Bit(x, k) && !Bit(y, k)
    decreases k
  {
    if k > 0 {
      ShiftButNot(x, y, z);
      ButNotBit(Half(x), Half(y), Half(z), k - 1);
    }
  }

  /** The bitwise operators are the set operators. */
  function And(x: bv32, y: bv32): (z: bv32)
    ensures Bits(z) == Bits(x) * Bits(y)
  {
    var z := x & y;
    assert forall k: nat :: Bit(z, k) <==> Bit(x, k) && Bit(y, k) by {
      forall k: nat ensures Bit(z, k) <==> Bit(x, k) && Bit(y, k) { AndBit(x, y, z, k); }
    }
    z
  }

  function Or(x: bv32, y: bv32): (z: bv32)
    ensures Bits(z) == Bits(x) + Bits(y)
  {
    var z := x | y;
    assert forall k: nat :: Bit(z, k) <==> Bit(x, k) || Bit(y, k) by {
      forall k: nat ensures Bit(z, k) <==> Bit(x, k) || Bit(y, k) { OrBit(x, y, z, k); }
    }
    z
  }

  function ButNot(x: bv32, y: bv32): (z: bv32)
    ensures Bits(z) == Bits(x) - Bits(y)
  {
    var z := x & !y;
    assert forall k: nat :: Bit(z, k) <==> Bit(x, k) && !Bit(y, k) by {
      forall k: nat ensures Bit(z, k) <==> Bit(x, k) && !Bit(y, k) { ButNotBit(x, y, z, k); }
    }
    z
  }

  /** `x` has no bit set from bit `n` on. */
  predicate Fits(x: bv32, n: nat)
    decreases n
  {
    if n == 0 then x == 0 else Fits(Half(x), n - 1)
  }

  lemma {:induction false} FitsBit(x: bv32, n: nat, k: nat)
    requires Fits(x, n) && Bit(x, k)
    ensures k < n
    decreases k
  {
    if n == 0 {
      assert Half(x) == 0 && Fits(Half(x), 0);
      if k > 0 { FitsBit(Half(x), 0, k - 1); }
    } else if k > 0 {
      FitsBit(Half(x), n - 1, k - 1);
    }
  }

  lemma {:induction false} SomeBit(x: bv32, n: nat) returns (k: nat)
    requires Fits(x, n) && x != 0
    ensures k < n && Bit(x, k)
    decreases n
  {
    if Low(x) {
      k := 0;
    } else {
      assert Half(x) != 0;
      k := SomeBit(Half(x), n - 1);
      k := k + 1;
    }
  }

  /** `x` is bits 0 to `n` - 1. */
  predicate Ones(x: bv32, n: nat)
    decreases n
  {
    if n == 0 then x == 0 else Low(x) && Ones(Half(x), n - 1)
  }

  lemma Ones16()
    ensures Ones(0xFF, 8) && Ones(0xFFFF, 16)
  {
    assert Ones(0, 0) && Ones(1, 1) && Ones(3, 2) && Ones(7, 3) && Ones(0xF, 4);
    assert Ones(0x1F, 5) && Ones(0x3F, 6) && Ones(0x7F, 7) && Ones(0xFF, 8);
    assert Ones(0x1FF, 9) && Ones(0x3FF, 10) && Ones(0x7FF, 11) && Ones(0xFFF, 12);
    assert Ones(0x1FFF, 13) && Ones(0x3FFF, 14) && Ones(0x7FFF, 15) && Ones(0xFFFF, 16);
  }

  lemma Ones32()
    ensures Ones(0xFFFF_FFFF, 32)
  {
    Ones16();
    assert Ones(0x1FFFF, 17) && Ones(0x3FFFF, 18) && Ones(0x7FFFF, 19) && Ones(0xFFFFF, 20);
    assert Ones(0x1FFFFF, 21) && Ones(0x3FFFFF, 22) && Ones(0x7FFFFF, 23) && Ones(0xFFFFFF, 24);
    assert Ones(0x1FFFFFF, 25) && Ones(0x3FFFFFF, 26) && Ones(0x7FFFFFF, 27) && Ones(0xFFFFFFF, 28);
    assert Ones(0x1FFFFFFF, 29) && Ones(0x3FFFFFFF, 30) && Ones(0x7FFFFFFF, 31);
  }

  lemma {:induction false} OnesFit(x: bv32, m: bv32, n: nat)
    requires Ones(m, n) && IsAnd(x, m, x)
    ensures Fits(x, n)
    decreases n
  {
    if n > 0 {
      ShiftAnd(x, m, x);
      OnesFit(Half(x), Half(m), n - 1);
    }
  }

  lemma AllFit(x: bv32)
    ensures Fits(x, 32)
  {
    Ones32();
    assert IsAnd(x, 0xFFFF_FFFF, x);
    OnesFit(x, 0xFFFF_FFFF, 32);
  }

  /** A DWORD is 0 if and only if no bit is set. */
  lemma ZeroBits(x: bv32)
    ensures x == 0 <==> Bits(x) == {}
  {
    AllFit(x);
    if x != 0 {
      var k := SomeBit(x, 32);
      assert k in Bits(x);
    } else {
      assert Fits(0, 0);
      forall k: nat ensures !Bit(0, k) { if Bit(0, k) { FitsBit(0, 0, k); } }
    }
  }

  /** A DWORD is its bits. */
  lemma SameBits(x: bv32, y: bv32)
    requires Bits(x) == Bits(y)
    ensures x == y
  {
    AllFit(x);
    AllFit(y);
    forall k: nat | k < 32 ensures Bit(x, k) <==> Bit(y, k) { assert k in Bits(x) <==> k in Bits(y); }
    SameLowBits(x, y, 32);
  }

  lemma {:induction false} SameLowBits(x: bv32, y: bv32, n: nat)
    requires Fits(x, n) && Fits(y, n) && forall k: nat | k < n :: Bit(x, k) <==> Bit(y, k)
    ensures x == y
    decreases n
  {
    if n > 0 {
      assert Bit(x, 0) <==> Bit(y, 0);
      forall k: nat | k < n - 1 ensures Bit(Half(x), k) <==> Bit(Half(y), k) { assert Bit(x, k + 1) <==> Bit(y, k + 1); }
      SameLowBits(Half(x), Half(y), n - 1);
      SameHalves(x, y);
    }
  }

  lemma SameHalves(x: bv32, y: bv32)
    requires Half(x) == Half(y) && (Low(x) <==> Low(y))
    ensures x == y
  {}

  /** `m` is bit `d` alone. */
  predicate Only(m: bv32, d: nat)
    decreases d
  {
    if d == 0 then m == 1 else !Low(m) && Only(Half(m), d - 1)
  }

  lemma {:induction false} OnlyBit(m: bv32, d: nat, k: nat)
    requires Only(m, d)
    ensures Bit(m, k) <==> k == d
    decreases k
  {
    if d == 0 {
      assert Fits(m, 1);
      if Bit(m, k) { FitsBit(m, 1, k); }
    } else if k > 0 {
      OnlyBit(Half(m), d - 1, k - 1);
    }
  }

  lemma OnlyBits(m: bv32, d: nat)
    requires Only(m, d) && d < 32
    ensures Bits(m) == {d}
  {
    forall k: nat ensures Bit(m, k) <==> k == d { OnlyBit(m, d, k); }
  }

  /** Bit `d` alone. */
  function OneBit(d: nat): (m: bv32)
    requires d < 8
    ensures Bits(m) == {d}
  {
    OnlyBits(1, 0); OnlyBits(2, 1); OnlyBits(4, 2); OnlyBits(8, 3);
    OnlyBits(0x10, 4); OnlyBits(0x20, 5); OnlyBits(0x40, 6); OnlyBits(0x80, 7);
    1 << d
  }

  lemma {:induction false} OnesBit(x: bv32, n: nat, k: nat)
    requires Ones(x, n)
    ensures Bit(x, k) <==> k < n
    decreases k
  {
    if n == 0 {
      assert Fits(x, 0);
      if Bit(x, k) { FitsBit(x, 0, k); }
    } else if k > 0 {
      OnesBit(Half(x), n - 1, k - 1);
    }
  }

  lemma LowOnes()
    ensures forall k: nat :: Bit(0xFF, k) <==> k < 8
    ensures forall k: nat :: Bit(0xFFFF, k) <==> k < 16
  {
    Ones16();
    forall k: nat
      ensures Bit(0xFF, k) <==> k < 8
      ensures Bit(0xFFFF, k) <==> k < 16
    {
      OnesBit(0xFF, 8, k);
      OnesBit(0xFFFF, 16, k);
    }
  }
}
