/**
  Which pools hand out slots that are aligned to the slot size: those whose size divides
  the address space, that is, the powers of two.
 */
module MemoryPoolAlignment {
  import opened Arithmetic
  import opened MemoryPools

  predicate Aligned(a: nat, slotSize: nat)
    requires 0 < slotSize
  {
    a % slotSize == 0
  }

  lemma NextIsAligned(a: nat, slotSize: nat)
    requires 0 < slotSize && Aligned(a, slotSize)
    ensures Aligned(a + slotSize, slotSize)
  {
    ModStep(a, slotSize);
  }

  lemma FirstIsAlignedIff(block: nat, slotSize: nat)
    requires SizeOfAPool(slotSize) && Block(block) && slotSize < block + 8
    ensures Aligned(FirstSlot(block, slotSize), slotSize) <==> ADDRESS_SPACE % slotSize == 0
  {
    PaddingAlignsIff(block + 8, slotSize);
  }

  lemma LowBlockIsAligned(block: nat, slotSize: nat)
    requires SizeOfAPool(slotSize) && Block(block) && ADDRESS_SPACE % slotSize == 0
    ensures Aligned(FirstSlot(block, slotSize), slotSize)
  {
    PaddingAlignsIff(block + 8, slotSize);
  }

  /** Every slot carved so far, and the next one to be carved. */
  ghost predicate AllAligned(p: Pool)
    requires 0 < p.slotSize
  {
    && (forall a :: a in p.home ==> Aligned(a, p.slotSize))
    && (p.blocks != [] ==> Aligned(p.curSlot, p.slotSize))
  }

  lemma CarveKeepsAligned(p: Pool)
    requires 0 < p.slotSize && AllAligned(p) && p.blocks != []
    ensures AllAligned(Carved(p))
  {
    hide Aligned;
    NextIsAligned(p.curSlot, p.slotSize);
  }

  lemma StepKeepsAligned(p: Pool, call: Call)
    requires Valid(p) && Legal(p, call) && SizeOfAPool(p.slotSize) && ADDRESS_SPACE % p.slotSize == 0
    requires AllAligned(p)
    ensures AllAligned(Step(p, call))
  {
    hide Aligned, Valid, FirstSlot;
    PopIfLinked(p);
    if call.Allocate? && p.freeList == 0 {
      var b := call.newBlock;
      if p.curSlot >= p.lastSlot {
        LowBlockIsAligned(b, p.slotSize);
        CarveKeepsAligned(WithBlock(p, b));
      } else {
        CarveKeepsAligned(p);
      }
    }
  }

  lemma {:induction false} RunKeepsAligned(slotSize: nat, calls: seq<Call>, pools: seq<Pool>, n: nat)
    requires IsRun(slotSize, calls, pools) && n <= |calls| && ADDRESS_SPACE % slotSize == 0
    ensures pools[n].slotSize == slotSize && AllAligned(pools[n])
  {
    hide Valid, Legal, Step, Aligned;
    RunKeeps(slotSize, calls, pools, n);
    if n > 0 {
      RunKeeps(slotSize, calls, pools, n - 1);
      RunKeepsAligned(slotSize, calls, pools, n - 1);
      assert Takes(pools[n - 1], calls[n - 1], pools[n]);
      StepKeepsAligned(pools[n - 1], calls[n - 1]);
    }
  }

  /** No slot that a client holds is off a multiple of the slot size. */
  ghost predicate LiveAligned(p: Pool, slotSize: nat)
    requires 0 < slotSize
  {
    forall a :: a in p.live ==> Aligned(a, slotSize)
  }

  lemma LiveAreCarved(p: Pool)
    requires Valid(p)
    ensures forall a :: a in p.live ==> a in p.home
  {
  }

  /** The first slot of a block at 4096. */
  lemma FirstAllocation(slotSize: nat) returns (q: Pool)
    requires SizeOfAPool(slotSize)
    ensures IsRun(slotSize, [Allocate(4096)], [NewPool(slotSize), q])
    ensures FirstSlot(4096, slotSize) in q.live
  {
    var calls: seq<Call>, pools := [], [NewPool(slotSize)];
    NewIsValid(slotSize);
    assert IsRun(slotSize, calls, pools);
    q := LegalCallExtends(slotSize, calls, pools, Allocate(4096));
    assert calls + [Allocate(4096)] == [Allocate(4096)] && pools + [q] == [NewPool(slotSize), q];
    AllocationIsFresh(NewPool(slotSize), 4096);
  }

  /** Every live slot of every run is aligned to the slot size if, and only if, that divides
      the address space. */
  lemma SlotsAlignedIff(slotSize: nat)
    requires SizeOfAPool(slotSize)
    ensures (forall calls, pools, n: nat ::
               IsRun(slotSize, calls, pools) && n <= |calls| ==> LiveAligned(pools[n], slotSize))
       <==> ADDRESS_SPACE % slotSize == 0
  {
    hide Aligned, FirstSlot, Valid;
    if ADDRESS_SPACE % slotSize == 0 {
      forall calls, pools, n: nat | IsRun(slotSize, calls, pools) && n <= |calls|
        ensures LiveAligned(pools[n], slotSize)
      {
        RunKeeps(slotSize, calls, pools, n);
        RunKeepsAligned(slotSize, calls, pools, n);
        LiveAreCarved(pools[n]);
      }
    } else {
      var q := FirstAllocation(slotSize);
      FirstIsAlignedIff(4096, slotSize);
      var pools := [NewPool(slotSize), q];
      assert !LiveAligned(pools[1], slotSize);
    }
  }

  // ---- the divisors of the address space ----

  function Pow2(n: nat): nat {
    if n == 0 then 1 else 2 * Pow2(n - 1)
  }

  predicate IsPowerOfTwo(d: nat) {
    d == 1 || (d > 1 && d % 2 == 0 && IsPowerOfTwo(d / 2))
  }

  lemma Doubled(h: nat, q: nat)
    ensures (h + h) * q == h * q + h * q
    ensures q * (h + h) == q * h + q * h
  {
  }

  /** The product of two odd numbers is odd. */
  lemma OddByOdd(d: nat, q: nat)
    ensures d % 2 == 1 && q % 2 == 1 ==> d * q % 2 == 1
  {
    var h, r := d / 2, q / 2;
    if d == h + h + 1 && q == r + r + 1 {
      Expanded(h, r);
      assert d * q == 2 * (d * r + h) + 1;
    }
  }

  lemma Expanded(h: nat, r: nat)
    ensures (h + h + 1) * (r + r + 1) == (h + h + 1) * r + (h + h + 1) * r + h + h + 1
  {
  }

  /** Halving the divisor, or the quotient if that is odd, leaves half the power. */
  lemma HalfDivides(x: nat, d: nat, q: nat)
    requires x + x == d * q
    ensures d % 2 == 0 ==> x == d / 2 * q
    ensures d % 2 == 1 ==> x == d * (q / 2)
  {
    OddByOdd(d, q);
    if d % 2 == 0 {
      Doubled(d / 2, q);
    } else {
      assert q == q / 2 + q / 2;
      Doubled(q / 2, d);
    }
  }

  lemma {:induction false} DivisorsArePowers(d: nat, n: nat, q: nat)
    requires Pow2(n) == d * q && d > 0
    ensures IsPowerOfTwo(d)
    decreases n
  {
    if n == 0 {
      if d > 1 { AtLeastOneFactor(d, q); }
    } else {
      HalfDivides(Pow2(n - 1), d, q);
      if d % 2 == 0 {
        DivisorsArePowers(d / 2, n - 1, q);
      } else {
        DivisorsArePowers(d, n - 1, q / 2);
      }
    }
  }

  lemma AddressSpaceIsPower()
    ensures ADDRESS_SPACE == Pow2(64)
  {
    assert Pow2(8) == 256;
    assert Pow2(16) == 256 * Pow2(8);
    assert Pow2(24) == 256 * Pow2(16);
    assert Pow2(32) == 256 * Pow2(24);
    assert Pow2(40) == 256 * Pow2(32);
    assert Pow2(48) == 256 * Pow2(40);
    assert Pow2(56) == 256 * Pow2(48);
    assert Pow2(64) == 256 * Pow2(56);
  }

  lemma {:induction false} SmallPowers(d: nat, n: nat)
    requires IsPowerOfTwo(d) && d <= Pow2(n)
    ensures exists m: nat :: m <= n && d == Pow2(m)
  {
    if d == 1 {
      assert d == Pow2(0);
    } else {
      SmallPowers(d / 2, n - 1);
      var m: nat :| m <= n - 1 && d / 2 == Pow2(m);
      assert d == Pow2(m + 1);
    }
  }

  lemma PowersUpTo512(m: nat)
    requires m <= 9 && Pow2(m) >= 8
    ensures Pow2(m) in {8, 16, 32, 64, 128, 256, 512}
  {
    assert Pow2(0) == 1 && Pow2(1) == 2 && Pow2(2) == 4 && Pow2(3) == 8 && Pow2(4) == 16;
    assert Pow2(5) == 32 && Pow2(6) == 64 && Pow2(7) == 128 && Pow2(8) == 256 && Pow2(9) == 512;
  }

  /** Of the 64 slot sizes, the seven powers of two divide the address space, and no other. */
  lemma DividesIff(slotSize: nat)
    requires SizeOfAPool(slotSize)
    ensures ADDRESS_SPACE % slotSize == 0 <==> slotSize in {8, 16, 32, 64, 128, 256, 512}
  {
    if slotSize in {8, 16, 32, 64, 128, 256, 512} {
      PowersOfTwoDivide(slotSize);
    } else if ADDRESS_SPACE % slotSize == 0 {
      AddressSpaceIsPower();
      DivisorsArePowers(slotSize, 64, ADDRESS_SPACE / slotSize);
      assert Pow2(9) == 512;
      SmallPowers(slotSize, 9);
      var m: nat :| m <= 9 && slotSize == Pow2(m);
      PowersUpTo512(m);
    }
  }
}
