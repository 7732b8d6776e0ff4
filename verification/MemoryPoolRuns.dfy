/**
  What runs of the slot allocator do, told from the calls and the slots they return.
 */
module MemoryPoolRuns {
  import opened MemoryPools

  /** If the call is an allocation, it has a slot to return. */
  predicate CanReturn(p: Pool, call: Call) {
    call.Allocate? ==>
      && 8 <= p.slotSize <= BLOCK_SIZE
      && (p.freeList == 0 && p.curSlot >= p.lastSlot ==> Block(call.newBlock))
  }

  /** The slots that were returned and not given back since. */
  ghost function Held(calls: seq<Call>, pools: seq<Pool>, n: nat): set<nat>
    requires n <= |calls| <= |pools|
    requires forall i :: 0 <= i < n ==> CanReturn(pools[i], calls[i])
  {
    if n == 0 then {}
    else
      assert CanReturn(pools[n - 1], calls[n - 1]);
      match calls[n - 1]
      case Allocate(b) => Held(calls, pools, n - 1) + {Returned(pools[n - 1], b)}
      case Deallocate(a) => Held(calls, pools, n - 1) - {a}
      case Write(_, _, _) => Held(calls, pools, n - 1)
  }

  lemma StepLive(p: Pool, call: Call)
    requires Valid(p) && Legal(p, call)
    ensures Step(p, call).live ==
      match call
      case Allocate(b) => p.live + {Returned(p, b)}
      case Deallocate(a) => p.live - {a}
      case Write(_, _, _) => p.live
  {
    hide Linked, Apart, SlotsFrom, TotalYield, FirstSlot, BlocksOk, BumpOk;
    match call
    case Allocate(b) => AllocationIsFresh(p, b);
    case Deallocate(a) => if a == 0 { NullIsNotLive(p); }
    case Write(_, _, _) =>
  }

  lemma NullIsNotLive(p: Pool)
    requires Valid(p)
    ensures 0 !in p.live
  {
    hide Linked, Apart, SlotsFrom, TotalYield, FirstSlot;
    forall a | a in p.live ensures a > 0 {
      assert InBlock(p, a);
    }
  }

  lemma SizeOfRun(slotSize: nat, calls: seq<Call>, pools: seq<Pool>)
    requires IsRun(slotSize, calls, pools)
    ensures forall i :: 0 <= i < |calls| ==> CanReturn(pools[i], calls[i])
  {
    hide Valid, Step;
    forall i | 0 <= i < |calls| ensures CanReturn(pools[i], calls[i]) {
      RunKeeps(slotSize, calls, pools, i);
      assert Takes(pools[i], calls[i], pools[i + 1]);
    }
  }

  /** In every run: the live slots are those returned and not given back since. */
  lemma {:induction false} LiveAreHeld(slotSize: nat, calls: seq<Call>, pools: seq<Pool>, n: nat)
    requires IsRun(slotSize, calls, pools) && n <= |calls|
    ensures forall i :: 0 <= i < |calls| ==> CanReturn(pools[i], calls[i])
    ensures pools[n].live == Held(calls, pools, n)
  {
    hide Valid, Legal, Step, Returned;
    SizeOfRun(slotSize, calls, pools);
    if n > 0 {
      LiveAreHeld(slotSize, calls, pools, n - 1);
      RunKeeps(slotSize, calls, pools, n - 1);
      assert Takes(pools[n - 1], calls[n - 1], pools[n]);
      StepLive(pools[n - 1], calls[n - 1]);
    }
  }

  /** A slot that is given back is live no more and is the next one to be returned. */
  lemma FreedIsReused(p: Pool, a: nat, b: nat)
    requires Valid(p) && a in p.live
    ensures var q := Step(p, Deallocate(a));
      && Valid(q) && a !in q.live && Legal(q, Allocate(b)) && Returned(q, b) == a
      && Step(q, Allocate(b)).live == p.live && Step(q, Allocate(b)).free == p.free
  {
    hide Linked, Apart, SlotsFrom, TotalYield, FirstSlot, BlocksOk, BumpOk;
    NullIsNotLive(p);
    StepKeeps(p, Deallocate(a));
    var q := Step(p, Deallocate(a));
    assert Returned(q, b) == a;
    assert ([a] + p.free)[1..] == p.free;
  }

  /** A new block is linked in exactly when nothing is free and nothing is left to carve. */
  lemma BlockOnlyWhenFull(p: Pool, b: nat)
    requires Valid(p) && Legal(p, Allocate(b))
    ensures Step(p, Allocate(b)).blocks == (if p.free == [] && Uncarved(p) == 0 then [b] else []) + p.blocks
  {
    hide Linked, Apart, OwnersOk, SlotsFrom, TotalYield, FirstSlot;
    PopIfLinked(p);
    if p.curSlot >= p.lastSlot {
      NothingUncarved(p);
    } else if p.freeList == 0 {
      SlotRoom(p);
      UncarvedIsNatural(Carved(p));
      CarveKeeps(p);
    }
    assert [] + p.blocks == p.blocks;
  }

  lemma UncarvedIsNatural(p: Pool)
    requires p.slotSize > 0 && (p.blocks != [] ==> p.curSlot <= p.blocks[0] + BLOCK_SIZE)
    ensures Uncarved(p) >= 0
  {
  }

  /** In every run: what a client wrote into its slot is there until it writes again or
      gives the slot back. */
  lemma WrittenIsRead(slotSize: nat, calls: seq<Call>, pools: seq<Pool>, m: nat, n: nat)
    requires IsRun(slotSize, calls, pools) && m < n <= |calls| && calls[m].Write?
    requires forall i :: m < i < n ==> LeavesAlone(calls[i], calls[m].slot)
    ensures calls[m].address in pools[n].mem && pools[n].mem[calls[m].address] == calls[m].word
  {
    hide Valid, Linked, Apart, SlotsFrom, TotalYield, FirstSlot, LeavesAlone;
    RunKeeps(slotSize, calls, pools, m);
    RunKeeps(slotSize, calls, pools, m + 1);
    assert Takes(pools[m], calls[m], pools[m + 1]);
    ContentsSurvive(slotSize, calls, pools, calls[m].slot, m + 1, n);
  }
}
