/**
  The slot allocator: a bump pointer through 4096-byte blocks plus a free list whose
  links live inside the freed slots.  Memory is a map from word addresses to words, so
  a link and a client's data compete for the same cells.
 */
module MemoryPools {
  import opened Arithmetic
  import opened Sequences

  const ADDRESS_SPACE := 0x1_0000_0000_0000_0000
  const MEMORY_POOL_NUM := 64
  const SLOT_BASE_SIZE := 8
  const MAX_SLOT_SIZE := 512

  // ---- size classes ----

  /** The pool that serves requests of `size` bytes. */
  function PoolIndex(size: nat): int {
    (size + 7) / SLOT_BASE_SIZE - 1
  }

  function SlotSizeOf(index: nat): nat {
    (index + 1) * SLOT_BASE_SIZE
  }

  /** Every request up to MAX_SLOT_SIZE has a pool, whose slots hold it with less than
      one base size to spare; no smaller class would do. */
  lemma SizeClassFits(size: nat)
    requires 0 < size <= MAX_SLOT_SIZE
    ensures 0 <= PoolIndex(size) < MEMORY_POOL_NUM
    ensures size <= SlotSizeOf(PoolIndex(size)) < size + SLOT_BASE_SIZE
    ensures forall i: nat :: size <= SlotSizeOf(i) ==> PoolIndex(size) <= i
  {
  }

  // ---- padding ----

  /** `(align - p) % align` in 64-bit unsigned arithmetic. */
  function PadPointer(p: nat, align: nat): (pad: nat)
    requires 0 < align && p < ADDRESS_SPACE
    ensures pad < align
  {
    (if align >= p then align - p else ADDRESS_SPACE + align - p) % align
  }

  /** The padded address is aligned exactly when the subtraction does not wrap, or the
      slot size divides the address space, as the powers of two do. */
  lemma PaddingAlignsIff(p: nat, align: nat)
    requires 0 < align && p < ADDRESS_SPACE
    ensures (p + PadPointer(p, align)) % align == 0 <==> (p <= align || ADDRESS_SPACE % align == 0)
  {
    if p <= align {
      ModOf(p, align - p, align);
      DivModUnique(align, align, 1, 0);
    } else {
      ModOf(p, ADDRESS_SPACE + align - p, align);
      ModStep(ADDRESS_SPACE, align);
    }
  }

  /** Slots of 24 bytes miss: when a block's body is a multiple of 24 already, as in the
      block at 4096, the padding moves the first slot 16 bytes past it. */
  lemma PaddingMisses(block: nat)
    requires block % 24 == 16 && 16 < block && block + 8 < ADDRESS_SPACE
    ensures PadPointer(block + 8, 24) == 16 && (block + 8 + PadPointer(block + 8, 24)) % 24 == 16
  {
  }

  lemma PowersOfTwoDivide(align: nat)
    requires align in {8, 16, 32, 64, 128, 256, 512}
    ensures ADDRESS_SPACE % align == 0
  {
  }

  lemma EightfoldMod(y: nat, k: nat)
    requires 0 < k
    ensures 8 * y % (8 * k) == 8 * (y % k)
  {
    assert 8 * y == 8 * (k * (y / k)) + 8 * (y % k) == (8 * k) * (y / k) + 8 * (y % k);
    DivModUnique(8 * y, 8 * k, y / k, 8 * (y % k));
  }

  /** The padding of an address that is a multiple of eight, in units of eight. */
  lemma PadInWords(q: nat, k: nat)
    requires 0 < k && 8 * q < ADDRESS_SPACE
    ensures PadPointer(8 * q, 8 * k) == 8 * ((if k >= q then k - q else ADDRESS_SPACE / 8 + k - q) % k)
  {
    EightfoldMod(if k >= q then k - q else ADDRESS_SPACE / 8 + k - q, k);
  }

  lemma PaddingKeepsBase(p: nat, k: nat)
    requires 0 < k && p < ADDRESS_SPACE && p % 8 == 0
    ensures PadPointer(p, 8 * k) % 8 == 0 && PadPointer(p, 8 * k) + 8 <= 8 * k
  {
    hide PadPointer;
    PadInWords(p / 8, k);
  }

  // ---- blocks ----

  function FirstSlot(block: nat, slotSize: nat): nat
    requires 0 < slotSize && block + 8 < ADDRESS_SPACE
  {
    block + 8 + PadPointer(block + 8, slotSize)
  }

  /** How many slots are left between `cur` and the end of a block. */
  function SlotsFrom(cur: int, end: int, slotSize: nat): int
    requires 0 < slotSize
  {
    (end - cur) / slotSize
  }

  lemma SlotsStep(cur: int, end: int, slotSize: nat)
    requires 0 < slotSize && cur + slotSize <= end
    ensures SlotsFrom(cur, end, slotSize) == SlotsFrom(cur + slotSize, end, slotSize) + 1
  {
    ModStep(end - cur - slotSize, slotSize);
  }

  lemma FirstSlotInBlock(block: nat, k: nat)
    requires 1 <= k <= 64 && block % 8 == 0 && block + 4096 < ADDRESS_SPACE
    ensures var s, first := 8 * k, FirstSlot(block, 8 * k);
      && first == block + 8 + PadPointer(block + 8, s)
      && first % 8 == 0 && block + 8 <= first <= block + s && first + s <= block + 4096
  {
    hide PadPointer;
    PaddingKeepsBase(block + 8, k);
  }

  /** A 4096-byte block yields at most one slot less than it could hold without header
      and padding, and at least seven; every slot starts on a word boundary. */
  lemma BlockYield(block: nat, k: nat)
    requires 1 <= k <= 64 && block % 8 == 0 && block + 4096 < ADDRESS_SPACE
    ensures var s, first := 8 * k, FirstSlot(block, 8 * k);
      && first % 8 == 0 && first + s <= block + 4096
      && SlotsFrom(first, block + 4096, s) == SlotsFrom(8 + PadPointer(block + 8, s), 4096, s)
      && SlotsFrom(first, block + 4096, s) >= SlotsFrom(0, 4096, s) - 1 >= 7
  {
    hide PadPointer, SlotsFrom, FirstSlot;
    FirstSlotInBlock(block, k);
    SameRoom(FirstSlot(block, 8 * k), block + 4096, 8 + PadPointer(block + 8, 8 * k), 4096, 8 * k);
    YieldBound(8 * k, 8 + PadPointer(block + 8, 8 * k));
  }

  lemma SameRoom(cur: int, end: int, cur': int, end': int, slotSize: nat)
    requires 0 < slotSize && end - cur == end' - cur'
    ensures SlotsFrom(cur, end, slotSize) == SlotsFrom(cur', end', slotSize)
  {
  }

  lemma YieldBound(s: nat, start: nat)
    requires 8 <= s <= 512 && start <= s
    ensures SlotsFrom(start, 4096, s) >= SlotsFrom(0, 4096, s) - 1 >= 7
  {
    hide SlotsFrom;
    SlotsStep(0, 4096, s);
    FewerSlots(s, start, 4096, s);
    FewerSlots(4096 - 8 * s, 0, 4096, s);
    EightSlots(s);
  }

  lemma FewerSlots(late: int, early: int, end: int, slotSize: nat)
    requires 0 < slotSize && early <= late <= end
    ensures SlotsFrom(late, end, slotSize) <= SlotsFrom(early, end, slotSize)
  {
    DivMonotone(end - late, end - early, slotSize);
  }

  lemma EightSlots(s: nat)
    requires 0 < s
    ensures SlotsFrom(4096 - 8 * s, 4096, s) == 8
  {
    DivModUnique(8 * s, s, 8, 0);
  }

  // ---- the pool as a value ----

  const BLOCK_SIZE := 4096

  datatype Pool = Pool(
    slotSize: nat,
    firstBlock: nat,
    curSlot: nat,
    freeList: nat,
    lastSlot: nat,
    mem: map<nat, nat>,    // the words of memory ever written, by address
    blocks: seq<nat>,      // newest first
    free: seq<nat>,        // the free list from its head
    live: set<nat>,        // slots handed out
    dropped: set<nat>,     // slots that nothing refers to any more
    home: map<nat, nat>)   // the block of every slot carved so far

  function Head(s: seq<nat>): nat {
    if s == [] then 0 else s[0]
  }

  /** The words at the addresses of `s` link them in order, ending in null. */
  ghost predicate Linked(mem: map<nat, nat>, s: seq<nat>) {
    forall i :: 0 <= i < |s| ==> LinkAt(mem, s, i)
  }

  predicate LinkAt(mem: map<nat, nat>, s: seq<nat>, i: nat)
    requires i < |s|
  {
    s[i] in mem && mem[s[i]] == Head(s[i + 1..])
  }

  /** Two stretches of `size` bytes do not overlap. */
  predicate Apart(a: nat, b: nat, size: nat) {
    a + size <= b || b + size <= a
  }

  predicate Block(b: nat) {
    0 < b && b % 8 == 0 && b + BLOCK_SIZE < ADDRESS_SPACE
  }

  function Yield(b: nat, slotSize: nat): int
    requires 0 < slotSize && Block(b)
  {
    SlotsFrom(FirstSlot(b, slotSize), b + BLOCK_SIZE, slotSize)
  }

  function TotalYield(blocks: seq<nat>, slotSize: nat): int
    requires 0 < slotSize && forall b :: b in blocks ==> Block(b)
  {
    if blocks == [] then 0 else Yield(blocks[0], slotSize) + TotalYield(blocks[1..], slotSize)
  }

  ghost predicate BlocksOk(p: Pool) {
    && p.firstBlock == Head(p.blocks) && Linked(p.mem, p.blocks)
    && (forall b :: b in p.blocks ==> Block(b))
    && Distinct(p.blocks)
    && (forall b, c :: b in p.blocks && c in p.blocks && b != c ==> Apart(b, c, BLOCK_SIZE))
  }

  /** Slot `a` lies in its block, past the 8-byte header, on a word boundary. */
  predicate InBlock(p: Pool, a: nat)
    requires a in p.home
  {
    && p.home[a] in p.blocks && a % 8 == 0
    && p.home[a] + 8 <= a && a + p.slotSize <= p.home[a] + BLOCK_SIZE
  }

  ghost predicate SlotsOk(p: Pool) {
    && 8 <= p.slotSize <= 512 && p.slotSize % 8 == 0
    && (forall a :: a in p.home ==> InBlock(p, a))
    && (forall a, b :: a in p.home && b in p.home && a != b ==> Apart(a, b, p.slotSize))
  }

  /** A carved slot is live, free or dropped, and only one of these; the free list is
      acyclic and its links are the first words of the free slots. */
  ghost predicate OwnersOk(p: Pool) {
    && p.freeList == Head(p.free) && Linked(p.mem, p.free) && Distinct(p.free)
    && (forall a :: a in p.home <==> a in p.live || a in p.free || a in p.dropped)
    && p.live !! p.dropped
    && (forall a :: a in p.free ==> a !in p.live && a !in p.dropped)
  }

  /** The bump pointer is past every slot of the newest block. */
  ghost predicate BumpOk(p: Pool) {
    if p.blocks == [] then p.curSlot == 0 && p.lastSlot == 0
    else
      && p.blocks[0] + 8 <= p.curSlot <= p.blocks[0] + BLOCK_SIZE && p.curSlot % 8 == 0
      && p.lastSlot == p.blocks[0] + BLOCK_SIZE - p.slotSize + 1
      && forall a :: a in p.home && p.home[a] == p.blocks[0] ==> a + p.slotSize <= p.curSlot
  }

  /** Slots that can still be carved from the newest block. */
  function Uncarved(p: Pool): int
    requires 0 < p.slotSize
  {
    if p.blocks == [] then 0 else SlotsFrom(p.curSlot, p.blocks[0] + BLOCK_SIZE, p.slotSize)
  }

  /** Conservation: no slot of any block is unaccounted for. */
  ghost predicate Accounted(p: Pool)
    requires BlocksOk(p) && 0 < p.slotSize
  {
    Owned(p) + Uncarved(p) == TotalYield(p.blocks, p.slotSize)
  }

  function Owned(p: Pool): nat {
    |p.live| + |p.free| + |p.dropped|
  }

  ghost predicate Valid(p: Pool) {
    BlocksOk(p) && SlotsOk(p) && OwnersOk(p) && BumpOk(p) && Accounted(p)
  }

  // ---- what the operations do ----

  function Popped(p: Pool): Pool
    requires p.free != [] && p.freeList in p.mem
  {
    p.(freeList := p.mem[p.freeList], free := p.free[1..], live := p.live + {p.freeList})
  }

  function Carved(p: Pool): Pool
    requires p.blocks != []
  {
    p.(curSlot := p.curSlot + p.slotSize, live := p.live + {p.curSlot}, home := p.home[p.curSlot := p.blocks[0]])
  }

  function WithBlock(p: Pool, b: nat): Pool
    requires 8 <= p.slotSize <= BLOCK_SIZE && Block(b)
  {
    p.(mem := p.mem[b := p.firstBlock], firstBlock := b, blocks := [b] + p.blocks,
       curSlot := FirstSlot(b, p.slotSize), lastSlot := b + BLOCK_SIZE - p.slotSize + 1,
       freeList := 0, free := [], dropped := p.dropped + set a | a in p.free)
  }

  function Freed(p: Pool, a: nat): Pool {
    p.(mem := p.mem[a := p.freeList], freeList := a, free := [a] + p.free, live := p.live - {a})
  }

  function Written(p: Pool, address: nat, word: nat): Pool {
    p.(mem := p.mem[address := word])
  }

  /** What the system promises about a block it hands out. */
  ghost predicate FreshBlock(p: Pool, b: nat) {
    Block(b) && forall c :: c in p.blocks ==> Apart(b, c, BLOCK_SIZE)
  }

  // ---- what they keep ----

  lemma SizeInRange(p: Pool)
    requires Valid(p)
    ensures 8 <= p.slotSize <= MAX_SLOT_SIZE
  {
  }

  lemma LinkedElsewhere(mem: map<nat, nat>, s: seq<nat>, address: nat, word: nat)
    requires Linked(mem, s) && address !in s
    ensures Linked(mem[address := word], s)
  {
    var m := mem[address := word];
    forall i | 0 <= i < |s| ensures LinkAt(m, s, i) {
      assert LinkAt(mem, s, i) && s[i] in s;
    }
  }

  lemma LinkedPush(mem: map<nat, nat>, s: seq<nat>, a: nat)
    requires Linked(mem, s) && a !in s
    ensures Linked(mem[a := Head(s)], [a] + s)
  {
    var t, m := [a] + s, mem[a := Head(s)];
    LinkedElsewhere(mem, s, a, Head(s));
    forall i | 0 <= i < |t| ensures LinkAt(m, t, i) {
      if i == 0 {
        assert t[1..] == s;
      } else {
        assert LinkAt(m, s, i - 1) && t[i + 1..] == s[i..];
      }
    }
  }

  lemma LinkedPop(mem: map<nat, nat>, s: seq<nat>)
    requires Linked(mem, s) && s != []
    ensures s[0] in mem && mem[s[0]] == Head(s[1..]) && Linked(mem, s[1..])
  {
    assert LinkAt(mem, s, 0);
    forall i | 0 <= i < |s| - 1 ensures LinkAt(mem, s[1..], i) {
      assert LinkAt(mem, s, i + 1) && s[1..][i + 1..] == s[i + 2..];
    }
  }

  /** An address inside a slot is no block header and no other slot's first word. */
  lemma InsideSlot(p: Pool, a: nat, address: nat)
    requires BlocksOk(p) && SlotsOk(p) && a in p.home && a <= address < a + p.slotSize
    ensures address !in p.blocks
    ensures forall b :: b in p.home && b != a ==> address != b
  {
    hide SlotsFrom, TotalYield, FirstSlot;
    assert InBlock(p, a);
    forall b | b in p.home && b != a ensures address != b {
      assert Apart(a, b, p.slotSize);
    }
  }

  lemma PopOwners(p: Pool)
    requires OwnersOk(p) && p.free != []
    ensures p.freeList in p.mem && OwnersOk(Popped(p)) && Owned(Popped(p)) == Owned(p)
  {
    LinkedPop(p.mem, p.free);
    var q := Popped(p);
    assert p.free[0] in p.free && p.free[0] !in q.free;
    assert forall a :: a in p.free <==> a == p.free[0] || a in q.free;
  }

  lemma PopKeeps(p: Pool)
    requires Valid(p) && p.free != []
    ensures p.freeList in p.mem
    ensures Valid(Popped(p))
  {
    hide Linked, Apart, SlotsFrom, TotalYield, OwnersOk, Owned;
    PopOwners(p);
    var q := Popped(p);
    assert forall a :: a in p.home ==> InBlock(p, a) && InBlock(q, a);
  }

  lemma CarveApart(p: Pool)
    requires Valid(p) && p.blocks != [] && p.curSlot < p.lastSlot
    ensures p.curSlot !in p.home
    ensures SlotsOk(Carved(p)) && BumpOk(Carved(p))
  {
    hide Linked, SlotsFrom, TotalYield, FirstSlot, OwnersOk;
    var q, b := Carved(p), p.blocks[0];
    forall a | a in p.home ensures Apart(a, p.curSlot, p.slotSize) {
      assert InBlock(p, a);
      assert p.home[a] != b ==> Apart(b, p.home[a], BLOCK_SIZE);
    }
    forall a | a in q.home ensures InBlock(q, a) {
      assert a != p.curSlot ==> InBlock(p, a);
    }
  }

  lemma CarveOwners(p: Pool)
    requires OwnersOk(p) && p.blocks != [] && p.curSlot !in p.home
    ensures OwnersOk(Carved(p)) && Owned(Carved(p)) == Owned(p) + 1
  {
  }

  lemma CarveKeeps(p: Pool)
    requires Valid(p) && p.blocks != [] && p.curSlot < p.lastSlot
    ensures p.curSlot !in p.home
    ensures Valid(Carved(p))
  {
    hide Linked, Apart, SlotsOk, OwnersOk, Owned, SlotsFrom, TotalYield;
    SlotRoom(p);
    CarveApart(p);
    CarveOwners(p);
  }

  lemma SlotRoom(p: Pool)
    requires Valid(p) && p.blocks != [] && p.curSlot < p.lastSlot
    ensures Uncarved(p) == Uncarved(Carved(p)) + 1
  {
    hide Linked, OwnersOk, TotalYield, FirstSlot;
    SlotsStep(p.curSlot, p.blocks[0] + BLOCK_SIZE, p.slotSize);
  }

  lemma BlockBlocks(p: Pool, b: nat)
    requires BlocksOk(p) && FreshBlock(p, b) && 8 <= p.slotSize <= BLOCK_SIZE
    ensures BlocksOk(WithBlock(p, b)) && b !in p.blocks
  {
    hide FirstSlot;
    assert b !in p.blocks;
    LinkedPush(p.mem, p.blocks, b);
    var q := WithBlock(p, b);
    assert forall c :: c in q.blocks <==> c == b || c in p.blocks;
  }

  lemma BlockOwners(p: Pool, b: nat)
    requires OwnersOk(p) && Block(b) && 8 <= p.slotSize <= BLOCK_SIZE
    ensures OwnersOk(WithBlock(p, b)) && Owned(WithBlock(p, b)) == Owned(p)
  {
    hide FirstSlot;
    DroppedCount(p.free, p.dropped);
  }

  lemma BlockSlots(p: Pool, b: nat)
    requires SlotsOk(p) && Block(b) && 8 <= p.slotSize <= BLOCK_SIZE && b !in p.blocks
    ensures SlotsOk(WithBlock(p, b))
    ensures BumpOk(WithBlock(p, b)) && WithBlock(p, b).curSlot < WithBlock(p, b).lastSlot
    ensures Uncarved(WithBlock(p, b)) == Yield(b, p.slotSize)
  {
    hide PadPointer, SlotsFrom;
    BlockYield(b, p.slotSize / 8);
    var q := WithBlock(p, b);
    forall a | a in p.home ensures InBlock(q, a) && q.home[a] != b {
      assert InBlock(p, a);
    }
  }

  lemma BlockKeeps(p: Pool, b: nat)
    requires Valid(p) && p.curSlot >= p.lastSlot && FreshBlock(p, b)
    ensures Valid(WithBlock(p, b)) && WithBlock(p, b).curSlot < WithBlock(p, b).lastSlot
  {
    hide Linked, Apart, OwnersOk, Owned, FirstSlot, SlotsFrom;
    NothingUncarved(p);
    BlockBlocks(p, b);
    BlockOwners(p, b);
    BlockSlots(p, b);
    assert ([b] + p.blocks)[1..] == p.blocks;
  }

  lemma NothingUncarved(p: Pool)
    requires Valid(p) && p.curSlot >= p.lastSlot
    ensures Uncarved(p) == 0
  {
    hide Linked, OwnersOk, TotalYield, FirstSlot;
    if p.blocks != [] {
      DivModUnique(p.blocks[0] + BLOCK_SIZE - p.curSlot, p.slotSize, 0, p.blocks[0] + BLOCK_SIZE - p.curSlot);
    }
  }

  lemma {:induction false} DroppedCount(free: seq<nat>, dropped: set<nat>)
    requires Distinct(free) && forall a :: a in free ==> a !in dropped
    ensures |dropped + set a | a in free| == |dropped| + |free|
  {
    if free == [] {
      assert dropped + (set a | a in free) == dropped;
    } else {
      var n := |free| - 1;
      assert forall a :: a in free <==> a in free[..n] || a == free[n];
      assert free[n] !in free[..n];
      DroppedCount(free[..n], dropped);
      assert dropped + (set a | a in free) == (dropped + set a | a in free[..n]) + {free[n]};
    }
  }

  lemma FreeOwners(p: Pool, a: nat)
    requires OwnersOk(p) && a in p.live && a != 0
    ensures OwnersOk(Freed(p, a)) && Owned(Freed(p, a)) == Owned(p)
  {
    LinkedPush(p.mem, p.free, a);
  }

  lemma FreeKeeps(p: Pool, a: nat)
    requires Valid(p) && a in p.live
    ensures Valid(Freed(p, a)) && a != 0
  {
    hide Linked, Apart, Owned, SlotsFrom, TotalYield, FirstSlot;
    var q := Freed(p, a);
    InsideSlot(p, a, a);
    LinkedElsewhere(p.mem, p.blocks, a, p.freeList);
    assert InBlock(p, a);
    FreeOwners(p, a);
    assert forall b :: b in p.home ==> InBlock(p, b) && InBlock(q, b);
  }

  lemma WriteKeeps(p: Pool, a: nat, address: nat, word: nat)
    requires Valid(p) && a in p.live && a <= address < a + p.slotSize
    ensures Valid(Written(p, address, word))
  {
    hide Linked, Apart, SlotsFrom, TotalYield, FirstSlot;
    var q := Written(p, address, word);
    InsideSlot(p, a, address);
    LinkedElsewhere(p.mem, p.blocks, address, word);
    LinkedElsewhere(p.mem, p.free, address, word);
    assert forall b :: b in q.home ==> InBlock(p, b) && InBlock(q, b);
  }

  /** The bytes of slot `a`, word by word, are the same in both memories. */
  ghost predicate SlotUnchanged(p: Pool, q: Pool, a: nat) {
    forall w :: a <= w < a + p.slotSize ==>
      (w in p.mem <==> w in q.mem) && (w in p.mem ==> p.mem[w] == q.mem[w])
  }

  /** Freeing a slot, or linking in a block, writes into no live slot. */
  lemma PoolWritesNoLiveSlot(p: Pool, a: nat, b: nat)
    requires Valid(p) && a in p.live
    ensures FreshBlock(p, b) ==> SlotUnchanged(p, WithBlock(p, b), a)
    ensures b in p.live && b != a ==> SlotUnchanged(p, Freed(p, b), a)
    ensures p.free != [] ==> p.freeList in p.mem && SlotUnchanged(p, Popped(p), a)
    ensures p.blocks != [] ==> SlotUnchanged(p, Carved(p), a)
  {
    hide SlotsFrom, TotalYield, FirstSlot;
    assert InBlock(p, a);
    if b in p.live && b != a {
      assert Apart(a, b, p.slotSize);
    }
    if FreshBlock(p, b) {
      assert Apart(b, p.home[a], BLOCK_SIZE);
    }
    if p.free != [] { LinkedPop(p.mem, p.free); }
  }

  // ---- runs ----

  datatype Call =
    | Allocate(newBlock: nat)   // the address the system would return for a block
    | Deallocate(slot: nat)
    | Write(slot: nat, address: nat, word: nat)

  /** What callers and the system owe: only live slots are freed, or written word by word,
      and new blocks do not overlap old ones. */
  ghost predicate Legal(p: Pool, call: Call) {
    match call
    case Allocate(b) => p.freeList == 0 && p.curSlot >= p.lastSlot ==> FreshBlock(p, b)
    case Deallocate(a) => a == 0 || a in p.live
    case Write(a, address, _) => a in p.live && a <= address < a + p.slotSize && address % 8 == 0
  }

  /** A free slot if there is one, else the next slot of the newest block, else the
      first slot of a new block. */
  ghost function Allocated(p: Pool, b: nat): Pool
    requires Valid(p) && Legal(p, Allocate(b))
  {
    PopIfLinked(p);
    if p.freeList != 0 then Popped(p)
    else if p.curSlot >= p.lastSlot then Carved(WithBlock(p, b))
    else Carved(p)
  }

  lemma PopIfLinked(p: Pool)
    requires Valid(p)
    ensures p.freeList != 0 <==> p.free != []
    ensures p.free != [] ==> p.freeList in p.mem
    ensures p.freeList == 0 && p.curSlot < p.lastSlot ==> p.blocks != []
  {
    hide Linked, Apart, SlotsFrom, TotalYield, FirstSlot;
    if p.free != [] {
      assert InBlock(p, p.free[0]);
      PopOwners(p);
    }
  }

  ghost function Step(p: Pool, call: Call): Pool
    requires Valid(p) && Legal(p, call)
  {
    match call
    case Allocate(b) => Allocated(p, b)
    case Deallocate(a) => if a == 0 then p else Freed(p, a)
    case Write(_, address, word) => Written(p, address, word)
  }

  /** The slot an allocation returns: the free list's head, or the bump pointer. */
  function Returned(p: Pool, b: nat): nat
    requires 8 <= p.slotSize <= BLOCK_SIZE && (p.freeList == 0 && p.curSlot >= p.lastSlot ==> Block(b))
  {
    if p.freeList != 0 then p.freeList
    else if p.curSlot >= p.lastSlot then FirstSlot(b, p.slotSize) else p.curSlot
  }

  /** Every call keeps the pool valid and drops no slot: in sequential use the free list
      is empty whenever a new block clears it. */
  lemma StepKeeps(p: Pool, call: Call)
    requires Valid(p) && Legal(p, call)
    ensures Valid(Step(p, call))
    ensures p.dropped == {} ==> Step(p, call).dropped == {}
    ensures Step(p, call).slotSize == p.slotSize
  {
    hide Linked, Apart, OwnersOk, SlotsFrom, TotalYield, FirstSlot;
    match call
    case Allocate(b) =>
      PopIfLinked(p);
      if p.freeList != 0 {
        PopKeeps(p);
      } else if p.curSlot >= p.lastSlot {
        BlockKeeps(p, b);
        CarveKeeps(WithBlock(p, b));
      } else {
        CarveKeeps(p);
      }
    case Deallocate(a) =>
      if a != 0 { FreeKeeps(p, a); }
    case Write(a, address, word) => WriteKeeps(p, a, address, word);
  }

  /** What an allocation hands out: a slot nobody holds, apart from every live slot,
      inside a block and past its header. */
  lemma AllocationIsFresh(p: Pool, b: nat)
    requires Valid(p) && Legal(p, Allocate(b))
    ensures var a, q := Returned(p, b), Step(p, Allocate(b));
      && a !in p.live && q.live == p.live + {a}
      && a in q.home && InBlock(q, a)
      && forall c :: c in p.live ==> Apart(a, c, p.slotSize)
  {
    hide Linked, Apart, SlotsFrom, TotalYield, FirstSlot;
    PopIfLinked(p);
    StepKeeps(p, Allocate(b));
    var a, q := Returned(p, b), Step(p, Allocate(b));
    if p.freeList != 0 {
      assert p.free[0] in p.free;
    } else if p.curSlot >= p.lastSlot {
      BlockKeeps(p, b);
      CarveKeeps(WithBlock(p, b));
    } else {
      CarveKeeps(p);
    }
    assert a in q.live;
    assert InBlock(q, a);
  }

  /** The call neither frees slot `a` nor writes into it. */
  predicate LeavesAlone(call: Call, a: nat) {
    match call
    case Allocate(_) => true
    case Deallocate(b) => b != a
    case Write(b, _, _) => b != a
  }

  lemma WriteLeavesSlot(p: Pool, b: nat, address: nat, word: nat, a: nat)
    requires Valid(p) && a in p.live && b in p.live && a != b && b <= address < b + p.slotSize
    ensures SlotUnchanged(p, Written(p, address, word), a)
  {
    hide Linked, SlotsFrom, TotalYield, FirstSlot, BumpOk;
    assert Apart(a, b, p.slotSize);
  }

  lemma StepLeavesSlot(p: Pool, call: Call, a: nat)
    requires Valid(p) && Legal(p, call) && a in p.live && LeavesAlone(call, a)
    ensures a in Step(p, call).live && SlotUnchanged(p, Step(p, call), a)
  {
    hide Linked, Apart, SlotsFrom, TotalYield, FirstSlot, BlocksOk, OwnersOk, BumpOk;
    PopIfLinked(p);
    match call
    case Allocate(b) =>
      PoolWritesNoLiveSlot(p, a, b);
    case Deallocate(b) =>
      if b != 0 { PoolWritesNoLiveSlot(p, a, b); }
    case Write(b, address, word) =>
      WriteLeavesSlot(p, b, address, word, a);
  }

  /** What `init` leaves: slots of a size, and nothing else. */
  function NewPool(slotSize: nat): Pool {
    Pool(slotSize, 0, 0, 0, 0, map[], [], [], {}, {}, map[])
  }

  predicate SizeOfAPool(slotSize: nat) {
    8 <= slotSize <= MAX_SLOT_SIZE && slotSize % SLOT_BASE_SIZE == 0
  }

  /** `call` takes a pool to another. */
  ghost predicate Takes(p: Pool, call: Call, q: Pool) {
    Legal(p, call) && (Valid(p) ==> q == Step(p, call))
  }

  /** Legal calls on a new pool; that every pool on the way is valid is for `RunKeeps` to show. */
  ghost predicate IsRun(slotSize: nat, calls: seq<Call>, pools: seq<Pool>) {
    && SizeOfAPool(slotSize)
    && |pools| == |calls| + 1
    && pools[0] == NewPool(slotSize)
    && forall i :: 0 <= i < |calls| ==> Takes(pools[i], calls[i], pools[i + 1])
  }

  lemma NewIsValid(slotSize: nat)
    requires SizeOfAPool(slotSize)
    ensures Valid(NewPool(slotSize))
  {
  }

  lemma {:induction false} RunKeeps(slotSize: nat, calls: seq<Call>, pools: seq<Pool>, n: nat)
    requires IsRun(slotSize, calls, pools) && n <= |calls|
    ensures Valid(pools[n]) && pools[n].dropped == {} && pools[n].slotSize == slotSize
  {
    hide Valid, Legal, Step;
    if n == 0 {
      NewIsValid(slotSize);
    } else {
      RunKeeps(slotSize, calls, pools, n - 1);
      assert Takes(pools[n - 1], calls[n - 1], pools[n]);
      StepKeeps(pools[n - 1], calls[n - 1]);
    }
  }

  /** Every legal call can be made: it extends the run. */
  lemma LegalCallExtends(slotSize: nat, calls: seq<Call>, pools: seq<Pool>, call: Call) returns (q: Pool)
    requires IsRun(slotSize, calls, pools) && Legal(pools[|calls|], call)
    ensures IsRun(slotSize, calls + [call], pools + [q])
    ensures Valid(pools[|calls|]) && q == Step(pools[|calls|], call)
  {
    hide Valid, Legal, Step;
    RunKeeps(slotSize, calls, pools, |calls|);
    q := Step(pools[|calls|], call);
    var c, r := calls + [call], pools + [q];
    forall i | 0 <= i < |c| ensures Takes(r[i], c[i], r[i + 1]) {
      assert i < |calls| ==> Takes(pools[i], calls[i], pools[i + 1]);
    }
  }

  /** Over any run, a slot's contents survive everything but its own holder's calls. */
  lemma {:induction false} ContentsSurvive(slotSize: nat, calls: seq<Call>, pools: seq<Pool>, a: nat, m: nat, n: nat)
    requires IsRun(slotSize, calls, pools) && m <= n <= |calls| && a in pools[m].live
    requires forall i :: m <= i < n ==> LeavesAlone(calls[i], a)
    ensures a in pools[n].live && SlotUnchanged(pools[m], pools[n], a)
  {
    hide Valid, Legal, Step, LeavesAlone;
    RunKeeps(slotSize, calls, pools, m);
    if m < n {
      ContentsSurvive(slotSize, calls, pools, a, m, n - 1);
      RunKeeps(slotSize, calls, pools, n - 1);
      assert Takes(pools[n - 1], calls[n - 1], pools[n]);
      StepLeavesSlot(pools[n - 1], calls[n - 1], a);
    }
  }

  /** Over any run, live, free and uncarved slots make up all the blocks. */
  lemma SlotsConserved(slotSize: nat, calls: seq<Call>, pools: seq<Pool>, n: nat)
    requires IsRun(slotSize, calls, pools) && n <= |calls|
    ensures Valid(pools[n]) && pools[n].dropped == {} && pools[n].slotSize == slotSize
    ensures |pools[n].live| + |pools[n].free| + Uncarved(pools[n]) == TotalYield(pools[n].blocks, slotSize)
  {
    RunKeeps(slotSize, calls, pools, n);
  }

  // ---- the pool as the program keeps it ----

  class MemoryPool {
    const slotSize: nat
    var firstBlock: nat
    var curSlot: nat
    var freeList: nat
    var lastSlot: nat
    var mem: map<nat, nat>
    ghost var blocks: seq<nat>
    ghost var free: seq<nat>
    ghost var live: set<nat>
    ghost var dropped: set<nat>
    ghost var home: map<nat, nat>

    ghost function View(): Pool
      reads this
    {
      Pool(slotSize, firstBlock, curSlot, freeList, lastSlot, mem, blocks, free, live, dropped, home)
    }

    /** `initMemoryPool` gives pool `index` slots of (index + 1) * 8 bytes. */
    constructor (index: nat)
      requires index < MEMORY_POOL_NUM
      ensures View() == NewPool(SlotSizeOf(index)) && SizeOfAPool(slotSize) && Valid(View())
    {
      slotSize := SlotSizeOf(index);
      firstBlock, curSlot, freeList, lastSlot := 0, 0, 0, 0;
      mem := map[];
      blocks, free, live, dropped, home := [], [], {}, {}, map[];
    }

    /** Links a new block in and starts carving it.  The free list is cleared: whatever
        it holds at that moment, and nothing else, is dropped. */
    method AllocateNewBlock(newBlock: nat)
      requires Valid(View()) && FreshBlock(View(), newBlock)
      modifies this
      ensures 8 <= slotSize <= BLOCK_SIZE && View() == WithBlock(old(View()), newBlock)
      ensures dropped == old(dropped) + set a | a in old(free)
      ensures old(curSlot >= lastSlot) ==> Valid(View())
    {
      hide Valid, BlocksOk, SlotsFrom, TotalYield, PadPointer;
      SizeInRange(View());
      if curSlot >= lastSlot {
        BlockKeeps(View(), newBlock);
      }
      mem := mem[newBlock := firstBlock];
      firstBlock := newBlock;
      var body := newBlock + 8;
      var paddingSize := PadPointer(body, slotSize);
      curSlot := body + paddingSize;
      lastSlot := newBlock + BLOCK_SIZE - slotSize + 1;
      freeList := 0;
      dropped := dropped + set a | a in free;
      free := [];
      blocks := [newBlock] + blocks;
    }

    method Allocate(newBlock: nat) returns (p: nat)
      requires Valid(View()) && Legal(View(), Call.Allocate(newBlock))
      modifies this
      ensures View() == Step(old(View()), Call.Allocate(newBlock)) && Valid(View())
      ensures p == Returned(old(View()), newBlock)
    {
      hide Linked, Apart, OwnersOk, SlotsFrom, TotalYield, FirstSlot;
      PopIfLinked(View());
      StepKeeps(View(), Call.Allocate(newBlock));
      if freeList != 0 {
        p := Pop();
        return;
      }
      if curSlot >= lastSlot {
        AllocateNewBlock(newBlock);
      }
      p := Bump();
    }

    method Bump() returns (p: nat)
      requires blocks != []
      modifies this
      ensures View() == Carved(old(View())) && p == old(curSlot)
    {
      p := curSlot;
      curSlot := curSlot + slotSize;
      live, home := live + {p}, home[p := blocks[0]];
    }

    method Pop() returns (p: nat)
      requires free != [] && freeList in mem
      modifies this
      ensures View() == Popped(old(View())) && p == old(freeList)
    {
      p := freeList;
      freeList := mem[freeList];
      free, live := free[1..], live + {p};
    }

    /** The slot goes to the head of the free list, with the old head in its first word. */
    method Deallocate(p: nat)
      requires Valid(View()) && Legal(View(), Call.Deallocate(p))
      modifies this
      ensures View() == Step(old(View()), Call.Deallocate(p)) && Valid(View())
    {
      hide Linked, Apart, OwnersOk, SlotsFrom, TotalYield, FirstSlot;
      StepKeeps(View(), Call.Deallocate(p));
      if p != 0 {
        mem := mem[p := freeList];
        freeList := p;
        free, live := [p] + free, live - {p};
      }
    }

    /** The destructor's walk along the block links: it reads each next link before it
        gives the block back, and gives back every block once. */
    method Destroy() returns (released: seq<nat>)
      requires Valid(View())
      ensures released == blocks
      ensures forall i, j :: 0 <= i < j < |released| ==> released[i] != released[j]
    {
      hide Apart, SlotsOk, OwnersOk, SlotsFrom, TotalYield;
      released := [];
      assert blocks != [] ==> blocks[0] in blocks;
      var cur := firstBlock;
      while cur != 0
        invariant |released| <= |blocks| && released == blocks[..|released|]
        invariant cur == Head(blocks[|released|..])
        invariant cur == 0 ==> |released| == |blocks|
        decreases |blocks| - |released|
      {
        assert blocks[|released|..] != [];
        assert |released| + 1 < |blocks| ==> blocks[|released| + 1] in blocks;
        assert LinkAt(mem, blocks, |released|);
        var next := mem[cur];
        released := released + [cur];
        cur := next;
      }
    }
  }
}
