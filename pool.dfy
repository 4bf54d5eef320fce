/**
 * The bookkeeping of the memory pool (Pool/Pool.cpp): a list of free blocks, a list of blocks
 * in use, the pool size and the statistics counters. A block is an abstract id standing for
 * the pointer the allocator returned, with 0 standing for nullptr; the allocator itself is a
 * counter that hands out the next unused id.
 */
module Pool {
  import opened Common

  /** MemoryPool::BlockNode; two nodes are equal when both fields are. */
  datatype Block = Block(ptr: nat, size: nat)

  /** The node findSuitableNode returns when nothing fits: {nullptr, 0}. */
  const Null: Block := Block(0, 0)

  /** The sizes of the blocks, added up. */
  function SizeSum(s: seq<Block>): nat
  {
    if s == [] then 0 else SizeSum(s[..|s| - 1]) + s[|s| - 1].size
  }

  lemma {:induction false} SizeSumConcat(a: seq<Block>, b: seq<Block>)
    ensures SizeSum(a + b) == SizeSum(a) + SizeSum(b)
    decreases |b|
  {
    if b == [] {
      assert a + b == a;
    } else {
      assert (a + b)[..|a + b| - 1] == a + b[..|b| - 1];
      SizeSumConcat(a, b[..|b| - 1]);
    }
  }

  /** Taking the last of `a` and the same block at index k of `b` keeps two permutations equal. */
  lemma DropMatching(a: seq<Block>, b: seq<Block>, k: nat)
    requires multiset(a) == multiset(b) && a != [] && k < |b| && b[k] == a[|a| - 1]
    ensures multiset(a[..|a| - 1]) == multiset(b[..k] + b[k + 1..])
  {
    var x := b[k];
    assert b == b[..k] + [x] + b[k + 1..];
    assert a == a[..|a| - 1] + [x];
    assert multiset(a[..|a| - 1]) == multiset(a) - multiset{x};
    assert multiset(b[..k] + b[k + 1..]) == multiset(b) - multiset{x};
  }

  /** A sequence is what comes before index k, the element there and what follows it. */
  lemma Around(b: seq<Block>, k: nat)
    requires k < |b|
    ensures b == (b[..k] + [b[k]]) + b[k + 1..]
  {
  }

  /** The size of the block at index k plus the sizes of the others. */
  lemma SizeSumAt(b: seq<Block>, k: nat)
    requires k < |b|
    ensures SizeSum(b) == SizeSum(b[..k] + b[k + 1..]) + b[k].size
  {
    var pre, x, post := b[..k], b[k], b[k + 1..];
    Around(b, k);
    SizeSumConcat(pre + [x], post);
    SizeSumConcat(pre, [x]);
    SizeSumConcat(pre, post);
    assert SizeSum([x]) == x.size by {
      assert [x][..0] == [];
    }
  }

  /** Reordering the blocks does not change their total size. */
  lemma {:induction false} SizeSumPerm(a: seq<Block>, b: seq<Block>)
    requires multiset(a) == multiset(b)
    ensures SizeSum(a) == SizeSum(b)
    decreases |a|
  {
    if a != [] {
      var x := a[|a| - 1];
      assert x in multiset(b);
      var k :| 0 <= k < |b| && b[k] == x;
      DropMatching(a, b, k);
      SizeSumPerm(a[..|a| - 1], b[..k] + b[k + 1..]);
      SizeSumAt(b, k);
    }
  }

  /** The addresses of the blocks. */
  function Ids(s: seq<Block>): set<nat>
  {
    if s == [] then {} else Ids(s[..|s| - 1]) + {s[|s| - 1].ptr}
  }

  /** Every address is one the allocator handed out: not null and below its next id. */
  predicate Issued(s: seq<Block>, nextId: nat)
  {
    s == [] || (Issued(s[..|s| - 1], nextId) && 0 < s[|s| - 1].ptr < nextId)
  }

  /** Blocks from an allocator whose next id is `nextId`, no two of them at the same address. */
  predicate Owned(all: seq<Block>, nextId: nat)
  {
    0 < nextId && Issued(all, nextId) && |Ids(all)| == |all|
  }

  lemma {:induction false} IdsMembers(s: seq<Block>, p: nat)
    ensures p in Ids(s) <==> exists x :: x in s && x.ptr == p
    decreases |s|
  {
    if s != [] {
      var pre := s[..|s| - 1];
      assert s == pre + [s[|s| - 1]];
      IdsMembers(pre, p);
      if p in Ids(pre) {
        var x :| x in pre && x.ptr == p;
        assert x in s;
      }
    }
  }

  lemma {:induction false} IssuedMembers(s: seq<Block>, nextId: nat)
    ensures Issued(s, nextId) <==> forall x :: x in s ==> 0 < x.ptr < nextId
    decreases |s|
  {
    if s != [] {
      var pre := s[..|s| - 1];
      assert s == pre + [s[|s| - 1]];
      IssuedMembers(pre, nextId);
    }
  }

  lemma {:induction false} IdsBound(s: seq<Block>)
    ensures |Ids(s)| <= |s|
    decreases |s|
  {
    if s != [] {
      IdsBound(s[..|s| - 1]);
    }
  }

  /** Distinct addresses mean that no block is listed twice. */
  lemma {:induction false} OwnedOnce(s: seq<Block>, x: Block)
    requires |Ids(s)| == |s|
    ensures multiset(s)[x] <= 1
    decreases |s|
  {
    if s != [] {
      var pre, last := s[..|s| - 1], s[|s| - 1];
      assert s == pre + [last];
      IdsBound(pre);
      IdsMembers(pre, last.ptr);
      assert last.ptr !in Ids(pre);
      OwnedOnce(pre, x);
      if x == last {
        assert x !in pre;
      }
    }
  }

  /** Ownership and the byte total do not depend on the order the blocks are listed in. */
  lemma OwnedPerm(a: seq<Block>, b: seq<Block>, nextId: nat)
    requires multiset(a) == multiset(b) && Owned(a, nextId)
    ensures Owned(b, nextId) && SizeSum(a) == SizeSum(b)
  {
    assert |a| == |multiset(a)| == |b|;
    forall x ensures x in a <==> x in b {
      assert x in a <==> x in multiset(a);
      assert x in b <==> x in multiset(b);
    }
    forall p ensures p in Ids(a) <==> p in Ids(b) {
      IdsMembers(a, p);
      IdsMembers(b, p);
    }
    assert Ids(a) == Ids(b);
    IssuedMembers(a, nextId);
    IssuedMembers(b, nextId);
    SizeSumPerm(a, b);
  }

  /** A block with the allocator's next id joins the owned blocks and adds its size. */
  lemma OwnedPush(a: seq<Block>, nextId: nat, size: nat)
    requires Owned(a, nextId)
    ensures Owned(a + [Block(nextId, size)], nextId + 1)
    ensures SizeSum(a + [Block(nextId, size)]) == SizeSum(a) + size
  {
    var b := Block(nextId, size);
    assert (a + [b])[..|a|] == a;
    IdsMembers(a, nextId);
    IssuedMembers(a, nextId);
    IssuedMembers(a, nextId + 1);
    assert nextId !in Ids(a);
  }

  /** A fresh block appended to the free list joins the owned blocks and adds its size. */
  lemma FreePush(free: seq<Block>, used: seq<Block>, nextId: nat, size: nat)
    requires Owned(free + used, nextId)
    ensures Owned(free + [Block(nextId, size)] + used, nextId + 1)
    ensures SizeSum(free + [Block(nextId, size)] + used) == SizeSum(free + used) + size
  {
    var b := Block(nextId, size);
    OwnedPush(free + used, nextId, size);
    assert multiset(free + [b] + used) == multiset(free + used + [b]);
    OwnedPerm(free + used + [b], free + [b] + used, nextId + 1);
  }

  /** Erasing a free block that is owned once shortens the free list by exactly that block. */
  lemma TakeFree(free: seq<Block>, used: seq<Block>, b: Block)
    requires |Ids(free + used)| == |free + used| && b in free
    ensures |Without(free, b)| + 1 == |free|
    ensures multiset(Without(free, b) + (used + [b])) == multiset(free + used)
  {
    OwnedOnce(free + used, b);
    assert multiset(free)[b] == 1;
    assert multiset(Without(free, b)) == multiset(free) - multiset{b};
    assert |multiset(Without(free, b))| + 1 == |multiset(free)|;
  }

  /** Moving a block in use to the end of the free list keeps the owned blocks and their bytes. */
  lemma UsedToFree(free: seq<Block>, used: seq<Block>, i: nat, nextId: nat)
    requires i < |used| && Owned(free + used, nextId)
    ensures Owned((free + [used[i]]) + (used[..i] + used[i + 1..]), nextId)
    ensures SizeSum((free + [used[i]]) + (used[..i] + used[i + 1..])) == SizeSum(free + used)
  {
    var after := (free + [used[i]]) + (used[..i] + used[i + 1..]);
    assert used == used[..i] + [used[i]] + used[i + 1..];
    assert multiset(after) == multiset(free + used);
    OwnedPerm(free + used, after, nextId);
  }

  /** The k blocks of the given size that k calls of the allocator return, from id `start` on. */
  function Fresh(start: nat, k: nat, size: nat): (r: seq<Block>)
    ensures |r| == k
  {
    if k == 0 then [] else Fresh(start, k - 1, size) + [Block(start + k - 1, size)]
  }

  /**
   * Index of the first block of at least `required` bytes: the range-for loop of
   * findSuitableNode, as a recursive reference definition.
   */
  function FirstFit(s: seq<Block>, required: nat): (r: Option<nat>)
    ensures r.Some? ==> r.value < |s| && s[r.value].size >= required
    ensures r.Some? ==> forall j :: 0 <= j < r.value ==> s[j].size < required
    ensures r.None? ==> forall j :: 0 <= j < |s| ==> s[j].size < required
  {
    if s == [] then None
    else if s[0].size >= required then Some(0)
    else match FirstFit(s[1..], required)
      case None => None
      case Some(i) => Some(i + 1)
  }

  /** std::remove followed by erase: every node equal to `b` is dropped, the rest keep their order. */
  function Without(s: seq<Block>, b: Block): (r: seq<Block>)
    ensures multiset(r) == multiset(s)[b := 0]
  {
    if s == [] then []
    else
      assert s == [s[0]] + s[1..];
      (if s[0] == b then [] else [s[0]]) + Without(s[1..], b)
  }

  /** Ascending block addresses: the order defragment's comparator asks for. */
  predicate ByAddress(s: seq<Block>)
  {
    forall i, j :: 0 <= i < j < |s| ==> s[i].ptr <= s[j].ptr
  }

  /** Inserts `b` into a list that is in address order. */
  function InsertByAddress(b: Block, s: seq<Block>): seq<Block>
  {
    if s == [] || b.ptr <= s[0].ptr then [b] + s else [s[0]] + InsertByAddress(b, s[1..])
  }

  /** The free list in address order; which sort routine produces it is immaterial. */
  function SortByAddress(s: seq<Block>): seq<Block>
  {
    if s == [] then [] else InsertByAddress(s[0], SortByAddress(s[1..]))
  }

  lemma {:induction false} InsertByAddressPerm(b: Block, s: seq<Block>)
    ensures multiset(InsertByAddress(b, s)) == multiset(s) + multiset{b}
    decreases |s|
  {
    if s != [] && b.ptr > s[0].ptr {
      InsertByAddressPerm(b, s[1..]);
      assert s == [s[0]] + s[1..];
    }
  }

  lemma {:induction false} InsertByAddressOrdered(b: Block, s: seq<Block>)
    requires ByAddress(s)
    ensures ByAddress(InsertByAddress(b, s))
    ensures |InsertByAddress(b, s)| > 0
    ensures InsertByAddress(b, s)[0] == (if s == [] || b.ptr <= s[0].ptr then b else s[0])
    decreases |s|
  {
    if s != [] && b.ptr > s[0].ptr {
      var t := InsertByAddress(b, s[1..]);
      InsertByAddressOrdered(b, s[1..]);
      var r := [s[0]] + t;
      forall i, j | 0 <= i < j < |r| ensures r[i].ptr <= r[j].ptr {
        if i == 0 {
          assert r[j] == t[j - 1];
          if j == 1 {
            assert s[1..] != [] ==> s[0].ptr <= s[1..][0].ptr;
          } else {
            assert t[0].ptr <= t[j - 1].ptr;
            assert s[1..] != [] ==> s[0].ptr <= s[1..][0].ptr;
          }
        }
      }
    }
  }

  /** defragment's sort puts the blocks in address order. */
  lemma {:induction false} SortByAddressOrdered(s: seq<Block>)
    ensures ByAddress(SortByAddress(s))
    decreases |s|
  {
    if s != [] {
      SortByAddressOrdered(s[1..]);
      InsertByAddressOrdered(s[0], SortByAddress(s[1..]));
    }
  }

  /** defragment's sort neither adds nor loses a block. */
  lemma {:induction false} SortByAddressPerm(s: seq<Block>)
    ensures multiset(SortByAddress(s)) == multiset(s)
    decreases |s|
  {
    if s != [] {
      var x, rest := s[0], s[1..];
      var sorted := SortByAddress(rest);
      SortByAddressPerm(rest);
      InsertByAddressPerm(x, sorted);
      assert SortByAddress(s) == InsertByAddress(x, sorted);
      assert multiset(s) == multiset(rest) + multiset{x} by {
        assert s == [x] + rest;
      }
    }
  }

  class MemoryPool {
    /** defaultBlockSize_ */
    const defaultBlockSize: nat
    /** poolSize_: the capacity the pool reports, in blocks. */
    var poolSize: nat
    /** freeBlocks_ (a vector) */
    var freeBlocks: seq<Block>
    /** usingBlocks_ (a list) */
    var usingBlocks: seq<Block>
    /** The statistics counters. */
    var totalAllocations: nat
    var totalDeallocations: nat
    var peakUsage: nat
    var totalBytesAllocated: nat
    /** The allocator: the id it hands out next. */
    var nextId: nat

    /** Every block the pool owns, free or in use. */
    function Blocks(): seq<Block>
      reads this
    {
      freeBlocks + usingBlocks
    }

    /**
     * Every block comes from the allocator and is owned once, either free or in use; every
     * block in use is an allocation not yet deallocated; the peak is at least the current use;
     * the byte counter is the size of all blocks the pool owns.
     */
    ghost predicate Valid()
      reads this
    {
      && Owned(Blocks(), nextId)
      && |usingBlocks| + totalDeallocations == totalAllocations
      && |usingBlocks| <= peakUsage
      && totalBytesAllocated == SizeSum(Blocks())
    }

    /** How far the reported capacity is off the number of blocks the pool owns. */
    function Excess(): int
      reads this
    {
      poolSize - |freeBlocks| - |usingBlocks|
    }

    /** The block size a request of `blockSize` bytes stands for: 0 asks for the default. */
    function Effective(blockSize: nat): nat
      reads this
    {
      if blockSize == 0 then defaultBlockSize else blockSize
    }

    /**
     * The constructor as written: poolSize_ starts at initialSize and expandPool then adds
     * initialSize again, so the reported capacity is twice the blocks the pool owns.
     */
    constructor (initialSize: nat, blockSizeInBytes: nat)
      ensures Valid()
      ensures defaultBlockSize == blockSizeInBytes
      ensures freeBlocks == Fresh(1, initialSize, blockSizeInBytes) && usingBlocks == []
      ensures poolSize == 2 * initialSize && Excess() == initialSize
      ensures totalAllocations == 0 && totalDeallocations == 0 && peakUsage == 0
      ensures totalBytesAllocated == initialSize * blockSizeInBytes
    {
      defaultBlockSize := blockSizeInBytes;
      poolSize := initialSize;
      freeBlocks := [];
      usingBlocks := [];
      totalAllocations := 0;
      totalDeallocations := 0;
      peakUsage := 0;
      totalBytesAllocated := 0;
      nextId := 1;
      new;
      ExpandPool(initialSize, defaultBlockSize);
    }

    /** The constructor as intended: poolSize_ counts only the blocks expandPool adds. */
    constructor WithCapacity(initialSize: nat, blockSizeInBytes: nat)
      ensures Valid()
      ensures defaultBlockSize == blockSizeInBytes
      ensures freeBlocks == Fresh(1, initialSize, blockSizeInBytes) && usingBlocks == []
      ensures poolSize == initialSize && Excess() == 0
      ensures totalAllocations == 0 && totalDeallocations == 0 && peakUsage == 0
      ensures totalBytesAllocated == initialSize * blockSizeInBytes
    {
      defaultBlockSize := blockSizeInBytes;
      poolSize := 0;
      freeBlocks := [];
      usingBlocks := [];
      totalAllocations := 0;
      totalDeallocations := 0;
      peakUsage := 0;
      totalBytesAllocated := 0;
      nextId := 1;
      new;
      ExpandPool(initialSize, defaultBlockSize);
    }

    /** expandPool: k fresh free blocks of the effective size go to the end of the free list. */
    method ExpandPool(additionalBlocks: nat, blockSize: nat)
      requires Valid()
      modifies this
      ensures Valid() && Excess() == old(Excess())
      ensures freeBlocks == old(freeBlocks) + Fresh(old(nextId), additionalBlocks, old(Effective(blockSize)))
      ensures poolSize == old(poolSize) + additionalBlocks
      ensures totalBytesAllocated == old(totalBytesAllocated) + additionalBlocks * old(Effective(blockSize))
      ensures nextId == old(nextId) + additionalBlocks
      ensures usingBlocks == old(usingBlocks) && totalAllocations == old(totalAllocations)
      ensures totalDeallocations == old(totalDeallocations) && peakUsage == old(peakUsage)
    {
      var size := if blockSize != 0 then blockSize else defaultBlockSize;
      for i := 0 to additionalBlocks
        invariant Valid() && poolSize == old(poolSize)
        invariant freeBlocks == old(freeBlocks) + Fresh(old(nextId), i, size)
        invariant nextId == old(nextId) + i
        invariant totalBytesAllocated == old(totalBytesAllocated) + i * size
        invariant usingBlocks == old(usingBlocks) && totalAllocations == old(totalAllocations)
        invariant totalDeallocations == old(totalDeallocations) && peakUsage == old(peakUsage)
      {
        assert Fresh(old(nextId), i + 1, size) == Fresh(old(nextId), i, size) + [Block(nextId, size)];
        assert (i + 1) * size == i * size + size;
        PushFresh(size);
      }
      poolSize := poolSize + additionalBlocks;
    }

    /** One turn of expandPool's loop: a new block from the allocator is appended to the free list. */
    method PushFresh(size: nat)
      requires Valid()
      modifies this
      ensures Valid()
      ensures freeBlocks == old(freeBlocks) + [Block(old(nextId), size)]
      ensures nextId == old(nextId) + 1
      ensures totalBytesAllocated == old(totalBytesAllocated) + size
      ensures usingBlocks == old(usingBlocks) && poolSize == old(poolSize)
      ensures totalAllocations == old(totalAllocations) && totalDeallocations == old(totalDeallocations)
      ensures peakUsage == old(peakUsage)
    {
      FreePush(freeBlocks, usingBlocks, nextId, size);
      freeBlocks := freeBlocks + [Block(nextId, size)];
      nextId := nextId + 1;
      totalBytesAllocated := totalBytesAllocated + size;
    }

    /** findSuitableNode: the first free block that is large enough, or the null node. */
    method FindSuitableNode(requiredSize: nat) returns (b: Block)
      ensures FirstFit(freeBlocks, requiredSize).Some? ==> b == freeBlocks[FirstFit(freeBlocks, requiredSize).value]
      ensures FirstFit(freeBlocks, requiredSize).None? ==> b == Null
    {
      for i := 0 to |freeBlocks|
        invariant forall j :: 0 <= j < i ==> freeBlocks[j].size < requiredSize
      {
        if freeBlocks[i].size >= requiredSize {
          return freeBlocks[i];
        }
      }
      return Null;
    }

    /** updateStats: one more allocation, and the peak follows the number of blocks in use. */
    method UpdateStats()
      modifies this
      ensures totalAllocations == old(totalAllocations) + 1
      ensures peakUsage == if |usingBlocks| > old(peakUsage) then |usingBlocks| else old(peakUsage)
      ensures peakUsage >= old(peakUsage) && peakUsage >= |usingBlocks|
      ensures freeBlocks == old(freeBlocks) && usingBlocks == old(usingBlocks)
      ensures poolSize == old(poolSize) && nextId == old(nextId)
      ensures totalDeallocations == old(totalDeallocations)
      ensures totalBytesAllocated == old(totalBytesAllocated)
    {
      totalAllocations := totalAllocations + 1;
      if |usingBlocks| > peakUsage {
        peakUsage := |usingBlocks|;
      }
    }

    /**
     * allocate's path when nothing fits: expandPool(1, blockSize), then the new block is taken
     * off the back of the free list.
     */
    method TakeNew(size: nat) returns (node: Block)
      requires Valid() && Effective(size) == size
      modifies this
      ensures node == Block(old(nextId), size)
      ensures freeBlocks == old(freeBlocks) && usingBlocks == old(usingBlocks)
      ensures poolSize == old(poolSize) + 1 && nextId == old(nextId) + 1
      ensures totalBytesAllocated == old(totalBytesAllocated) + size
      ensures Owned(Blocks() + [node], nextId) && totalBytesAllocated == SizeSum(Blocks() + [node])
      ensures totalAllocations == old(totalAllocations) && totalDeallocations == old(totalDeallocations)
      ensures peakUsage == old(peakUsage)
    {
      ExpandPool(1, size);
      assert Fresh(old(nextId), 1, size) == [Block(old(nextId), size)];
      ghost var owned := Blocks();
      node := freeBlocks[|freeBlocks| - 1];
      freeBlocks := freeBlocks[..|freeBlocks| - 1];
      assert owned == freeBlocks + [node] + usingBlocks;
      assert multiset(Blocks() + [node]) == multiset(owned);
      OwnedPerm(owned, Blocks() + [node], nextId);
    }

    /** allocate's path when a free block fits: the first such block is erased from the free list. */
    method TakeFit(size: nat) returns (node: Block)
      requires Valid() && FirstFit(freeBlocks, size).Some?
      modifies this
      ensures node == old(freeBlocks[FirstFit(freeBlocks, size).value])
      ensures freeBlocks == Without(old(freeBlocks), node) && |freeBlocks| + 1 == old(|freeBlocks|)
      ensures Owned(Blocks() + [node], nextId) && totalBytesAllocated == SizeSum(Blocks() + [node])
      ensures usingBlocks == old(usingBlocks) && poolSize == old(poolSize) && nextId == old(nextId)
      ensures totalBytesAllocated == old(totalBytesAllocated)
      ensures totalAllocations == old(totalAllocations) && totalDeallocations == old(totalDeallocations)
      ensures peakUsage == old(peakUsage)
    {
      node := freeBlocks[FirstFit(freeBlocks, size).value];
      ghost var owned := Blocks();
      TakeFree(freeBlocks, usingBlocks, node);
      freeBlocks := Without(freeBlocks, node);
      assert Blocks() + [node] == freeBlocks + (usingBlocks + [node]);
      OwnedPerm(owned, Blocks() + [node], nextId);
    }

    /**
     * allocate: the first free block that fits moves to the end of the used list; when none
     * fits, the pool first grows by one block of the requested size and that block is taken.
     */
    method Allocate(blockSize: nat) returns (ptr: nat)
      requires Valid()
      modifies this
      ensures Valid() && Excess() == old(Excess())
      ensures 0 < ptr
      ensures old(FirstFit(freeBlocks, Effective(blockSize))).Some? ==>
        var b := old(freeBlocks[FirstFit(freeBlocks, Effective(blockSize)).value]);
        && ptr == b.ptr && usingBlocks == old(usingBlocks) + [b]
        && freeBlocks == Without(old(freeBlocks), b)
        && poolSize == old(poolSize) && nextId == old(nextId)
        && totalBytesAllocated == old(totalBytesAllocated)
      ensures old(FirstFit(freeBlocks, Effective(blockSize))).None? ==>
        var b := Block(old(nextId), old(Effective(blockSize)));
        && ptr == b.ptr && usingBlocks == old(usingBlocks) + [b]
        && freeBlocks == old(freeBlocks)
        && poolSize == old(poolSize) + 1 && nextId == old(nextId) + 1
        && totalBytesAllocated == old(totalBytesAllocated) + b.size
      ensures totalAllocations == old(totalAllocations) + 1
      ensures peakUsage == if |usingBlocks| > old(peakUsage) then |usingBlocks| else old(peakUsage)
      ensures totalDeallocations == old(totalDeallocations)
    {
      var size := if blockSize != 0 then blockSize else defaultBlockSize;
      var node := FindSuitableNode(size);
      if node.ptr == 0 {
        assert FirstFit(freeBlocks, size).None? by {
          if FirstFit(freeBlocks, size).Some? {
            assert node in Blocks();
            IssuedMembers(Blocks(), nextId);
          }
        }
        node := TakeNew(size);
      } else {
        node := TakeFit(size);
      }
      ghost var owned := Blocks() + [node];
      usingBlocks := usingBlocks + [node];
      assert Blocks() == owned;
      UpdateStats();
      ptr := node.ptr;
    }

    /**
     * deallocate: the block in use with the given address moves to the end of the free list;
     * an address no block in use has is refused with invalid_argument and changes nothing.
     */
    method Deallocate(ptr: nat) returns (r: Result<(), string>)
      requires Valid()
      modifies this
      ensures Valid() && Excess() == old(Excess())
      ensures r.Err? <==> forall x :: x in old(usingBlocks) ==> x.ptr != ptr
      ensures r.Err? ==> r.error == "Invalid block pointer"
      ensures r.Err? ==> freeBlocks == old(freeBlocks) && usingBlocks == old(usingBlocks) && totalDeallocations == old(totalDeallocations)
      ensures r.Ok? ==> exists i :: (0 <= i < old(|usingBlocks|) && old(usingBlocks[i].ptr) == ptr
        && usingBlocks == old(usingBlocks[..i] + usingBlocks[i + 1..])
        && freeBlocks == old(freeBlocks + [usingBlocks[i]]))
      ensures r.Ok? ==> totalDeallocations == old(totalDeallocations) + 1
      ensures poolSize == old(poolSize) && nextId == old(nextId)
      ensures totalAllocations == old(totalAllocations) && peakUsage == old(peakUsage)
      ensures totalBytesAllocated == old(totalBytesAllocated)
    {
      var i := 0;
      while i < |usingBlocks| && usingBlocks[i].ptr != ptr
        invariant 0 <= i <= |usingBlocks|
        invariant forall j :: 0 <= j < i ==> usingBlocks[j].ptr != ptr
      {
        i := i + 1;
      }
      if i == |usingBlocks| {
        return Err("Invalid block pointer");
      }
      var node := usingBlocks[i];
      UsedToFree(freeBlocks, usingBlocks, i, nextId);
      usingBlocks := usingBlocks[..i] + usingBlocks[i + 1..];
      freeBlocks := freeBlocks + [node];
      totalDeallocations := totalDeallocations + 1;
      r := Ok(());
    }

    /** defragment: the free list is put in address order; no block is added or lost. */
    method Defragment()
      requires Valid()
      modifies this
      ensures Valid() && Excess() == old(Excess())
      ensures freeBlocks == SortByAddress(old(freeBlocks))
      ensures ByAddress(freeBlocks) && multiset(freeBlocks) == multiset(old(freeBlocks))
      ensures usingBlocks == old(usingBlocks) && poolSize == old(poolSize) && nextId == old(nextId)
      ensures totalAllocations == old(totalAllocations) && totalDeallocations == old(totalDeallocations)
      ensures peakUsage == old(peakUsage) && totalBytesAllocated == old(totalBytesAllocated)
    {
      SortByAddressOrdered(freeBlocks);
      SortByAddressPerm(freeBlocks);
      ghost var before := Blocks();
      freeBlocks := SortByAddress(freeBlocks);
      assert multiset(Blocks()) == multiset(before);
      OwnedPerm(before, Blocks(), nextId);
    }
  }
}
