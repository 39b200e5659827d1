/** The sizes MemoryPool.cxx works with: rounding up to pages and cutting a chunk into blocks. */
module PoolSizes {
  import opened HeapPath
  import opened Sequences

  /** Bitwise or of unsigned numbers. */
  function Or(a: nat, b: nat): nat {
    if a == 0 then b else if b == 0 then a
    else 2 * Or(a / 2, b / 2) + if a % 2 == 1 || b % 2 == 1 then 1 else 0
  }

  function NextPageAlignedSize(size: nat, page: nat): nat
    requires size > 0 && page > 0
  {
    Or(size - 1, page - 1) + 1
  }

  lemma Divide(x: nat, d: nat) returns (q: nat, r: nat)
    requires d > 0
    ensures x == q * d + r && r < d && q == x / d && r == x % d
  {
    q, r := x / d, x % d;
  }

  lemma Apart(a: int, d: int)
    requires a != 0 && d > 0
    ensures a * d >= d || a * d <= -d
  {
  }

  lemma DivisionIsUnique(x: nat, d: nat, q: nat, r: nat)
    requires d > 0 && x == q * d + r && r < d
    ensures x / d == q && x % d == r
  {
    var k, m := Divide(x, d);
    assert (k - q) * d == k * d - q * d;
    if k != q {
      Apart(k - q, d);
    }
  }

  lemma OneMore(n: nat, k: nat)
    ensures (n + 1) * k == n * k + k
  {
  }

  /** n shifted left by k bits. */
  function Shl(n: nat, k: nat): nat {
    if k == 0 then n else 2 * Shl(n, k - 1)
  }

  lemma {:induction false} ShlIs(n: nat, k: nat)
    ensures Shl(n, k) == n * Pow2(k)
  {
    if k > 0 {
      ShlIs(n, k - 1);
    }
  }

  /** Or with the low k bits all set. */
  lemma {:induction false} OrSetsLowBits(q: nat, r: nat, k: nat)
    requires r < Pow2(k)
    ensures Or(Shl(q, k) + r, Pow2(k) - 1) == Shl(q, k) + Pow2(k) - 1
  {
    if k == 0 {
      assert r == 0;
    } else {
      var x, low := Shl(q, k) + r, Pow2(k) - 1;
      OrSetsLowBits(q, r / 2, k - 1);
      assert x / 2 == Shl(q, k - 1) + r / 2;
      assert low / 2 == Pow2(k - 1) - 1 && low % 2 == 1;
      if x > 0 {
        assert Or(x, low) == 2 * Or(x / 2, low / 2) + 1;
      }
    }
  }

  /** The chunk size is the least whole number of pages that holds the requested size. */
  lemma PageAligned(size: nat, k: nat)
    requires size > 0
    ensures var r := NextPageAlignedSize(size, Pow2(k));
      r % Pow2(k) == 0 && size <= r < size + Pow2(k)
  {
    hide Or, Shl;
    var p := Pow2(k);
    var q, r := Divide(size - 1, p);
    ShlIs(q, k);
    OrSetsLowBits(q, r, k);
    OneMore(q, p);
    DivisionIsUnique((q + 1) * p, p, q + 1, 0);
  }

  // ----- cutting a chunk -----

  /** Block addresses from the end of the chunk down, as long as a whole block fits. */
  function Carved(chunk: int, size: nat, block: nat): seq<int>
    requires block > 0
    decreases size
  {
    if size < block then [] else [chunk + size - block] + Carved(chunk, size - block, block)
  }

  /** Each block ends where the previous one begins, all lie in the chunk, and no further one would fit. */
  lemma {:induction false} CarvedIs(chunk: int, size: nat, block: nat)
    requires block > 0
    ensures var s := Carved(chunk, size, block);
      && (forall i :: 0 <= i < |s| ==> chunk <= s[i] && s[i] + block <= chunk + size)
      && (forall i :: 0 <= i < |s| - 1 ==> s[i + 1] == s[i] - block)
      && (forall i, j :: 0 <= i < j < |s| ==> s[j] + block <= s[i])
      && (s != [] ==> s[0] == chunk + size - block && s[|s| - 1] - block < chunk)
      && (s == [] <==> size < block)
    decreases size
  {
    if size >= block {
      CarvedIs(chunk, size - block, block);
    }
  }

  lemma {:induction false} CarvedCount(chunk: int, size: nat, block: nat)
    requires block > 0
    ensures |Carved(chunk, size, block)| == size / block
    decreases size
  {
    if size >= block {
      CarvedCount(chunk, size - block, block);
      var q := (size - block) / block;
      assert size == (q + 1) * block + (size - block) % block;
      DivisionIsUnique(size, block, q + 1, (size - block) % block);
    } else {
      DivisionIsUnique(size, block, 0, size);
    }
  }

  /** A chunk holds at least the number of blocks it was asked for. */
  lemma ChunkHoldsEnough(block: nat, length: nat, k: nat)
    requires block > 0 && length > 0
    ensures length * block > 0
    ensures var size := NextPageAlignedSize(length * block, Pow2(k)); size / block >= length && size >= block
  {
    hide Or;
    OneMore(length - 1, block);
    PageAligned(length * block, k);
    AtLeast(NextPageAlignedSize(length * block, Pow2(k)), block, length);
  }

  lemma AtLeast(size: nat, block: nat, length: nat)
    requires block > 0 && length * block <= size
    ensures size / block >= length
  {
    var q, r := Divide(size, block);
    assert q < length ==> (q + 1) * block <= length * block;
  }
}

/** MemoryPool.cxx: fixed-size blocks cut from chunks and kept on a free list linked through the blocks themselves. */
module MemoryPools {
  import opened PoolSizes
  import opened HeapPath
  import opened Sequences

  const NULL: int := 0
  const POINTER_SIZE: nat := 8

  /** Two blocks share no byte. */
  ghost predicate Disjoint(a: int, b: int, size: nat) {
    a + size <= b || b + size <= a
  }

  ghost predicate AllDisjoint(blocks: set<int>, size: nat) {
    forall a, b :: a in blocks && b in blocks && a != b ==> Disjoint(a, b, size)
  }

  ghost predicate Inside(blocks: set<int>, size: nat, chunks: seq<int>, chunkSize: nat) {
    forall b :: b in blocks ==> b > NULL && exists i :: 0 <= i < |chunks| && chunks[i] <= b && b + size <= chunks[i] + chunkSize
  }

  /** The i-th free block holds the address of the next one, or null. */
  ghost predicate LinkedAt(memory: map<int, int>, free: seq<int>, i: nat)
    requires i < |free|
  {
    free[i] in memory && memory[free[i]] == if i + 1 < |free| then free[i + 1] else NULL
  }

  /** The list from `last` through the `prev` pointers stored in the blocks is exactly `free`. */
  ghost predicate Linked(last: int, memory: map<int, int>, free: seq<int>) {
    && last == (if free == [] then NULL else free[0])
    && forall i :: 0 <= i < |free| ==> LinkedAt(memory, free, i)
  }

  /** malloc's promise: a new chunk overlaps no chunk still held and does not start at null. */
  ghost predicate IsNew(chunk: int, chunks: seq<int>, chunkSize: nat) {
    chunk > NULL && forall i :: 0 <= i < |chunks| ==> Disjoint(chunk, chunks[i], chunkSize)
  }

  lemma CutDisjoint(blocks: set<int>, size: nat, chunks: seq<int>, chunkSize: nat, chunk: int)
    requires size > 0 && AllDisjoint(blocks, size) && Inside(blocks, size, chunks, chunkSize) && IsNew(chunk, chunks, chunkSize)
    ensures AllDisjoint(blocks + Elements(Carved(chunk, chunkSize, size)), size)
    ensures blocks !! Elements(Carved(chunk, chunkSize, size))
  {
    hide Carved;
    var s := Carved(chunk, chunkSize, size);
    CarvedIs(chunk, chunkSize, size);
    forall a, b | a in blocks && b in s
      ensures Disjoint(a, b, size) && a != b
    {
    }
    forall a, b | a in s && b in s && a != b
      ensures Disjoint(a, b, size)
    {
    }
  }

  lemma CutInside(blocks: set<int>, size: nat, chunks: seq<int>, chunkSize: nat, chunk: int)
    requires size > 0 && Inside(blocks, size, chunks, chunkSize) && chunk > NULL
    ensures Inside(blocks + Elements(Carved(chunk, chunkSize, size)), size, chunks + [chunk], chunkSize)
  {
    hide Carved;
    var s, all := Carved(chunk, chunkSize, size), chunks + [chunk];
    CarvedIs(chunk, chunkSize, size);
    forall b | b in blocks + Elements(s)
      ensures b > NULL && exists i :: 0 <= i < |all| && all[i] <= b && b + size <= all[i] + chunkSize
    {
      if b in blocks {
        var i :| 0 <= i < |chunks| && chunks[i] <= b && b + size <= chunks[i] + chunkSize;
        assert all[i] == chunks[i];
      } else {
        assert all[|chunks|] == chunk;
      }
    }
  }

  lemma CutSize(size: nat, chunkSize: nat, chunk: int)
    requires size > 0
    ensures Distinct(Carved(chunk, chunkSize, size))
    ensures |Elements(Carved(chunk, chunkSize, size))| == |Carved(chunk, chunkSize, size)|
  {
    hide Carved;
    CarvedIs(chunk, chunkSize, size);
    DistinctSize(Carved(chunk, chunkSize, size));
  }

  /** The number of blocks cut from these chunks. */
  ghost function Capacity(chunks: seq<int>, chunkSize: nat, size: nat): nat
    requires size > 0
  {
    if chunks == [] then 0
    else Capacity(chunks[..|chunks| - 1], chunkSize, size) + |Carved(chunks[|chunks| - 1], chunkSize, size)|
  }

  /** Every chunk gives the same number of blocks. */
  lemma {:induction false} CapacityIs(chunks: seq<int>, chunkSize: nat, size: nat)
    requires size > 0
    ensures Capacity(chunks, chunkSize, size) == |chunks| * (chunkSize / size)
  {
    if chunks != [] {
      var n := |chunks| - 1;
      CapacityIs(chunks[..n], chunkSize, size);
      CarvedCount(chunks[n], chunkSize, size);
      OneMore(n, chunkSize / size);
    }
  }

  lemma OneMoreChunk(chunks: seq<int>, chunkSize: nat, size: nat, chunk: int)
    requires size > 0
    ensures Capacity(chunks + [chunk], chunkSize, size) == Capacity(chunks, chunkSize, size) + |Carved(chunk, chunkSize, size)|
  {
    assert (chunks + [chunk])[..|chunks|] == chunks;
  }

  /** Free and live blocks are told apart, and together they are all the blocks cut so far. */
  ghost predicate Accounted(free: seq<int>, live: set<int>, size: nat, chunks: seq<int>, chunkSize: nat)
    requires size > 0
  {
    && Distinct(free) && Elements(free) !! live
    && AllDisjoint(Elements(free) + live, size)
    && Inside(Elements(free) + live, size, chunks, chunkSize)
    && |Elements(free) + live| == Capacity(chunks, chunkSize, size)
  }

  lemma LinkedPop(last: int, memory: map<int, int>, free: seq<int>)
    requires Linked(last, memory, free) && free != []
    ensures last == free[0] && last in memory && Linked(memory[last], memory, free[1..])
  {
    var rest := free[1..];
    assert LinkedAt(memory, free, 0);
    forall i | 0 <= i < |rest|
      ensures LinkedAt(memory, rest, i)
    {
      assert LinkedAt(memory, free, i + 1);
    }
  }

  lemma LinkedPush(last: int, memory: map<int, int>, free: seq<int>, block: int)
    requires Linked(last, memory, free) && block !in free
    ensures Linked(block, memory[block := last], [block] + free)
  {
    var list, updated := [block] + free, memory[block := last];
    forall i | 0 <= i < |list|
      ensures LinkedAt(updated, list, i)
    {
      if i > 0 {
        assert LinkedAt(memory, free, i - 1) && list[i] == free[i - 1];
      }
    }
  }

  /** Writes inside one block leave the links in all others alone. */
  lemma LinkedWritten(last: int, memory: map<int, int>, free: seq<int>, block: int, size: nat, written: map<int, int>)
    requires Linked(last, memory, free) && size >= POINTER_SIZE && written.Keys == memory.Keys
    requires forall b :: b in free ==> Disjoint(b, block, size)
    requires forall a :: a in memory && (a + POINTER_SIZE <= block || block + size <= a) ==> written[a] == memory[a]
    ensures Linked(last, written, free)
  {
    forall i | 0 <= i < |free|
      ensures LinkedAt(written, free, i)
    {
      assert LinkedAt(memory, free, i) && Disjoint(free[i], block, size);
    }
  }

  lemma NothingCut(size: nat, chunkSize: nat)
    requires size > 0
    ensures Accounted([], {}, size, [], chunkSize) && Linked(NULL, map[], [])
  {
    assert Elements<int>([]) + {} == {};
  }

  lemma CutAccounted(live: set<int>, size: nat, chunks: seq<int>, chunkSize: nat, chunk: int)
    requires size > 0 && Accounted([], live, size, chunks, chunkSize) && IsNew(chunk, chunks, chunkSize)
    ensures Accounted(Carved(chunk, chunkSize, size), live, size, chunks + [chunk], chunkSize)
  {
    hide AllDisjoint, Inside, Carved, Capacity;
    var s := Carved(chunk, chunkSize, size);
    assert Elements([]) + live == live;
    CutDisjoint(live, size, chunks, chunkSize, chunk);
    CutInside(live, size, chunks, chunkSize, chunk);
    CutSize(size, chunkSize, chunk);
    assert Elements(s) + live == live + Elements(s);
    OneMoreChunk(chunks, chunkSize, size, chunk);
  }

  lemma TakeAccounted(free: seq<int>, live: set<int>, size: nat, chunks: seq<int>, chunkSize: nat)
    requires size > 0 && Accounted(free, live, size, chunks, chunkSize) && free != []
    ensures Accounted(free[1..], live + {free[0]}, size, chunks, chunkSize) && free[0] !in live && free[0] > NULL
  {
    hide AllDisjoint, Capacity;
    DistinctTail(free);
    assert free[0] in Elements(free);
    assert Elements(free[1..]) + (live + {free[0]}) == Elements(free) + live;
  }

  lemma GiveAccounted(free: seq<int>, live: set<int>, size: nat, chunks: seq<int>, chunkSize: nat, block: int)
    requires size > 0 && Accounted(free, live, size, chunks, chunkSize) && block in live
    ensures Accounted([block] + free, live - {block}, size, chunks, chunkSize) && block > NULL
  {
    hide AllDisjoint, Capacity;
    DistinctConcat([block], free);
    assert Elements([block] + free) + (live - {block}) == Elements(free) + live;
  }

  class MemoryPool {
    const blockSize: nat
    const chunkSize: nat
    var lastBlock: int
    var chunkVector: array<int>
    var chunkCount: nat
    /** The words of memory, by address. */
    var memory: map<int, int>
    ghost var free: seq<int>
    ghost var live: set<int>

    ghost function Chunks(): seq<int>
      requires chunkCount <= chunkVector.Length
      reads `chunkVector, `chunkCount, chunkVector
    {
      chunkVector[..chunkCount]
    }

    ghost predicate Valid()
      reads this, chunkVector
    {
      && POINTER_SIZE <= blockSize <= chunkSize && chunkCount <= chunkVector.Length
      && Linked(lastBlock, memory, free)
      && Accounted(free, live, blockSize, Chunks(), chunkSize)
    }

    constructor (blockSize: nat, chunkLength: nat, pageBits: nat)
      requires blockSize >= POINTER_SIZE && chunkLength > 0
      ensures Valid() && free == [] && live == {} && chunkCount == 0
      ensures this.blockSize == blockSize && chunkSize % Pow2(pageBits) == 0 && chunkSize / blockSize >= chunkLength
      ensures chunkLength * blockSize <= chunkSize < chunkLength * blockSize + Pow2(pageBits)
    {
      hide Or, Pow2, NextPageAlignedSize, Accounted, Linked, Capacity;
      ChunkHoldsEnough(blockSize, chunkLength, pageBits);
      PageAligned(chunkLength * blockSize, pageBits);
      this.blockSize := blockSize;
      chunkSize := NextPageAlignedSize(chunkLength * blockSize, Pow2(pageBits));
      lastBlock, chunkCount, memory := NULL, 0, map[];
      chunkVector := new int[0];
      free, live := [], {};
      new;
      NothingCut(blockSize, chunkSize);
    }

    /** Doubles the vector's length, keeping its content, as realloc does. */
    method ExpandChunkVector()
      requires chunkCount <= chunkVector.Length
      modifies this`chunkVector
      ensures fresh(chunkVector) && chunkVector.Length == (if old(chunkVector.Length) == 0 then 1 else 2 * old(chunkVector.Length))
      ensures Chunks() == old(Chunks())
    {
      var vector := new int[if chunkVector.Length == 0 then 1 else 2 * chunkVector.Length];
      var held := chunkVector;
      for i := 0 to chunkCount
        invariant chunkVector == held && vector[..i] == held[..i] && held[..] == old(chunkVector[..])
      {
        vector[i] := held[i];
      }
      chunkVector := vector;
    }

    method IncreaseChunks(chunk: int)
      requires chunkCount <= chunkVector.Length
      modifies this`chunkVector, this`chunkCount, chunkVector
      ensures chunkCount <= chunkVector.Length && Chunks() == old(Chunks()) + [chunk]
      ensures chunkVector == old(chunkVector) || fresh(chunkVector)
    {
      if chunkCount == chunkVector.Length {
        ExpandChunkVector();
      }
      chunkVector[chunkCount] := chunk;
      chunkCount := chunkCount + 1;
    }

    /** Links the blocks of the newest chunk, from its end down, into the free list. */
    method CarveChunk(chunk: int)
      requires 0 < blockSize <= chunkSize
      modifies this`lastBlock, this`memory
      ensures Linked(lastBlock, memory, Carved(chunk, chunkSize, blockSize))
    {
      ghost var blocks := Carved(chunk, chunkSize, blockSize);
      CarvedIs(chunk, chunkSize, blockSize);
      var block := chunk + chunkSize - blockSize;
      lastBlock := block;
      ghost var i := 0;
      while block - blockSize >= chunk
        invariant 0 <= i < |blocks| && block == blocks[i] && lastBlock == blocks[0]
        invariant forall k :: 0 <= k < i ==> blocks[k] in memory && memory[blocks[k]] == blocks[k] - blockSize
        decreases block - chunk
      {
        var prev := block - blockSize;
        assert i + 1 < |blocks|;
        memory := memory[block := prev];
        block, i := prev, i + 1;
      }
      assert i + 1 == |blocks|;
      memory := memory[block := NULL];
      forall k | 0 <= k < |blocks|
        ensures LinkedAt(memory, blocks, k)
      {
        assert k + 1 < |blocks| ==> blocks[k + 1] == blocks[k] - blockSize;
      }
    }

    method TakeLast() returns (block: int)
      requires Valid() && free != []
      modifies this`lastBlock, this`free, this`live
      ensures Valid() && block == old(free)[0] && free == old(free)[1..] && Chunks() == old(Chunks())
      ensures block !in old(live) && live == old(live) + {block}
      ensures forall b :: b in live && b != block ==> Disjoint(b, block, blockSize)
    {
      hide Accounted, Capacity, Linked, Disjoint, Chunks;
      TakeAccounted(free, live, blockSize, Chunks(), chunkSize);
      LinkedPop(lastBlock, memory, free);
      DisjointFrom(free[0]);
      block := lastBlock;
      lastBlock := memory[block];
      free, live := free[1..], live + {block};
    }

    /** Takes the block freed last, or cuts the new chunk that malloc returns when none is free. */
    method AllocateBlock(chunk: int) returns (block: int)
      requires Valid() && (free == [] ==> IsNew(chunk, Chunks(), chunkSize))
      modifies this`lastBlock, this`chunkVector, this`chunkCount, this`memory, this`free, this`live, chunkVector
      ensures Valid() && (chunkVector == old(chunkVector) || fresh(chunkVector))
      ensures var blocks := if old(free) == [] then Carved(chunk, chunkSize, blockSize) else old(free);
        blocks != [] && block == blocks[0] && free == blocks[1..]
      ensures Chunks() == old(Chunks()) + if old(free) == [] then [chunk] else []
      ensures block !in old(live) && live == old(live) + {block}
      ensures forall b :: b in live && b != block ==> Disjoint(b, block, blockSize)
    {
      FreeIffNull();
      hide IsNew, Carved, Linked, Disjoint, Accounted, Capacity, Chunks;
      if lastBlock == NULL {
        IncreaseBlocks(chunk);
      }
      block := TakeLast();
    }

    lemma DisjointFrom(block: int)
      requires Valid() && block in free
      ensures forall b :: b in live && b != block ==> Disjoint(b, block, blockSize)
    {
      assert block in Elements(free) + live;
    }

    lemma FreeIffNull()
      requires Valid()
      ensures lastBlock == NULL <==> free == []
    {
      if free != [] {
        assert free[0] in Elements(free) + live;
      }
    }

    method IncreaseBlocks(chunk: int)
      requires Valid() && free == [] && IsNew(chunk, Chunks(), chunkSize)
      modifies this`lastBlock, this`chunkVector, this`chunkCount, this`memory, this`free, chunkVector
      ensures Valid() && (chunkVector == old(chunkVector) || fresh(chunkVector))
      ensures free == Carved(chunk, chunkSize, blockSize) && free != [] && Chunks() == old(Chunks()) + [chunk]
    {
      hide Accounted, Capacity, Linked, IsNew, Carved, Chunks;
      CutAccounted(live, blockSize, Chunks(), chunkSize, chunk);
      CarvedIs(chunk, chunkSize, blockSize);
      IncreaseChunks(chunk);
      CarveChunk(chunk);
      free := Carved(chunk, chunkSize, blockSize);
    }

    /** The block freed is the one allocated next. */
    method FreeBlock(block: int)
      requires Valid() && block in live
      modifies this`lastBlock, this`memory, this`free, this`live
      ensures Valid() && free == [block] + old(free) && live == old(live) - {block}
    {
      GiveFresh(block);
      hide Accounted, Capacity, Linked, Chunks;
      GiveAccounted(free, live, blockSize, Chunks(), chunkSize, block);
      LinkedPush(lastBlock, memory, free, block);
      memory := memory[block := lastBlock];
      lastBlock := block;
      free, live := [block] + free, live - {block};
      assert Accounted(free, live, blockSize, Chunks(), chunkSize);
    }

    lemma GiveFresh(block: int)
      requires Valid() && block in live
      ensures block !in free
    {
      assert block !in Elements(free);
    }

    /** No block is lost or counted twice: every chunk's blocks are free or live. */
    lemma NoBlockLost()
      requires Valid()
      ensures |free| + |live| == chunkCount * (chunkSize / blockSize)
    {
      hide AllDisjoint, Inside, Linked, Carved;
      DistinctSize(free);
      CapacityIs(Chunks(), chunkSize, blockSize);
      assert |Elements(free) + live| == |Elements(free)| + |live|;
    }

    /** A client may write anywhere in a block it holds: no pointer-sized word outside the block changes, and the
        free list stays as it is. */
    method ClientWrites(block: int, written: map<int, int>)
      requires Valid() && block in live
      requires written.Keys == memory.Keys
      requires forall a :: a in memory && (a + POINTER_SIZE <= block || block + blockSize <= a) ==> written[a] == memory[a]
      modifies this`memory
      ensures Valid() && free == old(free) && live == old(live)
    {
      LiveApart(block);
      hide Accounted, Capacity;
      LinkedWritten(lastBlock, memory, free, block, blockSize, written);
      memory := written;
    }

    lemma LiveApart(block: int)
      requires Valid() && block in live
      ensures forall b :: b in free ==> Disjoint(b, block, blockSize)
    {
      forall b | b in free
        ensures Disjoint(b, block, blockSize)
      {
        assert b in Elements(free) && b in Elements(free) + live && block in Elements(free) + live;
      }
    }
  }
}
