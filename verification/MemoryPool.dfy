/** Pools of equal blocks, each a free list threaded through the headers of its blocks. */
module MemoryPool {

  const HEADER: nat := 24
  const NULL: nat := 0

  // The header in front of a block; an id of 0 marks a block that belongs to no pool.
  datatype Header = Header(blockId: nat, pool: MemoryPool?, next: nat)

  /** The headers in memory, by address. */
  class Heap {
    var headers: map<nat, Header>

    constructor ()
      ensures headers == map[]
    {
      headers := map[];
    }
  }

  // --- Where the blocks of a pool are ---

  datatype Region = Region(base: nat, blockSize: nat, blocks: nat)

  function Block(r: Region, k: nat): nat {
    if k == 0 then r.base else Block(r, k - 1) + r.blockSize + HEADER
  }

  function End(r: Region): nat {
    Block(r, r.blocks)
  }

  lemma {:induction false} BlocksApart(r: Region, j: nat, k: nat)
    requires j < k
    ensures r.base <= Block(r, j) && Block(r, j) + HEADER + r.blockSize <= Block(r, k)
  {
    if j + 1 < k {
      BlocksApart(r, j, k - 1);
    } else if j > 0 {
      BlocksApart(r, j - 1, j);
    }
  }

  lemma BlockNotNull(r: Region, k: nat)
    requires r.base != NULL
    ensures Block(r, k) != NULL
  {
    if k > 0 {
      BlocksApart(r, 0, k);
    }
  }

  lemma BlocksDiffer(r: Region, j: nat, k: nat)
    requires j != k
    ensures Block(r, j) != Block(r, k)
  {
    if j < k {
      BlocksApart(r, j, k);
    } else {
      BlocksApart(r, k, j);
    }
  }

  lemma {:induction false} BlockIsProduct(r: Region, k: nat)
    ensures Block(r, k) == r.base + k * (r.blockSize + HEADER)
  {
    if k > 0 {
      BlockIsProduct(r, k - 1);
    }
  }

  lemma FirstBlock(r: Region)
    ensures Block(r, 0) == r.base
  {
  }

  lemma InRegion(r: Region, k: nat)
    requires k < r.blocks
    ensures r.base <= Block(r, k) && Block(r, k) + HEADER + r.blockSize <= End(r)
    ensures Block(r, k + 1) == Block(r, k) + r.blockSize + HEADER
  {
    BlocksApart(r, k, r.blocks);
  }

  // --- The free list ---

  ghost predicate Distinct(s: seq<nat>) {
    forall i, j :: 0 <= i < j < |s| ==> s[i] != s[j]
  }

  // What follows position i of the free list in memory.
  function NextOf(r: Region, free: seq<nat>, i: nat): nat {
    if i + 1 < |free| then Block(r, free[i + 1]) else NULL
  }

  // The first n blocks have headers with their numbers and their pool.
  ghost predicate Labelled(headers: map<nat, Header>, pool: MemoryPool, r: Region, n: nat) {
    forall k: nat :: k < n ==>
      Block(r, k) in headers && headers[Block(r, k)].blockId == k + 1 && headers[Block(r, k)].pool == pool
  }

  ghost predicate Linked(headers: map<nat, Header>, r: Region, free: seq<nat>, i: nat)
    requires i < |free|
  {
    free[i] < r.blocks && Block(r, free[i]) in headers && headers[Block(r, free[i])].next == NextOf(r, free, i)
  }

  // The list in memory is `free`: it ends, and has each of its blocks once.
  ghost predicate Threaded(headers: map<nat, Header>, r: Region, head: nat, free: seq<nat>) {
    && Distinct(free)
    && (forall i :: 0 <= i < |free| ==> Linked(headers, r, free, i))
    && head == (if free == [] then NULL else Block(r, free[0]))
  }

  lemma PopThreaded(headers: map<nat, Header>, r: Region, head: nat, free: seq<nat>)
    requires Threaded(headers, r, head, free) && free != []
    ensures head in headers && Threaded(headers, r, headers[head].next, free[1..])
  {
    hide Block;
    assert Linked(headers, r, free, 0);
    forall i | 0 <= i < |free| - 1 ensures Linked(headers, r, free[1..], i) {
      assert Linked(headers, r, free, i + 1);
    }
  }

  lemma PushThreaded(headers: map<nat, Header>, r: Region, head: nat, free: seq<nat>, k: nat)
    requires Threaded(headers, r, head, free) && k < r.blocks && k !in free && Block(r, k) in headers
    ensures Threaded(headers[Block(r, k) := headers[Block(r, k)].(next := head)], r, Block(r, k), [k] + free)
  {
    hide Block;
    var list, after := [k] + free, headers[Block(r, k) := headers[Block(r, k)].(next := head)];
    forall i | 0 <= i < |list| ensures Linked(after, r, list, i) {
      if i > 0 {
        assert Linked(headers, r, free, i - 1) && list[i] == free[i - 1] && free[i - 1] in free;
        BlocksDiffer(r, free[i - 1], k);
      }
    }
    assert Distinct(list);
  }

  function Numbers(n: nat): (r: set<nat>)
    ensures forall k: nat :: k in r <==> k < n
    ensures |r| == n
  {
    if n == 0 then {} else Numbers(n - 1) + {n - 1}
  }

  ghost function Unlisted(free: seq<nat>, n: nat): set<nat> {
    set k | k in Numbers(n) && k !in free
  }

  lemma {:induction false} UnlistedSize(free: seq<nat>, n: nat)
    requires Distinct(free) && forall i :: 0 <= i < |free| ==> free[i] < n
    ensures |Unlisted(free, n)| + |free| == n
  {
    hide Numbers;
    if free == [] {
      assert Unlisted(free, n) == Numbers(n);
    } else {
      UnlistedSize(free[1..], n);
      assert free == [free[0]] + free[1..];
      assert free[0] in Unlisted(free[1..], n) && Unlisted(free, n) == Unlisted(free[1..], n) - {free[0]};
    }
  }

  // Headers outside a region are as they were.
  ghost predicate KeptOutside(before: map<nat, Header>, after: map<nat, Header>, r: Region) {
    forall a :: a in before && !(r.base <= a < End(r)) ==> a in after && after[a] == before[a]
  }

  lemma KeptInside(before: map<nat, Header>, headers: map<nat, Header>, r: Region, a: nat, h: Header)
    requires KeptOutside(before, headers, r) && r.base <= a < End(r)
    ensures KeptOutside(before, headers[a := h], r)
  {
  }

  // The first n blocks in order.
  function Upto(n: nat): seq<nat> {
    seq(n, k => k)
  }

  lemma StartThreaded(headers: map<nat, Header>, pool: MemoryPool, r: Region)
    requires r.base in headers && headers[r.base] == Header(1, pool, NULL) && r.blocks > 0
    ensures Labelled(headers, pool, r, 1) && Threaded(headers, r, r.base, Upto(1))
  {
    var list := Upto(1);
    assert Linked(headers, r, list, 0);
  }

  // A list of the first n blocks grows by one at its end.
  lemma GrowThreaded(headers: map<nat, Header>, pool: MemoryPool, r: Region, n: nat)
    requires 0 < n < r.blocks && r.base != NULL
    requires Labelled(headers, pool, r, n) && Threaded(headers, r, r.base, Upto(n))
    ensures var added := headers[Block(r, n) := Header(n + 1, pool, NULL)];
      && Block(r, n - 1) in added
      && var after := added[Block(r, n - 1) := added[Block(r, n - 1)].(next := Block(r, n))];
      Labelled(after, pool, r, n + 1) && Threaded(after, r, r.base, Upto(n + 1))
  {
    var added := headers[Block(r, n) := Header(n + 1, pool, NULL)];
    var after := added[Block(r, n - 1) := added[Block(r, n - 1)].(next := Block(r, n))];
    assert Block(r, 0) == r.base;
    forall k: nat, j: nat | k < j <= n ensures Block(r, k) != Block(r, j) {
      BlocksDiffer(r, k, j);
    }
    hide Block;
    var list := Upto(n + 1);
    forall i | 0 <= i < |list| ensures Linked(after, r, list, i) {
      if i < n {
        assert Linked(headers, r, Upto(n), i);
      }
    }
  }

  class MemoryPool {
    const heap: Heap
    var memory: nat
    var blockSize: nat
    var numBlocks: nat
    var head: nat
    ghost var free: seq<nat>

    function Layout(): Region
      reads this
    {
      Region(memory, blockSize, numBlocks)
    }

    ghost predicate Valid()
      reads this, heap
    {
      && memory != NULL
      && Labelled(heap.headers, this, Layout(), numBlocks)
      && Threaded(heap.headers, Layout(), head, free)
    }

    // The blocks handed out.
    ghost function Live(): set<nat>
      reads this
    {
      set k | 0 <= k < numBlocks && k !in free
    }

    /** Free and live blocks share out all of them: nothing is left exactly when all are live. */
    lemma FreeAndLive()
      requires Valid()
      ensures |Live()| + |free| == numBlocks
    {
      forall i | 0 <= i < |free| ensures free[i] < numBlocks {
        assert Linked(heap.headers, Layout(), free, i);
      }
      UnlistedSize(free, numBlocks);
      hide Numbers;
      assert Live() == Unlisted(free, numBlocks);
    }

    constructor (heap: Heap)
      ensures this.heap == heap && memory == NULL && free == [] && fresh(this)
    {
      this.heap := heap;
      memory, blockSize, numBlocks, head, free := NULL, 0, 0, NULL, [];
    }

    /** Cuts a region into blocks, all free, in order, once. The first header is written even
        when there is to be no block, and then outside the region: what happens is not defined. */
    method Init(base: nat, size: nat, n: nat) returns (wild: bool)
      requires base != NULL
      modifies this, heap
      ensures wild == (old(memory) == NULL && n == 0)
      ensures old(memory) == NULL && !wild ==> Valid() && Layout() == Region(base, size, n) && free == Upto(n)
      ensures old(memory) != NULL ==> unchanged(this) && heap.headers == old(heap.headers)
      ensures !wild ==> KeptOutside(old(heap.headers), heap.headers, Region(base, size, n))
    {
      if memory != NULL {
        return false;
      }
      if n == 0 {
        return true;
      }
      wild := false;
      blockSize, numBlocks, memory, head := size, n, base, base;
      ghost var before := heap.headers;
      ghost var r := Layout();
      hide Block, End, Threaded, Labelled;
      FirstBlock(r);
      heap.headers := heap.headers[base := Header(1, this, NULL)];
      var i, block := 1, base;
      InRegion(r, 0);
      StartThreaded(heap.headers, this, r);
      assert KeptOutside(before, heap.headers, r);
      hide KeptOutside;
      while i < n
        invariant 1 <= i <= n && block == Block(r, i - 1) && Layout() == r && memory == base == head
        invariant Labelled(heap.headers, this, r, i) && Threaded(heap.headers, r, base, Upto(i))
        invariant KeptOutside(before, heap.headers, r)
      {
        GrowThreaded(heap.headers, this, r, i);
        InRegion(r, i);
        InRegion(r, i - 1);
        KeptInside(before, heap.headers, r, Block(r, i), Header(i + 1, this, NULL));
        var next := block + (size + HEADER);
        heap.headers := heap.headers[next := Header(i + 1, this, NULL)];
        KeptInside(before, heap.headers, r, block, heap.headers[block].(next := next));
        heap.headers := heap.headers[block := heap.headers[block].(next := next)];
        block, i := next, i + 1;
      }
      free := Upto(n);
    }

    method Alloc() returns (ptr: nat)
      requires Valid()
      modifies this
      ensures Valid() && Layout() == old(Layout())
      ensures if old(free) == [] then ptr == NULL && free == []
              else ptr == Block(Layout(), old(free)[0]) + HEADER && free == old(free)[1..]
    {
      hide Block;
      if free != [] {
        BlockNotNull(Layout(), free[0]);
      }
      if head != NULL {
        PopThreaded(heap.headers, Layout(), head, free);
        var block := head;
        head := heap.headers[head].next;
        free := free[1..];
        return block + HEADER;
      }
      return NULL;
    }

    method Free(ptr: nat, ghost k: nat)
      requires Valid() && k in Live() && ptr == Block(Layout(), k) + HEADER
      modifies this, heap
      ensures Valid() && Layout() == old(Layout()) && free == [k] + old(free)
      ensures forall a :: a in old(heap.headers) && a != ptr - HEADER ==>
        a in heap.headers && heap.headers[a] == old(heap.headers[a])
    {
      hide Block;
      var block := ptr - HEADER;
      if heap.headers[block].blockId != 0 {
        PushThreaded(heap.headers, Layout(), head, free, k);
        heap.headers := heap.headers[block := heap.headers[block].(next := head)];
        head := block;
        free := [k] + free;
      }
    }
  }
}
