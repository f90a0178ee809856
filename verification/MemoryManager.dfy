/** The allocator: three size classes of pooled blocks, and malloc for the rest. */
module MemoryManager {
  import opened MemoryPool

  const CLASSES: seq<(nat, nat)> := [(4096, 50), (40960, 10), (102400, 5)]

  // The first class whose blocks are large enough, or 3.
  function ClassOf(size: nat): (n: nat)
    ensures n <= 3
    ensures n < 3 ==> size <= CLASSES[n].0
    ensures forall m :: 0 <= m < n ==> CLASSES[m].0 < size
  {
    if size <= CLASSES[0].0 then 0 else if size <= CLASSES[1].0 then 1 else if size <= CLASSES[2].0 then 2 else 3
  }

  // Addresses from a up to b and from c up to d have none in common.
  predicate Apart(a: nat, b: nat, c: nat, d: nat) {
    b <= c || d <= a
  }

  predicate RegionsApart(r: Region, s: Region) {
    Apart(r.base, End(r), s.base, End(s))
  }

  function RegionAt(base: nat, n: nat): Region
    requires n < 3
  {
    Region(base, CLASSES[n].0, CLASSES[n].1)
  }

  // A pool does not notice changes to headers that are not its own.
  lemma KeptList(
    before: map<nat, Header>, after: map<nat, Header>, pool: MemoryPool, r: Region, head: nat, free: seq<nat>)
    requires Labelled(before, pool, r, r.blocks) && Threaded(before, r, head, free)
    requires forall k: nat :: k < r.blocks ==> Block(r, k) in after && after[Block(r, k)] == before[Block(r, k)]
    ensures Labelled(after, pool, r, r.blocks) && Threaded(after, r, head, free)
  {
    hide Block;
    forall i | 0 <= i < |free| ensures Linked(after, r, free, i) {
      assert Linked(before, r, free, i);
    }
  }

  // Headers in another region change.
  lemma KeptApart(before: map<nat, Header>, after: map<nat, Header>, other: Region, pool: MemoryPool)
    requires Labelled(before, pool, pool.Layout(), pool.numBlocks)
    requires Threaded(before, pool.Layout(), pool.head, pool.free)
    requires RegionsApart(pool.Layout(), other) && KeptOutside(before, after, other)
    ensures Labelled(after, pool, pool.Layout(), pool.numBlocks) && Threaded(after, pool.Layout(), pool.head, pool.free)
  {
    hide Block, Threaded;
    var r := pool.Layout();
    forall k: nat | k < r.blocks ensures Block(r, k) in after && after[Block(r, k)] == before[Block(r, k)] {
      InRegion(r, k);
    }
    KeptList(before, after, pool, r, pool.head, pool.free);
  }

  // A header outside a pool's region changes.
  lemma KeptAround(before: map<nat, Header>, after: map<nat, Header>, at: nat, pool: MemoryPool)
    requires Labelled(before, pool, pool.Layout(), pool.numBlocks)
    requires Threaded(before, pool.Layout(), pool.head, pool.free)
    requires Apart(at, at + HEADER, pool.memory, End(pool.Layout()))
    requires forall a :: a in before && a != at ==> a in after && after[a] == before[a]
    ensures Labelled(after, pool, pool.Layout(), pool.numBlocks) && Threaded(after, pool.Layout(), pool.head, pool.free)
  {
    hide Block, Threaded;
    var r := pool.Layout();
    forall k: nat | k < r.blocks ensures Block(r, k) in after && after[Block(r, k)] == before[Block(r, k)] {
      InRegion(r, k);
    }
    KeptList(before, after, pool, r, pool.head, pool.free);
  }

  // Where a live block is.
  datatype Place = InPool(n: nat, k: nat) | Malloced

  method NewPool(heap: Heap, base: nat, n: nat) returns (pool: MemoryPool)
    requires base != NULL && n < 3
    modifies heap
    ensures fresh(pool) && pool.heap == heap && pool.Valid() && pool.Layout() == RegionAt(base, n) && pool.Live() == {}
    ensures KeptOutside(old(heap.headers), heap.headers, RegionAt(base, n))
  {
    hide Block, End, Labelled, Threaded;
    pool := new MemoryPool(heap);
    var _ := pool.Init(base, CLASSES[n].0, CLASSES[n].1);
    forall k: nat | k < pool.numBlocks ensures k in pool.free {
      assert pool.free[k] == k;
    }
    assert pool.Live() == {};
  }

  class MemoryManager {
    const heap: Heap
    const pools: seq<MemoryPool>
    ghost var malloced: map<nat, nat>  // sizes, by the address of the header

    ghost predicate PoolsSet()
      reads pools
    {
      && |pools| == 3 && pools[0] != pools[1] && pools[0] != pools[2] && pools[1] != pools[2]
      && (forall n :: 0 <= n < 3 ==>
            && pools[n].heap == heap
            && pools[n].blockSize == CLASSES[n].0 && pools[n].numBlocks == CLASSES[n].1)
      && (forall m, n :: 0 <= m < n < 3 ==> RegionsApart(pools[m].Layout(), pools[n].Layout()))
    }

    // A block from malloc is nowhere else and is marked as belonging to no pool.
    ghost predicate MallocedAt(a: nat)
      requires a in malloced && |pools| == 3
      reads this, heap, pools
    {
      && a in heap.headers && heap.headers[a].blockId == 0
      && (forall n :: 0 <= n < 3 ==> Apart(a, a + HEADER + malloced[a], pools[n].memory, End(pools[n].Layout())))
      && (forall b :: b in malloced && b != a ==> Apart(a, a + HEADER + malloced[a], b, b + HEADER + malloced[b]))
    }

    ghost predicate Valid()
      reads this, heap, pools
    {
      && PoolsSet()
      && (forall n :: 0 <= n < 3 ==> pools[n].Valid())
      && (forall a :: a in malloced ==> MallocedAt(a))
    }

    // What malloc promises of the address it returns.
    ghost predicate RoomAt(at: nat, size: nat)
      requires |pools| == 3
      reads this, pools
    {
      && at != NULL
      && (forall n :: 0 <= n < 3 ==> Apart(at, at + HEADER + size, pools[n].memory, End(pools[n].Layout())))
      && (forall b :: b in malloced ==> Apart(at, at + HEADER + size, b, b + HEADER + malloced[b]))
    }

    ghost predicate IsLive(ptr: nat, place: Place)
      requires |pools| == 3
      reads this, pools
    {
      match place
      case InPool(n, k) => n < 3 && k in pools[n].Live() && ptr == Block(pools[n].Layout(), k) + HEADER
      case Malloced => ptr >= HEADER && ptr - HEADER in malloced
    }

    // How many bytes the caller may use.
    ghost function Capacity(ptr: nat, place: Place): nat
      requires |pools| == 3 && IsLive(ptr, place)
      reads this, pools
    {
      match place
      case InPool(n, _) => pools[n].blockSize
      case Malloced => malloced[ptr - HEADER]
    }

    /** The addresses of the pools' memory come from malloc. */
    constructor (a: nat, b: nat, c: nat)
      requires a != NULL && b != NULL && c != NULL
      requires RegionsApart(RegionAt(a, 0), RegionAt(b, 1)) && RegionsApart(RegionAt(a, 0), RegionAt(c, 2))
      requires RegionsApart(RegionAt(b, 1), RegionAt(c, 2))
      ensures Valid() && malloced == map[] && forall n :: 0 <= n < 3 ==> pools[n].Live() == {}
    {
      hide Block, End, Labelled, Threaded;
      var memory := new Heap();
      var p := NewPool(memory, a, 0);
      ghost var before := memory.headers;
      var q := NewPool(memory, b, 1);
      KeptApart(before, memory.headers, RegionAt(b, 1), p);
      before := memory.headers;
      var r := NewPool(memory, c, 2);
      KeptApart(before, memory.headers, RegionAt(c, 2), p);
      KeptApart(before, memory.headers, RegionAt(c, 2), q);
      heap, pools, malloced := memory, [p, q, r], map[];
    }

    /** Two live blocks never overlap, headers included. */
    lemma LiveApart(p: nat, pp: Place, q: nat, qq: Place)
      requires Valid() && IsLive(p, pp) && IsLive(q, qq) && (pp, p) != (qq, q)
      ensures Apart(p - HEADER, p + Capacity(p, pp), q - HEADER, q + Capacity(q, qq))
    {
      hide Block, End;
      if pp.InPool? {
        InRegion(pools[pp.n].Layout(), pp.k);
      }
      if qq.InPool? {
        InRegion(pools[qq.n].Layout(), qq.k);
      }
      if pp.InPool? && qq.InPool? && pp.n == qq.n {
        if pp.k < qq.k {
          BlocksApart(pools[pp.n].Layout(), pp.k, qq.k);
        } else {
          BlocksApart(pools[pp.n].Layout(), qq.k, pp.k);
        }
      }
    }

    /** A block of the first class that is large enough, or from malloc, which is the address
        `at` of free memory, when the class is used up or there is none. */
    method Alloc(size: nat, at: nat) returns (ptr: nat)
      requires Valid() && RoomAt(at, size)
      modifies this, heap, pools
      ensures Valid()
      ensures var n := ClassOf(size);
        if n < 3 && old(pools[n].free) != [] then
          && ptr == Block(pools[n].Layout(), old(pools[n].free)[0]) + HEADER && malloced == old(malloced)
          && pools[n].free == old(pools[n].free)[1..]
          && forall m :: 0 <= m < 3 && m != n ==> pools[m].free == old(pools[m].free)
        else
          && ptr == at + HEADER && malloced == old(malloced)[at := size]
          && forall m :: 0 <= m < 3 ==> pools[m].free == old(pools[m].free)
    {
      hide Block, End, Labelled, Threaded, Apart, RegionsApart;
      var n := 0;
      while n < 3
        invariant n <= ClassOf(size)
      {
        if size <= pools[n].blockSize {
          ptr := pools[n].Alloc();
          if ptr != NULL {
            return;
          } else {
            break;
          }
        }
        n := n + 1;
      }
      ptr := Malloc(size, at);
    }

    method Malloc(size: nat, at: nat) returns (ptr: nat)
      requires Valid() && RoomAt(at, size)
      modifies this, heap
      ensures Valid() && ptr == at + HEADER && malloced == old(malloced)[at := size]
    {
      hide Block, End, Labelled, Threaded;
      ghost var before := heap.headers;
      heap.headers := heap.headers[at := Header(0, null, NULL)];
      forall n | 0 <= n < 3 ensures pools[n].Valid() {
        KeptAround(before, heap.headers, at, pools[n]);
      }
      malloced := malloced[at := size];
      return at + HEADER;
    }

    /** The block goes back to where it came from: to the front of its pool's list, or to malloc. */
    method Free(ptr: nat, ghost place: Place)
      requires Valid() && IsLive(ptr, place)
      modifies this, heap, pools
      ensures Valid()
      ensures match place
        case InPool(n, k) =>
          && pools[n].free == [k] + old(pools[n].free) && malloced == old(malloced)
          && forall m :: 0 <= m < 3 && m != n ==> pools[m].free == old(pools[m].free)
        case Malloced =>
          && malloced == old(malloced) - {ptr - HEADER}
          && forall m :: 0 <= m < 3 ==> pools[m].free == old(pools[m].free)
    {
      hide Block, End, Labelled, Threaded;
      LiveHeader(ptr, place);
      var block := ptr - HEADER;
      var header := heap.headers[block];
      if header.pool != null && header.blockId > 0 {
        FreePooled(ptr, header.pool, place.n, place.k);
      } else {
        FreeMalloced(block);
      }
    }

    method FreePooled(ptr: nat, pool: MemoryPool, ghost n: nat, ghost k: nat)
      requires Valid() && IsLive(ptr, InPool(n, k)) && pool == pools[n]
      modifies this, heap, pools[n]
      ensures Valid() && malloced == old(malloced) && pools[n].free == [k] + old(pools[n].free)
    {
      hide Block, End, Labelled, Threaded;
      LiveHeader(ptr, InPool(n, k));
      OthersUnaffected(ptr - HEADER, n);
      hide Apart, RegionsApart;
      ghost var before := heap.headers;
      pool.Free(ptr, k);
      assert forall m :: 0 <= m < 3 ==> pools[m].Layout() == old(pools[m].Layout());
      forall m | 0 <= m < 3 && m != n ensures pools[m].Valid() {
        KeptAround(before, heap.headers, ptr - HEADER, pools[m]);
      }
    }

    // A header in pool n is outside the other pools and is not that of a block from malloc.
    lemma OthersUnaffected(block: nat, n: nat)
      requires Valid() && n < 3 && pools[n].memory <= block && block + HEADER <= End(pools[n].Layout())
      ensures forall m :: 0 <= m < 3 && m != n ==> pools[m] != pools[n]
      ensures forall a :: a in malloced ==> MallocedAt(a) && a != block
    {
      hide Block, End, Labelled, Threaded;
    }

    method FreeMalloced(block: nat)
      requires Valid() && block in malloced
      modifies this, heap
      ensures Valid() && malloced == old(malloced) - {block}
    {
      hide Block, End, Labelled, Threaded;
      ghost var before := heap.headers;
      heap.headers := heap.headers - {block};
      malloced := malloced - {block};
      forall m | 0 <= m < 3 ensures pools[m].Valid() {
        KeptAround(before, heap.headers, block, pools[m]);
      }
    }

    // What the header of a live block says.
    lemma LiveHeader(ptr: nat, place: Place)
      requires Valid() && IsLive(ptr, place)
      ensures ptr >= HEADER && ptr - HEADER in heap.headers
      ensures var h := heap.headers[ptr - HEADER];
        match place
        case InPool(n, k) =>
          && h.pool == pools[n] && h.blockId == k + 1
          && pools[n].memory <= ptr - HEADER && ptr <= End(pools[n].Layout())
          && forall m :: 0 <= m < 3 && m != n ==> Apart(ptr - HEADER, ptr, pools[m].memory, End(pools[m].Layout()))
        case Malloced => h.blockId == 0
    {
      hide Block, End, Threaded;
      if place.InPool? {
        InRegion(pools[place.n].Layout(), place.k);
      }
    }
  }
}
