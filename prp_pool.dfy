/**
 * The device's DMA pool of PRP-list pages (dma_pool_create / dma_pool_alloc / dma_pool_free).
 * The pool is a fixed arena of page-sized blocks, each with its own bus address. A
 * block holds 512 little-endian PRP slots. A freed block keeps its old contents, and so
 * does a newly allocated one: the pool does not clear memory.
 */
module PrpPool {
  import opened Base
  import opened Endian

  /** Bus addresses usable for PRP-list pages: page aligned, nonzero, pairwise distinct. */
  ghost predicate GoodAddrs(addrs: seq<u64>)
  {
    (forall h :: 0 <= h < |addrs| ==> addrs[h] % PAGE_SIZE == 0 && addrs[h] != 0) &&
    (forall h, g :: 0 <= h < g < |addrs| ==> addrs[h] != addrs[g])
  }

  /** A block with slot i replaced by v. */
  function SlotUpdate(page: seq<Le64>, i: nat, v: Le64): (r: seq<Le64>)
    requires i < |page|
    ensures |r| == |page| && r[i] == v
    ensures forall j :: 0 <= j < |page| && j != i ==> r[j] == page[j]
  {
    page[i := v]
  }

  class PrpPagePool {
    /** Bus address of each block handle. */
    const addr: seq<u64>
    /** Contents of each block: PRP_SLOTS little-endian words. */
    var mem: seq<seq<Le64>>
    /** Handles available for allocation. */
    var free: seq<nat>
    /** Handles allocated and not yet returned. */
    var live: set<nat>

    ghost predicate Valid()
      reads this
    {
      GoodAddrs(addr) &&
      |mem| == |addr| &&
      (forall h :: 0 <= h < |mem| ==> |mem[h]| == PRP_SLOTS) &&
      (forall i :: 0 <= i < |free| ==> free[i] < |addr| && free[i] !in live) &&
      (forall i, j :: 0 <= i < j < |free| ==> free[i] != free[j]) &&
      (forall h :: h in live ==> h < |addr|)
    }

    /** A pool over the given blocks, all of them available. */
    constructor (addrs: seq<u64>)
      requires GoodAddrs(addrs)
      ensures Valid()
      ensures addr == addrs && live == {} && |free| == |addrs|
    {
      addr := addrs;
      mem := seq(|addrs|, _ => seq(PRP_SLOTS, _ => LeZero));
      free := seq(|addrs|, i => i);
      live := {};
    }

    /** dma_pool_alloc: a block not handed out before, or None once the pool is exhausted. */
    method Alloc() returns (h: Option<nat>)
      requires Valid()
      modifies this
      ensures Valid()
      ensures h.None? <==> old(|free|) == 0
      ensures h.None? ==> live == old(live) && free == old(free)
      ensures h.Some? ==> h.value < |addr| && h.value !in old(live) && live == old(live) + {h.value}
      ensures h.Some? ==> |free| == old(|free|) - 1
      ensures mem == old(mem)
    {
      if |free| == 0 {
        h := None;
      } else {
        var b := free[|free| - 1];
        free := free[..|free| - 1];
        live := live + {b};
        h := Some(b);
      }
    }

    /** dma_pool_free: returns a live block, given together with its bus address. */
    method Free(h: nat, dma: u64)
      requires Valid() && h in live && dma == addr[h]
      modifies this
      ensures Valid()
      ensures live == old(live) - {h} && |free| == old(|free|) + 1
      ensures mem == old(mem)
    {
      free := free + [h];
      live := live - {h};
    }

    /** A store into slot i of a live block; every other slot of every block is unchanged. */
    method Write(h: nat, i: nat, v: Le64)
      requires Valid() && h in live && i < PRP_SLOTS
      modifies this
      ensures Valid()
      ensures mem == old(mem)[h := SlotUpdate(old(mem)[h], i, v)]
      ensures live == old(live) && free == old(free)
    {
      mem := mem[h := SlotUpdate(mem[h], i, v)];
    }
  }
}
