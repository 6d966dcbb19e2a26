/**
 * PRP construction and release (setup_prps and free_prp_pool of dnvme_cmds.c), following
 * the PRP rules of section 4.3 of NVM Express 1.0: PRP1 describes the first, possibly
 * offset, page of the buffer; PRP2 describes the second page, or points at a PRP list
 * whose pages hold one entry per remaining page, the last entry of each full list page
 * pointing at the next list page.
 */
module PrpBuilder {
  import opened Base
  import opened Endian
  import opened PrpPool
  import opened Descriptors

  // ---------------------------------------------------------------------------------
  // Reference definitions
  // ---------------------------------------------------------------------------------

  /**
   * The page addresses the PRP-list loop emits and whether it stopped on
   * a segment that does not end on a page boundary (its -EFAULT exit).
   */
  datatype Walk = Walk(addrs: seq<u64>, fault: bool)

  function Prepend(a: u64, w: Walk): Walk
  {
    Walk([a] + w.addrs, w.fault)
  }

  function Cat(s: seq<u64>, w: Walk): Walk
  {
    Walk(s + w.addrs, w.fault)
  }

  /** The rest of segment k (d bytes) and the segments after it hold at least r bytes. */
  ghost predicate Covers(sg: seq<SgEntry>, k: nat, d: int, r: int)
  {
    k < |sg| && d + SumDmaLen(sg[k + 1..]) >= r
  }

  /**
   * The walk of the PRP-list loop. It starts at bus address a, inside segment k, with d
   * bytes left in that segment and r bytes of the buffer still to describe. Each step
   * emits one entry and advances one page. When the segment runs out exactly, the walk
   * moves to the next segment; when it overshoots, the walk faults.
   */
  function ListWalk(sg: seq<SgEntry>, k: nat, a: u64, d: int, r: int): (w: Walk)
    requires r > 0 && Covers(sg, k, d, r)
    ensures 1 <= |w.addrs| <= PageCount(r) && w.addrs[0] == a
    ensures !w.fault ==> |w.addrs| == PageCount(r)
    decreases r
  {
    if r - PAGE_SIZE <= 0 then
      Walk([a], false)
    else if d - PAGE_SIZE > 0 then
      Prepend(a, ListWalk(sg, k, AddrAdd(a, PAGE_SIZE), d - PAGE_SIZE, r - PAGE_SIZE))
    else if d - PAGE_SIZE < 0 then
      Walk([a], true)
    else
      assert sg[k + 1..] != [] by {
        assert SumDmaLen(sg[k + 1..]) > 0;
      }
      assert sg[k + 1..][1..] == sg[k + 2..];
      Prepend(a, ListWalk(sg, k + 1, sg[k + 1].dmaAddress, sg[k + 1].dmaLength, r - PAGE_SIZE))
  }

  /** DIV_ROUND_UP(n, PAGE_SIZE): the number of pages n bytes span from a page boundary. */
  function PageCount(n: nat): (c: nat)
    ensures 4096 * c >= n && (c > 0 ==> 4096 * (c - 1) < n)
  {
    DivRoundUp(n, PAGE_SIZE)
  }

  /** What setup_prps accepts: a mapped list that covers a positive, 32-bit signed length. */
  ghost predicate SgReady(sg: seq<SgEntry>, bufLen: int)
  {
    |sg| >= 1 && 0 < bufLen <= S32_MAX && SumDmaLen(sg) >= bufLen &&
    forall i :: 0 <= i < |sg| ==> sg[i].dmaLength <= S32_MAX
  }

  /**
   * The outcome setup_prps aims for. PRP1 alone, PRP1 and PRP2, a list named by PRP2
   * (listLen bytes after the first page), or, for a physically discontiguous I/O
   * queue, a list named by PRP1 covering the whole buffer.
   */
  datatype Plan =
    | Direct1(a1: u64)
    | Direct2(a1: u64, a2: u64)
    | List2(a1: u64, listLen: nat, walk: Walk)
    | List1(listLen: nat, walk: Walk)

  function PlanOf(sg: seq<SgEntry>, bufLen: int, crIoQ: bool): (p: Plan)
    requires SgReady(sg, bufLen)
    ensures crIoQ <==> p.List1?
    ensures (p.List1? || p.List2?) ==> |p.walk.addrs| >= 1
    ensures p.List1? ==> p.listLen == bufLen && p.walk.addrs[0] == sg[0].dmaAddress
    ensures !crIoQ ==> (p.Direct1? <==> bufLen <= PAGE_SIZE - sg[0].dmaAddress % PAGE_SIZE)
    ensures !crIoQ ==> (p.Direct2? <==>
      PAGE_SIZE - sg[0].dmaAddress % PAGE_SIZE < bufLen <= 2 * PAGE_SIZE - sg[0].dmaAddress % PAGE_SIZE)
    ensures !p.List1? ==> p.a1 == sg[0].dmaAddress
    ensures p.List2? ==> p.listLen == bufLen - (PAGE_SIZE - sg[0].dmaAddress % PAGE_SIZE) > PAGE_SIZE
    ensures (p.List1? || p.List2?) && !p.walk.fault ==> |p.walk.addrs| == PageCount(p.listLen)
    ensures p.Direct2? || p.List2? ==> SecondPage(sg, p)
  {
    var a0 := sg[0].dmaAddress;
    var off := OffsetInPage(a0);
    assert SumDmaLen(sg) == sg[0].dmaLength + SumDmaLen(sg[1..]);
    if crIoQ then
      List1(bufLen, ListWalk(sg, 0, a0, sg[0].dmaLength, bufLen))
    else
      var r := bufLen - (PAGE_SIZE - off);
      if r <= 0 then
        Direct1(a0)
      else
        var d := sg[0].dmaLength - (PAGE_SIZE - off);
        if d != 0 then
          var a := AddrAdd(a0, PAGE_SIZE - off);
          if r <= PAGE_SIZE then Direct2(a0, a) else List2(a0, r, ListWalk(sg, 0, a, d, r))
        else
          assert sg[1..] != [] by {
            assert SumDmaLen(sg[1..]) > 0;
          }
          assert sg[1..][1..] == sg[2..];
          var a := sg[1].dmaAddress;
          if r <= PAGE_SIZE then Direct2(a0, a) else List2(a0, r, ListWalk(sg, 1, a, sg[1].dmaLength, r))
  }

  /**
   * The second-page address: the first segment's address advanced past the first page when
   * the segment extends beyond it, otherwise the start of the second segment.
   */
  ghost predicate SecondPage(sg: seq<SgEntry>, p: Plan)
    requires |sg| >= 1 && (p.Direct2? || p.List2?) && (p.List2? ==> |p.walk.addrs| >= 1)
  {
    var off := sg[0].dmaAddress % PAGE_SIZE;
    var second := if p.Direct2? then p.a2 else p.walk.addrs[0];
    if sg[0].dmaLength != PAGE_SIZE - off then second == AddrAdd(sg[0].dmaAddress, PAGE_SIZE - off)
    else |sg| >= 2 && second == sg[1].dmaAddress
  }

  /** Number of list pages setup_prps uses for e entries: 511 per page, 512 on the last. */
  function PagesFor(e: nat): (p: nat)
    ensures e >= 1 ==> p >= 1
    ensures e >= 1 ==> e <= 511 * (p - 1) + 512
    ensures p > 1 ==> e >= 511 * (p - 1) + 2
    decreases e
  {
    if e <= PRP_SLOTS then 1 else 1 + PagesFor(e - LAST_PRP)
  }

  /** The bounds of PagesFor determine it. */
  lemma {:induction false} PagesForExact(e: nat, p: nat)
    requires p >= 1 && 1 <= e <= 511 * (p - 1) + 512
    requires p > 1 ==> e >= 511 * (p - 1) + 2
    ensures PagesFor(e) == p
    decreases p
  {
    if p > 1 {
      PagesForExact(e - LAST_PRP, p - 1);
    }
  }

  /** More entries than p full pages and a successor need at least p + 1 pages. */
  lemma {:induction false} PagesForLower(e: nat, p: nat)
    requires e >= 511 * p + 2
    ensures PagesFor(e) >= p + 1
    decreases p
  {
    if p > 0 {
      PagesForLower(e - LAST_PRP, p - 1);
    }
  }

  /**
   * Number of list pages the loop holds when it stops on walk w. A completed walk needs
   * PagesFor of its entries. A faulting walk stops right after storing its last entry, and
   * a page is chained whenever slot 511 is reached with more than a page left, so its e
   * entries fill pages of 511 and end on page 1 + (e - 1) / 511.
   */
  function PagesTaken(w: Walk): (p: nat)
    ensures p >= 1
  {
    if !w.fault then PagesFor(|w.addrs|)
    else if |w.addrs| == 0 then 1
    else 1 + (|w.addrs| - 1) / LAST_PRP
  }

  /** A faulting walk whose last entry sits in a slot below 511 of page p takes p pages. */
  lemma FaultPagesExact(w: Walk, p: nat)
    requires w.fault && p >= 1 && 511 * (p - 1) + 1 <= |w.addrs| <= 511 * (p - 1) + 511
    ensures PagesTaken(w) == p
  {
    var e := |w.addrs|;
    var q := (e - 1) / LAST_PRP;
    assert e - 1 == 511 * q + (e - 1) % LAST_PRP;
  }

  /** A faulting walk with an entry past p full pages takes more than p pages. */
  lemma FaultPagesLower(w: Walk, p: nat)
    requires w.fault && |w.addrs| >= 511 * p + 1
    ensures PagesTaken(w) >= p + 1
  {
    var e := |w.addrs|;
    var q := (e - 1) / LAST_PRP;
    assert e - 1 == 511 * q + (e - 1) % LAST_PRP;
  }

  /** Size of the page-handle array setup_prps allocates for a list of len bytes. */
  function NumPg(len: nat): nat
  {
    DivRoundUp(8 * PageCount(len), 4088)
  }

  /** The page-handle array always has room for every list page the loop uses. */
  lemma PagesForFitsNumPg(len: nat)
    requires len > 0
    ensures PagesFor(PageCount(len)) <= NumPg(len)
  {
    var e := PageCount(len);
    var p := PagesFor(e);
    if p > 1 {
      assert 8 * e >= 8 * (511 * (p - 1) + 2);
    }
  }

  /** Chaining when p pages are full and more than a page of data remains stays in the array. */
  lemma NumPgRoom(len: nat, p: nat)
    requires len > 4096 * (511 * p + 1)
    ensures p < NumPg(len)
  {
    var e := PageCount(len);
    assert e >= 511 * p + 2;
  }

  // ---------------------------------------------------------------------------------
  // Layout of a PRP list in pool pages
  // ---------------------------------------------------------------------------------

  ghost predicate Distinct(s: seq<nat>)
  {
    forall i, j :: 0 <= i < j < |s| ==> s[i] != s[j]
  }

  /**
   * The pool blocks `pages` hold `entries` as a chained PRP list. Entry t is in block t / 511
   * at slot t % 511. Every block but the last is full and its last slot
   * holds the next block's bus address. The last block holds `index` entries.
   */
  ghost predicate Laid(mem: seq<seq<Le64>>, addr: seq<u64>, pages: seq<nat>, entries: seq<u64>, index: nat)
  {
    |pages| >= 1 && index <= PRP_SLOTS &&
    |entries| == 511 * (|pages| - 1) + index &&
    (forall k :: 0 <= k < |pages| ==> pages[k] < |mem| && pages[k] < |addr| && |mem[pages[k]]| == PRP_SLOTS) &&
    (forall k, s :: 0 <= k < |pages| - 1 && 0 <= s < LAST_PRP ==>
      mem[pages[k]][s] == CpuToLe64(entries[511 * k + s])) &&
    (var last := mem[pages[|pages| - 1]];
     forall s :: 0 <= s < index ==> last[s] == CpuToLe64(entries[511 * (|pages| - 1) + s])) &&
    (forall k :: 0 <= k < |pages| - 1 ==> mem[pages[k]][LAST_PRP] == CpuToLe64(addr[pages[k + 1]]))
  }

  /** Storing the next entry in the last block extends the layout by that entry. */
  lemma LaidAppend(mem: seq<seq<Le64>>, addr: seq<u64>, pages: seq<nat>, entries: seq<u64>, index: nat, x: u64)
    requires Laid(mem, addr, pages, entries, index) && Distinct(pages) && index < PRP_SLOTS
    ensures var last := pages[|pages| - 1];
      Laid(mem[last := SlotUpdate(mem[last], index, CpuToLe64(x))], addr, pages, entries + [x], index + 1)
  {
    var last := pages[|pages| - 1];
    var mem' := mem[last := SlotUpdate(mem[last], index, CpuToLe64(x))];
    var e' := entries + [x];
    var n := |pages|;
    forall k, s | 0 <= k < n - 1 && 0 <= s < LAST_PRP
      ensures mem'[pages[k]][s] == CpuToLe64(e'[511 * k + s])
    {
      assert pages[k] != last;
    }
    forall k | 0 <= k < n - 1
      ensures mem'[pages[k]][LAST_PRP] == CpuToLe64(addr[pages[k + 1]])
    {
      assert pages[k] != last;
    }
    forall s | 0 <= s < index + 1
      ensures mem'[last][s] == CpuToLe64(e'[511 * (n - 1) + s])
    {
    }
  }

  /** Chaining a fresh block behind a full last block starts an empty last block. */
  lemma LaidChain(mem: seq<seq<Le64>>, addr: seq<u64>, pages: seq<nat>, entries: seq<u64>, h: nat)
    requires Laid(mem, addr, pages, entries, LAST_PRP) && Distinct(pages) && h !in pages
    requires h < |mem| && h < |addr| && |mem[h]| == PRP_SLOTS
    ensures var last := pages[|pages| - 1];
      Laid(mem[last := SlotUpdate(mem[last], LAST_PRP, CpuToLe64(addr[h]))], addr, pages + [h], entries, 0)
    ensures Distinct(pages + [h])
  {
    var last := pages[|pages| - 1];
    var mem' := mem[last := SlotUpdate(mem[last], LAST_PRP, CpuToLe64(addr[h]))];
    var pages' := pages + [h];
    var n := |pages|;
    forall k, s | 0 <= k < n && 0 <= s < LAST_PRP
      ensures mem'[pages'[k]][s] == CpuToLe64(entries[511 * k + s])
    {
      if k < n - 1 {
        assert pages[k] != last;
      }
    }
    forall k | 0 <= k < n
      ensures mem'[pages'[k]][LAST_PRP] == CpuToLe64(addr[pages'[k + 1]])
    {
      if k < n - 1 {
        assert pages[k] != last;
      }
    }
  }

  /** A laid-out list whose blocks are live and distinct is a chain free_prp_pool can walk. */
  lemma LaidChainValid(mem: seq<seq<Le64>>, addr: seq<u64>, live: set<nat>, p: Prps, n: nat, entries: seq<u64>, index: nat)
    requires n <= |p.virPrpList| && Laid(mem, addr, p.virPrpList[..n], entries, index)
    requires Distinct(p.virPrpList[..n]) && forall i :: 0 <= i < n ==> p.virPrpList[i] in live
    requires p.firstDma == addr[p.virPrpList[0]]
    ensures ChainValid(mem, addr, live, p, n)
  {
    var pages := p.virPrpList[..n];
    forall i | 0 <= i < n - 1
      ensures Le64ToCpu(mem[p.virPrpList[i]][LAST_PRP]) == addr[p.virPrpList[i + 1]]
    {
      assert pages[i] == p.virPrpList[i] && pages[i + 1] == p.virPrpList[i + 1];
      Le64RoundTrip(addr[pages[i + 1]]);
    }
    forall i, j | 0 <= i < j < n
      ensures p.virPrpList[i] != p.virPrpList[j]
    {
      assert pages[i] == p.virPrpList[i] && pages[j] == p.virPrpList[j];
    }
    forall i | 0 <= i < n
      ensures p.virPrpList[i] < |mem| && p.virPrpList[i] < |addr| && |mem[p.virPrpList[i]]| == PRP_SLOTS
    {
      assert pages[i] == p.virPrpList[i];
    }
  }

  /**
   * The first n list pages of p are distinct live blocks. Slot 511 of each one except
   * the last decodes to the bus address of the next, and firstDma is the first block's
   * address.
   */
  ghost predicate ChainValid(mem: seq<seq<Le64>>, addr: seq<u64>, live: set<nat>, p: Prps, n: nat)
  {
    n <= |p.virPrpList| &&
    (forall i :: 0 <= i < n ==>
      (p.virPrpList[i] in live && p.virPrpList[i] < |mem| &&
       p.virPrpList[i] < |addr| && |mem[p.virPrpList[i]]| == PRP_SLOTS)) &&
    (forall i, j :: 0 <= i < j < n ==> p.virPrpList[i] != p.virPrpList[j]) &&
    (n > 0 ==> p.firstDma == addr[p.virPrpList[0]]) &&
    (forall i :: 0 <= i < n - 1 ==> Le64ToCpu(mem[p.virPrpList[i]][LAST_PRP]) == addr[p.virPrpList[i + 1]])
  }

  /** A chain stays valid when blocks outside it are freed. */
  lemma ChainValidFrame(mem: seq<seq<Le64>>, addr: seq<u64>, live: set<nat>, gone: set<nat>, p: Prps, n: nat)
    requires ChainValid(mem, addr, live, p, n) && ListPages(p.virPrpList, n) !! gone
    ensures ChainValid(mem, addr, live - gone, p, n)
  {
    forall i | 0 <= i < n
      ensures p.virPrpList[i] !in gone
    {
      assert p.virPrpList[i] in ListPages(p.virPrpList, n);
    }
  }

  /**
   * What the list part of setup_prps achieves, stated over the walk w it follows.
   * numPg is the size of the page-handle array. The state before the call is oldLive and
   * oldFree; the state after it is mem, live and free. The error is decided by the walk
   * and the pool alone: -ENOMEM exactly when the pool holds fewer pages than the loop
   * takes before stopping, otherwise -EFAULT exactly when the walk faults.
   */
  ghost predicate ListOutcome(err: int, out: Prps, w: Walk, numPg: nat, oldLive: set<nat>, oldFree: nat,
                              mem: seq<seq<Le64>>, addr: seq<u64>, live: set<nat>, free: nat)
  {
    |out.virPrpList| == numPg &&
    err == (if oldFree < PagesTaken(w) then -ENOMEM else if w.fault then -EFAULT else 0) &&
    (err == 0 ==>
      !w.fault && out.npages == PagesFor(|w.addrs|) && out.npages <= numPg && out.virPrpListHeld &&
      ChainValid(mem, addr, live, out, out.npages) &&
      Laid(mem, addr, out.virPrpList[..out.npages], w.addrs, |w.addrs| - 511 * (out.npages - 1)) &&
      ListPages(out.virPrpList, out.npages) !! oldLive &&
      live == oldLive + ListPages(out.virPrpList, out.npages) && free == oldFree - out.npages &&
      (if out.prpType == Prp1List then out.prp1 else out.prp2) == CpuToLe64(out.firstDma)) &&
    (err == -EFAULT ==> w.fault && live == oldLive && free == oldFree && !out.virPrpListHeld) &&
    (err == -ENOMEM ==> live == oldLive && free == oldFree && (out.virPrpListHeld <==> oldFree == 0))
  }

  // ---------------------------------------------------------------------------------
  // Operations
  // ---------------------------------------------------------------------------------

  /**
   * free_prp_pool: walks the chain from firstDma, reading each next address from slot 511
   * before returning the block, for npages blocks; then frees the page-handle array.
   * Descriptors that are not list types are left alone.
   */
  method FreePrpPool(pool: PrpPagePool, prps: Prps, npages: nat) returns (out: Prps)
    requires pool.Valid()
    requires prps.prpType.IsList() ==> ChainValid(pool.mem, pool.addr, pool.live, prps, npages)
    modifies pool
    ensures pool.Valid() && pool.mem == old(pool.mem)
    ensures prps.prpType.IsList() ==>
      pool.live == old(pool.live) - ListPages(prps.virPrpList, npages) &&
      |pool.free| == old(|pool.free|) + npages && out == prps.(virPrpListHeld := false)
    ensures !prps.prpType.IsList() ==> pool.live == old(pool.live) && pool.free == old(pool.free) && out == prps
  {
    out := prps;
    if prps.prpType.IsList() {
      var prpDma := prps.firstDma;
      var nextPrpDma: u64 := 0;
      var i := 0;
      while i < npages
        invariant 0 <= i <= npages
        invariant pool.Valid() && pool.mem == old(pool.mem)
        invariant pool.live == old(pool.live) - ListPages(prps.virPrpList, i)
        invariant |pool.free| == old(|pool.free|) + i
        invariant i < npages ==> prpDma == pool.addr[prps.virPrpList[i]]
      {
        var vlist := prps.virPrpList[i];
        if i < npages - 1 {
          nextPrpDma := Le64ToCpu(pool.mem[vlist][LAST_PRP]);
        }
        assert vlist !in ListPages(prps.virPrpList, i);
        pool.Free(vlist, prpDma);
        assert ListPages(prps.virPrpList, i + 1) == ListPages(prps.virPrpList, i) + {vlist};
        prpDma := nextPrpDma;
        i := i + 1;
      }
      out := prps.(virPrpListHeld := false);
    }
  }

  /**
   * Where the list loop stands: the descriptor so far, the number of list pages taken, the
   * last page and how many entries it holds, and the walk cursor (segment k, bus address a,
   * d bytes left in the segment, r bytes of the buffer left).
   */
  datatype Fill = Fill(out: Prps, prpPage: nat, cur: nat, index: nat, k: nat, a: u64, d: int, r: int)

  /**
   * The fixed context of one list construction: the scatter list, the walk it must
   * follow, the list length and array size, the incoming descriptor and the pool state
   * on entry.
   */
  datatype Frame = Frame(sg: seq<SgEntry>, w: Walk, r0: int, numPg: nat, prps: Prps,
                         oldLive: set<nat>, oldMem: seq<seq<Le64>>, oldFree: nat)

  /** The page structure built so far: prpPage fresh, distinct, live pages laying out `written`. */
  ghost predicate Built(mem: seq<seq<Le64>>, addr: seq<u64>, live: set<nat>, free: nat, fr: Frame,
                        out: Prps, prpPage: nat, written: seq<u64>, index: nat)
  {
    |out.virPrpList| == fr.numPg && 1 <= prpPage <= fr.numPg &&
    Distinct(out.virPrpList[..prpPage]) &&
    Laid(mem, addr, out.virPrpList[..prpPage], written, index) &&
    Owned(live, free, fr, out.virPrpList, prpPage) &&
    Named(addr, fr, out) &&
    Untouched(mem, fr)
  }

  /** The first n list pages were taken from the pool by this construction, and nothing else was. */
  ghost predicate Owned(live: set<nat>, free: nat, fr: Frame, vir: seq<nat>, n: nat)
  {
    n <= |vir| &&
    (forall i :: 0 <= i < n ==> vir[i] in live && vir[i] !in fr.oldLive) &&
    live == fr.oldLive + ListPages(vir, n) && free == fr.oldFree - n
  }

  /** The descriptor fields of a list under construction: list type, first page named in PRP1 or PRP2. */
  ghost predicate Named(addr: seq<u64>, fr: Frame, out: Prps)
  {
    SameBuffer(out, fr.prps) && out.prpType == fr.prps.prpType && out.prpType.IsList() && out.npages == fr.prps.npages &&
    out.virPrpListHeld && |out.virPrpList| >= 1 && out.virPrpList[0] < |addr| &&
    out.firstDma == addr[out.virPrpList[0]] &&
    (if out.prpType == Prp1List then out.prp1 else out.prp2) == CpuToLe64(out.firstDma) &&
    (out.prpType == Prp2List ==> out.prp1 == fr.prps.prp1) &&
    (out.prpType == Prp1List ==> out.prp2 == fr.prps.prp2)
  }

  /** The blocks live before the construction keep their contents. */
  ghost predicate Untouched(mem: seq<seq<Le64>>, fr: Frame)
  {
    forall h :: h in fr.oldLive ==> h < |mem| && h < |fr.oldMem| && mem[h] == fr.oldMem[h]
  }

  /**
   * Chaining fresh block b behind the full last block (storing b's bus address in slot 511
   * of it) keeps the structure, one page longer and with an empty last page.
   */
  lemma BuiltChain(mem: seq<seq<Le64>>, mem': seq<seq<Le64>>, addr: seq<u64>, live: set<nat>, free': nat, fr: Frame,
                   out: Prps, out': Prps, prpPage: nat, written: seq<u64>, cur: nat, b: nat)
    requires 1 <= prpPage < |out.virPrpList| && cur == out.virPrpList[prpPage - 1]
    requires cur < |mem| && |mem[cur]| == PRP_SLOTS
    requires Built(mem, addr, live, free' + 1, fr, out, prpPage, written, LAST_PRP)
    requires b !in live && b < |mem| && b < |addr| && |mem[b]| == PRP_SLOTS
    requires mem' == mem[cur := SlotUpdate(mem[cur], LAST_PRP, CpuToLe64(addr[b]))]
    requires out' == out.(virPrpList := out.virPrpList[prpPage := b])
    ensures Built(mem', addr, live + {b}, free', fr, out', prpPage + 1, written, 0)
  {
    var pages := out.virPrpList[..prpPage];
    assert b !in pages;
    LaidChain(mem, addr, pages, written, b);
    assert out'.virPrpList[..prpPage + 1] == pages + [b];
    ChainOwned(out.virPrpList, out'.virPrpList, prpPage, b, live, free', fr);
    assert cur !in fr.oldLive;
    assert Untouched(mem', fr);
    assert Named(addr, fr, out');
  }

  /** Recording fresh block b as list page prpPage keeps the ownership bookkeeping. */
  lemma ChainOwned(vir: seq<nat>, vir': seq<nat>, prpPage: nat, b: nat, live: set<nat>, free': nat, fr: Frame)
    requires prpPage < |vir| && vir' == vir[prpPage := b] && b !in live
    requires Owned(live, free' + 1, fr, vir, prpPage)
    ensures Owned(live + {b}, free', fr, vir', prpPage + 1)
  {
    ListPagesSnoc(vir', prpPage);
    ListPagesPrefix(vir, vir', prpPage);
    forall i | 0 <= i < prpPage + 1
      ensures vir'[i] in live + {b} && vir'[i] !in fr.oldLive
    {
      if i < prpPage {
        assert vir'[i] == vir[i];
      }
    }
  }

  /** Storing entry x in the last block keeps the structure, one entry longer. */
  lemma BuiltStore(mem: seq<seq<Le64>>, mem': seq<seq<Le64>>, addr: seq<u64>, live: set<nat>, free: nat, fr: Frame,
                   out: Prps, prpPage: nat, written: seq<u64>, index: nat, x: u64)
    requires Built(mem, addr, live, free, fr, out, prpPage, written, index)
    requires Laid(mem', addr, out.virPrpList[..prpPage], written + [x], index + 1)
    requires |mem'| == |mem| &&
      forall g :: g != out.virPrpList[prpPage - 1] && 0 <= g < |mem| ==> mem'[g] == mem[g]
    ensures Built(mem', addr, live, free, fr, out, prpPage, written + [x], index + 1)
  {
    assert out.virPrpList[prpPage - 1] !in fr.oldLive;
  }

  /** The walk cursor of the list loop, against the walk it must follow. */
  ghost predicate Cursor(fr: Frame, f: Fill, written: seq<u64>)
  {
    f.index <= LAST_PRP &&
    0 < f.r == fr.r0 - 4096 * |written| &&
    Covers(fr.sg, f.k, f.d, f.r) &&
    fr.w == Cat(written, ListWalk(fr.sg, f.k, f.a, f.d, f.r)) &&
    (f.prpPage == 1 || f.index >= 1 || f.r > PAGE_SIZE)
  }

  /** What the list loop keeps at the head of each iteration. */
  ghost predicate Filling(mem: seq<seq<Le64>>, addr: seq<u64>, live: set<nat>, free: nat, fr: Frame,
                          f: Fill, written: seq<u64>)
  {
    Built(mem, addr, live, free, fr, f.out, f.prpPage, written, f.index) &&
    f.cur == f.out.virPrpList[f.prpPage - 1] && Cursor(fr, f, written)
  }

  /**
   * The chaining branch of the list loop: takes a fresh pool page, records it in the
   * page-handle array and stores its bus address in slot 511 of the current last page.
   */
  method ChainPage(pool: PrpPagePool, f: Fill, ghost fr: Frame, ghost written: seq<u64>)
    returns (h: Option<nat>, out: Prps)
    requires pool.Valid() && Built(pool.mem, pool.addr, pool.live, |pool.free|, fr, f.out, f.prpPage, written, LAST_PRP)
    requires f.cur == f.out.virPrpList[f.prpPage - 1] && f.prpPage < fr.numPg
    modifies pool
    ensures pool.Valid()
    ensures h.None? <==> old(|pool.free|) == 0
    ensures h.None? ==> pool.live == old(pool.live) && pool.free == old(pool.free) && pool.mem == old(pool.mem)
    ensures h.Some? ==> out == f.out.(virPrpList := f.out.virPrpList[f.prpPage := h.value])
    ensures h.Some? ==> Built(pool.mem, pool.addr, pool.live, |pool.free|, fr, out, f.prpPage + 1, written, 0)
  {
    out := f.out;
    h := pool.Alloc();
    if h.Some? {
      var b := h.value;
      ghost var mem := pool.mem;
      pool.Write(f.cur, LAST_PRP, CpuToLe64(pool.addr[b]));
      out := f.out.(virPrpList := f.out.virPrpList[f.prpPage := b]);
      BuiltChain(mem, pool.mem, pool.addr, old(pool.live), |pool.free|, fr, f.out, out, f.prpPage, written, f.cur, b);
    }
  }

  /**
   * The chaining step at the top of the list loop: when slot 511 is reached with more than a
   * page left, take a fresh page and chain it. Fails only when the pool is exhausted,
   * and then the walk, faulting or not, needs more pages than the pool had.
   */
  method ChainIfFull(pool: PrpPagePool, f: Fill, ghost fr: Frame, ghost written: seq<u64>)
    returns (ok: bool, f': Fill)
    requires pool.Valid() && Filling(pool.mem, pool.addr, pool.live, |pool.free|, fr, f, written)
    requires 0 < fr.r0 <= S32_MAX && fr.numPg == NumPg(fr.r0)
    modifies pool
    ensures pool.Valid()
    ensures ok ==> Filling(pool.mem, pool.addr, pool.live, |pool.free|, fr, f', written) &&
                   (f'.index < LAST_PRP || f'.r <= PAGE_SIZE) && f'.r == f.r
    ensures !ok ==> f' == f && pool.live == old(pool.live) && pool.free == old(pool.free) && pool.mem == old(pool.mem) &&
                    fr.oldFree < PagesTaken(fr.w)
  {
    f' := f;
    ok := true;
    if f.index == LAST_PRP && f.r > PAGE_SIZE {
      ListWalkLong(fr.sg, f.k, f.a, f.d, f.r);
      if !fr.w.fault {
        PagesForLower(|fr.w.addrs|, f.prpPage);
      } else {
        FaultPagesLower(fr.w, f.prpPage);
      }
      NumPgRoom(fr.r0, f.prpPage);
      var nxt, out := ChainPage(pool, f, fr, written);
      if nxt.None? {
        ok := false;
        return;
      }
      f' := f.(out := out, prpPage := f.prpPage + 1, cur := nxt.value, index := 0);
    }
  }

  /** How one store-and-advance step of the list loop ends. */
  datatype StepEnd = Continue | Done | Fault

  /** The last entry stored: the walk is complete and ends on the current page. */
  lemma StepDone(fr: Frame, f: Fill, written: seq<u64>)
    requires Cursor(fr, f, written) && f.r - PAGE_SIZE <= 0
    requires f.prpPage >= 1 && |written| == 511 * (f.prpPage - 1) + f.index
    ensures fr.w == Walk(written + [f.a], false) && PagesFor(|written| + 1) == f.prpPage
  {
    WalkStep(fr.sg, f.k, f.a, f.d, f.r);
    PagesForExact(|written| + 1, f.prpPage);
  }

  /** More of the segment remains: the walk goes on a page further in the same segment. */
  lemma StepOn(fr: Frame, f: Fill, written: seq<u64>)
    requires Cursor(fr, f, written) && f.r - PAGE_SIZE > 0 && f.d - PAGE_SIZE > 0 && f.index < LAST_PRP
    ensures Cursor(fr, f.(index := f.index + 1, a := AddrAdd(f.a, PAGE_SIZE), d := f.d - PAGE_SIZE, r := f.r - PAGE_SIZE),
                   written + [f.a])
  {
    WalkStep(fr.sg, f.k, f.a, f.d, f.r);
    CatPrepend(written, f.a, ListWalk(fr.sg, f.k, AddrAdd(f.a, PAGE_SIZE), f.d - PAGE_SIZE, f.r - PAGE_SIZE));
  }

  /** The segment ends inside a page while data remains: the walk faults. */
  lemma StepFault(fr: Frame, f: Fill, written: seq<u64>)
    requires Cursor(fr, f, written) && f.r - PAGE_SIZE > 0 && f.d - PAGE_SIZE < 0
    requires f.index < LAST_PRP && f.prpPage >= 1 && |written| == 511 * (f.prpPage - 1) + f.index
    ensures fr.w == Walk(written + [f.a], true) && PagesTaken(fr.w) == f.prpPage
  {
    WalkStep(fr.sg, f.k, f.a, f.d, f.r);
    FaultPagesExact(fr.w, f.prpPage);
  }

  /** The segment ends exactly on a page boundary: the walk continues in the next segment. */
  lemma StepNext(fr: Frame, f: Fill, written: seq<u64>)
    requires Cursor(fr, f, written) && f.r - PAGE_SIZE > 0 && f.d - PAGE_SIZE == 0 && f.index < LAST_PRP
    ensures f.k + 1 < |fr.sg|
    ensures f.k + 1 < |fr.sg| ==>
      Cursor(fr, f.(index := f.index + 1, k := f.k + 1, a := fr.sg[f.k + 1].dmaAddress,
                    d := fr.sg[f.k + 1].dmaLength, r := f.r - PAGE_SIZE),
             written + [f.a])
  {
    WalkStep(fr.sg, f.k, f.a, f.d, f.r);
    CatPrepend(written, f.a, ListWalk(fr.sg, f.k + 1, fr.sg[f.k + 1].dmaAddress, fr.sg[f.k + 1].dmaLength, f.r - PAGE_SIZE));
  }

  /** prp_list[index++] = cpu_to_le64(dma_addr): stores the entry for a in the last list page. */
  method StoreEntry(pool: PrpPagePool, f: Fill, ghost fr: Frame, ghost written: seq<u64>)
    requires pool.Valid() && Filling(pool.mem, pool.addr, pool.live, |pool.free|, fr, f, written)
    requires f.index < PRP_SLOTS
    modifies pool
    ensures pool.Valid() && pool.live == old(pool.live) && pool.free == old(pool.free)
    ensures Built(pool.mem, pool.addr, pool.live, |pool.free|, fr, f.out, f.prpPage, written + [f.a], f.index + 1)
  {
    ghost var mem := pool.mem;
    assert f.cur in pool.live;
    LaidAppend(pool.mem, pool.addr, f.out.virPrpList[..f.prpPage], written, f.index, f.a);
    pool.Write(f.cur, f.index, CpuToLe64(f.a));
    BuiltStore(mem, pool.mem, pool.addr, pool.live, |pool.free|, fr, f.out, f.prpPage, written, f.index, f.a);
  }

  /**
   * The rest of the list loop body, after the entry for a is stored: advance a page, and
   * stop when the buffer is described, fault when the segment overshoots, or move to the
   * next segment when it runs out exactly.
   */
  method Advance(sg: seq<SgEntry>, f: Fill, ghost fr: Frame, ghost written: seq<u64>) returns (e: StepEnd, f': Fill)
    requires sg == fr.sg && Cursor(fr, f, written) && (f.index < LAST_PRP || f.r <= PAGE_SIZE)
    requires f.prpPage >= 1 && |written| == 511 * (f.prpPage - 1) + f.index
    ensures f'.out == f.out && f'.prpPage == f.prpPage && f'.cur == f.cur && f'.index == f.index + 1
    ensures e == Continue ==> Cursor(fr, f', written + [f.a]) && f'.r < f.r
    ensures e == Done ==> fr.w == Walk(written + [f.a], false) && f.prpPage == PagesFor(|fr.w.addrs|)
    ensures e == Fault ==> fr.w == Walk(written + [f.a], true) && f.prpPage == PagesTaken(fr.w)
  {
    var d := f.d - PAGE_SIZE;
    var r := f.r - PAGE_SIZE;
    f' := f.(index := f.index + 1, a := AddrAdd(f.a, PAGE_SIZE), d := d, r := r);
    if r <= 0 {
      StepDone(fr, f, written);
      e := Done;
    } else if d > 0 {
      StepOn(fr, f, written);
      e := Continue;
    } else if d < 0 {
      StepFault(fr, f, written);
      e := Fault;
    } else {
      StepNext(fr, f, written);
      f' := f.(index := f.index + 1, k := f.k + 1, a := sg[f.k + 1].dmaAddress, d := sg[f.k + 1].dmaLength, r := r);
      e := Continue;
    }
  }

  /** The pages named so far are fresh: none was live before the construction. */
  lemma ListPagesFresh(vir: seq<nat>, n: nat, before: set<nat>)
    requires n <= |vir| && forall i :: 0 <= i < n ==> vir[i] !in before
    ensures ListPages(vir, n) !! before
  {
    forall x | x in ListPages(vir, n)
      ensures x !in before
    {
      var i :| 0 <= i < n && vir[i] == x;
    }
  }

  /** The structure built so far is a chain free_prp_pool can walk. */
  lemma BuiltChainValid(mem: seq<seq<Le64>>, addr: seq<u64>, live: set<nat>, free: nat, fr: Frame,
                        out: Prps, prpPage: nat, written: seq<u64>, index: nat)
    requires Built(mem, addr, live, free, fr, out, prpPage, written, index)
    ensures ChainValid(mem, addr, live, out, prpPage)
  {
    forall i | 0 <= i < prpPage
      ensures out.virPrpList[i] in live
    {
    }
    LaidChainValid(mem, addr, live, out, prpPage, written, index);
  }

  /** A completed walk laid out in fresh pages is the success outcome. */
  lemma OutcomeDone(mem: seq<seq<Le64>>, addr: seq<u64>, live: set<nat>, free: nat, fr: Frame,
                    out: Prps, prpPage: nat, index: nat)
    requires Built(mem, addr, live, free, fr, out, prpPage, fr.w.addrs, index)
    requires !fr.w.fault && prpPage == PagesFor(|fr.w.addrs|)
    ensures ListOutcome(0, out.(npages := prpPage), fr.w, fr.numPg, fr.oldLive, fr.oldFree, mem, addr, live, free)
    ensures Kept(mem, fr, out.(npages := prpPage), 0)
  {
    var out' := out.(npages := prpPage);
    BuiltChainValid(mem, addr, live, free, fr, out, prpPage, fr.w.addrs, index);
    LaidChainValid(mem, addr, live, out', prpPage, fr.w.addrs, index);
    ListPagesFresh(out.virPrpList, prpPage, fr.oldLive);
  }

  /** Returning every page taken restores the pool: the error outcomes. */
  lemma OutcomeFreed(err: int, mem: seq<seq<Le64>>, addr: seq<u64>, live: set<nat>, free: nat, fr: Frame,
                     out: Prps, prpPage: nat, written: seq<u64>, index: nat, live': set<nat>, free': nat)
    requires Built(mem, addr, live, free, fr, out, prpPage, written, index)
    requires live' == live - ListPages(out.virPrpList, prpPage) && free' == free + prpPage
    requires (err == -EFAULT && fr.w.fault && fr.oldFree >= PagesTaken(fr.w)) ||
             (err == -ENOMEM && fr.oldFree < PagesTaken(fr.w))
    ensures ListOutcome(err, out.(virPrpListHeld := false), fr.w, fr.numPg, fr.oldLive, fr.oldFree, mem, addr, live', free')
  {
    ListPagesFresh(out.virPrpList, prpPage, fr.oldLive);
    assert live' == fr.oldLive;
  }

  /**
   * The prp_list part of setup_prps. It sizes and allocates the page-handle array, takes
   * the first list page, and names it in PRP1 (Prp1List) or PRP2 (Prp2List). It then
   * stores one entry per page of the remaining r0 bytes, starting at bus address a0
   * inside segment k0 with d0 bytes left there, and chains a fresh page whenever slot 511 is
   * reached with more than a page still to describe.
   */
  method BuildPrpList(pool: PrpPagePool, sg: seq<SgEntry>, k0: nat, a0: u64, d0: int, r0: int, prps: Prps, ghost p: Plan)
    returns (err: int, out: Prps)
    requires pool.Valid() && 0 < r0 <= S32_MAX && Covers(sg, k0, d0, r0) && prps.prpType.IsList()
    requires (p.List1? || p.List2?) && p.listLen == r0 && p.walk == ListWalk(sg, k0, a0, d0, r0)
    modifies pool
    ensures pool.Valid()
    ensures forall h :: h in old(pool.live) ==> pool.mem[h] == old(pool.mem)[h]
    ensures SameBuffer(out, prps) && out.prpType == prps.prpType
    ensures out.prpType == Prp2List ==> out.prp1 == prps.prp1
    ensures out.prpType == Prp1List ==> out.prp2 == prps.prp2
    ensures err != 0 ==> out.npages == prps.npages
    ensures ListOutcome(err, out, p.walk, NumPg(p.listLen), old(pool.live), old(|pool.free|), pool.mem, pool.addr, pool.live, |pool.free|)
  {
    ghost var fr := Frame(sg, p.walk, r0, NumPg(r0), prps, pool.live, pool.mem, |pool.free|);
    // DIV_ROUND_UP(PRP_SIZE * DIV_ROUND_UP(r0, PAGE_SIZE), PAGE_SIZE - PRP_SIZE)
    var numPg := NumPg(r0);
    // The page-handle array. The check after this kmalloc tests the descriptor pointer
    // rather than the array, so a failed allocation is never reported; it is not modelled.
    out := prps.(virPrpList := seq(numPg, _ => 0), virPrpListHeld := true);
    var f;
    err, f := StartList(pool, out, k0, a0, d0, r0, fr);
    if err != 0 {
      // The page-handle array is dropped here without being freed.
      return;
    }
    err, out := FillList(pool, sg, f, fr);
  }

  /** The for (;;) loop of setup_prps, from the first list page on. */
  method FillList(pool: PrpPagePool, sg: seq<SgEntry>, f0: Fill, ghost fr: Frame) returns (err: int, out: Prps)
    requires sg == fr.sg && 0 < fr.r0 <= S32_MAX && fr.numPg == NumPg(fr.r0)
    requires pool.Valid() && Filling(pool.mem, pool.addr, pool.live, |pool.free|, fr, f0, [])
    modifies pool
    ensures pool.Valid() && Kept(pool.mem, fr, out, err)
    ensures ListOutcome(err, out, fr.w, fr.numPg, fr.oldLive, fr.oldFree, pool.mem, pool.addr, pool.live, |pool.free|)
  {
    var f := f0;
    ghost var written: seq<u64> := [];
    while true
      invariant pool.Valid() && Filling(pool.mem, pool.addr, pool.live, |pool.free|, fr, f, written)
      decreases f.r
    {
      var done;
      done, err, out, f, written := FillStep(pool, sg, f, fr, written);
      if done {
        return;
      }
    }
  }

  /**
   * One pass of the list loop: chain a fresh page if the current one is full, then store
   * and advance. Either the loop goes on from a shorter remainder, or it has ended with
   * the outcome of the whole construction.
   */
  method FillStep(pool: PrpPagePool, sg: seq<SgEntry>, f: Fill, ghost fr: Frame, ghost written: seq<u64>)
    returns (done: bool, err: int, out: Prps, f': Fill, ghost written': seq<u64>)
    requires sg == fr.sg && 0 < fr.r0 <= S32_MAX && fr.numPg == NumPg(fr.r0)
    requires pool.Valid() && Filling(pool.mem, pool.addr, pool.live, |pool.free|, fr, f, written)
    modifies pool
    ensures pool.Valid()
    ensures !done ==> Filling(pool.mem, pool.addr, pool.live, |pool.free|, fr, f', written') && f'.r < f.r
    ensures done ==> Kept(pool.mem, fr, out, err)
    ensures done ==> ListOutcome(err, out, fr.w, fr.numPg, fr.oldLive, fr.oldFree, pool.mem, pool.addr, pool.live, |pool.free|)
  {
    var ok;
    ok, f' := ChainIfFull(pool, f, fr, written);
    written' := written;
    if !ok {
      done := true;
      err, out := Unwind(pool, -ENOMEM, f'.out, f'.prpPage, fr, written, f'.index);
      return;
    }
    done, err, out, f', written' := StoreStep(pool, sg, f', fr, written);
  }

  /** Store the entry, advance, and finish the construction when the walk ends or faults. */
  method StoreStep(pool: PrpPagePool, sg: seq<SgEntry>, f: Fill, ghost fr: Frame, ghost written: seq<u64>)
    returns (done: bool, err: int, out: Prps, f': Fill, ghost written': seq<u64>)
    requires sg == fr.sg
    requires pool.Valid() && Filling(pool.mem, pool.addr, pool.live, |pool.free|, fr, f, written)
    requires f.index < LAST_PRP || f.r <= PAGE_SIZE
    modifies pool
    ensures pool.Valid()
    ensures !done ==> Filling(pool.mem, pool.addr, pool.live, |pool.free|, fr, f', written') && f'.r < f.r
    ensures done ==> Kept(pool.mem, fr, out, err)
    ensures done ==> ListOutcome(err, out, fr.w, fr.numPg, fr.oldLive, fr.oldFree, pool.mem, pool.addr, pool.live, |pool.free|)
  {
    var e;
    e, f', written' := StoreAdvance(pool, sg, f, fr, written);
    done := e != Continue;
    if done {
      err, out := Finish(pool, e, f', fr, written');
    } else {
      err, out := 0, f'.out;
    }
  }

  /** prp_list[index++] = cpu_to_le64(dma_addr), then the advance of the walk cursor. */
  method StoreAdvance(pool: PrpPagePool, sg: seq<SgEntry>, f: Fill, ghost fr: Frame, ghost written: seq<u64>)
    returns (e: StepEnd, f': Fill, ghost written': seq<u64>)
    requires sg == fr.sg
    requires pool.Valid() && Filling(pool.mem, pool.addr, pool.live, |pool.free|, fr, f, written)
    requires f.index < LAST_PRP || f.r <= PAGE_SIZE
    modifies pool
    ensures pool.Valid()
    ensures Built(pool.mem, pool.addr, pool.live, |pool.free|, fr, f'.out, f'.prpPage, written', f'.index)
    ensures f'.cur == f'.out.virPrpList[f'.prpPage - 1]
    ensures e == Continue ==> Cursor(fr, f', written') && f'.r < f.r
    ensures e == Done ==> fr.w == Walk(written', false) && f'.prpPage == PagesFor(|fr.w.addrs|)
    ensures e == Fault ==> fr.w == Walk(written', true) && f'.prpPage == PagesTaken(fr.w)
  {
    StoreEntry(pool, f, fr, written);
    e, f' := Advance(sg, f, fr, written);
    written' := written + [f.a];
    BuiltMoved(pool.mem, pool.addr, pool.live, |pool.free|, fr, f, f', written');
  }

  /** The stored entry's page structure, seen from the advanced cursor. */
  lemma BuiltMoved(mem: seq<seq<Le64>>, addr: seq<u64>, live: set<nat>, free: nat, fr: Frame,
                   f: Fill, f': Fill, written: seq<u64>)
    requires Built(mem, addr, live, free, fr, f.out, f.prpPage, written, f.index + 1)
    requires f.cur == f.out.virPrpList[f.prpPage - 1]
    requires f'.out == f.out && f'.prpPage == f.prpPage && f'.cur == f.cur && f'.index == f.index + 1
    ensures Built(mem, addr, live, free, fr, f'.out, f'.prpPage, written, f'.index)
    ensures f'.cur == f'.out.virPrpList[f'.prpPage - 1]
  {
  }

  /** The exits of the list loop: the list is complete (Done), or the walk faulted. */
  method Finish(pool: PrpPagePool, e: StepEnd, f: Fill, ghost fr: Frame, ghost written: seq<u64>)
    returns (err: int, out: Prps)
    requires pool.Valid() && Built(pool.mem, pool.addr, pool.live, |pool.free|, fr, f.out, f.prpPage, written, f.index)
    requires e != Continue
    requires e == Done ==> fr.w == Walk(written, false) && f.prpPage == PagesFor(|fr.w.addrs|)
    requires e == Fault ==> fr.w.fault && f.prpPage == PagesTaken(fr.w)
    modifies pool
    ensures pool.Valid() && Kept(pool.mem, fr, out, err)
    ensures ListOutcome(err, out, fr.w, fr.numPg, fr.oldLive, fr.oldFree, pool.mem, pool.addr, pool.live, |pool.free|)
  {
    if e == Done {
      out := f.out.(npages := f.prpPage);
      OutcomeDone(pool.mem, pool.addr, pool.live, |pool.free|, fr, f.out, f.prpPage, f.index);
      err := 0;
    } else {
      err, out := Unwind(pool, -EFAULT, f.out, f.prpPage, fr, written, f.index);
    }
  }

  /**
   * What list construction leaves alone: the blocks live before it, the buffer fields,
   * the type, the PRP field that does not name the list and, on failure, npages.
   */
  ghost predicate Kept(mem: seq<seq<Le64>>, fr: Frame, out: Prps, err: int)
  {
    (forall h :: h in fr.oldLive ==> h < |mem| && h < |fr.oldMem| && mem[h] == fr.oldMem[h]) &&
    SameBuffer(out, fr.prps) && out.prpType == fr.prps.prpType &&
    (out.prpType == Prp2List ==> out.prp1 == fr.prps.prp1) &&
    (out.prpType == Prp1List ==> out.prp2 == fr.prps.prp2) &&
    (err != 0 ==> out.npages == fr.prps.npages)
  }

  /**
   * The start of the list: takes the first pool page, records it as page 0 and as
   * firstDma, and names it in PRP2 (Prp2List) or PRP1 (Prp1List).
   */
  method StartList(pool: PrpPagePool, out: Prps, k0: nat, a0: u64, d0: int, r0: int, ghost fr: Frame)
    returns (err: int, f: Fill)
    requires pool.Valid() && fr.oldLive == pool.live && fr.oldMem == pool.mem && fr.oldFree == |pool.free|
    requires 0 < r0 == fr.r0 && Covers(fr.sg, k0, d0, fr.r0) && fr.w == ListWalk(fr.sg, k0, a0, d0, fr.r0)
    requires fr.numPg == NumPg(fr.r0) && |out.virPrpList| == fr.numPg && out.virPrpListHeld
    requires out.prpType.IsList() && out == fr.prps.(virPrpList := out.virPrpList, virPrpListHeld := true)
    modifies pool
    ensures pool.Valid()
    ensures err == 0 || err == -ENOMEM
    ensures err == 0 ==> Filling(pool.mem, pool.addr, pool.live, |pool.free|, fr, f, [])
    ensures err != 0 ==> old(|pool.free|) == 0 && pool.live == old(pool.live) && pool.free == old(pool.free) &&
                         pool.mem == old(pool.mem)
  {
    f := Fill(out, 0, 0, 0, k0, a0, d0, r0);
    var first := pool.Alloc();
    if first.None? {
      err := -ENOMEM;
      return;
    }
    err := 0;
    var cur := first.value;
    f := Fill(FirstPage(out, cur, pool.addr[cur]), 1, cur, 0, k0, a0, d0, r0);
    StartFilling(pool.mem, pool.addr, pool.live, |pool.free|, fr, out, cur, k0, a0, d0);
  }

  /** Records block cur as list page 0 and as firstDma, and names its bus address dma in PRP2 or PRP1. */
  function FirstPage(out: Prps, cur: nat, dma: u64): (o: Prps)
    requires |out.virPrpList| >= 1
    ensures o.virPrpList == out.virPrpList[0 := cur] && o.firstDma == dma
    ensures (if out.prpType == Prp2List then o.prp2 else o.prp1) == CpuToLe64(dma)
    ensures o == out.(virPrpList := o.virPrpList, firstDma := dma, prp1 := o.prp1, prp2 := o.prp2)
    ensures out.prpType == Prp2List ==> o.prp1 == out.prp1
    ensures out.prpType != Prp2List ==> o.prp2 == out.prp2
  {
    var o := out.(virPrpList := out.virPrpList[0 := cur], firstDma := dma);
    if out.prpType == Prp2List then o.(prp2 := CpuToLe64(dma)) else o.(prp1 := CpuToLe64(dma))
  }

  /** Taking a fresh block as the first list page sets up the loop state for an empty walk prefix. */
  lemma StartFilling(mem: seq<seq<Le64>>, addr: seq<u64>, live: set<nat>, free: nat, fr: Frame,
                     out: Prps, cur: nat, k0: nat, a0: u64, d0: int)
    requires fr.oldMem == mem && live == fr.oldLive + {cur} && cur !in fr.oldLive && free == fr.oldFree - 1
    requires |mem| == |addr| && cur < |addr| && |mem[cur]| == PRP_SLOTS && forall h :: h in live ==> h < |addr|
    requires 0 < fr.r0 && Covers(fr.sg, k0, d0, fr.r0) && fr.w == ListWalk(fr.sg, k0, a0, d0, fr.r0)
    requires fr.numPg == NumPg(fr.r0) && |out.virPrpList| == fr.numPg && out.virPrpListHeld
    requires out.prpType.IsList() && out == fr.prps.(virPrpList := out.virPrpList, virPrpListHeld := true)
    ensures Filling(mem, addr, live, free, fr, Fill(FirstPage(out, cur, addr[cur]), 1, cur, 0, k0, a0, d0, fr.r0), [])
  {
    var o := FirstPage(out, cur, addr[cur]);
    assert o.virPrpList[..1] == [cur];
    ListPagesSnoc(o.virPrpList, 0);
    CatPrepend([], a0, fr.w);
    assert fr.w == Cat([], ListWalk(fr.sg, k0, a0, d0, fr.r0));
  }

  /** The error exit of the list loop: free_prp_pool on the pages taken so far. */
  method Unwind(pool: PrpPagePool, e: int, out: Prps, prpPage: nat, ghost fr: Frame, ghost written: seq<u64>, ghost index: nat)
    returns (err: int, out': Prps)
    requires pool.Valid() && Built(pool.mem, pool.addr, pool.live, |pool.free|, fr, out, prpPage, written, index)
    requires (e == -EFAULT && fr.w.fault && fr.oldFree >= PagesTaken(fr.w)) || (e == -ENOMEM && fr.oldFree < PagesTaken(fr.w))
    modifies pool
    ensures pool.Valid() && pool.mem == old(pool.mem) && err == e
    ensures out' == out.(virPrpListHeld := false)
    ensures ListOutcome(err, out', fr.w, fr.numPg, fr.oldLive, fr.oldFree, pool.mem, pool.addr, pool.live, |pool.free|)
    ensures Kept(pool.mem, fr, out', err)
  {
    BuiltChainValid(pool.mem, pool.addr, pool.live, |pool.free|, fr, out, prpPage, written, index);
    ghost var live, free := pool.live, |pool.free|;
    out' := FreePrpPool(pool, out, prpPage);
    OutcomeFreed(e, pool.mem, pool.addr, live, free, fr, out, prpPage, written, index, pool.live, |pool.free|);
    err := e;
  }

  lemma ListPagesSnoc(vir: seq<nat>, n: nat)
    requires n < |vir|
    ensures ListPages(vir, 0) == {}
    ensures ListPages(vir, n + 1) == ListPages(vir, n) + {vir[n]}
  {
  }

  lemma ListPagesPrefix(vir: seq<nat>, vir': seq<nat>, n: nat)
    requires n <= |vir| && n <= |vir'| && vir[..n] == vir'[..n]
    ensures ListPages(vir, n) == ListPages(vir', n)
  {
    forall i | 0 <= i < n
      ensures vir[i] == vir'[i]
    {
      assert vir[..n][i] == vir'[..n][i];
    }
  }

  lemma CatPrepend(s: seq<u64>, x: u64, v: Walk)
    ensures Cat(s, Prepend(x, v)) == Cat(s + [x], v)
  {
    assert s + ([x] + v.addrs) == (s + [x]) + v.addrs;
  }

  /** One step of the walk, as the loop of setup_prps takes it. */
  lemma WalkStep(sg: seq<SgEntry>, k: nat, a: u64, d: int, r: int)
    requires r > 0 && Covers(sg, k, d, r)
    ensures r - PAGE_SIZE <= 0 ==> ListWalk(sg, k, a, d, r) == Walk([a], false)
    ensures r - PAGE_SIZE > 0 && d - PAGE_SIZE > 0 ==>
      Covers(sg, k, d - PAGE_SIZE, r - PAGE_SIZE) &&
      ListWalk(sg, k, a, d, r) == Prepend(a, ListWalk(sg, k, AddrAdd(a, PAGE_SIZE), d - PAGE_SIZE, r - PAGE_SIZE))
    ensures r - PAGE_SIZE > 0 && d - PAGE_SIZE < 0 ==> ListWalk(sg, k, a, d, r) == Walk([a], true)
    ensures r - PAGE_SIZE > 0 && d - PAGE_SIZE == 0 ==>
      k + 1 < |sg| && Covers(sg, k + 1, sg[k + 1].dmaLength, r - PAGE_SIZE) &&
      ListWalk(sg, k, a, d, r) == Prepend(a, ListWalk(sg, k + 1, sg[k + 1].dmaAddress, sg[k + 1].dmaLength, r - PAGE_SIZE))
  {
    if r - PAGE_SIZE > 0 && d - PAGE_SIZE == 0 {
      assert SumDmaLen(sg[k + 1..]) > 0;
      assert sg[k + 1..][1..] == sg[k + 2..];
    }
  }

  /** A walk over more than one page of data that does not fault emits at least two entries. */
  lemma ListWalkLong(sg: seq<SgEntry>, k: nat, a: u64, d: int, r: int)
    requires r > PAGE_SIZE && Covers(sg, k, d, r)
    ensures !ListWalk(sg, k, a, d, r).fault ==> |ListWalk(sg, k, a, d, r).addrs| >= 2
  {
  }

  /**
   * What setup_prps leaves behind for plan p: the buffer fields and the blocks live before
   * it are untouched; a direct plan fills PRP1 (and PRP2) and leaves the pool as it was; a
   * list plan names its list in PRP2 (after PRP1 for the first page) or PRP1, with the
   * list outcome over the plan's walk.
   */
  ghost predicate PrpsOutcome(p: Plan, prps: Prps, err: int, out: Prps,
                              oldLive: set<nat>, oldFree: seq<nat>, oldMem: seq<seq<Le64>>,
                              mem: seq<seq<Le64>>, addr: seq<u64>, live: set<nat>, free: seq<nat>)
  {
    SameBuffer(out, prps) &&
    (forall h :: h in oldLive ==> h < |mem| && h < |oldMem| && mem[h] == oldMem[h]) &&
    match p
      case Direct1(a1) =>
        err == 0 && out == prps.(prpType := Prp1, prp1 := CpuToLe64(a1)) &&
        live == oldLive && free == oldFree && mem == oldMem
      case Direct2(a1, a2) =>
        err == 0 && out == prps.(prpType := Prp1Prp2, prp1 := CpuToLe64(a1), prp2 := CpuToLe64(a2)) &&
        live == oldLive && free == oldFree && mem == oldMem
      case List2(a1, len, w) =>
        out.prpType == Prp2List && out.prp1 == CpuToLe64(a1) && (err != 0 ==> out.npages == prps.npages) &&
        ListOutcome(err, out, w, NumPg(len), oldLive, |oldFree|, mem, addr, live, |free|)
      case List1(len, w) =>
        out.prpType == Prp1List && out.prp2 == prps.prp2 && (err != 0 ==> out.npages == prps.npages) &&
        ListOutcome(err, out, w, NumPg(len), oldLive, |oldFree|, mem, addr, live, |free|)
  }

  /**
   * setup_prps. It chooses PRP1 alone, PRP1 and PRP2, or a PRP list, and builds the
   * list in pool pages. With crIoQ (a physically discontiguous I/O queue) it always
   * builds a list named by PRP1, covering the whole buffer.
   */
  method SetupPrps(pool: PrpPagePool, sg: seq<SgEntry>, bufLen: int, prps: Prps, crIoQ: bool)
    returns (err: int, out: Prps)
    requires pool.Valid() && SgReady(sg, bufLen)
    modifies pool
    ensures pool.Valid()
    ensures PrpsOutcome(PlanOf(sg, bufLen, crIoQ), prps, err, out, old(pool.live), old(pool.free), old(pool.mem),
                        pool.mem, pool.addr, pool.live, pool.free)
  {
    ghost var p := PlanOf(sg, bufLen, crIoQ);
    if crIoQ {
      assert SumDmaLen(sg) == sg[0].dmaLength + SumDmaLen(sg[1..]);
      assert p == List1(bufLen, ListWalk(sg, 0, sg[0].dmaAddress, sg[0].dmaLength, bufLen));
      err, out := BuildPrpList(pool, sg, 0, sg[0].dmaAddress, sg[0].dmaLength, bufLen, prps.(prpType := Prp1List), p);
    } else {
      err, out := SetupDataPrps(pool, sg, bufLen, prps, p);
    }
  }

  /** setup_prps for a buffer the device reads and writes directly (not a discontiguous queue). */
  method SetupDataPrps(pool: PrpPagePool, sg: seq<SgEntry>, bufLen: int, prps: Prps, ghost p: Plan)
    returns (err: int, out: Prps)
    requires pool.Valid() && SgReady(sg, bufLen) && p == PlanOf(sg, bufLen, false)
    modifies pool
    ensures pool.Valid()
    ensures PrpsOutcome(p, prps, err, out, old(pool.live), old(pool.free), old(pool.mem),
                        pool.mem, pool.addr, pool.live, pool.free)
  {
    assert SumDmaLen(sg) == sg[0].dmaLength + SumDmaLen(sg[1..]);
    var dmaAddr := sg[0].dmaAddress;
    var offset := OffsetInPage(dmaAddr);
    out := prps.(prp1 := CpuToLe64(dmaAddr));
    var rest := bufLen - (PAGE_SIZE - offset);
    if rest <= 0 {
      assert p == Direct1(sg[0].dmaAddress);
      out := out.(prpType := Prp1);
      err := 0;
      return;
    }
    var dmaLen := sg[0].dmaLength - (PAGE_SIZE - offset);
    var k := 0;
    if dmaLen != 0 {
      dmaAddr := AddrAdd(dmaAddr, PAGE_SIZE - offset);
    } else {
      assert SumDmaLen(sg[1..]) > 0;
      assert sg[1..][1..] == sg[2..];
      k := 1;
      dmaAddr := sg[1].dmaAddress;
      dmaLen := sg[1].dmaLength;
    }
    if rest <= PAGE_SIZE {
      assert p == Direct2(sg[0].dmaAddress, dmaAddr);
      out := out.(prp2 := CpuToLe64(dmaAddr), prpType := Prp1Prp2);
      err := 0;
      return;
    }
    assert p == List2(sg[0].dmaAddress, rest, ListWalk(sg, k, dmaAddr, dmaLen, rest));
    out := out.(prpType := Prp2List);
    err, out := BuildPrpList(pool, sg, k, dmaAddr, dmaLen, rest, out, p);
  }
}
