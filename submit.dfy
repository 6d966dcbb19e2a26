/**
 * submit_command of dnvme_cmds.c: checks the user buffer, pins and maps its pages, then
 * describes it in PRP entries. The descriptor is a local of submit_command; it is
 * returned here so the contract can say what the submission leaves held.
 */
module Submit {
  import opened Base
  import opened Endian
  import opened PrpPool
  import opened Descriptors
  import opened Scatter
  import opened PrpBuilder

  /** The argument check: a 4-byte aligned, non-null buffer of positive length on a present device. */
  predicate BadArgs(devPresent: bool, bufAddr: u64, bufLen: u32)
  {
    bufAddr % 4 != 0 || bufLen == 0 || !devPresent || bufAddr == 0
  }

  /**
   * submit_command. crIoQ is the constant the source passes to setup_prps for a physically
   * discontiguous I/O queue; devPresent is whether the device has an nvme_device. The
   * mapping succeeds or fails as env says; a PRP failure returns the mapped pages.
   */
  method SubmitCommand(pool: PrpPagePool, user: UserPages, devPresent: bool, bufAddr: u64, bufLen: u32,
                       crIoQ: bool, env: MapEnv)
    returns (err: int, prps: Prps)
    requires pool.Valid() && bufLen <= S32_MAX && env.pinned <= PageSpan(bufAddr, bufLen)
    modifies pool, user
    ensures pool.Valid()
    ensures BadArgs(devPresent, bufAddr, bufLen) ==>
      err == -EINVAL && user.pinned == old(user.pinned) && pool.live == old(pool.live) &&
      pool.free == old(pool.free) && pool.mem == old(pool.mem)
    ensures !BadArgs(devPresent, bufAddr, bufLen) && !MapSucceeds(env, PageSpan(bufAddr, bufLen)) ==>
      (err == -ENOMEM || err == -EFAULT) && user.pinned == old(user.pinned) && pool.live == old(pool.live) &&
      pool.free == old(pool.free) && pool.mem == old(pool.mem)
    ensures !BadArgs(devPresent, bufAddr, bufLen) && MapSucceeds(env, PageSpan(bufAddr, bufLen)) ==>
      Submitted(bufAddr, bufLen, crIoQ, env, err, prps, old(pool.live), old(pool.free), old(pool.mem),
                old(user.pinned), pool.mem, pool.addr, pool.live, pool.free, user.pinned)
  {
    prps := NoPrps;
    if bufAddr % 4 != 0 || bufLen == 0 || !devPresent || bufAddr == 0 {
      return -EINVAL, prps;
    }
    var mapped;
    err, mapped := MapUserPgToDma(user, true, bufAddr, bufLen, NoPrps, env);
    if err < 0 {
      return err, prps;
    }
    MappedReady(bufAddr, bufLen, env);
    assert mapped == Mapped(bufAddr, bufLen, env);
    var e;
    e, prps := SetupPrps(pool, mapped.sg, bufLen, mapped, crIoQ);
    OutcomeKinds(PlanOf(mapped.sg, bufLen, crIoQ), mapped, e, prps, old(pool.live), old(pool.free), old(pool.mem),
                 pool.mem, pool.addr, pool.live, pool.free);
    if e < 0 {
      FailedHolds(bufAddr, bufLen, env, prps);
      UnmapUserPgToDma(user, prps);
      Cancel(user.pinned, old(user.pinned), multiset(PageSeq(Scatter.FirstPage(bufAddr), PageSpan(bufAddr, bufLen))));
      return e, prps;
    }
    err := 0;
  }

  /** The descriptor map_user_pg_to_dma leaves for a successful mapping. */
  function Mapped(bufAddr: u64, bufLen: u32, env: MapEnv): (p: Prps)
    ensures p.prpType == NoPrp && p.sg == MappedSg(bufAddr, bufLen, env.bus)
    ensures p.dmaMappedPgs == PageSpan(bufAddr, bufLen) && p.dataBufAddr == bufAddr && p.dataBufSize == bufLen
  {
    NoPrps.(dataDir := true, dataBufAddr := bufAddr, dataBufSize := bufLen,
            sg := MappedSg(bufAddr, bufLen, env.bus), dmaMappedPgs := PageSpan(bufAddr, bufLen))
  }

  /**
   * A submission whose pages were mapped: the PRP entries are setup_prps's for the mapped
   * scatter list; on success the buffer's pages stay pinned (the descriptor is not
   * released), and on failure the pages are returned and the error passed on.
   */
  ghost predicate Submitted(bufAddr: u64, bufLen: u32, crIoQ: bool, env: MapEnv, err: int, prps: Prps,
                            oldLive: set<nat>, oldFree: seq<nat>, oldMem: seq<seq<Le64>>,
                            oldPinned: multiset<nat>,
                            mem: seq<seq<Le64>>, addr: seq<u64>, live: set<nat>, free: seq<nat>,
                            pinned: multiset<nat>)
    requires 1 <= bufLen <= S32_MAX
  {
    MappedReady(bufAddr, bufLen, env);
    var m := Mapped(bufAddr, bufLen, env);
    var held := multiset(PageSeq(Scatter.FirstPage(bufAddr), PageSpan(bufAddr, bufLen)));
    err <= 0 &&
    PrpsOutcome(MappedPlan(bufAddr, bufLen, env.bus, crIoQ), m, err, prps, oldLive, oldFree, oldMem, mem, addr, live, free) &&
    (err == 0 ==> pinned == oldPinned + held) &&
    (err < 0 ==> pinned == oldPinned)
  }

  /** The plan setup_prps follows for the mapped buffer. */
  ghost function MappedPlan(bufAddr: u64, bufLen: u32, bus: nat -> u64, crIoQ: bool): (p: Plan)
    requires 1 <= bufLen <= S32_MAX
    ensures crIoQ <==> p.List1?
  {
    MappedReady(bufAddr, bufLen, MapEnv(true, 0, true, true, bus));
    PlanOf(MappedSg(bufAddr, bufLen, bus), bufLen, crIoQ)
  }

  /** The mapped scatter list is one setup_prps accepts. */
  lemma MappedReady(bufAddr: u64, bufLen: u32, env: MapEnv)
    requires 1 <= bufLen <= S32_MAX
    ensures SgReady(MappedSg(bufAddr, bufLen, env.bus), bufLen)
  {
    MappedSgShape(bufAddr, bufLen, env.bus);
  }

  /** setup_prps ends in 0, -ENOMEM or -EFAULT, keeps the buffer fields, and fails only building a list. */
  lemma OutcomeKinds(p: Plan, prps: Prps, err: int, out: Prps,
                     oldLive: set<nat>, oldFree: seq<nat>, oldMem: seq<seq<Le64>>,
                     mem: seq<seq<Le64>>, addr: seq<u64>, live: set<nat>, free: seq<nat>)
    requires PrpsOutcome(p, prps, err, out, oldLive, oldFree, oldMem, mem, addr, live, free)
    ensures err == 0 || err == -ENOMEM || err == -EFAULT
    ensures SameBuffer(out, prps)
    ensures err != 0 ==> out.prpType.IsList()
  {
  }

  /** A descriptor that setup_prps left as a list still holds exactly the mapped pages. */
  lemma FailedHolds(bufAddr: u64, bufLen: u32, env: MapEnv, out: Prps)
    requires SameBuffer(out, Mapped(bufAddr, bufLen, env)) && out.prpType.IsList()
    ensures out.dmaMappedPgs <= |out.sg|
    ensures HeldPages(out) == multiset(PageSeq(Scatter.FirstPage(bufAddr), PageSpan(bufAddr, bufLen)))
  {
    MappedPagesArePinned(bufAddr, bufLen, env.bus);
    assert out.sg[..out.dmaMappedPgs] == out.sg;
  }

  /**
   * For bus addresses that are page aligned, the PRP form a submission uses depends only on
   * where the buffer starts in its page and how long it is: PRP1 alone when it ends in its
   * first page, PRP1 and PRP2 when it ends in the second, otherwise a list named by PRP2;
   * PRP1 is the buffer's own bus address.
   */
  lemma SubmitForm(bufAddr: u64, bufLen: u32, bus: nat -> u64)
    requires 1 <= bufLen <= S32_MAX
    requires forall q :: bus(q) % 4096 == 0
    ensures var off := OffsetInPage(bufAddr);
      var p := MappedPlan(bufAddr, bufLen, bus, false);
      (p.Direct1? <==> off + bufLen <= PAGE_SIZE) &&
      (p.Direct2? <==> PAGE_SIZE < off + bufLen <= 2 * PAGE_SIZE) &&
      (p.List2? <==> 2 * PAGE_SIZE < off + bufLen) &&
      p.a1 == bus(Scatter.FirstPage(bufAddr)) + off
  {
    MappedHead(bufAddr, bufLen, bus);
    MappedReady(bufAddr, bufLen, MapEnv(true, 0, true, true, bus));
  }

  /** The first mapped entry starts at the buffer's own bus address, at its offset in the page. */
  lemma MappedHead(bufAddr: u64, bufLen: u32, bus: nat -> u64)
    requires 1 <= bufLen <= S32_MAX
    requires forall q :: bus(q) % 4096 == 0
    ensures var sg := MappedSg(bufAddr, bufLen, bus);
      |sg| >= 1 && sg[0].dmaAddress == bus(Scatter.FirstPage(bufAddr)) + OffsetInPage(bufAddr) &&
      sg[0].dmaAddress % 4096 == OffsetInPage(bufAddr)
  {
    var off := OffsetInPage(bufAddr);
    var sg := MappedSg(bufAddr, bufLen, bus);
    MappedSgShape(bufAddr, bufLen, bus);
    var b := bus(Scatter.FirstPage(bufAddr));
    assert b % 4096 == 0;
    assert b + off < U64_LIMIT by {
      var k := b / 4096;
      assert b == 4096 * k;
      assert k < 0x10_0000_0000_0000;
    }
    assert sg[0].dmaAddress == b + off;
  }

  /** The bus addresses of n consecutive user pages from page first. */
  function BusPages(bus: nat -> u64, first: nat, n: nat): (s: seq<u64>)
    ensures |s| == n && forall i :: 0 <= i < n ==> s[i] == bus(first + i)
  {
    var s: seq<u64> := seq(n, i requires 0 <= i < n => bus(first + i) as u64);
    s
  }

  /** From entry k on, every entry but the last covers a whole page and the last is not empty. */
  ghost predicate WholePages(sg: seq<SgEntry>, k: nat)
  {
    k < |sg| &&
    (forall i :: k <= i < |sg| - 1 ==> sg[i].dmaLength == PAGE_SIZE) &&
    1 <= sg[|sg| - 1].dmaLength <= PAGE_SIZE
  }

  /** The bus addresses of the entries from k on. */
  function DmaAddrs(sg: seq<SgEntry>, k: nat): (s: seq<u64>)
    requires k <= |sg|
    ensures |s| == |sg| - k && forall i :: 0 <= i < |s| ==> s[i] == sg[k + i].dmaAddress
  {
    var t := sg[k..];
    seq(|t|, i requires 0 <= i < |t| => t[i].dmaAddress)
  }

  /** Over whole-page entries the PRP-list walk never faults and emits each entry's bus address once. */
  lemma {:induction false} WalkWholePages(sg: seq<SgEntry>, k: nat)
    requires WholePages(sg, k)
    ensures SumDmaLen(sg[k..]) > 0 && Covers(sg, k, sg[k].dmaLength, SumDmaLen(sg[k..]))
    ensures ListWalk(sg, k, sg[k].dmaAddress, sg[k].dmaLength, SumDmaLen(sg[k..])) == Walk(DmaAddrs(sg, k), false)
    decreases |sg| - k
  {
    assert sg[k..][1..] == sg[k + 1..];
    if k == |sg| - 1 {
      assert sg[k + 1..] == [];
      assert DmaAddrs(sg, k) == [sg[k].dmaAddress];
    } else {
      WalkWholePages(sg, k + 1);
      assert sg[k + 1..][1..] == sg[k + 2..];
      assert DmaAddrs(sg, k) == [sg[k].dmaAddress] + DmaAddrs(sg, k + 1);
    }
  }

  /** The facts about the mapped list the list lemmas use. */
  lemma MappedEntries(bufAddr: u64, bufLen: u32, bus: nat -> u64)
    requires 1 <= bufLen <= S32_MAX
    requires forall q :: bus(q) % 4096 == 0
    ensures var off := OffsetInPage(bufAddr);
      var first := Scatter.FirstPage(bufAddr);
      var sg := MappedSg(bufAddr, bufLen, bus);
      |sg| == PageSpan(bufAddr, bufLen) && |sg| >= 1 && SumDmaLen(sg) == bufLen &&
      sg[0].dmaAddress == bus(first) + off &&
      sg[0].dmaLength == Min(PAGE_SIZE - off, bufLen) &&
      (forall i :: 1 <= i < |sg| ==> sg[i].dmaAddress == bus(first + i)) &&
      (off == 0 ==> WholePages(sg, 0)) &&
      (|sg| > 1 ==> WholePages(sg, 1))
  {
    var off := OffsetInPage(bufAddr);
    var first := Scatter.FirstPage(bufAddr);
    var sg := MappedSg(bufAddr, bufLen, bus);
    MappedSgShape(bufAddr, bufLen, bus);
    MappedHead(bufAddr, bufLen, bus);
    forall i | 1 <= i < |sg|
      ensures sg[i].dmaAddress == bus(first + i)
    {
      assert OffAt(i, off) == 0;
    }
    assert SumDmaLen(sg) == sg[0].dmaLength + SumDmaLen(sg[1..]);
    if |sg| > 1 {
      assert sg[0].offset + sg[0].length == 4096;
    } else {
      assert sg[0].dmaLength == SumDmaLen(sg);
    }
  }

  /**
   * The PRP list of a mapped buffer reaching past its second page: for page-aligned bus
   * addresses, PRP1 is the buffer's own bus address and the list holds the bus address of
   * every later page, in order.
   */
  lemma SubmitListEntries(bufAddr: u64, bufLen: u32, bus: nat -> u64)
    requires 1 <= bufLen <= S32_MAX
    requires forall q :: bus(q) % 4096 == 0
    requires 2 * PAGE_SIZE < OffsetInPage(bufAddr) + bufLen
    ensures var off := OffsetInPage(bufAddr);
      var first := Scatter.FirstPage(bufAddr);
      MappedPlan(bufAddr, bufLen, bus, false) ==
        List2(bus(first) + off, bufLen - (PAGE_SIZE - off), Walk(BusPages(bus, first + 1, PageSpan(bufAddr, bufLen) - 1), false))
  {
    var off := OffsetInPage(bufAddr);
    var first := Scatter.FirstPage(bufAddr);
    var sg := MappedSg(bufAddr, bufLen, bus);
    MappedEntries(bufAddr, bufLen, bus);
    MappedReady(bufAddr, bufLen, MapEnv(true, 0, true, true, bus));
    ListOfWholePages(sg, bufLen, bus, first, off);
  }

  lemma ListOfWholePages(sg: seq<SgEntry>, bufLen: int, bus: nat -> u64, first: nat, off: nat)
    requires SgReady(sg, bufLen) && |sg| > 1 && WholePages(sg, 1) && SumDmaLen(sg) == bufLen
    requires off < 4096 && sg[0].dmaAddress == bus(first) + off && sg[0].dmaAddress % 4096 == off
    requires sg[0].dmaLength == Min(4096 - off, bufLen) && 8192 < off + bufLen
    requires forall i :: 1 <= i < |sg| ==> sg[i].dmaAddress == bus(first + i)
    ensures PlanOf(sg, bufLen, false) ==
      List2(bus(first) + off, bufLen - (4096 - off), Walk(BusPages(bus, first + 1, |sg| - 1), false))
  {
    PlanOfWholePages(sg, bufLen);
    AddrsOfMapped(sg, bus, first, 1);
  }

  /** A list named by PRP2 over whole-page entries after the first holds their bus addresses. */
  lemma PlanOfWholePages(sg: seq<SgEntry>, bufLen: int)
    requires SgReady(sg, bufLen) && |sg| > 1 && WholePages(sg, 1) && SumDmaLen(sg) == bufLen
    requires sg[0].dmaLength == 4096 - sg[0].dmaAddress % 4096
    requires 8192 < sg[0].dmaAddress % 4096 + bufLen
    ensures PlanOf(sg, bufLen, false) ==
      List2(sg[0].dmaAddress, bufLen - (4096 - sg[0].dmaAddress % 4096), Walk(DmaAddrs(sg, 1), false))
  {
    WalkWholePages(sg, 1);
    assert SumDmaLen(sg) == sg[0].dmaLength + SumDmaLen(sg[1..]);
    assert sg[1..][1..] == sg[2..];
  }

  lemma AddrsOfMapped(sg: seq<SgEntry>, bus: nat -> u64, first: nat, k: nat)
    requires k <= |sg| && forall i :: k <= i < |sg| ==> sg[i].dmaAddress == bus(first + i)
    ensures DmaAddrs(sg, k) == BusPages(bus, first + k, |sg| - k)
  {
  }

  /**
   * The PRP list of a mapped buffer for a physically discontiguous queue: it names every
   * page when the buffer starts on a page boundary; when it does not and the buffer is
   * longer than a page, the walk faults, so the submission fails.
   */
  lemma SubmitQueueList(bufAddr: u64, bufLen: u32, bus: nat -> u64)
    requires 1 <= bufLen <= S32_MAX
    requires forall q :: bus(q) % 4096 == 0
    ensures OffsetInPage(bufAddr) == 0 ==>
      MappedPlan(bufAddr, bufLen, bus, true) ==
        List1(bufLen, Walk(BusPages(bus, Scatter.FirstPage(bufAddr), PageSpan(bufAddr, bufLen)), false))
    ensures OffsetInPage(bufAddr) != 0 && PAGE_SIZE < bufLen ==> MappedPlan(bufAddr, bufLen, bus, true).walk.fault
  {
    var off := OffsetInPage(bufAddr);
    var first := Scatter.FirstPage(bufAddr);
    var sg := MappedSg(bufAddr, bufLen, bus);
    MappedEntries(bufAddr, bufLen, bus);
    MappedReady(bufAddr, bufLen, MapEnv(true, 0, true, true, bus));
    assert sg[0..] == sg;
    if off == 0 {
      WalkWholePages(sg, 0);
      assert DmaAddrs(sg, 0) == BusPages(bus, first, |sg|);
    }
  }
}
