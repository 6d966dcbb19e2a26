/**
 * Controller enable and disable, the ready wait, and admin and I/O queue allocation of
 * dnvme_queue.c. Kernel calls whose outcome the driver only tests (kzalloc,
 * dma_alloc_coherent) become parameters; the readings of CSTS are a parameter too, the
 * value of each successive read; time is the number of 100 ms sleeps taken.
 */
module QueueSetup {
  import opened Base
  import opened Registers
  import opened Metrics

  /** The global queue structure (struct nvme_queue): the admin queue regions. */
  class NvmeQueue {
    var asqDepth: u32
    var virtAsq: array?<u8>
    var asqDma: u64
    var acqDepth: u32
    var virtAcq: array?<u8>
    var acqDma: u64
    var qInit: u8

    /** kzalloc: every field zero. */
    constructor ()
      ensures asqDepth == 0 && virtAsq == null && asqDma == 0
      ensures acqDepth == 0 && virtAcq == null && acqDma == 0 && qInit == 0
    {
      asqDepth, virtAsq, asqDma := 0, null, 0;
      acqDepth, virtAcq, acqDma := 0, null, 0;
      qInit := 0;
    }
  }

  /** A region returned with dma_free_coherent: its length, memory and bus address. */
  datatype Region = Region(size: u32, mem: array?<u8>, dma: u64)

  /** What dma_alloc_coherent gives: whether it succeeds, and the bus address. */
  datatype DmaAlloc = DmaAlloc(ok: bool, dma: u64)

  /** The driver's globals: nvme_q, the unique_cmd_id counter, and the regions freed so far. */
  class Driver {
    var nvmeQ: NvmeQueue?
    var uniqueCmdId: u64
    var freed: seq<Region>

    constructor ()
      ensures nvmeQ == null && uniqueCmdId == 0 && freed == []
    {
      nvmeQ := null;
      uniqueCmdId := 0;
      freed := [];
    }
  }

  // ---------------------------------------------------------------------------------
  // 64-bit stores and the ready wait
  // ---------------------------------------------------------------------------------

  /** The stores WRITEQ issues: two dwords, low first, under QEMU; one writeq otherwise. */
  function WriteQOps(off: nat, v: u64, qemu: bool): seq<Mmio>
  {
    if qemu then [W32(off, Lo32(v)), W32(off + 4, Hi32(v))] else [W64(off, v)]
  }

  /** WRITEQ: either way, the register ends up holding v and no other register changes. */
  method WriteQ(regs: CtrlRegs, v: u64, off: nat, qemu: bool)
    requires off == ASQ_REG || off == ACQ_REG
    modifies regs
    ensures regs.regs == Store64(old(regs.regs), off, v)
    ensures regs.writes == old(regs.writes) + WriteQOps(off, v, qemu) && regs.dbs == old(regs.dbs)
  {
    if qemu {
      regs.Writel(off, Lo32(v));
      regs.Writel(off + 4, Hi32(v));
      StoreHalves(old(regs.regs), off, v);
    } else {
      regs.Writeq(off, v);
    }
  }

  /**
   * The controller reports ready in time: some read of CSTS shows RDY, either the first
   * one or one taken before the timer (budget ms) has run out, reads being 100 ms apart.
   */
  ghost predicate ReadyInTime(csts: nat -> u32, budget: nat)
  {
    exists k: nat :: CstsRdy(csts(k)) && (k == 0 || 100 * k < budget)
  }

  /**
   * nvme_ctrlrdy_capto: polls CSTS.RDY, sleeping 100 ms after each read that shows it
   * clear, and gives up once the CAP.TO timer has expired. On success polls is the index
   * of the read that shows RDY, after polls sleeps. On -EINVAL reads 0 to polls all found
   * RDY clear; the source sleeps before it tests the timer, so polls + 1 sleeps were taken.
   */
  method CtrlRdyCapTo(regs: CtrlRegs, csts: nat -> u32) returns (err: int, polls: nat)
    ensures err == SUCCESS || err == -EINVAL
    ensures err == SUCCESS <==> ReadyInTime(csts, TimeoutBudget(regs.cap))
    ensures err == SUCCESS ==> CstsRdy(csts(polls)) && forall j :: 0 <= j < polls ==> !CstsRdy(csts(j))
    ensures err == -EINVAL ==>
      (forall j :: 0 <= j <= polls ==> !CstsRdy(csts(j))) && TimeoutBudget(regs.cap) <= 100 * (polls + 1)
  {
    var budget := TimeoutBudget(regs.cap);
    polls := 0;
    while !CstsRdy(csts(polls))
      invariant forall j :: 0 <= j < polls ==> !CstsRdy(csts(j))
      invariant polls == 0 || 100 * polls < budget
      decreases budget - 100 * polls
    {
      if 100 * (polls + 1) >= budget {
        forall k: nat | CstsRdy(csts(k))
          ensures k != 0 && 100 * k >= budget
        {
          assert k > polls;
        }
        return -EINVAL, polls;
      }
      polls := polls + 1;
    }
    return SUCCESS, polls;
  }

  // ---------------------------------------------------------------------------------
  // Enable and disable
  // ---------------------------------------------------------------------------------

  /**
   * nvme_ctrl_enable: sets CC.EN, keeping every other bit of CC, then waits for the
   * controller to report ready.
   */
  method CtrlEnable(regs: CtrlRegs, csts: nat -> u32) returns (err: int)
    modifies regs
    ensures regs.regs == old(regs.regs).(cc := SetEn(old(regs.regs.cc)))
    ensures regs.writes == old(regs.writes) + [W32(CC_REG, SetEn(old(regs.regs.cc)))] && regs.dbs == old(regs.dbs)
    ensures err == SUCCESS || err == -EINVAL
    ensures err == SUCCESS <==> ReadyInTime(csts, TimeoutBudget(regs.cap))
  {
    var cc := SetEn(regs.regs.cc);
    regs.Writel(CC_REG, cc);
    var e, _ := CtrlRdyCapTo(regs, csts);
    if e != SUCCESS {
      return -EINVAL;
    }
    return SUCCESS;
  }

  /**
   * nvme_ctrl_disable: clears CC.EN, then writes 0 to CC. Without a queue structure it
   * fails; otherwise it frees both admin regions.
   */
  method CtrlDisable(regs: CtrlRegs, drv: Driver) returns (err: int)
    modifies regs, drv`freed
    ensures regs.regs == old(regs.regs).(cc := 0) && regs.dbs == old(regs.dbs)
    ensures regs.writes == old(regs.writes) + [W32(CC_REG, ClearEn(old(regs.regs.cc))), W32(CC_REG, 0)]
    ensures drv.nvmeQ == null ==> err == -EINVAL && drv.freed == old(drv.freed)
    ensures drv.nvmeQ != null ==>
      err == SUCCESS &&
      drv.freed == old(drv.freed) + [Region(drv.nvmeQ.asqDepth, drv.nvmeQ.virtAsq, drv.nvmeQ.asqDma),
                                     Region(drv.nvmeQ.acqDepth, drv.nvmeQ.virtAcq, drv.nvmeQ.acqDma)]
  {
    var cc := ClearEn(regs.regs.cc);
    regs.Writel(CC_REG, cc);
    regs.Writel(CC_REG, 0);
    var q := drv.nvmeQ;
    if q != null {
      drv.freed := drv.freed + [Region(q.asqDepth, q.virtAsq, q.asqDma), Region(q.acqDepth, q.virtAcq, q.acqDma)];
    } else {
      return -EINVAL;
    }
    return SUCCESS;
  }

  // ---------------------------------------------------------------------------------
  // Queue allocation
  // ---------------------------------------------------------------------------------

  /**
   * nvme_queue_init: allocates the zeroed queue structure if there is none (allocOk is
   * whether kzalloc succeeds), then marks it initialised.
   */
  method QueueInit(drv: Driver, allocOk: bool) returns (err: int)
    modifies drv`nvmeQ, drv.nvmeQ
    ensures old(drv.nvmeQ) == null && !allocOk ==> err == -ENOMEM && drv.nvmeQ == null
    ensures old(drv.nvmeQ) != null || allocOk ==> err == SUCCESS && drv.nvmeQ != null && drv.nvmeQ.qInit == 1
    ensures old(drv.nvmeQ) != null ==>
      drv.nvmeQ == old(drv.nvmeQ) &&
      drv.nvmeQ.asqDepth == old(drv.nvmeQ.asqDepth) && drv.nvmeQ.virtAsq == old(drv.nvmeQ.virtAsq) &&
      drv.nvmeQ.asqDma == old(drv.nvmeQ.asqDma) && drv.nvmeQ.acqDepth == old(drv.nvmeQ.acqDepth) &&
      drv.nvmeQ.virtAcq == old(drv.nvmeQ.virtAcq) && drv.nvmeQ.acqDma == old(drv.nvmeQ.acqDma)
    ensures old(drv.nvmeQ) == null && allocOk ==>
      fresh(drv.nvmeQ) && drv.nvmeQ.asqDepth == 0 && drv.nvmeQ.virtAsq == null && drv.nvmeQ.asqDma == 0 &&
      drv.nvmeQ.acqDepth == 0 && drv.nvmeQ.virtAcq == null && drv.nvmeQ.acqDma == 0
  {
    if drv.nvmeQ == null {
      if !allocOk {
        return -ENOMEM;
      }
      drv.nvmeQ := new NvmeQueue();
    }
    drv.nvmeQ.qInit := 1;
    return SUCCESS;
  }

  /** Whether an admin queue size is accepted: 1 to MAX_AQ_ENTRIES entries. */
  predicate AdminSizeOk(qsize: u16)
  {
    0 < qsize <= MAX_AQ_ENTRIES
  }

  /** The id a queue takes from the counter: its low 16 bits (unique_cmd_id is u16 in the queue). */
  function IdOf(counter: u64): u16
  {
    counter % U16_LIMIT
  }

  /** nvme_q as a set of objects: empty while it is NULL. */
  function QueueOf(drv: Driver): set<NvmeQueue>
    reads drv
  {
    if drv.nvmeQ == null then {} else {drv.nvmeQ}
  }

  /** The admin SQ fields as kzalloc leaves them. */
  predicate AsqBlank(q: NvmeQueue)
    reads q
  {
    q.asqDepth == 0 && q.virtAsq == null && q.asqDma == 0
  }

  /** The admin CQ fields as kzalloc leaves them. */
  predicate AcqBlank(q: NvmeQueue)
    reads q
  {
    q.acqDepth == 0 && q.virtAcq == null && q.acqDma == 0
  }

  /** unique_cmd_id++ on a u64. */
  function Bump(counter: u64): u64
  {
    (counter + 1) % U64_LIMIT
  }

  /**
   * create_admn_sq: after making sure the queue structure exists, rejects a size of 0 or
   * above MAX_AQ_ENTRIES; allocates qsize * 64 bytes; points the doorbells at SQ0TBDL;
   * replaces AQA.ASQS with the size; stores the bus address in ASQ; and records the
   * region, its size and the next unique id in the SQ.
   */
  method CreateAdmnSq(regs: CtrlRegs, drv: Driver, qsize: u16, sq: MetricsSq, initOk: bool, dma: DmaAlloc,
                      qemu: bool)
    returns (err: int)
    modifies regs, drv`nvmeQ, drv`uniqueCmdId, QueueOf(drv)`asqDepth, QueueOf(drv)`virtAsq, QueueOf(drv)`asqDma
    modifies sq`virKernAddr, sq`size, sq`uniqueCmdId
    ensures old(drv.nvmeQ) == null && !initOk ==>
      err == -ENOMEM && drv.nvmeQ == null && unchanged(regs, sq) && drv.uniqueCmdId == old(drv.uniqueCmdId)
    ensures (old(drv.nvmeQ) != null || initOk) && !AdminSizeOk(qsize) ==>
      err == -EINVAL && drv.nvmeQ != null && unchanged(regs, sq) && drv.uniqueCmdId == old(drv.uniqueCmdId) &&
      (old(drv.nvmeQ) != null ==> drv.nvmeQ == old(drv.nvmeQ) && unchanged(drv.nvmeQ)) && (old(drv.nvmeQ) == null ==> AsqBlank(drv.nvmeQ))
    ensures (old(drv.nvmeQ) != null || initOk) && AdminSizeOk(qsize) && !dma.ok ==>
      err == -ENOMEM && drv.nvmeQ != null && drv.nvmeQ.asqDepth == qsize * 64 && drv.nvmeQ.virtAsq == null &&
      unchanged(regs, sq) && drv.uniqueCmdId == old(drv.uniqueCmdId) &&
      (old(drv.nvmeQ) != null ==> drv.nvmeQ.asqDma == old(drv.nvmeQ.asqDma)) &&
      (old(drv.nvmeQ) == null ==> drv.nvmeQ.asqDma == 0)
    ensures (old(drv.nvmeQ) != null || initOk) && AdminSizeOk(qsize) && dma.ok ==>
      err == SUCCESS && drv.nvmeQ != null &&
      drv.nvmeQ.asqDepth == qsize * 64 && drv.nvmeQ.asqDma == dma.dma &&
      drv.nvmeQ.virtAsq != null && fresh(drv.nvmeQ.virtAsq) && drv.nvmeQ.virtAsq.Length == qsize * 64 &&
      regs.dbs == SQ0TBDL &&
      regs.regs == Store64(old(regs.regs).(aqa := WithAsqs(old(regs.regs.aqa), qsize)), ASQ_REG, dma.dma) &&
      regs.writes == old(regs.writes) + [W32(AQA_REG, WithAsqs(old(regs.regs.aqa), qsize))] +
                     WriteQOps(ASQ_REG, dma.dma, qemu) &&
      sq.virKernAddr == drv.nvmeQ.virtAsq && sq.size == qsize * 64 &&
      sq.uniqueCmdId == IdOf(old(drv.uniqueCmdId)) && drv.uniqueCmdId == Bump(old(drv.uniqueCmdId))
    ensures old(drv.nvmeQ) != null ==>
      drv.nvmeQ == old(drv.nvmeQ) && unchanged(drv.nvmeQ`acqDepth, drv.nvmeQ`virtAcq, drv.nvmeQ`acqDma, drv.nvmeQ`qInit)
    ensures old(drv.nvmeQ) == null && drv.nvmeQ != null ==>
      fresh(drv.nvmeQ) && AcqBlank(drv.nvmeQ) && drv.nvmeQ.qInit == 1
  {
    if drv.nvmeQ == null {
      var e := QueueInit(drv, initOk);
      if e < 0 {
        return -ENOMEM;
      }
    }
    var q := drv.nvmeQ;
    if qsize > MAX_AQ_ENTRIES || qsize == 0 {
      return -EINVAL;
    }
    q.asqDepth := qsize * 64;
    if !dma.ok {
      q.virtAsq := null;
      return -ENOMEM;
    }
    q.virtAsq := new u8[qsize * 64];
    q.asqDma := dma.dma;
    regs.dbs := SQ0TBDL;
    var aqa := WithAsqs(regs.regs.aqa, qsize);
    regs.Writel(AQA_REG, aqa);
    WriteQ(regs, q.asqDma, ASQ_REG, qemu);
    sq.virKernAddr := q.virtAsq;
    sq.size := q.asqDepth;
    sq.uniqueCmdId := IdOf(drv.uniqueCmdId);
    drv.uniqueCmdId := Bump(drv.uniqueCmdId);
    return SUCCESS;
  }

  /**
   * create_admn_cq: as create_admn_sq with 16-byte entries, AQA.ACQS and ACQ; the CQ takes
   * no unique id and the doorbells are left alone.
   */
  method CreateAdmnCq(regs: CtrlRegs, drv: Driver, qsize: u16, cq: MetricsCq, initOk: bool, dma: DmaAlloc,
                      qemu: bool)
    returns (err: int)
    modifies regs, drv`nvmeQ, QueueOf(drv)`acqDepth, QueueOf(drv)`virtAcq, QueueOf(drv)`acqDma, cq`virKernAddr, cq`size
    ensures old(drv.nvmeQ) == null && !initOk ==> err == -ENOMEM && drv.nvmeQ == null && unchanged(regs, cq)
    ensures (old(drv.nvmeQ) != null || initOk) && !AdminSizeOk(qsize) ==>
      err == -EINVAL && drv.nvmeQ != null && unchanged(regs, cq) &&
      (old(drv.nvmeQ) != null ==> drv.nvmeQ == old(drv.nvmeQ) && unchanged(drv.nvmeQ)) && (old(drv.nvmeQ) == null ==> AcqBlank(drv.nvmeQ))
    ensures (old(drv.nvmeQ) != null || initOk) && AdminSizeOk(qsize) && !dma.ok ==>
      err == -ENOMEM && drv.nvmeQ != null && drv.nvmeQ.acqDepth == qsize * 16 && drv.nvmeQ.virtAcq == null &&
      unchanged(regs, cq) &&
      (old(drv.nvmeQ) != null ==> drv.nvmeQ.acqDma == old(drv.nvmeQ.acqDma)) &&
      (old(drv.nvmeQ) == null ==> drv.nvmeQ.acqDma == 0)
    ensures (old(drv.nvmeQ) != null || initOk) && AdminSizeOk(qsize) && dma.ok ==>
      err == SUCCESS && drv.nvmeQ != null &&
      drv.nvmeQ.acqDepth == qsize * 16 && drv.nvmeQ.acqDma == dma.dma &&
      drv.nvmeQ.virtAcq != null && fresh(drv.nvmeQ.virtAcq) && drv.nvmeQ.virtAcq.Length == qsize * 16 &&
      regs.dbs == old(regs.dbs) &&
      regs.regs == Store64(old(regs.regs).(aqa := WithAcqs(old(regs.regs.aqa), qsize)), ACQ_REG, dma.dma) &&
      regs.writes == old(regs.writes) + [W32(AQA_REG, WithAcqs(old(regs.regs.aqa), qsize))] +
                     WriteQOps(ACQ_REG, dma.dma, qemu) &&
      cq.virKernAddr == drv.nvmeQ.virtAcq && cq.size == qsize * 16
    ensures drv.uniqueCmdId == old(drv.uniqueCmdId)
    ensures old(drv.nvmeQ) != null ==>
      drv.nvmeQ == old(drv.nvmeQ) && unchanged(drv.nvmeQ`asqDepth, drv.nvmeQ`virtAsq, drv.nvmeQ`asqDma, drv.nvmeQ`qInit)
    ensures old(drv.nvmeQ) == null && drv.nvmeQ != null ==>
      fresh(drv.nvmeQ) && AsqBlank(drv.nvmeQ) && drv.nvmeQ.qInit == 1
  {
    if drv.nvmeQ == null {
      var e := QueueInit(drv, initOk);
      if e < 0 {
        return -ENOMEM;
      }
    }
    var q := drv.nvmeQ;
    if qsize > MAX_AQ_ENTRIES || qsize == 0 {
      return -EINVAL;
    }
    q.acqDepth := qsize * 16;
    if !dma.ok {
      q.virtAcq := null;
      return -ENOMEM;
    }
    q.virtAcq := new u8[qsize * 16];
    q.acqDma := dma.dma;
    var aqa := WithAcqs(regs.regs.aqa, qsize);
    regs.Writel(AQA_REG, aqa);
    WriteQ(regs, q.acqDma, ACQ_REG, qemu);
    cq.virKernAddr := q.virtAcq;
    cq.size := q.acqDepth;
    return SUCCESS;
  }

  /** 1 << n for the shifts CC.IOSQES allows (n < 16). */
  const SHL1: seq<nat> := [1, 2, 4, 8, 0x10, 0x20, 0x40, 0x80, 0x100, 0x200, 0x400, 0x800, 0x1000, 0x2000, 0x4000, 0x8000]

  function Shl1(n: nat): (r: nat)
    requires n < 16
    ensures 1 <= r <= 0x8000
  {
    SHL1[n]
  }

  /** Each entry of the table is twice the one before: it is 2^n. */
  lemma Shl1Doubles(n: nat)
    requires 0 < n < 16
    ensures Shl1(n) == 2 * Shl1(n - 1)
  {
  }

  /** 2^n. */
  function Pow2(n: nat): (r: nat)
    ensures r >= 1
  {
    if n == 0 then 1 else 2 * Pow2(n - 1)
  }

  /** The table behind 1 << n is the power of two. */
  lemma {:induction false} Shl1Pow2(n: nat)
    requires n < 16
    ensures Shl1(n) == Pow2(n)
  {
    if n > 0 {
      Shl1Pow2(n - 1);
      Shl1Doubles(n);
    }
  }

  /**
   * The byte size of an I/O SQ: elements entries of 2^CC.IOSQES bytes. The product is
   * formed in int and always fits, so storing it in the u32 size loses nothing.
   */
  function IoSqSize(elements: u16, cc: u32): (r: u32)
    ensures r == elements * Pow2(Iosqes(cc)) && r <= 0xFFFF * 0x8000
  {
    Shl1Pow2(Iosqes(cc));
    var s := Shl1(Iosqes(cc));
    assert elements * s <= 0xFFFF * s <= 0xFFFF * 0x8000;
    elements * s
  }

  /**
   * nvme_alloc_sq: sizes an I/O SQ from its element count and CC.IOSQES and allocates it,
   * storing the region in the global queue structure's ASQ fields (over the admin SQ's),
   * then records the region and the next unique id in the SQ.
   */
  method NvmeAllocSq(regs: CtrlRegs, drv: Driver, sq: MetricsSq, initOk: bool, dma: DmaAlloc)
    returns (err: int)
    modifies drv`nvmeQ, drv`uniqueCmdId, QueueOf(drv)`virtAsq, QueueOf(drv)`asqDma, sq`virKernAddr, sq`size, sq`uniqueCmdId
    ensures old(drv.nvmeQ) == null && !initOk ==>
      err == -ENOMEM && drv.nvmeQ == null && unchanged(sq) && drv.uniqueCmdId == old(drv.uniqueCmdId)
    ensures (old(drv.nvmeQ) != null || initOk) && !dma.ok ==>
      err == -ENOMEM && drv.nvmeQ != null && drv.nvmeQ.virtAsq == null &&
      sq.size == IoSqSize(sq.publicSq.elements, regs.regs.cc) && sq.virKernAddr == old(sq.virKernAddr) &&
      sq.uniqueCmdId == old(sq.uniqueCmdId) && drv.uniqueCmdId == old(drv.uniqueCmdId) &&
      (old(drv.nvmeQ) != null ==> drv.nvmeQ.asqDma == old(drv.nvmeQ.asqDma)) &&
      (old(drv.nvmeQ) == null ==> drv.nvmeQ.asqDma == 0)
    ensures (old(drv.nvmeQ) != null || initOk) && dma.ok ==>
      err == SUCCESS && drv.nvmeQ != null &&
      sq.size == IoSqSize(sq.publicSq.elements, regs.regs.cc) &&
      drv.nvmeQ.virtAsq != null && fresh(drv.nvmeQ.virtAsq) && drv.nvmeQ.virtAsq.Length == sq.size &&
      drv.nvmeQ.asqDma == dma.dma &&
      sq.virKernAddr == drv.nvmeQ.virtAsq &&
      sq.uniqueCmdId == IdOf(old(drv.uniqueCmdId)) && drv.uniqueCmdId == Bump(old(drv.uniqueCmdId))
    ensures old(drv.nvmeQ) != null ==>
      drv.nvmeQ == old(drv.nvmeQ) && unchanged(drv.nvmeQ`asqDepth, drv.nvmeQ`qInit) &&
      unchanged(drv.nvmeQ`acqDepth, drv.nvmeQ`virtAcq, drv.nvmeQ`acqDma)
    ensures old(drv.nvmeQ) == null && drv.nvmeQ != null ==>
      fresh(drv.nvmeQ) && drv.nvmeQ.asqDepth == 0 && AcqBlank(drv.nvmeQ) && drv.nvmeQ.qInit == 1
  {
    if drv.nvmeQ == null {
      var e := QueueInit(drv, initOk);
      if e < 0 {
        return -ENOMEM;
      }
    }
    var q := drv.nvmeQ;
    sq.size := IoSqSize(sq.publicSq.elements, regs.regs.cc);
    if !dma.ok {
      q.virtAsq := null;
      return -ENOMEM;
    }
    q.virtAsq := new u8[sq.size];
    q.asqDma := dma.dma;
    sq.virKernAddr := q.virtAsq;
    sq.uniqueCmdId := IdOf(drv.uniqueCmdId);
    drv.uniqueCmdId := Bump(drv.uniqueCmdId);
    return SUCCESS;
  }

  /**
   * The admin-queue order of a test program: the CQ, then the SQ, then a disable. Creating
   * the SQ keeps the CQ's ring in nvme_q, so the disable frees both rings, each with the
   * depth it was created with.
   */
  method AdminLifecycle(regs: CtrlRegs, drv: Driver, sqSize: u16, cqSize: u16, sq: MetricsSq, cq: MetricsCq,
                        initOk: bool, sqDma: DmaAlloc, cqDma: DmaAlloc, qemu: bool)
    returns (cqErr: int, sqErr: int, offErr: int)
    requires AdminSizeOk(sqSize) && AdminSizeOk(cqSize) && sqDma.ok && cqDma.ok
    requires drv.nvmeQ != null || initOk
    modifies regs, drv, QueueOf(drv), sq`virKernAddr, sq`size, sq`uniqueCmdId, cq`virKernAddr, cq`size
    ensures cqErr == SUCCESS && sqErr == SUCCESS && offErr == SUCCESS
    ensures sq.virKernAddr != null && cq.virKernAddr != null && sq.virKernAddr != cq.virKernAddr
    ensures drv.freed == old(drv.freed) + [Region(sqSize * 64, sq.virKernAddr, sqDma.dma),
                                           Region(cqSize * 16, cq.virKernAddr, cqDma.dma)]
    ensures regs.regs.cc == 0 && Asqs(regs.regs.aqa) == sqSize % 0x1000 && Acqs(regs.regs.aqa) == cqSize % 0x1000
  {
    cqErr := CreateAdmnCq(regs, drv, cqSize, cq, initOk, cqDma, qemu);
    AqaFieldsCommute(regs.regs.aqa, sqSize, cqSize);
    sqErr := CreateAdmnSq(regs, drv, sqSize, sq, initOk, sqDma, qemu);
    offErr := CtrlDisable(regs, drv);
  }

  // ---------------------------------------------------------------------------------
  // Properties
  // ---------------------------------------------------------------------------------

  /** The counter after n allocations. */
  function BumpN(counter: u64, n: nat): u64
  {
    if n == 0 then counter else Bump(BumpN(counter, n - 1))
  }

  /** n allocations advance the counter by n, modulo 2^64. */
  lemma {:induction false} BumpNIsAdd(counter: u64, n: nat)
    ensures BumpN(counter, n) == (counter + n) % U64_LIMIT
  {
    if n > 0 {
      BumpNIsAdd(counter, n - 1);
      IncMod(counter + n - 1);
    }
  }

  /** Incrementing commutes with reduction modulo 2^64. */
  lemma IncMod(x: nat)
    ensures (x % U64_LIMIT + 1) % U64_LIMIT == (x + 1) % U64_LIMIT
  {
    var q, r := x / U64_LIMIT, x % U64_LIMIT;
    if r + 1 == U64_LIMIT {
      assert x + 1 == (q + 1) * U64_LIMIT;
    } else {
      assert x + 1 == q * U64_LIMIT + (r + 1);
    }
  }

  /**
   * The ids of queues allocated one after another are distinct within any 65536
   * consecutive allocations, and the 65537th repeats the first: the id is the counter's
   * low 16 bits.
   */
  lemma IdsDistinct(counter: u64, i: nat, j: nat)
    requires i < j
    ensures j - i < U16_LIMIT ==> IdOf(BumpN(counter, i)) != IdOf(BumpN(counter, j))
    ensures j - i == U16_LIMIT ==> IdOf(BumpN(counter, i)) == IdOf(BumpN(counter, j))
  {
    BumpNIsAdd(counter, i);
    BumpNIsAdd(counter, j);
    LowBits(counter + i);
    LowBits(counter + j);
    LowBitsStep(counter + i, j - i);
  }

  /** Two numbers less than 2^16 apart have different low 16 bits; exactly 2^16 apart, the same. */
  lemma LowBitsStep(x: nat, d: nat)
    requires 0 < d
    ensures d < 0x1_0000 ==> x % 0x1_0000 != (x + d) % 0x1_0000
    ensures d == 0x1_0000 ==> x % 0x1_0000 == (x + d) % 0x1_0000
  {
    var q, r := x / 0x1_0000, x % 0x1_0000;
    assert x + d == q * 0x1_0000 + (r + d);
    ModShift(q, r + d);
    if d < 0x1_0000 {
      if r + d >= 0x1_0000 {
        assert r + d == 1 * 0x1_0000 + (r + d - 0x1_0000);
        ModShift(1, r + d - 0x1_0000);
      }
    } else if d == 0x1_0000 {
      assert r + d == 1 * 0x1_0000 + r;
      ModShift(1, r);
    }
  }

  lemma LowBits(x: nat)
    ensures (x % U64_LIMIT) % U16_LIMIT == x % U16_LIMIT
  {
    var q := x / U64_LIMIT;
    var r := x % U64_LIMIT;
    assert x == (q * 0x1_0000_0000_0000) * 0x1_0000 + r;
    ModShift(q * 0x1_0000_0000_0000, r);
  }

  /** Adding whole multiples of 2^16 leaves the low 16 bits alone. */
  lemma ModShift(q: nat, t: nat)
    ensures (q * 0x1_0000 + t) % 0x1_0000 == t % 0x1_0000
  {
    var a := q * 0x1_0000 + t;
    var b := t / 0x1_0000;
    assert a == (q + b) * 0x1_0000 + t % 0x1_0000;
  }
}
