/**
 * The character-device entry points of sysdnvme.c: the list of probed devices and its
 * lookup by minor number, open and release with their one-opener flag, the decoding and
 * checks of an mmap request, and the ioctl rules for the controller state and for the
 * meta buffer pool.
 *
 * What the file operations hand to code this model does not include (the queue and meta
 * buffer teardown, the IRQ reset, the meta pool creation) is recorded as a log of
 * Cleanup events on the device, in the order the source issues them.
 */
module DeviceFile {
  import opened Base
  import opened Registers
  import opened QueueSetup

  // ---------------------------------------------------------------------------------
  // mmap offsets
  // ---------------------------------------------------------------------------------

  /** The id field of vm_pgoff is its low 18 bits; the type field the two bits above. */
  const ID_SPAN: nat := 0x4_0000
  const TYPE_CQ: nat := 0
  const TYPE_SQ: nat := 1
  const TYPE_META: nat := 2
  /** USHRT_MAX, the largest SQ or CQ id. */
  const USHRT_MAX: nat := 0xFFFF
  /**
   * The meta id bound as the source writes it, 2^18, which in C is 2 exclusive-or 18, that
   * is 16, not two to the eighteenth.
   */
  const META_ID_BOUND: nat := 16

  /** (vm_pgoff >> 0x12) & 0x3. */
  function MmapType(pgoff: u64): (t: nat)
    ensures t < 4
  {
    (pgoff / ID_SPAN) % 4
  }

  /** vm_pgoff & 0x3FFFF. */
  function MmapId(pgoff: u64): (id: nat)
    ensures id < ID_SPAN
  {
    pgoff % ID_SPAN
  }

  /** The page offset a user passes to mmap to name region type t, id id. */
  function MmapOffset(t: nat, id: nat): (p: u64)
    requires t < 4 && id < ID_SPAN
    ensures p < 4 * ID_SPAN
  {
    t * ID_SPAN + id
  }

  /** Decoding an encoded offset gives back its type and id. */
  lemma DecodeEncode(t: nat, id: nat)
    requires t < 4 && id < ID_SPAN
    ensures MmapType(MmapOffset(t, id)) == t && MmapId(MmapOffset(t, id)) == id
  {
    var p := MmapOffset(t, id);
    DivMod(p, ID_SPAN, t, id);
  }

  /** Re-encoding a decoded offset keeps its low 20 bits: the bits above are ignored. */
  lemma EncodeDecode(pgoff: u64)
    ensures MmapOffset(MmapType(pgoff), MmapId(pgoff)) == pgoff % (4 * ID_SPAN)
  {
    var q := pgoff / ID_SPAN;
    var hi := q / 4;
    assert pgoff == q * ID_SPAN + pgoff % ID_SPAN;
    assert q == hi * 4 + q % 4;
    assert pgoff == hi * (4 * ID_SPAN) + ((q % 4) * ID_SPAN + pgoff % ID_SPAN);
    DivMod(pgoff, 4 * ID_SPAN, hi, (q % 4) * ID_SPAN + pgoff % ID_SPAN);
  }

  /** Two offsets that agree in their low 20 bits decode alike. */
  lemma DecodeLowBits(p: u64, p': u64)
    requires p % (4 * ID_SPAN) == p' % (4 * ID_SPAN)
    ensures MmapType(p) == MmapType(p') && MmapId(p) == MmapId(p')
  {
    EncodeDecode(p);
    EncodeDecode(p');
    DecodeEncode(MmapType(p), MmapId(p));
    DecodeEncode(MmapType(p'), MmapId(p'));
  }

  // ---------------------------------------------------------------------------------
  // The mmap checks
  // ---------------------------------------------------------------------------------

  /**
   * A queue as the mmap path sees it: its id, whether its ring is one contiguous buffer,
   * the size of that buffer in bytes and the physical address of its start.
   */
  datatype QueueView = QueueView(id: u16, contig: bool, size: u32, phys: u64)

  /** A meta buffer as the mmap path sees it: its id and the physical address of its start. */
  datatype MetaView = MetaView(id: u32, phys: u64)

  /** The first queue with the given id (find_sq, find_cq). */
  function FindQueue(qs: seq<QueueView>, id: nat): (r: Option<QueueView>)
    ensures r.Some? ==> r.value in qs && r.value.id == id
    ensures r.None? ==> forall q :: q in qs ==> q.id != id
  {
    if |qs| == 0 then None
    else if qs[0].id == id then Some(qs[0])
    else FindQueue(qs[1..], id)
  }

  /** The first meta buffer with the given id (find_meta_node). */
  function FindMeta(ms: seq<MetaView>, id: nat): (r: Option<MetaView>)
    ensures r.Some? ==> r.value in ms && r.value.id == id
    ensures r.None? ==> forall m :: m in ms ==> m.id != id
  {
    if |ms| == 0 then None
    else if ms[0].id == id then Some(ms[0])
    else FindMeta(ms[1..], id)
  }

  /** The verdict of the checks: an error, or the page frame and length to remap. */
  datatype MmapResult = Refused(err: int) | Remap(pfn: nat, len: nat)

  /** The pages the source lets a region of `range` bytes be mapped over: range/PAGE_SIZE + 1. */
  function WindowPages(range: nat): nat
  {
    range / PAGE_SIZE + 1
  }

  /**
   * The length and frame checks shared by every region type: a request longer than the
   * region's pages is refused, and so is a region whose start lies in frame 0.
   */
  function Window(range: nat, phys: u64, len: nat): MmapResult
  {
    if WindowPages(range) * PAGE_SIZE < len then Refused(-EINVAL)
    else if phys / PAGE_SIZE == 0 then Refused(-EINVAL)
    else Remap(phys / PAGE_SIZE, len)
  }

  /** The checks of a queue region, SQ or CQ alike. */
  function QueueRegion(qs: seq<QueueView>, id: nat, len: nat): MmapResult
  {
    if id > USHRT_MAX then Refused(-EINVAL)
    else match FindQueue(qs, id)
      case None => Refused(-EBADSLT)
      case Some(q) => if !q.contig then Refused(-EOPNOTSUPP) else Window(q.size, q.phys, len)
  }

  /**
   * dnvme_device_mmap after the device lookup: decode vm_pgoff, find the region it names,
   * and check the requested length (vm_end - vm_start) and the frame.
   */
  function MmapCheck(pgoff: u64, len: nat, sqs: seq<QueueView>, cqs: seq<QueueView>,
                     metas: seq<MetaView>, metaBufSize: u16): MmapResult
  {
    var t, id := MmapType(pgoff), MmapId(pgoff);
    if t == TYPE_SQ then QueueRegion(sqs, id, len)
    else if t == TYPE_CQ then QueueRegion(cqs, id, len)
    else if t == TYPE_META then
      if id > META_ID_BOUND then Refused(-EINVAL)
      else match FindMeta(metas, id)
        case None => Refused(-EBADSLT)
        case Some(m) => Window(metaBufSize, m.phys, len)
    else Refused(-EINVAL)
  }

  /** Whether a queue region may be mapped with length len, stated without the checks' order. */
  predicate QueueMappable(qs: seq<QueueView>, id: nat, len: nat)
  {
    id <= USHRT_MAX && FindQueue(qs, id).Some? && FindQueue(qs, id).value.contig &&
    len <= WindowPages(FindQueue(qs, id).value.size) * PAGE_SIZE &&
    FindQueue(qs, id).value.phys >= PAGE_SIZE
  }

  /**
   * An SQ or CQ region is remapped exactly when its id fits 16 bits, a queue with that id
   * exists, its ring is contiguous, the request is no longer than the ring's pages and
   * the ring does not start in frame 0; the frame is then that of the ring's start.
   */
  lemma QueueMmapRule(pgoff: u64, len: nat, sqs: seq<QueueView>, cqs: seq<QueueView>,
                      metas: seq<MetaView>, metaBufSize: u16)
    requires MmapType(pgoff) == TYPE_SQ || MmapType(pgoff) == TYPE_CQ
    ensures var qs := if MmapType(pgoff) == TYPE_SQ then sqs else cqs;
      var r := MmapCheck(pgoff, len, sqs, cqs, metas, metaBufSize);
      (r.Remap? <==> QueueMappable(qs, MmapId(pgoff), len)) &&
      (r.Remap? ==> r.pfn == FindQueue(qs, MmapId(pgoff)).value.phys / PAGE_SIZE && r.len == len)
  {
  }

  /** Each way a queue region is refused, with its error. */
  lemma QueueMmapErrors(pgoff: u64, len: nat, sqs: seq<QueueView>, cqs: seq<QueueView>,
                        metas: seq<MetaView>, metaBufSize: u16)
    requires MmapType(pgoff) == TYPE_SQ || MmapType(pgoff) == TYPE_CQ
    ensures var qs := if MmapType(pgoff) == TYPE_SQ then sqs else cqs;
      var id := MmapId(pgoff);
      var r := MmapCheck(pgoff, len, sqs, cqs, metas, metaBufSize);
      (id > USHRT_MAX ==> r == Refused(-EINVAL)) &&
      (id <= USHRT_MAX && (forall q :: q in qs ==> q.id != id) ==> r == Refused(-EBADSLT)) &&
      (id <= USHRT_MAX && FindQueue(qs, id).Some? && !FindQueue(qs, id).value.contig ==>
        r == Refused(-EOPNOTSUPP))
  {
    var qs := if MmapType(pgoff) == TYPE_SQ then sqs else cqs;
    var id := MmapId(pgoff);
    if id <= USHRT_MAX && forall q :: q in qs ==> q.id != id {
      assert FindQueue(qs, id).None?;
    }
  }

  /**
   * A meta region: ids above 16 are refused with -EINVAL (so the ids 17 to 2^18 - 1 the
   * 18-bit field can carry are never mapped), a missing id gives -EBADSLT, and a present
   * one is mapped over the pool's buffer size.
   */
  lemma MetaMmapRule(pgoff: u64, len: nat, sqs: seq<QueueView>, cqs: seq<QueueView>,
                     metas: seq<MetaView>, metaBufSize: u16)
    requires MmapType(pgoff) == TYPE_META
    ensures var id := MmapId(pgoff);
      var r := MmapCheck(pgoff, len, sqs, cqs, metas, metaBufSize);
      (id > META_ID_BOUND ==> r == Refused(-EINVAL)) &&
      (id <= META_ID_BOUND && (forall m :: m in metas ==> m.id != id) ==> r == Refused(-EBADSLT)) &&
      (r.Remap? <==>
        id <= META_ID_BOUND && FindMeta(metas, id).Some? &&
        len <= WindowPages(metaBufSize) * PAGE_SIZE && FindMeta(metas, id).value.phys >= PAGE_SIZE)
  {
    var id := MmapId(pgoff);
    if id <= META_ID_BOUND && forall m :: m in metas ==> m.id != id {
      assert FindMeta(metas, id).None?;
    }
  }

  /** Type 3 names no region. */
  lemma UnknownTypeRefused(pgoff: u64, len: nat, sqs: seq<QueueView>, cqs: seq<QueueView>,
                           metas: seq<MetaView>, metaBufSize: u16)
    requires MmapType(pgoff) == 3
    ensures MmapCheck(pgoff, len, sqs, cqs, metas, metaBufSize) == Refused(-EINVAL)
  {
  }

  /**
   * A granted mapping covers at most the region's own pages plus one: the window is
   * range/PAGE_SIZE + 1 pages, which always reaches past the end of the region, by a whole
   * page when the range is a multiple of PAGE_SIZE.
   */
  lemma WindowBound(range: nat, phys: u64, len: nat)
    ensures Window(range, phys, len).Remap? ==> len <= range + PAGE_SIZE
    ensures range < WindowPages(range) * PAGE_SIZE <= range + PAGE_SIZE
  {
    var q := range / PAGE_SIZE;
    assert range == q * PAGE_SIZE + range % PAGE_SIZE;
    assert WindowPages(range) * PAGE_SIZE == q * PAGE_SIZE + PAGE_SIZE;
  }

  /** Any outcome of the checks is a refusal with one of the four errors, or a remap of frame >= 1. */
  lemma MmapOutcomes(pgoff: u64, len: nat, sqs: seq<QueueView>, cqs: seq<QueueView>,
                     metas: seq<MetaView>, metaBufSize: u16)
    ensures var r := MmapCheck(pgoff, len, sqs, cqs, metas, metaBufSize);
      (r.Refused? ==> r.err in {-EINVAL, -EBADSLT, -EOPNOTSUPP}) &&
      (r.Remap? ==> r.pfn >= 1 && r.len == len)
  {
  }

  // ---------------------------------------------------------------------------------
  // Devices
  // ---------------------------------------------------------------------------------

  /** enum nvme_state. */
  const ST_ENABLE: int := 0
  const ST_DISABLE: int := 1
  const ST_DISABLE_COMPLETELY: int := 2
  /** MAX_METABUFF_SIZE, the largest meta buffer, 16 KiB. */
  const MAX_METABUFF_SIZE: nat := 0x4000

  /** The work a file operation hands to code outside this model, in the order issued. */
  datatype Cleanup =
    | FreeQueues(state: int)     // deallocate_all_queues(dev, state)
    | FreeMetaBufs               // deallocate_mb(dev)
    | ResetIrq                   // init_irq_track(dev, ...)
    | CreateMetaPool(size: u16)  // metabuff_create(dev, size)
    | RunUnitTest(test: u16)     // unit_test_reap_inq, unit_test_mmap, unit_test_reap

  /** One probed controller (struct metrics_device_list with its metrics_device). */
  class DeviceEntry {
    const minor: int
    const regs: CtrlRegs
    const drv: Driver
    /** open_flag: 1 while some process has the device file open. */
    var openFlag: u8
    /** The device's queues and meta buffers as the mmap path sees them. */
    var sqs: seq<QueueView>
    var cqs: seq<QueueView>
    var metas: seq<MetaView>
    /** metrics_meta.meta_buf_size. */
    var metaBufSize: u16
    var log: seq<Cleanup>

    constructor (minor0: int, regs0: CtrlRegs, drv0: Driver)
      ensures minor == minor0 && regs == regs0 && drv == drv0 && openFlag == 0
      ensures sqs == [] && cqs == [] && metas == [] && metaBufSize == 0 && log == []
    {
      minor := minor0;
      regs := regs0;
      drv := drv0;
      openFlag := 0;
      sqs := [];
      cqs := [];
      metas := [];
      metaBufSize := 0;
      log := [];
    }
  }

  /** The index of the first device with the given minor number, -1 when there is none. */
  function MinorIndex(devs: seq<DeviceEntry>, minor: int): (r: int)
    ensures -1 <= r < |devs|
  {
    if |devs| == 0 then -1
    else if devs[0].minor == minor then 0
    else
      var r := MinorIndex(devs[1..], minor);
      if r < 0 then -1 else r + 1
  }

  /** MinorIndex names the first match, and -1 means no device has that minor. */
  lemma {:induction false} MinorIndexFirst(devs: seq<DeviceEntry>, minor: int)
    ensures var r := MinorIndex(devs, minor);
      (r >= 0 ==> devs[r].minor == minor && forall j :: 0 <= j < r ==> devs[j].minor != minor) &&
      (r < 0 <==> forall j :: 0 <= j < |devs| ==> devs[j].minor != minor)
  {
    if |devs| > 0 && devs[0].minor != minor {
      MinorIndexFirst(devs[1..], minor);
      assert forall j :: 1 <= j < |devs| ==> devs[j] == devs[1..][j - 1];
    }
  }

  /** find_device: walk the list and return the first device with the minor number, or null. */
  method FindDevice(devs: seq<DeviceEntry>, minor: int) returns (d: DeviceEntry?)
    ensures MinorIndex(devs, minor) < 0 ==> d == null
    ensures MinorIndex(devs, minor) >= 0 ==> d == devs[MinorIndex(devs, minor)]
    ensures d != null ==> d.minor == minor
  {
    MinorIndexFirst(devs, minor);
    var i := 0;
    while i < |devs|
      invariant 0 <= i <= |devs|
      invariant forall j :: 0 <= j < i ==> devs[j].minor != minor
    {
      if devs[i].minor == minor {
        return devs[i];
      }
      i := i + 1;
    }
    return null;
  }

  /** The driver's device list (metrics_dev_ll) and the next minor to hand out (nvme_minor_x). */
  class DeviceList {
    var devs: seq<DeviceEntry>
    var nextMinor: int

    constructor ()
      ensures devs == [] && nextMinor == 0
    {
      devs := [];
      nextMinor := 0;
    }

    /** Every device's minor number is its place in the list, and the next one is the list's length. */
    predicate Consecutive()
      reads this, devs
    {
      nextMinor == |devs| && forall i :: 0 <= i < |devs| ==> devs[i].minor == i
    }

    /**
     * The bookkeeping half of dnvme_pci_probe: when the entry cannot be allocated (allocOk
     * false) it gives -ENOMEM, and when the ioctl initialisation fails (ok false) -EINVAL,
     * adding nothing either way; otherwise it adds a closed device with the next minor
     * number at the tail and advances the counter.
     */
    method Probe(regs: CtrlRegs, drv: Driver, allocOk: bool, ok: bool) returns (err: int)
      requires Consecutive()
      modifies this
      ensures Consecutive()
      ensures !allocOk ==> err == -ENOMEM && devs == old(devs) && nextMinor == old(nextMinor)
      ensures allocOk && !ok ==> err == -EINVAL && devs == old(devs) && nextMinor == old(nextMinor)
      ensures allocOk && ok ==>
        err == SUCCESS && nextMinor == old(nextMinor) + 1 &&
        |devs| == |old(devs)| + 1 && devs[..|old(devs)|] == old(devs) &&
        fresh(devs[|old(devs)|]) && devs[|old(devs)|].openFlag == 0 &&
        devs[|old(devs)|].regs == regs && devs[|old(devs)|].drv == drv
    {
      if !allocOk {
        return -ENOMEM;
      }
      if !ok {
        return -EINVAL;
      }
      var d := new DeviceEntry(nextMinor, regs, drv);
      devs := devs + [d];
      nextMinor := nextMinor + 1;
      err := SUCCESS;
    }
  }

  /** In a list built by Probe, minor m is found at index m, and only minors below the length are found. */
  lemma {:induction false} ConsecutiveLookup(devs: seq<DeviceEntry>, m: int)
    requires forall i :: 0 <= i < |devs| ==> devs[i].minor == i
    ensures MinorIndex(devs, m) == (if 0 <= m < |devs| then m else -1)
  {
    MinorIndexFirst(devs, m);
    if 0 <= m < |devs| {
      assert devs[m].minor == m;
    }
  }

  /** The devices of a list, as a set of objects the file operations may change. */
  function Entries(devs: seq<DeviceEntry>): set<object>
  {
    set i | 0 <= i < |devs| :: devs[i]
  }

  // ---------------------------------------------------------------------------------
  // File operations
  // ---------------------------------------------------------------------------------

  /**
   * The queue and meta-buffer views mmap reads are as they were. The cleanup and creation
   * events (deallocate_all_queues, deallocate_mb, metabuff_create) change them in ways
   * this model does not follow, so the views are promised kept only on paths that log none.
   */
  twostate predicate ViewsKept(d: DeviceEntry)
    reads d
  {
    d.sqs == old(d.sqs) && d.cqs == old(d.cqs) && d.metas == old(d.metas) && d.metaBufSize == old(d.metaBufSize)
  }

  /**
   * dnvme_device_open: an unknown minor gives -ENODEV; a closed device is marked open and
   * its queues and meta buffers are freed; a device already open gives -EPERM and is left
   * as it is.
   */
  method Open(devs: seq<DeviceEntry>, minor: int) returns (err: int)
    modifies Entries(devs)
    ensures MinorIndex(devs, minor) < 0 ==> err == -ENODEV
    ensures MinorIndex(devs, minor) >= 0 ==>
      var d := devs[MinorIndex(devs, minor)];
      if old(d.openFlag) == 0 then
        err == SUCCESS && d.openFlag == 1 &&
        d.log == old(d.log) + [FreeQueues(ST_DISABLE_COMPLETELY), FreeMetaBufs]
      else
        err == -EPERM && unchanged(d)
    ensures forall i :: 0 <= i < |devs| && devs[i].minor != minor ==> unchanged(devs[i])
  {
    var d := FindDevice(devs, minor);
    if d == null {
      return -ENODEV;
    }
    if d.openFlag == 0 {
      d.openFlag := 1;
      d.log := d.log + [FreeQueues(ST_DISABLE_COMPLETELY), FreeMetaBufs];
      err := SUCCESS;
    } else {
      err := -EPERM;
    }
  }

  /**
   * dnvme_device_release: an unknown minor gives -ENODEV; otherwise the device is marked
   * closed, its queues and meta buffers freed and its IRQ tracking reset, and the result
   * is that of the reset (irqResult).
   */
  method Release(devs: seq<DeviceEntry>, minor: int, irqResult: int) returns (err: int)
    modifies Entries(devs)
    ensures MinorIndex(devs, minor) < 0 ==> err == -ENODEV
    ensures MinorIndex(devs, minor) >= 0 ==>
      var d := devs[MinorIndex(devs, minor)];
      err == irqResult && d.openFlag == 0 &&
      d.log == old(d.log) + [FreeQueues(ST_DISABLE_COMPLETELY), FreeMetaBufs, ResetIrq]
    ensures forall i :: 0 <= i < |devs| && devs[i].minor != minor ==> unchanged(devs[i])
  {
    var d := FindDevice(devs, minor);
    if d == null {
      return -ENODEV;
    }
    d.openFlag := 0;
    d.log := d.log + [FreeQueues(ST_DISABLE_COMPLETELY), FreeMetaBufs, ResetIrq];
    err := irqResult;
  }

  /**
   * dnvme_device_mmap: an unknown minor gives -ENODEV; a request the checks refuse gives
   * their error; a granted one gives the result of remapping the frame (remapResult).
   */
  method Mmap(devs: seq<DeviceEntry>, minor: int, pgoff: u64, len: nat, remapResult: int)
    returns (err: int)
    ensures MinorIndex(devs, minor) < 0 ==> err == -ENODEV
    ensures MinorIndex(devs, minor) >= 0 ==>
      var d := devs[MinorIndex(devs, minor)];
      match MmapCheck(pgoff, len, d.sqs, d.cqs, d.metas, d.metaBufSize)
      case Refused(e) => err == e
      case Remap(_, _) => err == remapResult
  {
    var d := FindDevice(devs, minor);
    if d == null {
      return -ENODEV;
    }
    match MmapCheck(pgoff, len, d.sqs, d.cqs, d.metas, d.metaBufSize)
    case Refused(e) => err := e;
    case Remap(_, _) => err := remapResult;
  }

  /** The ioctls of this model, with their argument. */
  datatype Ioctl =
    | DeviceState(state: int)    // NVME_IOCTL_DEVICE_STATE, the state the argument points to
    | MetabufCreate(param: u64)  // NVME_IOCTL_METABUF_CREATE, the size
    | UnitTests(param: u64)      // IOCTL_UNIT_TESTS, the test number in the low 16 bits

  /** The unit tests IOCTL_UNIT_TESTS knows: 0, 1 and 2. */
  predicate KnownTest(param: u64)
  {
    param % U16_LIMIT <= 2
  }

  /**
   * What the controller-state ioctl does to a device. Enabling sets CC.EN and reports the
   * ready wait. Disabling stores CC with EN cleared and then 0, frees both admin rings, and
   * cleans up the queues, meta buffers and IRQ tracking only when the disable succeeded,
   * reporting the IRQ reset. Any other state is refused with nothing touched.
   */
  twostate predicate StateApplied(d: DeviceEntry, state: int, csts: nat -> u32, irqResult: int, err: int)
    reads d, d.regs, d.drv, QueueOf(d.drv)
  {
    d.openFlag == old(d.openFlag) &&
    d.drv.nvmeQ == old(d.drv.nvmeQ) && d.drv.uniqueCmdId == old(d.drv.uniqueCmdId) && d.regs.dbs == old(d.regs.dbs) &&
    (state == ST_ENABLE ==>
      d.regs.regs == old(d.regs.regs).(cc := SetEn(old(d.regs.regs.cc))) &&
      d.regs.writes == old(d.regs.writes) + [W32(CC_REG, SetEn(old(d.regs.regs.cc)))] &&
      d.drv.freed == old(d.drv.freed) && d.log == old(d.log) && ViewsKept(d) &&
      (err == SUCCESS <==> ReadyInTime(csts, TimeoutBudget(d.regs.cap)))) &&
    (state == ST_DISABLE || state == ST_DISABLE_COMPLETELY ==>
      d.regs.regs == old(d.regs.regs).(cc := 0) &&
      d.regs.writes == old(d.regs.writes) + [W32(CC_REG, ClearEn(old(d.regs.regs.cc))), W32(CC_REG, 0)] &&
      (d.drv.nvmeQ == null ==> err == -EINVAL && d.log == old(d.log) && ViewsKept(d) && d.drv.freed == old(d.drv.freed)) &&
      (d.drv.nvmeQ != null ==>
        err == irqResult && d.log == old(d.log) + [FreeQueues(state), FreeMetaBufs, ResetIrq] &&
        d.drv.freed == old(d.drv.freed) + [Region(d.drv.nvmeQ.asqDepth, d.drv.nvmeQ.virtAsq, d.drv.nvmeQ.asqDma),
                                           Region(d.drv.nvmeQ.acqDepth, d.drv.nvmeQ.virtAcq, d.drv.nvmeQ.acqDma)])) &&
    (state !in {ST_ENABLE, ST_DISABLE, ST_DISABLE_COMPLETELY} ==>
      err == -EINVAL && d.log == old(d.log) && ViewsKept(d) && unchanged(d.regs) && d.drv.freed == old(d.drv.freed))
  }

  /** The controller-state ioctl on one device (the NVME_IOCTL_DEVICE_STATE case). */
  method SetDeviceState(d: DeviceEntry, state: int, csts: nat -> u32, irqResult: int)
    returns (err: int)
    modifies d, d.regs, d.drv`freed
    ensures StateApplied(d, state, csts, irqResult, err)
  {
    if state == ST_ENABLE {
      err := CtrlEnable(d.regs, csts);
    } else if state == ST_DISABLE || state == ST_DISABLE_COMPLETELY {
      err := CtrlDisable(d.regs, d.drv);
      if err == SUCCESS {
        d.log := d.log + [FreeQueues(state), FreeMetaBufs, ResetIrq];
        err := irqResult;
      }
    } else {
      err := -EINVAL;
    }
  }

  /** The device an entry point acts on, as a set: empty for an unknown minor. */
  function Found(devs: seq<DeviceEntry>, minor: int): set<DeviceEntry>
  {
    if MinorIndex(devs, minor) < 0 then {} else {devs[MinorIndex(devs, minor)]}
  }

  /** The register space of the device an entry point acts on. */
  function FoundRegs(devs: seq<DeviceEntry>, minor: int): set<CtrlRegs>
  {
    if MinorIndex(devs, minor) < 0 then {} else {devs[MinorIndex(devs, minor)].regs}
  }

  /** The driver globals of the device an entry point acts on. */
  function FoundDrv(devs: seq<DeviceEntry>, minor: int): set<Driver>
  {
    if MinorIndex(devs, minor) < 0 then {} else {devs[MinorIndex(devs, minor)].drv}
  }

  /**
   * dnvme_ioctl_device for the ioctls above: an unknown minor gives -ENODEV; a meta pool
   * larger than MAX_METABUFF_SIZE is refused before anything is created; a known unit test
   * is run and reports SUCCESS; an unknown one leaves -EINVAL. Only the controller-state
   * ioctl touches the registers and the driver globals, and only the found device's.
   */
  method DeviceIoctl(devs: seq<DeviceEntry>, minor: int, cmd: Ioctl, csts: nat -> u32,
                     irqResult: int, metaResult: int) returns (err: int)
    modifies Found(devs, minor), FoundRegs(devs, minor), FoundDrv(devs, minor)`freed
    ensures MinorIndex(devs, minor) < 0 ==>
      err == -ENODEV && forall i :: 0 <= i < |devs| ==> unchanged(devs[i], devs[i].regs, devs[i].drv)
    ensures MinorIndex(devs, minor) >= 0 && cmd.MetabufCreate? ==>
      var d := devs[MinorIndex(devs, minor)];
      (cmd.param > MAX_METABUFF_SIZE ==> err == -EINVAL && d.log == old(d.log)) &&
      (cmd.param <= MAX_METABUFF_SIZE ==> err == metaResult && d.log == old(d.log) + [CreateMetaPool(cmd.param)])
    ensures MinorIndex(devs, minor) >= 0 && cmd.UnitTests? ==>
      var d := devs[MinorIndex(devs, minor)];
      (KnownTest(cmd.param) ==> err == SUCCESS && d.log == old(d.log) + [RunUnitTest(cmd.param % U16_LIMIT)]) &&
      (!KnownTest(cmd.param) ==> err == -EINVAL && d.log == old(d.log))
    ensures MinorIndex(devs, minor) >= 0 && !cmd.DeviceState? ==>
      var d := devs[MinorIndex(devs, minor)];
      unchanged(d.regs, d.drv) && d.openFlag == old(d.openFlag) &&
      (!(cmd.MetabufCreate? && cmd.param <= MAX_METABUFF_SIZE) ==> ViewsKept(d))
    ensures MinorIndex(devs, minor) >= 0 && cmd.DeviceState? ==>
      StateApplied(devs[MinorIndex(devs, minor)], cmd.state, csts, irqResult, err)
    ensures MinorIndex(devs, minor) >= 0 ==>
      var d := devs[MinorIndex(devs, minor)];
      forall i :: 0 <= i < |devs| ==>
        (devs[i].minor != minor ==> unchanged(devs[i])) &&
        (devs[i].regs != d.regs ==> unchanged(devs[i].regs)) &&
        (devs[i].drv != d.drv ==> unchanged(devs[i].drv))
  {
    var d := FindDevice(devs, minor);
    if d == null {
      return -ENODEV;
    }
    match cmd
    case DeviceState(state) =>
      err := SetDeviceState(d, state, csts, irqResult);
    case MetabufCreate(param) =>
      if param > MAX_METABUFF_SIZE {
        err := -EINVAL;
      } else {
        d.log := d.log + [CreateMetaPool(param)];
        err := metaResult;
      }
    case UnitTests(param) =>
      var test := param % U16_LIMIT;
      if test <= 2 {
        d.log := d.log + [RunUnitTest(test)];
        err := SUCCESS;
      } else {
        err := -EINVAL;
      }
  }

  /**
   * Opening twice without a release in between is refused the second time, and a release
   * makes the device openable again: the one-opener rule of open_flag.
   */
  method OpenTwice(devs: seq<DeviceEntry>, minor: int, irqResult: int)
    returns (first: int, second: int, third: int)
    requires MinorIndex(devs, minor) >= 0
    requires devs[MinorIndex(devs, minor)].openFlag == 0
    modifies Entries(devs)
    ensures first == SUCCESS && second == -EPERM && third == SUCCESS
  {
    first := Open(devs, minor);
    second := Open(devs, minor);
    var _ := Release(devs, minor, irqResult);
    third := Open(devs, minor);
  }
}
