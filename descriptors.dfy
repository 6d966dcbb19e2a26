/**
 * The per-command descriptors of dnvme_ds.h: scatter-list entries, the PRP descriptor
 * (struct nvme_prps) and the command-tracking record (struct cmd_track).
 */
module Descriptors {
  import opened Base
  import opened Endian

  /** Which PRP fields of a command are in use (the source's PRP1/PRP2/PRP_List bit mask). */
  datatype PrpType = NoPrp | Prp1 | Prp1Prp2 | Prp1List | Prp2List
  {
    predicate IsList() { this == Prp1List || this == Prp2List }
  }

  /**
   * One scatter-list entry: the pinned user page (named by its virtual page number), the
   * in-page offset and length set by sg_set_page, and the bus address and length the
   * DMA mapping gives it.
   */
  datatype SgEntry = SgEntry(page: nat, offset: nat, length: nat, dmaAddress: u64, dmaLength: nat)

  /**
   * struct nvme_prps. virPrpList holds the pool handles of the PRP-list pages in chain
   * order. virPrpListHeld records whether the kmalloc'd array behind virPrpList is
   * still owned, so that a path that drops it without kfree is visible.
   */
  datatype Prps = Prps(
    npages: nat,
    prpType: PrpType,
    virPrpList: seq<nat>,
    virPrpListHeld: bool,
    prp1: Le64,
    prp2: Le64,
    firstDma: u64,
    dataBufSize: nat,
    sg: seq<SgEntry>,
    dmaMappedPgs: nat,
    dataBufAddr: nat,
    dataDir: bool)

  /** A descriptor on the stack of submit_command: type NO_PRP, nothing else set. */
  const NoPrps: Prps := Prps(0, NoPrp, [], false, LeZero, LeZero, 0, 0, [], 0, 0, false)

  /** The buffer-mapping fields, which PRP construction never changes. */
  ghost predicate SameBuffer(p: Prps, q: Prps)
  {
    p.dataBufSize == q.dataBufSize && p.sg == q.sg && p.dmaMappedPgs == q.dmaMappedPgs &&
    p.dataBufAddr == q.dataBufAddr && p.dataDir == q.dataDir
  }

  /** Total bus length of a scatter list. */
  function SumDmaLen(sg: seq<SgEntry>): (n: nat)
  {
    if sg == [] then 0 else sg[0].dmaLength + SumDmaLen(sg[1..])
  }

  /** Total in-page length of a scatter list. */
  function SumLength(sg: seq<SgEntry>): (n: nat)
  {
    if sg == [] then 0 else sg[0].length + SumLength(sg[1..])
  }

  /** The user pages a scatter list references, entry by entry. */
  function SgPageList(sg: seq<SgEntry>): (ps: seq<nat>)
    ensures |ps| == |sg|
  {
    seq(|sg|, i requires 0 <= i < |sg| => sg[i].page)
  }

  /** The set of the first n PRP-list page handles. */
  function ListPages(vir: seq<nat>, n: nat): (s: set<nat>)
    requires n <= |vir|
    ensures forall i :: 0 <= i < n ==> vir[i] in s
  {
    set i | 0 <= i < n :: vir[i]
  }

  /** Command sets of enum nvme_cmds. */
  datatype NvmeCmds = CmdAdmin | CmdNvme | CmdAon | CmdFence

  /** struct cmd_track: one outstanding command and the descriptor of its data buffer. */
  datatype CmdTrack = CmdTrack(
    uniqueId: u16,
    persistQId: u16,
    opcode: u8,
    cmdSet: NvmeCmds,
    prpNonpersist: Prps)
}
