/**
 * Queue metrics of dnvme_interface.h and dnvme_ds.h. A queue node has a public half (the
 * identifiers and ring pointers user space sees) and a private half (the kernel memory
 * behind the ring, its size and, for a submission queue, its command-tracking ledger).
 * The kernel virtual address of the ring is modelled as a reference to its bytes.
 */
module Metrics {
  import opened Base
  import opened Descriptors

  /** struct nvme_gen_sq. */
  datatype GenSq = GenSq(sqId: u16, cqId: u16, tailPtr: u16, tailPtrVirt: u16, headPtr: u16, elements: u16)

  /** struct nvme_gen_cq. */
  datatype GenCq = GenCq(qId: u16, tailPtr: u16, headPtr: u16, elements: u16, pbitNewEntry: u8)

  /** struct metrics_sq: public_sq and private_sq (struct nvme_trk_sq). */
  class MetricsSq {
    var publicSq: GenSq
    /** The ring memory (vir_kern_addr), null until one is allocated. */
    var virKernAddr: array?<u8>
    var sqDmaAddr: u64
    /** Length of the ring in bytes. */
    var size: u32
    var contig: u8
    /** The id given to this queue from the driver-wide counter. */
    var uniqueCmdId: u16
    /** The outstanding commands, oldest first (cmd_track_list). */
    var cmdTrack: seq<CmdTrack>

    constructor (q: GenSq)
      ensures publicSq == q && virKernAddr == null && size == 0 && cmdTrack == []
    {
      publicSq := q;
      virKernAddr := null;
      sqDmaAddr := 0;
      size := 0;
      contig := 0;
      uniqueCmdId := 0;
      cmdTrack := [];
    }
  }

  /** struct metrics_cq: public_cq and private_cq (struct nvme_trk_cq). */
  class MetricsCq {
    var publicCq: GenCq
    /** The ring memory (vir_kern_addr), null until one is allocated. */
    var virKernAddr: array?<u8>
    var cqDmaAddr: u64
    /** Length of the ring in bytes. */
    var size: u32
    var contig: u8

    constructor (q: GenCq)
      ensures publicCq == q && virKernAddr == null && size == 0
    {
      publicCq := q;
      virKernAddr := null;
      cqDmaAddr := 0;
      size := 0;
      contig := 0;
    }
  }
}
