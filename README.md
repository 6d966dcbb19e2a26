# dnvme core, modelled in Dafny

dnvme is a Linux kernel driver for testing NVM Express controllers. User space drives it
through a character device per controller. This project models four parts of it:

- **Sending a command** (dnvme_cmds.c). The user buffer is checked, its pages are pinned, a
  scatter list is built and mapped, and the buffer is described in PRP entries. When the
  buffer reaches past its second page, those entries go into PRP-list pages taken from a DMA
  pool. The per-SQ command-tracking list and its teardown are also modelled.
- **Admin-queue and controller setup** (dnvme_queue.c). This covers setting and clearing
  CC.EN and the wait for CSTS.RDY bounded by CAP.TO. It also covers creating the admin SQ and
  CQ (depth check, ring allocation, AQA/ASQ/ACQ programming, doorbell base) and allocating
  an I/O SQ. Ids come from the driver-wide command-id counter.
- **The unit-test fixtures** (ut_reap_inq.c). These fake completions by writing phase tags
  into CQ rings 2 to 6, and fill the admin SQ and CQ rings with counting 64-bit patterns that
  wrap at the end of the ring.
- **The device-file entry points** (sysdnvme.c). This covers the device list and lookup by
  minor number, the one-opener flag of open and release, the decoding and checks of an mmap
  offset, and the argument rules of the controller-state, meta-buffer-create and unit-test
  ioctls.

The register and PRP layouts follow section 3.1 (controller registers) and section 4.3
(PRP entries and lists) of NVM Express 1.0. The phase tag is bit 0 of byte 14 of a
completion entry (section 4.6).

**What is pure and what is stateful.** Pure code is written as functions and lemmas:
register bit fields, the mmap decode and its checks, and the PRP plan. Code that changes
state is written as classes with `modifies` clauses:

- the PRP pool, the pinned-page multiset, and queue metrics nodes with byte arrays for their
  rings;
- the controller register file with a log of its stores;
- the driver's `nvme_q` and command-id counter;
- the device entries.

Each method is proved against a specification function, such as `PlanOf`, `ListWalk`,
`PhaseFill`, `PatternFill` or `MmapCheck`. The properties the source relies on are then
proved about those functions.

**Where the code is kept as written.** In each of these places the model follows the code
as written, not its comments or its evident intent:

- The meta-buffer id bound in dnvme_device_mmap is written `2^18`. In C that is
  exclusive-or, so the bound is 16 and not 262144 (`DeviceFile.META_ID_BOUND`,
  `DeviceFile.MetaMmapRule`).
- nvme_alloc_sq stores the I/O SQ's ring into `nvme_q->virt_asq_addr` and `asq_dma_addr`,
  overwriting the admin SQ's. A later nvme_ctrl_disable therefore frees the I/O ring using
  the admin depth (`QueueSetup.NvmeAllocSq`, `QueueSetup.CtrlDisable`). nvme_alloc_sq never
  sets `sq_dma_addr`.
- The unique command id is the driver-wide 64-bit counter truncated to 16 bits. Ids repeat
  every 65536 allocations (`QueueSetup.IdsDistinct`).
- AQA.ASQS and AQA.ACQS receive `qsize & 0xFFF`. The user's size is written as given, not
  converted to the 0's-based form section 3.1.8 asks for, and a size of 4096 programs 0.
- setup_prps returns without freeing the page-handle array when the first list page cannot
  be allocated. The model records this in `Prps.virPrpListHeld`.

**Where the model departs from the code.** In these four places the model does not do
what the code does:

- The short-pin test in map_user_pg_to_dma compares an `int` with a `__u32`.
  `Scatter.NegativePinPassesCheck` shows the test as written. `Scatter.MapUserPgToDma`, and
  through it `Submit.SubmitCommand`, use the corrected test. See Findings.
- setup_prps checks the descriptor pointer, not the page-handle array, after `kmalloc`.
  A failed allocation is therefore never reported. The model assumes the allocation
  succeeds (see Left out).
- unlock_device dereferences its argument without checking it. It is also called on the
  -ENODEV paths of open, release, mmap and ioctl, where the lookup returned NULL. Locking is
  not modelled, so the model simply returns -ENODEV there instead of dereferencing NULL
  (see Left out).
- nvme_ctrlrdy_capto sets the timer's `expires` to the CAP.TO budget itself
  (dnvme_queue.c:75) rather than to jiffies plus the budget, so the timer is already due
  when added. `QueueSetup.CtrlRdyCapTo` follows the intended relative budget of CAP.TO
  (see Left out).

## Model

| member | source | states |
|---|---|---|
| Endian.Le64RoundTrip | dnvme_cmds.c:447 | reading back a little-endian PRP slot gives the bus address stored in it |
| Endian.CpuToLe64 | dnvme_cmds.c:390 | byte i of a PRP entry is byte i of the bus address, least significant first |
| Endian.Le64RoundTripBytes | dnvme_cmds.c:387 | every 8-byte slot is the little-endian image of the value it decodes to |
| Endian.CpuToLe64Injective | dnvme_cmds.c:390 | different bus addresses give different little-endian PRP entries |
| PrpPool.PrpPagePool.Alloc | dnvme_cmds.c:356-360 | returns a block that was not live and makes it live; fails exactly when no block is free; block contents are untouched |
| PrpPool.PrpPagePool.Free | dnvme_cmds.c:449 | returns one live block, given with its own bus address, to the free blocks |
| PrpPool.PrpPagePool.Write | dnvme_cmds.c:390 | a store changes one slot of one live block and nothing else |
| Scatter.UserPages.Pin | dnvme_cmds.c:165 | the first `got` pages are pinned and named in the page array, the rest are NULL; a negative result pins nothing |
| Scatter.UserPages.PutAll | dnvme_cmds.c:209-211 | drops exactly one reference for each page of the list |
| Scatter.PagesToSg | dnvme_cmds.c:221-249 | -ENOMEM exactly when the list allocation fails, -EFAULT exactly when a page pointer is NULL, and otherwise the list is SgTable of the pages |
| Scatter.SgTableCovers | dnvme_cmds.c:237-246 | with as many pages as the buffer spans, the entry lengths add up to the buffer length; the first entry starts at the buffer offset and later ones at 0; every entry except the last fills its page |
| Scatter.MapUserPgToDma | dnvme_cmds.c:141-215 | on success returns the page count, pins exactly the spanned pages and fills the buffer fields; on any failure returns -ENOMEM or -EFAULT, leaves nothing pinned and leaves the descriptor untouched; -EFAULT exactly when pinning falls short |
| Scatter.NegativePinPassesCheck | dnvme_cmds.c:165-172 | as written, an outright pin failure (-EFAULT) passes the short-pin test while NULL page pointers remain |
| Scatter.PinShortAgrees | dnvme_cmds.c:166 | for results that are page counts, the test as written and the corrected test agree |
| Scatter.UnmapUserPgToDma | dnvme_cmds.c:255-273 | releases exactly the pages of the first dma_mapped_pgs entries, and nothing for a NO_PRP descriptor |
| Scatter.MappedPagesArePinned | dnvme_cmds.c:242-243 | the pages the mapped list records are the pinned pages, in order |
| Scatter.MappedSgShape | dnvme_cmds.c:237-246 | in the mapped list, bus lengths equal lengths and add up to the buffer length; each bus address is its page's bus address plus its in-page offset |
| PrpBuilder.ListWalk | dnvme_cmds.c:377-416 | the list loop emits one address per page of the remaining length, or stops early (-EFAULT) on a segment that does not end on a page boundary |
| PrpBuilder.PlanOf | dnvme_cmds.c:292-337 | PRP1 alone exactly when the buffer fits the first page; PRP1+PRP2 exactly when it fits two; otherwise a list named by PRP2; always a list named by PRP1 for a discontiguous I/O queue; the second address follows the segment or the next one |
| PrpBuilder.PagesForExact | dnvme_cmds.c:378-389 | the number of list pages is fixed by its bounds: 511 entries and a chain pointer on every page but the last, which holds up to 512 |
| PrpBuilder.PagesForFitsNumPg | dnvme_cmds.c:341-345 | the page-handle array sized by DIV_ROUND_UP(8 * entries, 4088) always has room for every list page the loop takes |
| PrpBuilder.SetupPrps | dnvme_cmds.c:281-423 | the PRP fields and type are those of PlanOf. For a list: on success the chain is laid out in fresh pool pages that free_prp_pool can walk. The error depends only on the walk and the pool: -ENOMEM exactly when the pool holds fewer pages than the loop takes before it stops (`PagesTaken`: 1 + (e - 1) / 511 for a walk that faults after e entries); otherwise -EFAULT exactly when the walk faults, and success when it does not. Every failure returns all pages taken |
| PrpBuilder.SetupDataPrps | dnvme_cmds.c:307-337 | the non-queue half of setup_prps produces the outcome PlanOf prescribes |
| PrpBuilder.BuildPrpList | dnvme_cmds.c:339-423 | the list half of setup_prps produces ListOutcome (layout, chain, ownership, and the error as a function of the walk and the pool size) for the walk it follows, and leaves blocks that were live before untouched |
| PrpBuilder.FreePrpPool | dnvme_cmds.c:429-454 | following a valid chain, returns exactly its npages blocks to the pool; descriptors that are not list types are left alone |
| CmdLedger.AddCmdTrackNode | dnvme_cmds.c:461-489 | appends a node holding a copy of the descriptor at the tail; on allocation failure returns -ENOMEM and leaves the list unchanged |
| CmdLedger.ReleaseCommand | dnvme_cmds.c:513-517 | one command's user pages are released and its list pages returned |
| CmdLedger.EmptyCmdTrackList | dnvme_cmds.c:499-522 | the list ends empty; the pool gets back exactly the list pages of all commands and the pinned pages drop by exactly the pages they mapped |
| CmdLedger.LedgerPush | dnvme_cmds.c:484-486 | appending a command that owns its resources keeps the ledger owning all of them, so emptying releases it too |
| Submit.SubmitCommand | dnvme_cmds.c:29-123 | bad arguments give -EINVAL and change nothing; a mapping failure gives its error and changes nothing; otherwise the PRPs are setup_prps's for the mapped list, and success keeps the pages pinned while failure unpins them |
| Submit.SubmitListEntries | dnvme_cmds.c:58-65 | for a buffer past its second page with page-aligned bus pages, PRP1 is the buffer's bus address and the list holds the bus address of every later page in order |
| Submit.SubmitQueueList | dnvme_cmds.c:297-300 | for a discontiguous queue the list names every page of a page-aligned buffer; an unaligned buffer longer than a page makes the walk fault |
| Submit.ListOfWholePages | dnvme_cmds.c:377-416 | when every page after the first is whole, the list walk names the bus page of each entry after the first, in order, without a fault |
| Submit.PlanOfWholePages | dnvme_cmds.c:322-337 | a mapped buffer reaching past its second page gets a list named by PRP2, with PRP1 the first bus address |
| Registers.SetEn | dnvme_queue.c:146-152 | CC \| 1 sets EN and keeps every other bit |
| Registers.ClearEn | dnvme_queue.c:173-179 | CC & ~1 clears EN and keeps every other bit |
| Registers.EnToggle | dnvme_queue.c:146-183 | setting and clearing EN undo each other and touch only bit 0 |
| Registers.WithAsqs | dnvme_queue.c:261-271 | ASQS becomes qsize & 0xFFF and the bits above it are kept |
| Registers.WithAcqs | dnvme_queue.c:359-371 | ACQS becomes qsize & 0xFFF and the bits outside it are kept |
| Registers.AqaFieldsCommute | dnvme_queue.c:262-365 | programming ASQS and ACQS in either order gives the same AQA, and neither field disturbs the other |
| Registers.TimeoutBudget | dnvme_queue.c:64-68 | the timer delay is CAP.TO times 500 jiffies |
| Registers.StoreHalves | dnvme_queue.c:28-32 | two 32-bit stores (low dword, then high dword) leave the same registers as one 64-bit store |
| QueueSetup.WriteQ | dnvme_queue.c:28-37 | leaves v in the 64-bit register; logs two dword stores, low first, under QEMU and one 64-bit store otherwise |
| QueueSetup.CtrlRdyCapTo | dnvme_queue.c:56-106 | SUCCESS exactly when CSTS.RDY is seen before the CAP.TO budget runs out, at the first ready read; otherwise -EINVAL after budget/100 unready polls |
| QueueSetup.QueueInit | dnvme_queue.c:112-134 | allocates nvme_q only when absent (-ENOMEM if it fails), keeps an existing one, and marks it initialised |
| QueueSetup.CtrlEnable | dnvme_queue.c:141-161 | stores CC with EN set, then succeeds exactly when the controller becomes ready in time |
| QueueSetup.CtrlDisable | dnvme_queue.c:168-196 | stores CC with EN cleared and then 0; -EINVAL without nvme_q, otherwise both admin rings are freed with their recorded depths |
| QueueSetup.CreateAdmnSq | dnvme_queue.c:205-296 | -ENOMEM, -EINVAL (size 0 or above 4096), or -ENOMEM on ring allocation. On success: a ring of 64 bytes per entry, doorbells at 0x1000, ASQS replaced, ASQ holding the ring address, the exact store sequence, and the queue taking the next command id |
| QueueSetup.CreateAdmnCq | dnvme_queue.c:306-389 | the same for the admin CQ, with 16-byte entries, ACQS and ACQ |
| QueueSetup.IoSqSize | dnvme_queue.c:407-412 | the I/O SQ size is elements times 2^CC.IOSQES, stated with `Pow2` rather than the shift table, and never exceeds 0xFFFF * 0x8000, so the `u32` size does not overflow |
| QueueSetup.Shl1Pow2 | dnvme_queue.c:409 | the shift `1 << n` for every n CC.IOSQES can hold equals 2^n |
| QueueSetup.Shl1Doubles | dnvme_queue.c:409 | the table behind 1 << IOSQES doubles at every step, so it is the power of two |
| QueueSetup.NvmeAllocSq | dnvme_queue.c:391-429 | allocates the ring of IoSqSize bytes into the admin SQ fields of nvme_q and gives the queue the next command id |
| QueueSetup.BumpNIsAdd | dnvme_queue.c:293 | n increments of the 64-bit counter add n modulo 2^64 |
| QueueSetup.IdsDistinct | dnvme_queue.c:426 | ids of queues allocated fewer than 65536 apart differ; 65536 apart they coincide |
| QueueSetup.AdminLifecycle | dnvme_queue.c:168-389 | creating the admin CQ, then the admin SQ, then disabling frees both rings with the depths they were created with; AQA ends with both sizes |
| ReapFixtures.LastVisitMeaning | ut_reap_inq.c:81-98 | LastVisit names the last write that reached a slot, or -1 when none did |
| ReapFixtures.BeforeWrap | ut_reap_inq.c:86-92 | the last visit to entry w came before the wrap exactly when head <= w and the writes did not lap back to it |
| ReapFixtures.PhaseByte | ut_reap_inq.c:83 | writing the phase bit sets bit 0 and keeps the other seven bits of the byte |
| ReapFixtures.PhaseFillEntry | ut_reap_inq.c:81-98 | each entry's tag is that of the last write reaching it (1 before the wrap, 0 after) or its old tag; no other bit changes |
| ReapFixtures.PhaseFillOther | ut_reap_inq.c:83 | bytes other than the phase byte are unchanged |
| ReapFixtures.NoWrapPhases | ut_reap_inq.c:39-48 | without a wrap, the entries from head get tag 1 and all others keep theirs |
| ReapFixtures.WrapPhases | ut_reap_inq.c:81-98 | after a wrap, a visited entry has tag 1 exactly when its last visit came before the wrap |
| ReapFixtures.FillToEnd | ut_reap_inq.c:32-48 | CQ 2: writes tag 1 from head to the end of the ring |
| ReapFixtures.FillTen | ut_reap_inq.c:50-68 | CQ 3: writes tag 1 to ten entries from head, or up to the end of the ring if sooner |
| ReapFixtures.FillWrapping | ut_reap_inq.c:71-100 | CQ 4/5/6: writes count tags from head, 1 until the wrap and 0 after |
| ReapFixtures.ReapInqNode | ut_reap_inq.c:32-161 | each CQ id gets its fill (2 to end, 3 ten, 4 and 5 101 wrapping, 6 one) and ids 4 and 5 their new head (99, 98); other ids are unchanged |
| ReapFixtures.UnitTestReapInq | ut_reap_inq.c:16-163 | every CQ of the list ends as ReapInqNode leaves it |
| ReapFixtures.StoreWord | ut_reap_inq.c:184 | a 64-bit store reads back as stored and leaves the other words alone |
| ReapFixtures.PatternFillWord | ut_reap_inq.c:183-198 | each word holds base plus the number of the last store reaching it, or its old value |
| ReapFixtures.PatternNoWrap | ut_reap_inq.c:183-198 | without a wrap, the n words from start hold base, base+1, ... and the others are unchanged |
| ReapFixtures.PatternWrap | ut_reap_inq.c:189-193 | after a wrap, every word holds a value from the last lap |
| ReapFixtures.PatternLoop | ut_reap_inq.c:183-198 | count stores of base+k from start, wrapping at the ring's end, leave exactly PatternFill |
| ReapFixtures.MmapSqNode | ut_reap_inq.c:179-199 | the admin SQ gets 15 stores of 0xaa55+k from byte 64*head; other SQs are unchanged |
| ReapFixtures.MmapCqNode | ut_reap_inq.c:234-255 | the admin CQ gets 25 stores of 0x3344+k from byte 16*head; other CQs are unchanged |
| ReapFixtures.MmapSqWalk | ut_reap_inq.c:176-227 | every SQ of the list ends as MmapSqNode leaves it |
| ReapFixtures.MmapCqWalk | ut_reap_inq.c:229-256 | every CQ of the list ends as MmapCqNode leaves it |
| ReapFixtures.UnitTestMmap | ut_reap_inq.c:168-257 | the SQ walk and then the CQ walk, over rings that do not overlap |
| DeviceFile.DecodeEncode | sysdnvme.c:411-412 | decoding the offset for (type, id) gives back type and id |
| DeviceFile.EncodeDecode | sysdnvme.c:411-412 | re-encoding a decoded offset gives its low 20 bits; the rest is ignored |
| DeviceFile.DecodeLowBits | sysdnvme.c:411-412 | offsets that agree in their low 20 bits decode alike |
| DeviceFile.QueueMmapRule | sysdnvme.c:418-465 | an SQ/CQ region is remapped exactly when the id fits 16 bits, the queue exists, is contiguous, the length fits its pages and its frame is not 0; the frame is the ring's |
| DeviceFile.QueueMmapErrors | sysdnvme.c:418-465 | id above 0xFFFF gives -EINVAL, a missing queue -EBADSLT, a discontiguous one -EOPNOTSUPP |
| DeviceFile.MetaMmapRule | sysdnvme.c:466-480 | meta ids above 16 give -EINVAL, a missing one -EBADSLT; remapped exactly when the length fits the pool buffer's pages and the frame is not 0 |
| DeviceFile.UnknownTypeRefused | sysdnvme.c:481-484 | type 3 gives -EINVAL |
| DeviceFile.WindowBound | sysdnvme.c:486-491 | a granted length is at most the region size plus one page; the window always reaches past the region |
| DeviceFile.MmapOutcomes | sysdnvme.c:418-503 | refusals are -EINVAL, -EBADSLT or -EOPNOTSUPP; a remap has a nonzero frame and the requested length |
| DeviceFile.MinorIndexFirst | sysdnvme.c:255-278 | the index found is the first device with that minor; -1 exactly when none has it |
| DeviceFile.FindDevice | sysdnvme.c:255-278 | returns the first device with the minor number, or null when there is none |
| DeviceFile.DeviceList.Probe | sysdnvme.c:222-241 | -ENOMEM when the entry allocation fails and -EINVAL when the ioctl initialisation fails, both leaving the list unchanged; on success appends a closed device with the next minor and advances the counter; keeps minors equal to list positions |
| DeviceFile.ConsecutiveLookup | sysdnvme.c:236-238 | in a probed list, minor m is found at position m, and only minors below the list length are found |
| DeviceFile.Open | sysdnvme.c:314-339 | -ENODEV for an unknown minor; a closed device is marked open and the freeing of its queues and meta buffers is logged; an open one gives -EPERM with the device unchanged; other devices untouched |
| DeviceFile.Release | sysdnvme.c:347-375 | -ENODEV for an unknown minor; otherwise marks closed, logs the freeing of queues and meta buffers and the IRQ reset, and returns the reset's result |
| DeviceFile.Mmap | sysdnvme.c:381-505 | -ENODEV for an unknown minor; otherwise the error of the checks, or the remap result |
| DeviceFile.SetDeviceState | sysdnvme.c:592-617 | enable: CC.EN set, success exactly when ready in time; disable (either kind): CC cleared, cleanup and the IRQ reset's result only when the disable succeeded; other states -EINVAL, nothing touched; the queue and meta-buffer views mmap reads are kept on every path except a successful disable |
| DeviceFile.DeviceIoctl | sysdnvme.c:519-767 | -ENODEV for an unknown minor; METABUF_CREATE above 0x4000 gives -EINVAL before anything is created; unit tests 0 to 2 run and give SUCCESS, others -EINVAL; the state rules as above; registers and driver globals are kept outside DEVICE_STATE, and the queue and meta-buffer views are kept except when a meta pool is created |
| DeviceFile.OpenTwice | sysdnvme.c:314-375 | open, open, release, open gives SUCCESS, -EPERM, then SUCCESS |

## Left out

- Locking (`mutex_lock` in lock_device, the queue spin lock) and concurrency in general: each entry point is modelled as running alone.
- The NULL dereference of unlock_device on the -ENODEV paths of open, release, mmap and ioctl: locking is not modelled, so those paths end with -ENODEV.
- PrpBuilder.SetupPrps: the `kmalloc` of the page-handle array is taken to succeed. The source tests the descriptor pointer instead (dnvme_cmds.c:346), so a failed allocation would go on to store through NULL, and that is not modelled.
- Probe and module plumbing: character-device registration, PCI setup, BAR mapping and the DMA pool's creation. The model keeps only the entry allocation, the ioctl initialisation and the minor-number bookkeeping of dnvme_pci_probe. The earlier failures (device_create, region request, ioremap) return before any of these.
- dnvme_ioctls.c (the handlers behind the other ioctls: queue creation from user arguments, doorbells, reaping, metrics, IRQs). It is not part of this model. Only DEVICE_STATE, METABUF_CREATE and UNIT_TESTS are dispatched.
- The bodies of code that is called but not shown: deallocate_all_queues, deallocate_mb, init_irq_track, metabuff_create, unit_test_reap, and the lookups find_sq, find_cq and find_meta_node. Calls to them are recorded as `DeviceFile.Cleanup` events or passed in as results. The lookups are modelled as "first node with the id".
- Time: jiffies, the kernel timer and msleep(100) become a poll count, with one poll per 100 jiffies of the CAP.TO budget. The timer's `expires` is set to the budget itself rather than to jiffies plus the budget, so it fires as soon as it is added. The model follows the intent (a budget of CAP.TO), not that absolute-time slip.
- CSTS is given as the sequence of values successive reads return, because the controller sets it.
- dma_map_sg is modelled one segment per entry, without merging, and with bus addresses given per user page. physical addresses of rings (virt_to_phys) are given as inputs in `DeviceFile.QueueView` and `DeviceFile.MetaView`.
- The contents of DMA memory the driver allocates but does not write (dma_alloc_coherent rings, pool blocks) are not modelled. A ring is a fresh zeroed array.
- Logging, the TEST_PRP_DEBUG, TEST_IO_SQ and QEMU debug paths (QEMU is a parameter of WriteQ), and the NULL-descriptor early returns of unmap_user_pg_to_dma and free_prp_pool, which no modelled caller reaches.
- The constants and structures defined in headers that are not shown: PAGE_SIZE is 4096, MAX_AQ_ENTRIES 4096, ASQS_MASK 0xFFF, ACQS_MASK 0x0FFF0000, NVME_TO_MASK 0xFF000000, NVME_MSEC_2_JIFFIES 500, and DISCONTG_IO_Q is a parameter (`crIoQ`). struct nvme_queue is modelled by the fields the code uses.
- Submit.SubmitCommand: requires buf_len <= S32_MAX, because setup_prps takes the length as `__s32` and a longer buffer would arrive negative.
- Submit.SubmitCommand: the PRP descriptor is a local of submit_command; it is returned, because the commented-out release after it leaves nothing to observe.
- ReapFixtures.ReapInqNode: `comp_entry_size` is a `u16` in the source, and the model does not truncate it. An entry size of 65536 bytes or more would make the CQ-full loop step past the end of the ring. That case is not modelled.
- ReapFixtures.ReapInqNode: the phase tag at byte 14 of an entry follows the completion-entry layout of section 4.6 of NVM Express 1.0. struct cq_completion comes from a header that is not part of this model.
- ReapFixtures.ReapInqNode: the ring head pointer is modelled as an entry index, and the ring must hold whole entries of more than 14 bytes so that the phase byte lies inside each entry.
- ReapFixtures.UnitTestReapInq: the CQ list nodes must be distinct and must not share rings.
- ReapFixtures.UnitTestMmap: at most one id-0 node per list, and distinct rings, are required. The store counter is not reset between nodes, so a second id-0 node would continue the count; that case is not modelled.
- DeviceFile.Open: after a successful open the queue and meta-buffer views (`sqs`, `cqs`, `metas`, `metaBufSize`) are not constrained. The open logs deallocate_all_queues and deallocate_mb, whose bodies are not part of this model.
- DeviceFile.Release: the views are not constrained after a release, for the same reason.
- DeviceFile.SetDeviceState: the views are not constrained after a successful disable, which logs the same two cleanups.
- DeviceFile.DeviceIoctl: the views are not constrained after a successful disable or after METABUF_CREATE logs metabuff_create, which sets the `meta_buf_size` the meta mmap reads (sysdnvme.c:480).
- Scatter.MapUserPgToDma: the scatter list is a value, not an allocation. When dma_map_sg fails (dnvme_cmds.c:193-196) the error path (207-214) never frees the list pages_to_sg allocated, and submit_command (58-61) returns without freeing it either. The model does not show that leak.
- DeviceFile.DeviceIoctl: the unit-test bodies are ReapFixtures.UnitTestReapInq and ReapFixtures.UnitTestMmap over the device's queues; the dispatch records the test as an event rather than calling them on the device's lists.

## Findings

| source | as written | input that shows it | evidently intended | confidence | as-written member | corrected member |
|---|---|---|---|---|---|---|
| dnvme_cmds.c:166 | `if (err < count)` compares an `int` with a `__u32`, so a negative errno is converted to a number near 2^32 and passes | get_user_pages_fast returns -EFAULT for a one-page buffer: the test passes, pages_to_sg meets a NULL page and returns -EFAULT, and the error path calls put_page for that NULL page | a negative result or fewer pages than asked is a failure (-EFAULT), and only pinned pages are released | medium, not executed | Scatter.NegativePinPassesCheck | Scatter.MapUserPgToDma |
