/**
 * The controller registers dnvme_queue.c reads and writes, at the offsets section 3.1 of
 * NVM Express 1.0 gives them, and the bit fields it packs into them. A register file is a
 * value (RegFile); the mapped register space of a controller is an object (CtrlRegs)
 * whose 32- and 64-bit stores are logged in the order they are issued.
 */
module Registers {
  import opened Base

  /** Register offsets (section 3.1 of NVM Express 1.0). */
  const CAP_REG: nat := 0x00
  const CC_REG: nat := 0x14
  const CSTS_REG: nat := 0x1C
  const AQA_REG: nat := 0x24
  const ASQ_REG: nat := 0x28
  const ACQ_REG: nat := 0x30
  /** Offset of the first doorbell, the admin SQ tail doorbell (NVME_SQ0TBDL). */
  const SQ0TBDL: nat := 0x1000

  /** Mask of CAP.TO in the low dword of CAP (NVME_TO_MASK). */
  const TO_MASK: nat := 0xFF00_0000
  /** Jiffies per 500 ms unit of CAP.TO (NVME_MSEC_2_JIFFIES, for HZ = 1000). */
  const MSEC_2_JIFFIES: nat := 500
  /** Largest admin queue, in entries (MAX_AQ_ENTRIES). */
  const MAX_AQ_ENTRIES: nat := 4096

  // ---------------------------------------------------------------------------------
  // Bit fields
  // ---------------------------------------------------------------------------------

  /** CC.EN, bit 0 of CC. */
  function CcEn(cc: u32): bool
  {
    cc % 2 == 1
  }

  /** CC | 0x1. */
  function SetEn(cc: u32): (r: u32)
    ensures CcEn(r) && r / 2 == cc / 2
  {
    cc - cc % 2 + 1
  }

  /** CC & ~0x1. */
  function ClearEn(cc: u32): (r: u32)
    ensures !CcEn(r) && r / 2 == cc / 2
  {
    cc - cc % 2
  }

  /** CC.IOSQES, bits 16 to 19 of CC: (cc >> 16) & 0xF. */
  function Iosqes(cc: u32): (r: nat)
    ensures r < 16
  {
    (cc / 0x1_0000) % 16
  }

  /** CSTS.RDY, bit 0 of CSTS (NVME_CSTS_RDY). */
  function CstsRdy(csts: u32): bool
  {
    csts % 2 == 1
  }

  /** AQA.ASQS, bits 0 to 11 (ASQS_MASK 0xFFF). */
  function Asqs(aqa: u32): nat
  {
    aqa % 0x1000
  }

  /** AQA.ACQS, bits 16 to 27 (ACQS_MASK 0x0FFF0000). */
  function Acqs(aqa: u32): nat
  {
    (aqa / 0x1_0000) % 0x1000
  }

  /**
   * (qsize & ASQS_MASK) | (aqa & ~ASQS_MASK): AQA with ASQS replaced by the low 12 bits of
   * qsize and every other bit kept.
   */
  function WithAsqs(aqa: u32, qsize: u16): (r: u32)
    ensures Asqs(r) == qsize % 0x1000
    ensures r / 0x1000 == aqa / 0x1000
  {
    aqa - aqa % 0x1000 + qsize % 0x1000
  }

  /**
   * ((qsize << 16) & ACQS_MASK) | (aqa & ~ACQS_MASK): AQA with ACQS replaced by the low 12
   * bits of qsize and every other bit kept.
   */
  function WithAcqs(aqa: u32, qsize: u16): (r: u32)
    ensures Acqs(r) == qsize % 0x1000
    ensures r % 0x1_0000 == aqa % 0x1_0000 && r / 0x1000_0000 == aqa / 0x1000_0000
  {
    aqa - Acqs(aqa) * 0x1_0000 + (qsize % 0x1000) * 0x1_0000
  }

  /** CAP.TO, bits 24 to 31 of CAP: the worst-case ready time in 500 ms units. */
  function CapTo(cap: u64): nat
  {
    (cap / 0x100_0000) % 0x100
  }

  /**
   * The timer delay of nvme_ctrlrdy_capto: ((readl(cap) & NVME_TO_MASK) >> 24) *
   * NVME_MSEC_2_JIFFIES, where readl reads the low dword of CAP.
   */
  function TimeoutBudget(cap: u64): (b: nat)
    ensures b == CapTo(cap) * MSEC_2_JIFFIES
  {
    var low := cap % 0x1_0000_0000;
    var masked := low - low % 0x100_0000;
    assert masked == (low / 0x100_0000) * 0x100_0000;
    assert (cap / 0x100_0000) % 0x100 == low / 0x100_0000;
    (masked / 0x100_0000) * 500
  }

  // ---------------------------------------------------------------------------------
  // The register file
  // ---------------------------------------------------------------------------------

  /** The registers the driver stores to. */
  datatype RegFile = RegFile(cc: u32, aqa: u32, asq: u64, acq: u64)

  /** The dword offsets the driver stores 32 bits to. */
  predicate Dword(off: nat)
  {
    off == CC_REG || off == AQA_REG || off == ASQ_REG || off == ASQ_REG + 4 || off == ACQ_REG || off == ACQ_REG + 4
  }

  function Lo32(v: u64): u32
  {
    v % 0x1_0000_0000
  }

  function Hi32(v: u64): u32
  {
    v / 0x1_0000_0000
  }

  /** A 64-bit register with its low or high dword replaced. */
  function SetLo(x: u64, v: u32): (r: u64)
    ensures Lo32(r) == v && Hi32(r) == Hi32(x)
  {
    Hi32(x) * 0x1_0000_0000 + v
  }

  function SetHi(x: u64, v: u32): (r: u64)
    ensures Lo32(r) == Lo32(x) && Hi32(r) == v
  {
    v * 0x1_0000_0000 + Lo32(x)
  }

  /** writel(v, base + off). */
  function Store32(r: RegFile, off: nat, v: u32): RegFile
    requires Dword(off)
  {
    if off == CC_REG then r.(cc := v)
    else if off == AQA_REG then r.(aqa := v)
    else if off == ASQ_REG then r.(asq := SetLo(r.asq, v))
    else if off == ASQ_REG + 4 then r.(asq := SetHi(r.asq, v))
    else if off == ACQ_REG then r.(acq := SetLo(r.acq, v))
    else r.(acq := SetHi(r.acq, v))
  }

  /** writeq(v, base + off), for the two 64-bit registers. */
  function Store64(r: RegFile, off: nat, v: u64): RegFile
    requires off == ASQ_REG || off == ACQ_REG
  {
    if off == ASQ_REG then r.(asq := v) else r.(acq := v)
  }

  function Load64(r: RegFile, off: nat): u64
    requires off == ASQ_REG || off == ACQ_REG
  {
    if off == ASQ_REG then r.asq else r.acq
  }

  /** One store to the register space, in the order issued. */
  datatype Mmio = W32(off: nat, v32: u32) | W64(off: nat, v64: u64)

  /** The mapped register space of one controller (nvme_ctrl_space). */
  class CtrlRegs {
    /** CAP, which the driver only reads. */
    const cap: u64
    var regs: RegFile
    /** The stores issued so far, oldest first. */
    var writes: seq<Mmio>
    /** Offset of the doorbells from the register base (nvme_dev->dbs), 0 until set. */
    var dbs: nat

    constructor (cap0: u64, regs0: RegFile)
      ensures cap == cap0 && regs == regs0 && writes == [] && dbs == 0
    {
      cap := cap0;
      regs := regs0;
      writes := [];
      dbs := 0;
    }

    method Writel(off: nat, v: u32)
      requires Dword(off)
      modifies this
      ensures regs == Store32(old(regs), off, v) && writes == old(writes) + [W32(off, v)]
      ensures dbs == old(dbs)
    {
      regs := Store32(regs, off, v);
      writes := writes + [W32(off, v)];
    }

    method Writeq(off: nat, v: u64)
      requires off == ASQ_REG || off == ACQ_REG
      modifies this
      ensures regs == Store64(old(regs), off, v) && writes == old(writes) + [W64(off, v)]
      ensures dbs == old(dbs)
    {
      regs := Store64(regs, off, v);
      writes := writes + [W64(off, v)];
    }
  }

  // ---------------------------------------------------------------------------------
  // Properties
  // ---------------------------------------------------------------------------------

  /**
   * Storing the low dword of v at a 64-bit register and then its high dword four bytes
   * later leaves exactly v in that register and changes no other register: the two
   * stores are one writeq.
   */
  lemma StoreHalves(r: RegFile, off: nat, v: u64)
    requires off == ASQ_REG || off == ACQ_REG
    ensures Store32(Store32(r, off, Lo32(v)), off + 4, Hi32(v)) == Store64(r, off, v)
  {
    var s := Store32(Store32(r, off, Lo32(v)), off + 4, Hi32(v));
    var x := Load64(s, off);
    assert Lo32(x) == Lo32(v) && Hi32(x) == Hi32(v);
    assert x == Hi32(x) * 0x1_0000_0000 + Lo32(x);
    assert v == Hi32(v) * 0x1_0000_0000 + Lo32(v);
  }

  /** Setting and clearing CC.EN touch only bit 0, so either undoes the other. */
  lemma EnToggle(cc: u32)
    ensures ClearEn(SetEn(cc)) == ClearEn(cc) && SetEn(ClearEn(cc)) == SetEn(cc)
    ensures CcEn(cc) ==> SetEn(cc) == cc
    ensures !CcEn(cc) ==> ClearEn(cc) == cc
  {
  }

  /** Writing ASQS and ACQS in either order gives the same AQA: the fields are disjoint. */
  lemma AqaFieldsCommute(aqa: u32, sq: u16, cq: u16)
    ensures WithAcqs(WithAsqs(aqa, sq), cq) == WithAsqs(WithAcqs(aqa, cq), sq)
    ensures Acqs(WithAsqs(aqa, sq)) == Acqs(aqa) && Asqs(WithAcqs(aqa, cq)) == Asqs(aqa)
  {
    var a := WithAsqs(aqa, sq);
    var c := WithAcqs(aqa, cq);
    var s', c' := sq % 0x1000, cq % 0x1000;
    ShiftFields(aqa, a);
    ShiftFields(aqa, c);
    assert a == aqa - aqa % 0x1000 + s';
    assert c == aqa - Acqs(aqa) * 0x1_0000 + c' * 0x1_0000;
    assert WithAcqs(a, cq) == aqa - aqa % 0x1000 + s' - Acqs(aqa) * 0x1_0000 + c' * 0x1_0000;
    assert WithAsqs(c, sq) == aqa - Acqs(aqa) * 0x1_0000 + c' * 0x1_0000 - aqa % 0x1000 + s';
  }

  /** Two values with the same bits from 12 up have the same ACQS; with the same low 16 bits, the same ASQS. */
  lemma ShiftFields(x: u32, y: u32)
    ensures x / 0x1000 == y / 0x1000 ==> Acqs(x) == Acqs(y)
    ensures x % 0x1_0000 == y % 0x1_0000 ==> Asqs(x) == Asqs(y)
  {
    assert x / 0x1_0000 == (x / 0x1000) / 16;
    assert y / 0x1_0000 == (y / 0x1000) / 16;
    assert x % 0x1000 == (x % 0x1_0000) % 0x1000;
    assert y % 0x1000 == (y % 0x1_0000) % 0x1000;
  }
}
