/**
 * The unit-test fixtures of ut_reap_inq.c, which fill ring memory as if the controller had
 * written it: phase tags in completion entries (unit_test_reap_inq) and 64-bit patterns in
 * the admin rings (unit_test_mmap). The ring pointer q_head_ptr is modelled as the index
 * of the slot it points at (its byte offset is the index times the slot size), and a ring
 * of W slots is visited from a start slot, wrapping to slot 0 at the end.
 */
module ReapFixtures {
  import opened Base
  import opened Endian
  import opened Metrics

  // ---------------------------------------------------------------------------------
  // Visiting a ring
  // ---------------------------------------------------------------------------------

  /** The slot the k-th write (from 0) lands in, starting at slot start of a ring of W slots. */
  function Slot(start: nat, k: nat, W: nat): (s: nat)
    requires W > 0
    ensures s < W
  {
    (start + k) % W
  }

  /** The last of the first n writes to land in slot w, or -1 if none did. */
  function LastVisit(start: nat, n: nat, W: nat, w: nat): int
    requires W > 0
  {
    if n == 0 then -1
    else if Slot(start, n - 1, W) == w then n - 1
    else LastVisit(start, n - 1, W, w)
  }

  /**
   * What LastVisit means: -1 when no write of the first n lands in w; otherwise a write
   * that lands in w after which none of the first n does.
   */
  lemma {:induction false} LastVisitMeaning(start: nat, n: nat, W: nat, w: nat)
    requires W > 0
    ensures LastVisit(start, n, W, w) < n
    ensures LastVisit(start, n, W, w) < 0 ==> forall k :: 0 <= k < n ==> Slot(start, k, W) != w
    ensures LastVisit(start, n, W, w) >= 0 ==>
      Slot(start, LastVisit(start, n, W, w), W) == w &&
      forall k :: LastVisit(start, n, W, w) < k < n ==> Slot(start, k, W) != w
  {
    if n > 0 {
      LastVisitMeaning(start, n - 1, W, w);
    }
  }

  /** Numbers less than W apart, and not equal, differ modulo W. */
  lemma ModApart(x: nat, d: nat, W: nat)
    requires 0 < d < W
    ensures x % W != (x + d) % W
  {
    var q, r := x / W, x % W;
    assert x == q * W + r;
    if r + d < W {
      DivMod(x + d, W, q, r + d);
    } else {
      assert x + d == (q + 1) * W + (r + d - W);
      DivMod(x + d, W, q + 1, r + d - W);
    }
  }

  /** Writes W apart land in the same slot. */
  lemma SlotPeriodic(start: nat, k: nat, W: nat)
    requires W > 0
    ensures Slot(start, k + W, W) == Slot(start, k, W)
  {
    var x := start + k;
    var q, r := x / W, x % W;
    assert x == q * W + r;
    assert x + W == (q + 1) * W + r;
    DivMod(x + W, W, q + 1, r);
  }

  /**
   * When the first write is at slot start < W, the last write to land in slot w came
   * before the ring wrapped exactly when w is at or after start and the n writes do not
   * come round to w a second time.
   */
  lemma BeforeWrap(start: nat, n: nat, W: nat, w: nat)
    requires start < W && w < W
    requires LastVisit(start, n, W, w) >= 0
    ensures start + LastVisit(start, n, W, w) < W <==> start <= w && n <= w - start + W
  {
    var v := LastVisit(start, n, W, w);
    LastVisitMeaning(start, n, W, w);
    if start + v < W {
      DivMod(start + v, W, 0, start + v);
      if n > v + W {
        SlotPeriodic(start, v, W);
      }
    }
    if start <= w && n <= w - start + W && start + v >= W {
      var k0 := w - start;
      DivMod(start + k0, W, 0, w);
      assert k0 < v < k0 + W;
      ModApart(start + k0, v - k0, W);
    }
  }

  /** From slot start, the k-th write of a run that does not reach the end lands in slot start + k. */
  lemma NoWrapVisit(start: nat, n: nat, W: nat, w: nat)
    requires start + n <= W && w < W
    ensures start <= w < start + n ==> LastVisit(start, n, W, w) == w - start
    ensures !(start <= w < start + n) ==> LastVisit(start, n, W, w) < 0
  {
    LastVisitMeaning(start, n, W, w);
    var v := LastVisit(start, n, W, w);
    if v >= 0 {
      DivMod(start + v, W, 0, start + v);
    }
    if start <= w < start + n {
      DivMod(w, W, 0, w);
    }
  }

  /** The pointer step of the fill loops: one slot on, back to 0 at the end of the ring. */
  lemma SlotStep(start: nat, k: nat, W: nat)
    requires W > 0
    ensures Slot(start, k + 1, W) == if Slot(start, k, W) + 1 == W then 0 else Slot(start, k, W) + 1
  {
    var x := start + k;
    var q, r := x / W, x % W;
    assert x == q * W + r;
    if r + 1 == W {
      assert x + 1 == (q + 1) * W + 0;
      DivMod(x + 1, W, q + 1, 0);
    } else {
      DivMod(x + 1, W, q, r + 1);
    }
  }

  // ---------------------------------------------------------------------------------
  // Phase tags in completion entries
  // ---------------------------------------------------------------------------------

  /**
   * The byte of a completion entry holding the phase tag: bit 16 of dword 3 (section 4.6
   * of NVM Express 1.0), bit 0 of byte 14.
   */
  const PHASE_BYTE: nat := 14

  /** A byte with bit 0 replaced by p. */
  function PhaseByte(b: u8, p: nat): (r: u8)
    requires p < 2
    ensures r % 2 == p && r / 2 == b / 2
  {
    b - b % 2 + p
  }

  /** The phase tag of entry e in ring memory m of entries es bytes long. */
  function Phase(m: seq<u8>, es: nat, e: nat): nat
    requires e * es + PHASE_BYTE < |m|
  {
    m[e * es + PHASE_BYTE] % 2
  }

  /**
   * The completion rings the fixture can fill: E entries of es bytes filling the ring
   * exactly, each long enough to hold the phase byte, and a head inside the ring.
   */
  predicate Ring(m: seq<u8>, es: nat, E: nat, head: nat)
  {
    es > PHASE_BYTE && |m| == es * E && head < E
  }

  lemma EntryFits(e: nat, es: nat, E: nat)
    requires e < E
    ensures e * es + es <= es * E
    ensures es > PHASE_BYTE ==> e * es + PHASE_BYTE < es * E
  {
    MulSign(E - e, es);
    assert es * E == e * es + (E - e) * es;
  }

  /** The tag written by the k-th write from entry head (tmpbit): 1 until the ring wraps, then 0. */
  function TmpBit(head: nat, k: nat, E: nat): nat
  {
    if head + k < E then 1 else 0
  }

  /** Ring memory after n phase writes from entry head, each setting the entry's tag to TmpBit. */
  function PhaseFill(m: seq<u8>, es: nat, E: nat, head: nat, n: nat): (r: seq<u8>)
    requires Ring(m, es, E, head)
    ensures |r| == |m|
  {
    if n == 0 then m
    else
      var prev := PhaseFill(m, es, E, head, n - 1);
      var e := Slot(head, n - 1, E);
      EntryFits(e, es, E);
      prev[e * es + PHASE_BYTE := PhaseByte(prev[e * es + PHASE_BYTE], TmpBit(head, n - 1, E))]
  }

  /** The byte offset of an entry's phase byte is 14 past a multiple of the entry size. */
  lemma PhaseOffset(e: nat, es: nat)
    requires es > PHASE_BYTE
    ensures (e * es + PHASE_BYTE) % es == PHASE_BYTE && (e * es + PHASE_BYTE) / es == e
  {
    DivMod(e * es + 14, es, e, 14);
  }

  /**
   * After a phase fill, entry e carries the tag of the last write that reached it, or its
   * old tag if none did; the other bits of its phase byte are kept.
   */
  lemma {:induction false} PhaseFillEntry(m: seq<u8>, es: nat, E: nat, head: nat, n: nat, e: nat)
    requires Ring(m, es, E, head) && e < E
    ensures e * es + PHASE_BYTE < |m|
    ensures Phase(PhaseFill(m, es, E, head, n), es, e) ==
      if LastVisit(head, n, E, e) < 0 then Phase(m, es, e) else TmpBit(head, LastVisit(head, n, E, e), E)
    ensures PhaseFill(m, es, E, head, n)[e * es + PHASE_BYTE] / 2 == m[e * es + PHASE_BYTE] / 2
  {
    EntryFits(e, es, E);
    if n > 0 {
      PhaseFillEntry(m, es, E, head, n - 1, e);
      var e' := Slot(head, n - 1, E);
      EntryFits(e', es, E);
      if e' != e {
        PhaseOffset(e, es);
        PhaseOffset(e', es);
      }
    }
  }

  /** A phase fill changes no byte but the phase bytes of entries. */
  lemma {:induction false} PhaseFillOther(m: seq<u8>, es: nat, E: nat, head: nat, n: nat, b: nat)
    requires Ring(m, es, E, head) && b < |m| && b % es != PHASE_BYTE
    ensures PhaseFill(m, es, E, head, n)[b] == m[b]
  {
    if n > 0 {
      PhaseFillOther(m, es, E, head, n - 1, b);
      PhaseOffset(Slot(head, n - 1, E), es);
    }
  }

  /**
   * A fill that stops before the end of the ring (CQ ids 2, 3 and 6, and 4 and 5 when 101
   * entries fit after the head) sets the tag of exactly the n entries from the head to 1.
   */
  lemma NoWrapPhases(m: seq<u8>, es: nat, E: nat, head: nat, n: nat, e: nat)
    requires Ring(m, es, E, head) && head + n <= E && e < E
    ensures e * es + PHASE_BYTE < |m|
    ensures head <= e < head + n ==> Phase(PhaseFill(m, es, E, head, n), es, e) == 1
    ensures !(head <= e < head + n) ==> Phase(PhaseFill(m, es, E, head, n), es, e) == Phase(m, es, e)
  {
    PhaseFillEntry(m, es, E, head, n, e);
    NoWrapVisit(head, n, E, e);
  }

  /**
   * A wrapping fill (CQ ids 4 and 5): an entry it reaches ends with tag 1 exactly when it
   * lies at or after the head and the fill does not come round to it again after the wrap.
   */
  lemma WrapPhases(m: seq<u8>, es: nat, E: nat, head: nat, n: nat, e: nat)
    requires Ring(m, es, E, head) && e < E && LastVisit(head, n, E, e) >= 0
    ensures e * es + PHASE_BYTE < |m|
    ensures Phase(PhaseFill(m, es, E, head, n), es, e) == 1 <==> head <= e && n <= e - head + E
  {
    PhaseFillEntry(m, es, E, head, n, e);
    BeforeWrap(head, n, E, e);
  }

  /**
   * The k-th write of a phase fill: set the tag of entry Slot(head, k, E) to tmpbit,
   * leaving the other bits of its byte alone (the phase_bit bit-field store).
   */
  method WritePhase(mem: array<u8>, ghost m0: seq<u8>, es: nat, E: nat, head: nat, k: nat, e: nat, bit: nat)
    requires Ring(m0, es, E, head) && mem[..] == PhaseFill(m0, es, E, head, k)
    requires e == Slot(head, k, E) && bit == TmpBit(head, k, E)
    modifies mem
    ensures mem[..] == PhaseFill(m0, es, E, head, k + 1)
  {
    var b := e * es + PHASE_BYTE;
    PhaseAt(m0, es, E, head, k, e);
    var v := PhaseByte(mem[b], bit);
    mem[b] := v;
  }

  /** Where the k-th write of a phase fill lands, and what the fill is after it. */
  lemma PhaseAt(m0: seq<u8>, es: nat, E: nat, head: nat, k: nat, e: nat)
    requires Ring(m0, es, E, head) && e == Slot(head, k, E)
    ensures e * es + PHASE_BYTE < |m0|
    ensures var prev, b := PhaseFill(m0, es, E, head, k), e * es + PHASE_BYTE;
      PhaseFill(m0, es, E, head, k + 1) == prev[b := PhaseByte(prev[b], TmpBit(head, k, E))]
  {
    EntryFits(e, es, E);
  }

  /** CQ id 2: tag 1 from the head to the end of the ring (a full queue). */
  method FillToEnd(mem: array<u8>, es: nat, E: nat, head: nat)
    requires Ring(mem[..], es, E, head)
    modifies mem
    ensures mem[..] == PhaseFill(old(mem[..]), es, E, head, E - head)
  {
    ghost var m0 := mem[..];
    var i := head;
    while true
      invariant head <= i < E
      invariant mem[..] == PhaseFill(m0, es, E, head, i - head)
      decreases E - i
    {
      DivMod(i, E, 0, i);
      WritePhase(mem, m0, es, E, head, i - head, i, 1);
      i := i + 1;
      if i == E {
        break;
      }
    }
  }

  /** CQ id 3: tag 1 on ten entries from the head, or up to the end of the ring if sooner. */
  method FillTen(mem: array<u8>, es: nat, E: nat, head: nat)
    requires Ring(mem[..], es, E, head)
    modifies mem
    ensures mem[..] == PhaseFill(old(mem[..]), es, E, head, Min(10, E - head))
  {
    ghost var m0 := mem[..];
    var i := head;
    var num: u16 := 0;
    while true
      invariant i == head + num < E && num < 10
      invariant mem[..] == PhaseFill(m0, es, E, head, num)
      decreases E - i
    {
      DivMod(i, E, 0, i);
      WritePhase(mem, m0, es, E, head, num, i, 1);
      i := i + 1;
      num := num + 1;
      if i == E || num == 10 {
        break;
      }
    }
  }

  /**
   * CQ ids 4, 5 and 6: count writes from the head, wrapping to entry 0 at the end of the
   * ring; the tag written is 1 until the first wrap and 0 after it.
   */
  method FillWrapping(mem: array<u8>, es: nat, E: nat, head: nat, count: u16)
    requires Ring(mem[..], es, E, head) && count > 0
    modifies mem
    ensures mem[..] == PhaseFill(old(mem[..]), es, E, head, count)
  {
    ghost var m0 := mem[..];
    var i := head;
    var num: u16 := 0;
    var tmpbit := 1;
    while true
      invariant num < count && i == Slot(head, num, E) && tmpbit == TmpBit(head, num, E)
      invariant head + num < E ==> i == head + num
      invariant mem[..] == PhaseFill(m0, es, E, head, num)
      decreases count - num
    {
      WritePhase(mem, m0, es, E, head, num, i, tmpbit);
      SlotStep(head, num, E);
      i := i + 1;
      num := num + 1;
      if i >= E {
        i := 0;
        tmpbit := 0;
      }
      if head + num < E {
        DivMod(head + num, E, 0, head + num);
      }
      if num == count {
        break;
      }
    }
  }

  // ---------------------------------------------------------------------------------
  // unit_test_reap_inq
  // ---------------------------------------------------------------------------------

  /** The ring shape the fixture needs of a CQ it fills: whole entries, each holding the phase byte. */
  predicate CqShape(size: nat, elements: nat, head: nat)
  {
    elements > 0 && size % elements == 0 && size / elements > PHASE_BYTE && head < elements
  }

  /** The CQ ids the fixture fills. */
  predicate Filled(qId: u16)
  {
    2 <= qId <= 6
  }

  /** A CQ the fixture can fill: its ring exists, is size bytes long and has the shape above. */
  predicate ReapReady(cq: MetricsCq)
    reads cq
  {
    Filled(cq.publicCq.qId) ==>
      cq.virKernAddr != null && cq.virKernAddr.Length == cq.size &&
      CqShape(cq.size, cq.publicCq.elements, cq.publicCq.headPtr)
  }

  lemma ShapeRing(m: seq<u8>, size: nat, elements: nat, head: nat)
    requires |m| == size && CqShape(size, elements, head)
    ensures Ring(m, size / elements, elements, head)
  {
    assert size == (size / elements) * elements + size % elements;
  }

  /** What the fixture leaves in the ring memory m of a CQ with public half q (comp_entry_size = size / elements). */
  function ReapFill(m: seq<u8>, q: GenCq, size: nat): seq<u8>
    requires Filled(q.qId) ==> |m| == size && CqShape(size, q.elements, q.headPtr)
  {
    if !Filled(q.qId) then m
    else
      var es, E, head := size / q.elements, q.elements as nat, q.headPtr as nat;
      ShapeRing(m, size, E, head);
      if q.qId == 2 then PhaseFill(m, es, E, head, E - head)
      else if q.qId == 3 then PhaseFill(m, es, E, head, Min(10, E - head))
      else if q.qId == 6 then PhaseFill(m, es, E, head, 1)
      else PhaseFill(m, es, E, head, 101)
  }

  /** The head pointer the fixture leaves: moved into the middle of the ring for CQ ids 4 and 5. */
  function ReapHead(q: GenCq): u16
  {
    if q.qId == 4 then 99 else if q.qId == 5 then 98 else q.headPtr
  }

  /** The bytes of a ring, empty when none is allocated. */
  function Contents(a: array?<u8>): seq<u8>
    reads a
  {
    if a == null then [] else a[..]
  }

  /**
   * A CQ node as the fixture leaves it, given its public half q0 and ring contents m0
   * before: the ring holds ReapFill of m0 and the head pointer is ReapHead.
   */
  predicate Reaped(cq: MetricsCq, q0: GenCq, m0: seq<u8>)
    reads cq, cq.virKernAddr
  {
    cq.publicCq == q0.(headPtr := ReapHead(q0)) &&
    (Filled(q0.qId) ==> |m0| == cq.size && CqShape(cq.size, q0.elements, q0.headPtr) &&
                        Contents(cq.virKernAddr) == ReapFill(m0, q0, cq.size)) &&
    (!Filled(q0.qId) ==> Contents(cq.virKernAddr) == m0)
  }

  /** The body of unit_test_reap_inq for one CQ node. */
  method ReapInqNode(cq: MetricsCq)
    requires ReapReady(cq)
    modifies cq`publicCq, cq.virKernAddr
    ensures Reaped(cq, old(cq.publicCq), old(Contents(cq.virKernAddr)))
  {
    var q := cq.publicCq;
    if !Filled(q.qId) {
      return;
    }
    var mem := cq.virKernAddr;
    ShapeRing(mem[..], cq.size, q.elements, q.headPtr);
    var es := cq.size / q.elements;
    if q.qId == 2 {
      FillToEnd(mem, es, q.elements, q.headPtr);
    }
    if q.qId == 3 {
      FillTen(mem, es, q.elements, q.headPtr);
    }
    if q.qId == 4 {
      FillWrapping(mem, es, q.elements, q.headPtr, 101);
      cq.publicCq := cq.publicCq.(headPtr := 99);
    }
    if q.qId == 5 {
      FillWrapping(mem, es, q.elements, q.headPtr, 101);
      cq.publicCq := cq.publicCq.(headPtr := 98);
    }
    if q.qId == 6 {
      FillWrapping(mem, es, q.elements, q.headPtr, 1);
    }
  }

  // ---------------------------------------------------------------------------------
  // 64-bit patterns (unit_test_mmap)
  // ---------------------------------------------------------------------------------

  /** The 64-bit word at word index w of ring memory m, as the CPU stores it (least significant byte first). */
  function Word(m: seq<u8>, w: nat): nat
    requires 8 * w + 8 <= |m|
  {
    LeValue(m[8 * w .. 8 * w + 8])
  }

  /** *q_head_ptr = v, q_head_ptr pointing at word w. */
  function Store8(m: seq<u8>, w: nat, v: u64): (r: seq<u8>)
    requires 8 * w + 8 <= |m|
    ensures |r| == |m|
  {
    m[.. 8 * w] + LeBytes(v, 8) + m[8 * w + 8 ..]
  }

  /** A stored word reads back as stored; the other words are untouched. */
  lemma StoreWord(m: seq<u8>, w: nat, v: u64, w': nat)
    requires 8 * w + 8 <= |m| && 8 * w' + 8 <= |m|
    ensures Word(Store8(m, w, v), w') == if w' == w then v else Word(m, w')
  {
    var r := Store8(m, w, v);
    if w' == w {
      assert r[8 * w .. 8 * w + 8] == LeBytes(v, 8);
      Pow256Eight();
      ValueOfBytes(v, 8);
    } else {
      assert r[8 * w' .. 8 * w' + 8] == m[8 * w' .. 8 * w' + 8];
    }
  }

  /** The word rings the fixture can fill: W words filling the ring, a start word inside it. */
  predicate WordRing(m: seq<u8>, W: nat, start: nat)
  {
    |m| == 8 * W && start < W
  }

  /** Ring memory after n pattern writes from word start, the k-th storing base + k. */
  function PatternFill(m: seq<u8>, W: nat, start: nat, n: nat, base: nat): (r: seq<u8>)
    requires WordRing(m, W, start) && base + n <= U64_LIMIT
    ensures |r| == |m|
  {
    if n == 0 then m
    else Store8(PatternFill(m, W, start, n - 1, base), Slot(start, n - 1, W), base + n - 1)
  }

  /**
   * After a pattern fill, each word holds base plus the number of the last write that
   * reached it, or its old value if none did.
   */
  lemma {:induction false} PatternFillWord(m: seq<u8>, W: nat, start: nat, n: nat, base: nat, w: nat)
    requires WordRing(m, W, start) && base + n <= U64_LIMIT && w < W
    ensures Word(PatternFill(m, W, start, n, base), w) ==
      if LastVisit(start, n, W, w) < 0 then Word(m, w) else base + LastVisit(start, n, W, w)
  {
    if n > 0 {
      PatternFillWord(m, W, start, n - 1, base, w);
      StoreWord(PatternFill(m, W, start, n - 1, base), Slot(start, n - 1, W), base + n - 1, w);
    }
  }

  /**
   * A pattern fill that does not reach the end of the ring stores base, base + 1, ... in
   * the n words from the start and changes no other word.
   */
  lemma PatternNoWrap(m: seq<u8>, W: nat, start: nat, n: nat, base: nat, w: nat)
    requires WordRing(m, W, start) && base + n <= U64_LIMIT && start + n <= W && w < W
    ensures start <= w < start + n ==> Word(PatternFill(m, W, start, n, base), w) == base + (w - start)
    ensures !(start <= w < start + n) ==> Word(PatternFill(m, W, start, n, base), w) == Word(m, w)
  {
    PatternFillWord(m, W, start, n, base, w);
    NoWrapVisit(start, n, W, w);
  }

  /**
   * A pattern fill of more writes than the ring has words leaves every word holding a
   * value from the last lap: one at most W writes back.
   */
  lemma PatternWrap(m: seq<u8>, W: nat, start: nat, n: nat, base: nat, w: nat)
    requires WordRing(m, W, start) && base + n <= U64_LIMIT && W <= n && w < W
    ensures base + n - W <= Word(PatternFill(m, W, start, n, base), w) < base + n
  {
    PatternFillWord(m, W, start, n, base, w);
    LastVisitMeaning(start, n, W, w);
    var v := LastVisit(start, n, W, w);
    var k := if w >= start then w - start else w + W - start;
    if w >= start {
      DivMod(start + k, W, 0, w);
    } else {
      DivMod(start + k, W, 1, w);
    }
    assert Slot(start, k, W) == w && k < n;
    if v >= 0 && v + W < n {
      SlotPeriodic(start, v, W);
    }
  }

  /** The k-th write of a pattern fill: one 64-bit store at word i. */
  method WriteWord(mem: array<u8>, ghost m0: seq<u8>, W: nat, start: nat, k: nat, i: nat, base: u64)
    requires WordRing(m0, W, start) && base + k + 1 <= U64_LIMIT
    requires mem[..] == PatternFill(m0, W, start, k, base) && i == Slot(start, k, W)
    modifies mem
    ensures mem[..] == PatternFill(m0, W, start, k + 1, base)
  {
    PatternStep(m0, W, start, k, base);
    ghost var goal := Store8(mem[..], i, base + k);
    var bytes := LeBytes(base + k, 8);
    forall j | 0 <= j < 8 {
      mem[8 * i + j] := bytes[j];
    }
    forall j | 0 <= j < mem.Length
      ensures mem[j] == goal[j]
    {
      Store8At(old(mem[..]), i, base + k, j);
    }
    assert mem[..] == goal;
  }

  /** One more pattern write is one Store8 at the next slot, which lies inside the ring. */
  lemma PatternStep(m0: seq<u8>, W: nat, start: nat, k: nat, base: nat)
    requires WordRing(m0, W, start) && base + k + 1 <= U64_LIMIT
    ensures Slot(start, k, W) < W && 8 * Slot(start, k, W) + 8 <= |m0|
    ensures PatternFill(m0, W, start, k + 1, base) ==
      Store8(PatternFill(m0, W, start, k, base), Slot(start, k, W), base + k)
  {
  }

  /** The byte at j after a Store8 at word w. */
  lemma Store8At(m: seq<u8>, w: nat, v: u64, j: nat)
    requires 8 * w + 8 <= |m| && j < |m|
    ensures Store8(m, w, v)[j] == if 8 * w <= j < 8 * w + 8 then LeBytes(v, 8)[j - 8 * w] else m[j]
  {
  }

  /**
   * The store loop of unit_test_mmap: count 64-bit stores of base, base + 1, ... from word
   * start, wrapping to the start of the ring when the pointer reaches its end.
   */
  method PatternLoop(mem: array<u8>, W: nat, start: nat, count: u16, base: u64)
    requires WordRing(mem[..], W, start) && count > 0 && base + count <= U64_LIMIT
    modifies mem
    ensures mem[..] == PatternFill(old(mem[..]), W, start, count, base)
  {
    ghost var m0 := mem[..];
    var i := start;
    var num: u16 := 0;
    while true
      invariant num < count && i == Slot(start, num, W)
      invariant mem[..] == PatternFill(m0, W, start, num, base)
      decreases count - num
    {
      WriteWord(mem, m0, W, start, num, i, base);
      SlotStep(start, num, W);
      i := i + 1;
      num := num + 1;
      if i == W {
        i := 0;
      }
      if num == count {
        break;
      }
    }
  }

  /** The admin SQ pattern: 15 stores of 0xaa55 + k from byte 64 * head_ptr. */
  const SQ_PATTERN: u64 := 0xaa55
  const SQ_STORES: u16 := 15
  /** The admin CQ pattern: 25 stores of 0x3344 + k from byte 16 * head_ptr. */
  const CQ_PATTERN: u64 := 0x3344
  const CQ_STORES: u16 := 25

  /** A ring the pattern loop can fill: whole words, the first store inside the ring. */
  predicate PatternReady(mem: array?<u8>, size: nat, startByte: nat)
  {
    mem != null && mem.Length == size && size % 8 == 0 && startByte % 8 == 0 && startByte < size
  }

  /** What unit_test_mmap leaves in the ring memory of the admin SQ. */
  function SqPattern(m: seq<u8>, head: nat): seq<u8>
    requires |m| % 8 == 0 && 64 * head < |m|
  {
    PatternFill(m, |m| / 8, 8 * head, SQ_STORES as nat, SQ_PATTERN as nat)
  }

  /** What unit_test_mmap leaves in the ring memory of the admin CQ. */
  function CqPattern(m: seq<u8>, head: nat): seq<u8>
    requires |m| % 8 == 0 && 16 * head < |m|
  {
    PatternFill(m, |m| / 8, 2 * head, CQ_STORES as nat, CQ_PATTERN as nat)
  }

  /** An SQ node whose ring unit_test_mmap can fill, if it fills it. */
  predicate SqMmapReady(sq: MetricsSq)
    reads sq
  {
    sq.publicSq.sqId == 0 ==> PatternReady(sq.virKernAddr, sq.size, 64 * sq.publicSq.headPtr)
  }

  /** A CQ node whose ring unit_test_mmap can fill, if it fills it. */
  predicate CqMmapReady(cq: MetricsCq)
    reads cq
  {
    cq.publicCq.qId == 0 ==> PatternReady(cq.virKernAddr, cq.size, 16 * cq.publicCq.headPtr)
  }

  /** An SQ node as unit_test_mmap leaves it, given its ring contents m0 before. */
  predicate SqMmapped(sq: MetricsSq, m0: seq<u8>)
    reads sq, sq.virKernAddr
  {
    (sq.publicSq.sqId == 0 ==> |m0| == sq.size && |m0| % 8 == 0 && 64 * sq.publicSq.headPtr < |m0| &&
                               Contents(sq.virKernAddr) == SqPattern(m0, sq.publicSq.headPtr)) &&
    (sq.publicSq.sqId != 0 ==> Contents(sq.virKernAddr) == m0)
  }

  /** A CQ node as unit_test_mmap leaves it, given its ring contents m0 before. */
  predicate CqMmapped(cq: MetricsCq, m0: seq<u8>)
    reads cq, cq.virKernAddr
  {
    (cq.publicCq.qId == 0 ==> |m0| == cq.size && |m0| % 8 == 0 && 16 * cq.publicCq.headPtr < |m0| &&
                              Contents(cq.virKernAddr) == CqPattern(m0, cq.publicCq.headPtr)) &&
    (cq.publicCq.qId != 0 ==> Contents(cq.virKernAddr) == m0)
  }

  /** The SQ half of unit_test_mmap for one SQ node: only SQ id 0 is filled. */
  method MmapSqNode(sq: MetricsSq)
    requires SqMmapReady(sq)
    modifies sq.virKernAddr
    ensures SqMmapped(sq, old(Contents(sq.virKernAddr)))
  {
    if sq.publicSq.sqId == 0 {
      var mem := sq.virKernAddr;
      PatternLoop(mem, sq.size / 8, 8 * sq.publicSq.headPtr, SQ_STORES, SQ_PATTERN);
    }
  }

  /** The CQ half of unit_test_mmap for one CQ node: only CQ id 0 is filled. */
  method MmapCqNode(cq: MetricsCq)
    requires CqMmapReady(cq)
    modifies cq.virKernAddr
    ensures CqMmapped(cq, old(Contents(cq.virKernAddr)))
  {
    if cq.publicCq.qId == 0 {
      var mem := cq.virKernAddr;
      PatternLoop(mem, cq.size / 8, 2 * cq.publicCq.headPtr, CQ_STORES, CQ_PATTERN);
    }
  }

  // ---------------------------------------------------------------------------------
  // The walks over the device's queue lists
  // ---------------------------------------------------------------------------------

  /** The CQ list: distinct nodes whose rings, where allocated, are distinct. */
  predicate CqsApart(cqs: seq<MetricsCq>)
    reads set i | 0 <= i < |cqs| :: cqs[i]
  {
    forall i, j :: 0 <= i < j < |cqs| ==>
      cqs[i] != cqs[j] && (cqs[i].virKernAddr == null || cqs[i].virKernAddr != cqs[j].virKernAddr)
  }

  /** The SQ list: distinct nodes whose rings, where allocated, are distinct. */
  predicate SqsApart(sqs: seq<MetricsSq>)
    reads set i | 0 <= i < |sqs| :: sqs[i]
  {
    forall i, j :: 0 <= i < j < |sqs| ==>
      sqs[i] != sqs[j] && (sqs[i].virKernAddr == null || sqs[i].virKernAddr != sqs[j].virKernAddr)
  }

  /**
   * At most one node of a list has id 0. The store counter of unit_test_mmap is not reset
   * between nodes of one list, so a second id-0 node would see a different count.
   */
  predicate OneAdminSq(sqs: seq<MetricsSq>)
    reads set i | 0 <= i < |sqs| :: sqs[i]
  {
    forall i, j :: 0 <= i < j < |sqs| ==> sqs[i].publicSq.sqId != 0 || sqs[j].publicSq.sqId != 0
  }

  predicate OneAdminCq(cqs: seq<MetricsCq>)
    reads set i | 0 <= i < |cqs| :: cqs[i]
  {
    forall i, j :: 0 <= i < j < |cqs| ==> cqs[i].publicCq.qId != 0 || cqs[j].publicCq.qId != 0
  }

  /** The rings of a CQ list. */
  function CqRings(cqs: seq<MetricsCq>): set<array<u8>>
    reads set i | 0 <= i < |cqs| :: cqs[i]
  {
    set i | 0 <= i < |cqs| && cqs[i].virKernAddr != null :: cqs[i].virKernAddr
  }

  /** The rings of an SQ list. */
  function SqRings(sqs: seq<MetricsSq>): set<array<u8>>
    reads set i | 0 <= i < |sqs| :: sqs[i]
  {
    set i | 0 <= i < |sqs| && sqs[i].virKernAddr != null :: sqs[i].virKernAddr
  }

  /**
   * unit_test_reap_inq: walks the device's CQ list and applies the fixture to each node,
   * so every CQ ends as ReapInqNode leaves it and nothing else changes.
   */
  method UnitTestReapInq(cqs: seq<MetricsCq>)
    requires forall i :: 0 <= i < |cqs| ==> ReapReady(cqs[i])
    requires CqsApart(cqs)
    modifies (set i | 0 <= i < |cqs| :: cqs[i])`publicCq
    modifies CqRings(cqs)
    ensures forall i :: 0 <= i < |cqs| ==> cqs[i].virKernAddr == old(cqs[i].virKernAddr)
    ensures forall i :: 0 <= i < |cqs| ==> Reaped(cqs[i], old(cqs[i].publicCq), old(Contents(cqs[i].virKernAddr)))
  {
    var k := 0;
    while k < |cqs|
      invariant 0 <= k <= |cqs|
      invariant forall i :: 0 <= i < |cqs| ==> cqs[i].virKernAddr == old(cqs[i].virKernAddr)
      invariant forall i :: k <= i < |cqs| ==>
        cqs[i].publicCq == old(cqs[i].publicCq) && cqs[i].size == old(cqs[i].size) &&
        Contents(cqs[i].virKernAddr) == old(Contents(cqs[i].virKernAddr))
      invariant forall i :: 0 <= i < k ==> Reaped(cqs[i], old(cqs[i].publicCq), old(Contents(cqs[i].virKernAddr)))
    {
      ReapInqNode(cqs[k]);
      k := k + 1;
    }
  }

  /** The SQ walk of unit_test_mmap. */
  method MmapSqWalk(sqs: seq<MetricsSq>)
    requires forall i :: 0 <= i < |sqs| ==> SqMmapReady(sqs[i])
    requires SqsApart(sqs) && OneAdminSq(sqs)
    modifies SqRings(sqs)
    ensures forall i :: 0 <= i < |sqs| ==> SqMmapped(sqs[i], old(Contents(sqs[i].virKernAddr)))
  {
    var k := 0;
    while k < |sqs|
      invariant 0 <= k <= |sqs|
      invariant forall i :: k <= i < |sqs| ==> Contents(sqs[i].virKernAddr) == old(Contents(sqs[i].virKernAddr))
      invariant forall i :: 0 <= i < k ==> SqMmapped(sqs[i], old(Contents(sqs[i].virKernAddr)))
    {
      MmapSqNode(sqs[k]);
      k := k + 1;
    }
  }

  /** The CQ walk of unit_test_mmap. */
  method MmapCqWalk(cqs: seq<MetricsCq>)
    requires forall i :: 0 <= i < |cqs| ==> CqMmapReady(cqs[i])
    requires CqsApart(cqs) && OneAdminCq(cqs)
    modifies CqRings(cqs)
    ensures forall i :: 0 <= i < |cqs| ==> CqMmapped(cqs[i], old(Contents(cqs[i].virKernAddr)))
  {
    var k := 0;
    while k < |cqs|
      invariant 0 <= k <= |cqs|
      invariant forall i :: k <= i < |cqs| ==> Contents(cqs[i].virKernAddr) == old(Contents(cqs[i].virKernAddr))
      invariant forall i :: 0 <= i < k ==> CqMmapped(cqs[i], old(Contents(cqs[i].virKernAddr)))
    {
      MmapCqNode(cqs[k]);
      k := k + 1;
    }
  }

  /**
   * unit_test_mmap: walks the SQ list filling the admin SQ's ring, then the CQ list
   * filling the admin CQ's (the store counter restarts for the CQ walk). No ring is shared.
   */
  method UnitTestMmap(sqs: seq<MetricsSq>, cqs: seq<MetricsCq>)
    requires forall i :: 0 <= i < |sqs| ==> SqMmapReady(sqs[i])
    requires forall i :: 0 <= i < |cqs| ==> CqMmapReady(cqs[i])
    requires SqsApart(sqs) && CqsApart(cqs) && OneAdminSq(sqs) && OneAdminCq(cqs)
    requires SqRings(sqs) !! CqRings(cqs)
    modifies SqRings(sqs), CqRings(cqs)
    ensures forall i :: 0 <= i < |sqs| ==> SqMmapped(sqs[i], old(Contents(sqs[i].virKernAddr)))
    ensures forall i :: 0 <= i < |cqs| ==> CqMmapped(cqs[i], old(Contents(cqs[i].virKernAddr)))
  {
    MmapSqWalk(sqs);
    MmapCqWalk(cqs);
  }
}
