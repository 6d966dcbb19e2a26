/**
 * Mapping a user buffer for DMA (map_user_pg_to_dma, pages_to_sg and unmap_user_pg_to_dma
 * of dnvme_cmds.c). The buffer's pages are pinned, one scatter-list entry is made per
 * page, and the list is mapped for the device. Unmapping releases every pinned page.
 *
 * User pages are named by their virtual page number (buffer address / PAGE_SIZE). The
 * kernel services the driver calls (kcalloc, get_user_pages_fast, dma_map_sg) appear
 * through their results, which are given in a MapEnv.
 */
module Scatter {
  import opened Base
  import opened Descriptors

  // ---------------------------------------------------------------------------------
  // Pinned user pages
  // ---------------------------------------------------------------------------------

  /** The page-pointer array get_user_pages_fast leaves: the first got entries pinned, the rest NULL. */
  function PinResult(first: nat, count: nat, got: int): (pages: seq<Option<nat>>)
    ensures |pages| == count
  {
    seq(count, i => if i < got then Some(first + i) else None)
  }

  /** The pages first, first + 1, ..., first + n - 1. */
  function PageSeq(first: nat, n: nat): (ps: seq<nat>)
    ensures |ps| == n
  {
    seq(n, i => first + i)
  }

  /** The page references the driver holds (get_user_pages_fast takes them, put_page drops them). */
  class UserPages {
    var pinned: multiset<nat>

    constructor ()
      ensures pinned == multiset{}
    {
      pinned := multiset{};
    }

    /**
     * get_user_pages_fast for count pages from page first. got is what the kernel
     * returns: the number of pages pinned, or a negative errno when none was.
     */
    method Pin(first: nat, count: nat, got: int) returns (pages: seq<Option<nat>>)
      requires got <= count
      modifies this
      ensures pages == PinResult(first, count, got)
      ensures pinned == old(pinned) + multiset(PageSeq(first, if got < 0 then 0 else got))
    {
      pages := PinResult(first, count, got);
      pinned := pinned + multiset(PageSeq(first, if got < 0 then 0 else got));
    }

    /** put_page: drops one reference. */
    method PutPage(p: nat)
      requires p in pinned
      modifies this
      ensures pinned == old(pinned) - multiset{p}
    {
      pinned := pinned - multiset{p};
    }

    /** put_page on each page of ps, in order. */
    method PutAll(ps: seq<nat>)
      requires multiset(ps) <= pinned
      modifies this
      ensures pinned + multiset(ps) == old(pinned)
    {
      var i := 0;
      while i < |ps|
        invariant 0 <= i <= |ps|
        invariant pinned + multiset(ps[..i]) == old(pinned)
      {
        assert ps == ps[..i] + [ps[i]] + ps[i + 1..];
        assert ps[..i + 1] == ps[..i] + [ps[i]];
        PutStep(pinned, multiset(ps[..i]), ps[i], multiset(ps[i + 1..]), old(pinned));
        PutPage(ps[i]);
        i := i + 1;
      }
      assert ps[..|ps|] == ps;
    }
  }

  lemma Cancel(a: multiset<nat>, b: multiset<nat>, m: multiset<nat>)
    requires a + m == b + m
    ensures a == b
  {
    assert forall x :: a[x] == (a + m)[x] - m[x];
  }

  lemma PutStep(m: multiset<nat>, a: multiset<nat>, x: nat, rest: multiset<nat>, p0: multiset<nat>)
    requires m + a == p0 && a + multiset{x} + rest <= p0
    ensures x in m && (m - multiset{x}) + (a + multiset{x}) == p0
  {
    assert p0[x] >= a[x] + 1;
  }

  // ---------------------------------------------------------------------------------
  // The scatter list pages_to_sg builds
  // ---------------------------------------------------------------------------------

  /** A __u32 result: arithmetic modulo 2^32. */
  function Wrap32(x: int): (r: u32)
    ensures 0 <= x < U32_LIMIT ==> r == x
  {
    x % U32_LIMIT
  }

  /** The in-page offset pages_to_sg uses for entry i: the buffer's offset for the first, 0 after. */
  function OffAt(i: nat, off: nat): nat
  {
    if i == 0 then off else 0
  }

  /** The value of len when pages_to_sg reaches entry i: each entry takes PAGE_SIZE - offset off it. */
  function LenAt(i: nat, off: nat, len: u32): u32
  {
    if i == 0 then len else LenAt(i - 1, 0, Wrap32(len - (PAGE_SIZE - off)))
  }

  /** Entry i of the list: sg_set_page(page, min(PAGE_SIZE - offset, len), offset) on a zeroed entry. */
  function SegAt(page: nat, i: nat, off: nat, len: u32): SgEntry
    requires off < PAGE_SIZE
  {
    var o := OffAt(i, off);
    SgEntry(page, o, Min(PAGE_SIZE - o, LenAt(i, off, len)), 0, 0)
  }

  /** The list pages_to_sg builds over the pages ps. */
  function SgTable(ps: seq<nat>, off: nat, len: u32): (t: seq<SgEntry>)
    requires off < PAGE_SIZE
    ensures |t| == |ps|
  {
    seq(|ps|, i requires 0 <= i < |ps| => SegAt(ps[i], i, off, len))
  }

  lemma {:induction false} LenAtNext(i: nat, off: nat, len: u32)
    ensures LenAt(i + 1, off, len) == Wrap32(LenAt(i, off, len) - (PAGE_SIZE - OffAt(i, off)))
    decreases i
  {
    if i > 0 {
      LenAtNext(i - 1, 0, Wrap32(len - (PAGE_SIZE - off)));
    }
  }

  ghost predicate AllPinned(pages: seq<Option<nat>>)
  {
    forall i :: 0 <= i < |pages| ==> pages[i].Some?
  }

  function Numbers(pages: seq<Option<nat>>): (ps: seq<nat>)
    requires AllPinned(pages)
    ensures |ps| == |pages|
  {
    seq(|pages|, i requires 0 <= i < |pages| => pages[i].value)
  }

  /**
   * pages_to_sg. sgAlloc is whether kcalloc of the list succeeds. A NULL page pointer
   * fails the call with -EFAULT; otherwise the result is SgTable of the pages.
   */
  method PagesToSg(pages: seq<Option<nat>>, nrPages: u32, offset: u32, len: u32, sgAlloc: bool)
    returns (err: int, sg: seq<SgEntry>)
    requires nrPages <= |pages| && offset < PAGE_SIZE
    ensures err == 0 || err == -ENOMEM || err == -EFAULT
    ensures err == -ENOMEM <==> !sgAlloc
    ensures err == 0 <==> sgAlloc && AllPinned(pages[..nrPages])
    ensures err == 0 ==> sg == SgTable(Numbers(pages[..nrPages]), offset, len)
  {
    if !sgAlloc {
      return -ENOMEM, [];
    }
    var sglist := new SgEntry[nrPages](_ => SgEntry(0, 0, 0, 0, 0));
    var index := 0;
    var off: u32 := offset;
    var l: u32 := len;
    while index < nrPages
      invariant 0 <= index <= nrPages
      invariant off == OffAt(index, offset) && l == LenAt(index, offset, len)
      invariant forall j :: 0 <= j < index ==> pages[j].Some? && sglist[j] == SegAt(pages[j].value, j, offset, len)
    {
      if pages[index].None? {
        assert !AllPinned(pages[..nrPages]) by {
          assert pages[..nrPages][index].None?;
        }
        return -EFAULT, [];
      }
      sglist[index] := SgEntry(pages[index].value, off, Min(PAGE_SIZE - off, l), 0, 0);
      LenAtNext(index, offset, len);
      l := Wrap32(l - (PAGE_SIZE - off));
      off := 0;
      index := index + 1;
    }
    err, sg := 0, sglist[..];
  }

  /**
   * The list covers the buffer: with as many pages as offset + len spans, the entry
   * lengths add up to len; the first entry starts at the offset, every later one at
   * the start of its page, and every entry but the last fills the rest of its page.
   */
  lemma {:induction false} SgTableCovers(ps: seq<nat>, off: nat, len: u32)
    requires off < PAGE_SIZE && len >= 1 && |ps| == DivRoundUp(off + len, PAGE_SIZE)
    ensures SumLength(SgTable(ps, off, len)) == len
    ensures forall i :: 0 <= i < |ps| ==> 1 <= SgTable(ps, off, len)[i].length <= PAGE_SIZE
    ensures forall i :: 0 <= i < |ps| ==> SgTable(ps, off, len)[i].offset == OffAt(i, off)
    ensures forall i :: 0 <= i < |ps| - 1 ==>
      SgTable(ps, off, len)[i].offset + SgTable(ps, off, len)[i].length == PAGE_SIZE
    decreases |ps|
  {
    var t := SgTable(ps, off, len);
    if len <= PAGE_SIZE - off {
      assert |ps| == 1;
      assert t[1..] == [];
    } else {
      var len' := Wrap32(len - (PAGE_SIZE - off));
      assert len' == len + off - PAGE_SIZE;
      assert |ps[1..]| == DivRoundUp(0 + len', PAGE_SIZE);
      SgTableCovers(ps[1..], 0, len');
      var t' := SgTable(ps[1..], 0, len');
      assert t[1..] == t' by {
        forall i | 0 <= i < |t'|
          ensures t[1..][i] == t'[i]
        {
          assert LenAt(i + 1, off, len) == LenAt(i, 0, len');
        }
      }
      forall i | 0 <= i < |ps|
        ensures 1 <= t[i].length <= PAGE_SIZE && t[i].offset == OffAt(i, off)
        ensures i < |ps| - 1 ==> t[i].offset + t[i].length == PAGE_SIZE
      {
        if i > 0 {
          assert t[i] == t'[i - 1];
        }
      }
    }
  }

  // ---------------------------------------------------------------------------------
  // dma_map_sg and the whole mapping
  // ---------------------------------------------------------------------------------

  /**
   * dma_map_sg, one bus segment per entry: each entry's bus address is its page's bus
   * address plus its offset, and its bus length is its length.
   */
  function DmaMap(sg: seq<SgEntry>, bus: nat -> u64): (m: seq<SgEntry>)
    ensures |m| == |sg|
  {
    seq(|sg|, i requires 0 <= i < |sg| =>
      sg[i].(dmaAddress := AddrAdd(bus(sg[i].page), sg[i].offset), dmaLength := sg[i].length))
  }

  /**
   * The results of the kernel calls map_user_pg_to_dma makes: whether the page-pointer
   * array is allocated, what get_user_pages_fast returns, whether the scatter list is
   * allocated, whether dma_map_sg maps it, and the bus address of each user page.
   */
  datatype MapEnv = MapEnv(pagesAlloc: bool, pinned: int, sgAlloc: bool, mapOk: bool, bus: nat -> u64)

  /** The first user page of the buffer. */
  function FirstPage(bufAddr: u64): nat
  {
    bufAddr / PAGE_SIZE
  }

  /** count = DIV_ROUND_UP(offset + buf_len, PAGE_SIZE), the sum taken in __u32. */
  function PageSpan(bufAddr: u64, bufLen: u32): (count: u32)
  {
    var n := Wrap32(OffsetInPage(bufAddr) + bufLen);
    assert DivRoundUp(n, 4096) <= n / 4096 + 1;
    DivRoundUp(n, PAGE_SIZE)
  }

  /** The mapped scatter list of a fully pinned buffer. */
  function MappedSg(bufAddr: u64, bufLen: u32, bus: nat -> u64): (sg: seq<SgEntry>)
    ensures |sg| == PageSpan(bufAddr, bufLen)
  {
    DmaMap(SgTable(PageSeq(FirstPage(bufAddr), PageSpan(bufAddr, bufLen)), OffsetInPage(bufAddr), bufLen), bus)
  }

  /** Every step of the mapping succeeds. */
  predicate MapSucceeds(env: MapEnv, count: nat)
  {
    env.pagesAlloc && env.pinned >= count && env.sgAlloc && env.mapOk && count > 0
  }

  /**
   * The short-pin test as written: err < count with err an int and count a __u32
   * converts err to __u32, so a negative errno compares as a number near 2^32.
   */
  function PinShortAsWritten(ret: int, count: u32): bool
  {
    Wrap32(ret) < count
  }

  /** The short-pin test as intended: fewer pages pinned than asked, or an errno. */
  function PinShort(ret: int, count: u32): bool
  {
    ret < count
  }

  /**
   * As written, a get_user_pages_fast that fails outright (-EFAULT, nothing pinned)
   * passes the short-pin test, so the NULL page pointers reach pages_to_sg and then
   * put_page on the error path.
   */
  lemma NegativePinPassesCheck(first: nat, count: u32)
    requires 1 <= count < 0x8000_0000
    ensures !PinShortAsWritten(-EFAULT, count) && PinShort(-EFAULT, count)
    ensures PinResult(first, count, -EFAULT)[0] == None
  {
  }

  /** On returns that are page counts the two tests agree. */
  lemma PinShortAgrees(ret: int, count: u32)
    requires 0 <= ret < U32_LIMIT
    ensures PinShortAsWritten(ret, count) <==> PinShort(ret, count)
  {
  }

  /**
   * map_user_pg_to_dma (with the short-pin test corrected, see PinShortAsWritten). It
   * pins the pages the buffer spans, builds their scatter list and maps it. On success it
   * returns the number of segments and fills the buffer fields of the descriptor; on
   * failure every page it pinned is released and the descriptor is untouched.
   */
  method MapUserPgToDma(user: UserPages, write: bool, bufAddr: u64, bufLen: u32, prps: Prps, env: MapEnv)
    returns (err: int, out: Prps)
    requires env.pinned <= PageSpan(bufAddr, bufLen)
    modifies user
    ensures var count := PageSpan(bufAddr, bufLen);
      MapSucceeds(env, count) ==>
        err == count && user.pinned == old(user.pinned) + multiset(PageSeq(FirstPage(bufAddr), count)) &&
        out == prps.(dataDir := write, dataBufAddr := bufAddr, dataBufSize := bufLen,
                     sg := MappedSg(bufAddr, bufLen, env.bus), dmaMappedPgs := count)
    ensures var count := PageSpan(bufAddr, bufLen);
      !MapSucceeds(env, count) ==>
        (err == -ENOMEM || err == -EFAULT) && user.pinned == old(user.pinned) && out == prps
    ensures err == -EFAULT <==> env.pagesAlloc && env.pinned < PageSpan(bufAddr, bufLen)
  {
    out := prps;
    var offset := OffsetInPage(bufAddr);
    var count := PageSpan(bufAddr, bufLen);
    var first := FirstPage(bufAddr);
    if !env.pagesAlloc {
      return -ENOMEM, out;
    }
    var pages := user.Pin(first, count, env.pinned);
    if PinShort(env.pinned, count) {
      var got := if env.pinned < 0 then 0 else env.pinned;
      user.PutAll(PageSeq(first, got));
      Cancel(user.pinned, old(user.pinned), multiset(PageSeq(first, got)));
      return -EFAULT, out;
    }
    assert pages[..count] == pages;
    var sg;
    err, sg := PagesToSg(pages, count, offset, bufLen, env.sgAlloc);
    if err < 0 {
      user.PutAll(PageSeq(first, count));
      Cancel(user.pinned, old(user.pinned), multiset(PageSeq(first, count)));
      return err, out;
    }
    assert Numbers(pages) == PageSeq(first, count);
    if !env.mapOk || count == 0 {
      user.PutAll(PageSeq(first, count));
      Cancel(user.pinned, old(user.pinned), multiset(PageSeq(first, count)));
      return -ENOMEM, out;
    }
    var mapped := DmaMap(sg, env.bus);
    out := prps.(dataDir := write, dataBufAddr := bufAddr, dataBufSize := bufLen,
                 sg := mapped, dmaMappedPgs := count);
    err := count;
  }

  // ---------------------------------------------------------------------------------
  // Unmapping
  // ---------------------------------------------------------------------------------

  /** The user pages a descriptor holds: those of its mapped entries, when it has PRPs. */
  function HeldPages(prps: Prps): (m: multiset<nat>)
    requires prps.dmaMappedPgs <= |prps.sg|
  {
    if prps.prpType == NoPrp then multiset{} else multiset(SgPageList(prps.sg[..prps.dmaMappedPgs]))
  }

  /**
   * unmap_user_pg_to_dma: for a descriptor with PRPs, unmaps its list and releases the
   * page of each of its dma_mapped_pgs entries; a descriptor of type NO_PRP is left alone.
   */
  method UnmapUserPgToDma(user: UserPages, prps: Prps)
    requires prps.dmaMappedPgs <= |prps.sg| && HeldPages(prps) <= user.pinned
    modifies user
    ensures user.pinned + HeldPages(prps) == old(user.pinned)
  {
    if prps.prpType != NoPrp {
      user.PutAll(SgPageList(prps.sg[..prps.dmaMappedPgs]));
    }
  }

  // ---------------------------------------------------------------------------------
  // Properties of the mapping
  // ---------------------------------------------------------------------------------

  /** The pages a successful mapping records in its list are exactly the pages it pinned, in order. */
  lemma MappedPagesArePinned(bufAddr: u64, bufLen: u32, bus: nat -> u64)
    ensures SgPageList(MappedSg(bufAddr, bufLen, bus)) == PageSeq(FirstPage(bufAddr), PageSpan(bufAddr, bufLen))
  {
  }

  /**
   * For a buffer of at most S32_MAX bytes, the mapped list has as many entries as pages
   * spanned, every entry's bus length is its length (between 1 and PAGE_SIZE), the bus
   * lengths add up to the buffer length, and each bus address is its page's bus address
   * plus the in-page offset: the buffer offset for the first entry, 0 after it.
   */
  lemma MappedSgShape(bufAddr: u64, bufLen: u32, bus: nat -> u64)
    requires 1 <= bufLen <= S32_MAX
    ensures var sg := MappedSg(bufAddr, bufLen, bus);
      |sg| == DivRoundUp(OffsetInPage(bufAddr) + bufLen, PAGE_SIZE) && |sg| >= 1 &&
      SumDmaLen(sg) == bufLen &&
      (forall i :: 0 <= i < |sg| ==> sg[i].dmaLength == sg[i].length && 1 <= sg[i].length <= PAGE_SIZE) &&
      (forall i :: 0 <= i < |sg| ==> sg[i].offset == OffAt(i, OffsetInPage(bufAddr))) &&
      (forall i :: 0 <= i < |sg| ==>
        sg[i].dmaAddress == AddrAdd(bus(FirstPage(bufAddr) + i), OffAt(i, OffsetInPage(bufAddr)))) &&
      (forall i :: 0 <= i < |sg| - 1 ==> sg[i].offset + sg[i].length == PAGE_SIZE)
  {
    var off := OffsetInPage(bufAddr);
    var ps := PageSeq(FirstPage(bufAddr), PageSpan(bufAddr, bufLen));
    SgTableCovers(ps, off, bufLen);
    var t := SgTable(ps, off, bufLen);
    var sg := MappedSg(bufAddr, bufLen, bus);
    SumDmaLenOfMap(t, bus);
  }

  lemma {:induction false} SumDmaLenOfMap(t: seq<SgEntry>, bus: nat -> u64)
    ensures SumDmaLen(DmaMap(t, bus)) == SumLength(t)
    decreases |t|
  {
    if t != [] {
      assert DmaMap(t, bus)[1..] == DmaMap(t[1..], bus);
      SumDmaLenOfMap(t[1..], bus);
    }
  }
}
