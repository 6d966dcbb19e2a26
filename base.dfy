/** Machine integer widths, page geometry and the Linux error numbers the driver returns. */
module Base {
  type u8 = x: int | 0 <= x < 0x100
  type u16 = x: int | 0 <= x < 0x1_0000
  type u32 = x: int | 0 <= x < 0x1_0000_0000
  type u64 = x: int | 0 <= x < 0x1_0000_0000_0000_0000

  const U16_LIMIT: int := 0x1_0000
  const U32_LIMIT: int := 0x1_0000_0000
  const U64_LIMIT: int := 0x1_0000_0000_0000_0000
  const S32_MAX: int := 0x7FFF_FFFF

  datatype Option<T> = None | Some(value: T)

  /** Host page geometry (x86, 4 KiB pages). */
  const PAGE_SIZE: nat := 4096
  /** Size of one PRP entry (an __le64), section 4.3 of NVM Express 1.0. */
  const PRP_SIZE: nat := 8
  /** Number of PRP entries in one page of a PRP list. */
  const PRP_SLOTS: nat := 512
  /** Index of the last entry of a PRP-list page; it chains to the next page. */
  const LAST_PRP: nat := 511

  /** Driver success code and positive Linux errno values (the driver returns their negation). */
  const SUCCESS: int := 0
  const EPERM: int := 1
  const ENOMEM: int := 12
  const EFAULT: int := 14
  const ENODEV: int := 19
  const EINVAL: int := 22
  const EBADSLT: int := 57
  const EOPNOTSUPP: int := 95

  function Min(a: int, b: int): int { if a <= b then a else b }

  /** DIV_ROUND_UP for a positive divisor: the least multiple count covering n. */
  function DivRoundUp(n: nat, d: nat): (r: nat)
    requires d > 0
    ensures r * d >= n
    ensures r > 0 ==> (r - 1) * d < n
  {
    (n + d - 1) / d
  }

  /** offset_in_page for 4 KiB pages. */
  function OffsetInPage(a: u64): (r: nat)
    ensures r < PAGE_SIZE
    ensures (a - r) % PAGE_SIZE == 0
  {
    a % PAGE_SIZE
  }

  /** dma_addr_t addition: 64-bit, wrapping. */
  function AddrAdd(a: u64, k: int): (r: u64)
    ensures 0 <= a + k < U64_LIMIT ==> r == a + k
  {
    (a + k) % U64_LIMIT
  }

  /** Division with remainder is unique: x == q * W + r with 0 <= r < W fixes both. */
  lemma DivMod(x: int, W: int, q: int, r: int)
    requires W > 0 && 0 <= r < W && x == q * W + r
    ensures x % W == r && x / W == q
  {
    var q', r' := x / W, x % W;
    assert x == q' * W + r';
    assert (q - q') * W == r' - r;
    MulSign(q - q', W);
  }

  /** A nonzero multiple of W is at least W away from 0. */
  lemma MulSign(a: int, W: int)
    requires W >= 0
    ensures a >= 1 ==> a * W >= W
    ensures a <= -1 ==> a * W <= -W
  {
    assert a * W == (a - 1) * W + W;
    assert a * W == (a + 1) * W - W;
  }
}
