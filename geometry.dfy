/**
 * The disk map region: the whole disk is shown in a fixed virtual window,
 * block `b` always at `diskMap + b * blkSize`.  The layout constants are
 * fields of a `Config`, constrained only as the block cache relies on them.
 */
module Geometry {
  import opened Types

  /**
   * DISKMAP, DISKSIZE, BLKSIZE, BLKSECTS, the device's sector size,
   * sizeof(struct Super) and the PROT_RW permission given to fresh pages.
   */
  datatype Config = Config(
    diskMap: nat, diskSize: nat, blkSize: nat, blkSects: nat,
    sectSize: nat, superSize: nat, protRW: nat)
  {
    predicate Valid() {
      && sectSize > 0 && blkSects > 0
      && blkSize == blkSects * sectSize
      && diskSize % blkSize == 0
      && diskMap % blkSize == 0          // the window starts on a block boundary
      && 2 * blkSize <= diskSize         // it holds the boot block and the superblock
      && superSize <= blkSize            // struct Super fits in block 1
    }

    /** Number of blocks the window can show. */
    function WindowBlocks(): nat
      requires Valid()
    {
      diskSize / blkSize
    }
  }

  /** `DISKMAP <= addr < DISKMAP + DISKSIZE` (fs/bc.c:25, 67). */
  predicate InWindow(c: Config, addr: nat) {
    c.diskMap <= addr < c.diskMap + c.diskSize
  }

  /**
   * `(addr - DISKMAP) / BLKSIZE` (fs/bc.c:22, 64): the block whose bytes in
   * the window include `addr`.
   */
  function BlockOf(c: Config, addr: nat): (b: nat)
    requires c.Valid() && c.diskMap <= addr
    ensures c.diskMap + b * c.blkSize <= addr < c.diskMap + b * c.blkSize + c.blkSize
  {
    var o := addr - c.diskMap;
    assert o == (o / c.blkSize) * c.blkSize + o % c.blkSize;
    o / c.blkSize
  }

  /**
   * `ROUNDDOWN(addr, BLKSIZE)` (fs/bc.c:35, 72): the largest multiple of
   * BLKSIZE that is not above `addr`.
   */
  function RoundDown(c: Config, addr: nat): (r: nat)
    requires c.Valid()
    ensures r <= addr < r + c.blkSize && r % c.blkSize == 0
  {
    DivModUnique(addr - addr % c.blkSize, c.blkSize, addr / c.blkSize, 0);
    addr - addr % c.blkSize
  }

  /** Euclidean division has exactly one quotient and remainder. */
  lemma DivModUnique(n: int, d: int, q: int, r: int)
    requires d > 0 && n == q * d + r && 0 <= r < d
    ensures n / d == q && n % d == r
  {
    var k := q - n / d;
    assert k * d == n % d - r;
    MulLess(k, 1, d);
    MulLess(-1, k, d);
  }

  /** Multiplication by a positive number keeps order. */
  lemma MulLess(a: int, b: int, d: int)
    requires d > 0
    ensures a < b <==> a * d < b * d
  {
    if a < b {
      assert b * d - a * d == (b - a) * d;
    } else {
      assert a * d - b * d == (a - b) * d;
    }
  }

  /** The address block `b` sits at, whether or not diskaddr would accept `b`. */
  function BlockAddr(c: Config, b: nat): nat
    requires c.Valid()
  {
    c.diskMap + b * c.blkSize
  }

  /** The block base address is aligned, and its block number is `b`. */
  lemma BlockAddrInverse(c: Config, b: nat)
    requires c.Valid()
    ensures RoundDown(c, BlockAddr(c, b)) == BlockAddr(c, b)
    ensures BlockOf(c, BlockAddr(c, b)) == b
    ensures InWindow(c, BlockAddr(c, b)) <==> b < c.WindowBlocks()
  {
    var m := c.diskMap / c.blkSize;
    DivModUnique(BlockAddr(c, b), c.blkSize, m + b, 0);
    DivModUnique(b * c.blkSize, c.blkSize, b, 0);
    DivModUnique(c.diskSize, c.blkSize, c.WindowBlocks(), 0);
    MulLess(b, c.WindowBlocks(), c.blkSize);
  }

  /**
   * Any address in the window rounds down to the base address of the block
   * number computed from it, and that block number is inside the window
   * (fs/bc.c:22, 35).
   */
  lemma {:induction false} RoundDownIsBlockAddr(c: Config, addr: nat)
    requires c.Valid() && InWindow(c, addr)
    ensures BlockOf(c, addr) < c.WindowBlocks()
    ensures RoundDown(c, addr) == BlockAddr(c, BlockOf(c, addr))
    ensures addr - RoundDown(c, addr) < c.blkSize
    ensures InWindow(c, RoundDown(c, addr)) && RoundDown(c, addr) <= addr
    ensures BlockOf(c, RoundDown(c, addr)) == BlockOf(c, addr)
    ensures RoundDown(c, RoundDown(c, addr)) == RoundDown(c, addr)
  {
    var o := addr - c.diskMap;
    var b := BlockOf(c, addr);
    var m := c.diskMap / c.blkSize;
    assert o == b * c.blkSize + o % c.blkSize;
    assert addr == (m + b) * c.blkSize + o % c.blkSize;
    DivModUnique(addr, c.blkSize, m + b, o % c.blkSize);
    BlockAddrInverse(c, b);
    MulLess(b, c.WindowBlocks(), c.blkSize);
    DivModUnique(c.diskSize, c.blkSize, c.WindowBlocks(), 0);
  }

  /**
   * diskaddr (fs/bc.c:6-15): block 0 is refused, and so is any block at or
   * past the superblock's count once that count is known (`None` is the
   * panic).  Otherwise the result is the block's fixed address: aligned,
   * in the region's numbering, and mapped back to `b`.
   */
  function DiskAddr(c: Config, nblocks: Option<nat>, b: nat): (r: Option<nat>)
    requires c.Valid()
    ensures r.Some? <==> b != 0 && (nblocks.None? || b < nblocks.value)
    ensures r.Some? ==> r.value == c.diskMap + b * c.blkSize
    ensures r.Some? ==> RoundDown(c, r.value) == r.value && c.diskMap <= r.value
    ensures r.Some? ==> BlockOf(c, r.value) == b
    ensures r.Some? ==> (InWindow(c, r.value) <==> b < c.WindowBlocks())
  {
    if b == 0 || (nblocks.Some? && b >= nblocks.value) then None
    else
      BlockAddrInverse(c, b);
      Some(BlockAddr(c, b))
  }

  /**
   * Once the superblock's count `k` is known, exactly the blocks 1 .. k-1
   * have addresses: block 0 and block k are refused, block k-1 is not.
   */
  lemma DiskAddrBounds(c: Config, k: nat, b: nat)
    requires c.Valid()
    ensures DiskAddr(c, Some(k), b).Some? <==> 1 <= b < k
    ensures k >= 2 ==> DiskAddr(c, Some(k), k - 1) == Some(BlockAddr(c, k - 1))
    ensures DiskAddr(c, Some(k), k).None? && DiskAddr(c, Some(k), 0).None?
  {
  }

  /** Before the superblock is known, only block 0 is refused (fs/bc.c:8). */
  lemma DiskAddrBeforeSuper(c: Config, b: nat)
    requires c.Valid()
    ensures DiskAddr(c, None, b).Some? <==> b != 0
  {
  }

  /** The window shows at least blocks 0 and 1. */
  lemma SuperblockInWindow(c: Config)
    requires c.Valid()
    ensures c.WindowBlocks() >= 2
  {
    DivModUnique(c.diskSize, c.blkSize, c.WindowBlocks(), 0);
    MulLess(c.WindowBlocks(), 2, c.blkSize);
  }

  /** The sector offset used for block `b` lands on the block's first byte. */
  lemma SectorOffset(c: Config, b: nat)
    requires c.Valid()
    ensures b * c.blkSects * c.sectSize == b * c.blkSize
    ensures (b * c.blkSects + c.blkSects) * c.sectSize == (b + 1) * c.blkSize
  {
  }
}
