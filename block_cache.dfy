/**
 * The block cache of fs/bc.c as an object whose fields the operations update
 * in place: the device contents, the pages present in the disk map region
 * (the page table is the cache index), and the block count of the global
 * superblock.  Every method is tied to the step or operation of CacheSpec
 * that specifies it; the properties of those are proved there.
 */
module BlockCache {
  import opened Types
  import opened Geometry
  import opened CacheSpec

  /** The string check_bc writes over block 1: "OOPS!\n" and its NUL. */
  const Oops: seq<byte> := [79, 79, 80, 83, 33, 10, 0]

  /**
   * check_bc can pass: block 1 has an address, every collaborator succeeds,
   * and the device holds block 1.
   */
  predicate SelfTestCanPass(c: Config, s: CacheSpec.State, env: Env)
    requires c.Valid()
  {
    && DiskAddr(c, s.nblocks, 1).Some?
    && env.allocOk && env.readOk && env.writeOk && env.mapOk && env.unmapOk
    && DiskBlock(c, s.disk, 1).Some?
  }

  /** Nothing on the device or in the region moved except block 1. */
  ghost predicate OnlyBlock1Moved(c: Config, s0: CacheSpec.State, s1: CacheSpec.State)
    requires c.Valid()
  {
    && (forall b :: b != 1 ==> DiskBlock(c, s1.disk, b) == DiskBlock(c, s0.disk, b))
    && s1.pages.Keys - {1} == s0.pages.Keys - {1}
    && (forall b :: b != 1 && b in s0.pages ==> b in s1.pages && s1.pages[b] == s0.pages[b])
  }

  lemma OnlyBlock1MovedTrans(c: Config, s0: CacheSpec.State, s1: CacheSpec.State, s2: CacheSpec.State)
    requires c.Valid() && OnlyBlock1Moved(c, s0, s1) && OnlyBlock1Moved(c, s1, s2)
    ensures OnlyBlock1Moved(c, s0, s2)
  {
    forall b | b != 1 && b in s0.pages ensures b in s2.pages && s2.pages[b] == s0.pages[b] {
      assert b in s0.pages.Keys - {1};
    }
  }

  /**
   * After a passing self-test: block 1 is present and clean, the device
   * holds its page, and nothing else on the device or in the region moved.
   * When struct Super covers the smashed string, block 1 shows again what
   * it showed before.
   */
  ghost predicate SelfTestRestored(c: Config, s0: CacheSpec.State, s1: CacheSpec.State)
    requires c.Valid()
  {
    && 1 in s1.pages && !s1.pages[1].dirty
    && DiskBlock(c, s1.disk, 1) == Some(s1.pages[1].bytes)
    && (|Oops| <= c.superSize ==> CachedView(c, s0, 1) == Some(s1.pages[1].bytes))
    && OnlyBlock1Moved(c, s0, s1)
  }

  /**
   * check_bc (fs/bc.c:87-112) on values: back up block 1, smash it with
   * "OOPS!\n", flush, unmap, touch it again, restore the backup and flush.
   * It stops at the first panic; a failed unmap is caught by the assertion
   * that block 1 is no longer present.
   */
  function SelfTest(c: Config, s: CacheSpec.State, env: Env): (res: (Outcome, CacheSpec.State))
    requires WellFormed(c, s) && |Oops| <= c.blkSize
    ensures WellFormed(c, res.1) && res.1.nblocks == s.nblocks
  {
    SuperblockInWindow(c);
    match DiskAddr(c, s.nblocks, 1)
    case None => (Panic(BadBlockNumber), s)
    case Some(addr) =>
      var t1 := Access(c, s, addr, env);
      if t1.0 != Done then t1
      else
        var backup := Load(c, t1.1, addr, c.superSize);
        var t3 := FlushBlock(c, Write(c, t1.1, addr, Oops), addr, env);
        if t3.0 != Done then t3
        else
          var s4 := if env.unmapOk then Unmap(c, t3.1, addr) else t3.1;
          if IsPresent(c, s4, addr) then (Panic(StillMapped), s4)
          else
            var t5 := Access(c, s4, addr, env);
            if t5.0 != Done then t5
            else FlushBlock(c, Write(c, t5.1, addr, backup), addr, env)
  }

  /**
   * The self-test passes exactly when block 1 has an address, every
   * collaborator succeeds and the device holds block 1; whether block 1
   * was cached beforehand does not matter.
   */
  lemma SelfTestPassesIff(c: Config, s: CacheSpec.State, env: Env)
    requires WellFormed(c, s) && |Oops| <= c.blkSize
    ensures SelfTest(c, s, env).0 == Done <==> SelfTestCanPass(c, s, env)
  {
    SuperblockInWindow(c);
    var a := DiskAddr(c, s.nblocks, 1);
    if a.Some? {
      var addr := a.value;
      assert BlockOf(c, addr) == 1 && Offset(c, addr) == 0;
      var (r1, s1) := Access(c, s, addr, env);
      if r1 == Done {
        var backup := Load(c, s1, addr, c.superSize);
        var s2 := Write(c, s1, addr, Oops);
        var (r3, s3) := FlushBlock(c, s2, addr, env);
        assert IsDirty(c, s2, addr);
        if r3 == Done {
          FlushDiskFrame(c, s2, addr, env);
          assert IsPresent(c, s3, addr);
          var s4 := if env.unmapOk then Unmap(c, s3, addr) else s3;
          assert |s4.disk| == |s.disk|;
          var (r5, s5) := Access(c, s4, addr, env);
          if r5 == Done {
            var s6 := Write(c, s5, addr, backup);
            assert IsDirty(c, s6, addr) && |s6.disk| == |s.disk|;
          }
        }
      }
    }
  }

  /**
   * When everything else succeeds but sys_unmap_region fails, check_bc
   * stops at its assertion that block 1 is no longer present.
   */
  lemma SelfTestCatchesFailedUnmap(c: Config, s: CacheSpec.State, env: Env)
    requires WellFormed(c, s) && |Oops| <= c.blkSize
    requires DiskAddr(c, s.nblocks, 1).Some? && DiskBlock(c, s.disk, 1).Some?
    requires env.allocOk && env.readOk && env.writeOk && env.mapOk && !env.unmapOk
    ensures SelfTest(c, s, env).0 == Panic(StillMapped)
  {
    SuperblockInWindow(c);
    var addr := DiskAddr(c, s.nblocks, 1).value;
    var s1 := Access(c, s, addr, env).1;
    var s2 := Write(c, s1, addr, Oops);
    assert IsDirty(c, s2, addr);
    FlushDiskFrame(c, s2, addr, env);
    assert IsPresent(c, FlushBlock(c, s2, addr, env).1, addr);
  }

  /** A successful access to block 1 shows what the region showed for it, and moves nothing else. */
  lemma AccessBlock1(c: Config, s: CacheSpec.State, addr: nat, env: Env)
    requires WellFormed(c, s) && InWindow(c, addr) && BlockOf(c, addr) == 1
    requires Access(c, s, addr, env).0 == Done
    ensures var s' := Access(c, s, addr, env).1;
            && 1 in s'.pages && CachedView(c, s, 1) == Some(s'.pages[1].bytes)
            && OnlyBlock1Moved(c, s, s')
  {
  }

  /** Storing into block 1 and flushing it successfully moves nothing else. */
  lemma StoreAndFlushBlock1(c: Config, s: CacheSpec.State, addr: nat, data: seq<byte>, env: Env)
    requires WellFormed(c, s) && InWindow(c, addr) && BlockOf(c, addr) == 1 && IsPresent(c, s, addr)
    requires Offset(c, addr) + |data| <= c.blkSize
    requires FlushBlock(c, Write(c, s, addr, data), addr, env).0 == Done
    ensures var s1 := Write(c, s, addr, data);
            var s2 := FlushBlock(c, s1, addr, env).1;
            && 1 in s2.pages && !s2.pages[1].dirty
            && s2.pages[1].bytes == s1.pages[1].bytes
            && DiskBlock(c, s2.disk, 1) == Some(s1.pages[1].bytes)
            && OnlyBlock1Moved(c, s, s2)
  {
    var s1 := Write(c, s, addr, data);
    FlushWritesBack(c, s1, addr, env);
    var s2 := FlushBlock(c, s1, addr, env).1;
    assert OnlyBlock1Moved(c, s1, s2);
    OnlyBlock1MovedTrans(c, s, s1, s2);
  }

  /** A store at the start of a page replaces its first bytes and keeps the rest. */
  lemma WriteAtBlockStart(c: Config, s: CacheSpec.State, addr: nat, data: seq<byte>)
    requires WellFormed(c, s) && InWindow(c, addr) && IsPresent(c, s, addr)
    requires Offset(c, addr) == 0 && |data| <= c.blkSize
    ensures var b := BlockOf(c, addr);
            Write(c, s, addr, data).pages[b].bytes == data + s.pages[b].bytes[|data|..]
  {
  }

  /**
   * Smashing block 1 with "OOPS!\n" and then putting back the first
   * sizeof(struct Super) bytes saved before gives block 1 back as it was.
   */
  lemma SmashUndone(c: Config, s1: CacheSpec.State, s5: CacheSpec.State, addr: nat)
    requires WellFormed(c, s1) && WellFormed(c, s5) && InWindow(c, addr) && BlockOf(c, addr) == 1
    requires Offset(c, addr) == 0 && |Oops| <= c.superSize
    requires IsPresent(c, s1, addr) && IsPresent(c, s5, addr)
    requires s5.pages[1].bytes == Write(c, s1, addr, Oops).pages[1].bytes
    ensures Write(c, s5, addr, Load(c, s1, addr, c.superSize)).pages[1].bytes == s1.pages[1].bytes
  {
    var orig := s1.pages[1].bytes;
    var k := c.superSize;
    WriteAtBlockStart(c, s1, addr, Oops);
    WriteAtBlockStart(c, s5, addr, Load(c, s1, addr, k));
    assert Load(c, s1, addr, k) == orig[..k];
    assert (Oops + orig[|Oops|..])[k..] == orig[k..];
    assert orig[..k] + orig[k..] == orig;
  }

  /** The stages of a passing self-test, one state after each. */
  lemma SelfTestStages(c: Config, s: CacheSpec.State, env: Env)
    returns (addr: nat, s1: CacheSpec.State, s3: CacheSpec.State, s5: CacheSpec.State, s7: CacheSpec.State)
    requires WellFormed(c, s) && |Oops| <= c.blkSize
    requires SelfTest(c, s, env).0 == Done
    ensures c.superSize <= c.blkSize
    ensures InWindow(c, addr) && BlockOf(c, addr) == 1 && Offset(c, addr) == 0
    ensures Access(c, s, addr, env) == (Done, s1) && WellFormed(c, s1) && IsPresent(c, s1, addr)
    ensures FlushBlock(c, Write(c, s1, addr, Oops), addr, env) == (Done, s3) && WellFormed(c, s3)
    ensures Access(c, Unmap(c, s3, addr), addr, env) == (Done, s5) && WellFormed(c, s5) && IsPresent(c, s5, addr)
    ensures FlushBlock(c, Write(c, s5, addr, Load(c, s1, addr, c.superSize)), addr, env) == (Done, s7)
    ensures env.unmapOk && SelfTest(c, s, env).1 == s7
  {
    SuperblockInWindow(c);
    addr := DiskAddr(c, s.nblocks, 1).value;
    s1 := Access(c, s, addr, env).1;
    s3 := FlushBlock(c, Write(c, s1, addr, Oops), addr, env).1;
    s5 := Access(c, Unmap(c, s3, addr), addr, env).1;
    s7 := FlushBlock(c, Write(c, s5, addr, Load(c, s1, addr, c.superSize)), addr, env).1;
  }

  /** Touching block 1, storing into it and flushing it moves nothing else. */
  lemma RoundFrame(c: Config, s: CacheSpec.State, addr: nat, data: seq<byte>, env: Env)
    requires WellFormed(c, s) && InWindow(c, addr) && BlockOf(c, addr) == 1
    requires Access(c, s, addr, env).0 == Done && Offset(c, addr) + |data| <= c.blkSize
    requires FlushBlock(c, Write(c, Access(c, s, addr, env).1, addr, data), addr, env).0 == Done
    ensures OnlyBlock1Moved(c, s, FlushBlock(c, Write(c, Access(c, s, addr, env).1, addr, data), addr, env).1)
  {
    var s1 := Access(c, s, addr, env).1;
    AccessBlock1(c, s, addr, env);
    StoreAndFlushBlock1(c, s1, addr, data, env);
    OnlyBlock1MovedTrans(c, s, s1, FlushBlock(c, Write(c, s1, addr, data), addr, env).1);
  }

  /** Unmapping block 1 moves nothing else. */
  lemma UnmapFrame(c: Config, s: CacheSpec.State, addr: nat)
    requires WellFormed(c, s) && InWindow(c, addr) && BlockOf(c, addr) == 1
    ensures OnlyBlock1Moved(c, s, Unmap(c, s, addr))
  {
  }

  /** A passing self-test moves nothing on the device or in the region but block 1. */
  lemma SelfTestFrame(c: Config, s: CacheSpec.State, env: Env)
    requires WellFormed(c, s) && |Oops| <= c.blkSize
    requires SelfTest(c, s, env).0 == Done
    ensures OnlyBlock1Moved(c, s, SelfTest(c, s, env).1)
  {
    var addr, s1, s3, s5, s7 := SelfTestStages(c, s, env);
    var s4 := Unmap(c, s3, addr);
    RoundFrame(c, s, addr, Oops, env);
    UnmapFrame(c, s3, addr);
    OnlyBlock1MovedTrans(c, s, s3, s4);
    RoundFrame(c, s4, addr, Load(c, s1, addr, c.superSize), env);
    OnlyBlock1MovedTrans(c, s, s4, s7);
  }

  /** A passing self-test leaves block 1 cached, clean and restored, and all else as it was. */
  lemma SelfTestRestores(c: Config, s: CacheSpec.State, env: Env)
    requires WellFormed(c, s) && |Oops| <= c.blkSize
    requires SelfTest(c, s, env).0 == Done
    ensures SelfTestRestored(c, s, SelfTest(c, s, env).1)
  {
    SelfTestFrame(c, s, env);
    var addr, s1, s3, s5, s7 := SelfTestStages(c, s, env);
    AccessBlock1(c, s, addr, env);
    StoreAndFlushBlock1(c, s1, addr, Oops, env);
    AccessBlock1(c, Unmap(c, s3, addr), addr, env);
    StoreAndFlushBlock1(c, s5, addr, Load(c, s1, addr, c.superSize), env);
    if |Oops| <= c.superSize {
      SmashUndone(c, s1, s5, addr);
    }
  }

  class Cache {
    const cfg: Config
    var disk: seq<byte>
    var pages: map<nat, Page>
    var nblocks: Option<nat>

    /** The object's state as a CacheSpec value. */
    function Model(): CacheSpec.State
      reads this
    {
      CacheSpec.State(disk, pages, nblocks)
    }

    ghost predicate Valid()
      reads this
    {
      WellFormed(cfg, Model())
    }

    /** Every block unmapped, the superblock not yet known. */
    constructor (cfg: Config, disk: seq<byte>)
      requires cfg.Valid()
      ensures Valid() && this.cfg == cfg
      ensures this.disk == disk && pages == map[] && nblocks == None
    {
      this.cfg := cfg;
      this.disk := disk;
      pages := map[];
      nblocks := None;
    }

    /** The global `super` gets a block count (it is assigned outside fs/bc.c). */
    method SetSuper(count: nat)
      requires Valid()
      modifies this
      ensures Valid() && Model() == old(Model()).(nblocks := Some(count))
    {
      nblocks := Some(count);
    }

    /** is_page_present */
    predicate IsPagePresent(va: nat)
      reads this
      requires Valid() && InWindow(cfg, va)
    {
      IsPresent(cfg, Model(), va)
    }

    /** is_page_dirty */
    predicate IsPageDirty(va: nat)
      reads this
      requires Valid() && InWindow(cfg, va)
    {
      IsDirty(cfg, Model(), va)
    }

    /** `n` bytes of memory at `va`, inside a present page. */
    function Memory(va: nat, n: nat): seq<byte>
      reads this
      requires Valid() && InWindow(cfg, va) && IsPresent(cfg, Model(), va)
      requires Offset(cfg, va) + n <= cfg.blkSize
    {
      Load(cfg, Model(), va, n)
    }

    // -------------------------------------------------------------------
    // The collaborators: syscalls, device transfers, CPU stores.
    // -------------------------------------------------------------------

    /** sys_alloc_region(CURENVID, va, BLKSIZE, PROT_RW); `status` is its result. */
    method AllocRegion(va: nat, status: bool) returns (ok: bool)
      requires Valid() && InWindow(cfg, va)
      modifies this
      ensures Valid() && ok == status
      ensures Model() == if ok then CacheSpec.AllocRegion(cfg, old(Model()), va) else old(Model())
    {
      ok := status;
      if ok {
        RoundDownIsBlockAddr(cfg, va);
        pages := pages[BlockOf(cfg, va) := Page(Zeros(cfg.blkSize), false, cfg.protRW)];
      }
    }

    /** A CPU store of `data` at `va` into a present page. */
    method Store(va: nat, data: seq<byte>)
      requires Valid() && InWindow(cfg, va) && IsPresent(cfg, Model(), va)
      requires Offset(cfg, va) + |data| <= cfg.blkSize
      modifies this
      ensures Valid() && Model() == CacheSpec.Write(cfg, old(Model()), va, data)
    {
      var b, off := BlockOf(cfg, va), Offset(cfg, va);
      var p := pages[b];
      pages := pages[b := Page(p.bytes[..off] + data + p.bytes[off + |data|..], true, p.prot)];
    }

    /** sys_unmap_region of the page at `va`; `status` is its result. */
    method Unmap(va: nat, status: bool) returns (ok: bool)
      requires Valid() && InWindow(cfg, va)
      modifies this
      ensures Valid() && ok == status
      ensures Model() == if ok then CacheSpec.Unmap(cfg, old(Model()), va) else old(Model())
    {
      ok := status;
      if ok {
        pages := pages - {BlockOf(cfg, va)};
      }
    }

    /** nvme_read(sector, va, count); `status` is the driver's status. */
    method NvmeRead(sector: nat, va: nat, count: nat, status: bool) returns (ok: bool)
      requires Valid() && InWindow(cfg, va) && IsPresent(cfg, Model(), va) && count == cfg.blkSects
      modifies this
      ensures Valid()
      ensures ok == DeviceRead(cfg, old(Model()), sector, va, count, status).Some?
      ensures Model() == if ok then DeviceRead(cfg, old(Model()), sector, va, count, status).value else old(Model())
    {
      var data := Nvme.ReadSectors(disk, cfg.sectSize, sector, count, status);
      ok := data.Some?;
      if ok {
        var b := BlockOf(cfg, va);
        pages := pages[b := pages[b].(bytes := data.value)];
      }
    }

    /** nvme_write(sector, va, count); `status` is the driver's status. */
    method NvmeWrite(sector: nat, va: nat, count: nat, status: bool) returns (ok: bool)
      requires Valid() && InWindow(cfg, va) && IsPresent(cfg, Model(), va) && count == cfg.blkSects
      modifies this
      ensures Valid()
      ensures ok == DeviceWrite(cfg, old(Model()), sector, va, count, status).Some?
      ensures Model() == if ok then DeviceWrite(cfg, old(Model()), sector, va, count, status).value else old(Model())
    {
      var d := Nvme.WriteSectors(disk, cfg.sectSize, sector, count, pages[BlockOf(cfg, va)].bytes, status);
      ok := d.Some?;
      if ok {
        disk := d.value;
      }
    }

    /** sys_map_region of the page at `va` onto itself with its own permissions. */
    method RemapSelf(va: nat, status: bool) returns (ok: bool)
      requires Valid() && InWindow(cfg, va) && IsPresent(cfg, Model(), va)
      modifies this
      ensures Valid() && ok == status
      ensures Model() == if ok then ClearDirty(cfg, old(Model()), va) else old(Model())
    {
      ok := status;
      if ok {
        var b := BlockOf(cfg, va);
        pages := pages[b := pages[b].(dirty := false)];
      }
    }

    // -------------------------------------------------------------------
    // The operations of fs/bc.c.
    // -------------------------------------------------------------------

    /** bc_pgfault (fs/bc.c:19-53). */
    method PageFault(addr: nat, env: Env) returns (r: Outcome)
      requires Valid()
      modifies this
      ensures Valid() && (r, Model()) == CacheSpec.PageFault(cfg, old(Model()), addr, env)
    {
      if addr < cfg.diskMap || addr >= cfg.diskMap + cfg.diskSize {
        return NotMine;
      }
      var blockno := BlockOf(cfg, addr);
      if nblocks.Some? && blockno >= nblocks.value {
        return Panic(NonexistentBlock);
      }
      RoundDownIsBlockAddr(cfg, addr);
      var va := RoundDown(cfg, addr);
      var ok := AllocRegion(va, env.allocOk);
      if !ok {
        return Panic(AllocFailed);
      }
      Store(va, [0]);
      SectorOffset(cfg, blockno);
      ok := NvmeRead(blockno * cfg.blkSects, va, cfg.blkSects, env.readOk);
      if !ok {
        return Panic(ReadFailed);
      }
      return Done;
    }

    /** flush_block (fs/bc.c:62-83). */
    method FlushBlock(addr: nat, env: Env) returns (r: Outcome)
      requires Valid()
      modifies this
      ensures Valid() && (r, Model()) == CacheSpec.FlushBlock(cfg, old(Model()), addr, env)
      ensures r == Done ==> InWindow(cfg, addr) && !IsDirty(cfg, Model(), addr)
    {
      if addr < cfg.diskMap || addr >= cfg.diskMap + cfg.diskSize {
        return Panic(BadVa);
      }
      var blockno := BlockOf(cfg, addr);
      if blockno != 0 && nblocks.Some? && blockno >= nblocks.value {
        return Panic(NonexistentBlock);
      }
      RoundDownIsBlockAddr(cfg, addr);
      var va := RoundDown(cfg, addr);
      if !IsPagePresent(va) || !IsPageDirty(va) {
        return Done;
      }
      SectorOffset(cfg, blockno);
      var ok := NvmeWrite(blockno * cfg.blkSects, va, cfg.blkSects, env.writeOk);
      if !ok {
        return Panic(WriteFailed);
      }
      ok := RemapSelf(va, env.mapOk);
      if !ok {
        return Panic(ClearDirtyFailed);
      }
      assert !IsPageDirty(va);
      return Done;
    }

    /** An access to `addr` in the region (see CacheSpec.Access). */
    method Touch(addr: nat, env: Env) returns (r: Outcome)
      requires Valid() && InWindow(cfg, addr)
      modifies this
      ensures Valid() && (r, Model()) == Access(cfg, old(Model()), addr, env)
    {
      if IsPagePresent(addr) {
        return Done;
      }
      r := PageFault(addr, env);
    }

    /**
     * check_bc (fs/bc.c:87-112): back up block 1, smash it, flush, unmap,
     * fault it in again, compare, restore and flush.  The assertions at
     * fs/bc.c:97, 98 and 105 are the `assert` statements below, proved for
     * every run that gets there; the one at fs/bc.c:102 fails when the unmap
     * does, so it is a check with a panic outcome.
     */
    method CheckBc(env: Env) returns (r: Outcome)
      requires Valid() && |Oops| <= cfg.blkSize
      modifies this
      ensures Valid() && (r, Model()) == SelfTest(cfg, old(Model()), env)
    {
      SuperblockInWindow(cfg);
      // Every diskaddr(1) in check_bc gives this value: nothing here sets `super`.
      var a := DiskAddr(cfg, nblocks, 1);
      if a.None? {
        return Panic(BadBlockNumber);
      }
      var addr := a.value;

      // fs/bc.c:92: copy the first sizeof(struct Super) bytes of block 1
      r := Touch(addr, env);
      if r != Done {
        return;
      }
      var backup := Memory(addr, cfg.superSize);

      // fs/bc.c:95-98: overwrite them with the test string and flush
      Store(addr, Oops);
      ghost var s2 := Model();
      r := FlushBlock(addr, env);
      if r != Done {
        return;
      }
      assert IsPagePresent(addr);
      assert !IsPageDirty(addr);

      // fs/bc.c:101-102: drop the page; the unmap's status is not looked at
      var unmapped := Unmap(addr, env.unmapOk);
      if IsPagePresent(addr) {
        return Panic(StillMapped);
      }

      // fs/bc.c:105: touching block 1 faults it in from the device
      r := Touch(addr, env);
      if r != Done {
        return;
      }
      FlushWritesBack(cfg, s2, addr, env);
      assert Memory(addr, |Oops|) == Oops;

      // fs/bc.c:108-109: put the saved bytes back and flush
      Store(addr, backup);
      r := FlushBlock(addr, env);
    }

    /**
     * bc_init (fs/bc.c:114-122) after the handler is registered: the
     * self-test, then one read of block 1.  That read goes into a local
     * `struct Super` that shadows the global, so the block count stays
     * what it was.
     */
    method Init(env: Env) returns (r: Outcome)
      requires Valid() && |Oops| <= cfg.blkSize
      modifies this
      ensures Valid() && nblocks == old(nblocks)
      ensures (r, Model()) == SelfTest(cfg, old(Model()), env)
    {
      r := CheckBc(env);
      if r != Done {
        return;
      }
      SelfTestRestores(cfg, old(Model()), env);
      // fs/bc.c:121: one read of block 1, into a local that is then dropped
      var a := DiskAddr(cfg, nblocks, 1);
      r := Touch(a.value, env);
      var super := Memory(a.value, cfg.superSize);
    }
  }
}
