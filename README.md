# Block cache of the JOS file server, in Dafny

The file server of JOS (`fs/bc.c`) keeps the whole disk in a fixed window of
its address space, starting at `DISKMAP`. Block `b` always sits at
`DISKMAP + b * BLKSIZE`. The window is filled lazily. The first touch of an
absent page faults, and the handler `bc_pgfault` allocates the page and reads
the block's `BLKSECTS` sectors from the NVMe device into it. The page table is
the cache index: a block is cached exactly when its page is present, and it
is written back when the page's hardware dirty bit is set. Any store sets that
bit, including the one the handler itself makes at fs/bc.c:46. `flush_block`
writes a present dirty page back to its sectors. It then maps the page onto
itself with its own permissions, which clears the dirty bit. `diskaddr` turns a
block number into its address and refuses block 0 and any block past the
superblock's count. `check_bc` is the self-test that `bc_init` runs. It smashes
block 1, flushes it, unmaps it, faults it back in, compares, and restores it.

The project has these parts:

- `types.dfy`: bytes, `Option`, and the reasons for a panic (`Fatal`).
- `geometry.dfy`: the layout constants as a `Config`. It assumes only what the
  cache relies on:
  - `BLKSIZE = BLKSECTS * sector size`;
  - `DISKSIZE` and `DISKMAP` are multiples of `BLKSIZE`;
  - the window holds at least two blocks;
  - `struct Super` fits in a block.

  It also holds the window arithmetic (`InWindow`, `BlockOf`, `RoundDown`) and
  `DiskAddr`.
- `nvme.dfy`: the device as a flat byte sequence, read and written in whole
  sectors with a success status. A transfer past the end of the device is an
  error.
- `cache_spec.dfy`: the cache as a state machine over values. It has:
  - the state: device bytes, present pages by block number, and the
    superblock's block count (`None` while `super` is null);
  - one step function per syscall or transfer `fs/bc.c` uses;
  - `PageFault` and `FlushBlock` composed from those steps;
  - the properties of all of these.
  A panic is an explicit outcome (`Panic(reason)`). The state returned with it
  is the state at the point where the code stopped.
- `block_cache.dfy`: the self-test as a function, `SelfTest`, and its
  properties. It also has the class `Cache`, whose fields `disk`, `pages` and
  `nblocks` the methods update in place. Each method is proved equal to its
  step or operation in `CacheSpec`. `CheckBc` proves the assertions of
  `check_bc` at fs/bc.c:97, 98 and 105 for every run that reaches them. The one
  at fs/bc.c:102 fails exactly when `sys_unmap_region`, whose status the code
  ignores, fails. The model checks it and reports the panic as an outcome.

Three behaviours of the code are kept as written, although a reader of its
comments might expect otherwise:

- Right after a successful fault, the page is dirty, not clean. The store
  `*(char *)addr = 0` at fs/bc.c:46 sets the dirty bit, and the device read
  does not clear it. So a flush right after a fault writes the block back.
  `CacheSpec.FaultThenFlushKeepsDisk` proves that this write leaves the device
  unchanged.
- `flush_block` accepts block 0 (fs/bc.c:69). `bc_pgfault` does not refuse it
  for being block 0, but with a known count of 0 it refuses every block,
  block 0 included (fs/bc.c:28). `diskaddr` always refuses block 0.
- `bc_init` copies block 1 into a local `struct Super super`, which shadows the
  global (fs/bc.c:116, 121). So `bc_init` never sets the block count that
  fs/bc.c:8, 28 and 69 test. In the model, `nblocks` is set only from outside,
  by `Cache.SetSuper`, and `Cache.Init` proves it unchanged.

## Model

| member | source | states |
|---|---|---|
| Geometry.DiskAddr | fs/bc.c:6-15 | Succeeds iff `b != 0` and, once the count is known, `b < nblocks`. Then it returns exactly `DISKMAP + b*BLKSIZE`, which is block-aligned, maps back to block `b`, and lies in the window iff `b` is one of the window's blocks. |
| Geometry.InWindow | fs/bc.c:25 | An address is in the disk map region iff `DISKMAP <= addr < DISKMAP + DISKSIZE`, the test of fs/bc.c:25 and 67. |
| Geometry.BlockOf | fs/bc.c:22 | The block number `(addr - DISKMAP) / BLKSIZE` is the block whose bytes in the window include `addr`: `DISKMAP + b*BLKSIZE <= addr < DISKMAP + (b+1)*BLKSIZE`. |
| Geometry.RoundDown | fs/bc.c:35 | `ROUNDDOWN(addr, BLKSIZE)` is a multiple of `BLKSIZE`, at most `addr`, and less than `BLKSIZE` below it. |
| Geometry.DiskAddrBounds | fs/bc.c:8-9 | With count `k` known, exactly the blocks `1 <= b < k` have an address. Blocks `0` and `k` are refused; block `k-1` gets its fixed address. |
| Geometry.DiskAddrBeforeSuper | fs/bc.c:8 | Before the superblock is known, only block 0 is refused. |
| Geometry.BlockAddrInverse | fs/bc.c:10 | A block's base address is aligned and maps back to its block number. It lies in the window iff the block is one the window shows. |
| Geometry.RoundDownIsBlockAddr | fs/bc.c:22-35 | For an address in the window, `ROUNDDOWN(addr, BLKSIZE)` is the base address of the computed block number. That block is inside the window. The rounded address is in the window, at most `BLKSIZE-1` below `addr`, and has the same block number. Rounding is idempotent. |
| Nvme.ReadSectors | fs/bc.c:48 | Succeeds iff the status is OK and the sectors lie on the device. It then returns `count*sectSize` bytes equal to the device's bytes from `sector*sectSize`. |
| Nvme.WriteSectors | fs/bc.c:75 | Succeeds iff the status is OK and the sectors lie on the device. Afterwards the device has the same length, the data sits at `sector*sectSize`, and every byte outside the range is unchanged. |
| Nvme.ReadAfterWrite | fs/bc.c:75 | Reading the sectors just written returns exactly the data written. |
| Nvme.ReadDisjointFromWrite | fs/bc.c:75 | A write leaves every sector range that does not overlap it reading as before. |
| Nvme.WriteBackWhatWasRead | fs/bc.c:48 | Writing back exactly what a read returned leaves the device unchanged. |
| CacheSpec.DiskBlockBytes | fs/bc.c:48 | Block `b` read at sector `b*BLKSECTS` exists iff the device has `(b+1)*BLKSIZE` bytes. It is then the bytes `b*BLKSIZE .. (b+1)*BLKSIZE`. |
| CacheSpec.DiskBlock | fs/bc.c:48 | Block `b` on the device is what reading `BLKSECTS` sectors from sector `b*BLKSECTS` returns. Its bytes are stated by `DiskBlockBytes`. |
| CacheSpec.IsPresent | fs/bc.c:73 | `is_page_present` of an address in the region: the page of its block is mapped. |
| CacheSpec.IsDirty | fs/bc.c:73 | `is_page_dirty` of an address in the region: the page of its block is mapped and its dirty bit is set. An absent page is not dirty. |
| CacheSpec.PageQueriesRoundDown | fs/bc.c:72-73 | Presence and dirtiness answer for a whole page: any address gives the same answer as its rounded-down base. |
| CacheSpec.Load | fs/bc.c:92 | `n` bytes read at `va` from a present page: byte `i` is the page's byte at the offset of `va` plus `i`. |
| CacheSpec.DisjointBlocks | fs/bc.c:48 | Distinct blocks occupy disjoint sector ranges. |
| CacheSpec.AllocRegion | fs/bc.c:36 | A fresh page of zeros replaces the one at `va`, present and clean. Every other page, the device and the count are unchanged. |
| CacheSpec.Write | fs/bc.c:46 | A store into a present page reads back as the stored data and sets the dirty bit. The page's other bytes and permissions are kept. The set of present pages, every other page and the device are unchanged. |
| CacheSpec.Unmap | fs/bc.c:101 | The page at `va` is no longer present; every other page and the device are unchanged. |
| CacheSpec.DeviceRead | fs/bc.c:48 | Succeeds iff the device read does. The page then holds the sectors read, with its dirty bit and permissions kept. Nothing else changes. |
| CacheSpec.DeviceWrite | fs/bc.c:75 | Succeeds iff the status is OK and the sectors lie on the device. The new device is `Nvme.WriteSectors` of the page's bytes at those sectors: same length, the page's bytes in those sectors, every other byte as before. The sectors read back as the page's bytes, and memory is untouched. |
| CacheSpec.ClearDirty | fs/bc.c:78 | Re-mapping keeps the page present with the same bytes and permissions, now clean. Every other page and the device are unchanged. |
| CacheSpec.WriteBlock | fs/bc.c:75 | Writing a whole block succeeds iff the device holds that block. |
| CacheSpec.WriteBlockFrame | fs/bc.c:75 | A whole-block write keeps the device length and makes block `b` read as the data. Every other block reads as before. |
| CacheSpec.PageFault | fs/bc.c:19-53 | Outside the window: not handled, state unchanged. Inside it: panics "non-existent block" iff the count is known and `blockno >= nblocks`. Succeeds iff the block is in range, allocation succeeds, the read succeeds and the device holds the block. On success the page at `ROUNDDOWN(addr)` holds exactly the block's sectors, carries PROT_RW and is dirty. The device and every other page are unchanged. Every other panic either leaves the state unchanged or, for a failed read, touches no other page. |
| CacheSpec.FlushBlock | fs/bc.c:62-83 | Outside the window: panic. A nonzero block `>= nblocks` panics; block 0 does not. An absent or clean page: nothing changes. A dirty page succeeds iff the write and the remap succeed and the device holds the block. After success the page is not dirty and is otherwise as before. The set of present pages and every other page are unchanged. |
| CacheSpec.Access | fs/bc.c:92 | Touching a present page changes nothing. Touching an absent page gives exactly the outcome and state of `PageFault`. After success the page is present; the device and the count are unchanged. |
| CacheSpec.FlushDisk | fs/bc.c:73-77 | If a flush changes the device, the page was dirty and its bytes were written as that block. |
| CacheSpec.FlushDiskFrame | fs/bc.c:72-83 | Whatever its outcome, a flush keeps the device length and changes no block but its own. If it changes that block, it writes the dirty page's bytes there. |
| CacheSpec.FlushWritesBack | fs/bc.c:75-82 | A successful flush of a dirty page writes the page's bytes to the block's own sectors, the ones loading reads. Every other block is left alone. The page stays present with the same bytes and permissions, and clean. |
| CacheSpec.FlushIdempotent | fs/bc.c:73-74 | A second flush right after a successful one succeeds and changes nothing, whatever the collaborators would return. |
| CacheSpec.FaultThenFlushKeepsDisk | fs/bc.c:46-48 | After a successful fault the page is dirty. A successful flush then leaves the device as it was, and the page present, clean and equal to the block. |
| CacheSpec.RoundTrip | fs/bc.c:94-105 | Store a pattern, flush, unmap, fault again. After a successful flush the page is present and not dirty. The reload succeeds iff allocation and the read succeed and the block is in range. It then reads back the pattern and the whole page as it was before the flush. |
| CacheSpec.BlockZeroAccepted | fs/bc.c:69 | For an address in block 0, unless the known count is 0, `diskaddr(0)` fails while neither the fault handler nor flush reports block 0 as non-existent. |
| CacheSpec.StepKeepsCoherence | fs/bc.c:55-61 | Every step keeps a clean present page equal to its block on the device. The steps are a fault, a flush, a store, an unmap and setting the count, and the property holds whatever the outcome, panics included. |
| BlockCache.SelfTest | fs/bc.c:87-112 | The self-test keeps the state well formed and the block count unchanged. |
| BlockCache.SelfTestPassesIff | fs/bc.c:87-112 | The self-test passes iff `diskaddr(1)` succeeds, every collaborator succeeds (the unmap included) and the device holds block 1. |
| BlockCache.SelfTestCatchesFailedUnmap | fs/bc.c:101-102 | When only `sys_unmap_region` fails, the self-test stops with the panic of the assertion that block 1 is no longer present. |
| BlockCache.AccessBlock1 | fs/bc.c:92 | A successful touch of block 1 shows what the region showed for it and moves nothing else. |
| BlockCache.StoreAndFlushBlock1 | fs/bc.c:95-98 | After storing into block 1 and flushing successfully, the page is present and clean, holds the stored bytes, and the device holds them too. Nothing else moved. |
| BlockCache.WriteAtBlockStart | fs/bc.c:95 | A store at a block's start replaces the page's first bytes and keeps the rest. |
| BlockCache.SmashUndone | fs/bc.c:108 | Copying back the `sizeof(struct Super)` bytes saved before the smash restores block 1's page exactly, given the smashed string fits in `struct Super`. |
| BlockCache.RoundFrame | fs/bc.c:94-96 | A touch, store and flush of block 1 moves nothing else on the device or in the region. |
| BlockCache.UnmapFrame | fs/bc.c:101 | Unmapping block 1 moves nothing else. |
| BlockCache.SelfTestFrame | fs/bc.c:87-112 | A passing self-test changes no other block on the device and no other page. |
| BlockCache.SelfTestRestores | fs/bc.c:107-109 | After a passing self-test, block 1 is present and clean, and the device holds its page. Nothing else moved. When `struct Super` covers the smashed string, block 1 reads as it did before the test. |
| BlockCache.Cache.SetSuper | fs/bc.c:8 | The global `super` gets a block count; nothing else changes. |
| BlockCache.Cache.constructor | fs/bc.c:8 | A fresh cache: the device as given, no page mapped, and `super` null (no block count known). |
| BlockCache.Cache.IsPagePresent | fs/bc.c:97 | `is_page_present` on the object's state, as `CacheSpec.IsPresent`. |
| BlockCache.Cache.IsPageDirty | fs/bc.c:98 | `is_page_dirty` on the object's state, as `CacheSpec.IsDirty`. |
| BlockCache.Cache.Memory | fs/bc.c:105 | Memory read at `va` in the object's state, as `CacheSpec.Load`. |
| BlockCache.Cache.AllocRegion | fs/bc.c:36-38 | Reports the syscall's status. The new state is `CacheSpec.AllocRegion` on success and unchanged otherwise. |
| BlockCache.Cache.Store | fs/bc.c:46 | The new state is `CacheSpec.Write`. |
| BlockCache.Cache.Unmap | fs/bc.c:101 | Reports the syscall's status. The new state is `CacheSpec.Unmap` on success and unchanged otherwise. |
| BlockCache.Cache.NvmeRead | fs/bc.c:48-50 | Reports whether the read succeeded. The new state is `CacheSpec.DeviceRead` on success and unchanged otherwise. |
| BlockCache.Cache.NvmeWrite | fs/bc.c:75-77 | Reports whether the write succeeded. The new state is `CacheSpec.DeviceWrite` on success and unchanged otherwise. |
| BlockCache.Cache.RemapSelf | fs/bc.c:78-80 | Reports the syscall's status. The new state is `CacheSpec.ClearDirty` on success and unchanged otherwise. |
| BlockCache.Cache.PageFault | fs/bc.c:19-53 | Outcome and new state are those of `CacheSpec.PageFault`. |
| BlockCache.Cache.FlushBlock | fs/bc.c:62-83 | Outcome and new state are those of `CacheSpec.FlushBlock`. After success the page is not dirty (fs/bc.c:82). |
| BlockCache.Cache.Touch | fs/bc.c:92 | Outcome and new state are those of `CacheSpec.Access`. |
| BlockCache.Cache.CheckBc | fs/bc.c:87-112 | Outcome and new state are those of `SelfTest`. The assertions at fs/bc.c:97, 98 and 105 hold on every run that reaches them. The one at fs/bc.c:102 is checked after the unmap, whose status is ignored as in the code. |
| BlockCache.Cache.Init | fs/bc.c:114-122 | Outcome and new state are those of the self-test; the final read of block 1 changes nothing. The global block count is unchanged. |

## Left out

- `kern/kdebug.c` is not part of this model. It is debug-symbol lookup over raw ELF and DWARF data and code not shown.
- The NVMe driver and the kernel's syscalls are not modelled inside. Each is one step on the model state. Its success or failure comes from `Env`: `sys_alloc_region`, `nvme_read`, `nvme_write`, `sys_map_region` and `sys_unmap_region` each have one status there.
- `Env` holds one status per collaborator for a whole run, not one per call. So a `check_bc` run whose first `nvme_write` succeeds and whose second fails cannot be represented. No proved property depends on per-call statuses.
- The ASAN unpoisoning (fs/bc.c:11-13), `add_pgfault_handler`, and the `cprintf` at fs/bc.c:111 have no effect on the cache state.
- Exact permission bits (`PTE_SYSCALL & get_prot`) are not modelled. The model keeps a page's permissions as an opaque number, which re-mapping leaves unchanged.
- The store at fs/bc.c:46 exists because lazy allocation aliases the shared zero page under DMA. The model has no physical pages and no aliasing. It keeps only the store's effect: one byte stored and the dirty bit set.
- Addresses, block numbers and sizes are unbounded integers. A 32- or 64-bit wrap-around in `blockno * BLKSIZE` or `blockno * BLKSECTS` is not modelled.
- The block cache runs in one sequential environment; concurrency is not modelled.
- `sys_unmap_region(0, diskaddr(1), PAGE_SIZE)` is modelled as unmapping one block. This takes `BLKSIZE == PAGE_SIZE` and envid 0 as the current environment.
- `DISKMAP` is taken to be a multiple of `BLKSIZE`. Without that, `ROUNDDOWN(addr, BLKSIZE)` is not a block's base address.
- A device transfer past the end of the device is treated as a failed transfer.
- A failed `nvme_read` or `nvme_write` is taken to transfer nothing, so partial transfers are not modelled. `FlushDisk` and `FlushDiskFrame` rely on this when they conclude that a changed device holds the whole page.
- The superblock's fields other than the block count are not modelled. `struct Super` appears only through its size.
- BlockCache.Cache.CheckBc: requires `BLKSIZE >= 7`, so that `strcpy` of `"OOPS!\n"` and its NUL stays inside block 1's page. The source does not check this.
- BlockCache.SelfTestRestores: states that block 1 reads as before only when `sizeof(struct Super) >= 7`. With a smaller `struct Super`, the copy-back at fs/bc.c:108 would not undo the whole smash.
- BlockCache.SelfTest: its own contract states only well-formedness and the unchanged count. What it promises is stated by `SelfTestPassesIff`, `SelfTestFrame` and `SelfTestRestores`.
