/** Value types shared by the block-cache model. */
module Types {
  /** One byte of memory or of the device. */
  newtype byte = x: int | 0 <= x < 256

  datatype Option<T> = None | Some(value: T)

  /** The reasons for which fs/bc.c calls `panic`: each ends the environment. */
  datatype Fatal =
    | BadBlockNumber     // diskaddr: block 0, or a block past the superblock's count
    | NonexistentBlock   // bc_pgfault / flush_block: block past the superblock's count
    | AllocFailed        // bc_pgfault: sys_alloc_region returned an error
    | ReadFailed         // bc_pgfault: the device read failed
    | BadVa              // flush_block: address outside the disk map region
    | WriteFailed        // flush_block: the device write failed
    | ClearDirtyFailed   // flush_block: sys_map_region returned an error
    | StillMapped        // check_bc: block 1 still present after sys_unmap_region
}
