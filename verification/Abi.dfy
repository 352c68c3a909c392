/** Constants shared by the kernel and user space, and the 64-bit word type. */
module Abi {

  const TWO_48: int := 0x1_0000_0000_0000
  const TWO_64: int := 0x1_0000_0000_0000_0000

  /** A `u64`. */
  type Word = x: int | 0 <= x < 0x1_0000_0000_0000_0000

  /** Offset of the higher-half alias of physical memory. */
  const KERNEL_VA_OFFSET: int := 0xFFFF_0000_0000_0000

  datatype Option<+T> = None | Some(value: T)

  datatype Result<+T, +E> = Ok(value: T) | Err(error: E)

  // System call numbers (register x8).
  const SYS_DEBUG_PUTC := 0
  const SYS_YIELD := 1
  const SYS_EXIT := 2
  const SYS_RETYPE := 3
  const SYS_MAP := 4
  const SYS_TCB_CONFIGURE := 5
  const SYS_TCB_RESUME := 6
  const SYS_SEND := 7
  const SYS_RECV := 8
  const SYS_CALL := 9
  const SYS_REPLY_RECV := 10

  // Error codes (negative i64 values, returned as u64 in x0).
  const BAD_SLOT := -1
  const NOT_UNTYPED := -2
  const EXHAUSTED := -3
  const OUT_OF_SLOTS := -4
  const BAD_TYPE := -5
  const BAD_VA := -6
  const BAD_PERM := -7
  const ALREADY_MAPPED := -8
  const MISSING_TABLE := -9
  const OVERLAP := -10
  const KERNEL_RESOURCE := -11
  const BAD_CAP := -12
  const BAD_STATE := -13
  const WOULD_BLOCK := -14
  const NO_REPLY := -15

  // Object types for RETYPE and permissions for MAP.
  const OBJ_FRAME := 1
  const OBJ_PAGE_TABLE := 2
  const OBJ_TCB := 3
  const OBJ_ENDPOINT := 4
  const PERM_RO := 0
  const PERM_RW := 1

  /** The `i64 as u64` cast. */
  function AsWord(e: int): Word
    requires -0x8000_0000_0000_0000 <= e < 0x8000_0000_0000_0000
  {
    if e < 0 then e + 0x1_0000_0000_0000_0000 else e
  }
}
