/**
 * Result codes and integer widths of the SQLite C interface that the
 * tracking VFS uses.  Integers are unbounded in Dafny; the ranges of the C
 * types appear here as subset types and limits, and every wrap-around the
 * model depends on is written out where it happens.
 */
module Sqlite {

  /** SQLITE_OK: the call succeeded. */
  const SqliteOk: int := 0
  /** SQLITE_ERROR: generic error. */
  const SqliteError: int := 1
  /** SQLITE_NOMEM: a memory allocation failed. */
  const SqliteNoMem: int := 7

  /** 2^32, the number of values of a uint32_t. */
  const U32Limit: int := 0x1_0000_0000
  /** UINT32_MAX. */
  const U32Max: int := 0xFFFF_FFFF
  /** INT64_MAX, the largest sqlite3_int64. */
  const I64Max: int := 0x7FFF_FFFF_FFFF_FFFF

  type u32 = x: int | 0 <= x < 0x1_0000_0000
  type i32 = x: int | -0x8000_0000 <= x < 0x8000_0000
  type i64 = x: int | -0x8000_0000_0000_0000 <= x < 0x8000_0000_0000_0000

  /** A value that the C code represents by a pointer that may be NULL. */
  datatype Option<+T> = None | Some(value: T)
}
