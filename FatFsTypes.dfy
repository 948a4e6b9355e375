/**
 * Integer types and result codes shared by the FatFs disk-I/O layer, the RAM
 * disk and the USB mass-storage callbacks.  The numeric values follow the
 * FatFs R0.15 headers (diskio.h, ff.h).
 */
module FatFsTypes {

  /** BYTE / uint8_t */
  newtype byte = x: int | 0 <= x < 0x100

  /** DWORD / uint32_t / LBA_t */
  newtype uint32 = x: int | 0 <= x < 0x1_0000_0000

  /** int32_t */
  newtype int32 = x: int | -0x8000_0000 <= x < 0x8000_0000

  /**
   * The conversion a C compiler for a two's-complement target performs when a
   * uint32_t is returned from a function declared to return int32_t: values
   * from 2^31 upwards wrap to negative numbers.
   */
  function AsInt32(x: uint32): (r: int32)
    ensures (r as int - x as int) % 0x1_0000_0000 == 0
    ensures x < 0x8000_0000 ==> r as int == x as int
    ensures x >= 0x8000_0000 ==> r < 0
  {
    if x < 0x8000_0000 then x as int as int32 else (x as int - 0x1_0000_0000) as int32
  }

  /** DRESULT: the result of a sector read, write or control request. */
  datatype DResult =
    | ResOk       // RES_OK: successful
    | ResError    // RES_ERROR: R/W error
    | ResWrPrt    // RES_WRPRT: write protected
    | ResNotRdy   // RES_NOTRDY: not ready
    | ResParErr   // RES_PARERR: invalid parameter

  /** DSTATUS: a byte of drive status flags; 0 means the drive is usable. */
  type DStatus = byte

  const STA_NOINIT: DStatus := 0x01   // drive not initialised
  const STA_NODISK: DStatus := 0x02   // no medium in the drive
  const STA_PROTECT: DStatus := 0x04  // write protected

  /** Whether status `s` has the (single-bit) flag `flag` set. */
  predicate HasFlag(s: DStatus, flag: DStatus)
    requires flag == STA_NOINIT || flag == STA_NODISK || flag == STA_PROTECT
  {
    (s as int / flag as int) % 2 == 1
  }

  /** The status code RES_OK (0) read as a DSTATUS: no flag set. */
  const STATUS_OK: DStatus := 0x00

  /** Generic control codes of disk_ioctl. */
  const CTRL_SYNC: byte := 0
  const GET_SECTOR_COUNT: byte := 1
  const GET_SECTOR_SIZE: byte := 2
  const GET_BLOCK_SIZE: byte := 3
}
