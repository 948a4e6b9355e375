/**
 * The RAM-backed sector device of src/main.cpp: a fixed 128 KiB byte store
 * served to FatFs as 512-byte sectors, with a one-shot zero fill on the first
 * initialisation and bounds-checked sector copies.
 */
module RamDevice {
  import opened FatFsTypes

  /** FF_MAX_SS: the sector size agreed with FatFs (ffconf.h). */
  const SS: nat := 512

  /** sizeof(fatfs_ram_buf) */
  const STORE_SIZE: nat := 128 * 1024

  /** The number of sectors the store holds. */
  const SECTOR_COUNT: nat := STORE_SIZE / SS

  /** The store is a whole number of sectors: 256 of them. */
  lemma Geometry()
    ensures SS > 0 && STORE_SIZE % SS == 0
    ensures SECTOR_COUNT * SS == STORE_SIZE && SECTOR_COUNT == 256
  {
  }

  /**
   * The bounds check of RAM_disk_read and RAM_disk_write: the byte range of
   * `count` sectors from `sector` ends inside the store, which is the same as
   * the sectors all existing.
   */
  predicate InRange(sector: nat, count: nat): (ok: bool)
    ensures ok <==> sector + count <= SECTOR_COUNT
    ensures ok && count > 0 ==> sector < SECTOR_COUNT
  {
    sector * SS + count * SS <= STORE_SIZE
  }

  /** The status code RAM_disk_read and RAM_disk_write return for a request. */
  function TransferResult(sector: nat, count: nat): (r: DResult)
    ensures r == ResOk <==> sector + count <= SECTOR_COUNT
    ensures r == ResOk || r == ResError
  {
    if sector * SS + count * SS > STORE_SIZE then ResError else ResOk
  }

  /** A run of `n` zero bytes. */
  function Zeros(n: nat): (z: seq<byte>)
    ensures |z| == n && forall k :: 0 <= k < n ==> z[k] == 0
  {
    seq(n, _ => 0)
  }

  /** `s` with the bytes from offset `off` on replaced by `data`. */
  function Overwrite(s: seq<byte>, off: nat, data: seq<byte>): (r: seq<byte>)
    requires off + |data| <= |s|
    ensures |r| == |s|
    ensures forall k :: 0 <= k < off ==> r[k] == s[k]
    ensures forall k :: off <= k < off + |data| ==> r[k] == data[k - off]
    ensures forall k :: off + |data| <= k < |s| ==> r[k] == s[k]
  {
    s[..off] + data + s[off + |data|..]
  }

  /** The bytes of sectors [sector, sector + count) of store contents `s`. */
  function Sectors(s: seq<byte>, sector: nat, count: nat): (r: seq<byte>)
    requires |s| == STORE_SIZE && InRange(sector, count)
    ensures |r| == count * SS
    ensures forall k :: 0 <= k < count * SS ==> r[k] == s[sector * SS + k]
  {
    s[sector * SS..sector * SS + count * SS]
  }

  /** Reading back the sectors just written gives exactly the bytes written. */
  lemma WriteReadRoundTrip(s: seq<byte>, sector: nat, count: nat, data: seq<byte>)
    requires |s| == STORE_SIZE && InRange(sector, count) && |data| == count * SS
    ensures Sectors(Overwrite(s, sector * SS, data), sector, count) == data
  {
  }

  /** Writing some sectors leaves every sector outside them as it was. */
  lemma DisjointSectorsUnaffected(s: seq<byte>, sector: nat, count: nat, data: seq<byte>,
                                  other: nat, otherCount: nat)
    requires |s| == STORE_SIZE && InRange(sector, count) && |data| == count * SS
    requires InRange(other, otherCount)
    requires other + otherCount <= sector || sector + count <= other
    ensures Sectors(Overwrite(s, sector * SS, data), other, otherCount) == Sectors(s, other, otherCount)
  {
  }

  /** RAM_disk_status: the memory is always present and writable, so the drive is always ready. */
  function RamDiskStatus(): (s: DStatus)
    ensures !HasFlag(s, STA_NOINIT) && !HasFlag(s, STA_NODISK) && !HasFlag(s, STA_PROTECT)
    ensures s == STATUS_OK
  {
    STATUS_OK
  }

  /** The status code RAM_disk_ioctl returns for control code `cmd`. */
  function IoctlCode(cmd: byte): (r: DResult)
    ensures r == ResOk <==> cmd == CTRL_SYNC || cmd == GET_SECTOR_COUNT || cmd == GET_BLOCK_SIZE
    ensures r != ResOk ==> r == ResParErr
  {
    match cmd
    case 0 => ResOk       // CTRL_SYNC
    case 1 => ResOk       // GET_SECTOR_COUNT
    case 3 => ResOk       // GET_BLOCK_SIZE
    case _ => ResParErr
  }

  /** memset(a, value, a.Length) */
  method Fill(a: array<byte>, value: byte)
    modifies a
    ensures a[..] == seq(a.Length, _ => value)
  {
    for i := 0 to a.Length
      invariant forall k :: 0 <= k < i ==> a[k] == value
    {
      a[i] := value;
    }
  }

  /** memcpy(dst + dstOff, src + srcOff, n) between two distinct arrays. */
  method Memcpy(dst: array<byte>, dstOff: nat, src: array<byte>, srcOff: nat, n: nat)
    requires dst != src
    requires dstOff + n <= dst.Length && srcOff + n <= src.Length
    modifies dst
    ensures dst[..] == Overwrite(old(dst[..]), dstOff, src[srcOff..srcOff + n])
  {
    for i := 0 to n
      invariant forall k :: 0 <= k < dst.Length ==>
        dst[k] == if dstOff <= k < dstOff + i then src[srcOff + k - dstOff] else old(dst[k])
    {
      dst[dstOff + i] := src[srcOff + i];
    }
    ghost var r := Overwrite(old(dst[..]), dstOff, src[srcOff..srcOff + n]);
    assert forall k :: 0 <= k < dst.Length ==> dst[k] == r[k];
  }

  /**
   * The device context: the store fatfs_ram_buf and the two flags
   * ram_initted and fs_is_ready.
   */
  class RamDisk {
    /** fatfs_ram_buf: allocated once, never resized. */
    const store: array<byte>
    /** ram_initted: whether the one-shot zero fill has happened. */
    var ramInitted: bool
    /** fs_is_ready: whether the USB host may use the disk. */
    var fsIsReady: bool

    predicate Valid()
    {
      store.Length == STORE_SIZE
    }

    /** Program start: static storage is zero, both flags are false. */
    constructor ()
      ensures Valid() && fresh(store)
      ensures store[..] == Zeros(STORE_SIZE)
      ensures !ramInitted && !fsIsReady
    {
      store := new byte[STORE_SIZE](_ => 0);
      ramInitted, fsIsReady := false, false;
    }

    /**
     * RAM_disk_initialize: zero-fill the store on the first call only, so data
     * written after the first call survives later calls. Always succeeds.
     */
    method Initialize() returns (s: DStatus)
      requires Valid()
      modifies this`ramInitted, store
      ensures s == STATUS_OK && ramInitted
      ensures store[..] == if old(ramInitted) then old(store[..]) else Zeros(STORE_SIZE)
      ensures fsIsReady == old(fsIsReady)
    {
      if !ramInitted {
        Fill(store, 0);
        ramInitted := true;
      }
      s := STATUS_OK;
    }

    /**
     * RAM_disk_read: copy `count` sectors from `sector` into `buff`, or fail
     * with RES_ERROR, copying nothing, when they run past the store.
     */
    method Read(buff: array<byte>, sector: nat, count: nat) returns (r: DResult)
      requires Valid() && buff != store
      requires InRange(sector, count) ==> count * SS <= buff.Length
      modifies buff
      ensures r == TransferResult(sector, count)
      ensures r == ResOk ==> buff[..] == Overwrite(old(buff[..]), 0, Sectors(store[..], sector, count))
      ensures r != ResOk ==> buff[..] == old(buff[..])
    {
      var sourceAddr := sector * SS;
      var readAmount := count * SS;
      if sourceAddr + readAmount > STORE_SIZE {
        return ResError;
      }
      Memcpy(buff, 0, store, sourceAddr, readAmount);
      return ResOk;
    }

    /**
     * RAM_disk_write: copy `count` sectors from `buff` into the store at
     * `sector`, or fail with RES_ERROR, writing nothing, when they run past
     * the store.
     */
    method Write(buff: array<byte>, sector: nat, count: nat) returns (r: DResult)
      requires Valid() && buff != store
      requires InRange(sector, count) ==> count * SS <= buff.Length
      modifies store
      ensures r == TransferResult(sector, count)
      ensures r == ResOk ==> store[..] == Overwrite(old(store[..]), sector * SS, buff[..count * SS])
      ensures r != ResOk ==> store[..] == old(store[..])
    {
      var targetAddr := sector * SS;
      var writeAmount := count * SS;
      if targetAddr + writeAmount > STORE_SIZE {
        return ResError;
      }
      Memcpy(store, targetAddr, buff, 0, writeAmount);
      return ResOk;
    }

    /**
     * RAM_disk_ioctl: CTRL_SYNC has nothing to flush; GET_SECTOR_COUNT and
     * GET_BLOCK_SIZE write the sector count and an erase block of 1 sector
     * through the DWORD out-pointer `buff`; every other code is refused.
     */
    method Ioctl(cmd: byte, buff: array?<uint32>) returns (r: DResult)
      requires cmd == GET_SECTOR_COUNT || cmd == GET_BLOCK_SIZE ==> buff != null && buff.Length >= 1
      modifies buff
      ensures r == IoctlCode(cmd)
      ensures cmd == GET_SECTOR_COUNT ==> buff[0] as nat == SECTOR_COUNT
      ensures cmd == GET_BLOCK_SIZE ==> buff[0] == 1
      ensures cmd == GET_SECTOR_COUNT || cmd == GET_BLOCK_SIZE ==> buff[1..] == old(buff[1..])
      ensures cmd != GET_SECTOR_COUNT && cmd != GET_BLOCK_SIZE && buff != null ==> buff[..] == old(buff[..])
    {
      r := IoctlCode(cmd);
      if cmd == GET_SECTOR_COUNT {
        buff[0] := (STORE_SIZE / SS) as uint32;
      } else if cmd == GET_BLOCK_SIZE {
        buff[0] := 1;
      }
    }

    /** The effect of setup() this model keeps: the filesystem is ready for the host. */
    method MarkReady()
      modifies this`fsIsReady
      ensures fsIsReady && ramInitted == old(ramInitted)
    {
      fsIsReady := true;
    }
  }
}
