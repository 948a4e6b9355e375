/**
 * The FatFs disk-I/O glue of lib/FatFs/src/ff15/diskio.cpp: each entry point
 * switches on the physical drive number, hands drive 0 to the RAM disk and
 * answers every other drive with a fixed error (the MMC and USB branches are
 * compiled out).
 */
module DiskIo {
  import opened FatFsTypes
  import opened RamDevice

  /**
   * The physical drive number of the RAM disk. The MMC (1) and USB (2) drives
   * are compiled out, so they fall through to the fixed error like any other.
   */
  const DEV_RAM: byte := 0

  /** disk_status */
  function DiskStatus(pdrv: byte): (s: DStatus)
    ensures pdrv == DEV_RAM ==> s == RamDiskStatus()
    ensures pdrv != DEV_RAM ==> s == STA_NOINIT
    ensures HasFlag(s, STA_NOINIT) <==> pdrv != DEV_RAM
  {
    match pdrv
    case 0 => RamDiskStatus()
    case _ => STA_NOINIT
  }

  /** disk_initialize: drive 0 runs the RAM disk's one-shot zero fill; others touch nothing. */
  method DiskInitialize(d: RamDisk, pdrv: byte) returns (s: DStatus)
    requires d.Valid()
    modifies d`ramInitted, d.store
    ensures pdrv == DEV_RAM ==> s == STATUS_OK && d.ramInitted
    ensures pdrv == DEV_RAM ==>
      d.store[..] == if old(d.ramInitted) then old(d.store[..]) else Zeros(STORE_SIZE)
    ensures pdrv != DEV_RAM ==> s == STA_NOINIT
    ensures pdrv != DEV_RAM ==> d.ramInitted == old(d.ramInitted) && d.store[..] == old(d.store[..])
    ensures d.fsIsReady == old(d.fsIsReady)
  {
    match pdrv
    case 0 => s := d.Initialize();
    case _ => s := STA_NOINIT;
  }

  /** disk_read: drive 0 reads the RAM disk; others fail with RES_PARERR and leave `buff` alone. */
  method DiskRead(d: RamDisk, pdrv: byte, buff: array<byte>, sector: nat, count: nat) returns (r: DResult)
    requires d.Valid()
    requires pdrv == DEV_RAM ==> buff != d.store && (InRange(sector, count) ==> count * SS <= buff.Length)
    modifies buff
    ensures pdrv == DEV_RAM ==> r == TransferResult(sector, count)
    ensures pdrv == DEV_RAM && r == ResOk ==>
      buff[..] == Overwrite(old(buff[..]), 0, Sectors(d.store[..], sector, count))
    ensures pdrv != DEV_RAM ==> r == ResParErr
    ensures r != ResOk ==> buff[..] == old(buff[..])
  {
    match pdrv
    case 0 => r := d.Read(buff, sector, count);
    case _ => r := ResParErr;
  }

  /** disk_write: drive 0 writes the RAM disk; others fail with RES_PARERR and leave the store alone. */
  method DiskWrite(d: RamDisk, pdrv: byte, buff: array<byte>, sector: nat, count: nat) returns (r: DResult)
    requires d.Valid()
    requires pdrv == DEV_RAM ==> buff != d.store && (InRange(sector, count) ==> count * SS <= buff.Length)
    modifies d.store
    ensures pdrv == DEV_RAM ==> r == TransferResult(sector, count)
    ensures pdrv == DEV_RAM && r == ResOk ==>
      d.store[..] == Overwrite(old(d.store[..]), sector * SS, buff[..count * SS])
    ensures pdrv != DEV_RAM ==> r == ResParErr
    ensures r != ResOk ==> d.store[..] == old(d.store[..])
  {
    match pdrv
    case 0 => r := d.Write(buff, sector, count);
    case _ => r := ResParErr;
  }

  /** disk_ioctl: drive 0 answers as the RAM disk; others fail with RES_PARERR and write nothing. */
  method DiskIoctl(d: RamDisk, pdrv: byte, cmd: byte, buff: array?<uint32>) returns (r: DResult)
    requires pdrv == DEV_RAM && (cmd == GET_SECTOR_COUNT || cmd == GET_BLOCK_SIZE) ==>
      buff != null && buff.Length >= 1
    modifies buff
    ensures pdrv == DEV_RAM ==> r == IoctlCode(cmd)
    ensures pdrv == DEV_RAM && cmd == GET_SECTOR_COUNT ==> buff[0] as nat == SECTOR_COUNT
    ensures pdrv == DEV_RAM && cmd == GET_BLOCK_SIZE ==> buff[0] == 1
    ensures pdrv == DEV_RAM && (cmd == GET_SECTOR_COUNT || cmd == GET_BLOCK_SIZE) ==>
      buff[1..] == old(buff[1..])
    ensures pdrv != DEV_RAM ==> r == ResParErr
    ensures (pdrv != DEV_RAM || (cmd != GET_SECTOR_COUNT && cmd != GET_BLOCK_SIZE)) && buff != null ==>
      buff[..] == old(buff[..])
  {
    r := ResParErr;
    match pdrv
    case 0 => r := d.Ioctl(cmd, buff);
    case _ =>
  }
}
