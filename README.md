# RAM disk behind FatFs and USB mass storage: a Dafny model

This project models the RAM-backed sector device of the pico-fatfs-tinyusb
firmware and proves properties of it. The device is a 128 KiB byte store
(`fatfs_ram_buf`) presented as 256 sectors of 512 bytes. Two clients use it:

- FatFs, through the drive-number dispatcher of `lib/FatFs/src/ff15/diskio.cpp`;
- the USB mass-storage stack, through the READ10/WRITE10/TEST UNIT READY callbacks.

Modules, one per component:

- `FatFsTypes`: the C integer types (`byte`, `uint32`, `int32`, plus the explicit
  uint32-to-int32 return conversion), `DRESULT`, the `DSTATUS` flags and the
  ioctl control codes. The numeric values follow the FatFs R0.15 headers
  `diskio.h` and `ff.h`, which are not part of this model.
- `RamDevice`: the class `RamDisk` with fields `store: array<byte>`
  (`fatfs_ram_buf`), `ramInitted` (`ram_initted`) and `fsIsReady`
  (`fs_is_ready`). It has the methods `Initialize`, `Read`, `Write`, `Ioctl`,
  `MarkReady`. Beside it sit the specification functions `InRange` (the bounds
  check), `Sectors` (a sector range of the store) and `Overwrite` (a copy into a
  byte sequence), and `memset`/`memcpy` written as loops.
- `ErrStr`: `err_to_str`. It walks the packed NUL-separated name table in two
  nested loops, and is proved equal to an index lookup into the 20 FRESULT names.
- `MscBridge`: `my_tud_msc_test_unit_ready_cb`, `my_tud_msc_read10_cb`,
  `my_tud_msc_write10_cb`, modelled as written. It also holds corrected versions
  of the last two (see Findings).
- `DiskIo`: `disk_status`, `disk_initialize`, `disk_read`, `disk_write`,
  `disk_ioctl`. Drive 0 goes to the RAM disk; every other drive gets a fixed
  error and changes nothing.
- `Scenarios`: clients that use only the operations' contracts. They cover the
  write/read round trip, initialise-write-initialise-read, the sector 10/11
  example, READ10 at block 300, the readiness lifecycle and the ioctl answers.

The sector size `FF_MAX_SS` comes from `ffconf.h`, which is not part of this
model. It is fixed here at 512 (`RamDevice.SS`), which divides 131072.

Two behaviours of the code are worth stating outright:

- Out-of-range `err_to_str`. The walk stops at the empty string formed by the
  literal's final NUL, so every code of 20 or more (and, through the cast to
  `int`, every negative one) gives `""`. `ErrStr.ErrToStr` proves this.
- READ10/WRITE10 results. The comments on the callbacks (src/main.cpp:104 and
  114) promise the number of bytes copied or written. The code returns
  `bufsize` whenever the readiness and block-address gate passes, even when the
  RAM disk refuses the range (see Findings).

## Model

| member | source | states |
|---|---|---|
| `FatFsTypes.AsInt32` | src/main.cpp:110 | Returning a `uint32_t` as `int32_t` keeps values below 2^31, turns larger ones negative, and is congruent modulo 2^32. |
| `RamDevice.Geometry` | src/main.cpp:6 | The 131072-byte store is a whole number of 512-byte sectors: 256. |
| `RamDevice.InRange` | src/main.cpp:29-31 | The byte bounds check of the read (and of the write at lines 43-45), `sector*512 + count*512 <= 131072`, holds exactly when `sector + count <= 256`; an accepted non-empty request starts at an existing sector. |
| `RamDevice.TransferResult` | src/main.cpp:29-35 | A read or write returns RES_OK exactly when sectors `[sector, sector+count)` all exist (`sector + count <= 256`), and RES_ERROR otherwise. |
| `RamDevice.Overwrite` | src/main.cpp:48 | Copying `data` at offset `off` sets bytes `[off, off+|data|)` to `data` and keeps every other byte and the length. |
| `RamDevice.Sectors` | src/main.cpp:29-30 | Sectors `[sector, sector+count)` are the `count*512` bytes starting at byte `sector*512`. |
| `RamDevice.WriteReadRoundTrip` | src/main.cpp:23-50 | Reading back the sectors just written returns exactly the bytes written. |
| `RamDevice.DisjointSectorsUnaffected` | src/main.cpp:43-48 | A write leaves every sector range outside the written one as it was. |
| `RamDevice.RamDiskStatus` | src/main.cpp:11-14 | The RAM drive always reports status 0: initialised, medium present, not write protected. |
| `RamDevice.IoctlCode` | src/main.cpp:51-65 | ioctl returns RES_OK exactly for CTRL_SYNC, GET_SECTOR_COUNT and GET_BLOCK_SIZE, and RES_PARERR for every other code. |
| `RamDevice.Fill` | src/main.cpp:18 | memset: every element of the array becomes the given byte. |
| `RamDevice.Memcpy` | src/main.cpp:34 | memcpy between distinct arrays: the destination is its old contents overwritten at the offset by the source bytes, and nothing else changes. |
| `RamDevice.RamDisk.constructor` | src/main.cpp:6-8 | At program start the store is all zero (static storage) and both flags are false. |
| `RamDevice.RamDisk.Initialize` | src/main.cpp:15-22 | Always returns RES_OK and sets `ram_initted`. Only the first call zero-fills the store; later calls leave its contents unchanged. The readiness flag is untouched. |
| `RamDevice.RamDisk.Read` | src/main.cpp:23-36 | An out-of-range request returns RES_ERROR and leaves the caller's buffer unchanged. Otherwise it returns RES_OK, the first `count*512` buffer bytes become those sectors of the store, and the rest of the buffer is unchanged. The store and both flags are never modified. |
| `RamDevice.RamDisk.Write` | src/main.cpp:37-50 | An out-of-range request returns RES_ERROR and leaves the store unchanged. Otherwise it returns RES_OK, and exactly bytes `[sector*512, (sector+count)*512)` of the store become the first `count*512` buffer bytes; every other byte is unchanged. |
| `RamDevice.RamDisk.Ioctl` | src/main.cpp:51-65 | GET_SECTOR_COUNT writes 256 and GET_BLOCK_SIZE writes 1 to the DWORD out-pointer, both returning RES_OK. CTRL_SYNC returns RES_OK and writes nothing. Other codes return RES_PARERR and write nothing. No case touches the store or the flags. |
| `RamDevice.RamDisk.MarkReady` | src/main.cpp:155 | After setup the readiness flag is true; the init flag is unchanged. |
| `ErrStr.CStringAt` | src/main.cpp:94 | The string a C reader sees at an offset: the characters before the next NUL, none of them NUL, followed by a NUL or the end. |
| `ErrStr.PackAppend` | src/main.cpp:85-89 | Packing one more name appends that name and one NUL to the table. |
| `ErrStr.PackSplit` | src/main.cpp:85-89 | The packed table is the first `i` entries, then entry `i` and its NUL, then the rest. |
| `ErrStr.CStringAtIs` | src/main.cpp:92-94 | A NUL-free name followed by a NUL is the C string that starts where it starts. |
| `ErrStr.EntryAt` | src/main.cpp:85-92 | Entry `i` begins where the first `i` entries end: its characters, then one NUL, then entry `i+1`. |
| `ErrStr.PackedTableEnds` | src/main.cpp:85-89 | The packed table with its final NUL (`ERR_TABLE` is this table for the 20 names) opens with the first name and its NUL, and closes with two NULs: the last name's and the literal's own, which the walk reads as `""`. |
| `ErrStr.NamesAreCNames` | src/main.cpp:85-89 | There are 20 names, each non-empty and free of NULs. |
| `ErrStr.SkipName` | src/main.cpp:91 | The inner scan `while (*str++) ;` started on a name of `len` non-NUL characters followed by a NUL stops just past that NUL, where the next name starts. |
| `ErrStr.FindName` | src/main.cpp:90-93 | Over any packed table, the nested skip loops stop at an offset whose C string is name `rc` when `0 <= rc < n`, and the empty string otherwise. |
| `ErrStr.ErrToStr` | src/main.cpp:83-95 | `err_to_str(rc)` equals the index lookup `FrName(rc)`: the rc-th of "OK" … "INVALID_PARAMETER" for `0 <= rc <= 19`, and "" for any other code. |
| `MscBridge.TestUnitReady` | src/main.cpp:99-101 | TEST UNIT READY answers the readiness flag. |
| `MscBridge.Admits` | src/main.cpp:106 | The gate of READ10 (and of WRITE10 at line 116) lets a request through exactly when the unit is ready and the one block at `lba` lies wholly inside the store. |
| `MscBridge.NotReadyRejectsAll` | src/main.cpp:105-108 | When the unit is not ready, the gate refuses every block address. |
| `MscBridge.BeyondCapacityRejected` | src/main.cpp:106 | A block address of 256 or more is refused whether or not the unit is ready. |
| `MscBridge.SectorsFor` | src/main.cpp:109 | The sector count handed to the RAM disk is `bufsize / 512`, truncated: its bytes fit in `bufsize` and fall short of it by less than one sector. |
| `MscBridge.Read10` | src/main.cpp:105-111 | Returns -1 and leaves the buffer unchanged when the unit is not ready or `lba >= 256`. Otherwise it returns `bufsize` as int32_t whatever the RAM read did. The buffer gets the sectors only when the RAM read accepted the range; otherwise the buffer is unchanged. |
| `MscBridge.Write10` | src/main.cpp:115-121 | Returns -1 and leaves the store unchanged when the unit is not ready or `lba >= 256`. Otherwise it returns `bufsize` as int32_t whatever the RAM write did. The store changes only when the RAM write accepted the range, and only in the written sectors. |
| `MscBridge.ShortTransferReportedInFull` | src/main.cpp:105-121 | On a ready disk, block 255 with `bufsize` 1024 passes the gate but fails the RAM bounds check, and 1024 is still the value returned. |
| `MscBridge.Read10Checked` | src/main.cpp:104-111 | Corrected READ10: returns the bytes actually copied (`(bufsize/512)*512`) exactly when the gate and the RAM bounds check both pass, and otherwise -1 with the buffer unchanged. |
| `MscBridge.Write10Checked` | src/main.cpp:114-121 | Corrected WRITE10: returns the bytes actually written exactly when the gate and the RAM bounds check both pass, and otherwise -1 with the store unchanged. |
| `DiskIo.DiskStatus` | lib/FatFs/src/ff15/diskio.cpp:37-69 | Drive 0 reports the RAM disk's status; every other drive reports STA_NOINIT. The NOINIT flag is set exactly for the drives other than 0. |
| `DiskIo.DiskInitialize` | lib/FatFs/src/ff15/diskio.cpp:77-109 | Drive 0 behaves as `RamDisk.Initialize`. Every other drive returns STA_NOINIT and leaves the store and `ram_initted` unchanged. The readiness flag is never touched. |
| `DiskIo.DiskRead` | lib/FatFs/src/ff15/diskio.cpp:117-159 | Drive 0 returns the RAM read's result and effect unchanged. Every other drive returns RES_PARERR. On any failure the buffer is unchanged. |
| `DiskIo.DiskWrite` | lib/FatFs/src/ff15/diskio.cpp:169-211 | Drive 0 returns the RAM write's result and effect unchanged. Every other drive returns RES_PARERR. On any failure the store is unchanged. |
| `DiskIo.DiskIoctl` | lib/FatFs/src/ff15/diskio.cpp:220-252 | Drive 0 answers as `RamDisk.Ioctl`: GET_SECTOR_COUNT writes 256 and GET_BLOCK_SIZE writes 1 to `buff[0]`, leaving the rest of `buff` as it was, and other codes write nothing. Every other drive returns RES_PARERR and writes nothing to the output. |
| `Scenarios.ZeroSector` | src/main.cpp:15-22 | After the first initialisation's zero fill, any existing sector reads as 512 zero bytes. |
| `Scenarios.WriteThenRead` | src/main.cpp:23-50 | Through the methods: a successful write, then a read of the same sectors, yields exactly the bytes written. |
| `Scenarios.InitWriteInitRead` | src/main.cpp:15-50 | Data written after the first initialise is still read back after a second initialise. |
| `Scenarios.SectorTenScenario` | src/main.cpp:15-50 | On a fresh disk, 512 bytes of 0xAA written at sector 10 read back from sector 10, and sector 11 reads as zeros. |
| `Scenarios.Read10BeyondCapacity` | src/main.cpp:105-108 | READ10 at block 300 returns -1 and leaves the buffer as it was, whether or not the unit is ready. |
| `Scenarios.ReadyLifecycle` | src/main.cpp:99-101 | TEST UNIT READY is false at start and true once setup has marked the disk ready. |
| `Scenarios.IoctlScenario` | src/main.cpp:51-65 | The answers FatFs gets: sync accepted, 256 sectors, erase block 1, GET_SECTOR_SIZE refused. |
| `Scenarios.LastBlockDoubleRead` | src/main.cpp:105-111 | As written, READ10 of 1024 bytes at block 255 of a ready disk returns 1024 while the buffer keeps its previous bytes. |
| `Scenarios.LastBlockDoubleReadChecked` | src/main.cpp:104-111 | The corrected READ10 returns -1 for the same request, with the buffer unchanged. |

## Left out

- `setup()` and `loop()`: they only call the FatFs library (`f_mkfs`, `f_mount`, `f_open`, `f_write`, `f_close`) and the TinyUSB MSC object, which are not part of this model. The one effect kept is `fs_is_ready = true`, as `RamDisk.MarkReady`.
- `get_fattime`: its input is the C library clock (`time`, `localtime`).
- All serial logging and `String` building, in both files.
- `lib/FatFs/src/FatFs.h`: a stub class whose `begin()` returns false and that nothing uses.
- `msc_flush_cb`, `is_writable`, `setID`, `setCapacity`, `setUnitReady`, `begin`, and the USB and SCSI protocol: they belong to the USB stack or are constant.
- RamDevice.RamDisk.Read and RamDevice.RamDisk.Write: sector and count are unbounded naturals, and the bounds check is `sector*512 + count*512 <= 131072` in mathematical integers. The 32-bit wrap of `sector * FF_MAX_SS` and `count * FF_MAX_SS`, and the pointer arithmetic past the array end inside the check itself, are not modelled.
- RamDevice.RamDisk.Read and RamDevice.RamDisk.Write: the caller's buffer must not be the store, since an overlapping `memcpy` is undefined in C.
- RamDevice.SS: `FF_MAX_SS` is fixed at 512, the value that gives the 256 sectors the firmware announces.
- DiskIo.DiskWrite: `disk_write` exists only when `FF_FS_READONLY == 0`. The model assumes that configuration, which `f_mkfs` in `setup()` needs anyway.
- The MMC and USB branches of the dispatcher: they are inside `#if 0`, so in the model those drive numbers fall through to the fixed error.

## Findings

| source | as written | input that shows it | evidently intended | confidence | as-written member | corrected member |
|---|---|---|---|---|---|---|
| src/main.cpp:105-121 | READ10 and WRITE10 discard the result of `RAM_disk_read` / `RAM_disk_write` and return `bufsize` once the readiness and LBA gate passes, even when the RAM disk refused the range and copied nothing. | Ready disk, `lba = 255`, `bufsize = 1024`: the gate passes (255 < 256), sectors 255-256 fail the bounds check, the buffer is untouched, and READ10 returns 1024. | Return the number of bytes actually copied, as the comment on line 104 says, or -1 when nothing was copied. | low; not executed (a host that stays within the announced 256-block capacity never sends such a request) | `MscBridge.Read10`, `MscBridge.Write10`, `MscBridge.ShortTransferReportedInFull`, `Scenarios.LastBlockDoubleRead` | `MscBridge.Read10Checked`, `MscBridge.Write10Checked`, `Scenarios.LastBlockDoubleReadChecked` |
