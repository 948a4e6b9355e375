/**
 * Clients of the RAM disk that use nothing but the contracts of its
 * operations: the write/read round trip, initialisation that keeps data
 * written after the first call, and the callbacks' gate.
 */
module Scenarios {
  import opened FatFsTypes
  import opened RamDevice
  import opened MscBridge

  /** Overwriting a whole sequence gives the new bytes. */
  lemma OverwriteWhole(s: seq<byte>, data: seq<byte>)
    requires |data| == |s|
    ensures Overwrite(s, 0, data) == data
  {
  }

  /** Any sector of an all-zero store reads as zeros. */
  lemma ZeroSector(s: seq<byte>, sector: nat)
    requires s == Zeros(STORE_SIZE) && InRange(sector, 1)
    ensures Sectors(s, sector, 1) == Zeros(SS)
  {
    ghost var z := Sectors(s, sector, 1);
    assert forall k :: 0 <= k < SS ==> z[k] == 0;
  }

  /** A successful write followed by a read of the same sectors returns exactly the bytes written. */
  method WriteThenRead(d: RamDisk, data: array<byte>, out: array<byte>, sector: nat, count: nat)
    requires d.Valid() && data != d.store && out != d.store
    requires InRange(sector, count) && data.Length == count * SS && out.Length == count * SS
    modifies d.store, out
    ensures out[..] == old(data[..])
    ensures d.store[..] == Overwrite(old(d.store[..]), sector * SS, old(data[..]))
  {
    ghost var written := data[..];
    ghost var before := d.store[..];
    var w := d.Write(data, sector, count);
    assert data[..count * SS] == written;
    var r := d.Read(out, sector, count);
    WriteReadRoundTrip(before, sector, count, written);
    OverwriteWhole(old(out[..]), written);
  }

  /**
   * Data written between two initialisations survives the second one: only
   * the first call zero-fills the store.
   */
  method InitWriteInitRead(d: RamDisk, data: array<byte>, out: array<byte>, sector: nat, count: nat)
    requires d.Valid() && data != d.store && out != d.store && data != out
    requires InRange(sector, count) && data.Length == count * SS && out.Length == count * SS
    modifies d`ramInitted, d.store, out
    ensures out[..] == old(data[..])
    ensures d.ramInitted
  {
    var s := d.Initialize();
    ghost var zeroed := d.store[..];
    ghost var written := data[..];
    WriteThenRead(d, data, out, sector, count);
    s := d.Initialize();
    ghost var outBefore := out[..];
    var r := d.Read(out, sector, count);
    WriteReadRoundTrip(zeroed, sector, count, written);
    OverwriteWhole(outBefore, written);
  }

  /**
   * A fresh 256-sector disk: after initialisation, 512 bytes of 0xAA written
   * at sector 10 read back from sector 10, and sector 11 still reads as zeros.
   */
  method SectorTenScenario() returns (ten: seq<byte>, eleven: seq<byte>)
    ensures ten == seq(SS, _ => 0xAA)
    ensures eleven == Zeros(SS)
  {
    var d := new RamDisk();
    var s := d.Initialize();
    ghost var zeroed := d.store[..];
    var data := new byte[SS](_ => 0xAA);
    var out := new byte[SS];
    WriteThenRead(d, data, out, 10, 1);
    ten := out[..];
    var out11 := new byte[SS];
    ghost var before11 := out11[..];
    var r := d.Read(out11, 11, 1);
    DisjointSectorsUnaffected(zeroed, 10, 1, data[..], 11, 1);
    ZeroSector(zeroed, 11);
    OverwriteWhole(before11, Zeros(SS));
    eleven := out11[..];
  }

  /** READ10 at block 300 of the 256-block disk is refused, ready or not. */
  method Read10BeyondCapacity(ready: bool) returns (r: int32, buffer: seq<byte>)
    ensures r == -1
    ensures buffer == seq(SS, _ => 0x5A)
  {
    var d := new RamDisk();
    if ready {
      d.MarkReady();
    }
    var buf := new byte[SS](_ => 0x5A);
    r := Read10(d, 300, buf, SS as uint32);
    buffer := buf[..];
  }

  /** TEST UNIT READY answers false until setup marks the filesystem ready, then true. */
  method ReadyLifecycle() returns (before: bool, after: bool)
    ensures !before && after
  {
    var d := new RamDisk();
    before := TestUnitReady(d);
    d.MarkReady();
    after := TestUnitReady(d);
  }

  /**
   * READ10 of two blocks at the last block of a ready disk, as written: the
   * RAM disk refuses the range, the buffer keeps its old bytes, and the
   * callback still reports 1024 bytes read.
   */
  method LastBlockDoubleRead() returns (r: int32, buffer: seq<byte>)
    ensures r == 1024
    ensures buffer == seq(1024, _ => 0x5A)
  {
    var d := new RamDisk();
    d.MarkReady();
    ShortTransferReportedInFull(d);
    var buf := new byte[1024](_ => 0x5A);
    r := Read10(d, 255, buf, 1024);
    buffer := buf[..];
  }

  /** The same request through the corrected READ10: nothing copied, and -1 says so. */
  method LastBlockDoubleReadChecked() returns (r: int32, buffer: seq<byte>)
    ensures r == -1
    ensures buffer == seq(1024, _ => 0x5A)
  {
    var d := new RamDisk();
    d.MarkReady();
    var buf := new byte[1024](_ => 0x5A);
    r := Read10Checked(d, 255, buf, 1024);
    buffer := buf[..];
  }

  /**
   * The control requests FatFs sends during mkfs and sync: sector count 256,
   * erase block 1, sync accepted, GET_SECTOR_SIZE refused.
   */
  method IoctlScenario() returns (sync: DResult, count: uint32, block: uint32, size: DResult)
    ensures sync == ResOk && count == 256 && block == 1 && size == ResParErr
  {
    var d := new RamDisk();
    var out := new uint32[1];
    sync := d.Ioctl(CTRL_SYNC, null);
    var r := d.Ioctl(GET_SECTOR_COUNT, out);
    count := out[0];
    r := d.Ioctl(GET_BLOCK_SIZE, out);
    block := out[0];
    size := d.Ioctl(GET_SECTOR_SIZE, out);
  }
}
