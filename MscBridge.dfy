/**
 * The USB mass-storage callbacks of src/main.cpp: TEST UNIT READY reports the
 * readiness flag; READ10 and WRITE10 check readiness and the block address and
 * then hand the request to the RAM disk, one logical block per sector.
 */
module MscBridge {
  import opened FatFsTypes
  import opened RamDevice

  /** my_tud_msc_test_unit_ready_cb: whether the host may use the disk now. */
  function TestUnitReady(d: RamDisk): (ready: bool)
    reads d
    ensures ready == d.fsIsReady
  {
    d.fsIsReady
  }

  /** The gate of READ10 and WRITE10: the disk is ready and `lba` names an existing sector. */
  predicate Admits(d: RamDisk, lba: uint32): (ok: bool)
    reads d
    ensures ok <==> TestUnitReady(d) && InRange(lba as nat, 1)
  {
    d.fsIsReady && lba as nat < SECTOR_COUNT
  }

  /** A unit that is not ready turns every READ10 and WRITE10 away, whatever the address. */
  lemma NotReadyRejectsAll(d: RamDisk)
    ensures !TestUnitReady(d) ==> forall lba: uint32 :: !Admits(d, lba)
  {
  }

  /** An address past the last sector is turned away, ready or not. */
  lemma BeyondCapacityRejected(d: RamDisk, lba: uint32)
    ensures lba as nat >= SECTOR_COUNT ==> !Admits(d, lba)
  {
  }

  /**
   * The number of sectors a callback asks the RAM disk for: bufsize / FF_MAX_SS,
   * truncating, so a trailing partial block is dropped.
   */
  function SectorsFor(bufsize: uint32): (count: nat)
    ensures count * SS <= bufsize as nat < (count + 1) * SS
  {
    bufsize as nat / SS
  }

  /**
   * my_tud_msc_read10_cb, as written: -1 when the gate refuses; otherwise the
   * RAM disk read of SectorsFor(bufsize) sectors, whose result is discarded,
   * and bufsize returned as an int32_t.
   */
  method Read10(d: RamDisk, lba: uint32, buffer: array<byte>, bufsize: uint32) returns (r: int32)
    requires d.Valid() && buffer != d.store
    requires Admits(d, lba) && InRange(lba as nat, SectorsFor(bufsize)) ==> SectorsFor(bufsize) * SS <= buffer.Length
    modifies buffer
    ensures r == if Admits(d, lba) then AsInt32(bufsize) else -1
    ensures Admits(d, lba) && InRange(lba as nat, SectorsFor(bufsize)) ==>
      buffer[..] == Overwrite(old(buffer[..]), 0, Sectors(d.store[..], lba as nat, SectorsFor(bufsize)))
    ensures !(Admits(d, lba) && InRange(lba as nat, SectorsFor(bufsize))) ==> buffer[..] == old(buffer[..])
  {
    if !d.fsIsReady || lba as nat >= STORE_SIZE / SS {
      return -1;
    }
    var _ := d.Read(buffer, lba as nat, bufsize as nat / SS);
    return AsInt32(bufsize);
  }

  /**
   * my_tud_msc_write10_cb, as written: -1 when the gate refuses; otherwise the
   * RAM disk write of SectorsFor(bufsize) sectors, whose result is discarded,
   * and bufsize returned as an int32_t.
   */
  method Write10(d: RamDisk, lba: uint32, buffer: array<byte>, bufsize: uint32) returns (r: int32)
    requires d.Valid() && buffer != d.store
    requires Admits(d, lba) && InRange(lba as nat, SectorsFor(bufsize)) ==> SectorsFor(bufsize) * SS <= buffer.Length
    modifies d.store
    ensures r == if Admits(d, lba) then AsInt32(bufsize) else -1
    ensures Admits(d, lba) && InRange(lba as nat, SectorsFor(bufsize)) ==>
      d.store[..] == Overwrite(old(d.store[..]), lba as nat * SS, buffer[..SectorsFor(bufsize) * SS])
    ensures !(Admits(d, lba) && InRange(lba as nat, SectorsFor(bufsize))) ==> d.store[..] == old(d.store[..])
  {
    if !d.fsIsReady || lba as nat >= STORE_SIZE / SS {
      return -1;
    }
    var _ := d.Write(buffer, lba as nat, bufsize as nat / SS);
    return AsInt32(bufsize);
  }

  /**
   * The gate admits a request that the RAM disk then refuses: a ready disk,
   * the last sector, two blocks' worth of bytes. Read10 and Write10 report
   * all 1024 bytes as transferred although nothing was copied.
   */
  lemma ShortTransferReportedInFull(d: RamDisk)
    requires d.fsIsReady
    ensures Admits(d, 255) && !InRange(255, SectorsFor(1024)) && AsInt32(1024) == 1024
  {
  }

  /**
   * READ10 as its comment describes it: the number of bytes actually copied,
   * or -1 when nothing was copied.
   */
  method Read10Checked(d: RamDisk, lba: uint32, buffer: array<byte>, bufsize: uint32) returns (r: int32)
    requires d.Valid() && buffer != d.store
    requires Admits(d, lba) && InRange(lba as nat, SectorsFor(bufsize)) ==> SectorsFor(bufsize) * SS <= buffer.Length
    modifies buffer
    ensures r >= 0 <==> Admits(d, lba) && InRange(lba as nat, SectorsFor(bufsize))
    ensures r >= 0 ==> r as nat == SectorsFor(bufsize) * SS && r <= AsInt32(bufsize)
    ensures r >= 0 ==>
      buffer[..] == Overwrite(old(buffer[..]), 0, Sectors(d.store[..], lba as nat, SectorsFor(bufsize)))
    ensures r < 0 ==> r == -1 && buffer[..] == old(buffer[..])
  {
    if !d.fsIsReady || lba as nat >= STORE_SIZE / SS {
      return -1;
    }
    var count := bufsize as nat / SS;
    var res := d.Read(buffer, lba as nat, count);
    if res != ResOk {
      return -1;
    }
    return (count * SS) as int32;
  }

  /**
   * WRITE10 as its comment describes it: the number of bytes actually
   * written, or -1 when nothing was written.
   */
  method Write10Checked(d: RamDisk, lba: uint32, buffer: array<byte>, bufsize: uint32) returns (r: int32)
    requires d.Valid() && buffer != d.store
    requires Admits(d, lba) && InRange(lba as nat, SectorsFor(bufsize)) ==> SectorsFor(bufsize) * SS <= buffer.Length
    modifies d.store
    ensures r >= 0 <==> Admits(d, lba) && InRange(lba as nat, SectorsFor(bufsize))
    ensures r >= 0 ==> r as nat == SectorsFor(bufsize) * SS && r <= AsInt32(bufsize)
    ensures r >= 0 ==>
      d.store[..] == Overwrite(old(d.store[..]), lba as nat * SS, buffer[..SectorsFor(bufsize) * SS])
    ensures r < 0 ==> r == -1 && d.store[..] == old(d.store[..])
  {
    if !d.fsIsReady || lba as nat >= STORE_SIZE / SS {
      return -1;
    }
    var count := bufsize as nat / SS;
    var res := d.Write(buffer, lba as nat, count);
    if res != ResOk {
      return -1;
    }
    return (count * SS) as int32;
  }
}
