/**
 * The storage device as the block cache sees it: a flat array of bytes
 * read and written in whole sectors, synchronously, with a success or
 * error status.  The driver itself (nvme_read / nvme_write) is not part of
 * this model: `status` is the status it would return, and a transfer past
 * the end of the device is always an error.
 */
module Nvme {
  import opened Types
  import Geometry

  /** Sectors `sector .. sector + count` lie on a device of `size` bytes. */
  predicate InDevice(size: nat, sectSize: nat, sector: nat, count: nat) {
    (sector + count) * sectSize <= size
  }

  /** Read `count` sectors starting at `sector`. */
  function ReadSectors(disk: seq<byte>, sectSize: nat, sector: nat, count: nat, status: bool): (r: Option<seq<byte>>)
    requires sectSize > 0
    ensures r.Some? <==> status && InDevice(|disk|, sectSize, sector, count)
    ensures r.Some? ==> |r.value| == count * sectSize
    ensures r.Some? ==> forall i :: 0 <= i < |r.value| ==> r.value[i] == disk[sector * sectSize + i]
  {
    if status && InDevice(|disk|, sectSize, sector, count) then
      Some(disk[sector * sectSize .. (sector + count) * sectSize])
    else None
  }

  /** Write `data`, which is exactly `count` sectors, starting at `sector`. */
  function WriteSectors(disk: seq<byte>, sectSize: nat, sector: nat, count: nat, data: seq<byte>, status: bool): (r: Option<seq<byte>>)
    requires sectSize > 0 && |data| == count * sectSize
    ensures r.Some? <==> status && InDevice(|disk|, sectSize, sector, count)
    ensures r.Some? ==> |r.value| == |disk|
    ensures r.Some? ==> forall i :: 0 <= i < |data| ==> r.value[sector * sectSize + i] == data[i]
    ensures r.Some? ==> forall i :: 0 <= i < |disk| && !(sector * sectSize <= i < (sector + count) * sectSize)
                           ==> r.value[i] == disk[i]
  {
    if status && InDevice(|disk|, sectSize, sector, count) then
      Some(disk[..sector * sectSize] + data + disk[(sector + count) * sectSize..])
    else None
  }

  /** A successful write is read back unchanged from the same sectors. */
  lemma ReadAfterWrite(disk: seq<byte>, sectSize: nat, sector: nat, count: nat, data: seq<byte>)
    requires sectSize > 0 && |data| == count * sectSize
    requires WriteSectors(disk, sectSize, sector, count, data, true).Some?
    ensures ReadSectors(WriteSectors(disk, sectSize, sector, count, data, true).value,
                        sectSize, sector, count, true) == Some(data)
  {
    var d' := WriteSectors(disk, sectSize, sector, count, data, true).value;
    var r := ReadSectors(d', sectSize, sector, count, true).value;
    assert r == data;
  }

  /** A write leaves every sector range that does not overlap it as it was. */
  lemma ReadDisjointFromWrite(disk: seq<byte>, sectSize: nat, sector: nat, count: nat, data: seq<byte>,
                              sector': nat, count': nat)
    requires sectSize > 0 && |data| == count * sectSize
    requires WriteSectors(disk, sectSize, sector, count, data, true).Some?
    requires sector' + count' <= sector || sector + count <= sector'
    ensures ReadSectors(WriteSectors(disk, sectSize, sector, count, data, true).value,
                        sectSize, sector', count', true)
         == ReadSectors(disk, sectSize, sector', count', true)
  {
    var d' := WriteSectors(disk, sectSize, sector, count, data, true).value;
    var lo, hi := sector * sectSize, (sector + count) * sectSize;
    var lo', hi' := sector' * sectSize, (sector' + count') * sectSize;
    if sector' + count' <= sector {
      Geometry.MulLess(sector, sector' + count', sectSize);
    } else {
      Geometry.MulLess(sector', sector + count, sectSize);
    }
    assert hi' <= lo || hi <= lo';
    if InDevice(|disk|, sectSize, sector', count') {
      var a := ReadSectors(d', sectSize, sector', count', true).value;
      var b := ReadSectors(disk, sectSize, sector', count', true).value;
      assert a == d'[lo'..hi'] && b == disk[lo'..hi'];
      forall i | lo' <= i < hi' ensures d'[i] == disk[i] {
      }
      assert a == b;
    }
  }

  /** Writing back exactly what a read returned leaves the device unchanged. */
  lemma WriteBackWhatWasRead(disk: seq<byte>, sectSize: nat, sector: nat, count: nat)
    requires sectSize > 0
    requires ReadSectors(disk, sectSize, sector, count, true).Some?
    ensures WriteSectors(disk, sectSize, sector, count,
                         ReadSectors(disk, sectSize, sector, count, true).value, true) == Some(disk)
  {
    var lo, hi := sector * sectSize, (sector + count) * sectSize;
    var data := ReadSectors(disk, sectSize, sector, count, true).value;
    assert data == disk[lo..hi];
    assert disk[..lo] + disk[lo..hi] + disk[hi..] == disk;
  }
}
