/** The block device beneath AEOS-FS: 512-byte sectors, each written atomically.

    A multi-sector write that is reported as failed may have reached the medium for any
    prefix of its sectors. AEOS-FS returns to its caller as soon as a write fails, so the
    states a failed write can leave behind are also the states a crash can leave behind. */
module BlockDevice {
  import opened Bytes

  const SECTOR_SIZE: nat := 512

  type Sector = s: seq<byte> | |s| == SECTOR_SIZE witness seq(512, _ => 0)

  /** `disk` with `data` written over it from sector `lba` on. */
  function Overwrite(disk: seq<Sector>, lba: nat, data: seq<Sector>): (r: seq<Sector>)
    requires lba + |data| <= |disk|
    ensures |r| == |disk|
    ensures forall i :: 0 <= i < |disk| ==>
              r[i] == if lba <= i < lba + |data| then data[i - lba] else disk[i]
  {
    disk[..lba] + data + disk[lba + |data|..]
  }

  class Device {
    var sectors: seq<Sector>
    /** A reliable device fails no request that lies within its capacity. */
    const reliable: bool

    constructor (contents: seq<Sector>, reliable: bool)
      ensures sectors == contents && this.reliable == reliable
    {
      sectors := contents;
      this.reliable := reliable;
    }

    method Read(lba: nat, n: nat) returns (ok: bool, data: seq<Sector>)
      ensures |data| == n
      ensures ok ==> lba + n <= |sectors| && data == sectors[lba..lba + n]
      ensures reliable && lba + n <= |sectors| ==> ok
    {
      var fault: bool := *;
      ok := lba + n <= |sectors| && (reliable || !fault);
      if ok {
        data := sectors[lba..lba + n];
      } else {
        data := seq(n, _ => seq(SECTOR_SIZE, _ => 0));
      }
    }

    method Write(lba: nat, data: seq<Sector>) returns (ok: bool, ghost done: nat)
      modifies this`sectors
      ensures done <= |data| && (done > 0 ==> lba + done <= |sectors|)
      ensures |sectors| == old(|sectors|)
      ensures sectors == if done == 0 then old(sectors) else Overwrite(old(sectors), lba, data[..done])
      ensures ok ==> done == |data| && lba + |data| <= |sectors|
      ensures reliable && lba + |data| <= |sectors| ==> ok
      ensures reliable && !ok ==> done == 0
    {
      var fault: bool := *;
      ok := lba + |data| <= |sectors| && (reliable || !fault);
      var reached := |data|;
      if !ok {
        if reliable || lba > |sectors| {
          reached := 0;
        } else {
          reached := *;
          if !(0 <= reached <= |data| && lba + reached <= |sectors|) {
            reached := 0;
          }
        }
      }
      done := reached;
      if reached > 0 {
        sectors := Overwrite(sectors, lba, data[..reached]);
      }
    }
  }
}
