/** AEOS-FS: the file system operations, on a device that may fail at any sector. */
module Afs {
  import opened Bytes
  import opened BlockDevice
  import opened AfsFormat
  import opened AfsLayout
  import opened AfsDisk

  const CHUNK: nat := 4096
  const IOBUF_SLOTS: nat := 4

  /** `n` rounded up to whole 4096-byte chunks. */
  function RoundToChunk(n: nat): nat {
    (n + 4095) / 4096 * 4096
  }

  function Min(a: nat, b: nat): nat {
    if a <= b then a else b
  }

  /** Compares a stored name with a C string, stopping at the first difference or NUL. */
  method NameEqual(stored: RawName, name: FileName) returns (equal: bool)
    requires stored[NAME_LEN - 1] == 0
    ensures equal <==> CString(stored) == name
  {
    var i := 0;
    while stored[i] != 0 && i < |name| && stored[i] == name[i]
      invariant i < NAME_LEN && i <= |name|
      invariant forall k :: 0 <= k < i ==> stored[k] != 0 && stored[k] == name[k]
      decreases NAME_LEN - i
    {
      i := i + 1;
    }
    equal := stored[i] == if i < |name| then name[i] else 0;
    if equal {
      assert stored[..|name|] == name;
      CStringIs(stored, name);
    }
  }

  /** Copies at most 23 characters into a cleared name field. */
  method CopyName(name: FileName) returns (raw: RawName)
    ensures raw == StoredName(name)
  {
    raw := seq(24, _ => 0);
    var i := 0;
    while i < |name| && i < NAME_LEN - 1
      invariant i <= |name| && i <= NAME_LEN - 1
      invariant forall k :: 0 <= k < NAME_LEN ==> raw[k] == if k < i then name[k] else 0
    {
      raw := raw[i := name[i]];
      i := i + 1;
    }
  }

  /** Sector `k` of a staging buffer. */
  function SectorOf(buf: seq<byte>, k: nat): Sector
    requires 512 * k + 512 <= |buf|
  {
    buf[512 * k..512 * k + 512]
  }

  function SectorsOf(buf: seq<byte>, n: nat): (r: seq<Sector>)
    requires 512 * n <= |buf|
    ensures |r| == n
  {
    seq(n, k requires 0 <= k < n => SectorOf(buf, k))
  }

  function BytesOf(data: seq<Sector>): (r: seq<byte>)
    ensures |r| == 512 * |data|
  {
    seq(512 * |data|, i requires 0 <= i < 512 * |data| => data[i / 512][i % 512])
  }

  /** The first `n` bytes of `src` are on disk from sector `at` on. */
  predicate HoldsPrefix(disk: seq<Sector>, at: nat, src: seq<byte>, n: nat) {
    n <= |src| && (n > 0 ==> at + BlocksFor(n) <= |disk|)
    && forall i :: 0 <= i < n ==> disk[at + i / 512][i % 512] == src[i]
  }

  /** Writing one staged chunk extends the prefix that is on disk. */
  lemma ChunkWritten(disk: seq<Sector>, disk': seq<Sector>, at: nat, src: seq<byte>, off: nat, chunk: nat, buf: seq<byte>)
    requires HoldsPrefix(disk, at, src, off) && off % 4096 == 0 && off + chunk <= |src|
    requires 0 < chunk <= |buf| && 512 * BlocksFor(chunk) <= |buf| && buf[..chunk] == src[off..off + chunk]
    requires ChangedWithin(disk, disk', at + off / 512, BlocksFor(chunk))
    requires at + off / 512 + BlocksFor(chunk) <= |disk'|
    requires forall k :: 0 <= k < BlocksFor(chunk) ==> disk'[at + off / 512 + k] == SectorOf(buf, k)
    ensures HoldsPrefix(disk', at, src, off + chunk)
  {
    hide BlocksFor, ChangedWithin, SectorOf;
    WholeBlocks(off);
    BlocksShift(off / 512, chunk);
    SameLength(disk, disk', at + off / 512, BlocksFor(chunk));
    forall i | 0 <= i < off + chunk
      ensures at + i / 512 < |disk'| && disk'[at + i / 512][i % 512] == src[i]
    {
      ByteInChunk(i, off + chunk);
      if i < off {
        OldByte(disk, disk', at, off, BlocksFor(chunk), i);
      } else {
        NewByte(disk', at, src, off, chunk, buf, i);
      }
    }
  }

  /** A byte before the chunk is where it was. */
  lemma OldByte(disk: seq<Sector>, disk': seq<Sector>, at: nat, off: nat, n: nat, i: nat)
    requires off % 4096 == 0 && i < off && ChangedWithin(disk, disk', at + off / 512, n) && at + i / 512 < |disk|
    ensures at + i / 512 < |disk'| && disk'[at + i / 512] == disk[at + i / 512]
  {
    BlockBelow(i, off);
  }

  lemma BlockBelow(i: nat, off: nat)
    requires off % 4096 == 0 && i < off
    ensures i / 512 < off / 512
  {
    WholeBlocks(off);
    DivShift(i / 512, i % 512);
  }

  /** A byte of the chunk is the staged one. */
  lemma NewByte(disk': seq<Sector>, at: nat, src: seq<byte>, off: nat, chunk: nat, buf: seq<byte>, i: nat)
    requires off % 4096 == 0 && off <= i < off + chunk <= |src|
    requires chunk <= |buf| && 512 * BlocksFor(chunk) <= |buf| && buf[..chunk] == src[off..off + chunk]
    requires at + off / 512 + BlocksFor(chunk) <= |disk'|
    requires forall k :: 0 <= k < BlocksFor(chunk) ==> disk'[at + off / 512 + k] == SectorOf(buf, k)
    ensures at + i / 512 < |disk'| && disk'[at + i / 512][i % 512] == src[i]
  {
    hide BlocksFor;
    var k := (i - off) / 512;
    BlockOfByte(i, off, chunk);
    assert disk'[at + off / 512 + k] == SectorOf(buf, k);
    assert SectorOf(buf, k)[i % 512] == buf[512 * k + i % 512] == buf[i - off];
    assert buf[..chunk][i - off] == src[off..off + chunk][i - off];
  }

  lemma BlockOfByte(i: nat, off: nat, chunk: nat)
    requires off % 4096 == 0 && off <= i < off + chunk
    ensures var k := (i - off) / 512;
            i / 512 == off / 512 + k && 512 * k + i % 512 == i - off && k < BlocksFor(chunk)
  {
    hide BlocksFor;
    WholeBlocks(off);
    DivShift(off / 512, i - off);
    ByteInChunk(i - off, chunk);
  }

  lemma DivShift(q: nat, j: nat)
    ensures (512 * q + j) / 512 == q + j / 512 && (512 * q + j) % 512 == j % 512
  {
  }

  lemma ByteInChunk(j: nat, chunk: nat)
    requires j < chunk
    ensures j / 512 < BlocksFor(chunk)
  {
  }

  /** What read delivers fits in `max` bytes exactly when the file does or `max` is a whole
      number of chunks. */
  lemma ReadFitsBuffer(size: nat, max: nat)
    ensures Min(size, RoundToChunk(max)) <= max <==> size <= max || max % 4096 == 0
  {
    assert max <= RoundToChunk(max) < max + 4096;
  }

  lemma StartPrefix(disk: seq<Sector>, at: nat, src: seq<byte>)
    ensures HoldsPrefix(disk, at, src, 0)
  {
  }

  lemma WholePrefix(disk: seq<Sector>, at: nat, src: seq<byte>)
    requires HoldsPrefix(disk, at, src, |src|) && src != []
    ensures Holds(disk, at, src)
  {
    assert at + (|src| - 1) / 512 < |disk|;
  }

  lemma NoChange(disk: seq<Sector>, lo: nat, n: nat)
    ensures ChangedWithin(disk, disk, lo, n)
  {
  }

  lemma ChunkInside(off: nat, chunk: nat, size: nat)
    requires off % 4096 == 0 && off + chunk <= size
    ensures off / 512 + BlocksFor(chunk) <= BlocksFor(size)
  {
    hide BlocksFor;
    WholeBlocks(off);
    BlocksShift(off / 512, chunk);
    MoreBlocks(off + chunk, size);
  }

  lemma WholeBlocks(off: nat)
    requires off % 4096 == 0
    ensures off == 512 * (off / 512)
  {
    DivShift(8 * (off / 4096), 0);
  }

  lemma BlocksShift(q: nat, n: nat)
    ensures BlocksFor(512 * q + n) == q + BlocksFor(n)
  {
    DivShift(q, n + 511);
  }

  lemma WiderChange(disk: seq<Sector>, disk': seq<Sector>, disk'': seq<Sector>, at: nat, o: nat, n: nat, all: nat)
    requires ChangedWithin(disk, disk', at, all) && ChangedWithin(disk', disk'', at + o, n) && o + n <= all
    ensures ChangedWithin(disk, disk'', at, all) && |disk'| == |disk|
  {
  }

  /** One entry of the directory scan. */
  lemma ScanStep(d: Directory, name: FileName, i: nat)
    requires i < MAX_FILES
    ensures Find(d, name, i) == if Names(d[i], name) then i else Find(d, name, i + 1)
    ensures FirstFree(d, i) == if !d[i].Live() then i else FirstFree(d, i + 1)
  {
    hide CString;
  }

  lemma ScanEnd(d: Directory, name: FileName)
    ensures Find(d, name, MAX_FILES) == -1 && FirstFree(d, MAX_FILES) == -1
  {
    hide CString;
  }

  lemma NextChunk(done: nat, max: nat)
    requires done < max && done % 4096 == 0
    ensures done + 4096 <= RoundToChunk(max)
  {
  }

  lemma LastChunk(done: nat, max: nat)
    ensures max <= done <= RoundToChunk(max) && done % 4096 == 0 ==> done == RoundToChunk(max)
    ensures 0 <= RoundToChunk(max)
  {
  }

  lemma MoreBlocks(n: nat, size: nat)
    requires n <= size
    ensures BlocksFor(n) <= BlocksFor(size)
  {
  }

  lemma HoldsFits(disk: seq<Sector>, at: nat, data: seq<byte>)
    ensures Holds(disk, at, data) ==> at + BlocksFor(|data|) <= |disk|
  {
  }

  lemma SameLength(disk: seq<Sector>, disk': seq<Sector>, lo: nat, count: nat)
    requires ChangedWithin(disk, disk', lo, count)
    ensures |disk'| == |disk|
  {
  }

  lemma ContentsPrefix(disk: seq<Sector>, at: nat, n: nat, size: nat)
    requires n <= size && at + BlocksFor(size) <= |disk|
    ensures Contents(disk, at, n) == Contents(disk, at, size)[..n]
  {
  }

  /** A chunk ends where its sectors do. */
  lemma ChunkEnd(done: nat, chunk: nat)
    requires done % 4096 == 0
    ensures BlocksFor(done + chunk) == done / 512 + BlocksFor(chunk)
  {
    hide BlocksFor;
    WholeBlocks(done);
    BlocksShift(done / 512, chunk);
  }

  lemma SectorOfByte(done: nat, i: nat)
    requires done % 4096 == 0
    ensures (done + i) / 512 == done / 512 + i / 512 && (done + i) % 512 == i % 512
  {
    WholeBlocks(done);
    DivShift(done / 512, i);
  }

  /** The sectors of one chunk hold that part of the contents. */
  lemma ChunkRead(disk: seq<Sector>, at: nat, done: nat, chunk: nat, sectors: seq<Sector>)
    requires done % 4096 == 0 && at + done / 512 + BlocksFor(chunk) <= |disk|
    requires sectors == disk[at + done / 512..at + done / 512 + BlocksFor(chunk)]
    ensures at + BlocksFor(done + chunk) <= |disk| && |BytesOf(sectors)| >= chunk
    ensures BytesOf(sectors)[..chunk] == Contents(disk, at, done + chunk)[done..]
  {
    ChunkEnd(done, chunk);
    var a, b := BytesOf(sectors)[..chunk], Contents(disk, at, done + chunk)[done..];
    forall i | 0 <= i < chunk
      ensures a[i] == b[i]
    {
      SectorOfByte(done, i);
      assert sectors[i / 512] == disk[at + done / 512 + i / 512];
    }
  }

  class Volume {
    const dev: Device
    const base: nat
    var mounted: bool
    var total: nat
    var dataLba: nat
    /** The free list and the bump pointer. */
    var alloc: Alloc
    /** The directory cache; its entries stay in place between load and flush. */
    var dir: Directory
    /** Rotating payload buffers. */
    var iobuf: seq<seq<byte>>

    /** Boot state: nothing mounted, the free list empty. */
    constructor (dev: Device, base: nat)
      ensures this.dev == dev && this.base == base
      ensures !mounted && alloc.free == [] && Buffers()
    {
      this.dev, this.base := dev, base;
      mounted, total, dataLba := false, 0, 0;
      alloc := Alloc([], 0);
      dir := seq(16, _ => FREE_SLOT);
      iobuf := seq(4, _ => seq(4096, _ => 0));
    }

    predicate Buffers()
      reads this
    {
      |iobuf| == IOBUF_SLOTS && forall k :: 0 <= k < IOBUF_SLOTS ==> |iobuf[k]| == CHUNK
    }

    ghost predicate OnDisk()
      reads this, dev
    {
      DiskOk(dev.sectors, base)
    }

    ghost function Directory(): Directory
      requires OnDisk()
      reads this, dev
    {
      DirectoryOf(dev.sectors, base)
    }

    /** The in-memory state of a mounted volume fits what is on the disk. */
    ghost predicate InMemory()
      requires OnDisk()
      reads this, dev
    {
      VolumeOk(dev.sectors, base, alloc, dataLba, total)
    }

    ghost predicate Valid()
      reads this, dev
    {
      Buffers() && OnDisk() && (mounted ==> InMemory())
    }

    /** The abstract value: a map from names to bytes. */
    ghost function Files(): map<FileName, seq<byte>>
      requires OnDisk()
      reads this, dev
    {
      AfsFormat.Files(dev.sectors, base)
    }

    // ---- Sector access ----------------------------------------------------------

    method ReadSectors(lba: nat, n: nat) returns (ok: bool, data: seq<Sector>)
      requires base + lba < ADDRESS_LIMIT
      ensures |data| == n
      ensures ok ==> base + lba + n <= |dev.sectors| && data == dev.sectors[base + lba..base + lba + n]
      ensures dev.reliable && base + lba + n <= |dev.sectors| ==> ok
    {
      ok, data := dev.Read(Add32(base, lba), n);
    }

    method WriteSectors(lba: nat, data: seq<Sector>) returns (ok: bool)
      requires base + lba < ADDRESS_LIMIT
      modifies dev`sectors
      ensures ChangedWithin(old(dev.sectors), dev.sectors, base + lba, |data|)
      ensures ok ==> base + lba + |data| <= |dev.sectors|
                     && forall k :: 0 <= k < |data| ==> dev.sectors[base + lba + k] == data[k]
      ensures dev.reliable && base + lba + |data| <= |dev.sectors| ==> ok
      ensures dev.reliable && !ok ==> dev.sectors == old(dev.sectors)
      ensures |data| == 1 && (ok || dev.sectors != old(dev.sectors)) ==>
                base + lba < |dev.sectors| && dev.sectors == old(dev.sectors)[base + lba := data[0]]
    {
      hide Add32;
      NoWrap(base, lba);
      ghost var done;
      ok, done := dev.Write(Add32(base, lba), data);
    }

    method LoadDirectory() returns (ok: bool)
      requires OnDisk()
      modifies this`dir
      ensures ok ==> dir == Directory()
      ensures !ok ==> dir == old(dir)
      ensures dev.reliable ==> ok
    {
      var data;
      ok, data := ReadSectors(DIR_LBA, 1);
      if ok {
        dir := DecodeDirectory(data[0]);
      }
    }

    method FlushDirectory() returns (ok: bool)
      requires OnDisk()
      modifies dev`sectors
      ensures dev.sectors == old(dev.sectors) || dev.sectors == old(dev.sectors)[base + DIR_LBA := EncodeDirectory(dir)]
      ensures ok ==> dev.sectors == old(dev.sectors)[base + DIR_LBA := EncodeDirectory(dir)]
      ensures dev.reliable ==> ok
    {
      ok := WriteSectors(DIR_LBA, [EncodeDirectory(dir)]);
    }

    // ---- Directory slots --------------------------------------------------------

    /** Locates `name` in the directory cache. When `create` is set and the name is absent,
        the first free slot is cleared and given the name; it stays free until its start is
        set. */
    method FindSlot(name: FileName, create: bool) returns (slot: int)
      requires Terminated(dir)
      modifies this`dir
      ensures -1 <= slot < MAX_FILES
      ensures Find(old(dir), name) >= 0 ==> slot == Find(old(dir), name)
      ensures Find(old(dir), name) < 0 ==> slot == if create then FirstFree(old(dir)) else -1
      ensures dir == if Find(old(dir), name) < 0 && slot >= 0 then old(dir)[slot := Dirent(StoredName(name), 0, 0)] else old(dir)
    {
      hide CString, StoredName, Find, FirstFree;
      ScanEnd(dir, name);
      var freeSlot := -1;
      for i := 0 to MAX_FILES
        invariant -1 <= freeSlot < i
        invariant freeSlot < 0 ==> FirstFree(dir) == FirstFree(dir, i)
        invariant freeSlot >= 0 ==> FirstFree(dir) == freeSlot
        invariant Find(dir, name) == Find(dir, name, i)
        invariant dir == old(dir)
      {
        ScanStep(dir, name, i);
        if !dir[i].Live() {
          if freeSlot < 0 {
            freeSlot := i;
          }
        } else {
          var equal := NameEqual(dir[i].name, name);
          if equal {
            return i;
          }
        }
      }
      if !create || freeSlot < 0 {
        return -1;
      }
      var raw := CopyName(name);
      dir := dir[freeSlot := Dirent(raw, 0, 0)];
      return freeSlot;
    }

    /** First fit over the free list: the start of the sectors taken, or 0. */
    method TakeFree(n: nat) returns (lba: nat)
      requires forall k :: 0 <= k < |alloc.free| ==> 0 < alloc.free[k].start
      modifies this`alloc
      ensures lba == 0 <==> FirstFit(old(alloc.free), n) < 0
      ensures lba == 0 ==> alloc == old(alloc)
      ensures lba != 0 ==> lba == old(alloc.free)[FirstFit(old(alloc.free), n)].start
                           && alloc == old(alloc).(free := CutFront(old(alloc.free), FirstFit(old(alloc.free), n), n))
    {
      var free := alloc.free;
      var i := 0;
      while i < |free|
        invariant 0 <= i <= |free|
        invariant FirstFit(free, n) == FirstFit(free, n, i)
      {
        if free[i].count >= n {
          lba := free[i].start;
          free := free[i := Extent(free[i].start + n, free[i].count - n)];
          if free[i].count == 0 {
            free := free[i := free[|free| - 1]];
            free := free[..|free| - 1];
          }
          alloc := alloc.(free := free);
          return;
        }
        i := i + 1;
      }
      return 0;
    }

    /** Adds an extent unless the list is full. */
    method AddFree(start: nat, count: nat)
      modifies this`alloc
      ensures alloc == if |old(alloc.free)| < MAX_FREE_EXTENTS
                       then old(alloc).(free := old(alloc.free) + [Extent(start, count)])
                       else old(alloc)
    {
      if |alloc.free| >= MAX_FREE_EXTENTS {
        return;
      }
      alloc := alloc.(free := alloc.free + [Extent(start, count)]);
    }

    // ---- Payload I/O ------------------------------------------------------------

    /** Stages and writes the chunk of `src` at `off`; what follows it in its last sector is
        whatever the buffer held. */
    method WriteChunk(lba: nat, src: seq<byte>, off: nat, chunk: nat) returns (ok: bool)
      requires Buffers() && base + lba + MAX_BLOCKS < ADDRESS_LIMIT && |src| <= MAX_FILE_SIZE
      requires off % 4096 == 0 && 0 < chunk <= CHUNK && off + chunk <= |src|
      requires HoldsPrefix(dev.sectors, base + lba, src, off)
      modifies this`iobuf, dev`sectors
      ensures Buffers()
      ensures ChangedWithin(old(dev.sectors), dev.sectors, base + lba + off / 512, BlocksFor(chunk))
      ensures ok ==> HoldsPrefix(dev.sectors, base + lba, src, off + chunk)
      ensures dev.reliable && base + lba + off / 512 + BlocksFor(chunk) <= |dev.sectors| ==> ok
    {
      var slot := off / 4096 % 4;
      var buf := src[off..off + chunk] + iobuf[slot][chunk..];
      iobuf := iobuf[slot := buf];
      var data := SectorsOf(buf, BlocksFor(chunk));
      ok := WriteSectors(lba + off / 512, data);
      if ok {
        forall k | 0 <= k < BlocksFor(chunk)
          ensures dev.sectors[base + lba + off / 512 + k] == SectorOf(buf, k)
        {
          assert dev.sectors[base + (lba + off / 512) + k] == data[k];
        }
        ChunkWritten(old(dev.sectors), dev.sectors, base + lba, src, off, chunk, buf);
      }
    }

    /** Writes `src` in chunks of 4096 bytes through the rotating buffers, stopping at the
        first failure. */
    method WriteData(lba: nat, src: seq<byte>) returns (ok: bool)
      requires Buffers() && 0 < |src| <= MAX_FILE_SIZE && base + lba + MAX_BLOCKS < ADDRESS_LIMIT
      modifies this`iobuf, dev`sectors
      ensures Buffers()
      ensures ChangedWithin(old(dev.sectors), dev.sectors, base + lba, BlocksFor(|src|))
      ensures ok ==> Holds(dev.sectors, base + lba, src)
      ensures dev.reliable && base + lba + BlocksFor(|src|) <= |dev.sectors| ==> ok
    {
      hide ChangedWithin, HoldsPrefix, Holds, BlocksFor;
      StartPrefix(dev.sectors, base + lba, src);
      NoChange(dev.sectors, base + lba, BlocksFor(|src|));
      var off := 0;
      while off < |src|
        invariant 0 <= off < |src| + CHUNK && off % 4096 == 0 && Buffers()
        invariant HoldsPrefix(dev.sectors, base + lba, src, Min(off, |src|))
        invariant ChangedWithin(old(dev.sectors), dev.sectors, base + lba, BlocksFor(|src|))
      {
        var chunk := |src| - off;
        if chunk > CHUNK {
          chunk := CHUNK;
        }
        ghost var before := dev.sectors;
        ok := WriteChunk(lba, src, off, chunk);
        ChunkInside(off, chunk, |src|);
        WiderChange(old(dev.sectors), before, dev.sectors, base + lba, off / 512, BlocksFor(chunk), BlocksFor(|src|));
        if !ok {
          return;
        }
        off := off + CHUNK;
      }
      WholePrefix(dev.sectors, base + lba, src);
      ok := true;
    }

    // ---- Operations -------------------------------------------------------------

    /** A write of `size` bytes to `name` reuses the extent the file has. */
    ghost predicate Rewrites(name: FileName, size: nat)
      requires OnDisk()
      reads this, dev
    {
      var i := Find(Directory(), name);
      i >= 0 && BlocksFor(size) <= Directory()[i].Blocks()
    }

    /** A write of `size` bytes to `name` finds a slot and a new extent. */
    ghost predicate Allocates(name: FileName, size: nat)
      requires OnDisk()
      reads this, dev
    {
      (Find(Directory(), name) >= 0 || FirstFree(Directory()) >= 0) && Placed(alloc, BlocksFor(size), total)
    }

    /** It does, and the device has the extent's sectors. */
    ghost predicate HasRoom(name: FileName, size: nat)
      requires OnDisk()
      reads this, dev
    {
      && Allocates(name, size)
      && base + Chosen(alloc, BlocksFor(size)) + BlocksFor(size) <= |dev.sectors|
    }

    /** When a write of `size` bytes to `name` succeeds on a reliable device. */
    ghost predicate Accepts(name: FileName, size: nat)
      requires OnDisk()
      reads this, dev
    {
      && mounted && 0 < size <= MAX_FILE_SIZE
      && (Rewrites(name, size) || (|name| < NAME_LEN && HasRoom(name, size)))
    }

    /** When a write of `size` bytes to `name` takes a new extent, whether or not it succeeds. */
    ghost predicate Consumes(name: FileName, size: nat)
      requires OnDisk()
      reads this, dev
    {
      mounted && 0 < size <= MAX_FILE_SIZE && !Rewrites(name, size) && Allocates(name, size)
    }

    /** Takes `n` sectors, from the free list first and then from the bump region; 0 when
        neither has them. */
    method Allocate(n: nat, ghost d: Directory) returns (lba: nat)
      requires Layout(d, alloc, dataLba, total) && 0 < n <= MAX_BLOCKS
      requires total + 2 * MAX_BLOCKS < ADDRESS_LIMIT && dataLba <= MAX_BLOCKS
      modifies this`alloc
      ensures Layout(d, alloc, dataLba, total)
      ensures lba != 0 <==> Placed(old(alloc), n, total)
      ensures lba != 0 ==> lba == Chosen(old(alloc), n) && Unowned(d, alloc, dataLba, total, lba, n)
      ensures alloc == if lba != 0 then Take(old(alloc), n) else old(alloc)
    {
      lba := TakeFree(n);
      if lba != 0 {
        CutFrontLayout(d, old(alloc), dataLba, total, FirstFit(old(alloc.free), n), n);
      } else {
        lba := alloc.next;
        if Add32(lba, n) > total {
          return 0;
        }
        BumpLayout(d, alloc, dataLba, total, n);
        alloc := alloc.(next := lba + n);
      }
    }

    /** Whether the extent `name` already has can hold `n` sectors: its start, or 0. */
    method Existing(name: FileName, n: nat) returns (lba: nat)
      requires Terminated(dir)
      modifies this`dir
      ensures dir == old(dir)
      ensures lba == if Find(dir, name) >= 0 && n <= dir[Find(dir, name)].Blocks() then dir[Find(dir, name)].start else 0
    {
      var i := FindSlot(name, false);
      return if i >= 0 && n <= dir[i].Blocks() then dir[i].start else 0;
    }

    /** Gives `name` a slot and a new extent of `n` sectors; the extent's start, or 0. */
    method Reserve(name: FileName, n: nat, ghost d: Directory) returns (lba: nat, ghost slot: nat)
      requires dir == d && Layout(d, alloc, dataLba, total) && Terminated(d) && 0 < n <= MAX_BLOCKS
      requires total + 2 * MAX_BLOCKS < ADDRESS_LIMIT && dataLba <= MAX_BLOCKS
      modifies this`dir, this`alloc
      ensures Layout(d, alloc, dataLba, total)
      ensures lba != 0 <==> (Find(d, name) >= 0 || FirstFree(d) >= 0) && Placed(old(alloc), n, total)
      ensures lba != 0 ==> slot < MAX_FILES && lba == Chosen(old(alloc), n) && lba + n <= total
      ensures alloc == if lba != 0 then Take(old(alloc), n) else old(alloc)
      ensures lba != 0 ==> SlotFor(d, slot, name) && Unowned(d, alloc, dataLba, total, lba, n)
      ensures lba != 0 ==> dir == d[slot := dir[slot]] && dir[slot].start == lba && dir[slot].name == NameFor(d, slot, name)
    {
      hide Layout, Find, FirstFree, FirstFit, SlotFor, Terminated, OffDirectory, OffFreeList, StoredName, Chosen, Placed, Take;
      var e := FindSlot(name, true);
      if e < 0 {
        return 0, 0;
      }
      slot := e;
      SlotFound(d, name);
      lba := Allocate(n, d);
      if lba != 0 {
        dir := dir[e := dir[e].(start := lba)];
      }
    }

    /** Records the size of `name` in the directory cache and flushes it. */
    method Finish(name: FileName, size: u32) returns (r: int)
      requires OnDisk() && Terminated(dir)
      modifies this`dir, dev`sectors
      ensures r == -1 || r == size
      ensures Find(old(dir), name) < 0 ==> r == -1 && dev.sectors == old(dev.sectors)
      ensures Find(old(dir), name) >= 0 ==>
                var i := Find(old(dir), name);
                && dir == old(dir)[i := old(dir)[i].(size := size)]
                && var flushed := old(dev.sectors)[base + DIR_LBA := EncodeDirectory(dir)];
                   && (dev.sectors == old(dev.sectors) || dev.sectors == flushed)
                   && (r == size ==> dev.sectors == flushed)
                   && (dev.reliable ==> r == size)
    {
      var i := FindSlot(name, false);
      if i < 0 {
        return -1;
      }
      dir := dir[i := dir[i].(size := size)];
      var ok := FlushDirectory();
      return if ok then size else -1;
    }

    /** Gives `name` a slot and a new extent, writes the data there and commits. */
    method WriteNew(name: FileName, data: seq<byte>) returns (r: int)
      requires Valid() && mounted && dir == Directory() && 0 < |data| <= MAX_FILE_SIZE
      modifies this`dir, this`alloc, this`iobuf, dev`sectors
      ensures Valid()
      ensures r == -1 || r == |data|
      ensures r == |data| ==> Files() == old(Files())[name := data]
      ensures r == -1 ==> Files() == old(Files()) || Files() == old(Files())[name := data]
      ensures r == -1 && dev.reliable ==> Files() == old(Files())
      ensures dev.reliable ==> (r == |data| <==> |name| < NAME_LEN && old(HasRoom(name, |data|)))
      ensures alloc == if old(Allocates(name, |data|)) then Take(old(alloc), BlocksFor(|data|)) else old(alloc)
      ensures |dev.sectors| == old(|dev.sectors|)
    {
      hide Chosen, Placed, Layout, Unowned, DiskOk, Holds, AfsFormat.Files, Find, FirstFree, CString, EntryOk, SlotFor, ChangedWithin,
           DirectoryOf, EncodeDirectory, FirstFit, StoredName, DirectoryOk, Terminated, Take, FreeOnDevice;
      ghost var d := dir;
      ghost var disk0 := dev.sectors;
      var n := BlocksFor(|data|);
      VolumeFacts(disk0, base, alloc, dataLba, total);
      var lba; ghost var slot;
      TakeOnDevice(alloc, n, base, |dev.sectors|);
      lba, slot := Reserve(name, n, d);
      if lba == 0 {
        return -1;
      }
      var ok := WriteData(lba, data);
      ghost var disk1 := dev.sectors;
      HoldsFits(disk1, base + lba, data);
      SameLength(disk0, disk1, base + lba, n);
      UnownedWrite(disk0, disk1, base, alloc, dataLba, total, lba, n);
      if !ok {
        return -1;
      }
      FindCommitted(d, dataLba, total, slot, dir[slot], name);
      r := Finish(name, |data|);
      if |name| < NAME_LEN && dev.sectors == disk1[base + DIR_LBA := EncodeDirectory(dir)] {
        assert dir == d[slot := dir[slot]];
        NewFileFlush(disk1, dev.sectors, base, alloc, dataLba, total, slot, dir[slot], name, data);
      }
    }

    /** Writes the data over the extent the file already has and commits. */
    method WriteOver(name: FileName, lba: nat, data: seq<byte>) returns (r: int)
      requires Valid() && mounted && dir == Directory() && 0 < |data| <= MAX_FILE_SIZE
      requires Rewrites(name, |data|) && lba == dir[Find(dir, name)].start
      modifies this`dir, this`iobuf, dev`sectors
      ensures Valid()
      ensures r == -1 || r == |data|
      ensures Files().Keys == old(Files().Keys) && name in Files()
      ensures SameBut(old(Files()), Files(), name)
      ensures r == |data| ==> Files() == old(Files())[name := data]
      ensures dev.reliable ==> r == |data|
      ensures |dev.sectors| == old(|dev.sectors|)
    {
      hide Layout, DiskOk, Holds, AfsFormat.Files, Find, CString, ChangedWithin, DirectoryOf, EncodeDirectory,
           DirectoryOk, Terminated;
      ghost var d := dir;
      ghost var slot := Find(d, name);
      ghost var disk0 := dev.sectors;
      VolumeFacts(disk0, base, alloc, dataLba, total);
      RewriteFacts(disk0, base, alloc, dataLba, total, name);
      var ok := WriteData(lba, data);
      ghost var disk1 := dev.sectors;
      SameLength(disk0, disk1, base + lba, BlocksFor(|data|));
      OwnedWrite(disk0, disk1, base, alloc, dataLba, total, name, BlocksFor(|data|));
      if !ok {
        return -1;
      }
      r := Finish(name, |data|);
      if dev.sectors == disk1[base + DIR_LBA := EncodeDirectory(dir)] {
        RewriteFlush(disk1, dev.sectors, base, alloc, dataLba, total, name, data);
      }
    }

    /** afs_write. */
    method Write(name: FileName, data: seq<byte>) returns (r: int)
      requires Valid()
      modifies this`dir, this`alloc, this`iobuf, dev`sectors
      ensures Valid()
      ensures r == -1 || (r == |data| && mounted && 0 < |data| <= MAX_FILE_SIZE)
      // Success stores exactly the data and touches no other file.
      ensures r > 0 ==> Files() == old(Files())[name := data]
      // A write into a new extent is atomic, wherever the device stops.
      ensures r == -1 && !old(Rewrites(name, |data|)) ==>
                Files() == old(Files()) || Files() == old(Files())[name := data]
      // A rewrite in place can disturb only its own file.
      ensures SameBut(old(Files()), Files(), name)
      ensures old(Rewrites(name, |data|)) ==> Files().Keys == old(Files().Keys)
      // On a reliable device a failed write changes no file, and success is decided by room.
      ensures dev.reliable && r == -1 ==> Files() == old(Files())
      ensures dev.reliable ==> (r > 0 <==> old(Accepts(name, |data|)))
      // The allocator gives up one extent, exactly when the write needs one and can have it.
      ensures alloc == old(alloc) || alloc == Take(old(alloc), BlocksFor(|data|))
      ensures dev.reliable ==> alloc == if old(Consumes(name, |data|)) then Take(old(alloc), BlocksFor(|data|)) else old(alloc)
      ensures |dev.sectors| == old(|dev.sectors|)
    {
      hide Layout, DiskOk, AfsFormat.Files, Find, CString, DirectoryOf, FirstFree, FirstFit, Terminated, DirectoryOk,
           Chosen, Placed, Take, FreeOnDevice;
      if !mounted || |data| == 0 || |data| > MAX_FILE_SIZE {
        return -1;
      }
      var loaded := LoadDirectory();
      if !loaded {
        return -1;
      }
      VolumeFacts(dev.sectors, base, alloc, dataLba, total);
      FindLive(dir, name);
      var lba := Existing(name, BlocksFor(|data|));
      if lba != 0 {
        r := WriteOver(name, lba, data);
      } else {
        r := WriteNew(name, data);
      }
    }

    /** Reads the chunk of a file at `done` through a rotating buffer. */
    method ReadChunk(lba: nat, done: nat, chunk: nat) returns (ok: bool, bytes: seq<byte>)
      requires Buffers() && base + lba + MAX_BLOCKS < ADDRESS_LIMIT
      requires done % 4096 == 0 && 0 < chunk <= CHUNK && done + chunk <= MAX_FILE_SIZE
      modifies this`iobuf
      ensures Buffers()
      ensures ok ==> && base + lba + BlocksFor(done + chunk) <= |dev.sectors|
                     && bytes == Contents(dev.sectors, base + lba, done + chunk)[done..]
      ensures dev.reliable && base + lba + BlocksFor(done + chunk) <= |dev.sectors| ==> ok
    {
      ChunkEnd(done, chunk);
      var slot := (done / 4096 + 1) % 4;
      var sectors;
      ok, sectors := ReadSectors(lba + done / 512, BlocksFor(chunk));
      if !ok {
        return false, [];
      }
      iobuf := iobuf[slot := BytesOf(sectors) + iobuf[slot][512 * BlocksFor(chunk)..]];
      bytes := iobuf[slot][..chunk];
      hide Contents, BytesOf;
      ChunkRead(dev.sectors, base + lba, done, chunk, sectors);
      assert bytes == BytesOf(sectors)[..chunk];
    }

    /** Delivers a file's bytes in whole chunks until `max` is reached. */
    method ReadData(lba: nat, size: nat, max: nat) returns (r: int, out: seq<byte>)
      requires Buffers() && base + lba + MAX_BLOCKS < ADDRESS_LIMIT && size <= MAX_FILE_SIZE
      requires base + lba + BlocksFor(size) <= |dev.sectors|
      modifies this`iobuf
      ensures Buffers()
      ensures r == -1 || r == |out|
      ensures r >= 0 ==> out == Contents(dev.sectors, base + lba, size)[..Min(size, RoundToChunk(max))]
      ensures dev.reliable ==> r >= 0
    {
      hide Contents, RoundToChunk;
      ghost var all := Contents(dev.sectors, base + lba, size);
      out := [];
      while |out| < max && |out| < size
        invariant Buffers() && |out| <= size && |out| <= RoundToChunk(max)
        invariant |out| == size || |out| % 4096 == 0
        invariant out == all[..|out|]
        decreases size - |out|
      {
        var chunk := size - |out|;
        if chunk > CHUNK {
          chunk := CHUNK;
        }
        NextChunk(|out|, max);
        MoreBlocks(|out| + chunk, size);
        var ok, bytes := ReadChunk(lba, |out|, chunk);
        if !ok {
          return -1, out;
        }
        ContentsPrefix(dev.sectors, base + lba, |out| + chunk, size);
        out := out + bytes;
      }
      LastChunk(|out|, max);
      return |out|, out;
    }

    /** afs_read: copies whole chunks until `max` bytes or the whole file are delivered. */
    method Read(name: FileName, max: nat) returns (r: int, out: seq<byte>)
      requires Valid()
      modifies this`dir, this`iobuf
      ensures Valid()
      ensures r == -1 || r == |out|
      ensures r >= 0 ==> mounted && name in Files() && out == Files()[name][..Min(|Files()[name]|, RoundToChunk(max))]
      ensures dev.reliable ==> (r >= 0 <==> mounted && max > 0 && name in Files())
    {
      hide Layout, DiskOk, AfsFormat.Files, Find, CString, DirectoryOf, Terminated, DirectoryOk, Contents, RoundToChunk;
      out := [];
      if !mounted || max == 0 {
        return -1, out;
      }
      var loaded := LoadDirectory();
      if !loaded {
        return -1, out;
      }
      VolumeFacts(dev.sectors, base, alloc, dataLba, total);
      FileLookup(dev.sectors, base, alloc, dataLba, total, name);
      var i := FindSlot(name, false);
      if i < 0 {
        return -1, out;
      }
      r, out := ReadData(dir[i].start, dir[i].size, max);
    }

    /** afs_delete. The extent goes on the free list before the directory is flushed, so the
        in-memory state is sound unless that happened and the flush did not. */
    method Delete(name: FileName) returns (r: int)
      requires Valid()
      modifies this`dir, this`alloc, dev`sectors
      ensures OnDisk() && (r == 0 || r == -1)
      ensures r == 0 ==> mounted && name in old(Files()) && Files() == old(Files()) - {name}
      ensures r == -1 ==> Files() == old(Files()) || Files() == old(Files()) - {name}
      ensures r == 0 || dev.reliable ==> Valid()
      ensures Valid() <==> alloc == old(alloc) || Directory() != old(Directory())
      ensures dev.reliable ==> (r == 0 <==> mounted && name in old(Files()))
      ensures dev.reliable && r == -1 ==> Files() == old(Files())
      // The sectors of the file, and no others, go on the free list unless it is full.
      ensures r == 0 ==> Freed(old(Directory()), old(alloc), alloc, name)
      ensures dev.reliable && r == -1 ==> alloc == old(alloc)
      ensures alloc.next == old(alloc.next) && |dev.sectors| == old(|dev.sectors|)
    {
      hide Freed, VolumeOk, BlocksFor, Layout, DiskOk, AfsFormat.Files, Find, NulIndex, CString, DirectoryOf, Terminated, DirectoryOk, EncodeDirectory,
           Contents, FREE_SLOT;
      if !mounted {
        return -1;
      }
      var loaded := LoadDirectory();
      if !loaded {
        return -1;
      }
      ghost var disk0 := dev.sectors;
      VolumeFacts(disk0, base, alloc, dataLba, total);
      FileLookup(disk0, base, alloc, dataLba, total, name);
      FindLive(dir, name);
      var i := FindSlot(name, false);
      if i < 0 {
        return -1;
      }
      var e := dir[i];
      ByteInChunk(0, e.size);
      if e.Blocks() > 0 {
        AddFree(e.start, e.Blocks());
      }
      dir := dir[i := FREE_SLOT];
      var ok := FlushDirectory();
      DeleteUnflushed(disk0, base, old(alloc), dataLba, total, name);
      ReclaimFreed(old(Directory()), old(alloc), name);
      if dev.sectors == disk0[base + DIR_LBA := EncodeDirectory(dir)] {
        DeleteFlush(disk0, dev.sectors, base, old(alloc), dataLba, total, name);
      }
      return if ok then 0 else -1;
    }

    /** The scan of mount: past the highest extent in the directory cache. */
    method ResumeBump()
      modifies this`alloc
      ensures DirectoryOk(dir, dataLba, total) && total < ADDRESS_LIMIT ==> alloc == Alloc(old(alloc.free), ResumeAt(dir, dataLba))
      ensures alloc.free == old(alloc.free)
    {
      hide DirectoryOk;
      var next: nat := dataLba;
      for i := 0 to MAX_FILES
        invariant alloc == old(alloc)
        invariant DirectoryOk(dir, dataLba, total) && total < ADDRESS_LIMIT ==> next == ResumeAt(dir, dataLba, i)
      {
        if dir[i].Live() {
          var end := Add32(dir[i].start, Add32(dir[i].size, 511) / 512);
          if DirectoryOk(dir, dataLba, total) && total < ADDRESS_LIMIT {
            ScannedEnd(dir, dataLba, total, i);
          }
          if end > next {
            next := end;
          }
        }
      }
      alloc := alloc.(next := next);
    }

    /** afs_mount, from any state: the free list stays as it is. `dirRead` tells whether the
        directory could be read; the call reports success either way. */
    method Mount() returns (r: int, ghost dirRead: bool)
      requires Buffers() && base + DATA_START < ADDRESS_LIMIT
      modifies this
      ensures Buffers() && (r == 0 || r == 1) && (r == 1 ==> mounted)
      ensures r == 0 ==> mounted == old(mounted) && alloc == old(alloc) && dataLba == old(dataLba) && total == old(total)
      // At boot the list is empty, and mounting re-establishes the invariant.
      ensures OnDisk() && r == 1 && dirRead && old(alloc.free) == [] ==> Valid()
      ensures OnDisk() && r == 1 && !dirRead && old(alloc.free) == [] ==> (Valid() <==> Files() == map[])
      // Mounting a volume in use: sound exactly when no free extent lies above the live ones.
      ensures old(Valid()) && old(mounted) && r == 1 && dirRead ==>
                (Valid() <==> forall k :: 0 <= k < |alloc.free| ==>
                                alloc.free[k].start + alloc.free[k].count <= ResumeAt(Directory(), dataLba))
      ensures r == 1 ==> base + SB_LBA < |dev.sectors|
                         && DecodeSuperblock(dev.sectors[base]).magic == MAGIC
                         && DecodeSuperblock(dev.sectors[base]).version == 1
      ensures OnDisk() && dev.reliable ==> r == 1 && dirRead
      ensures OnDisk() && r == 1 ==> total == SuperblockOf(dev.sectors, base).total
      ensures OnDisk() && r == 1 && dirRead ==> alloc == Alloc(old(alloc.free), ResumeAt(Directory(), dataLba))
                                                && dataLba == SuperblockOf(dev.sectors, base).dataStart
    {
      hide Layout, AfsFormat.Files, Find, CString, Terminated, Contents, DecodeDirectory, DecodeSuperblock, DirectoryOk,
           ExtentsOnDevice, FreeOnDevice, ResumeAt;
      r, dirRead := 0, false;
      if |dev.sectors| == 0 {
        return;
      }
      var ok, data := ReadSectors(SB_LBA, 1);
      if !ok {
        return;
      }
      iobuf := iobuf[0 := data[0] + iobuf[0][512..]];
      var sb := DecodeSuperblock(iobuf[0][..512]);
      assert iobuf[0][..512] == dev.sectors[base];
      if sb.magic != MAGIC || sb.version != 1 {
        return;
      }
      total, dataLba := sb.total, sb.dataStart;
      alloc := alloc.(next := sb.dataStart);
      mounted := true;
      var dirData;
      ok, dirData := ReadSectors(DIR_LBA, 1);
      if ok {
        dir := DecodeDirectory(dirData[0]);
        ResumeBump();
      }
      r, dirRead := 1, ok;
      SameFreeOnDevice(old(alloc), alloc, base, |dev.sectors|);
      if OnDisk() {
        if ok {
          MountLayout(dir, dataLba, total);
          if old(Valid()) && old(mounted) {
            RemountLayout(dir, old(alloc), dataLba, total);
          }
        } else {
          BlindMountLayout(Directory(), dataLba, total);
          NoFiles(dev.sectors, base);
        }
      }
    }

    /** Stages a superblock in cleared buffers and writes it. */
    method WriteSuperblock(sb: Superblock) returns (ok: bool)
      requires base + DATA_START < ADDRESS_LIMIT
      modifies this`iobuf, dev`sectors
      ensures Buffers() && |dev.sectors| == old(|dev.sectors|)
      ensures ok ==> base < |dev.sectors| && dev.sectors[base] == EncodeSuperblock(sb)
      ensures dev.reliable && base < |dev.sectors| ==> ok
    {
      hide EncodeSuperblock;
      iobuf := seq(4, k => if k == 0 then EncodeSuperblock(sb) + seq(3584, _ => 0) else seq(4096, _ => 0));
      assert iobuf[0][..512] == EncodeSuperblock(sb);
      ok := WriteSectors(SB_LBA, [iobuf[0][..512]]);
    }

    /** afs_format, from any state: a superblock for the whole device, with its sector count cut
        to 32 bits, an empty directory, and the free list as it was. The disk is good exactly
        when sector numbers stay below the address limit, and then the volume is sound exactly
        when the list was empty. */
    method Format() returns (r: int)
      requires Buffers() && base + DATA_START < ADDRESS_LIMIT
      modifies this, dev`sectors
      ensures Buffers() && (r == 0 || r == -1)
      ensures r == 0 ==>
                && mounted && total == |dev.sectors| % ADDRESS_LIMIT
                && (OnDisk() <==> base + total + 2 * MAX_BLOCKS < ADDRESS_LIMIT)
                && (OnDisk() ==> Files() == map[] && (Valid() <==> old(alloc.free) == []))
      ensures dev.reliable && base + DATA_START <= |dev.sectors| ==> r == 0
    {
      hide AfsFormat.Files, Layout, DiskOk, EncodeDirectory, EncodeSuperblock;
      if |dev.sectors| == 0 {
        return -1;
      }
      var sb := Superblock(MAGIC, 1, |dev.sectors| % ADDRESS_LIMIT, SB_LBA + 1 + 1);
      var ok := WriteSuperblock(sb);
      if !ok {
        return -1;
      }
      dir := seq(16, _ => FREE_SLOT);
      ok := WriteSectors(DIR_LBA, [EncodeDirectory(dir)]);
      if !ok {
        return -1;
      }
      total, dataLba := sb.total, sb.dataStart;
      alloc := alloc.(next := sb.dataStart);
      mounted := true;
      FormattedDisk(dev.sectors, base, total, alloc.free);
      return 0;
    }
  }
}
