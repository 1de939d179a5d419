/** What the sector writes of one AEOS-FS call do to the file map of the disk. */
module AfsDisk {
  import opened Bytes
  import opened BlockDevice
  import opened AfsFormat
  import opened AfsLayout

  /** The disks agree outside [lo, lo + count). */
  predicate ChangedWithin(disk: seq<Sector>, disk': seq<Sector>, lo: nat, count: nat) {
    |disk'| == |disk|
    && forall s :: 0 <= s < |disk| && !(lo <= s < lo + count) ==> disk'[s] == disk[s]
  }

  predicate OffDirectoryBut(d: Directory, but: int, start: nat, count: nat) {
    forall i :: 0 <= i < MAX_FILES && i != but && d[i].Live() ==> Apart(d[i].start, d[i].Blocks(), start, count)
  }

  lemma ApartKeepsData(disk: seq<Sector>, disk': seq<Sector>, base: nat, e: Dirent, lo: nat, count: nat)
    requires ChangedWithin(disk, disk', base + lo, count)
    requires Apart(e.start, e.Blocks(), lo, count) && base + e.End() <= |disk|
    ensures SameData(disk, disk', base, e)
  {
  }

  lemma DirectoryDistinct(d: Directory, dataStart: nat, total: nat)
    requires DirectoryOk(d, dataStart, total)
    ensures NamesDistinct(d)
  {
    forall i, j | 0 <= i < j < MAX_FILES && d[i].Live() && d[j].Live()
      ensures CString(d[i].name) != CString(d[j].name)
    {
      assert EntriesCompatible(d[i], d[j]);
    }
  }

  /** Writing data sectors that belong to no live file, except possibly the one in slot
      `but`, keeps the disk mountable and every other file intact. */
  lemma DataWrite(disk: seq<Sector>, disk': seq<Sector>, base: nat, lo: nat, count: nat, but: int)
    requires DiskOk(disk, base) && DATA_START <= lo && ChangedWithin(disk, disk', base + lo, count)
    requires OffDirectoryBut(DirectoryOf(disk, base), but, lo, count)
    ensures DiskOk(disk', base)
    ensures SuperblockOf(disk', base) == SuperblockOf(disk, base)
    ensures DirectoryOf(disk', base) == DirectoryOf(disk, base)
    ensures Files(disk', base).Keys == Files(disk, base).Keys
    ensures forall n :: n in Files(disk, base) && Find(DirectoryOf(disk, base), n) != but ==>
              Files(disk', base)[n] == Files(disk, base)[n]
    ensures !(0 <= but < MAX_FILES) ==> Files(disk', base) == Files(disk, base)
  {
    var d := DirectoryOf(disk, base);
    assert disk'[base] == disk[base] && disk'[base + 1] == disk[base + 1];
    assert DirectoryOf(disk', base) == d;
    DataWriteIn(d, disk, disk', base, lo, count, but, SuperblockOf(disk, base).dataStart, SuperblockOf(disk, base).total);
  }

  lemma DataWriteIn(d: Directory, disk: seq<Sector>, disk': seq<Sector>, base: nat, lo: nat, count: nat, but: int,
                    dataStart: nat, total: nat)
    requires DirectoryOk(d, dataStart, total) && ExtentsOnDevice(d, base, |disk|)
    requires ChangedWithin(disk, disk', base + lo, count) && OffDirectoryBut(d, but, lo, count)
    ensures FilesIn(d, disk', base).Keys == FilesIn(d, disk, base).Keys
    ensures forall n :: n in FilesIn(d, disk, base) && Find(d, n) != but ==>
              FilesIn(d, disk', base)[n] == FilesIn(d, disk, base)[n]
    ensures !(0 <= but < MAX_FILES) ==> FilesIn(d, disk', base) == FilesIn(d, disk, base)
  {
    DirectoryDistinct(d, dataStart, total);
    forall i | 0 <= i < MAX_FILES && i != but && d[i].Live()
      ensures SameData(disk, disk', base, d[i])
    {
      ApartKeepsData(disk, disk', base, d[i], lo, count);
    }
    FilesFrame(d, disk, disk', base, but);
    if !(0 <= but < MAX_FILES) {
      var m, m' := FilesIn(d, disk, base), FilesIn(d, disk', base);
      forall n | n in m
        ensures m'[n] == m[n]
      {
        var i := HasFile(d, n);
        FindIs(d, i);
      }
      assert m' == m;
    }
  }

  /** Writing directory `d'` over the directory sector. */
  lemma FlushDisk(disk: seq<Sector>, disk': seq<Sector>, base: nat, d': Directory)
    requires DiskOk(disk, base)
    requires disk' == disk[base + DIR_LBA := EncodeDirectory(d')]
    requires DirectoryOk(d', SuperblockOf(disk, base).dataStart, SuperblockOf(disk, base).total)
    requires ExtentsOnDevice(d', base, |disk|)
    ensures DiskOk(disk', base)
    ensures SuperblockOf(disk', base) == SuperblockOf(disk, base) && DirectoryOf(disk', base) == d'
  {
    DirectoryRoundTrip(d');
    assert disk'[base] == disk[base];
  }

  lemma FlushKeepsData(disk: seq<Sector>, disk': seq<Sector>, base: nat, d: Directory, d': Directory, dataStart: nat, total: nat)
    requires DATA_START <= dataStart && DirectoryOk(d, dataStart, total) && ExtentsOnDevice(d, base, |disk|)
    requires base + DATA_START <= |disk| && disk' == disk[base + DIR_LBA := EncodeDirectory(d')]
    ensures forall i :: 0 <= i < MAX_FILES && d[i].Live() ==> SameData(disk, disk', base, d[i])
  {
    forall i | 0 <= i < MAX_FILES && d[i].Live()
      ensures SameData(disk, disk', base, d[i])
    {
      assert EntryOk(d[i], dataStart, total);
      ApartKeepsData(disk, disk', base, d[i], DIR_LBA, 1);
    }
  }

  /** Flushing a directory whose slot `i` now names `name`. */
  lemma FlushCommit(disk: seq<Sector>, disk': seq<Sector>, base: nat, d: Directory, i: nat, e: Dirent, name: FileName,
                    data: seq<byte>, dataStart: nat, total: nat)
    requires DATA_START <= dataStart && i < MAX_FILES
    requires DirectoryOk(d, dataStart, total) && DirectoryOk(d[i := e], dataStart, total)
    requires ExtentsOnDevice(d, base, |disk|) && ExtentsOnDevice(d[i := e], base, |disk|)
    requires base + DATA_START <= |disk| && disk' == disk[base + DIR_LBA := EncodeDirectory(d[i := e])]
    requires Names(e, name) && (!d[i].Live() || Names(d[i], name))
    requires e.size == |data| && Holds(disk, base + e.start, data)
    ensures FilesIn(d[i := e], disk', base) == FilesIn(d, disk, base)[name := data]
  {
    DirectoryDistinct(d, dataStart, total);
    DirectoryDistinct(d[i := e], dataStart, total);
    FlushKeepsData(disk, disk', base, d, d[i := e], dataStart, total);
    FlushKeepsData(disk, disk', base, d[i := e], d[i := e], dataStart, total);
    FilesCommit(d, disk, disk', base, i, e, name);
    CommittedData(disk, disk', base, d[i := e], i, data);
  }

  lemma CommittedData(disk: seq<Sector>, disk': seq<Sector>, base: nat, d': Directory, i: nat, data: seq<byte>)
    requires i < MAX_FILES && d'[i].Live() && d'[i].size == |data| && Holds(disk, base + d'[i].start, data)
    requires ExtentsOnDevice(d', base, |disk'|) && SameData(disk, disk', base, d'[i])
    ensures DataOf(d', disk', base, i) == data
  {
    SameContents(disk, disk', base, d'[i]);
  }

  /** Flushing a directory whose slot `i` has been freed. */
  lemma FlushRemove(disk: seq<Sector>, disk': seq<Sector>, base: nat, d: Directory, i: nat, dataStart: nat, total: nat)
    requires DATA_START <= dataStart && i < MAX_FILES && d[i].Live()
    requires DirectoryOk(d, dataStart, total) && ExtentsOnDevice(d, base, |disk|)
    requires base + DATA_START <= |disk| && disk' == disk[base + DIR_LBA := EncodeDirectory(d[i := FREE_SLOT])]
    ensures FilesIn(d[i := FREE_SLOT], disk', base) == FilesIn(d, disk, base) - {CString(d[i].name)}
  {
    DirectoryDistinct(d, dataStart, total);
    FlushKeepsData(disk, disk', base, d, d[i := FREE_SLOT], dataStart, total);
    FilesRemove(d, disk, disk', base, i);
  }

  /** Disk and allocator of a mounted volume agree: the invariant of every run. */
  predicate VolumeOk(disk: seq<Sector>, base: nat, a: Alloc, dataStart: nat, total: nat) {
    && DiskOk(disk, base)
    && dataStart == SuperblockOf(disk, base).dataStart && total == SuperblockOf(disk, base).total
    && Layout(DirectoryOf(disk, base), a, dataStart, total)
    && FreeOnDevice(a, base, |disk|)
  }

  lemma VolumeFacts(disk: seq<Sector>, base: nat, a: Alloc, dataStart: nat, total: nat)
    requires VolumeOk(disk, base, a, dataStart, total)
    ensures Terminated(DirectoryOf(disk, base)) && DirectoryOk(DirectoryOf(disk, base), dataStart, total)
    ensures DATA_START <= dataStart <= MAX_BLOCKS && base + total + 2 * MAX_BLOCKS < ADDRESS_LIMIT
    ensures base + DATA_START <= |disk|
  {
    var d := DirectoryOf(disk, base);
    forall i | 0 <= i < MAX_FILES && d[i].Live()
      ensures d[i].name[NAME_LEN - 1] == 0
    {
      assert EntryOk(d[i], dataStart, total);
    }
  }

  lemma SlotFound(d: Directory, name: FileName)
    ensures Find(d, name) >= 0 ==> SlotFor(d, Find(d, name), name) && d[Find(d, name)].Live()
    ensures Find(d, name) < 0 && FirstFree(d) >= 0 ==> SlotFor(d, FirstFree(d), name) && !d[FirstFree(d)].Live()
  {
  }

  /** Data written to sectors nobody owns changes no file. */
  lemma UnownedWrite(disk: seq<Sector>, disk': seq<Sector>, base: nat, a: Alloc, dataStart: nat, total: nat, lo: nat, n: nat)
    requires VolumeOk(disk, base, a, dataStart, total)
    requires Unowned(DirectoryOf(disk, base), a, dataStart, total, lo, n)
    requires ChangedWithin(disk, disk', base + lo, n)
    ensures VolumeOk(disk', base, a, dataStart, total)
    ensures Files(disk', base) == Files(disk, base) && DirectoryOf(disk', base) == DirectoryOf(disk, base)
  {
    DataWrite(disk, disk', base, lo, n, -1);
  }

  /** Flushing the directory after slot `i` was given a new extent that holds `data`. */
  lemma NewFileFlush(disk: seq<Sector>, disk': seq<Sector>, base: nat, a: Alloc, dataStart: nat, total: nat,
                     i: nat, e: Dirent, name: FileName, data: seq<byte>)
    requires VolumeOk(disk, base, a, dataStart, total)
    requires SlotFor(DirectoryOf(disk, base), i, name) && Names(e, name) && e.name[NAME_LEN - 1] == 0
    requires 0 < e.size <= MAX_FILE_SIZE
    requires Unowned(DirectoryOf(disk, base), a, dataStart, total, e.start, e.Blocks())
    requires e.size == |data| && Holds(disk, base + e.start, data)
    requires disk' == disk[base + DIR_LBA := EncodeDirectory(DirectoryOf(disk, base)[i := e])]
    ensures VolumeOk(disk', base, a, dataStart, total)
    ensures Files(disk', base) == Files(disk, base)[name := data]
  {
    var d := DirectoryOf(disk, base);
    CommitLayout(d, a, dataStart, total, i, e, name);
    FlushDisk(disk, disk', base, d[i := e]);
    FlushCommit(disk, disk', base, d, i, e, name, data, dataStart, total);
  }

  lemma FindLive(d: Directory, name: FileName)
    ensures Find(d, name) >= 0 ==> d[Find(d, name)].Live()
  {
  }

  lemma RewriteFacts(disk: seq<Sector>, base: nat, a: Alloc, dataStart: nat, total: nat, name: FileName)
    requires VolumeOk(disk, base, a, dataStart, total) && Find(DirectoryOf(disk, base), name) >= 0
    ensures var e := DirectoryOf(disk, base)[Find(DirectoryOf(disk, base), name)];
            e.Live() && e.End() <= total && base + e.End() <= |disk|
  {
    var d := DirectoryOf(disk, base);
    assert EntryOk(d[Find(d, name)], dataStart, total);
  }

  /** Data written over the extent of `name` changes no other file. */
  lemma OwnedWrite(disk: seq<Sector>, disk': seq<Sector>, base: nat, a: Alloc, dataStart: nat, total: nat,
                   name: FileName, n: nat)
    requires VolumeOk(disk, base, a, dataStart, total) && Find(DirectoryOf(disk, base), name) >= 0
    requires n <= DirectoryOf(disk, base)[Find(DirectoryOf(disk, base), name)].Blocks()
    requires ChangedWithin(disk, disk', base + DirectoryOf(disk, base)[Find(DirectoryOf(disk, base), name)].start, n)
    ensures VolumeOk(disk', base, a, dataStart, total) && DirectoryOf(disk', base) == DirectoryOf(disk, base)
    ensures Files(disk', base).Keys == Files(disk, base).Keys && name in Files(disk, base)
    ensures forall m :: m in Files(disk, base) && m != name ==> Files(disk', base)[m] == Files(disk, base)[m]
  {
    var d := DirectoryOf(disk, base);
    var i := Find(d, name);
    assert EntryOk(d[i], dataStart, total);
    forall j | 0 <= j < MAX_FILES && j != i && d[j].Live()
      ensures Apart(d[j].start, d[j].Blocks(), d[i].start, n)
    {
      assert if i < j then EntriesCompatible(d[i], d[j]) else EntriesCompatible(d[j], d[i]);
    }
    DataWrite(disk, disk', base, d[i].start, n, i);
    assert name in FileNames(d);
    forall m | m in Files(disk, base) && m != name
      ensures Find(d, m) != i
    {
      assert Names(d[i], name);
    }
  }

  /** Flushing the directory after the extent of `name` was rewritten. */
  lemma RewriteFlush(disk: seq<Sector>, disk': seq<Sector>, base: nat, a: Alloc, dataStart: nat, total: nat,
                     name: FileName, data: seq<byte>)
    requires VolumeOk(disk, base, a, dataStart, total) && Find(DirectoryOf(disk, base), name) >= 0
    requires 0 < |data| <= MAX_FILE_SIZE
    requires var d, i := DirectoryOf(disk, base), Find(DirectoryOf(disk, base), name);
             && BlocksFor(|data|) <= d[i].Blocks()
             && Holds(disk, base + d[i].start, data)
             && disk' == disk[base + DIR_LBA := EncodeDirectory(d[i := d[i].(size := |data|)])]
    ensures VolumeOk(disk', base, a, dataStart, total)
    ensures Files(disk', base) == Files(disk, base)[name := data]
  {
    var d, i := DirectoryOf(disk, base), Find(DirectoryOf(disk, base), name);
    var e := d[i].(size := |data|);
    ShrinkLayout(d, a, dataStart, total, i, |data|);
    FlushDisk(disk, disk', base, d[i := e]);
    FlushCommit(disk, disk', base, d, i, e, name, data, dataStart, total);
  }

  /** Looking a name up in the directory finds exactly the files, and their data. */
  lemma FileLookup(disk: seq<Sector>, base: nat, a: Alloc, dataStart: nat, total: nat, name: FileName)
    requires VolumeOk(disk, base, a, dataStart, total)
    ensures name in Files(disk, base) <==> Find(DirectoryOf(disk, base), name) >= 0
    ensures name in Files(disk, base) ==>
              var e := DirectoryOf(disk, base)[Find(DirectoryOf(disk, base), name)];
              && 0 < e.size <= MAX_FILE_SIZE && e.End() <= total && base + e.End() <= |disk|
              && Files(disk, base)[name] == Contents(disk, base + e.start, e.size)
  {
    hide Contents, CString, Find, FileNames, FilesIn, DataOf;
    LookupIn(DirectoryOf(disk, base), disk, base, dataStart, total, name);
  }

  lemma LookupIn(d: Directory, disk: seq<Sector>, base: nat, dataStart: nat, total: nat, name: FileName)
    requires DirectoryOk(d, dataStart, total) && ExtentsOnDevice(d, base, |disk|)
    ensures name in FilesIn(d, disk, base) <==> Find(d, name) >= 0
    ensures Find(d, name) >= 0 ==>
              var e := d[Find(d, name)];
              && e.Live() && EntryOk(e, dataStart, total)
              && FilesIn(d, disk, base)[name] == Contents(disk, base + e.start, e.size)
  {
    hide CString, Contents, Find, FilesIn, NamesDistinct;
    DirectoryDistinct(d, dataStart, total);
    var i := Find(d, name);
    if i >= 0 {
      FileAt(d, disk, base, i);
    } else if name in FileNames(d) {
      var j := HasFile(d, name);
      assert false;
    }
  }

  /** The maps agree on every name but `name`. */
  ghost predicate SameBut(m: map<FileName, seq<byte>>, m': map<FileName, seq<byte>>, name: FileName) {
    forall n :: n != name ==> (n in m <==> n in m') && (n in m && n in m' ==> m'[n] == m[n])
  }

  /** Flushing the directory after `name` was deleted and its extent reclaimed. */
  lemma ReclaimOnDevice(d: Directory, a: Alloc, base: nat, size: nat, i: nat)
    requires i < MAX_FILES && d[i].Live() && ExtentsOnDevice(d, base, size) && FreeOnDevice(a, base, size)
    ensures FreeOnDevice(Reclaim(a, d[i]), base, size)
  {
  }

  lemma FoundLive(d: Directory, name: FileName)
    requires Find(d, name) >= 0
    ensures d[Find(d, name)].Live() && Names(d[Find(d, name)], name)
  {
  }

  lemma LayoutDirectory(d: Directory, a: Alloc, dataStart: nat, total: nat)
    requires Layout(d, a, dataStart, total)
    ensures DATA_START <= dataStart && DirectoryOk(d, dataStart, total)
  {
  }

  lemma RemoveOk(d: Directory, i: nat, dataStart: nat, total: nat, base: nat, size: nat)
    requires i < MAX_FILES && DirectoryOk(d, dataStart, total) && ExtentsOnDevice(d, base, size)
    ensures DirectoryOk(d[i := FREE_SLOT], dataStart, total) && ExtentsOnDevice(d[i := FREE_SLOT], base, size)
  {
  }

  lemma DeleteFlush(disk: seq<Sector>, disk': seq<Sector>, base: nat, a: Alloc, dataStart: nat, total: nat, name: FileName)
    requires VolumeOk(disk, base, a, dataStart, total) && Find(DirectoryOf(disk, base), name) >= 0
    requires var d, i := DirectoryOf(disk, base), Find(DirectoryOf(disk, base), name);
             disk' == disk[base + DIR_LBA := EncodeDirectory(d[i := FREE_SLOT])]
    ensures VolumeOk(disk', base, Reclaim(a, DirectoryOf(disk, base)[Find(DirectoryOf(disk, base), name)]), dataStart, total)
    ensures DiskOk(disk', base) && Files(disk', base) == Files(disk, base) - {name}
    ensures DirectoryOf(disk', base) != DirectoryOf(disk, base)
  {
    hide Layout, EncodeDirectory, Find;
    var d, i := DirectoryOf(disk, base), Find(DirectoryOf(disk, base), name);
    FoundLive(d, name);
    LayoutDirectory(d, a, dataStart, total);
    ReclaimOnDevice(d, a, base, |disk|, i);
    DeleteLayout(d, a, dataStart, total, i);
    RemoveOk(d, i, dataStart, total, base, |disk|);
    FlushDisk(disk, disk', base, d[i := FREE_SLOT]);
    FlushRemove(disk, disk', base, d, i, dataStart, total);
    assert d[i].Live() && !DirectoryOf(disk', base)[i].Live();
  }

  /** Without the flush, reclaiming the extent is only harmless when the list was full. */
  lemma DeleteUnflushed(disk: seq<Sector>, base: nat, a: Alloc, dataStart: nat, total: nat, name: FileName)
    requires VolumeOk(disk, base, a, dataStart, total) && Find(DirectoryOf(disk, base), name) >= 0
    ensures var a' := Reclaim(a, DirectoryOf(disk, base)[Find(DirectoryOf(disk, base), name)]);
            VolumeOk(disk, base, a', dataStart, total) <==> a' == a
  {
    var d, i := DirectoryOf(disk, base), Find(DirectoryOf(disk, base), name);
    UnflushedDeleteBreaksLayout(d, a, dataStart, total, i);
  }

  /** A disk with the superblock and the empty directory that format writes. */
  lemma FormattedDisk(disk: seq<Sector>, base: nat, total: u32, free: seq<Extent>)
    requires base + DATA_START <= |disk|
    requires disk[base] == EncodeSuperblock(Superblock(MAGIC, 1, total, DATA_START))
    requires disk[base + 1] == EncodeDirectory(seq(16, _ => FREE_SLOT))
    ensures DiskOk(disk, base) <==> base + total + 2 * MAX_BLOCKS < ADDRESS_LIMIT
    ensures DiskOk(disk, base) ==> Files(disk, base) == map[]
    ensures DiskOk(disk, base) ==> (VolumeOk(disk, base, Alloc(free, DATA_START), DATA_START, total) <==> free == [])
  {
    var d: Directory := seq(16, _ => FREE_SLOT);
    SuperblockRoundTrip(Superblock(MAGIC, 1, total, DATA_START));
    DirectoryRoundTrip(d);
    assert DirectoryOf(disk, base) == d;
    assert FileNames(d) == {};
    ReformatLayout(d, free, DATA_START, total);
  }

  lemma NoFiles(disk: seq<Sector>, base: nat)
    requires DiskOk(disk, base)
    ensures Files(disk, base) == map[] <==> forall i :: 0 <= i < MAX_FILES ==> !DirectoryOf(disk, base)[i].Live()
  {
    var d := DirectoryOf(disk, base);
    if i :| 0 <= i < MAX_FILES && d[i].Live() {
      assert CString(d[i].name) in Files(disk, base);
    }
  }

  /** The bump pointer is never below where a mount would put it. */
  lemma ResumeBelow(disk: seq<Sector>, base: nat, a: Alloc, dataStart: nat, total: nat)
    requires VolumeOk(disk, base, a, dataStart, total)
    ensures ResumeAt(DirectoryOf(disk, base), dataStart) <= a.next
    ensures dataStart == SuperblockOf(disk, base).dataStart && total == SuperblockOf(disk, base).total
  {
  }

  /** A name that is not on the disk finds a free slot unless there are 16 files. */
  lemma SlotLeft(disk: seq<Sector>, base: nat, name: FileName)
    requires DiskOk(disk, base)
    ensures name in Files(disk, base) ==> Find(DirectoryOf(disk, base), name) >= 0
    ensures |Files(disk, base)| < MAX_FILES <==> FirstFree(DirectoryOf(disk, base)) >= 0
    ensures |Files(disk, base)| <= MAX_FILES
  {
    var d := DirectoryOf(disk, base);
    var sb := SuperblockOf(disk, base);
    DirectoryDistinct(d, sb.dataStart, sb.total);
    LookupIn(d, disk, base, sb.dataStart, sb.total, name);
    if FirstFree(d) < 0 {
      FullDirectory(d);
    }
    DirectoryWithRoom(d);
    assert |Files(disk, base)| == |Files(disk, base).Keys|;
  }
}
