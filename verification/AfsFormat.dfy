/** On-disk format of AEOS-FS and the file map a disk stands for.

    Sector 0 of the volume is the superblock, sector 1 the directory (16 entries of 32
    bytes), and file data follows in contiguous extents. */
module AfsFormat {
  import opened Bytes
  import opened BlockDevice

  const MAGIC: u32 := 0x31534645
  const SB_LBA: nat := 0
  const DIR_LBA: nat := 1
  const DATA_START: nat := 2
  const MAX_FILES: nat := 16
  const NAME_LEN: nat := 24
  const MAX_FILE_SIZE: nat := 1024 * 1024
  const MAX_BLOCKS: nat := 2048
  const ADDRESS_LIMIT: nat := 0x1_0000_0000

  type RawName = s: seq<byte> | |s| == NAME_LEN witness seq(24, _ => 0)

  /** A file name as the API receives it: the characters before the terminating NUL. */
  type FileName = s: seq<byte> | 0 !in s

  datatype Dirent = Dirent(name: RawName, start: u32, size: u32) {
    predicate Live() { start != 0 }
    function Blocks(): nat { BlocksFor(size) }
    function End(): nat { start + Blocks() }
  }

  const FREE_SLOT: Dirent := Dirent(seq(24, _ => 0), 0, 0)

  type Directory = d: seq<Dirent> | |d| == MAX_FILES witness seq(16, _ => FREE_SLOT)

  datatype Superblock = Superblock(magic: u32, version: u32, total: u32, dataStart: u32)

  function BlocksFor(bytes: nat): nat {
    (bytes + 511) / 512
  }

  /** The fewest sectors that hold so many bytes. */
  lemma BlocksForMeans(bytes: nat, n: nat)
    ensures BlocksFor(bytes) <= n <==> bytes <= 512 * n
  {
  }

  // ---- Encoding ---------------------------------------------------------------

  function EncodeDirent(e: Dirent): (s: seq<byte>)
    ensures |s| == 32
  {
    e.name + EncodeLE32(e.start) + EncodeLE32(e.size)
  }

  function DecodeDirent(s: seq<byte>): Dirent
    requires |s| == 32
  {
    Dirent(s[..24], DecodeLE32(s[24..28]), DecodeLE32(s[28..32]))
  }

  lemma DirentRoundTrip(e: Dirent)
    ensures DecodeDirent(EncodeDirent(e)) == e
  {
    var s := EncodeDirent(e);
    assert s[..24] == e.name && s[24..28] == EncodeLE32(e.start) && s[28..32] == EncodeLE32(e.size);
    LE32RoundTrip(e.start);
    LE32RoundTrip(e.size);
  }

  function EncodeDirectory(d: Directory): Sector {
    seq(512, j requires 0 <= j < 512 => EncodeDirent(d[j / 32])[j % 32])
  }

  function DecodeDirectory(s: Sector): Directory {
    seq(MAX_FILES, i requires 0 <= i < MAX_FILES => DecodeDirent(s[32 * i..32 * i + 32]))
  }

  lemma DirectoryRoundTrip(d: Directory)
    ensures DecodeDirectory(EncodeDirectory(d)) == d
  {
    var s := EncodeDirectory(d);
    forall i | 0 <= i < MAX_FILES
      ensures DecodeDirectory(s)[i] == d[i]
    {
      assert s[32 * i..32 * i + 32] == EncodeDirent(d[i]) by {
        forall k | 0 <= k < 32
          ensures s[32 * i + k] == EncodeDirent(d[i])[k]
        {
          assert (32 * i + k) / 32 == i && (32 * i + k) % 32 == k;
        }
      }
      DirentRoundTrip(d[i]);
    }
  }

  /** The superblock occupies the first 16 bytes; format clears the rest of the sector. */
  function EncodeSuperblock(sb: Superblock): Sector {
    EncodeLE32(sb.magic) + EncodeLE32(sb.version) + EncodeLE32(sb.total) + EncodeLE32(sb.dataStart)
    + seq(496, _ => 0)
  }

  function DecodeSuperblock(s: Sector): Superblock {
    Superblock(DecodeLE32(s[..4]), DecodeLE32(s[4..8]), DecodeLE32(s[8..12]), DecodeLE32(s[12..16]))
  }

  lemma SuperblockRoundTrip(sb: Superblock)
    ensures DecodeSuperblock(EncodeSuperblock(sb)) == sb
  {
    var s := EncodeSuperblock(sb);
    assert s[..4] == EncodeLE32(sb.magic) && s[4..8] == EncodeLE32(sb.version);
    assert s[8..12] == EncodeLE32(sb.total) && s[12..16] == EncodeLE32(sb.dataStart);
    LE32RoundTrip(sb.magic);
    LE32RoundTrip(sb.version);
    LE32RoundTrip(sb.total);
    LE32RoundTrip(sb.dataStart);
  }

  // ---- Directory lookup -------------------------------------------------------

  predicate Names(e: Dirent, name: FileName) {
    e.Live() && CString(e.name) == name
  }

  /** Index of the first live entry called `name`, or -1. */
  function Find(d: Directory, name: FileName, from: nat := 0): (r: int)
    requires from <= MAX_FILES
    ensures -1 <= r < MAX_FILES
    ensures r < 0 ==> forall i :: from <= i < MAX_FILES ==> !Names(d[i], name)
    ensures r >= 0 ==> from <= r && Names(d[r], name) && forall i :: from <= i < r ==> !Names(d[i], name)
    decreases MAX_FILES - from
  {
    if from == MAX_FILES then -1
    else if Names(d[from], name) then from
    else Find(d, name, from + 1)
  }

  /** Index of the first free slot, or -1. */
  function FirstFree(d: Directory, from: nat := 0): (r: int)
    requires from <= MAX_FILES
    ensures -1 <= r < MAX_FILES
    ensures r < 0 ==> forall i :: from <= i < MAX_FILES ==> d[i].Live()
    ensures r >= 0 ==> from <= r && !d[r].Live() && forall i :: from <= i < r ==> d[i].Live()
    decreases MAX_FILES - from
  {
    if from == MAX_FILES then -1
    else if !d[from].Live() then from
    else FirstFree(d, from + 1)
  }

  /** The name field a fresh slot gets: at most 23 characters, NUL padded. */
  function StoredName(name: FileName): (r: RawName) {
    seq(NAME_LEN, i requires 0 <= i < NAME_LEN => if i < NAME_LEN - 1 && i < |name| then name[i] else 0)
  }

  /** A stored name reads back as itself exactly when it has at most 23 characters. */
  lemma StoredNameFaithful(name: FileName)
    ensures CString(StoredName(name)) == name <==> |name| <= NAME_LEN - 1
  {
    var s := StoredName(name);
    if |name| <= NAME_LEN - 1 {
      assert s[..|name|] == name;
      CStringIs(s, name);
    } else {
      assert s[..NAME_LEN - 1] == name[..NAME_LEN - 1];
      CStringIs(s, name[..NAME_LEN - 1]);
    }
  }

  // ---- What a well-formed disk is ---------------------------------------------

  predicate Apart(start: nat, count: nat, start': nat, count': nat) {
    start + count <= start' || start' + count' <= start
  }

  predicate EntryOk(e: Dirent, dataStart: nat, total: nat) {
    && e.name[NAME_LEN - 1] == 0
    && dataStart <= e.start
    && 0 < e.size <= MAX_FILE_SIZE
    && e.End() <= total
  }

  predicate EntriesCompatible(e: Dirent, e': Dirent) {
    CString(e.name) != CString(e'.name) && Apart(e.start, e.Blocks(), e'.start, e'.Blocks())
  }

  /** Every live entry is sound, and live entries have distinct names and disjoint extents. */
  predicate DirectoryOk(d: Directory, dataStart: nat, total: nat) {
    && (forall i :: 0 <= i < MAX_FILES && d[i].Live() ==> EntryOk(d[i], dataStart, total))
    && (forall i, j :: 0 <= i < j < MAX_FILES && d[i].Live() && d[j].Live() ==> EntriesCompatible(d[i], d[j]))
  }

  function SuperblockOf(disk: seq<Sector>, base: nat): Superblock
    requires base + DATA_START <= |disk|
  {
    DecodeSuperblock(disk[base + SB_LBA])
  }

  function DirectoryOf(disk: seq<Sector>, base: nat): Directory
    requires base + DATA_START <= |disk|
  {
    DecodeDirectory(disk[base + DIR_LBA])
  }

  /** Live extents lie on the device. */
  predicate ExtentsOnDevice(d: Directory, base: nat, size: nat) {
    forall i :: 0 <= i < MAX_FILES && d[i].Live() ==> base + d[i].End() <= size
  }

  /** A disk AEOS-FS can mount. The last conjunct of the superblock part keeps sector
      numbers, and the sums the allocator compares, below 2^32. */
  predicate DiskOk(disk: seq<Sector>, base: nat) {
    && base + DATA_START <= |disk|
    && var sb := SuperblockOf(disk, base);
       && sb.magic == MAGIC && sb.version == 1
       && DATA_START <= sb.dataStart <= MAX_BLOCKS
       && base + sb.total + 2 * MAX_BLOCKS < ADDRESS_LIMIT
       && DirectoryOk(DirectoryOf(disk, base), sb.dataStart, sb.total)
       && ExtentsOnDevice(DirectoryOf(disk, base), base, |disk|)
  }

  /** Where the fields lie on the disk: a superblock of four little-endian words, and 16 entries
      of 24 name bytes and two such words. */
  lemma FieldsOnDisk(sb: Superblock, d: Directory, i: nat)
    requires i < MAX_FILES
    ensures var s := EncodeSuperblock(sb);
            && LittleEndian(s[0..4]) == sb.magic && LittleEndian(s[4..8]) == sb.version
            && LittleEndian(s[8..12]) == sb.total && LittleEndian(s[12..16]) == sb.dataStart
    ensures var s, at := EncodeDirectory(d), 32 * i;
            && s[at..at + 24] == d[i].name
            && LittleEndian(s[at + 24..at + 28]) == d[i].start && LittleEndian(s[at + 28..at + 32]) == d[i].size
  {
    hide DecodeLE32, EncodeLE32, LittleEndian, EncodeSuperblock, EncodeDirectory, EncodeDirent;
    SuperblockRoundTrip(sb);
    DirectoryRoundTrip(d);
    SuperblockWords(EncodeSuperblock(sb));
    DirentWords(EncodeDirectory(d), i);
  }

  lemma SuperblockWords(s: Sector)
    ensures var sb := DecodeSuperblock(s);
            && LittleEndian(s[0..4]) == sb.magic && LittleEndian(s[4..8]) == sb.version
            && LittleEndian(s[8..12]) == sb.total && LittleEndian(s[12..16]) == sb.dataStart
  {
    hide DecodeLE32, LittleEndian;
    assert s[..4] == s[0..4];
    WordOrder(s[0..4]);
    WordOrder(s[4..8]);
    WordOrder(s[8..12]);
    WordOrder(s[12..16]);
  }

  lemma SliceOf(s: seq<byte>, at: nat, n: nat, lo: nat, hi: nat)
    requires at + n <= |s| && lo <= hi <= n
    ensures s[at..at + n][lo..hi] == s[at + lo..at + hi]
  {
    var a, b := s[at..at + n][lo..hi], s[at + lo..at + hi];
    forall i | 0 <= i < |a|
      ensures a[i] == b[i]
    {
    }
  }

  lemma DirentWords(s: Sector, i: nat)
    requires i < MAX_FILES
    ensures var e, at := DecodeDirectory(s)[i], 32 * i;
            && s[at..at + 24] == e.name
            && LittleEndian(s[at + 24..at + 28]) == e.start && LittleEndian(s[at + 28..at + 32]) == e.size
  {
    hide DecodeLE32, LittleEndian;
    var at := 32 * i;
    var t := s[at..at + 32];
    SliceOf(s, at, 32, 0, 24);
    SliceOf(s, at, 32, 24, 28);
    SliceOf(s, at, 32, 28, 32);
    assert t[..24] == t[0..24];
    WordOrder(t[24..28]);
    WordOrder(t[28..32]);
  }

  // ---- The file map a disk stands for -----------------------------------------

  /** `size` bytes from sector `at` on. */
  function Contents(disk: seq<Sector>, at: nat, size: nat): (r: seq<byte>)
    requires at + BlocksFor(size) <= |disk|
    ensures |r| == size
  {
    seq(size, i requires 0 <= i < size => disk[at + i / 512][i % 512])
  }

  predicate Holds(disk: seq<Sector>, at: nat, data: seq<byte>) {
    at + BlocksFor(|data|) <= |disk| && Contents(disk, at, |data|) == data
  }

  ghost function FileNames(d: Directory): set<FileName> {
    set i | 0 <= i < MAX_FILES && d[i].Live() :: CString(d[i].name)
  }

  /** The file map of directory `d` over the data sectors of `disk`. */
  ghost function FilesIn(d: Directory, disk: seq<Sector>, base: nat): (m: map<FileName, seq<byte>>)
    requires ExtentsOnDevice(d, base, |disk|)
    ensures m.Keys == FileNames(d)
  {
    map n: FileName | n in FileNames(d) :: DataOf(d, disk, base, Find(d, n))
  }

  function DataOf(d: Directory, disk: seq<Sector>, base: nat, i: int): seq<byte>
    requires ExtentsOnDevice(d, base, |disk|)
  {
    if 0 <= i < MAX_FILES && d[i].Live() then Contents(disk, base + d[i].start, d[i].size) else []
  }

  /** The file map a disk stands for: its abstract value. */
  ghost function Files(disk: seq<Sector>, base: nat): map<FileName, seq<byte>>
    requires DiskOk(disk, base)
  {
    FilesIn(DirectoryOf(disk, base), disk, base)
  }

  predicate NamesDistinct(d: Directory) {
    forall i, j :: 0 <= i < j < MAX_FILES && d[i].Live() && d[j].Live() ==> CString(d[i].name) != CString(d[j].name)
  }

  ghost function NamesBelow(d: Directory, n: nat): set<FileName>
    requires n <= MAX_FILES
  {
    set i | 0 <= i < n && d[i].Live() :: CString(d[i].name)
  }

  lemma {:induction false} NamesCounted(d: Directory, n: nat)
    requires n <= MAX_FILES && NamesDistinct(d) && forall i :: 0 <= i < MAX_FILES ==> d[i].Live()
    ensures |NamesBelow(d, n)| == n
  {
    hide CString;
    if n > 0 {
      NamesCounted(d, n - 1);
      assert NamesBelow(d, n) == NamesBelow(d, n - 1) + {CString(d[n - 1].name)};
    }
  }

  /** A directory without a free slot lists 16 files. */
  lemma FullDirectory(d: Directory)
    requires NamesDistinct(d) && forall i :: 0 <= i < MAX_FILES ==> d[i].Live()
    ensures |FileNames(d)| == MAX_FILES
  {
    NamesCounted(d, MAX_FILES);
    assert FileNames(d) == NamesBelow(d, MAX_FILES);
  }

  lemma {:induction false} NamesAtMost(d: Directory, n: nat, free: nat)
    requires n <= MAX_FILES
    ensures |NamesBelow(d, n)| <= n && (free < n && !d[free].Live() ==> |NamesBelow(d, n)| < n)
  {
    hide CString;
    if n > 0 {
      NamesAtMost(d, n - 1, free);
      if d[n - 1].Live() {
        assert NamesBelow(d, n) == NamesBelow(d, n - 1) + {CString(d[n - 1].name)};
      } else {
        assert NamesBelow(d, n) == NamesBelow(d, n - 1);
      }
    }
  }

  /** One with a free slot lists fewer. */
  lemma DirectoryWithRoom(d: Directory)
    ensures |FileNames(d)| <= MAX_FILES && (FirstFree(d) >= 0 ==> |FileNames(d)| < MAX_FILES)
  {
    NamesAtMost(d, MAX_FILES, if FirstFree(d) >= 0 then FirstFree(d) else 0);
    assert FileNames(d) == NamesBelow(d, MAX_FILES);
  }

  lemma FindIs(d: Directory, i: nat)
    requires NamesDistinct(d) && i < MAX_FILES && d[i].Live()
    ensures Find(d, CString(d[i].name)) == i
  {
    var k := Find(d, CString(d[i].name));
    assert Names(d[i], CString(d[i].name));
    assert 0 <= k <= i && d[k].Live();
  }

  lemma HasFile(d: Directory, n: FileName) returns (i: nat)
    requires n in FileNames(d)
    ensures i < MAX_FILES && Names(d[i], n)
  {
    i :| 0 <= i < MAX_FILES && d[i].Live() && n == CString(d[i].name);
  }

  /** `FilesIn` entry by entry. */
  lemma FileAt(d: Directory, disk: seq<Sector>, base: nat, i: nat)
    requires NamesDistinct(d) && ExtentsOnDevice(d, base, |disk|)
    requires i < MAX_FILES && d[i].Live()
    ensures CString(d[i].name) in FilesIn(d, disk, base)
    ensures FilesIn(d, disk, base)[CString(d[i].name)] == DataOf(d, disk, base, i)
  {
    var n := CString(d[i].name);
    FindIs(d, i);
    assert d[i].Live() && n == CString(d[i].name);
    assert n in FileNames(d);
  }

  /** The sectors of [lo, lo + count) are the same on both disks. */
  predicate SameSectors(disk: seq<Sector>, disk': seq<Sector>, lo: nat, count: nat) {
    |disk'| == |disk| && lo + count <= |disk|
    && forall s :: lo <= s < lo + count ==> disk'[s] == disk[s]
  }

  /** The data of entry `e` is the same on both disks. */
  predicate SameData(disk: seq<Sector>, disk': seq<Sector>, base: nat, e: Dirent) {
    SameSectors(disk, disk', base + e.start, e.Blocks())
  }

  lemma SameContents(disk: seq<Sector>, disk': seq<Sector>, base: nat, e: Dirent)
    requires SameData(disk, disk', base, e)
    ensures Contents(disk', base + e.start, e.size) == Contents(disk, base + e.start, e.size)
  {
  }

  /** A file whose entry and data are the same in both directories and disks. */
  lemma SameFile(d: Directory, d': Directory, disk: seq<Sector>, disk': seq<Sector>, base: nat, j: nat)
    requires NamesDistinct(d) && NamesDistinct(d') && j < MAX_FILES && d'[j] == d[j] && d[j].Live()
    requires ExtentsOnDevice(d, base, |disk|) && ExtentsOnDevice(d', base, |disk'|)
    requires SameData(disk, disk', base, d[j])
    ensures CString(d[j].name) in FilesIn(d, disk, base) && CString(d[j].name) in FilesIn(d', disk', base)
    ensures FilesIn(d', disk', base)[CString(d[j].name)] == FilesIn(d, disk, base)[CString(d[j].name)]
  {
    FileAt(d, disk, base, j);
    FileAt(d', disk', base, j);
    SameContents(disk, disk', base, d[j]);
  }

  /** Framing: if the data of every live entry but slot `but` is unchanged, so is every
      other file. */
  lemma FilesFrame(d: Directory, disk: seq<Sector>, disk': seq<Sector>, base: nat, but: int)
    requires NamesDistinct(d) && ExtentsOnDevice(d, base, |disk|) && |disk'| == |disk|
    requires forall i :: 0 <= i < MAX_FILES && i != but && d[i].Live() ==> SameData(disk, disk', base, d[i])
    ensures FilesIn(d, disk', base).Keys == FilesIn(d, disk, base).Keys
    ensures forall n :: n in FilesIn(d, disk, base) && Find(d, n) != but ==>
              FilesIn(d, disk', base)[n] == FilesIn(d, disk, base)[n]
  {
    forall n | n in FilesIn(d, disk, base) && Find(d, n) != but
      ensures FilesIn(d, disk', base)[n] == FilesIn(d, disk, base)[n]
    {
      var i := HasFile(d, n);
      FindIs(d, i);
      SameFile(d, d, disk, disk', base, i);
    }
  }

  /** Which names a directory lists after slot `i` changes. */
  lemma NamesAfter(d: Directory, i: nat, e: Dirent)
    requires i < MAX_FILES && NamesDistinct(d) && NamesDistinct(d[i := e])
    ensures FileNames(d[i := e]) ==
            FileNames(d) - (if d[i].Live() then {CString(d[i].name)} else {})
                         + (if e.Live() then {CString(e.name)} else {})
  {
    var d' := d[i := e];
    forall n: FileName
      ensures n in FileNames(d') <==> (n in FileNames(d) && !Names(d[i], n)) || Names(e, n)
    {
      if n in FileNames(d') {
        var j := HasFile(d', n);
        if j != i {
          assert Names(d[j], n);
        }
      }
      if n in FileNames(d) && !Names(d[i], n) {
        var j := HasFile(d, n);
        assert Names(d'[j], n);
      }
      if Names(e, n) {
        assert Names(d'[i], n);
      }
    }
  }

  lemma NamesCommit(d: Directory, i: nat, e: Dirent, name: FileName)
    requires i < MAX_FILES && NamesDistinct(d) && NamesDistinct(d[i := e])
    requires Names(e, name) && (!d[i].Live() || Names(d[i], name))
    ensures FileNames(d[i := e]) == FileNames(d) + {name}
  {
    NamesAfter(d, i, e);
    if d[i].Live() {
      assert CString(d[i].name) in FileNames(d);
    }
  }

  lemma UpdatedMap<K, V>(m: map<K, V>, m': map<K, V>, k: K, v: V)
    requires m'.Keys == m.Keys + {k} && m'[k] == v
    requires forall n :: n in m' && n != k ==> n in m && m'[n] == m[n]
    ensures m' == m[k := v]
  {
  }

  lemma ReducedMap<K, V>(m: map<K, V>, m': map<K, V>, k: K)
    requires m'.Keys == m.Keys - {k}
    requires forall n :: n in m' ==> n in m && m'[n] == m[n]
    ensures m' == m - {k}
  {
  }

  /** Committing slot `i`: its new entry names `name`, and no data another live entry refers
      to has changed. */
  lemma FilesCommit(d: Directory, disk: seq<Sector>, disk': seq<Sector>, base: nat, i: nat, e: Dirent, name: FileName)
    requires i < MAX_FILES && NamesDistinct(d) && NamesDistinct(d[i := e])
    requires |disk'| == |disk| && ExtentsOnDevice(d, base, |disk|) && ExtentsOnDevice(d[i := e], base, |disk|)
    requires Names(e, name)
    requires !d[i].Live() || Names(d[i], name)
    requires forall j :: 0 <= j < MAX_FILES && j != i && d[j].Live() ==> SameData(disk, disk', base, d[j])
    ensures FilesIn(d[i := e], disk', base) == FilesIn(d, disk, base)[name := DataOf(d[i := e], disk', base, i)]
  {
    var d' := d[i := e];
    var m, m' := FilesIn(d, disk, base), FilesIn(d', disk', base);
    NamesCommit(d, i, e, name);
    FileAt(d', disk', base, i);
    forall n | n in m' && n != name
      ensures n in m && m'[n] == m[n]
    {
      var j := HasFile(d', n);
      SameFile(d, d', disk, disk', base, j);
    }
    UpdatedMap(m, m', name, DataOf(d', disk', base, i));
  }

  /** Freeing slot `i` removes exactly its file. */
  lemma FilesRemove(d: Directory, disk: seq<Sector>, disk': seq<Sector>, base: nat, i: nat)
    requires i < MAX_FILES && NamesDistinct(d) && d[i].Live()
    requires |disk'| == |disk| && ExtentsOnDevice(d, base, |disk|)
    requires forall j :: 0 <= j < MAX_FILES && j != i && d[j].Live() ==> SameData(disk, disk', base, d[j])
    ensures FilesIn(d[i := FREE_SLOT], disk', base) == FilesIn(d, disk, base) - {CString(d[i].name)}
  {
    var d' := d[i := FREE_SLOT];
    var m, m' := FilesIn(d, disk, base), FilesIn(d', disk', base);
    NamesAfter(d, i, FREE_SLOT);
    forall n | n in m'
      ensures n in m && m'[n] == m[n]
    {
      var j := HasFile(d', n);
      SameFile(d, d', disk, disk', base, j);
    }
    ReducedMap(m, m', CString(d[i].name));
  }
}
