/** How AEOS-FS divides the data area: live extents, the free list and the bump region.

    `Layout` is the invariant of every run. The lemmas show that each way a call moves
    sectors between the three parts keeps it. */
module AfsLayout {
  import opened Bytes
  import opened BlockDevice
  import opened AfsFormat

  const MAX_FREE_EXTENTS: nat := 32

  datatype Extent = Extent(start: nat, count: nat)

  /** Allocation state kept in memory: the free list and the bump pointer. */
  datatype Alloc = Alloc(free: seq<Extent>, next: nat)

  /** Free-list extents are non-empty, inside the allocated area and pairwise disjoint. */
  predicate FreeListOk(a: Alloc, dataStart: nat, total: nat) {
    && |a.free| <= MAX_FREE_EXTENTS
    && (forall k :: 0 <= k < |a.free| ==>
          && 0 < a.free[k].count && dataStart <= a.free[k].start
          && a.free[k].start + a.free[k].count <= a.next && a.free[k].start + a.free[k].count <= total)
    && (forall k, l :: 0 <= k < l < |a.free| ==>
          Apart(a.free[k].start, a.free[k].count, a.free[l].start, a.free[l].count))
  }

  /** The sector is on the free list. */
  predicate IsFree(a: Alloc, x: nat) {
    exists k :: 0 <= k < |a.free| && Within(a.free[k], x)
  }

  predicate Within(e: Extent, x: nat) {
    e.start <= x < e.start + e.count
  }

  /** The device has every sector on the free list. */
  predicate FreeOnDevice(a: Alloc, base: nat, size: nat) {
    forall k :: 0 <= k < |a.free| ==> base + a.free[k].start + a.free[k].count <= size
  }

  predicate OffFreeList(a: Alloc, start: nat, count: nat) {
    forall k :: 0 <= k < |a.free| ==> Apart(a.free[k].start, a.free[k].count, start, count)
  }

  predicate OffDirectory(d: Directory, start: nat, count: nat) {
    forall i :: 0 <= i < MAX_FILES && d[i].Live() ==> Apart(d[i].start, d[i].Blocks(), start, count)
  }

  /** The extent invariant: live extents, free-list extents and [next, total) are pairwise
      disjoint and lie above the superblock and the directory. */
  predicate Layout(d: Directory, a: Alloc, dataStart: nat, total: nat) {
    && DATA_START <= dataStart <= a.next <= total + dataStart
    && DirectoryOk(d, dataStart, total)
    && FreeListOk(a, dataStart, total)
    && (forall i :: 0 <= i < MAX_FILES && d[i].Live() ==> d[i].End() <= a.next)
    && (forall i :: 0 <= i < MAX_FILES && d[i].Live() ==> OffFreeList(a, d[i].start, d[i].Blocks()))
  }

  /** [start, start + count) belongs to nobody: neither live, nor free, nor above the bump
      pointer. */
  predicate Unowned(d: Directory, a: Alloc, dataStart: nat, total: nat, start: nat, count: nat) {
    && dataStart <= start && start + count <= a.next && start + count <= total
    && OffDirectory(d, start, count)
    && OffFreeList(a, start, count)
  }

  // ---- Taking an extent -------------------------------------------------------

  /** Index of the first free extent of at least `n` sectors, or -1. */
  function FirstFit(free: seq<Extent>, n: nat, from: nat := 0): (r: int)
    requires from <= |free|
    ensures -1 <= r < |free|
    ensures r >= 0 ==> from <= r && free[r].count >= n && forall k :: from <= k < r ==> free[k].count < n
    ensures r < 0 ==> forall k :: from <= k < |free| ==> free[k].count < n
    decreases |free| - from
  {
    if from == |free| then -1
    else if free[from].count >= n then from
    else FirstFit(free, n, from + 1)
  }

  /** Where a request for `n` sectors is placed, if it is: first fit, else the bump pointer. */
  function Chosen(a: Alloc, n: nat): nat {
    if FirstFit(a.free, n) >= 0 then a.free[FirstFit(a.free, n)].start else a.next
  }

  /** The allocator has `n` sectors by its own bookkeeping. */
  predicate Placed(a: Alloc, n: nat, total: nat) {
    FirstFit(a.free, n) >= 0 || a.next + n <= total
  }

  /** A request that fits between the bump pointer and `limit` is placed below `limit`. */
  lemma ChosenBelow(a: Alloc, dataStart: nat, total: nat, n: nat, limit: nat)
    requires FreeListOk(a, dataStart, total) && a.next + n <= limit
    ensures Chosen(a, n) + n <= limit
  {
  }

  /** The list after `n` sectors are cut off the front of extent `k`; an extent that becomes
      empty is replaced by the last one. */
  function CutFront(free: seq<Extent>, k: nat, n: nat): seq<Extent>
    requires k < |free| && n <= free[k].count
  {
    if free[k].count == n then free[k := free[|free| - 1]][..|free| - 1]
    else free[k := Extent(free[k].start + n, free[k].count - n)]
  }

  /** The allocator after it has placed a request. */
  function Take(a: Alloc, n: nat): Alloc {
    var k := FirstFit(a.free, n);
    if k >= 0 then Alloc(CutFront(a.free, k, n), a.next) else Alloc(a.free, a.next + n)
  }

  /** Placing a request takes exactly its sectors off the free list, or off the bump region when
      no listed extent is large enough. */
  lemma TakeMeans(a: Alloc, dataStart: nat, total: nat, n: nat, x: nat)
    requires FreeListOk(a, dataStart, total) && n > 0
    ensures IsFree(Take(a, n), x) <==> IsFree(a, x) && !(Chosen(a, n) <= x < Chosen(a, n) + n)
    ensures Take(a, n).next == if forall k :: 0 <= k < |a.free| ==> a.free[k].count < n then a.next + n else a.next
    ensures a.next <= x <==> Take(a, n).next <= x || (Chosen(a, n) == a.next && a.next <= x < a.next + n)
  {
    var k := FirstFit(a.free, n);
    if k >= 0 {
      CutMeans(a, dataStart, total, k, n, x);
    } else {
      forall j | 0 <= j < |a.free|
        ensures !(Within(a.free[j], x) && a.next <= x)
      {
      }
    }
  }

  lemma CutMeans(a: Alloc, dataStart: nat, total: nat, k: nat, n: nat, x: nat)
    requires FreeListOk(a, dataStart, total) && k < |a.free| && 0 < n <= a.free[k].count
    ensures IsFree(Alloc(CutFront(a.free, k, n), a.next), x) <==>
            IsFree(a, x) && !(a.free[k].start <= x < a.free[k].start + n)
  {
    var f, f' := a.free, CutFront(a.free, k, n);
    var last := |f| - 1;
    OneHome(a, dataStart, total, x);
    hide FreeListOk, CutFront;
    CutEntries(f, k, n);
    if IsFree(Alloc(f', a.next), x) {
      var j :| 0 <= j < |f'| && Within(f'[j], x);
      var i := if j != k then j else if f[k].count == n then last else k;
      assert Within(f[i], x);
    }
    if IsFree(a, x) && !(f[k].start <= x < f[k].start + n) {
      var i :| 0 <= i < |f| && Within(f[i], x);
      var j := if f[k].count == n && i == last then k else i;
      assert Within(f'[j], x);
    }
  }

  /** The entries of the list after a cut. */
  lemma CutEntries(f: seq<Extent>, k: nat, n: nat)
    requires k < |f| && n <= f[k].count
    ensures var f', last := CutFront(f, k, n), |f| - 1;
            if f[k].count == n
            then |f'| == last && (forall j :: 0 <= j < last && j != k ==> f'[j] == f[j]) && (k < last ==> f'[k] == f[last])
            else |f'| == |f| && (forall j :: 0 <= j < |f| && j != k ==> f'[j] == f[j])
                 && f'[k] == Extent(f[k].start + n, f[k].count - n)
  {
  }

  /** No sector is in two listed extents. */
  lemma OneHome(a: Alloc, dataStart: nat, total: nat, x: nat)
    requires FreeListOk(a, dataStart, total)
    ensures forall i, j :: 0 <= i < |a.free| && 0 <= j < |a.free| && Within(a.free[i], x) && Within(a.free[j], x) ==> i == j
  {
    forall i, j | 0 <= i < j < |a.free|
      ensures !(Within(a.free[i], x) && Within(a.free[j], x))
    {
      assert Apart(a.free[i].start, a.free[i].count, a.free[j].start, a.free[j].count);
    }
  }

  lemma SameFreeOnDevice(a: Alloc, b: Alloc, base: nat, size: nat)
    requires b.free == a.free
    ensures FreeOnDevice(a, base, size) == FreeOnDevice(b, base, size)
    ensures a.free == [] ==> FreeOnDevice(a, base, size)
  {
  }

  lemma TakeOnDevice(a: Alloc, n: nat, base: nat, size: nat)
    requires FreeOnDevice(a, base, size)
    ensures FreeOnDevice(Take(a, n), base, size)
  {
  }

  lemma CutFrontLayout(d: Directory, a: Alloc, dataStart: nat, total: nat, k: nat, n: nat)
    requires Layout(d, a, dataStart, total) && k < |a.free| && 0 < n <= a.free[k].count
    ensures var a' := Alloc(CutFront(a.free, k, n), a.next);
            Layout(d, a', dataStart, total) && Unowned(d, a', dataStart, total, a.free[k].start, n)
  {
    var a' := Alloc(CutFront(a.free, k, n), a.next);
    CutFrontFreeList(a, dataStart, total, k, n);
    forall i | 0 <= i < MAX_FILES && d[i].Live()
      ensures OffFreeList(a', d[i].start, d[i].Blocks())
    {
      assert OffFreeList(a, d[i].start, d[i].Blocks());
    }
  }

  lemma CutFrontFreeList(a: Alloc, dataStart: nat, total: nat, k: nat, n: nat)
    requires FreeListOk(a, dataStart, total) && k < |a.free| && 0 < n <= a.free[k].count
    ensures FreeListOk(Alloc(CutFront(a.free, k, n), a.next), dataStart, total)
    ensures OffFreeList(Alloc(CutFront(a.free, k, n), a.next), a.free[k].start, n)
  {
  }

  lemma BumpLayout(d: Directory, a: Alloc, dataStart: nat, total: nat, n: nat)
    requires Layout(d, a, dataStart, total) && a.next + n <= total
    ensures var a' := Alloc(a.free, a.next + n);
            Layout(d, a', dataStart, total) && Unowned(d, a', dataStart, total, a.next, n)
  {
    var a' := Alloc(a.free, a.next + n);
    forall i | 0 <= i < MAX_FILES && d[i].Live()
      ensures OffFreeList(a', d[i].start, d[i].Blocks())
    {
      assert OffFreeList(a, d[i].start, d[i].Blocks());
    }
  }

  // ---- Changing the directory -------------------------------------------------

  /** Slot `i` is where `name` lives or may be stored. */
  predicate SlotFor(d: Directory, i: nat, name: FileName) {
    i < MAX_FILES && (Names(d[i], name) || (Find(d, name) < 0 && !d[i].Live()))
  }

  lemma CommitLayout(d: Directory, a: Alloc, dataStart: nat, total: nat, i: nat, e: Dirent, name: FileName)
    requires Layout(d, a, dataStart, total) && SlotFor(d, i, name) && Names(e, name)
    requires EntryOk(e, dataStart, total)
    requires Unowned(d, a, dataStart, total, e.start, e.Blocks())
    ensures Layout(d[i := e], a, dataStart, total)
  {
    var d' := d[i := e];
    forall j | 0 <= j < MAX_FILES && j != i && d[j].Live()
      ensures EntriesCompatible(d[j], e) && EntriesCompatible(e, d[j])
    {
      OtherName(d, dataStart, total, i, j, name);
    }
  }

  /** No live entry other than slot `i` is called `name`. */
  lemma OtherName(d: Directory, dataStart: nat, total: nat, i: nat, j: nat, name: FileName)
    requires DirectoryOk(d, dataStart, total) && SlotFor(d, i, name)
    requires j < MAX_FILES && j != i && d[j].Live()
    ensures CString(d[j].name) != name
  {
    if Names(d[i], name) {
      assert if i < j then EntriesCompatible(d[i], d[j]) else EntriesCompatible(d[j], d[i]);
    } else {
      assert !Names(d[j], name);
    }
  }

  /** The name field slot `i` has once it is used for `name`. */
  function NameFor(d: Directory, i: nat, name: FileName): RawName
    requires i < MAX_FILES
  {
    if d[i].Live() then d[i].name else StoredName(name)
  }

  predicate Terminated(d: Directory) {
    forall i :: 0 <= i < MAX_FILES && d[i].Live() ==> d[i].name[NAME_LEN - 1] == 0
  }

  lemma FindOnly(d: Directory, i: nat, name: FileName)
    requires i < MAX_FILES && forall j :: 0 <= j < MAX_FILES && j != i ==> !Names(d[j], name)
    ensures Find(d, name) == if Names(d[i], name) then i else -1
  {
    hide CString;
    var k := Find(d, name);
    assert k >= 0 ==> Names(d[k], name);
  }

  lemma NameForFits(d: Directory, dataStart: nat, total: nat, i: nat, name: FileName)
    requires DirectoryOk(d, dataStart, total) && SlotFor(d, i, name)
    ensures CString(NameFor(d, i, name)) == name <==> |name| < NAME_LEN
    ensures NameFor(d, i, name)[NAME_LEN - 1] == 0
  {
    if d[i].Live() {
      assert EntryOk(d[i], dataStart, total);
      assert NulIndex(d[i].name) < NAME_LEN;
    } else {
      StoredNameFaithful(name);
    }
  }

  /** A freshly committed slot is found again exactly when the name fits its field. */
  lemma FindCommitted(d: Directory, dataStart: nat, total: nat, i: nat, e: Dirent, name: FileName)
    requires DirectoryOk(d, dataStart, total) && SlotFor(d, i, name)
    requires e.Live() && e.name == NameFor(d, i, name)
    ensures Terminated(d[i := e])
    ensures Find(d[i := e], name) == if |name| < NAME_LEN then i else -1
    ensures e.name[NAME_LEN - 1] == 0 && (Names(e, name) <==> |name| < NAME_LEN)
  {
    hide Find, CString, NameFor, DirectoryOk;
    NameForFits(d, dataStart, total, i, name);
    forall j | 0 <= j < MAX_FILES && j != i
      ensures !Names(d[j], name) && (d[j].Live() ==> d[j].name[NAME_LEN - 1] == 0)
    {
      if d[j].Live() {
        OtherName(d, dataStart, total, i, j, name);
        LiveEntry(d, dataStart, total, j);
      }
    }
    FindOnly(d[i := e], i, name);
  }

  lemma LiveEntry(d: Directory, dataStart: nat, total: nat, j: nat)
    requires DirectoryOk(d, dataStart, total) && j < MAX_FILES && d[j].Live()
    ensures EntryOk(d[j], dataStart, total)
  {
  }

  /** A rewrite in place keeps the start of the extent and does not lengthen it. */
  lemma ShrinkLayout(d: Directory, a: Alloc, dataStart: nat, total: nat, i: nat, size: u32)
    requires Layout(d, a, dataStart, total) && i < MAX_FILES && d[i].Live()
    requires 0 < size <= MAX_FILE_SIZE && BlocksFor(size) <= d[i].Blocks()
    ensures Layout(d[i := d[i].(size := size)], a, dataStart, total)
  {
    var e := d[i].(size := size);
    assert OffFreeList(a, d[i].start, d[i].Blocks());
    forall j | 0 <= j < MAX_FILES && j != i && d[j].Live()
      ensures EntriesCompatible(d[j], e) && EntriesCompatible(e, d[j])
    {
      assert if i < j then EntriesCompatible(d[i], d[j]) else EntriesCompatible(d[j], d[i]);
    }
  }

  /** A deleted file's extent moves to the free list, or is lost when the list is full. */
  function Reclaim(a: Alloc, e: Dirent): Alloc {
    if |a.free| < MAX_FREE_EXTENTS then a.(free := a.free + [Extent(e.start, e.Blocks())]) else a
  }

  /** A delete puts exactly the sectors of the file on the free list, unless 32 extents are
      listed. */
  lemma ReclaimMeans(a: Alloc, e: Dirent, x: nat)
    ensures IsFree(Reclaim(a, e), x) <==> IsFree(a, x) || (|a.free| < 32 && e.start <= x < e.End())
    ensures Reclaim(a, e).next == a.next
  {
    var a' := Reclaim(a, e);
    if k :| 0 <= k < |a.free| && Within(a.free[k], x) {
      assert |a.free| < 32 ==> Within(a'.free[k], x);
    }
    if |a.free| < 32 && e.start <= x < e.End() {
      assert Within(a'.free[|a.free|], x);
    }
  }

  /** From `a` to `a'` the sectors of `name`, and no others, went on the free list, unless it was
      full. */
  ghost predicate Freed(d: Directory, a: Alloc, a': Alloc, name: FileName) {
    var i := Find(d, name);
    && i >= 0 && a' == Reclaim(a, d[i])
    && forall x: nat :: IsFree(a', x) <==> IsFree(a, x) || (|a.free| < 32 && d[i].start <= x < d[i].End())
  }

  lemma ReclaimFreed(d: Directory, a: Alloc, name: FileName)
    requires Find(d, name) >= 0
    ensures Freed(d, a, Reclaim(a, d[Find(d, name)]), name)
  {
    hide Reclaim, IsFree;
    forall x: nat {
      ReclaimMeans(a, d[Find(d, name)], x);
    }
  }

  lemma DeleteLayout(d: Directory, a: Alloc, dataStart: nat, total: nat, i: nat)
    requires Layout(d, a, dataStart, total) && i < MAX_FILES && d[i].Live()
    ensures Layout(d[i := FREE_SLOT], Reclaim(a, d[i]), dataStart, total)
  {
    var a' := Reclaim(a, d[i]);
    assert OffFreeList(a, d[i].start, d[i].Blocks());
    forall j | 0 <= j < MAX_FILES && j != i && d[j].Live()
      ensures OffFreeList(a', d[j].start, d[j].Blocks())
    {
      assert OffFreeList(a, d[j].start, d[j].Blocks());
      assert if i < j then EntriesCompatible(d[i], d[j]) else EntriesCompatible(d[j], d[i]);
    }
  }

  /** The converse: a deleted extent that is on the free list while the directory still
      lists the file breaks the invariant, so an I/O error in the final flush of a delete
      leaves the allocator able to hand out live sectors. */
  lemma UnflushedDeleteBreaksLayout(d: Directory, a: Alloc, dataStart: nat, total: nat, i: nat)
    requires Layout(d, a, dataStart, total) && i < MAX_FILES && d[i].Live()
    ensures Layout(d, Reclaim(a, d[i]), dataStart, total) <==> |a.free| == MAX_FREE_EXTENTS
  {
    var a' := Reclaim(a, d[i]);
    if |a.free| < MAX_FREE_EXTENTS {
      assert EntryOk(d[i], dataStart, total);
      assert a'.free[|a.free|] == Extent(d[i].start, d[i].Blocks());
      assert !OffFreeList(a', d[i].start, d[i].Blocks());
    }
  }

  // ---- Mounting ---------------------------------------------------------------

  /** Where the bump allocator resumes: past the highest extent of the first `n` slots. */
  function ResumeAt(d: Directory, dataStart: nat, n: nat := 16): (r: nat)
    requires n <= MAX_FILES
    ensures dataStart <= r
    ensures forall i :: 0 <= i < n && d[i].Live() ==> d[i].End() <= r
    ensures r == dataStart || exists i :: 0 <= i < n && d[i].Live() && d[i].End() == r
  {
    if n == 0 then dataStart
    else
      var r := ResumeAt(d, dataStart, n - 1);
      if d[n - 1].Live() && d[n - 1].End() > r then d[n - 1].End() else r
  }

  /** Rebooting drops the free list; the bump pointer that mount recomputes is sound. */
  lemma MountLayout(d: Directory, dataStart: nat, total: nat)
    requires DATA_START <= dataStart && DirectoryOk(d, dataStart, total)
    ensures Layout(d, Alloc([], ResumeAt(d, dataStart)), dataStart, total)
  {
    assert ResumeAt(d, dataStart) <= total + dataStart;
  }

  /** Mounting a volume that is in use keeps its free list and lowers the bump pointer to the
      highest live extent. That is sound exactly when no free extent lies above it. */
  lemma RemountLayout(d: Directory, a: Alloc, dataStart: nat, total: nat)
    requires Layout(d, a, dataStart, total)
    ensures Layout(d, Alloc(a.free, ResumeAt(d, dataStart)), dataStart, total) <==>
            forall k :: 0 <= k < |a.free| ==> a.free[k].start + a.free[k].count <= ResumeAt(d, dataStart)
  {
    var a' := Alloc(a.free, ResumeAt(d, dataStart));
    MountLayout(d, dataStart, total);
    forall i | 0 <= i < MAX_FILES && d[i].Live()
      ensures OffFreeList(a', d[i].start, d[i].Blocks())
    {
      assert OffFreeList(a, d[i].start, d[i].Blocks());
    }
  }

  /** Formatting keeps the free list as well. With the data area empty that is sound exactly
      when the list is. */
  lemma ReformatLayout(d: Directory, free: seq<Extent>, dataStart: nat, total: nat)
    requires DATA_START <= dataStart && forall i :: 0 <= i < MAX_FILES ==> !d[i].Live()
    ensures Layout(d, Alloc(free, dataStart), dataStart, total) <==> free == []
  {
    if free != [] {
      assert free[0].count > 0 ==> free[0].start < dataStart || free[0].start + free[0].count > dataStart;
    }
  }

  /** Mounting without reading the directory resumes at the data start, which is sound
      exactly when there is no file. */
  lemma BlindMountLayout(d: Directory, dataStart: nat, total: nat)
    requires DATA_START <= dataStart && DirectoryOk(d, dataStart, total)
    ensures Layout(d, Alloc([], dataStart), dataStart, total) <==>
            forall i :: 0 <= i < MAX_FILES ==> !d[i].Live()
  {
    forall i | 0 <= i < MAX_FILES && d[i].Live()
      ensures d[i].End() > dataStart
    {
      assert EntryOk(d[i], dataStart, total);
    }
  }

  /** Mount's 32-bit arithmetic computes the end of every sound extent. */
  lemma ScannedEnd(d: Directory, dataStart: nat, total: nat, i: nat)
    requires DirectoryOk(d, dataStart, total) && total < ADDRESS_LIMIT && i < MAX_FILES && d[i].Live()
    ensures Add32(d[i].start, Add32(d[i].size, 511) / 512) == d[i].End()
  {
    assert EntryOk(d[i], dataStart, total);
  }

  // ---- The 32-bit guard of the bump allocator ---------------------------------

  /** The disk-full test compares a 32-bit sum. It agrees with the true sum for every
      request and every bump pointer in the volume exactly when the volume ends at least
      2048 sectors below 2^32. */
  lemma BumpGuardExact(total: u32)
    ensures (forall next: nat, n: nat :: next <= total && n <= MAX_BLOCKS ==>
               (Add32(next, n) > total <==> next + n > total))
            <==> total + MAX_BLOCKS < ADDRESS_LIMIT
  {
    if total + MAX_BLOCKS >= ADDRESS_LIMIT {
      assert Add32(total, MAX_BLOCKS) == total + MAX_BLOCKS - ADDRESS_LIMIT;
      assert total <= total && MAX_BLOCKS <= MAX_BLOCKS && Add32(total, MAX_BLOCKS) <= total;
    }
  }

  /** Format makes the volume as large as the whole device although it starts at `base`. The
      disk-full test then agrees with the end of the device for every request exactly when
      the volume starts at sector 0. */
  lemma DeviceGuardExact(base: nat, size: nat)
    requires base < size
    ensures (forall next: nat, n: nat :: Placed(Alloc([], next), n, size) ==> base + next + n <= size) <==> base == 0
  {
    if base > 0 {
      assert Placed(Alloc([], size - base), base, size);
    }
  }

  /** At the shipped base of 8192, on any larger device: one sector at the device's end passes
      the test and does not exist. */
  lemma ShippedBaseOverruns(size: nat)
    requires size > 8192
    ensures Placed(Alloc([], size - 8192), 1, size) && 8192 + (size - 8192) + 1 > size
  {
  }
}
