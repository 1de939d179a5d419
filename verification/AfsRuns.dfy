/** Whole runs of AEOS-FS: sessions with reboots, and crashes inside a call. */
module AfsRuns {
  import opened Bytes
  import opened BlockDevice
  import opened AfsFormat
  import opened AfsLayout
  import opened AfsDisk
  import opened Afs

  datatype Op =
    | Put(name: FileName, data: seq<byte>)
    | Get(name: FileName, max: nat)
    | Remove(name: FileName)
    | Reboot

  /** The return value of a call, and the bytes a read delivered. */
  datatype Reply = Reply(r: int, bytes: seq<byte>)

  type FileMap = map<FileName, seq<byte>>

  // ---- The reference file system ------------------------------------------------

  /** What the reference knows of the sectors: the lengths of the extents that were freed, in
      the order of the list, and how many sectors the writes took above the files at the most. */
  datatype Book = Book(free: seq<nat>, used: nat)

  /** A map from names to bytes, and the book. */
  datatype Ref = Ref(files: FileMap, book: Book)

  /** The first length of at least `n`, or -1. */
  function Fit(free: seq<nat>, n: nat, from: nat := 0): (r: int)
    requires from <= |free|
    ensures -1 <= r < |free|
    ensures r >= 0 ==> from <= r && free[r] >= n && forall k :: from <= k < r ==> free[k] < n
    ensures r < 0 ==> forall k :: from <= k < |free| ==> free[k] < n
    decreases |free| - from
  {
    if from == |free| then -1 else if free[from] >= n then from else Fit(free, n, from + 1)
  }

  /** Taking `n` sectors: from the first freed extent that is long enough, else above the files. */
  function Draw(b: Book, n: nat): Book {
    var k, last := Fit(b.free, n), |b.free| - 1;
    if k < 0 then b.(used := b.used + n)
    else if b.free[k] > n then b.(free := b.free[k := b.free[k] - n])
    else b.(free := b.free[k := b.free[last]][..last])
  }

  /** A file that a write rewrites in place. */
  ghost predicate Shrinks(m: FileMap, name: FileName, data: seq<byte>) {
    name in m && BlocksFor(|data|) <= BlocksFor(|m[name]|)
  }

  /** A write that needs an extent and a slot, and has the slot. */
  ghost predicate Draws(m: FileMap, name: FileName, data: seq<byte>) {
    0 < |data| <= MAX_FILE_SIZE && !Shrinks(m, name, data) && (name in m || |m| < MAX_FILES)
  }

  ghost function NextBook(r: Ref, op: Op): Book {
    match op
    case Put(name, data) => if Draws(r.files, name, data) then Draw(r.book, BlocksFor(|data|)) else r.book
    case Remove(name) =>
      if name in r.files && |r.book.free| < 32
      then r.book.(free := r.book.free + [BlocksFor(|r.files[name]|)]) else r.book
    case Get(_, _) => r.book
    case Reboot => Book([], r.book.used)
  }

  ghost function NextFiles(m: FileMap, op: Op, reply: Reply): FileMap {
    match op
    case Put(name, data) => if reply.r > 0 then m[name := data] else m
    case Remove(name) => if reply.r == 0 then m - {name} else m
    case Get(_, _) => m
    case Reboot => m
  }

  ghost function Apply(r: Ref, op: Op, reply: Reply): Ref {
    Ref(NextFiles(r.files, op, reply), NextBook(r, op))
  }

  /** The only reasons to refuse a write: a bad length or name, 16 other files, or no sectors: no
      freed extent is long enough, and the room above the files may be used up. */
  ghost predicate MayRefuse(r: Ref, name: FileName, data: seq<byte>, room: int) {
    || |data| == 0 || |data| > MAX_FILE_SIZE
    || (!Shrinks(r.files, name, data)
        && (|| |name| >= NAME_LEN || (name !in r.files && |r.files| >= MAX_FILES)
            || (Fit(r.book.free, BlocksFor(|data|)) < 0 && r.book.used + BlocksFor(|data|) > room)))
  }

  /** The replies the reference file system allows. `room` is the number of sectors above the
      files at the start. */
  ghost predicate Allowed(r: Ref, op: Op, reply: Reply, room: int) {
    match op
    case Put(name, data) =>
      if reply.r > 0 then reply.r == |data| && |name| < NAME_LEN
      else reply.r == -1 && MayRefuse(r, name, data, room)
    case Remove(name) => reply.r == if name in r.files then 0 else -1
    case Get(name, max) =>
      if name in r.files && max > 0
      then reply == Reply(Min(|r.files[name]|, RoundToChunk(max)), r.files[name][..Min(|r.files[name]|, RoundToChunk(max))])
      else reply.r == -1
    case Reboot => reply.r == 1
  }

  /** What a delete frees can be written again: afterwards a write of at most as many sectors to
      any short name may not be refused. */
  lemma RemovedRoomReused(r: Ref, name: FileName, other: FileName, data: seq<byte>, room: int)
    requires name in r.files && |r.files| <= MAX_FILES && |r.book.free| < 32
    requires |other| < NAME_LEN && 0 < |data| <= MAX_FILE_SIZE && BlocksFor(|data|) <= BlocksFor(|r.files[name]|)
    ensures !MayRefuse(Apply(r, Remove(name), Reply(0, [])), other, data, room)
  {
    hide BlocksFor;
    var r' := Apply(r, Remove(name), Reply(0, []));
    assert r.files.Keys == r'.files.Keys + {name};
    assert |r'.files.Keys| == |r.files.Keys| - 1;
    assert r'.book.free[|r.book.free|] == BlocksFor(|r.files[name]|);
  }

  ghost function ApplyAll(r: Ref, ops: seq<Op>, replies: seq<Reply>): Ref
    requires |ops| == |replies|
  {
    if ops == [] then r
    else Apply(ApplyAll(r, ops[..|ops| - 1], replies[..|ops| - 1]), ops[|ops| - 1], replies[|ops| - 1])
  }

  ghost predicate AllowedAll(r: Ref, ops: seq<Op>, replies: seq<Reply>, room: int)
    requires |ops| == |replies|
  {
    ops == []
    || (AllowedAll(r, ops[..|ops| - 1], replies[..|ops| - 1], room)
        && Allowed(ApplyAll(r, ops[..|ops| - 1], replies[..|ops| - 1]), ops[|ops| - 1], replies[|ops| - 1], room))
  }

  // ---- The book is right --------------------------------------------------------

  function Lengths(free: seq<Extent>): seq<nat> {
    seq(|free|, i requires 0 <= i < |free| => free[i].count)
  }

  lemma {:induction false} SameFit(free: seq<Extent>, n: nat, from: nat)
    requires from <= |free|
    ensures Fit(Lengths(free), n, from) == FirstFit(free, n, from)
    decreases |free| - from
  {
    if from < |free| && free[from].count < n {
      SameFit(free, n, from + 1);
    }
  }

  lemma DrawIsTake(a: Alloc, b: Book, n: nat)
    requires Lengths(a.free) == b.free
    ensures Lengths(Take(a, n).free) == Draw(b, n).free
    ensures Take(a, n).next - a.next == Draw(b, n).used - b.used
  {
    SameFit(a.free, n, 0);
    var k := FirstFit(a.free, n);
    if k >= 0 {
      CutEntries(a.free, k, n);
      assert Lengths(CutFront(a.free, k, n)) == Draw(b, n).free;
    }
  }

  function Least(a: int, b: int): int {
    if a <= b then a else b
  }

  /** The sectors between the highest file and the end of the volume or of the device,
      whichever comes first. */
  function Room(disk: seq<Sector>, base: nat): int
    requires DiskOk(disk, base)
  {
    var sb := SuperblockOf(disk, base);
    Least(sb.total, |disk| - base) - ResumeAt(DirectoryOf(disk, base), sb.dataStart)
  }

  /** A name too long for its field is on no disk. */
  lemma StoredNamesShort(disk: seq<Sector>, base: nat, name: FileName)
    requires DiskOk(disk, base) && name in Files(disk, base)
    ensures |name| < NAME_LEN
  {
    var d := DirectoryOf(disk, base);
    var i := HasFile(d, name);
    assert EntryOk(d[i], SuperblockOf(disk, base).dataStart, SuperblockOf(disk, base).total);
    assert NulIndex(d[i].name) < NAME_LEN;
  }

  /** The volume has the files and the freed extents of the reference, and has used no more
      sectors above the files. */
  ghost predicate Tracks(v: Volume, r: Ref, room: int)
    requires v.OnDisk()
    reads v, v.dev
  {
    && v.Files() == r.files && Lengths(v.alloc.free) == r.book.free
    && v.alloc.next + room <= Least(v.total, |v.dev.sectors| - v.base) + r.book.used
  }

  /** What the reference says of a name is what the directory says. */
  lemma NameAgrees(v: Volume, name: FileName, data: seq<byte>)
    requires v.Valid() && v.mounted
    ensures v.Rewrites(name, |data|) <==> Shrinks(v.Files(), name, data)
    ensures Find(v.Directory(), name) >= 0 || FirstFree(v.Directory()) >= 0 <==> name in v.Files() || |v.Files()| < MAX_FILES
    ensures name in v.Files() ==> v.Directory()[Find(v.Directory(), name)].Blocks() == BlocksFor(|v.Files()[name]|)
  {
    hide Layout, DiskOk, AfsFormat.Files, Find, FirstFree, DirectoryOf, Contents, BlocksFor, FreeOnDevice;
    FileLookup(v.dev.sectors, v.base, v.alloc, v.dataLba, v.total, name);
    SlotLeft(v.dev.sectors, v.base, name);
  }

  /** A write that the reference may not refuse is accepted. */
  lemma AcceptsUnlessRefusable(v: Volume, r: Ref, name: FileName, data: seq<byte>, room: int)
    requires v.Valid() && v.mounted && Tracks(v, r, room) && !MayRefuse(r, name, data, room)
    ensures v.Accepts(name, |data|)
  {
    hide Layout, DiskOk, AfsFormat.Files, Find, FirstFree, DirectoryOf, BlocksFor;
    NameAgrees(v, name, data);
    SameFit(v.alloc.free, BlocksFor(|data|), 0);
  }

  /** A write draws from the book what it takes from the allocator. */
  lemma WriteBooked(v: Volume, r: Ref, name: FileName, data: seq<byte>, room: int, a: Alloc)
    requires v.Valid() && v.mounted && Tracks(v, r, room)
    requires a == if v.Consumes(name, |data|) then Take(v.alloc, BlocksFor(|data|)) else v.alloc
    ensures var b := NextBook(r, Put(name, data));
            && Lengths(a.free) == b.free
            && a.next + room <= Least(v.total, |v.dev.sectors| - v.base) + b.used
  {
    hide Layout, DiskOk, AfsFormat.Files, Find, FirstFree, DirectoryOf, BlocksFor, Take, Draw, Chosen, FreeOnDevice, Lengths;
    NameAgrees(v, name, data);
    DrawIsTake(v.alloc, r.book, BlocksFor(|data|));
    if Draws(r.files, name, data) && !v.Consumes(name, |data|) {
      NotPlaced(v.alloc, r.book, BlocksFor(|data|), v.total);
    }
  }

  lemma NotPlaced(a: Alloc, b: Book, n: nat, total: nat)
    requires Lengths(a.free) == b.free && !Placed(a, n, total)
    ensures Draw(b, n) == b.(used := b.used + n)
  {
    SameFit(a.free, n, 0);
  }

  lemma DeleteBooked(d: Directory, a: Alloc, a': Alloc, r: Ref, name: FileName)
    requires Freed(d, a, a', name) && Lengths(a.free) == r.book.free && name in r.files
    requires d[Find(d, name)].Blocks() == BlocksFor(|r.files[name]|)
    ensures Lengths(a'.free) == NextBook(r, Remove(name)).free && NextBook(r, Remove(name)).used == r.book.used
  {
    hide BlocksFor, Find;
    assert |a.free| == |r.book.free|;
    assert Lengths(a'.free) == NextBook(r, Remove(name)).free;
  }

  /** One call on a reliable device does what the reference file system does. A write succeeds
      exactly when the volume accepts it. */
  method Call(v: Volume, op: Op, ghost r: Ref, ghost room: int) returns (reply: Reply)
    requires v.Valid() && v.mounted && v.dev.reliable && !op.Reboot? && Tracks(v, r, room)
    modifies v`dir, v`alloc, v`iobuf, v.dev`sectors
    ensures v.Valid() && |v.dev.sectors| == old(|v.dev.sectors|)
    ensures op.Put? ==> (reply.r > 0 <==> old(v.Accepts(op.name, |op.data|)))
    ensures Allowed(r, op, reply, room) && Tracks(v, Apply(r, op, reply), room)
  {
    hide DiskOk, AfsFormat.Files, VolumeOk, MayRefuse, BlocksFor, NextBook, Lengths;
    match op {
      case Put(name, data) => reply := CallWrite(v, name, data, r, room);
      case Get(name, max) =>
        var n, bytes := v.Read(name, max);
        reply := Reply(n, bytes);
        QuietBook(r, op);
      case Remove(name) => reply := CallDelete(v, name, r, room);
    }
  }

  method CallWrite(v: Volume, name: FileName, data: seq<byte>, ghost r: Ref, ghost room: int) returns (reply: Reply)
    requires v.Valid() && v.mounted && v.dev.reliable && Tracks(v, r, room)
    modifies v`dir, v`alloc, v`iobuf, v.dev`sectors
    ensures v.Valid() && |v.dev.sectors| == old(|v.dev.sectors|)
    ensures reply.r > 0 <==> old(v.Accepts(name, |data|))
    ensures Allowed(r, Put(name, data), reply, room) && Tracks(v, Apply(r, Put(name, data), reply), room)
  {
    hide DiskOk, AfsFormat.Files, VolumeOk, MayRefuse, BlocksFor, NextBook, Take, Lengths;
    if !MayRefuse(r, name, data, room) {
      AcceptsUnlessRefusable(v, r, name, data, room);
    }
    WriteBooked(v, r, name, data, room, if v.Consumes(name, |data|) then Take(v.alloc, BlocksFor(|data|)) else v.alloc);
    var n := v.Write(name, data);
    if n > 0 {
      StoredNamesShort(v.dev.sectors, v.base, name);
    }
    reply := Reply(n, []);
  }

  method CallDelete(v: Volume, name: FileName, ghost r: Ref, ghost room: int) returns (reply: Reply)
    requires v.Valid() && v.mounted && v.dev.reliable && Tracks(v, r, room)
    modifies v`dir, v`alloc, v.dev`sectors
    ensures v.Valid() && |v.dev.sectors| == old(|v.dev.sectors|)
    ensures Allowed(r, Remove(name), reply, room) && Tracks(v, Apply(r, Remove(name), reply), room)
  {
    hide DiskOk, AfsFormat.Files, VolumeOk, BlocksFor, NextBook, Freed, Lengths;
    ghost var d := v.Directory();
    NameAgrees(v, name, []);
    var n := v.Delete(name);
    if n == 0 {
      DeleteBooked(d, old(v.alloc), v.alloc, r, name);
    } else {
      NoSuchFile(r, name);
    }
    reply := Reply(n, []);
  }

  lemma NoSuchFile(r: Ref, name: FileName)
    requires name !in r.files
    ensures NextBook(r, Remove(name)) == r.book
  {
  }

  lemma QuietBook(r: Ref, op: Op)
    requires op.Get?
    ensures NextBook(r, op) == r.book
  {
  }

  /** Every run on a reliable device, starting and continuing with reboots, refines the
      reference file system and keeps the extent invariant. */
  method Session(dev: Device, base: nat, ops: seq<Op>) returns (v: Volume, replies: seq<Reply>)
    requires dev.reliable && DiskOk(dev.sectors, base)
    modifies dev
    ensures v.dev == dev && v.base == base && v.Valid() && v.mounted
    ensures |replies| == |ops|
    ensures AllowedAll(Ref(old(Files(dev.sectors, base)), Book([], 0)), ops, replies, old(Room(dev.sectors, base)))
    ensures v.Files() == ApplyAll(Ref(old(Files(dev.sectors, base)), Book([], 0)), ops, replies).files
  {
    hide DiskOk, AfsFormat.Files, VolumeOk, Apply, Allowed, Room;
    BootableBase(dev.sectors, base);
    ghost var r := Ref(Files(dev.sectors, base), Book([], 0));
    ghost var room := Room(dev.sectors, base);
    v := Boot(dev, base);
    replies := [];
    for k := 0 to |ops|
      invariant |replies| == k && fresh(v) && v.dev == dev && v.base == base
      invariant v.Valid() && v.mounted && AllowedAll(r, ops[..k], replies, room)
      invariant Tracks(v, ApplyAll(r, ops[..k], replies), room)
    {
      var reply;
      assert ops[..k + 1][..k] == ops[..k] && ops[..k + 1][k] == ops[k];
      v, reply := Turn(v, ops[k], ApplyAll(r, ops[..k], replies), room);
      assert (replies + [reply])[..k] == replies;
      replies := replies + [reply];
    }
    assert ops[..|ops|] == ops;
  }

  /** A call or a reboot. */
  method Turn(v: Volume, op: Op, ghost r: Ref, ghost room: int) returns (v': Volume, reply: Reply)
    requires v.Valid() && v.mounted && v.dev.reliable && Tracks(v, r, room)
    modifies v, v.dev
    ensures (v' == v || fresh(v')) && v'.dev == v.dev && v'.base == v.base && v'.Valid() && v'.mounted
    ensures Allowed(r, op, reply, room) && Tracks(v', Apply(r, op, reply), room)
  {
    hide DiskOk, AfsFormat.Files, VolumeOk, MayRefuse, BlocksFor;
    if op.Reboot? {
      v' := Restart(v);
      reply := Reply(1, []);
    } else {
      v' := v;
      reply := Call(v, op, r, room);
    }
  }

  lemma BootableBase(disk: seq<Sector>, base: nat)
    requires DiskOk(disk, base)
    ensures base + DATA_START < ADDRESS_LIMIT
  {
  }

  /** A boot: fresh memory, then mount. */
  method Boot(dev: Device, base: nat) returns (v: Volume)
    requires dev.reliable && DiskOk(dev.sectors, base)
    ensures fresh(v) && v.dev == dev && v.base == base && v.Valid() && v.mounted
    ensures v.Files() == Files(dev.sectors, base) && v.alloc.free == []
    ensures Tracks(v, Ref(Files(dev.sectors, base), Book([], 0)), Room(dev.sectors, base))
    ensures v.total == SuperblockOf(dev.sectors, base).total
    ensures v.alloc.next == ResumeAt(DirectoryOf(dev.sectors, base), SuperblockOf(dev.sectors, base).dataStart)
  {
    hide DiskOk, AfsFormat.Files, VolumeOk, Least, ResumeAt;
    BootableBase(dev.sectors, base);
    v := new Volume(dev, base);
    var r; ghost var dirRead;
    r, dirRead := v.Mount();
  }

  /** A reboot loses the free list and never moves the bump pointer up. */
  method Restart(v: Volume) returns (v': Volume)
    requires v.Valid() && v.mounted && v.dev.reliable
    ensures fresh(v') && v'.dev == v.dev && v'.base == v.base && v'.Valid() && v'.mounted
    ensures v'.Files() == v.Files() && v'.total == v.total && v'.alloc.free == [] && v'.alloc.next <= v.alloc.next
  {
    hide DiskOk, AfsFormat.Files, VolumeOk, ResumeAt;
    ResumeBelow(v.dev.sectors, v.base, v.alloc, v.dataLba, v.total);
    v' := Boot(v.dev, v.base);
  }

  /** Read back what was written. */
  method WriteThenRead(v: Volume, name: FileName, data: seq<byte>, max: nat) returns (w: int, r: int, out: seq<byte>)
    requires v.Valid() && v.dev.reliable
    modifies v`dir, v`alloc, v`iobuf, v.dev`sectors
    ensures w > 0 && max >= |data| ==> r == w == |data| && out == data
  {
    hide DiskOk, AfsFormat.Files, VolumeOk;
    w := v.Write(name, data);
    assert max <= RoundToChunk(max);
    r, out := v.Read(name, max);
  }

  /** Delete a file, then write another of at most its size: the write succeeds, whatever the rest
      of the volume looks like, as long as the free list was not full. */
  method DeleteThenWrite(v: Volume, name: FileName, other: FileName, data: seq<byte>) returns (d: int, w: int)
    requires v.Valid() && v.mounted && v.dev.reliable && name in v.Files() && |v.alloc.free| < 32
    requires |other| < NAME_LEN && 0 < |data| <= MAX_FILE_SIZE && BlocksFor(|data|) <= BlocksFor(|v.Files()[name]|)
    modifies v`dir, v`alloc, v`iobuf, v.dev`sectors
    ensures d == 0 && w == |data| && v.Valid() && v.Files() == (old(v.Files()) - {name})[other := data]
  {
    hide DiskOk, AfsFormat.Files, VolumeOk, MayRefuse, BlocksFor, Lengths, NextBook;
    ghost var room := Least(v.total, |v.dev.sectors| - v.base) - v.alloc.next;
    ghost var r := Ref(v.Files(), Book(Lengths(v.alloc.free), 0));
    SlotLeft(v.dev.sectors, v.base, name);
    LengthsOf(v.alloc.free);
    var reply := CallDelete(v, name, r, room);
    d := reply.r;
    RemovedRoomReused(r, name, other, data, room);
    assert reply.r == 0;
    AcceptsUnlessRefusable(v, Apply(r, Remove(name), Reply(0, [])), other, data, room);
    w := v.Write(other, data);
  }

  lemma LengthsOf(free: seq<Extent>)
    ensures |Lengths(free)| == |free|
  {
  }

  /** Power fails: memory is lost, the medium stays, and the next boot finds a working device. */
  method PowerCycle(v: Volume) returns (v': Volume)
    requires v.OnDisk()
    ensures fresh(v') && fresh(v'.dev) && v'.dev.sectors == v.dev.sectors && v'.base == v.base
    ensures v'.Valid() && v'.mounted && v'.Files() == v.Files()
  {
    hide DiskOk, AfsFormat.Files, VolumeOk, ResumeAt, Room;
    var dev := new Device(v.dev.sectors, true);
    v' := Boot(dev, v.base);
  }

  /** A crash at any point of a write, then a remount: a write into a new extent is either
      there completely or not at all, and a rewrite in place touches only its own file. */
  method CrashInWrite(v: Volume, name: FileName, data: seq<byte>) returns (v': Volume)
    requires v.Valid() && v.mounted
    modifies v`dir, v`alloc, v`iobuf, v.dev`sectors
    ensures v'.Valid() && v'.mounted && v'.dev.sectors == v.dev.sectors && v'.base == v.base
    ensures !old(v.Rewrites(name, |data|)) ==>
              v'.Files() == old(v.Files()) || v'.Files() == old(v.Files())[name := data]
    ensures old(v.Rewrites(name, |data|)) ==>
              SameBut(old(v.Files()), v'.Files(), name) && v'.Files().Keys == old(v.Files().Keys)
  {
    hide DiskOk, AfsFormat.Files, VolumeOk, SameBut;
    var r := v.Write(name, data);
    if r > 0 {
      SameButUpdate(old(v.Files()), name, data);
    }
    v' := PowerCycle(v);
  }

  lemma SameButUpdate(m: FileMap, name: FileName, data: seq<byte>)
    ensures SameBut(m, m[name := data], name)
  {
  }

  /** A crash at any point of a delete, then a remount: the file is there or it is gone. */
  method CrashInDelete(v: Volume, name: FileName) returns (v': Volume)
    requires v.Valid() && v.mounted
    modifies v`dir, v`alloc, v.dev`sectors
    ensures v'.Valid() && v'.mounted && v'.dev.sectors == v.dev.sectors && v'.base == v.base
    ensures v'.Files() == old(v.Files()) || v'.Files() == old(v.Files()) - {name}
  {
    hide DiskOk, AfsFormat.Files, VolumeOk;
    var r := v.Delete(name);
    v' := PowerCycle(v);
  }
}
