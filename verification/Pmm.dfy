/** The physical memory manager: one bit per 4 KB frame of 128 MB of RAM, 1 meaning used. */
module Pmm {
  import opened Bitmaps

  const RAM_START: nat := 0x4000_0000
  const FRAMES: nat := 32768
  const BITMAP_SIZE: nat := 4096
  /** First frame after the kernel image and the heap: 0x40080000 + 18 MB. */
  const FIRST_FREE: nat := 4736

  // ---- Bits -------------------------------------------------------------------

  predicate Bit(b: bv8, i: nat)
    requires i < 8
  {
    (b >> (i as bv3)) & 1 == 1
  }

  function WithBit(b: bv8, i: nat): bv8
    requires i < 8
  {
    b | (1 << (i as bv3))
  }

  function WithoutBit(b: bv8, i: nat): bv8
    requires i < 8
  {
    b & !(1 << (i as bv3))
  }

  lemma SetEffect(b: bv8, i: nat, j: nat)
    requires i < 8 && j < 8
    ensures Bit(WithBit(b, i), j) <==> j == i || Bit(b, j)
  {
    SameShift(i, j);
    SetShift(b, i as bv3, j as bv3);
  }

  lemma ClearEffect(b: bv8, i: nat, j: nat)
    requires i < 8 && j < 8
    ensures Bit(WithoutBit(b, i), j) <==> j != i && Bit(b, j)
  {
    SameShift(i, j);
    ClearShift(b, i as bv3, j as bv3);
  }

  lemma SameShift(i: nat, j: nat)
    requires i < 8 && j < 8
    ensures i as bv3 == j as bv3 <==> i == j
  {
    ShiftValue(i);
    ShiftValue(j);
  }

  lemma ShiftValue(i: nat)
    requires i < 8
    ensures (i as bv3) as nat == i
  {
  }

  lemma SetShift(b: bv8, k: bv3, l: bv3)
    ensures ((b | (1 << k)) >> l) & 1 == 1 <==> l == k || (b >> l) & 1 == 1
  {
    if k == l {
    } else {
    }
  }

  lemma ClearShift(b: bv8, k: bv3, l: bv3)
    ensures ((b & !(1 << k)) >> l) & 1 == 1 <==> l != k && (b >> l) & 1 == 1
  {
    if k == l {
    } else {
    }
  }

  /** The bitmap `bytes` says that exactly the frames of `used` are used. */
  predicate Encodes(bytes: seq<bv8>, used: seq<bool>) {
    |used| == 8 * |bytes| && forall f :: 0 <= f < |used| ==> used[f] == Bit(bytes[f / 8], f % 8)
  }

  lemma UpdateEncodes(bytes: seq<bv8>, used: seq<bool>, f: nat)
    requires Encodes(bytes, used) && f < |used|
    ensures Encodes(bytes[f / 8 := WithBit(bytes[f / 8], f % 8)], used[f := true])
    ensures Encodes(bytes[f / 8 := WithoutBit(bytes[f / 8], f % 8)], used[f := false])
  {
    hide Bit, WithBit, WithoutBit;
    var b, i := bytes[f / 8], f % 8;
    forall g | 0 <= g < |used|
      ensures used[f := true][g] == Bit(bytes[f / 8 := WithBit(b, i)][g / 8], g % 8)
      ensures used[f := false][g] == Bit(bytes[f / 8 := WithoutBit(b, i)][g / 8], g % 8)
    {
      SetEffect(b, i, g % 8);
      ClearEffect(b, i, g % 8);
    }
  }

  // ---- Addresses --------------------------------------------------------------

  function Phys(f: nat): nat {
    f * 4096 + RAM_START
  }

  /** The frame an address belongs to, in 64-bit arithmetic: an address below RAM wraps to a
      frame number far above it. */
  function Frame(addr: int): nat {
    (addr - RAM_START) % 0x1_0000_0000_0000_0000 / 4096
  }

  lemma FrameOfPhys(f: nat, i: nat)
    requires f + i < FRAMES
    ensures Phys(f) != 0 && Frame(Phys(f) + i * 4096) == f + i
  {
  }

  /** What freeing one address does: a frame of RAM that is used becomes free. */
  function Freed(used: seq<bool>, addr: int): (r: seq<bool>)
    requires |used| == FRAMES
    ensures |r| == FRAMES
  {
    if Frame(addr) < FRAMES then used[Frame(addr) := false] else used
  }

  function FreedAll(used: seq<bool>, addr: int, count: nat): (r: seq<bool>)
    requires |used| == FRAMES
    ensures |r| == FRAMES
  {
    if count == 0 then used else Freed(FreedAll(used, addr, count - 1), addr + (count - 1) * 4096)
  }

  /** Freeing a run of frames clears exactly that run. */
  lemma {:induction false} FreedRun(used: seq<bool>, f: nat, count: nat)
    requires |used| == FRAMES && f + count <= FRAMES
    ensures FreedAll(used, Phys(f), count) == Fill(used, f, count, false)
  {
    hide Frame, Phys, Fill;
    if count > 0 {
      FreedRun(used, f, count - 1);
      FrameOfPhys(f, count - 1);
      FillOneMore(used, f, count - 1);
    } else {
      FillNothing(used, f);
    }
  }

  lemma FillOneMore(used: seq<bool>, f: nat, n: nat)
    requires f + n < |used|
    ensures Fill(used, f, n, false)[f + n := false] == Fill(used, f, n + 1, false)
  {
  }

  lemma FillNothing(used: seq<bool>, f: nat)
    requires f <= |used|
    ensures Fill(used, f, 0, false) == used
  {
  }

  // ---- The allocator ----------------------------------------------------------

  class Allocator {
    var bitmap: array<bv8>
    var freeCount: nat
    /** The abstract value: which frames are used. */
    ghost var used: seq<bool>

    ghost predicate Valid()
      reads this, bitmap
    {
      bitmap.Length == BITMAP_SIZE && Encodes(bitmap[..], used) && freeCount == Count(used, false)
    }

    /** pmm_init: everything used, then the frames after the reserved zone freed. */
    constructor ()
      ensures Valid() && fresh(bitmap)
      ensures used == Fill(seq(FRAMES, _ => true), FIRST_FREE, FRAMES - FIRST_FREE, false)
    {
      bitmap := new bv8[BITMAP_SIZE];
      freeCount := 0;
      used := seq(FRAMES, _ => true);
      new;
      for i := 0 to BITMAP_SIZE
        invariant bitmap.Length == BITMAP_SIZE && fresh(bitmap) && freeCount == 0 && |used| == FRAMES
        invariant forall f :: 0 <= f < FRAMES ==> used[f]
        invariant forall k :: 0 <= k < i ==> bitmap[k] == 0xFF
      {
        bitmap[i] := 0xFF;
      }
      AllUsed(bitmap[..], used);
      CountAll(used, true);
      ghost var all := used;
      var f := FIRST_FREE;
      while f < FRAMES
        invariant FIRST_FREE <= f <= FRAMES && Valid() && fresh(bitmap)
        invariant used == Fill(all, FIRST_FREE, f - FIRST_FREE, false)
      {
        ClearFrame(f);
        f := f + 1;
      }
    }

    method TestFrame(f: nat) returns (bit: bool)
      requires Valid() && f < FRAMES
      ensures bit == used[f]
    {
      bit := (bitmap[f / 8] >> (f % 8)) & 1 == 1;
    }

    method SetFrame(f: nat)
      requires Valid() && f < FRAMES && !used[f]
      modifies this`used, this`freeCount, bitmap
      ensures Valid() && used == old(used)[f := true]
    {
      hide Encodes, WithBit, Bit, Count;
      EncodesLength(bitmap[..], used);
      UpdateEncodes(bitmap[..], used, f);
      CountFlip(used, f, true);
      bitmap[f / 8] := WithBit(bitmap[f / 8], f % 8);
      assert bitmap[..] == old(bitmap[..])[f / 8 := bitmap[f / 8]];
      used := used[f := true];
      freeCount := freeCount - 1;
    }

    method ClearFrame(f: nat)
      requires Valid() && f < FRAMES && used[f]
      modifies this`used, this`freeCount, bitmap
      ensures Valid() && used == old(used)[f := false]
    {
      hide Encodes, WithoutBit, Bit, Count;
      EncodesLength(bitmap[..], used);
      UpdateEncodes(bitmap[..], used, f);
      CountFlip(used, f, false);
      bitmap[f / 8] := WithoutBit(bitmap[f / 8], f % 8);
      assert bitmap[..] == old(bitmap[..])[f / 8 := bitmap[f / 8]];
      used := used[f := false];
      freeCount := freeCount + 1;
    }

    /** pmm_alloc_page: the lowest free frame, or 0 exactly when every frame is used. */
    method AllocPage() returns (addr: nat)
      requires Valid()
      modifies this`used, this`freeCount, bitmap
      ensures Valid()
      ensures addr == 0 <==> forall f :: 0 <= f < FRAMES ==> old(used)[f]
      ensures addr == 0 ==> used == old(used)
      ensures addr != 0 ==> var f := LowestRun(old(used), 1, false);
                            0 <= f < FRAMES && addr == Phys(f) && used == old(used)[f := true]
    {
      CountZero(used, false);
      addr := 0;
      if freeCount == 0 {
        return;
      }
      var f := 0;
      while f < FRAMES
        invariant 0 <= f <= FRAMES && used == old(used) && Valid()
        invariant forall g :: 0 <= g < f ==> used[g]
      {
        var bit := TestFrame(f);
        if !bit {
          LowestFrame(used, f);
          SetFrame(f);
          return f * 4096 + RAM_START;
        }
        f := f + 1;
      }
    }

    /** Whether the `count` frames at `f` are all free. */
    method RunFree(f: nat, count: nat) returns (ok: bool)
      requires Valid() && f + count <= FRAMES
      ensures ok <==> Run(used, f, count, false)
    {
      for i := 0 to count
        invariant Run(used, f, i, false)
      {
        var bit := TestFrame(f + i);
        if bit {
          return false;
        }
      }
      return true;
    }

    /** pmm_alloc_pages: the lowest free run of that length, or 0 exactly when there is none
        (or nothing is asked for). */
    method AllocPages(count: nat) returns (addr: nat)
      requires Valid()
      modifies this`used, this`freeCount, bitmap
      ensures Valid()
      ensures addr == 0 <==> count == 0 || LowestRun(old(used), count, false) < 0
      ensures addr == 0 ==> used == old(used)
      ensures addr != 0 ==> var f := LowestRun(old(used), count, false);
                            addr == Phys(f) && used == Fill(old(used), f, count, true)
    {
      if count == 0 || freeCount < count {
        NoRun(used, count);
        return 0;
      }
      var f := 0;
      while f <= FRAMES - count
        invariant 0 <= f <= FRAMES - count + 1 && used == old(used) && Valid()
        invariant LowestRun(used, count, false) == LowestRun(used, count, false, f)
      {
        var ok := RunFree(f, count);
        if ok {
          MarkUsed(f, count);
          return f * 4096 + RAM_START;
        }
        f := f + 1;
      }
      return 0;
    }

    method MarkUsed(f: nat, count: nat)
      requires Valid() && Run(used, f, count, false)
      modifies this`used, this`freeCount, bitmap
      ensures Valid() && used == Fill(old(used), f, count, true)
    {
      for i := 0 to count
        invariant Valid() && used == Fill(old(used), f, i, true)
      {
        SetFrame(f + i);
      }
    }

    /** pmm_free_page: addresses outside RAM and free frames are ignored. */
    method FreePage(addr: int)
      requires Valid()
      modifies this`used, this`freeCount, bitmap
      ensures Valid() && used == Freed(old(used), addr)
    {
      var f := Frame(addr);
      if f < FRAMES {
        var bit := TestFrame(f);
        if bit {
          ClearFrame(f);
        }
      }
    }

    /** pmm_free_pages. */
    method FreePages(addr: int, count: nat)
      requires Valid()
      modifies this`used, this`freeCount, bitmap
      ensures Valid() && used == FreedAll(old(used), addr, count)
    {
      for i := 0 to count
        invariant Valid() && used == FreedAll(old(used), addr, i)
      {
        FreePage(addr + i * 4096);
      }
    }

    /** Freeing what was allocated restores the bitmap exactly. */
    method AllocThenFree(count: nat) returns (addr: nat)
      requires Valid()
      modifies this`used, this`freeCount, bitmap
      ensures Valid() && used == old(used) && freeCount == old(freeCount)
    {
      addr := AllocPages(count);
      if addr != 0 {
        FreedRun(used, LowestRun(old(used), count, false), count);
        FreePages(addr, count);
      }
    }
  }

  /** A caller of the allocator that keeps track of what it holds. */
  class Caller {
    const pmm: Allocator
    var live: seq<Block>

    constructor (pmm: Allocator)
      ensures this.pmm == pmm && live == []
    {
      this.pmm, live := pmm, [];
    }

    ghost function Books(): Ledger
      reads this, pmm
    {
      Ledger(pmm.used, live)
    }

    ghost predicate Valid()
      reads this, pmm, pmm.bitmap
    {
      pmm.Valid() && |pmm.used| == FRAMES && Owned(Books())
    }

    /** Allocates a block, or frees one that is held. */
    method Do(op: Op)
      requires Valid()
      modifies this, pmm`used, pmm`freeCount, pmm.bitmap
      ensures Valid() && Books() == Apply(old(Books()), op)
    {
      hide Encodes, Count, LowestRun, Owned;
      ApplyOwned(Books(), op);
      match op {
        case Alloc(n) =>
          var addr := pmm.AllocPages(n);
          if addr != 0 {
            PlacedInRam(old(pmm.used), n);
            FrameOfPhys(LowestRun(old(pmm.used), n, false), 0);
            live := live + [Block(Frame(addr), n)];
          }
        case Free(k) =>
          if k < |live| {
            HeldInRam(Books(), k);
            FreedRun(pmm.used, live[k].first, live[k].count);
            pmm.FreePages(Phys(live[k].first), live[k].count);
            live := live[..k] + live[k + 1..];
          }
      }
    }

    /** Any sequence of allocations and frees: the blocks held never overlap, and the allocator
        is where the calls' contracts put it. */
    method Run(ops: seq<Op>)
      requires Valid()
      modifies this, pmm`used, pmm`freeCount, pmm.bitmap
      ensures Valid() && Books() == ApplyAll(old(Books()), ops)
    {
      hide Encodes, Count, LowestRun, Owned, Apply;
      var i := 0;
      while i < |ops|
        invariant 0 <= i <= |ops| && Valid() && pmm.bitmap == old(pmm.bitmap)
        invariant ApplyAll(Books(), ops[i..]) == ApplyAll(old(Books()), ops)
      {
        assert ops[i..][1..] == ops[i + 1..];
        Do(ops[i]);
        i := i + 1;
      }
    }
  }

  lemma PlacedInRam(used: seq<bool>, n: nat)
    requires |used| == FRAMES && n > 0 && LowestRun(used, n, false) >= 0
    ensures LowestRun(used, n, false) + n <= FRAMES
  {
  }

  lemma HeldInRam(l: Ledger, k: nat)
    requires Owned(l) && k < |l.live| && |l.used| == FRAMES
    ensures l.live[k].first + l.live[k].count <= FRAMES
  {
  }

  /** A run longer than the number of free frames does not exist. */
  lemma NoRun(used: seq<bool>, count: nat)
    ensures Count(used, false) < count ==> LowestRun(used, count, false) < 0
  {
    var r := LowestRun(used, count, false);
    if r >= 0 {
      RunCounts(used, r, count, false);
    }
  }

  // ---- Live allocations over a run --------------------------------------------

  datatype Block = Block(first: nat, count: nat)

  datatype Ledger = Ledger(used: seq<bool>, live: seq<Block>)

  /** Callers allocate, and free what they hold. */
  datatype Op = Alloc(count: nat) | Free(k: nat)

  predicate Owned(l: Ledger) {
    && (forall i :: 0 <= i < |l.live| ==> Run(l.used, l.live[i].first, l.live[i].count, true))
    && (forall i, j :: 0 <= i < j < |l.live| ==> Disjoint(l.live[i], l.live[j]))
  }

  predicate Disjoint(a: Block, b: Block) {
    a.first + a.count <= b.first || b.first + b.count <= a.first || a.count == 0 || b.count == 0
  }

  /** The effect of one call, as the methods above state it. */
  function Apply(l: Ledger, op: Op): Ledger {
    match op
    case Alloc(n) =>
      var f := LowestRun(l.used, n, false);
      if n == 0 || f < 0 then l else Ledger(Fill(l.used, f, n, true), l.live + [Block(f, n)])
    case Free(k) =>
      if k < |l.live| && l.live[k].first + l.live[k].count <= |l.used|
      then Ledger(Fill(l.used, l.live[k].first, l.live[k].count, false), l.live[..k] + l.live[k + 1..])
      else l
  }

  lemma ApplyOwned(l: Ledger, op: Op)
    requires Owned(l)
    ensures Owned(Apply(l, op))
  {
    if op.Alloc? {
      AllocOwned(l, op.count);
    } else if op.k < |l.live| {
      FreeOwned(l, op.k);
    }
  }

  lemma AllocOwned(l: Ledger, n: nat)
    requires Owned(l)
    ensures Owned(Apply(l, Alloc(n)))
  {
    var f := LowestRun(l.used, n, false);
    if n > 0 && f >= 0 {
      forall i | 0 <= i < |l.live|
        ensures Disjoint(l.live[i], Block(f, n))
      {
        FreeUsedApart(l.used, l.live[i], Block(f, n));
      }
    }
  }

  lemma FreeUsedApart(used: seq<bool>, a: Block, b: Block)
    requires Run(used, a.first, a.count, true) && Run(used, b.first, b.count, false)
    ensures Disjoint(a, b)
  {
    assert a.count > 0 ==> used[a.first];
    assert b.count > 0 ==> !used[b.first];
  }

  lemma FreeOwned(l: Ledger, k: nat)
    requires Owned(l) && k < |l.live|
    ensures Owned(Apply(l, Free(k)))
  {
    var l' := Apply(l, Free(k));
    forall i | 0 <= i < |l'.live|
      ensures Run(l'.used, l'.live[i].first, l'.live[i].count, true)
    {
      var j := if i < k then i else i + 1;
      assert l'.live[i] == l.live[j];
      assert Disjoint(if j < k then l.live[j] else l.live[k], if j < k then l.live[k] else l.live[j]);
    }
  }

  function ApplyAll(l: Ledger, ops: seq<Op>): Ledger
    decreases |ops|
  {
    if ops == [] then l else ApplyAll(Apply(l, ops[0]), ops[1..])
  }

  /** Live allocations never overlap, over every run of allocations and frees. */
  lemma {:induction false} NeverOverlap(l: Ledger, ops: seq<Op>)
    requires Owned(l)
    ensures Owned(ApplyAll(l, ops))
    decreases |ops|
  {
    if ops != [] {
      ApplyOwned(l, ops[0]);
      NeverOverlap(Apply(l, ops[0]), ops[1..]);
    }
  }

  lemma EncodesLength(bytes: seq<bv8>, used: seq<bool>)
    requires Encodes(bytes, used)
    ensures |used| == 8 * |bytes|
  {
  }

  lemma CountFlip(used: seq<bool>, f: nat, v: bool)
    requires f < |used| && used[f] == !v
    ensures Count(used[f := v], false) == Count(used, false) + (if v then -1 else 1)
    ensures v ==> Count(used, false) > 0
  {
    CountFill(used, f, 1, v);
    assert Fill(used, f, 1, v) == used[f := v];
    CountZero(used, false);
  }

  lemma LowestFrame(used: seq<bool>, f: nat)
    requires f < |used| && !used[f] && forall g :: 0 <= g < f ==> used[g]
    ensures LowestRun(used, 1, false) == f
  {
    var r := LowestRun(used, 1, false);
    assert Run(used, f, 1, false);
    assert r >= 0 && !used[r];
  }

  lemma AllUsed(bytes: seq<bv8>, used: seq<bool>)
    requires |bytes| == BITMAP_SIZE && |used| == FRAMES
    requires (forall k :: 0 <= k < |bytes| ==> bytes[k] == 0xFF) && forall f :: 0 <= f < |used| ==> used[f]
    ensures Encodes(bytes, used)
  {
    forall f | 0 <= f < |used|
      ensures Bit(bytes[f / 8], f % 8)
    {
      FullByte(f % 8);
    }
  }

  lemma FullByte(i: nat)
    requires i < 8
    ensures Bit(0xFF, i)
  {
  }
}
