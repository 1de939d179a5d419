/** The structure-block walker of the boot loader. */
module FdtWalker {
  import opened Bytes
  import opened FdtTree

  /** What the token loop remembers: nesting depth, whether the current node is a memory node
      whose properties are being read, and the root's cell counts. */
  datatype Walking = Walking(depth: nat, inMemory: bool, cells: Cells)

  const START: Walking := Walking(0, false, DEFAULT_CELLS)

  function Enter(w: Walking, name: seq<byte>): Walking {
    w.(depth := w.depth + 1, inMemory := w.depth == 1 && IsMemoryName(name))
  }

  function Leave(w: Walking): Walking {
    w.(depth := if w.depth > 0 then w.depth - 1 else 0, inMemory := false)
  }

  /** A property other than the "reg" of a memory node. */
  function Note(w: Walking, strs: seq<byte>, p: PropItem): Walking {
    if !w.inMemory && w.depth == 1 then w.(cells := CellsOfItem(strs, p, w.cells)) else w
  }

  predicate IsAnswer(w: Walking, strs: seq<byte>, p: PropItem) {
    w.inMemory && Called(strs, p, REG)
  }

  /** The token loop on the rest of a structure block: what it will return. */
  function Walk(s: seq<byte>, strs: seq<byte>, w: Walking): Option<Region> {
    if |s| < 4 then None else
      var tok := DecodeBE32(s[..4]);
      if tok == END then None
      else if tok == NOP then Walk(s[4..], strs, w)
      else if tok == BEGIN_NODE then
        var end := NulIndex(s, 4);
        if BeginSize(end) > |s| then None else Walk(s[BeginSize(end)..], strs, Enter(w, s[4..end]))
      else if tok == END_NODE then Walk(s[4..], strs, Leave(w))
      else if tok == PROP then
        if |s| < 12 then None else
          var len := DecodeBE32(s[4..8]);
          if PropSize(len) > |s| then None else
            var p := Property(DecodeBE32(s[8..12]), s[12..12 + len]);
            if IsAnswer(w, strs, p) then DecodeReg(p.value, w.cells)
            else Walk(s[PropSize(len)..], strs, Note(w, strs, p))
      else None
  }

  /** Length of a BEGIN_NODE record whose name ends before index `end`. */
  function BeginSize(end: nat): (r: nat)
    requires end >= 4
    ensures end < r
  {
    4 + Align4(end - 4 + 1)
  }

  /** Length of a PROP record with a value of `len` bytes. */
  function PropSize(len: nat): (r: nat)
    ensures 12 + len <= r
  {
    12 + Align4(len)
  }

  // ---- Byte-level helpers -----------------------------------------------------

  method Read32(s: seq<byte>, at: nat) returns (v: u32)
    requires at + 4 <= |s|
    ensures v == DecodeBE32(s[at..at + 4])
  {
    v := 0x100_0000 * s[at] as int + 0x1_0000 * s[at + 1] as int + 0x100 * s[at + 2] as int + s[at + 3] as int;
  }

  /** Distance from `at` to the next NUL or to the end. */
  method StringLength(s: seq<byte>, at: nat) returns (n: nat)
    requires at <= |s|
    ensures n == NulIndex(s, at) - at
  {
    var p := at;
    while p < |s| && s[p] != 0
      invariant at <= p <= |s| && NulIndex(s, at) == NulIndex(s, p)
    {
      p := p + 1;
    }
    return p - at;
  }

  /** Compares the terminated string at `at` with a literal. */
  method StringEqual(s: seq<byte>, at: nat, lit: seq<byte>) returns (equal: bool)
    requires at < |s| && NulIndex(s, at) < |s| && 0 !in lit
    ensures equal <==> s[at..NulIndex(s, at)] == lit
  {
    var i := 0;
    while s[at + i] != 0 && i < |lit| && s[at + i] == lit[i]
      invariant at + i <= NulIndex(s, at) && i <= |lit|
      invariant forall k :: 0 <= k < i ==> s[at + k] == lit[k]
      decreases |lit| - i
    {
      i := i + 1;
    }
    equal := s[at + i] == if i < |lit| then lit[i] else 0;
    ghost var str := s[at..NulIndex(s, at)];
    if equal {
      assert at + i == NulIndex(s, at) && |lit| == i && str == lit;
    } else if i < |lit| && i < |str| {
      assert str[i] != lit[i];
    }
  }

  /** Whether the `n` bytes at `at` start with a literal no longer than that. */
  method StartsWith(s: seq<byte>, at: nat, n: nat, lit: seq<byte>) returns (yes: bool)
    requires at + n <= |s| && |lit| <= n && 0 !in lit
    ensures yes <==> lit <= s[at..at + n]
  {
    var i := 0;
    while i < |lit| && s[at + i] != 0 && s[at + i] == lit[i]
      invariant i <= |lit| && forall k :: 0 <= k < i ==> s[at + k] == lit[k]
    {
      i := i + 1;
    }
    yes := i == |lit|;
    if yes {
      assert lit == s[at..at + n][..|lit|];
    }
  }

  /** A string-block offset is usable when a NUL follows it inside the block. */
  method StringAt(strs: seq<byte>, off: nat) returns (ok: bool)
    ensures ok <==> Resolve(strs, off).Some?
  {
    if off >= |strs| {
      return false;
    }
    var n := StringLength(strs, off);
    return n != |strs| - off;
  }

  method ReadCells(s: seq<byte>, at: nat, count: nat) returns (v: nat)
    requires at + 4 * count <= |s|
    ensures v == CellValue(s, at, count)
  {
    v := 0;
    for i := 0 to count
      invariant v == CellValue(s, at, i)
    {
      var c := Read32(s, at + 4 * i);
      v := v * 0x1_0000_0000 + c;
    }
  }

  // ---- The walker -------------------------------------------------------------

  /** The 32-bit rounding of the source, which wraps for the three largest lengths. */
  function Align32(n: nat): nat {
    (n + 3) % 0x1_0000_0000 / 4 * 4
  }

  /** A length that fits what is left of the block is rounded without wrapping. */
  lemma AlignFits(len: u32, left: nat)
    requires left + 12 < 0x1_0000_0000
    ensures (len > left || Align32(len) > left) <==> Align4(len) > left
    ensures len <= left ==> Align32(len) == Align4(len)
  {
  }

  lemma AlignSmall(n: nat)
    requires n + 3 < 0x1_0000_0000
    ensures Align32(n) == Align4(n)
  {
  }

  /** Decodes a "reg" value at `at`, or reports that it has another shape. */
  method ReadReg(s: seq<byte>, at: nat, len: nat, c: Cells) returns (r: Option<Region>)
    requires at + len <= |s|
    ensures r == DecodeReg(s[at..at + len], c)
  {
    if c.address < 1 || c.address > 2 || c.size < 1 || c.size > 2 || len != (c.address + c.size) * 4 {
      return None;
    }
    var base := ReadCells(s, at, c.address);
    var size := ReadCells(s, at + 4 * c.address, c.size);
    CellsShift(s, at, len, 0, c.address);
    CellsShift(s, at, len, 4 * c.address, c.size);
    return Some(Region(base, size));
  }

  lemma MidSlice(s: seq<byte>, at: nat, len: nat, lo: nat, hi: nat)
    requires at + len <= |s| && lo <= hi <= len
    ensures s[at..at + len][lo..hi] == s[at + lo..at + hi]
  {
    var a, b := s[at..at + len][lo..hi], s[at + lo..at + hi];
    forall i | 0 <= i < |a|
      ensures a[i] == b[i]
    {
    }
  }

  lemma CellsShift(s: seq<byte>, at: nat, len: nat, off: nat, count: nat)
    requires at + len <= |s| && off + 4 * count <= len
    ensures CellValue(s[at..at + len], off, count) == CellValue(s, at + off, count)
  {
    if count > 0 {
      CellsShift(s, at, len, off, count - 1);
      var lo, hi := off + 4 * (count - 1), off + 4 * count;
      MidSlice(s, at, len, lo, hi);
      assert at + off + 4 * (count - 1) == at + lo && at + off + 4 * count == at + hi;
    }
  }

  /** A slice of a suffix is a slice. */
  lemma SuffixSlice(s: seq<byte>, at: nat, lo: nat, hi: nat)
    requires at <= |s| && lo <= hi <= |s| - at
    ensures s[at..][lo..hi] == s[at + lo..at + hi]
    ensures s[at..][lo..] == s[at + lo..]
  {
  }

  /** The property record at `at`: stops the walk, or moves past it. */
  method WalkProperty(blk: seq<byte>, strs: seq<byte>, at: nat, w: Walking)
    returns (stop: bool, r: Option<Region>, sp: nat, w': Walking)
    requires |blk| < 0x1_0000_0000 && at + 4 <= |blk| && DecodeBE32(blk[at..at + 4]) == PROP
    ensures stop ==> Walk(blk[at..], strs, w) == r
    ensures !stop ==> at + 4 < sp <= |blk| && Walk(blk[at..], strs, w) == Walk(blk[sp..], strs, w')
  {
    hide DecodeBE32, CellsOfItem, Resolve, DecodeReg, NulIndex, Align4, Align32;
    r, w', sp := None, w, at + 4;
    SuffixSlice(blk, at, 0, 4);
    if sp + 8 > |blk| {
      return true, r, sp, w';
    }
    var len := Read32(blk, sp);
    var nameOff := Read32(blk, sp + 4);
    SuffixSlice(blk, at, 4, 8);
    SuffixSlice(blk, at, 8, 12);
    var val := sp + 8;
    sp := val + Align32(len);
    AlignFits(len, |blk| - val);
    if val + len > |blk| || sp > |blk| {
      return true, r, sp, w';
    }
    SuffixSlice(blk, at, 12, 12 + len);
    SuffixSlice(blk, at, PropSize(len), PropSize(len));
    stop, r, w' := TakeProperty(blk, strs, val, len, nameOff, w);
  }

  /** Acts on a property that lies inside the block. */
  method TakeProperty(blk: seq<byte>, strs: seq<byte>, val: nat, len: nat, nameOff: u32, w: Walking)
    returns (stop: bool, r: Option<Region>, w': Walking)
    requires val + len <= |blk|
    ensures stop <==> IsAnswer(w, strs, Property(nameOff, blk[val..val + len]))
    ensures stop ==> r == DecodeReg(blk[val..val + len], w.cells)
    ensures !stop ==> w' == Note(w, strs, Property(nameOff, blk[val..val + len]))
  {
    r, w', stop := None, w, false;
    var named := StringAt(strs, nameOff);
    if named {
      var isReg := StringEqual(strs, nameOff, REG);
      if w.inMemory && isReg {
        r := ReadReg(blk, val, len, w.cells);
        stop := true;
      } else if !w.inMemory && w.depth == 1 && len == 4 {
        var isAddress := StringEqual(strs, nameOff, ADDRESS_CELLS);
        var isSize := StringEqual(strs, nameOff, SIZE_CELLS);
        var v := Read32(blk, val);
        if isAddress {
          w' := w.(cells := w.cells.(address := v));
        } else if isSize {
          w' := w.(cells := w.cells.(size := v));
        }
      }
    }
  }

  lemma BeginStep(s: seq<byte>, strs: seq<byte>, w: Walking)
    requires |s| >= 4 && DecodeBE32(s[..4]) == BEGIN_NODE
    ensures BeginSize(NulIndex(s, 4)) > |s| ==> Walk(s, strs, w) == None
    ensures BeginSize(NulIndex(s, 4)) <= |s| ==>
              Walk(s, strs, w) == Walk(s[BeginSize(NulIndex(s, 4))..], strs, Enter(w, s[4..NulIndex(s, 4)]))
  {
  }

  /** The BEGIN_NODE record at `at`: stops the walk, or enters the node. */
  method WalkBegin(blk: seq<byte>, strs: seq<byte>, at: nat, w: Walking) returns (stop: bool, sp: nat, w': Walking)
    requires |blk| < 0x1_0000_0000 && at + 4 <= |blk| && DecodeBE32(blk[at..at + 4]) == BEGIN_NODE
    ensures stop ==> Walk(blk[at..], strs, w) == None
    ensures !stop ==> at + 4 < sp <= |blk| && Walk(blk[at..], strs, w) == Walk(blk[sp..], strs, w')
  {
    hide DecodeBE32, IsMemoryName, NulIndex, Align4, Align32, Walk;
    w', sp := w, at + 4;
    SuffixSlice(blk, at, 0, 4);
    var name := sp;
    var n := StringLength(blk, name);
    NulIndexDrop(blk, at, name);
    AlignSmall(n + 1);
    BeginStep(blk[at..], strs, w);
    sp := sp + Align32(n + 1);
    if sp > |blk| {
      return true, sp, w';
    }
    SuffixSlice(blk, at, 4, 4 + n);
    SuffixSlice(blk, at, BeginSize(4 + n), BeginSize(4 + n));
    var isMemory := MemoryName(blk, name, n);
    w' := w.(depth := w.depth + 1, inMemory := w.depth == 1 && isMemory);
    stop := false;
  }

  method MemoryName(blk: seq<byte>, at: nat, n: nat) returns (yes: bool)
    requires at + n <= |blk|
    ensures yes <==> IsMemoryName(blk[at..at + n])
  {
    if n < 6 {
      return false;
    }
    yes := StartsWith(blk, at, n, MEMORY);
    if yes && n != 6 {
      yes := blk[at + 6] == AT_SIGN;
    }
  }

  lemma NulIndexDrop(s: seq<byte>, k: nat, from: nat)
    requires k <= from <= |s|
    ensures NulIndex(s[k..], from - k) == NulIndex(s, from) - k
    decreases |s| - from
  {
    if from < |s| && s[from] != 0 {
      NulIndexDrop(s, k, from + 1);
    }
  }

  /** The token loop. It reads inside the two blocks only, and it ends. */
  method WalkBlock(blk: seq<byte>, strs: seq<byte>) returns (r: Option<Region>)
    requires |blk| < 0x1_0000_0000
    ensures r == Walk(blk, strs, START)
  {
    var sp, w := 0, START;
    assert blk[0..] == blk;
    while sp + 4 <= |blk|
      invariant 0 <= sp <= |blk|
      invariant Walk(blk[sp..], strs, w) == Walk(blk, strs, START)
    {
      var at := sp;
      var tok := Read32(blk, sp);
      assert blk[sp..][..4] == blk[sp..sp + 4] && blk[sp..][4..] == blk[sp + 4..];
      sp := sp + 4;
      if tok == END {
        return None;
      } else if tok == NOP {
      } else if tok == BEGIN_NODE {
        var stop;
        stop, sp, w := WalkBegin(blk, strs, at, w);
        if stop {
          return None;
        }
      } else if tok == END_NODE {
        w := Leave(w);
      } else if tok == PROP {
        var stop;
        stop, r, sp, w := WalkProperty(blk, strs, at, w);
        if stop {
          return;
        }
      } else {
        return None;
      }
    }
    return None;
  }

  // ---- The blob ---------------------------------------------------------------

  const HEADER_SIZE: nat := 40

  function HeaderField(mem: seq<byte>, at: nat): u32
    requires at + 4 <= |mem|
  {
    DecodeBE32(mem[at..at + 4])
  }

  /** The header places both blocks inside the blob. */
  predicate BlocksInside(mem: seq<byte>, size: nat)
    requires HEADER_SIZE <= |mem|
  {
    && HeaderField(mem, 36) != 0
    && HeaderField(mem, 8) + HeaderField(mem, 36) <= size
    && HeaderField(mem, 12) + HeaderField(mem, 32) <= size
  }

  /** dtb_memory: `mem` is memory from the blob's address on, `size` the blob's total size. */
  method DtbMemory(mem: seq<byte>, size: u32) returns (r: Option<Region>)
    requires HEADER_SIZE <= |mem| && size <= |mem|
    ensures r == if BlocksInside(mem, size)
                 then Walk(mem[HeaderField(mem, 8)..HeaderField(mem, 8) + HeaderField(mem, 36)],
                           mem[HeaderField(mem, 12)..HeaderField(mem, 12) + HeaderField(mem, 32)], START)
                 else None
  {
    hide Walk, DecodeBE32;
    var structOff := Read32(mem, 8);
    var stringsOff := Read32(mem, 12);
    var stringsSize := Read32(mem, 32);
    var structSize := Read32(mem, 36);
    if structSize == 0 || structOff > size || stringsOff > size || structSize > size - structOff ||
       stringsSize > size - stringsOff {
      return None;
    }
    r := WalkBlock(mem[structOff..structOff + structSize], mem[stringsOff..stringsOff + stringsSize]);
  }
}
