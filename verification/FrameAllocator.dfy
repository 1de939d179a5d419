/** The physical frame allocator of the memory crate: a bitmap of 64-bit words, 1 meaning
    free, and a bounded stack of free frames in front of it. */
module FrameAllocator {
  import opened Bitmaps
  import opened Bytes

  const BITMAP_WORDS: nat := 2048
  const FREE_STACK_SIZE: nat := 8192

  // ---- Bits -------------------------------------------------------------------

  predicate Bit(w: bv64, k: bv6) {
    (w >> k) & 1 == 1
  }

  function WithBit(w: bv64, k: bv6): bv64 {
    w | (1 << k)
  }

  function WithoutBit(w: bv64, k: bv6): bv64 {
    w & !(1 << k)
  }

  lemma SetEffect(w: bv64, k: bv6, l: bv6)
    ensures Bit(WithBit(w, k), l) == (l == k || Bit(w, l))
  {
    if k == l {
    } else {
    }
  }

  lemma ClearEffect(w: bv64, k: bv6, l: bv6)
    ensures Bit(WithoutBit(w, k), l) == (l != k && Bit(w, l))
  {
    if k == l {
    } else {
    }
  }

  /** The source tests a bit with a mask. */
  predicate Masked(w: bv64, k: bv6) {
    w & (1 << k) != 0
  }

  lemma MaskTest(w: bv64, k: bv6)
    ensures Masked(w, k) <==> Bit(w, k)
  {
  }

  lemma ZeroWord(k: bv6)
    ensures !Bit(0, k)
  {
  }

  /** Bit number of a frame in its word. */
  function BitOf(f: nat): bv6 {
    (f % 64) as bv6
  }

  lemma BitOfValue(f: nat)
    ensures BitOf(f) as nat == f % 64
  {
  }

  lemma BitOfDistinct(f: nat, g: nat)
    requires f / 64 == g / 64 && BitOf(f) == BitOf(g)
    ensures f == g
  {
    BitOfValue(f);
    BitOfValue(g);
  }

  lemma SameValue(k: bv6, l: bv6)
    requires k as nat == l as nat
    ensures k == l
  {
  }

  lemma BitOfIs(f: nat, k: bv6)
    requires f % 64 == k as nat
    ensures BitOf(f) == k
  {
    hide BitOf;
    BitOfValue(f);
    SameValue(BitOf(f), k);
  }

  lemma LessValue(k: bv6, l: bv6)
    ensures (k < l) == (k as nat < l as nat)
  {
  }

  /** The bits below `k` are all zero. */
  predicate ShiftedOut(w: bv64, k: bv6) {
    w << (64 - (k as bv7)) == 0
  }

  /** When bit `k` and all bits below it are zero, a non-zero word has a higher one. */
  lemma NextBit(w: bv64, k: bv6)
    requires w != 0 && !Bit(w, k) && ShiftedOut(w, k)
    ensures k < 63 && ShiftedOut(w, k + 1)
  {
  }

  /** u64::trailing_zeros on a non-zero word: its lowest set bit. */
  method TrailingZeros(w: bv64) returns (k: bv6)
    requires w != 0
    ensures Bit(w, k) && forall l: bv6 :: l < k ==> !Bit(w, l)
  {
    hide Bit, NoneBelow, ShiftedOut;
    k := 0;
    NothingBelow(w);
    while !Bit(w, k)
      invariant ShiftedOut(w, k) && NoneBelow(w, k)
      decreases 63 - k
    {
      NextBit(w, k);
      NoneBelowNext(w, k);
      k := k + 1;
    }
    BelowMeans(w, k);
  }

  ghost predicate NoneBelow(w: bv64, k: bv6) {
    forall l: bv6 :: l < k ==> !Bit(w, l)
  }

  lemma NothingBelow(w: bv64)
    ensures NoneBelow(w, 0) && ShiftedOut(w, 0)
  {
  }

  lemma NoneBelowNext(w: bv64, k: bv6)
    requires NoneBelow(w, k) && !Bit(w, k) && k < 63
    ensures NoneBelow(w, k + 1)
  {
    hide Bit;
  }

  lemma BelowMeans(w: bv64, k: bv6)
    requires NoneBelow(w, k)
    ensures forall l: bv6 :: l < k ==> !Bit(w, l)
  {
  }

  // ---- The bitmap -------------------------------------------------------------

  function WordsFor(total: nat): nat {
    (total + 63) / 64
  }

  /** The words say that exactly the frames of `free` are free, and nothing about frames past
      the last one. */
  predicate Encodes(words: seq<bv64>, free: seq<bool>) {
    && WordsFor(|free|) <= |words|
    && (forall f :: 0 <= f < |free| ==> free[f] == Bit(words[f / 64], BitOf(f)))
    && (forall f :: |free| <= f < 64 * WordsFor(|free|) ==> !Bit(words[f / 64], BitOf(f)))
  }

  lemma SetEncodes(words: seq<bv64>, free: seq<bool>, f: nat)
    requires Encodes(words, free) && f < |free|
    ensures Encodes(words[f / 64 := WithBit(words[f / 64], BitOf(f))], free[f := true])
  {
    hide Bit, WithBit, BitOf;
    var words' := words[f / 64 := WithBit(words[f / 64], BitOf(f))];
    forall g | 0 <= g < 64 * WordsFor(|free|)
      ensures Bit(words'[g / 64], BitOf(g)) == (g == f || Bit(words[g / 64], BitOf(g)))
    {
      SetEffect(words[f / 64], BitOf(f), BitOf(g));
      if g / 64 == f / 64 && BitOf(g) == BitOf(f) {
        BitOfDistinct(f, g);
      }
    }
  }

  lemma ClearEncodes(words: seq<bv64>, free: seq<bool>, f: nat)
    requires Encodes(words, free) && f < |free|
    ensures Encodes(words[f / 64 := WithoutBit(words[f / 64], BitOf(f))], free[f := false])
  {
    hide Bit, WithoutBit, BitOf;
    var words' := words[f / 64 := WithoutBit(words[f / 64], BitOf(f))];
    forall g | 0 <= g < 64 * WordsFor(|free|)
      ensures Bit(words'[g / 64], BitOf(g)) == (g != f && Bit(words[g / 64], BitOf(g)))
    {
      ClearEffect(words[f / 64], BitOf(f), BitOf(g));
      if g / 64 == f / 64 && BitOf(g) == BitOf(f) {
        BitOfDistinct(f, g);
      }
    }
  }

  /** A zero word holds no free frame. */
  lemma EmptyWord(words: seq<bv64>, free: seq<bool>, i: nat)
    requires Encodes(words, free) && i < WordsFor(|free|) && words[i] == 0
    ensures forall f :: 0 <= f < |free| && f / 64 == i ==> !free[f]
  {
    hide Bit, BitOf;
    forall f | 0 <= f < |free| && f / 64 == i
      ensures !free[f]
    {
      ZeroWord(BitOf(f));
    }
  }

  /** The lowest bit of the first non-zero word is the lowest free frame. */
  lemma LowestInWord(words: seq<bv64>, free: seq<bool>, i: nat, k: bv6)
    requires Encodes(words, free) && i < WordsFor(|free|)
    requires forall f :: 0 <= f < |free| && f < 64 * i ==> !free[f]
    requires Bit(words[i], k) && forall l: bv6 :: l < k ==> !Bit(words[i], l)
    ensures var f := 64 * i + k as nat;
            f < |free| && f / 64 == i && BitOf(f) == k && free[f] && forall g :: 0 <= g < f ==> !free[g]
  {
    hide Bit, BitOf;
    var f := 64 * i + k as nat;
    BitOfIs(f, k);
    assert f / 64 == i;
    assert f < |free|;
    forall g | 64 * i <= g < f
      ensures !free[g]
    {
      BitOfValue(g);
      LessValue(BitOf(g), k);
    }
  }

  // ---- The free stack ---------------------------------------------------------

  /** Stack entries are distinct frames that the bitmap says are free. */
  predicate StackOk(stack: seq<nat>, free: seq<bool>) {
    && (forall i :: 0 <= i < |stack| ==> stack[i] < |free| && free[stack[i]])
    && (forall i, j :: 0 <= i < j < |stack| ==> stack[i] != stack[j])
  }

  lemma PopOk(stack: seq<nat>, free: seq<bool>)
    requires StackOk(stack, free) && stack != []
    ensures var f := stack[|stack| - 1]; f < |free| && free[f] && StackOk(stack[..|stack| - 1], free[f := false])
  {
  }

  lemma PushOk(stack: seq<nat>, free: seq<bool>, f: nat)
    requires StackOk(stack, free) && f < |free| && !free[f]
    ensures StackOk(stack + [f], free[f := true]) && StackOk(stack, free[f := true])
  {
  }

  lemma CountFlip(free: seq<bool>, f: nat, v: bool)
    requires f < |free| && free[f] == !v
    ensures Count(free[f := v], true) == Count(free, true) + (if v then 1 else -1)
    ensures !v ==> Count(free, true) > 0
  {
    CountFill(free, f, 1, v);
    assert Fill(free, f, 1, v) == free[f := v];
    CountZero(free, true);
  }

  // ---- The allocator ----------------------------------------------------------

  datatype Error = OutOfFrames | NotAllocated | OutOfBounds | InsufficientMemory

  /** The first frame that lies above the reserved end, but never frame 0. */
  function FirstFree(reservedEnd: nat): nat {
    var reserved := (reservedEnd + 4095) / 4096;
    if reserved > 1 then reserved else 1
  }

  lemma FirstFreeMeans(reservedEnd: nat, f: nat)
    ensures f >= FirstFree(reservedEnd) <==> f >= 1 && f * 4096 >= reservedEnd
  {
  }

  lemma NotStacked(stack: seq<nat>, free: seq<bool>, f: nat)
    requires StackOk(stack, free) && f < |free| && !free[f]
    ensures f !in stack
  {
  }

  /** Consecutive frames. */
  function Upwards(first: nat, n: nat): seq<nat> {
    seq(n, i requires i >= 0 => first + i)
  }

  lemma UpwardsNext(first: nat, n: nat)
    ensures Upwards(first, n) + [first + n] == Upwards(first, n + 1) && Upwards(first, 0) == []
  {
  }

  class Frames {
    const bitmap: array<bv64>
    const freeStack: array<nat>
    var totalFrames: nat
    var freeCount: nat
    var freeTop: nat
    /** The abstract value: which frames are free. */
    ghost var free: seq<bool>

    ghost predicate Valid()
      reads this, bitmap, freeStack
    {
      && bitmap.Length == BITMAP_WORDS && freeStack.Length == FREE_STACK_SIZE && freeTop <= FREE_STACK_SIZE
      && |free| == totalFrames && Encodes(bitmap[..], free)
      && freeCount == Count(free, true)
      && StackOk(freeStack[..freeTop], free)
    }

    constructor ()
      ensures Valid() && fresh(bitmap) && fresh(freeStack) && free == []
    {
      bitmap := new bv64[BITMAP_WORDS](_ => 0);
      freeStack := new nat[FREE_STACK_SIZE](_ => 0);
      totalFrames, freeCount, freeTop := 0, 0, 0;
      free := [];
    }

    /** Sets the bit of `f` and accounts for it. */
    method MarkFree(f: nat)
      requires Valid() && f < totalFrames && !free[f]
      modifies this`free, this`freeCount, bitmap
      ensures Valid() && free == old(free)[f := true]
    {
      hide Encodes, StackOk, Count, WithBit, Bit;
      EncodesLength(bitmap[..], free);
      SetEncodes(bitmap[..], free, f);
      PushOk(freeStack[..freeTop], free, f);
      CountFlip(free, f, true);
      bitmap[f / 64] := WithBit(bitmap[f / 64], BitOf(f));
      assert bitmap[..] == old(bitmap[..])[f / 64 := bitmap[f / 64]];
      free := free[f := true];
      freeCount := freeCount + 1;
    }

    /** Pushes a free frame that is not on the stack when there is room. */
    method Push(f: nat)
      requires Valid() && f < totalFrames && free[f] && f !in freeStack[..freeTop]
      modifies this`freeTop, freeStack
      ensures Valid()
      ensures freeStack[..freeTop] == if old(freeTop) < FREE_STACK_SIZE then old(freeStack[..freeTop]) + [f] else old(freeStack[..freeTop])
    {
      if freeTop < FREE_STACK_SIZE {
        freeStack[freeTop] := f;
        freeTop := freeTop + 1;
        assert freeStack[..freeTop] == old(freeStack[..freeTop]) + [f];
      }
    }

    /** init: fails when the bitmap is too small; otherwise exactly the frames from the
        reserved end on, and never frame 0, are free. */
    method Init(physSize: nat, reservedEnd: nat) returns (r: Result<(), Error>)
      requires bitmap.Length == BITMAP_WORDS && freeStack.Length == FREE_STACK_SIZE
      modifies this, bitmap, freeStack
      ensures r == Err(InsufficientMemory) <==> physSize / 4096 > 64 * 2048
      ensures r.Ok? || r == Err(InsufficientMemory)
      ensures r.Ok? ==> Valid() && totalFrames == physSize / 4096
                        && forall f :: 0 <= f < totalFrames ==> (free[f] <==> f >= 1 && f * 4096 >= reservedEnd)
      // The stack holds the lowest of them.
      ensures r.Ok? ==> freeTop == (if Count(free, true) < FREE_STACK_SIZE then Count(free, true) else FREE_STACK_SIZE)
                        && freeStack[..freeTop] == Upwards(FirstFree(reservedEnd), freeTop)
    {
      hide Encodes, Count, FirstFree, Upwards;
      totalFrames := physSize / 4096;
      freeTop := 0;
      var words := WordsFor(totalFrames);
      if words > BITMAP_WORDS {
        return Err(InsufficientMemory);
      }
      for i := 0 to words
        invariant totalFrames == physSize / 4096 && freeTop == 0
        invariant forall j :: 0 <= j < i ==> bitmap[j] == 0
      {
        bitmap[i] := 0;
      }
      freeCount := 0;
      free := seq(totalFrames, _ => false);
      NothingFree(bitmap[..], free);
      var f := FirstFree(reservedEnd);
      UpwardsNext(f, 0);
      ghost var first := f;
      while f < totalFrames
        invariant totalFrames == physSize / 4096 && Started(first, f)
      {
        AddFrame(first, f);
        f := f + 1;
      }
      forall g | 0 <= g < totalFrames
        ensures free[g] <==> g >= 1 && g * 4096 >= reservedEnd
      {
        FirstFreeMeans(reservedEnd, g);
      }
      return Ok(());
    }

    /** During `Init`: the frames from `first` up to `f` are free, and the stack holds the lowest
        of them. */
    ghost predicate Started(first: nat, f: nat)
      reads this, bitmap, freeStack
    {
      && Valid() && first <= f && (forall g :: 0 <= g < totalFrames ==> (free[g] <==> first <= g < f))
      && Count(free, true) == (if f <= totalFrames then f - first else 0)
      && freeTop == (if Count(free, true) < FREE_STACK_SIZE then Count(free, true) else FREE_STACK_SIZE)
      && freeStack[..freeTop] == Upwards(first, freeTop)
    }

    /** One round of the loop of `Init`. */
    method AddFrame(ghost first: nat, f: nat)
      requires Started(first, f) && f < totalFrames
      modifies this`free, this`freeCount, this`freeTop, bitmap, freeStack
      ensures Started(first, f + 1)
    {
      hide Encodes, Count, Upwards, StackOk;
      NotStacked(freeStack[..freeTop], free, f);
      CountFlip(free, f, true);
      UpwardsNext(first, freeTop);
      MarkFree(f);
      Push(f);
    }

    /** Clears the bit of `f` and accounts for it. */
    method MarkAllocated(f: nat)
      requires Valid() && f < totalFrames && free[f] && f !in freeStack[..freeTop]
      modifies this`free, this`freeCount, bitmap
      ensures Valid() && free == old(free)[f := false]
    {
      hide Encodes, Count, WithoutBit, Bit;
      EncodesLength(bitmap[..], free);
      ClearEncodes(bitmap[..], free, f);
      CountFlip(free, f, false);
      bitmap[f / 64] := WithoutBit(bitmap[f / 64], BitOf(f));
      assert bitmap[..] == old(bitmap[..])[f / 64 := bitmap[f / 64]];
      free := free[f := false];
      freeCount := freeCount - 1;
    }

    /** alloc_frame: the top of the stack, or else the lowest free frame; it fails exactly when
        no frame is free, also after the stack has overflowed. */
    method AllocFrame() returns (r: Result<nat, Error>)
      requires Valid()
      modifies this`free, this`freeCount, this`freeTop, bitmap
      ensures Valid()
      ensures r == Err(OutOfFrames) <==> forall f :: 0 <= f < totalFrames ==> !old(free)[f]
      ensures r.Ok? || r == Err(OutOfFrames)
      ensures r.Err? ==> free == old(free)
      ensures r.Ok? ==> r.value < totalFrames && old(free)[r.value] && free == old(free)[r.value := false]
      ensures old(freeTop) > 0 ==> r == Ok(freeStack[old(freeTop) - 1]) && freeTop == old(freeTop) - 1
      ensures old(freeTop) == 0 && r.Ok? ==> freeTop == 0 && forall f :: 0 <= f < r.value ==> !old(free)[f]
    {
      if freeTop > 0 {
        PopOk(freeStack[..freeTop], free);
        var f := freeStack[freeTop - 1];
        freeTop := freeTop - 1;
        assert freeStack[..freeTop] == old(freeStack[..freeTop])[..freeTop];
        MarkAllocated(f);
        return Ok(f);
      }
      r := ScanForFrame();
    }

    method ScanForFrame() returns (r: Result<nat, Error>)
      requires Valid() && freeTop == 0
      modifies this`free, this`freeCount, bitmap
      ensures Valid()
      ensures r == Err(OutOfFrames) <==> forall f :: 0 <= f < totalFrames ==> !old(free)[f]
      ensures r.Ok? || r == Err(OutOfFrames)
      ensures r.Err? ==> free == old(free)
      ensures r.Ok? ==> r.value < totalFrames && old(free)[r.value] && free == old(free)[r.value := false]
      ensures r.Ok? ==> forall f :: 0 <= f < r.value ==> !old(free)[f]
    {
      hide Bit, BitOf;
      var words := WordsFor(totalFrames);
      EncodesLength(bitmap[..], free);
      var i := 0;
      while i < words
        invariant 0 <= i <= words && free == old(free) && bitmap[..] == old(bitmap[..]) && Valid()
        invariant forall f :: 0 <= f < totalFrames && f < 64 * i ==> !free[f]
      {
        if bitmap[i] != 0 {
          var k := TrailingZeros(bitmap[i]);
          LowestInWord(bitmap[..], free, i, k);
          var f := i * 64 + k as nat;
          if f >= totalFrames {
            break;
          }
          MarkAllocated(f);
          return Ok(f);
        }
        EmptyWord(bitmap[..], free, i);
        i := i + 1;
      }
      return Err(OutOfFrames);
    }

    /** is_free. */
    method IsFree(f: nat) returns (yes: bool)
      requires Valid()
      ensures yes <==> f < totalFrames && free[f]
    {
      hide Bit, BitOf, Masked;
      if f >= totalFrames {
        return false;
      }
      EncodesAt(bitmap[..], free, f);
      MaskTest(bitmap[f / 64], BitOf(f));
      return Masked(bitmap[f / 64], BitOf(f));
    }

    /** free_frame: detects frames out of bounds and double frees. */
    method FreeFrame(f: nat) returns (r: Result<(), Error>)
      requires Valid()
      modifies this`free, this`freeCount, this`freeTop, bitmap, freeStack
      ensures Valid()
      ensures r == if f >= totalFrames then Err(OutOfBounds) else if old(free)[f] then Err(NotAllocated) else Ok(())
      ensures free == if r.Ok? then old(free)[f := true] else old(free)
      ensures r.Err? ==> freeTop == old(freeTop)
      ensures r.Ok? && old(freeTop) < FREE_STACK_SIZE ==> freeTop == old(freeTop) + 1 && freeStack[old(freeTop)] == f
    {
      hide Bit, BitOf, Masked;
      if f >= totalFrames {
        return Err(OutOfBounds);
      }
      EncodesAt(bitmap[..], free, f);
      MaskTest(bitmap[f / 64], BitOf(f));
      if Masked(bitmap[f / 64], BitOf(f)) {
        return Err(NotAllocated);
      }
      assert f !in freeStack[..freeTop];
      MarkFree(f);
      Push(f);
      return Ok(());
    }

    /** free_frames: frees one after another until the first error; `done` were freed. */
    method FreeFrames(f: nat, count: nat) returns (r: Result<(), Error>, ghost done: nat)
      requires Valid()
      modifies this`free, this`freeCount, this`freeTop, bitmap, freeStack
      ensures Valid()
      ensures done <= count && (r.Ok? <==> done == count)
      ensures free == if done == 0 || f + done > totalFrames then old(free) else Fill(old(free), f, done, true)
      ensures done > 0 ==> Run(old(free), f, done, false)
      ensures r.Err? ==> f + done >= totalFrames || old(free)[f + done]
    {
      hide Encodes, StackOk, Count;
      done := 0;
      for i := 0 to count
        invariant Valid() && done == i
        invariant i > 0 ==> Run(old(free), f, i, false) && free == Fill(old(free), f, i, true)
        invariant i == 0 ==> free == old(free)
      {
        r := FreeFrame(f + i);
        if r.Err? {
          return;
        }
        done := i + 1;
      }
      return Ok(()), done;
    }

    /** Freeing a frame and allocating again gives it back when the stack had room. */
    method FreeThenAlloc(f: nat) returns (r: Result<nat, Error>)
      requires Valid() && f < totalFrames && !free[f] && freeTop < FREE_STACK_SIZE
      modifies this`free, this`freeCount, this`freeTop, bitmap, freeStack
      ensures Valid() && r == Ok(f) && free == old(free) && freeCount == old(freeCount)
    {
      hide Encodes, StackOk, Count;
      var _ := FreeFrame(f);
      r := AllocFrame();
    }
  }

  lemma EncodesLength(words: seq<bv64>, free: seq<bool>)
    requires Encodes(words, free)
    ensures WordsFor(|free|) <= |words| && forall f :: 0 <= f < |free| ==> f / 64 < |words|
  {
  }

  lemma EncodesAt(words: seq<bv64>, free: seq<bool>, f: nat)
    requires Encodes(words, free) && f < |free|
    ensures f / 64 < |words| && free[f] == Bit(words[f / 64], BitOf(f))
  {
  }

  lemma NothingFree(words: seq<bv64>, free: seq<bool>)
    requires WordsFor(|free|) <= |words| && (forall i :: 0 <= i < WordsFor(|free|) ==> words[i] == 0)
    requires forall f :: 0 <= f < |free| ==> !free[f]
    ensures Encodes(words, free) && Count(free, true) == 0
  {
    hide Bit, BitOf;
    CountZero(free, true);
    forall f | 0 <= f < 64 * WordsFor(|free|)
      ensures !Bit(words[f / 64], BitOf(f))
    {
      ZeroWord(BitOf(f));
    }
  }
}
