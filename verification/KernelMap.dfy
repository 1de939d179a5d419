/** The kernel's own map: 128 MB of RAM and three device blocks, identity-mapped through one
    last-level table that two entries of the middle level share. */
module KernelMap {
  import opened Bytes
  import opened PageTables

  const RAM_ATTRS: bv64 := PTE_AF | (MT_NORMAL << 2) | AP_RW_ALL | SH_INNER | PTE_VALID
  const DEVICE_ATTRS: bv64 := PTE_AF | (MT_DEVICE << 2) | AP_RW_EL1 | SH_NONE | PTE_VALID

  /** The last-level entry that vmm_init leaves at index `k`. */
  function Leaf(k: bv9): bv64 {
    if k < 64 then (0x4000_0000 + ((k as bv64) << 21)) | RAM_ATTRS
    else if k == 64 || k == 72 || k == 80 then ((k as bv64) << 21) | DEVICE_ATTRS
    else 0
  }

  /** The state vmm_init leaves. */
  ghost predicate Initialized(mem: Memory, k: Kernel) {
    && KernelOk(mem, k)
    && (forall i :: 0 <= i < 512 ==> At(mem, k.pud, i) == if i <= 1 then TableDesc(k.pmd) else 0)
    && (forall i: bv9 :: At(mem, k.pmd, i as nat) == Leaf(i))
  }

  /** What vmm_get_phys returns: the walk of the source, 0 where it finds nothing. */
  function PhysOf(va: bv64): bv64 {
    var e := Leaf(Bits21(va));
    if Bits39(va) != 0 || Bits30(va) > 1 || !IsValid(e) then 0 else BlockPhys(e, va)
  }

  predicate IsBlock(e: bv64) {
    e & 3 == 1
  }

  function BlockPhys(e: bv64, va: bv64): bv64 {
    (e & 0xFFFF_FFFF_FFE0_0000) | (va & 0x1F_FFFF)
  }

  function PagePhys(e: bv64, va: bv64): bv64 {
    (e & 0xFFFF_FFFF_FFFF_F000) | (va & 0xFFF)
  }

  predicate InBlock(va: bv64, base: bv64) {
    va & 0xFFFF_FFFF_FFE0_0000 == base
  }

  /** RAM and the three device blocks. */
  predicate IdentityMapped(va: bv64) {
    0x4000_0000 <= va < 0x4800_0000 || InBlock(va, 0x0800_0000) || InBlock(va, 0x0900_0000) || InBlock(va, 0x0A00_0000)
  }

  lemma UnmappedHigh(va: bv64)
    requires Bits39(va) != 0 || Bits30(va) > 1
    ensures !IdentityMapped(va) && PhysOf(va) == 0 && va != 0
  {
  }

  lemma RamEntry(va: bv64)
    requires Bits39(va) == 0 && Bits30(va) <= 1 && Bits21(va) < 64
    ensures PhysOf(va) == 0x4000_0000 + (va & 0x07FF_FFFF)
  {
  }

  lemma RamIdentity(va: bv64)
    requires Bits39(va) == 0 && Bits30(va) <= 1 && Bits21(va) < 64
    ensures 0x4000_0000 + (va & 0x07FF_FFFF) == va <==> IdentityMapped(va)
  {
  }

  predicate DeviceIndex(k: bv9) {
    k == 64 || k == 72 || k == 80
  }

  lemma DeviceEntry(va: bv64)
    requires Bits39(va) == 0 && Bits30(va) <= 1 && DeviceIndex(Bits21(va))
    ensures PhysOf(va) == va & 0x3FFF_FFFF
  {
    hide Bits39, Bits30, Bits21, Leaf;
    DeviceArithmetic(va, Bits21(va));
    DeviceLeaf(Bits21(va));
  }

  lemma DeviceLeaf(k: bv9)
    requires DeviceIndex(k)
    ensures Leaf(k) == ((k as bv64) << 21) | DEVICE_ATTRS
  {
  }

  lemma DeviceArithmetic(va: bv64, k: bv9)
    requires k == Bits21(va)
    ensures var e := ((k as bv64) << 21) | DEVICE_ATTRS;
            e & 1 == 1 && (e & 0xFFFF_FFFF_FFE0_0000) | (va & 0x1F_FFFF) == va & 0x3FFF_FFFF
  {
  }

  lemma DeviceIdentity(va: bv64)
    requires Bits39(va) == 0 && Bits30(va) <= 1 && DeviceIndex(Bits21(va))
    ensures va & 0x3FFF_FFFF == va <==> IdentityMapped(va)
  {
  }

  lemma EmptyEntry(va: bv64)
    requires Bits39(va) == 0 && Bits30(va) <= 1 && Bits21(va) >= 64 && !DeviceIndex(Bits21(va))
    ensures !IdentityMapped(va) && PhysOf(va) == 0 && va != 0
  {
  }

  /** The kernel map is the identity on RAM and the devices and nowhere else, although two
      middle-level entries share one table. */
  lemma IdentityExactly(va: bv64)
    ensures PhysOf(va) == va <==> IdentityMapped(va)
  {
    hide PhysOf, IdentityMapped;
    if Bits39(va) != 0 || Bits30(va) > 1 {
      UnmappedHigh(va);
    } else if Bits21(va) < 64 {
      RamEntry(va);
      RamIdentity(va);
    } else if DeviceIndex(Bits21(va)) {
      DeviceEntry(va);
      DeviceIdentity(va);
    } else {
      EmptyEntry(va);
    }
  }

  /** Sharing the table also makes RAM visible at 0 and the devices above RAM: aliases that
      are not identities. */
  lemma SharedTableAliases(va: bv64)
    requires 0x4000_0000 <= va < 0x4800_0000
    ensures PhysOf(va - 0x4000_0000) == va
  {
  }

  // ---- Setting up -------------------------------------------------------------

  /** The last level after the devices and the first `n` RAM blocks have been mapped. */
  function LeafSoFar(k: bv9, devices: nat, n: bv9): bv64 {
    if k < 64 then (if k < n then Leaf(k) else 0)
    else if k == 64 then (if devices > 0 then Leaf(k) else 0)
    else if k == 72 then (if devices > 1 then Leaf(k) else 0)
    else if k == 80 then (if devices > 2 then Leaf(k) else 0)
    else 0
  }

  /** The three kernel tables during vmm_init. */
  ghost predicate Partial(mem: Memory, k: Kernel, lowPud: bool, highPud: bool, devices: nat, n: bv9) {
    && IsTable(mem, k.pgd) && IsTable(mem, k.pud) && IsTable(mem, k.pmd)
    && k.pgd != k.pud && k.pgd != k.pmd && k.pud != k.pmd && PageAligned(k.pud) && PageAligned(k.pmd)
    && (forall i :: 0 <= i < 512 ==> At(mem, k.pgd, i) == if i == 0 && (lowPud || highPud) then TableDesc(k.pud) else 0)
    && (forall i :: 0 <= i < 512 ==>
          At(mem, k.pud, i) == if (i == 0 && lowPud) || (i == 1 && highPud) then TableDesc(k.pmd) else 0)
    && (forall i: bv9 :: At(mem, k.pmd, i as nat) == LeafSoFar(i, devices, n))
  }

  /** The effect of one map_block call on the entries. */
  ghost predicate Mapped(mem: Memory, mem': Memory, k: Kernel, va: bv64, attrs: bv64) {
    && (forall t :: IsTable(mem, t) ==> IsTable(mem', t))
    && forall t, i :: At(mem', t, i) ==
         if t == k.pgd && i == PgdIndex(va) then TableDesc(k.pud)
         else if t == k.pud && i == PudIndex(va) then TableDesc(k.pmd)
         else if t == k.pmd && i == PmdIndex(va) then (va & 0xFFFF_FFFF_FFE0_0000) | attrs
         else At(mem, t, i)
  }

  /** Mapping the block with last-level index `b` adds exactly its entry. */
  lemma MapStep(mem: Memory, mem': Memory, k: Kernel, va: bv64, attrs: bv64, low: bool, high: bool, devices: nat, n: bv9,
                devices': nat, n': bv9)
    requires Partial(mem, k, low, high, devices, n) && Mapped(mem, mem', k, va, attrs)
    requires PgdIndex(va) == 0 && PudIndex(va) <= 1
    requires (va & 0xFFFF_FFFF_FFE0_0000) | attrs == Leaf(Bits21(va))
    requires forall i: bv9 :: LeafSoFar(i, devices', n') == if i == Bits21(va) then Leaf(i) else LeafSoFar(i, devices, n)
    ensures Partial(mem', k, low || PudIndex(va) == 0, high || PudIndex(va) == 1, devices', n')
  {
    hide Leaf, LeafSoFar, TableDesc, At, Bits21, PgdIndex, PudIndex, PmdIndex, PageAligned, IsTable, Mapped;
    UpperStep(mem, mem', k, va, attrs);
    forall i: bv9
      ensures At(mem', k.pmd, i as nat) == LeafSoFar(i, devices', n')
    {
      LeafStep(mem, mem', k, va, attrs, i);
    }
  }

  /** What one map_block call leaves in the two upper tables. */
  lemma UpperStep(mem: Memory, mem': Memory, k: Kernel, va: bv64, attrs: bv64)
    requires Mapped(mem, mem', k, va, attrs) && k.pgd != k.pud && k.pgd != k.pmd && k.pud != k.pmd
    ensures forall t :: IsTable(mem, t) ==> IsTable(mem', t)
    ensures forall i :: At(mem', k.pgd, i) == if i == PgdIndex(va) then TableDesc(k.pud) else At(mem, k.pgd, i)
    ensures forall i :: At(mem', k.pud, i) == if i == PudIndex(va) then TableDesc(k.pmd) else At(mem, k.pud, i)
  {
    hide TableDesc, At, PgdIndex, PudIndex, PmdIndex, IsTable;
  }

  /** And in the last one. */
  lemma LeafStep(mem: Memory, mem': Memory, k: Kernel, va: bv64, attrs: bv64, i: bv9)
    requires Mapped(mem, mem', k, va, attrs) && k.pgd != k.pud && k.pgd != k.pmd && k.pud != k.pmd
    ensures At(mem', k.pmd, i as nat) ==
            if i == Bits21(va) then (va & 0xFFFF_FFFF_FFE0_0000) | attrs else At(mem, k.pmd, i as nat)
  {
    hide TableDesc, At, PgdIndex, PudIndex, IsTable, Bits21;
    if i as nat == PmdIndex(va) {
      SameIndex(i, Bits21(va));
    }
  }

  lemma LeavesAreBlocks(i: bv9)
    ensures LeafOk(Leaf(i)) && LeafSoFar(i, 3, 64) == Leaf(i)
  {
  }

  lemma Finished(mem: Memory, k: Kernel)
    requires Partial(mem, k, true, true, 3, 64)
    ensures Initialized(mem, k)
  {
    hide Leaf, LeafSoFar, TableDesc, At, PageAligned, IsTable, LeafOk;
    forall i: bv9
      ensures At(mem, k.pmd, i as nat) == Leaf(i) && LeafOk(Leaf(i))
    {
      LeavesAreBlocks(i);
    }
    assert forall va :: At(mem, k.pmd, PmdIndex(va)) == Leaf(Bits21(va));
  }

  lemma Cleared(mem: Memory, k: Kernel)
    requires k.pgd != k.pud && k.pgd != k.pmd && k.pud != k.pmd && PageAligned(k.pud) && PageAligned(k.pmd)
    ensures Partial(Zeroed(Zeroed(Zeroed(mem, k.pgd), k.pud), k.pmd), k, false, false, 0, 0)
  {
    hide PageAligned, LeafSoFar, TableDesc;
    var m := Zeroed(Zeroed(Zeroed(mem, k.pgd), k.pud), k.pmd);
    assert forall i: nat :: At(m, k.pgd, i) == 0 && At(m, k.pud, i) == 0 && At(m, k.pmd, i) == 0;
    hide Zeroed, At;
    forall i: bv9 {
      NoLeaves(i);
    }
  }

  lemma NoLeaves(i: bv9)
    ensures LeafSoFar(i, 0, 0) == 0
  {
  }

  lemma DeviceSteps(i: bv9)
    ensures LeafSoFar(i, 1, 0) == if i == 64 then Leaf(i) else LeafSoFar(i, 0, 0)
    ensures LeafSoFar(i, 2, 0) == if i == 72 then Leaf(i) else LeafSoFar(i, 1, 0)
    ensures LeafSoFar(i, 3, 0) == if i == 80 then Leaf(i) else LeafSoFar(i, 2, 0)
  {
  }

  function NextCount(n: bv9): bv9 {
    n + 1
  }

  lemma RamStep(i: bv9, n: bv9)
    requires n < 64
    ensures LeafSoFar(i, 3, NextCount(n)) == if i == n then Leaf(i) else LeafSoFar(i, 3, n)
  {
  }

  lemma DeviceAddresses()
    ensures Bits21(0x0800_0000) == 64 && (0x0800_0000 & 0xFFFF_FFFF_FFE0_0000) | DEVICE_ATTRS == Leaf(64)
    ensures Bits21(0x0900_0000) == 72 && (0x0900_0000 & 0xFFFF_FFFF_FFE0_0000) | DEVICE_ATTRS == Leaf(72)
    ensures Bits21(0x0A00_0000) == 80 && (0x0A00_0000 & 0xFFFF_FFFF_FFE0_0000) | DEVICE_ATTRS == Leaf(80)
    ensures Bits39(0x0800_0000) == Bits39(0x0900_0000) == Bits39(0x0A00_0000) == 0
    ensures Bits30(0x0800_0000) == Bits30(0x0900_0000) == Bits30(0x0A00_0000) == 0
  {
  }

  function RamBlock(n: bv9): bv64 {
    0x4000_0000 + ((n as bv64) << 21)
  }

  lemma RamAddress(n: bv9)
    requires n < 64
    ensures Bits21(RamBlock(n)) == n && Bits39(RamBlock(n)) == 0 && Bits30(RamBlock(n)) == 1
    ensures (RamBlock(n) & 0xFFFF_FFFF_FFE0_0000) | RAM_ATTRS == Leaf(n)
  {
  }

  /** `n` RAM blocks are done and `a` is the next. */
  predicate InRam(n: bv9, a: bv64) {
    n <= 64 && a == RamBlock(n)
  }

  function Left(n: bv9): nat {
    (64 - n) as nat
  }

  lemma RamEnd(n: bv9, a: bv64)
    requires InRam(n, a) && a >= 0x4800_0000
    ensures n == 64
  {
  }

  lemma FirstBlock()
    ensures InRam(0, 0x4000_0000)
  {
  }

  lemma RamRound(n: bv9, a: bv64)
    requires InRam(n, a) && a < 0x4800_0000
    ensures n < 64 && a == RamBlock(n) && InRam(NextCount(n), a + 0x20_0000) && Left(NextCount(n)) < Left(n)
  {
    Closer(64 - NextCount(n), 64 - n);
  }

  lemma Closer(k: bv9, l: bv9)
    requires k < l
    ensures k as nat < l as nat
  {
  }

  lemma PutKeys(mem: Memory, t: Page, i: nat, e: bv64)
    requires IsTable(mem, t) && i < 512
    ensures Put(mem, t, i, e).Keys == mem.Keys
  {
  }

  class KernelTables {
    const k: Kernel
    var mem: Memory

    constructor (k: Kernel, mem: Memory)
      ensures this.k == k && this.mem == mem
    {
      this.k, this.mem := k, mem;
    }

    /** map_block: links the chain and writes the block entry. */
    method MapKernelBlock(va: bv64, attrs: bv64)
      requires IsTable(mem, k.pgd) && IsTable(mem, k.pud) && IsTable(mem, k.pmd)
      requires k.pgd != k.pud && k.pgd != k.pmd && k.pud != k.pmd
      modifies this`mem
      ensures Mapped(old(mem), mem, k, va, attrs) && mem.Keys == old(mem.Keys)
    {
      hide At, TableDesc, PgdIndex, PudIndex, PmdIndex, Put;
      PutKeys(mem, k.pgd, PgdIndex(va), TableDesc(k.pud));
      AtPut(mem, k.pgd, PgdIndex(va), TableDesc(k.pud));
      mem := Put(mem, k.pgd, PgdIndex(va), TableDesc(k.pud));
      PutKeys(mem, k.pud, PudIndex(va), TableDesc(k.pmd));
      AtPut(mem, k.pud, PudIndex(va), TableDesc(k.pmd));
      mem := Put(mem, k.pud, PudIndex(va), TableDesc(k.pmd));
      PutKeys(mem, k.pmd, PmdIndex(va), (va & 0xFFFF_FFFF_FFE0_0000) | attrs);
      AtPut(mem, k.pmd, PmdIndex(va), (va & 0xFFFF_FFFF_FFE0_0000) | attrs);
      mem := Put(mem, k.pmd, PmdIndex(va), (va & 0xFFFF_FFFF_FFE0_0000) | attrs);
    }

    /** vmm_init. */
    method Init()
      requires k.pgd != k.pud && k.pgd != k.pmd && k.pud != k.pmd && PageAligned(k.pud) && PageAligned(k.pmd)
      modifies this`mem
      ensures Initialized(mem, k) && mem.Keys == old(mem.Keys) + {k.pgd, k.pud, k.pmd}
    {
      hide Partial, Initialized, PageAligned;
      Cleared(mem, k);
      mem := Zeroed(Zeroed(Zeroed(mem, k.pgd), k.pud), k.pmd);
      MapDevices();
      MapRam();
      Finished(mem, k);
    }

    method MapDevices()
      requires Partial(mem, k, false, false, 0, 0)
      modifies this`mem
      ensures Partial(mem, k, true, false, 3, 0) && mem.Keys == old(mem.Keys)
    {
      hide Partial, Leaf, LeafSoFar, Bits39, Bits30, Bits21;
      DeviceAddresses();
      forall i: bv9 {
        DeviceSteps(i);
      }
      MapNext(0x0800_0000, DEVICE_ATTRS, false, false, 0, 0, 1, 0);
      MapNext(0x0900_0000, DEVICE_ATTRS, true, false, 1, 0, 2, 0);
      MapNext(0x0A00_0000, DEVICE_ATTRS, true, false, 2, 0, 3, 0);
    }

    /** One round of the RAM loop. */
    method MapRamBlock(a: bv64, ghost n: bv9, ghost high: bool) returns (next: bv64, ghost n': bv9)
      requires InRam(n, a) && a < 0x4800_0000 && Partial(mem, k, true, high, 3, n)
      modifies this`mem
      ensures Partial(mem, k, true, true, 3, n') && InRam(n', next) && Left(n') < Left(n) && mem.Keys == old(mem.Keys)
    {
      hide Partial, Leaf, LeafSoFar, Bits39, Bits30, Bits21, RamBlock, InRam, Left;
      RamRound(n, a);
      RamAddress(n);
      forall i: bv9 {
        RamStep(i, n);
      }
      MapNext(a, RAM_ATTRS, true, high, 3, n, 3, NextCount(n));
      next, n' := a + 0x20_0000, NextCount(n);
    }

    method MapRam()
      requires Partial(mem, k, true, false, 3, 0)
      modifies this`mem
      ensures Partial(mem, k, true, true, 3, 64) && mem.Keys == old(mem.Keys)
    {
      hide Partial, InRam, Left;
      var a: bv64 := 0x4000_0000;
      ghost var n: bv9 := 0;
      ghost var high := false;
      FirstBlock();
      while a < 0x4800_0000
        invariant InRam(n, a) && Partial(mem, k, true, high, 3, n) && (n != 0 ==> high) && mem.Keys == old(mem.Keys)
        decreases Left(n)
      {
        a, n := MapRamBlock(a, n, high);
        high := true;
      }
      RamEnd(n, a);
    }

    /** One more block during vmm_init. */
    method MapNext(va: bv64, attrs: bv64, ghost low: bool, ghost high: bool, ghost devices: nat, ghost n: bv9,
                   ghost devices': nat, ghost n': bv9)
      requires Partial(mem, k, low, high, devices, n)
      requires PgdIndex(va) == 0 && PudIndex(va) <= 1
      requires (va & 0xFFFF_FFFF_FFE0_0000) | attrs == Leaf(Bits21(va))
      requires forall i: bv9 :: LeafSoFar(i, devices', n') == if i == Bits21(va) then Leaf(i) else LeafSoFar(i, devices, n)
      modifies this`mem
      ensures Partial(mem, k, low || PudIndex(va) == 0, high || PudIndex(va) == 1, devices', n') && mem.Keys == old(mem.Keys)
    {
      hide Leaf, LeafSoFar, TableDesc, At, Bits21, PgdIndex, PudIndex, PageAligned, Mapped;
      ghost var before := mem;
      MapKernelBlock(va, attrs);
      MapStep(before, mem, k, va, attrs, low, high, devices, n, devices', n');
    }

    /** vmm_get_phys: the walk from the kernel's top-level table; 0 where nothing is mapped. */
    method GetPhys(va: bv64) returns (r: bv64)
      requires Initialized(mem, k)
      ensures r == PhysOf(va)
    {
      hide Leaf, Bits39, Bits30, Bits21, TableDesc, NextTable, At, IsValid, LeafOk, BlockTarget, Initialized, PgdIndex, PudIndex,
           PmdIndex, PteIndex, IsBlock, BlockPhys, PagePhys;
      KernelWalk(mem, k, va);
      var e0 := At(mem, k.pgd, PgdIndex(va));
      if !IsValid(e0) {
        return 0;
      }
      var e1 := At(mem, NextTable(e0), PudIndex(va));
      if !IsValid(e1) {
        return 0;
      }
      var e := At(mem, NextTable(e1), PmdIndex(va));
      if !IsValid(e) {
        return 0;
      }
      if IsBlock(e) {
        return BlockPhys(e, va);
      }
      var pe := At(mem, NextTable(e), PteIndex(va));
      if !IsValid(pe) {
        return 0;
      }
      return PagePhys(pe, va);
    }
  }

  /** Some descriptor covers the address. */
  predicate Covered(va: bv64) {
    Bits39(va) == 0 && Bits30(va) <= 1 && IsValid(Leaf(Bits21(va)))
  }

  /** The three descriptors the walk of an address reads. */
  lemma KernelWalk(mem: Memory, k: Kernel, va: bv64)
    requires Initialized(mem, k)
    ensures IsValid(At(mem, k.pgd, PgdIndex(va))) <==> Bits39(va) == 0
    ensures Bits39(va) == 0 ==> NextTable(At(mem, k.pgd, PgdIndex(va))) == k.pud
    ensures IsValid(At(mem, k.pud, PudIndex(va))) <==> Bits30(va) <= 1
    ensures Bits30(va) <= 1 ==> NextTable(At(mem, k.pud, PudIndex(va))) == k.pmd
    ensures At(mem, k.pmd, PmdIndex(va)) == Leaf(Bits21(va))
    ensures var e := Leaf(Bits21(va)); LeafOk(e) && (IsValid(e) ==> IsBlock(e)) && BlockPhys(e, va) == BlockTarget(e, va).phys
  {
    hide Leaf, Bits39, Bits30, Bits21, TableDesc, NextTable, At, IsValid, LeafOk, IsBlock, BlockPhys, BlockTarget;
    EmptyDesc();
    TableDescRoundTrip(k.pud);
    TableDescRoundTrip(k.pmd);
    SmallIndex(Bits39(va));
    SmallIndex(Bits30(va));
    LeafShape(Bits21(va), va);
  }

  lemma SmallIndex(i: bv9)
    ensures (i as nat == 0 <==> i == 0) && (i as nat <= 1 <==> i <= 1)
  {
  }

  lemma LeafShape(i: bv9, va: bv64)
    ensures var e := Leaf(i); LeafOk(e) && (IsValid(e) ==> IsBlock(e)) && BlockPhys(e, va) == BlockTarget(e, va).phys
  {
  }

  /** RAM blocks carry the attributes of RAM, the other ones those of devices. */
  lemma LeafAttributes(i: bv9, va: bv64)
    requires IsValid(Leaf(i))
    ensures BlockTarget(Leaf(i), va).attrs == if i < 64 then RAM_ATTRS else DEVICE_ATTRS
  {
  }

  /** What vmm_get_phys returns is the hardware's translation, where there is one. */
  lemma KernelTranslation(mem: Memory, k: Kernel, va: bv64)
    requires Initialized(mem, k)
    ensures Translate(mem, k.pgd, va) ==
            if Covered(va) then Some(Mapping(PhysOf(va), if Bits21(va) < 64 then RAM_ATTRS else DEVICE_ATTRS)) else None
    ensures !Covered(va) ==> PhysOf(va) == 0
  {
    hide Leaf, Bits39, Bits30, Bits21, TableDesc, NextTable, At, IsValid, LeafOk, IsBlock, BlockPhys, BlockTarget, PgdIndex,
         PudIndex, PmdIndex, Initialized;
    KernelWalk(mem, k, va);
    if Covered(va) {
      LeafAttributes(Bits21(va), va);
    }
  }

  /** Where covered addresses lie. */
  lemma CoveredPlaces(va: bv64)
    requires Covered(va)
    ensures 0x4000_0000 <= PhysOf(va) < 0x4800_0000 <==> Bits21(va) < 64
    ensures Bits21(va) >= 64 ==> InBlock(PhysOf(va), 0x0800_0000) || InBlock(PhysOf(va), 0x0900_0000) || InBlock(PhysOf(va), 0x0A00_0000)
  {
  }

  lemma AttributeFields()
    ensures forall a :: a == RAM_ATTRS || a == DEVICE_ATTRS ==>
              && Accessible(a) && !ReadOnly(a) && !UserAccess(a) && Executable(a, true) && Executable(a, false)
    ensures MemoryType(RAM_ATTRS) == MT_NORMAL && Shareability(RAM_ATTRS) == 3
    ensures MemoryType(DEVICE_ATTRS) == MT_DEVICE && Shareability(DEVICE_ATTRS) == 0
  {
  }

  /** What the hardware finds in the kernel map: everything is writable for the kernel; RAM is
      normal and inner shareable memory, and the rest is device memory. Nothing is open to
      users: for the devices as intended, for RAM because the permission field is misplaced. */
  lemma KernelAttributes(mem: Memory, k: Kernel, va: bv64)
    requires Initialized(mem, k)
    ensures match Translate(mem, k.pgd, va)
            case None => true
            case Some(m) =>
              && Accessible(m.attrs) && !ReadOnly(m.attrs) && !UserAccess(m.attrs)
              && if 0x4000_0000 <= m.phys < 0x4800_0000
                 then MemoryType(m.attrs) == MT_NORMAL && Shareability(m.attrs) == 3
                 else MemoryType(m.attrs) == MT_DEVICE && Shareability(m.attrs) == 0
                      && (InBlock(m.phys, 0x0800_0000) || InBlock(m.phys, 0x0900_0000) || InBlock(m.phys, 0x0A00_0000))
  {
    hide Initialized, Translate, PhysOf, Covered, InBlock, MemoryType, Shareability, Accessible, ReadOnly, UserAccess, Bits21;
    KernelTranslation(mem, k, va);
    AttributeFields();
    if Covered(va) {
      CoveredPlaces(va);
    }
  }

  /** Boot: the kernel map, then address spaces beside it. */
  method Boot(k: Kernel, free: set<Page>) returns (m: Mmu)
    requires k.pgd != k.pud && k.pgd != k.pmd && k.pud != k.pmd && PageAligned(k.pud) && PageAligned(k.pmd)
    requires forall p :: p in free ==> !IsKernel(k, p) && PageAligned(p)
    ensures fresh(m) && m.Valid() && m.kernel == k && m.free == free && m.spaces == []
    ensures Initialized(m.mem, k)
  {
    var t := new KernelTables(k, map[]);
    t.Init();
    m := new Mmu(k, t.mem, free);
  }
}
