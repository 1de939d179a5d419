/** Page tables: a kernel map with shared lower tables, and per-process address spaces whose
    private tables hang off their own top-level table. */
module PageTables {
  import opened Bytes

  // ---- Descriptors and indices ------------------------------------------------

  /** The physical address of a page that holds a table. */
  datatype Page = Page(addr: bv64)

  /** The table pages in memory: 512 descriptors each. */
  type Memory = map<Page, seq<bv64>>

  /** Entry `i` of the table at `t`; memory that holds no table reads as zero. */
  function At(mem: Memory, t: Page, i: nat): bv64 {
    if t in mem && i < |mem[t]| then mem[t][i] else 0
  }

  /** `mem` with entry `i` of the table at `t` set to `e`. */
  function Put(mem: Memory, t: Page, i: nat, e: bv64): Memory
    requires t in mem && i < |mem[t]|
  {
    mem[t := mem[t][i := e]]
  }

  predicate IsTable(mem: Memory, t: Page) {
    t in mem && |mem[t]| == 512
  }

  function Bits39(va: bv64): bv9 { ((va >> 39) & 0x1FF) as bv9 }
  function Bits30(va: bv64): bv9 { ((va >> 30) & 0x1FF) as bv9 }
  function Bits21(va: bv64): bv9 { ((va >> 21) & 0x1FF) as bv9 }
  function Bits12(va: bv64): bv9 { ((va >> 12) & 0x1FF) as bv9 }

  function PgdIndex(va: bv64): (r: nat) ensures r < 512 { Bits39(va) as nat }
  function PudIndex(va: bv64): (r: nat) ensures r < 512 { Bits30(va) as nat }
  function PmdIndex(va: bv64): (r: nat) ensures r < 512 { Bits21(va) as nat }
  function PteIndex(va: bv64): (r: nat) ensures r < 512 { Bits12(va) as nat }

  /** The 2 MB block of a 48-bit virtual address. */
  function BlockOf(va: bv64): bv64 {
    va & 0x0000_FFFF_FFE0_0000
  }

  function Join(a: bv9, b: bv9, c: bv9): bv64 {
    ((a as bv64) << 39) | ((b as bv64) << 30) | ((c as bv64) << 21)
  }

  lemma BlockParts(va: bv64)
    ensures BlockOf(va) == Join(Bits39(va), Bits30(va), Bits21(va))
  {
  }

  lemma PartsOfBlock(va: bv64)
    ensures Bits39(BlockOf(va)) == Bits39(va) && Bits30(BlockOf(va)) == Bits30(va) && Bits21(BlockOf(va)) == Bits21(va)
  {
  }

  lemma SameIndex(k: bv9, l: bv9)
    requires k as nat == l as nat
    ensures k == l
  {
  }

  /** Two addresses take the same path through the tables exactly when they lie in the same
      2 MB block. */
  lemma SamePath(a: bv64, b: bv64)
    ensures PgdIndex(a) == PgdIndex(b) && PudIndex(a) == PudIndex(b) && PmdIndex(a) == PmdIndex(b) <==>
            BlockOf(a) == BlockOf(b)
  {
    hide Bits39, Bits30, Bits21, BlockOf, Join;
    BlockParts(a);
    BlockParts(b);
    PartsOfBlock(a);
    PartsOfBlock(b);
    if PgdIndex(a) == PgdIndex(b) {
      SameIndex(Bits39(a), Bits39(b));
    }
    if PudIndex(a) == PudIndex(b) {
      SameIndex(Bits30(a), Bits30(b));
    }
    if PmdIndex(a) == PmdIndex(b) {
      SameIndex(Bits21(a), Bits21(b));
    }
  }

  predicate PageAligned(t: Page) {
    t.addr & 0xFFF == 0
  }

  predicate BlockAligned(a: bv64) {
    a & 0x1F_FFFF == 0
  }

  predicate IsValid(e: bv64) {
    e & 1 == 1
  }

  /** The source's test for "already points to a table". */
  predicate HasTable(e: bv64) {
    e & 3 != 0
  }

  function NextTable(e: bv64): Page {
    Page(e & 0xFFFF_FFFF_FFFF_F000)
  }

  function TableDesc(t: Page): bv64 {
    (t.addr & 0xFFFF_FFFF_FFFF_F000) | 3
  }

  function BlockDesc(pa: bv64, attrs: bv64): bv64 {
    (pa & 0xFFFF_FFFF_FFE0_0000) | attrs | 1
  }

  /** Attribute bits: neither the table bit nor the address field. */
  predicate AttrsOk(attrs: bv64) {
    attrs & 0x0000_FFFF_FFE0_0002 == 0
  }

  /** A last-level entry that is invalid or a block. */
  predicate LeafOk(e: bv64) {
    e & 2 == 0
  }

  lemma TableDescRoundTrip(t: Page)
    requires PageAligned(t)
    ensures NextTable(TableDesc(t)) == t && IsValid(TableDesc(t)) && HasTable(TableDesc(t))
  {
  }

  lemma EmptyDesc()
    ensures !IsValid(0) && !HasTable(0) && LeafOk(0)
  {
  }

  /** What the hardware finds for an address: where it lies, and the bits of its descriptor
      outside the address field. */
  datatype Mapping = Mapping(phys: bv64, attrs: bv64)

  /** What a block descriptor says of an address. */
  function BlockTarget(e: bv64, va: bv64): Mapping {
    Mapping((e & 0x0000_FFFF_FFE0_0000) | (va & 0x1F_FFFF), e & 0xFFFF_0000_001F_FFFF)
  }

  /** What a page descriptor says of an address. */
  function PageTarget(e: bv64, va: bv64): Mapping {
    Mapping((e & 0x0000_FFFF_FFFF_F000) | (va & 0xFFF), e & 0xFFFF_0000_0000_0FFF)
  }

  /** An address in a block that is mapped to `pa` with these attributes. Bits of `pa` beyond a
      48-bit address end up among the attributes. */
  function BlockMapping(pa: bv64, attrs: bv64, va: bv64): Mapping {
    Mapping(BlockOf(pa) | (va & 0x1F_FFFF), attrs | 1 | (pa & 0xFFFF_0000_0000_0000))
  }

  lemma BlockDescMeaning(pa: bv64, attrs: bv64, va: bv64)
    requires AttrsOk(attrs)
    ensures var e := BlockDesc(pa, attrs); IsValid(e) && LeafOk(e) && BlockTarget(e, va) == BlockMapping(pa, attrs, va)
  {
  }

  predicate Bit(e: bv64, i: bv6) {
    (e >> i) & 1 == 1
  }

  /** A block at a 48-bit physical address: the address is the block's plus the offset, and
      every attribute bit that was asked for is there and no other, except that the block is
      valid. */
  lemma BlockMappingMeans(pa: bv64, attrs: bv64, va: bv64, i: bv6)
    requires AttrsOk(attrs) && BlockAligned(pa) && pa < 0x1_0000_0000_0000
    ensures BlockMapping(pa, attrs, va).phys == pa + (va & 0x1F_FFFF)
    ensures Bit(BlockMapping(pa, attrs, va).attrs, i) <==> i == 0 || Bit(attrs, i)
  {
    BlockMappingPhys(pa, va);
    NoHighBits(pa);
    ValidBit(attrs, i);
  }

  lemma BlockMappingPhys(pa: bv64, va: bv64)
    requires BlockAligned(pa) && pa < 0x1_0000_0000_0000
    ensures BlockOf(pa) | (va & 0x1F_FFFF) == pa + (va & 0x1F_FFFF)
  {
  }

  lemma NoHighBits(pa: bv64)
    requires pa < 0x1_0000_0000_0000
    ensures pa & 0xFFFF_0000_0000_0000 == 0
  {
  }

  lemma ValidBit(attrs: bv64, i: bv6)
    ensures Bit(attrs | 1 | 0, i) <==> i == 0 || Bit(attrs, i)
  {
  }

  // ---- Attributes -------------------------------------------------------------

  // Lower and upper attributes of a block descriptor, as the VMSAv8-64 format of the Arm
  // Architecture Reference Manual places them: AttrIndx in bits 4 to 2, NS in bit 5, AP[2:1] in
  // bits 7 and 6, SH in bits 9 and 8, the access flag in bit 10, PXN and UXN in bits 53 and 54.

  function MemoryType(attrs: bv64): bv64 {
    (attrs >> 2) & 7
  }

  function Shareability(attrs: bv64): bv64 {
    (attrs >> 8) & 3
  }

  predicate UserAccess(attrs: bv64) {
    Bit(attrs, 6)
  }

  predicate ReadOnly(attrs: bv64) {
    Bit(attrs, 7)
  }

  predicate Accessible(attrs: bv64) {
    Bit(attrs, 0) && Bit(attrs, 10)
  }

  predicate Executable(attrs: bv64, user: bool) {
    !Bit(attrs, if user then 54 else 53)
  }

  const PTE_VALID: bv64 := 1
  const MT_DEVICE: bv64 := 0
  const MT_NORMAL: bv64 := 1
  const PTE_AF: bv64 := 1 << 10
  const SH_NONE: bv64 := 0 << 8
  const SH_INNER: bv64 := 3 << 8
  const PTE_PXN: bv64 := 1 << 53
  const PTE_UXN: bv64 := 1 << 54

  /** Where the source puts a value of the permission field. */
  function Permission(ap: bv64): bv64 {
    ap << 5
  }

  const AP_RW_EL1: bv64 := Permission(0)
  const AP_RW_ALL: bv64 := Permission(1)
  const AP_USER_RW: bv64 := Permission(1)
  const AP_USER_RO: bv64 := Permission(3)

  const USER_PAGE_RX: bv64 := PTE_AF | (MT_NORMAL << 2) | SH_INNER | AP_USER_RO | PTE_PXN
  const USER_PAGE_RW: bv64 := PTE_AF | (MT_NORMAL << 2) | SH_INNER | AP_USER_RW | PTE_UXN | PTE_PXN
  const USER_BLOCK_RWX: bv64 := PTE_AF | (MT_NORMAL << 2) | SH_INNER | AP_USER_RW

  /** The source shifts the permission field by 5, one less than its place. So a value of it
      grants user access exactly when its upper bit is set, and never makes a mapping
      read-only, where one shifted by 6 grants user access exactly by its lower bit and is
      read-only exactly by its upper one. */
  lemma PermissionMisplaced(ap: bv64)
    requires ap <= 3
    ensures UserAccess(Permission(ap)) <==> ap & 2 != 0
    ensures !ReadOnly(Permission(ap))
    ensures (UserAccess(ap << 6) <==> ap & 1 != 0) && (ReadOnly(ap << 6) <==> ap & 2 != 0)
  {
  }

  /** What the presets say to the hardware: normal, inner shareable memory, executable as their
      names say; but only the one that is meant to be read-only is open to users, and it is
      writable. */
  lemma PresetsMean(attrs: bv64)
    requires attrs in {USER_PAGE_RX, USER_PAGE_RW, USER_BLOCK_RWX}
    ensures AttrsOk(attrs) && Accessible(attrs | PTE_VALID) && MemoryType(attrs) == MT_NORMAL && Shareability(attrs) == 3
    ensures Executable(attrs, true) <==> attrs != USER_PAGE_RW
    ensures Executable(attrs, false) <==> attrs == USER_BLOCK_RWX
    ensures !ReadOnly(attrs) && (UserAccess(attrs) <==> attrs == USER_PAGE_RX)
  {
  }

  // ---- Translation ------------------------------------------------------------

  /** The walk from a last-level table on. */
  function FromPmd(mem: Memory, pmd: Page, va: bv64): Option<Mapping> {
    var e := At(mem, pmd, PmdIndex(va));
    if !IsValid(e) then None
    else if LeafOk(e) then Some(BlockTarget(e, va))
    else
      var p := At(mem, NextTable(e), PteIndex(va));
      if !IsValid(p) then None else Some(PageTarget(p, va))
  }

  function FromPud(mem: Memory, pud: Page, va: bv64): Option<Mapping> {
    var e := At(mem, pud, PudIndex(va));
    if !IsValid(e) then None else FromPmd(mem, NextTable(e), va)
  }

  /** Where `va` lies under the top-level table `root`, and with which attributes. */
  function Translate(mem: Memory, root: Page, va: bv64): Option<Mapping> {
    var e := At(mem, root, PgdIndex(va));
    if !IsValid(e) then None else FromPud(mem, NextTable(e), va)
  }

  // ---- Ownership --------------------------------------------------------------

  datatype Kernel = Kernel(pgd: Page, pud: Page, pmd: Page)

  /** The one place of a private table in the tree of its address space. */
  datatype Role = Root(space: nat) | Pud(space: nat, i: nat) | Pmd(space: nat, i: nat, j: nat)

  type Roles = map<Page, Role>

  predicate IsKernel(k: Kernel, t: Page) {
    t == k.pgd || t == k.pud || t == k.pmd
  }

  /** The kernel tables form a closed chain; only slot 0 of the top level is used. */
  ghost predicate KernelOk(mem: Memory, k: Kernel) {
    && IsTable(mem, k.pgd) && IsTable(mem, k.pud) && IsTable(mem, k.pmd)
    && k.pgd != k.pud && k.pgd != k.pmd && k.pud != k.pmd
    && PageAligned(k.pud) && PageAligned(k.pmd)
    && (forall i :: 0 <= i < 512 ==> At(mem, k.pgd, i) == if i == 0 then TableDesc(k.pud) else 0)
    && (forall i :: 0 <= i < 512 ==> At(mem, k.pud, i) == 0 || At(mem, k.pud, i) == TableDesc(k.pmd))
    && (forall va :: LeafOk(At(mem, k.pmd, PmdIndex(va))))
  }

  /** An entry is empty or points to the table with role `r`. */
  predicate Links(roles: Roles, e: bv64, r: Role) {
    e == 0 || (NextTable(e) in roles && roles[NextTable(e)] == r && e == TableDesc(NextTable(e)))
  }

  predicate TableOk(mem: Memory, k: Kernel, roles: Roles, t: Page)
    requires t in roles
  {
    && IsTable(mem, t) && PageAligned(t) && !IsKernel(k, t)
    && match roles[t]
       case Root(s) =>
         At(mem, t, 0) == TableDesc(k.pud) && forall i :: 1 <= i < 512 ==> Links(roles, At(mem, t, i), Pud(s, i))
       case Pud(s, i) => forall j :: 0 <= j < 512 ==> Links(roles, At(mem, t, j), Pmd(s, i, j))
       case Pmd(_, _, _) => forall j :: 0 <= j < 512 ==> LeafOk(At(mem, t, j))
  }

  /** Every private table has one role and is linked only where its role says. */
  ghost predicate Forest(mem: Memory, k: Kernel, roles: Roles) {
    KernelOk(mem, k) && forall t :: t in roles ==> TableOk(mem, k, roles, t)
  }

  // ---- Where walks go ---------------------------------------------------------

  /** A walk in slot 0 goes through the kernel tables. */
  lemma KernelPath(mem: Memory, k: Kernel, roles: Roles, root: Page, va: bv64)
    requires Forest(mem, k, roles) && PgdIndex(va) == 0
    requires root == k.pgd || (root in roles && roles[root].Root?)
    ensures Translate(mem, root, va) == FromPud(mem, k.pud, va)
  {
    TableDescRoundTrip(k.pud);
    if root in roles {
      assert TableOk(mem, k, roles, root);
    }
  }

  /** What the walk of an address space finds at the top level outside slot 0. */
  lemma UserPath(mem: Memory, k: Kernel, roles: Roles, root: Page, s: nat, va: bv64)
    requires Forest(mem, k, roles) && PgdIndex(va) != 0 && root in roles && roles[root] == Root(s)
    ensures var e := At(mem, root, PgdIndex(va));
            && (HasTable(e) <==> IsValid(e)) && (HasTable(e) <==> e != 0)
            && Links(roles, e, Pud(s, PgdIndex(va)))
            && (e == 0 ==> Translate(mem, root, va) == None)
            && (e != 0 ==> Translate(mem, root, va) == FromPud(mem, NextTable(e), va))
  {
    assert TableOk(mem, k, roles, root);
    EmptyDesc();
    var e := At(mem, root, PgdIndex(va));
    if e != 0 {
      assert TableOk(mem, k, roles, NextTable(e));
      TableDescRoundTrip(NextTable(e));
    }
  }

  lemma PudPath(mem: Memory, k: Kernel, roles: Roles, pud: Page, va: bv64)
    requires Forest(mem, k, roles) && pud in roles && roles[pud].Pud?
    ensures var e := At(mem, pud, PudIndex(va));
            && (HasTable(e) <==> IsValid(e)) && (HasTable(e) <==> e != 0)
            && Links(roles, e, Pmd(roles[pud].space, roles[pud].i, PudIndex(va)))
            && (e == 0 ==> FromPud(mem, pud, va) == None)
            && (e != 0 ==> FromPud(mem, pud, va) == FromPmd(mem, NextTable(e), va))
  {
    assert TableOk(mem, k, roles, pud);
    EmptyDesc();
    var e := At(mem, pud, PudIndex(va));
    if e != 0 {
      assert TableOk(mem, k, roles, NextTable(e));
      TableDescRoundTrip(NextTable(e));
    }
  }

  /** The top-level tables: the kernel's and those of the address spaces. */
  predicate IsRoot(k: Kernel, roles: Roles, root: Page) {
    root == k.pgd || (root in roles && roles[root].Root?)
  }

  // ---- Updates ----------------------------------------------------------------

  lemma AtPut(mem: Memory, t: Page, i: nat, e: bv64)
    requires IsTable(mem, t) && i < 512
    ensures forall t', i' :: At(Put(mem, t, i, e), t', i') == if t' == t && i' == i then e else At(mem, t', i')
    ensures forall t' :: IsTable(mem, t') ==> IsTable(Put(mem, t, i, e), t')
  {
    var mem' := Put(mem, t, i, e);
    forall t', i': nat
      ensures At(mem', t', i') == if t' == t && i' == i then e else At(mem, t', i')
    {
      if t' == t {
        assert mem'[t'] == mem[t][i := e];
      }
    }
  }

  /** Memory that agrees on the kernel tables walks slot 0 alike. */
  lemma KernelFrame(mem: Memory, mem': Memory, k: Kernel, va: bv64)
    requires KernelOk(mem, k) && forall t, i :: IsKernel(k, t) ==> At(mem', t, i) == At(mem, t, i)
    ensures FromPud(mem', k.pud, va) == FromPud(mem, k.pud, va)
  {
    EmptyDesc();
    TableDescRoundTrip(k.pmd);
    assert At(mem', k.pud, PudIndex(va)) == At(mem, k.pud, PudIndex(va));
    assert At(mem', k.pmd, PmdIndex(va)) == At(mem, k.pmd, PmdIndex(va));
  }

  /** Writing a last-level entry of a private table. */
  lemma LeafWrite(mem: Memory, k: Kernel, roles: Roles, pmd: Page, i: nat, e: bv64)
    requires Forest(mem, k, roles) && pmd in roles && roles[pmd].Pmd? && i < 512 && LeafOk(e)
    ensures IsTable(mem, pmd) && Forest(Put(mem, pmd, i, e), k, roles)
  {
    hide LeafOk, TableDesc, NextTable, PageAligned, At, Put;
    assert TableOk(mem, k, roles, pmd);
    AtPut(mem, pmd, i, e);
    var mem' := Put(mem, pmd, i, e);
    forall t | t in roles
      ensures TableOk(mem', k, roles, t)
    {
      assert TableOk(mem, k, roles, t);
    }
  }

  /** It changes the translation of no address whose path does not end at that entry. */
  lemma LeafWriteElsewhere(mem: Memory, k: Kernel, roles: Roles, pmd: Page, i: nat, e: bv64, root: Page, va: bv64)
    requires Forest(mem, k, roles) && pmd in roles && roles[pmd].Pmd? && i < 512 && LeafOk(e)
    requires IsRoot(k, roles, root)
    requires !(root in roles && roles[pmd] == Pmd(roles[root].space, PgdIndex(va), PudIndex(va)) && i == PmdIndex(va))
             || PgdIndex(va) == 0 || root == k.pgd
    ensures IsTable(mem, pmd)
    ensures Translate(Put(mem, pmd, i, e), root, va) == Translate(mem, root, va)
  {
    hide LeafOk, TableDesc, NextTable, PageAligned, At, Put, IsValid, HasTable, BlockTarget, BlockMapping;
    assert TableOk(mem, k, roles, pmd);
    LeafWrite(mem, k, roles, pmd, i, e);
    AtPut(mem, pmd, i, e);
    var mem' := Put(mem, pmd, i, e);
    if PgdIndex(va) == 0 {
      KernelPath(mem, k, roles, root, va);
      KernelPath(mem', k, roles, root, va);
      KernelFrame(mem, mem', k, va);
    } else if root == k.pgd {
      EmptyDesc();
    } else {
      UserLeafWrite(mem, k, roles, pmd, i, e, root, va);
    }
  }

  lemma UserLeafWrite(mem: Memory, k: Kernel, roles: Roles, pmd: Page, i: nat, e: bv64, root: Page, va: bv64)
    requires Forest(mem, k, roles) && pmd in roles && roles[pmd].Pmd? && i < 512 && LeafOk(e)
    requires root in roles && roles[root].Root? && PgdIndex(va) != 0
    requires !(roles[pmd] == Pmd(roles[root].space, PgdIndex(va), PudIndex(va)) && i == PmdIndex(va))
    ensures IsTable(mem, pmd)
    ensures Translate(Put(mem, pmd, i, e), root, va) == Translate(mem, root, va)
  {
    hide TableDesc, NextTable, PageAligned, At, Put, IsValid, HasTable, BlockTarget, BlockMapping, LeafOk;
    assert TableOk(mem, k, roles, pmd);
    LeafWrite(mem, k, roles, pmd, i, e);
    AtPut(mem, pmd, i, e);
    var mem' := Put(mem, pmd, i, e);
    var s := roles[root].space;
    UserPath(mem, k, roles, root, s, va);
    UserPath(mem', k, roles, root, s, va);
    var e0 := At(mem, root, PgdIndex(va));
    if e0 != 0 {
      var pud := NextTable(e0);
      PudPath(mem, k, roles, pud, va);
      PudPath(mem', k, roles, pud, va);
      var e1 := At(mem, pud, PudIndex(va));
      if e1 != 0 {
        PmdFrame(mem, mem', k, roles, NextTable(e1), va);
      }
    }
  }

  lemma PmdFrame(mem: Memory, mem': Memory, k: Kernel, roles: Roles, pmd: Page, va: bv64)
    requires Forest(mem, k, roles) && pmd in roles && roles[pmd].Pmd?
    requires At(mem', pmd, PmdIndex(va)) == At(mem, pmd, PmdIndex(va))
    ensures FromPmd(mem', pmd, va) == FromPmd(mem, pmd, va)
  {
    assert TableOk(mem, k, roles, pmd);
  }

  /** Memory in which page `fresh` has become a table of zeroes. */
  function Zeroed(mem: Memory, page: Page): Memory {
    mem[page := seq(512, _ => 0)]
  }

  lemma AtZeroed(mem: Memory, page: Page)
    requires page !in mem
    ensures forall t', i' :: At(Zeroed(mem, page), t', i') == At(mem, t', i')
    ensures IsTable(Zeroed(mem, page), page) && forall t' :: IsTable(mem, t') ==> IsTable(Zeroed(mem, page), t')
  {
    var mem' := Zeroed(mem, page);
    forall t', i': nat
      ensures At(mem', t', i') == At(mem, t', i')
    {
      if t' == page && i' < 512 {
        assert mem'[t'][i'] == 0;
      }
    }
  }

  /** A fresh page that is linked at an empty entry of `parent`, which is `i`. */
  function Linked(mem: Memory, parent: Page, i: nat, page: Page): Memory
    requires IsTable(mem, parent) && page !in mem && i < 512
  {
    Put(Zeroed(mem, page), parent, i, TableDesc(page))
  }

  /** The entry where a table with role `r` belongs. */
  predicate LinksAt(roles: Roles, parent: Page, i: nat, r: Role) {
    parent in roles
    && match roles[parent]
       case Root(s) => i >= 1 && r == Pud(s, i)
       case Pud(s, j) => r == Pmd(s, j, i)
       case Pmd(_, _, _) => false
  }

  lemma AtLinked(mem: Memory, parent: Page, i: nat, page: Page)
    requires IsTable(mem, parent) && page !in mem && i < 512
    ensures var mem' := Linked(mem, parent, i, page);
            && (forall t', i' :: At(mem', t', i') == if t' == parent && i' == i then TableDesc(page) else At(mem, t', i'))
            && IsTable(mem', page) && (forall t' :: IsTable(mem, t') ==> IsTable(mem', t'))
            && forall i' :: At(mem', page, i') == 0
  {
    hide At, Put, Zeroed, TableDesc;
    AtZeroed(mem, page);
    AtPut(Zeroed(mem, page), parent, i, TableDesc(page));
    EmptyTable(mem, page);
  }

  lemma LinkKeepsTable(mem: Memory, k: Kernel, roles: Roles, parent: Page, i: nat, page: Page, r: Role, t: Page)
    requires Forest(mem, k, roles) && LinksAt(roles, parent, i, r) && i < 512
    requires page !in mem && page !in roles && PageAligned(page) && t in roles
    ensures IsTable(mem, parent) && TableOk(Linked(mem, parent, i, page), k, roles[page := r], t)
  {
    hide TableDesc, NextTable, PageAligned, At, Linked, IsValid, HasTable, LeafOk;
    assert TableOk(mem, k, roles, parent) && TableOk(mem, k, roles, t);
    AtLinked(mem, parent, i, page);
    TableDescRoundTrip(page);
    LinksGrow(roles, roles[page := r], page);
  }

  lemma LinkKeepsForest(mem: Memory, k: Kernel, roles: Roles, parent: Page, i: nat, page: Page, r: Role)
    requires Forest(mem, k, roles) && LinksAt(roles, parent, i, r) && i < 512
    requires page !in mem && page !in roles && PageAligned(page)
    ensures IsTable(mem, parent) && Forest(Linked(mem, parent, i, page), k, roles[page := r])
  {
    hide TableDesc, NextTable, PageAligned, At, Linked, IsValid, HasTable, LeafOk;
    assert TableOk(mem, k, roles, parent);
    AtLinked(mem, parent, i, page);
    EmptyDesc();
    var mem', roles' := Linked(mem, parent, i, page), roles[page := r];
    forall t | t in roles'
      ensures TableOk(mem', k, roles', t)
    {
      if t != page {
        LinkKeepsTable(mem, k, roles, parent, i, page, r, t);
      }
    }
  }

  /** Linking an empty table at an empty entry translates nothing new. */
  lemma LinkKeepsTranslation(mem: Memory, k: Kernel, roles: Roles, parent: Page, i: nat, page: Page, r: Role,
                             root: Page, va: bv64)
    requires Forest(mem, k, roles) && LinksAt(roles, parent, i, r) && i < 512 && At(mem, parent, i) == 0
    requires page !in mem && page !in roles && PageAligned(page) && IsRoot(k, roles, root)
    ensures IsTable(mem, parent) && Translate(Linked(mem, parent, i, page), root, va) == Translate(mem, root, va)
  {
    hide TableDesc, NextTable, PageAligned, At, Linked, IsValid, HasTable, LeafOk, BlockTarget, BlockMapping;
    assert TableOk(mem, k, roles, parent);
    LinkKeepsForest(mem, k, roles, parent, i, page, r);
    AtLinked(mem, parent, i, page);
    var mem', roles' := Linked(mem, parent, i, page), roles[page := r];
    if PgdIndex(va) == 0 {
      KernelPath(mem, k, roles, root, va);
      KernelPath(mem', k, roles', root, va);
      KernelFrame(mem, mem', k, va);
    } else if root == k.pgd {
      EmptyDesc();
    } else {
      UserLinkKeeps(mem, k, roles, parent, i, page, r, root, va);
    }
  }

  /** A fresh second-level table maps nothing. */
  lemma LinkTop(mem: Memory, k: Kernel, roles: Roles, i: nat, page: Page, root: Page, va: bv64)
    requires Forest(mem, k, roles) && root in roles && roles[root].Root? && i == PgdIndex(va) != 0 && At(mem, root, i) == 0
    requires page !in mem && page !in roles && PageAligned(page)
    ensures IsTable(mem, root) && Translate(Linked(mem, root, i, page), root, va) == Translate(mem, root, va)
  {
    hide TableDesc, NextTable, PageAligned, At, Linked, IsValid, HasTable, LeafOk, BlockTarget, BlockMapping, Translate, FromPud;
    assert TableOk(mem, k, roles, root);
    var s := roles[root].space;
    var mem', roles' := Linked(mem, root, i, page), roles[page := Pud(s, i)];
    LinkKeepsForest(mem, k, roles, root, i, page, Pud(s, i));
    AtLinked(mem, root, i, page);
    TableDescRoundTrip(page);
    EmptyDesc();
    UserPath(mem, k, roles, root, s, va);
    UserPath(mem', k, roles', root, s, va);
    PudPath(mem', k, roles', page, va);
  }

  /** Below the second level a fresh table maps nothing either. */
  lemma PudLinkKeeps(mem: Memory, k: Kernel, roles: Roles, parent: Page, i: nat, page: Page, r: Role, pud: Page, va: bv64)
    requires Forest(mem, k, roles) && LinksAt(roles, parent, i, r) && i < 512 && At(mem, parent, i) == 0
    requires page !in mem && page !in roles && PageAligned(page) && pud in roles && roles[pud].Pud?
    ensures IsTable(mem, parent) && FromPud(Linked(mem, parent, i, page), pud, va) == FromPud(mem, pud, va)
  {
    hide TableDesc, NextTable, PageAligned, At, Linked, IsValid, HasTable, LeafOk, BlockTarget, BlockMapping, Translate, FromPud;
    assert TableOk(mem, k, roles, parent);
    var mem', roles' := Linked(mem, parent, i, page), roles[page := r];
    LinkKeepsForest(mem, k, roles, parent, i, page, r);
    AtLinked(mem, parent, i, page);
    PudPath(mem, k, roles, pud, va);
    PudPath(mem', k, roles', pud, va);
    var e := At(mem, pud, PudIndex(va));
    if e != 0 {
      PmdFrame(mem, mem', k, roles, NextTable(e), va);
    } else if parent == pud && i == PudIndex(va) {
      TableDescRoundTrip(page);
      EmptyDesc();
    }
  }

  lemma UserLinkKeeps(mem: Memory, k: Kernel, roles: Roles, parent: Page, i: nat, page: Page, r: Role, root: Page, va: bv64)
    requires Forest(mem, k, roles) && LinksAt(roles, parent, i, r) && i < 512 && At(mem, parent, i) == 0
    requires page !in mem && page !in roles && PageAligned(page)
    requires root in roles && roles[root].Root? && PgdIndex(va) != 0
    ensures IsTable(mem, parent) && Translate(Linked(mem, parent, i, page), root, va) == Translate(mem, root, va)
  {
    hide TableDesc, NextTable, PageAligned, At, Linked, IsValid, HasTable, LeafOk, BlockTarget, BlockMapping, Translate, FromPud;
    assert TableOk(mem, k, roles, parent);
    if parent == root && i == PgdIndex(va) {
      LinkTop(mem, k, roles, i, page, root, va);
    } else {
      LinkKeepsForest(mem, k, roles, parent, i, page, r);
      AtLinked(mem, parent, i, page);
      var s := roles[root].space;
      UserPath(mem, k, roles, root, s, va);
      UserPath(Linked(mem, parent, i, page), k, roles[page := r], root, s, va);
      var e0 := At(mem, root, PgdIndex(va));
      if e0 != 0 {
        PudLinkKeeps(mem, k, roles, parent, i, page, r, NextTable(e0), va);
      }
    }
  }

  lemma EmptyTable(mem: Memory, page: Page)
    requires page !in mem
    ensures forall i :: At(mem, page, i) == 0
  {
  }

  lemma LinksGrow(roles: Roles, roles': Roles, page: Page)
    requires page !in roles && roles'.Keys == roles.Keys + {page} && forall t :: t in roles ==> roles'[t] == roles[t]
    ensures forall e, r :: Links(roles, e, r) ==> Links(roles', e, r)
  {
  }

  /** A new top-level table that copies the kernel's. */
  lemma CopyRoot(mem: Memory, k: Kernel, roles: Roles, page: Page, s: nat)
    requires Forest(mem, k, roles) && page !in mem && page !in roles && PageAligned(page)
    ensures k.pgd in mem && Forest(mem[page := mem[k.pgd]], k, roles[page := Root(s)])
  {
    hide TableDesc, NextTable, PageAligned, IsValid, HasTable, LeafOk;
    var mem', roles' := mem[page := mem[k.pgd]], roles[page := Root(s)];
    assert forall t, i: nat :: t != page ==> At(mem', t, i) == At(mem, t, i);
    assert forall i: nat :: At(mem', page, i) == At(mem, k.pgd, i);
    LinksGrow(roles, roles', page);
    forall t | t in roles
      ensures TableOk(mem', k, roles', t)
    {
      assert TableOk(mem, k, roles, t);
    }
  }

  /** Outside slot 0 a walk stays in the tables of its own space. */
  lemma UserFrame(mem: Memory, mem': Memory, k: Kernel, roles: Roles, root: Page, va: bv64)
    requires Forest(mem, k, roles) && root in roles && roles[root].Root? && PgdIndex(va) != 0
    requires forall t, i :: t in roles ==> At(mem', t, i) == At(mem, t, i)
    ensures Translate(mem', root, va) == Translate(mem, root, va)
  {
    hide TableDesc, NextTable, PageAligned, HasTable, BlockTarget, BlockMapping, IsValid, LeafOk, At;
    EmptyDesc();
    assert At(mem', root, PgdIndex(va)) == At(mem, root, PgdIndex(va));
    UserPath(mem, k, roles, root, roles[root].space, va);
    var e0 := At(mem, root, PgdIndex(va));
    if e0 != 0 {
      PudPath(mem, k, roles, NextTable(e0), va);
      var e1 := At(mem, NextTable(e0), PudIndex(va));
      if e1 != 0 {
        PmdFrame(mem, mem', k, roles, NextTable(e1), va);
      }
    }
  }

  /** When only the kernel's two lower tables and unused memory change: slot 0 of every space
      goes through them, and nothing else does. */
  lemma SharedFrame(mem: Memory, mem': Memory, k: Kernel, roles: Roles, root: Page, va: bv64)
    requires Forest(mem, k, roles) && IsRoot(k, roles, root)
    requires forall t, i :: t in roles || t == k.pgd ==> At(mem', t, i) == At(mem, t, i)
    ensures PgdIndex(va) != 0 ==> Translate(mem', root, va) == Translate(mem, root, va)
    ensures PgdIndex(va) == 0 ==> && Translate(mem', root, va) == FromPud(mem', k.pud, va)
                                  && Translate(mem, root, va) == FromPud(mem, k.pud, va)
  {
    hide TableDesc, NextTable, PageAligned, HasTable, BlockTarget, BlockMapping, IsValid, LeafOk, At, FromPud;
    EmptyDesc();
    if PgdIndex(va) == 0 {
      CopySlotZero(mem, k, roles, root);
      assert At(mem', root, 0) == At(mem, root, 0);
      TableDescRoundTrip(k.pud);
    } else if root == k.pgd {
      assert At(mem', root, PgdIndex(va)) == At(mem, root, PgdIndex(va)) == 0;
    } else {
      UserFrame(mem, mem', k, roles, root, va);
    }
  }

  /** Memory that agrees on the kernel tables and on all private ones translates alike. */
  lemma ForestFrame(mem: Memory, mem': Memory, k: Kernel, roles: Roles, root: Page, va: bv64)
    requires Forest(mem, k, roles) && IsRoot(k, roles, root)
    requires forall t, i :: IsKernel(k, t) || t in roles ==> At(mem', t, i) == At(mem, t, i)
    ensures Translate(mem', root, va) == Translate(mem, root, va)
  {
    hide TableDesc, NextTable, PageAligned, HasTable, BlockTarget, BlockMapping, IsValid, LeafOk, At;
    EmptyDesc();
    assert At(mem', root, PgdIndex(va)) == At(mem, root, PgdIndex(va));
    if PgdIndex(va) == 0 {
      CopySlotZero(mem, k, roles, root);
      TableDescRoundTrip(k.pud);
      KernelFrame(mem, mem', k, va);
    } else if root != k.pgd {
      UserFrame(mem, mem', k, roles, root, va);
    }
  }

  /** It translates like the kernel's, and every other translation stays. */
  lemma CopyRootTranslation(mem: Memory, k: Kernel, roles: Roles, page: Page, root: Page, va: bv64)
    requires Forest(mem, k, roles) && page !in mem && page !in roles && (root == page || IsRoot(k, roles, root))
    ensures Translate(mem[page := mem[k.pgd]], root, va) == Translate(mem, if root == page then k.pgd else root, va)
  {
    hide TableDesc, NextTable, PageAligned, HasTable, BlockTarget, BlockMapping, IsValid, LeafOk, FromPud;
    var mem' := mem[page := mem[k.pgd]];
    assert forall t, i: nat :: t != page ==> At(mem', t, i) == At(mem, t, i);
    assert At(mem', page, PgdIndex(va)) == At(mem, k.pgd, PgdIndex(va));
    if root == page {
      EmptyDesc();
      TableDescRoundTrip(k.pud);
      KernelFrame(mem, mem', k, va);
    } else {
      ForestFrame(mem, mem', k, roles, root, va);
    }
  }

  lemma CopySlotZero(mem: Memory, k: Kernel, roles: Roles, root: Page)
    requires Forest(mem, k, roles) && IsRoot(k, roles, root)
    ensures At(mem, root, 0) == TableDesc(k.pud)
  {
    if root in roles {
      assert TableOk(mem, k, roles, root);
    }
  }

  /** The address the last write of a mapping makes reachable. */
  lemma MappedHere(mem: Memory, root: Page, pud: Page, pmd: Page, va: bv64, pa: bv64, attrs: bv64)
    requires PageAligned(pud) && PageAligned(pmd) && AttrsOk(attrs)
    requires At(mem, root, PgdIndex(va)) == TableDesc(pud) && At(mem, pud, PudIndex(va)) == TableDesc(pmd)
    requires At(mem, pmd, PmdIndex(va)) == BlockDesc(pa, attrs)
    ensures Translate(mem, root, va) == Some(BlockMapping(pa, attrs, va))
  {
    hide TableDesc, NextTable, IsValid, BlockDesc, BlockTarget, BlockMapping, LeafOk, BlockOf, At;
    TableDescRoundTrip(pud);
    TableDescRoundTrip(pmd);
    BlockDescMeaning(pa, attrs, va);
  }

  /** Writing a block into the kernel's own last-level table: every space sees it, at every
      address of slot 0 whose middle level leads there. */
  lemma SharedWrite(mem: Memory, k: Kernel, roles: Roles, va: bv64, pa: bv64, attrs: bv64)
    requires Forest(mem, k, roles) && AttrsOk(attrs)
    ensures IsTable(mem, k.pmd)
    ensures var mem' := Put(mem, k.pmd, PmdIndex(va), BlockDesc(pa, attrs));
            && Forest(mem', k, roles) && mem'.Keys == mem.Keys
            && forall root, v :: IsRoot(k, roles, root) ==>
                 Translate(mem', root, v) == if PgdIndex(v) == 0 && At(mem, k.pud, PudIndex(v)) != 0 && PmdIndex(v) == PmdIndex(va)
                                             then Some(BlockMapping(pa, attrs, v)) else Translate(mem, root, v)
  {
    hide TableDesc, NextTable, PageAligned, At, Translate, AttrsOk, BlockDesc, BlockOf, LeafOk, IsValid, BlockTarget, BlockMapping, PgdIndex,
         PudIndex, PmdIndex;
    BlockDescMeaning(pa, attrs, va);
    AtPut(mem, k.pmd, PmdIndex(va), BlockDesc(pa, attrs));
    var mem' := Put(mem, k.pmd, PmdIndex(va), BlockDesc(pa, attrs));
    forall t | t in roles
      ensures TableOk(mem', k, roles, t)
    {
      assert TableOk(mem, k, roles, t);
    }
    forall root, v | IsRoot(k, roles, root)
      ensures Translate(mem', root, v) == if PgdIndex(v) == 0 && At(mem, k.pud, PudIndex(v)) != 0 && PmdIndex(v) == PmdIndex(va)
                                          then Some(BlockMapping(pa, attrs, v)) else Translate(mem, root, v)
    {
      SharedFrame(mem, mem', k, roles, root, v);
      BlockDescMeaning(pa, attrs, v);
      TableDescRoundTrip(k.pmd);
      EmptyDesc();
    }
  }

  /** Linking a page into the kernel's middle table and mapping a block there: every space sees
      the block, and the kernel's tables are no longer the kernel's alone. */
  lemma SharedLink(mem: Memory, k: Kernel, roles: Roles, page: Page, va: bv64, pa: bv64, attrs: bv64)
    requires Forest(mem, k, roles) && AttrsOk(attrs) && PgdIndex(va) == 0 && At(mem, k.pud, PudIndex(va)) == 0
    requires page !in mem && page !in roles && PageAligned(page)
    ensures IsTable(mem, k.pud) && IsTable(Linked(mem, k.pud, PudIndex(va), page), page)
    ensures var mem' := Put(Linked(mem, k.pud, PudIndex(va), page), page, PmdIndex(va), BlockDesc(pa, attrs));
            && !Forest(mem', k, roles)
            && forall root, v :: IsRoot(k, roles, root) ==>
                 Translate(mem', root, v) == if BlockOf(v) == BlockOf(va) then Some(BlockMapping(pa, attrs, v))
                                             else Translate(mem, root, v)
  {
    hide TableDesc, NextTable, PageAligned, At, Translate, AttrsOk, BlockDesc, BlockOf, LeafOk, IsValid, BlockTarget, BlockMapping, PgdIndex,
         PudIndex, PmdIndex, Linked;
    AtLinked(mem, k.pud, PudIndex(va), page);
    var mem1 := Linked(mem, k.pud, PudIndex(va), page);
    AtPut(mem1, page, PmdIndex(va), BlockDesc(pa, attrs));
    var mem' := Put(mem1, page, PmdIndex(va), BlockDesc(pa, attrs));
    TableDescRoundTrip(page);
    TableDescRoundTrip(k.pmd);
    EmptyDesc();
    assert page != k.pmd && page != k.pud && page != k.pgd;
    assert At(mem', k.pud, PudIndex(va)) == TableDesc(page);
    forall t | t in roles
      ensures t != page && t != k.pud
    {
      assert TableOk(mem, k, roles, t);
    }
    forall root, v | IsRoot(k, roles, root)
      ensures Translate(mem', root, v) == if BlockOf(v) == BlockOf(va) then Some(BlockMapping(pa, attrs, v))
                                          else Translate(mem, root, v)
    {
      SharedFrame(mem, mem', k, roles, root, v);
      SamePath(v, va);
      BlockDescMeaning(pa, attrs, v);
    }
  }

  // ---- Address spaces ---------------------------------------------------------

  const AS_MAX_TABLES: nat := 16

  datatype Space = Space(pgd: Page, tables: seq<Page>)

  /** Between the two states, the pages that left the allocator are what space `s` tracks in
      addition, and no other space changed. */
  ghost predicate Tracked(s: nat, before: seq<Space>, after: seq<Space>, f: set<Page>, f': set<Page>) {
    && s < |before| == |after| && f' <= f
    && before[s].tables <= after[s].tables && after[s].pgd == before[s].pgd
    && (forall p :: p in f && p !in f' <==> p in after[s].tables[|before[s].tables|..])
    && forall t :: 0 <= t < |after| && t != s ==> after[t] == before[t]
  }

  lemma NoneTracked(s: nat, spaces: seq<Space>, f: set<Page>)
    requires s < |spaces|
    ensures Tracked(s, spaces, spaces, f, f)
  {
  }

  lemma OneTracked(s: nat, before: seq<Space>, f: set<Page>, page: Page)
    requires s < |before| && page in f
    ensures Tracked(s, before, before[s := before[s].(tables := before[s].tables + [page])], f, f - {page})
  {
    assert (before[s].tables + [page])[|before[s].tables|..] == [page];
  }

  /** Tracking adds up. */
  lemma TrackedTwice(s: nat, a: seq<Space>, b: seq<Space>, c: seq<Space>, fa: set<Page>, fb: set<Page>, fc: set<Page>)
    requires Tracked(s, a, b, fa, fb) && Tracked(s, b, c, fb, fc)
    ensures Tracked(s, a, c, fa, fc)
  {
    var x, y, z := |a[s].tables|, |b[s].tables|, c[s].tables;
    assert z[x..] == b[s].tables[x..] + z[y..];
  }

  class Mmu {
    const kernel: Kernel
    var mem: Memory
    /** Pages the physical memory manager can hand out. */
    var free: set<Page>
    var spaces: seq<Space>
    ghost var roles: Roles

    ghost predicate Valid()
      reads this
    {
      && Forest(mem, kernel, roles)
      && (forall p :: p in free ==> p !in mem && p !in roles && PageAligned(p))
      && (forall s :: 0 <= s < |spaces| ==> spaces[s].pgd in roles && roles[spaces[s].pgd] == Root(s))
      && (forall t :: t in roles && roles[t].Root? ==> roles[t].space < |spaces| && spaces[roles[t].space].pgd == t)
    }

    /** The state after the kernel tables are set up: no address space yet. */
    constructor (kernel: Kernel, mem: Memory, free: set<Page>)
      requires KernelOk(mem, kernel) && forall p :: p in free ==> p !in mem && PageAligned(p)
      ensures Valid() && this.kernel == kernel && this.mem == mem && this.free == free && spaces == []
    {
      this.kernel, this.mem, this.free := kernel, mem, free;
      spaces, roles := [], map[];
    }

    /** No translation under any top-level table differs from what it was in `m`. */
    ghost predicate SameTranslations(m: Memory, r: Roles)
      reads this
    {
      forall root, va :: IsRoot(kernel, r, root) ==> Translate(mem, root, va) == Translate(m, root, va)
    }

    /** The table that entry `i` of `parent` points to, allocated and linked if there is none;
        None when no page, or no tracking slot, is left. */
    method EnsureTable(s: nat, parent: Page, i: nat, ghost r: Role) returns (next: Option<Page>)
      requires Valid() && s < |spaces| && LinksAt(roles, parent, i, r) && i < 512
      modifies this`mem, this`free, this`spaces, this`roles
      ensures Valid() && |spaces| == |old(spaces)| && forall t :: 0 <= t < |spaces| ==> spaces[t].pgd == old(spaces[t].pgd)
      ensures forall p :: p in old(roles) ==> p in roles && roles[p] == old(roles[p])
      ensures SameTranslations(old(mem), old(roles))
      ensures next.Some? ==> && next.value in roles && roles[next.value] == r
                             && forall t', i' :: At(mem, t', i') == if t' == parent && i' == i then TableDesc(next.value) else At(old(mem), t', i')
      ensures next.None? <==> At(old(mem), parent, i) == 0 && (old(free) == {} || |old(spaces[s].tables)| >= AS_MAX_TABLES)
      ensures next.Some? && At(old(mem), parent, i) != 0 ==> next.value == NextTable(At(old(mem), parent, i))
      ensures next.Some? && At(old(mem), parent, i) == 0 ==> forall j :: At(mem, next.value, j) == 0
      ensures next.Some? ==> |free| == |old(free)| - (if At(old(mem), parent, i) == 0 then 1 else 0)
      ensures |spaces[s].tables| <= |old(spaces[s].tables)| + 1
      ensures next.Some? || |old(spaces[s].tables)| < AS_MAX_TABLES ==> Tracked(s, old(spaces), spaces, old(free), free)
    {
      hide TableDesc, NextTable, PageAligned, At, HasTable, IsValid, LeafOk, Translate, Links, Put, Zeroed, Forest, LinksAt,
           Linked, Tracked;
      NoneTracked(s, spaces, free);
      EntryFacts(mem, kernel, roles, parent, i, r);
      var e := At(mem, parent, i);
      if HasTable(e) {
        return Some(NextTable(e));
      }
      if free == {} {
        return None;
      }
      var page: Page :| page in free;
      free := free - {page};
      if |spaces[s].tables| >= AS_MAX_TABLES {
        return None;
      }
      EmptyTable(mem, page);
      OneTracked(s, spaces, old(free), page);
      LinkPage(s, parent, i, page, r);
      return Some(page);
    }

    /** Clears a page the allocator handed out, tracks it and links it at an empty entry. */
    method LinkPage(s: nat, parent: Page, i: nat, page: Page, ghost r: Role)
      requires Valid() && s < |spaces| && LinksAt(roles, parent, i, r) && i < 512 && At(mem, parent, i) == 0 && !r.Root?
      requires page !in free && page !in mem && page !in roles && PageAligned(page)
      modifies this`mem, this`spaces, this`roles
      ensures Valid() && SameTranslations(old(mem), old(roles))
      ensures roles == old(roles)[page := r]
      ensures spaces == old(spaces)[s := old(spaces[s]).(tables := old(spaces[s].tables) + [page])]
      ensures forall t', i' :: At(mem, t', i') == if t' == parent && i' == i then TableDesc(page) else At(old(mem), t', i')
    {
      hide TableDesc, NextTable, PageAligned, At, HasTable, IsValid, LeafOk, Translate, Links, Put, Zeroed, Forest, LinksAt,
           Linked;
      LinkKeepsForest(mem, kernel, roles, parent, i, page, r);
      AtLinked(mem, parent, i, page);
      forall root, va | IsRoot(kernel, roles, root)
        ensures Translate(Linked(mem, parent, i, page), root, va) == Translate(mem, root, va)
      {
        LinkKeepsTranslation(mem, kernel, roles, parent, i, page, r, root, va);
      }
      LinkedKeys(mem, parent, i, page);
      mem := Zeroed(mem, page);
      spaces := spaces[s := spaces[s].(tables := spaces[s].tables + [page])];
      mem := Put(mem, parent, i, TableDesc(page));
      roles := roles[page := r];
    }

    /** as_create: a top-level table that shares the kernel's mappings; -1 when the heap (told
        by `metaOk`) or the page allocator is exhausted. */
    method CreateSpace(metaOk: bool) returns (s: int)
      requires Valid()
      modifies this`mem, this`free, this`spaces, this`roles
      ensures Valid() && SameTranslations(old(mem), old(roles))
      ensures s == -1 <==> !metaOk || old(free) == {}
      ensures s == -1 ==> spaces == old(spaces)
      ensures s != -1 ==> && s == |old(spaces)| && |spaces| == s + 1 && spaces[..s] == old(spaces)
                          && spaces[s].tables == [spaces[s].pgd] && old(free) == free + {spaces[s].pgd} && spaces[s].pgd !in free
                          && forall va :: Translate(mem, spaces[s].pgd, va) == Translate(old(mem), kernel.pgd, va)
    {
      hide TableDesc, PageAligned, At, Translate, TableOk, KernelOk;
      if !metaOk || free == {} {
        return -1;
      }
      var page: Page :| page in free;
      free := free - {page};
      CopyRoot(mem, kernel, roles, page, |spaces|);
      forall root, va | IsRoot(kernel, roles, root)
        ensures Translate(mem[page := mem[kernel.pgd]], root, va) == Translate(mem, root, va)
      {
        CopyRootTranslation(mem, kernel, roles, page, root, va);
      }
      forall va
        ensures Translate(mem[page := mem[kernel.pgd]], page, va) == Translate(mem, kernel.pgd, va)
      {
        CopyRootTranslation(mem, kernel, roles, page, page, va);
      }
      mem := mem[page := mem[kernel.pgd]];
      roles := roles[page := Root(|spaces|)];
      spaces := spaces + [Space(page, [page])];
      return |spaces| - 1;
    }

    /** How many tables the path of `va` lacks in the space with top-level table `pgd`. */
    function Missing(pgd: Page, va: bv64): nat
      reads this
    {
      var e0 := At(mem, pgd, PgdIndex(va));
      if e0 == 0 then 2 else if At(mem, NextTable(e0), PudIndex(va)) == 0 then 1 else 0
    }

    /** The request is well formed and the space may track two more tables. */
    predicate Admissible(s: nat, va: bv64, pa: bv64)
      reads this
    {
      s < |spaces| && BlockAligned(va) && BlockAligned(pa) && |spaces[s].tables| < AS_MAX_TABLES - 2
    }

    /** as_map_block. It succeeds exactly when the request is admissible and there are pages for
        the missing tables. In the user window, outside top-level slot 0, it maps exactly the
        block in exactly the space. In slot 0 it writes tables that all spaces and the kernel
        share. */
    method MapBlock(s: nat, va: bv64, pa: bv64, attrs: bv64) returns (r: int)
      requires Valid() && AttrsOk(attrs)
      modifies this`mem, this`free, this`spaces, this`roles
      ensures |spaces| == |old(spaces)| && forall t :: 0 <= t < |spaces| ==> spaces[t].pgd == old(spaces[t].pgd)
      ensures r == 0 || r == -1
      ensures r == 0 <==> old(Admissible(s, va, pa)) && |old(free)| >= old(Missing(spaces[s].pgd, va))
      ensures r == -1 ==> Valid() && SameTranslations(old(mem), old(roles))
      ensures if old(Admissible(s, va, pa)) then Tracked(s, old(spaces), spaces, old(free), free) else spaces == old(spaces) && free == old(free)
      ensures Valid() <==> r == -1 || PgdIndex(va) != 0 || At(old(mem), kernel.pud, PudIndex(va)) != 0
      ensures r == 0 && PgdIndex(va) != 0 ==>
                forall root, v :: IsRoot(kernel, old(roles), root) ==>
                  Translate(mem, root, v) == if root == spaces[s].pgd && BlockOf(v) == BlockOf(va)
                                             then Some(BlockMapping(pa, attrs, v))
                                             else Translate(old(mem), root, v)
      ensures r == 0 && PgdIndex(va) == 0 && At(old(mem), kernel.pud, PudIndex(va)) != 0 ==>
                forall root, v :: IsRoot(kernel, old(roles), root) ==>
                  Translate(mem, root, v) == if PgdIndex(v) == 0 && At(old(mem), kernel.pud, PudIndex(v)) != 0
                                                && PmdIndex(v) == PmdIndex(va)
                                             then Some(BlockMapping(pa, attrs, v))
                                             else Translate(old(mem), root, v)
      ensures r == 0 && PgdIndex(va) == 0 && At(old(mem), kernel.pud, PudIndex(va)) == 0 ==>
                forall root, v :: IsRoot(kernel, old(roles), root) ==>
                  Translate(mem, root, v) == if BlockOf(v) == BlockOf(va) then Some(BlockMapping(pa, attrs, v))
                                             else Translate(old(mem), root, v)
    {
      hide TableDesc, NextTable, PageAligned, At, Translate, AttrsOk, BlockOf, Forest, BlockAligned, PgdIndex, PudIndex,
           PmdIndex;
      if s >= |spaces| || !BlockAligned(va) || !BlockAligned(pa) {
        return -1;
      }
      if |spaces[s].tables| >= AS_MAX_TABLES - 2 {
        return -1;
      }
      if PgdIndex(va) != 0 {
        r := MapPrivate(s, va, pa, attrs);
      } else {
        r := MapShared(s, va, pa, attrs);
      }
    }

    /** The walk, the allocations and the write in the user window. */
    method MapPrivate(s: nat, va: bv64, pa: bv64, attrs: bv64) returns (r: int)
      requires Valid() && AttrsOk(attrs) && PgdIndex(va) != 0 && s < |spaces| && |spaces[s].tables| < AS_MAX_TABLES - 2
      modifies this`mem, this`free, this`spaces, this`roles
      ensures Valid() && |spaces| == |old(spaces)| && forall t :: 0 <= t < |spaces| ==> spaces[t].pgd == old(spaces[t].pgd)
      ensures r == if |old(free)| >= old(Missing(spaces[s].pgd, va)) then 0 else -1
      ensures Tracked(s, old(spaces), spaces, old(free), free)
      ensures r == -1 ==> SameTranslations(old(mem), old(roles))
      ensures r == 0 ==> forall root, v :: IsRoot(kernel, old(roles), root) ==>
                Translate(mem, root, v) == if root == spaces[s].pgd && BlockOf(v) == BlockOf(va)
                                           then Some(BlockMapping(pa, attrs, v))
                                           else Translate(old(mem), root, v)
    {
      hide TableDesc, PageAligned, At, Translate, AttrsOk, BlockDesc, Put, BlockOf, Forest, PgdIndex, PudIndex, PmdIndex,
           Missing;
      var pmd; ghost var pud;
      pmd, pud := EnsurePath(s, va);
      if pmd.None? {
        return -1;
      }
      FinalWrite(mem, kernel, roles, spaces[s].pgd, s, pud, pmd.value, va, pa, attrs);
      mem := Put(mem, pmd.value, PmdIndex(va), BlockDesc(pa, attrs));
      return 0;
    }

    /** The same steps in slot 0, where the first table is always the kernel's. */
    method MapShared(s: nat, va: bv64, pa: bv64, attrs: bv64) returns (r: int)
      requires Valid() && AttrsOk(attrs) && PgdIndex(va) == 0 && s < |spaces| && |spaces[s].tables| < AS_MAX_TABLES - 2
      modifies this`mem, this`free, this`spaces
      ensures |spaces| == |old(spaces)| && forall t :: 0 <= t < |spaces| ==> spaces[t].pgd == old(spaces[t].pgd)
      ensures r == if |old(free)| >= old(Missing(spaces[s].pgd, va)) then 0 else -1
      ensures Tracked(s, old(spaces), spaces, old(free), free)
      ensures r == -1 ==> mem == old(mem)
      ensures Valid() <==> r == -1 || At(old(mem), kernel.pud, PudIndex(va)) != 0
      ensures r == 0 && At(old(mem), kernel.pud, PudIndex(va)) != 0 ==>
                forall root, v :: IsRoot(kernel, roles, root) ==>
                  Translate(mem, root, v) == if PgdIndex(v) == 0 && At(old(mem), kernel.pud, PudIndex(v)) != 0
                                                && PmdIndex(v) == PmdIndex(va)
                                             then Some(BlockMapping(pa, attrs, v))
                                             else Translate(old(mem), root, v)
      ensures r == 0 && At(old(mem), kernel.pud, PudIndex(va)) == 0 ==>
                forall root, v :: IsRoot(kernel, roles, root) ==>
                  Translate(mem, root, v) == if BlockOf(v) == BlockOf(va) then Some(BlockMapping(pa, attrs, v))
                                             else Translate(old(mem), root, v)
    {
      hide TableDesc, NextTable, PageAligned, At, Translate, AttrsOk, BlockDesc, Put, BlockOf, Forest, PgdIndex, PudIndex,
           PmdIndex, Linked, Zeroed, HasTable, Tracked;
      NoneTracked(s, spaces, free);
      SharedPath(mem, kernel, roles, spaces[s].pgd, va);
      var pud := NextTable(At(mem, spaces[s].pgd, PgdIndex(va)));
      var e := At(mem, pud, PudIndex(va));
      if HasTable(e) {
        SharedWrite(mem, kernel, roles, va, pa, attrs);
        mem := Put(mem, NextTable(e), PmdIndex(va), BlockDesc(pa, attrs));
        return 0;
      }
      if free == {} {
        return -1;
      }
      LinkShared(s, va, pa, attrs);
      return 0;
    }

    /** The part of it that adds a table to the kernel's middle level. */
    method LinkShared(s: nat, va: bv64, pa: bv64, attrs: bv64)
      requires Valid() && AttrsOk(attrs) && PgdIndex(va) == 0 && s < |spaces| && free != {}
      requires At(mem, kernel.pud, PudIndex(va)) == 0
      modifies this`mem, this`free, this`spaces
      ensures !Valid() && Tracked(s, old(spaces), spaces, old(free), free)
      ensures |spaces| == |old(spaces)| && forall t :: 0 <= t < |spaces| ==> spaces[t].pgd == old(spaces[t].pgd)
      ensures forall root, v :: IsRoot(kernel, roles, root) ==>
                Translate(mem, root, v) == if BlockOf(v) == BlockOf(va) then Some(BlockMapping(pa, attrs, v))
                                           else Translate(old(mem), root, v)
    {
      hide TableDesc, NextTable, PageAligned, At, Translate, AttrsOk, BlockDesc, Put, BlockOf, Forest, PgdIndex, PudIndex,
           PmdIndex, Linked, Zeroed, HasTable, Tracked, BlockMapping;
      var page: Page :| page in free;
      free := free - {page};
      SharedLink(mem, kernel, roles, page, va, pa, attrs);
      LinkedKeys(mem, kernel.pud, PudIndex(va), page);
      spaces := spaces[s := spaces[s].(tables := spaces[s].tables + [page])];
      OneTracked(s, old(spaces), old(free), page);
      mem := Zeroed(mem, page);
      mem := Put(mem, kernel.pud, PudIndex(va), TableDesc(page));
      mem := Put(mem, page, PmdIndex(va), BlockDesc(pa, attrs));
    }

    /** The two table levels above the entry for `va`. */
    method EnsurePath(s: nat, va: bv64) returns (pmd: Option<Page>, ghost pud: Page)
      requires Valid() && s < |spaces| && PgdIndex(va) != 0
      modifies this`mem, this`free, this`spaces, this`roles
      ensures Valid() && |spaces| == |old(spaces)| && forall t :: 0 <= t < |spaces| ==> spaces[t].pgd == old(spaces[t].pgd)
      ensures forall p :: p in old(roles) ==> p in roles && roles[p] == old(roles[p])
      ensures SameTranslations(old(mem), old(roles))
      ensures pmd.Some? ==>
                && pud in roles && roles[pud] == Pud(s, PgdIndex(va)) && At(mem, spaces[s].pgd, PgdIndex(va)) == TableDesc(pud)
                && pmd.value in roles && roles[pmd.value] == Pmd(s, PgdIndex(va), PudIndex(va))
                && At(mem, pud, PudIndex(va)) == TableDesc(pmd.value)
      ensures |old(spaces[s].tables)| < AS_MAX_TABLES - 2 ==>
                (pmd.Some? <==> |old(free)| >= old(Missing(spaces[s].pgd, va))) && Tracked(s, old(spaces), spaces, old(free), free)
    {
      hide TableDesc, PageAligned, At, Translate, Forest, PgdIndex, PudIndex, Tracked;
      var pgd := spaces[s].pgd;
      pud := pgd;
      var first := EnsureTable(s, pgd, PgdIndex(va), Pud(s, PgdIndex(va)));
      if first.None? {
        return None, pud;
      }
      ghost var mem1, roles1 := mem, roles;
      ghost var spaces1, free1 := spaces, free;
      pud := first.value;
      pmd := EnsureTable(s, first.value, PudIndex(va), Pmd(s, PgdIndex(va), PudIndex(va)));
      if |old(spaces[s].tables)| < AS_MAX_TABLES - 2 {
        TrackedTwice(s, old(spaces), spaces1, spaces, old(free), free1, free);
      }
      forall root, v | IsRoot(kernel, old(roles), root)
        ensures Translate(mem, root, v) == Translate(old(mem), root, v)
      {
        assert IsRoot(kernel, roles1, root);
        assert Translate(mem, root, v) == Translate(mem1, root, v);
      }
    }
  }

  /** The last write of a mapping: exactly the block of `va` in this space is redirected. */
  lemma FinalWrite(mem: Memory, k: Kernel, roles: Roles, pgd: Page, s: nat, pud: Page, pmd: Page, va: bv64, pa: bv64, attrs: bv64)
    requires Forest(mem, k, roles) && AttrsOk(attrs) && PgdIndex(va) != 0
    requires pgd in roles && roles[pgd] == Root(s) && forall t :: t in roles && roles[t] == Root(s) ==> t == pgd
    requires pud in roles && roles[pud] == Pud(s, PgdIndex(va)) && At(mem, pgd, PgdIndex(va)) == TableDesc(pud)
    requires pmd in roles && roles[pmd] == Pmd(s, PgdIndex(va), PudIndex(va)) && At(mem, pud, PudIndex(va)) == TableDesc(pmd)
    ensures IsTable(mem, pmd)
    ensures var mem' := Put(mem, pmd, PmdIndex(va), BlockDesc(pa, attrs));
            && Forest(mem', k, roles) && mem'.Keys == mem.Keys
            && forall root, v :: IsRoot(k, roles, root) ==>
                 Translate(mem', root, v) == if root == pgd && BlockOf(v) == BlockOf(va)
                                             then Some(BlockMapping(pa, attrs, v)) else Translate(mem, root, v)
  {
    hide TableDesc, At, Translate, AttrsOk, BlockDesc, BlockOf, LeafOk, IsValid, BlockTarget, BlockMapping, PgdIndex, PudIndex, PmdIndex;
    BlockDescMeaning(pa, attrs, va);
    LeafWrite(mem, k, roles, pmd, PmdIndex(va), BlockDesc(pa, attrs));
    AtPut(mem, pmd, PmdIndex(va), BlockDesc(pa, attrs));
    var mem' := Put(mem, pmd, PmdIndex(va), BlockDesc(pa, attrs));
    assert TableOk(mem, k, roles, pud) && TableOk(mem, k, roles, pmd);
    forall root, v | IsRoot(k, roles, root)
      ensures Translate(mem', root, v) == if root == pgd && BlockOf(v) == BlockOf(va)
                                          then Some(BlockMapping(pa, attrs, v)) else Translate(mem, root, v)
    {
      SamePath(v, va);
      if root == pgd && BlockOf(v) == BlockOf(va) {
        MappedHere(mem', root, pud, pmd, v, pa, attrs);
      } else {
        LeafWriteElsewhere(mem, k, roles, pmd, PmdIndex(va), BlockDesc(pa, attrs), root, v);
      }
    }
  }

  /** What the walk of an address in slot 0 finds on its way. */
  lemma SharedPath(mem: Memory, k: Kernel, roles: Roles, pgd: Page, va: bv64)
    requires Forest(mem, k, roles) && IsRoot(k, roles, pgd) && PgdIndex(va) == 0
    ensures NextTable(At(mem, pgd, PgdIndex(va))) == k.pud && At(mem, pgd, PgdIndex(va)) != 0
    ensures var e := At(mem, k.pud, PudIndex(va));
            (HasTable(e) <==> e != 0) && (e != 0 ==> NextTable(e) == k.pmd)
  {
    CopySlotZero(mem, k, roles, pgd);
    TableDescRoundTrip(k.pud);
    TableDescRoundTrip(k.pmd);
    EmptyDesc();
  }

  lemma LinkedKeys(mem: Memory, parent: Page, i: nat, page: Page)
    requires IsTable(mem, parent) && page !in mem && i < 512
    ensures Linked(mem, parent, i, page).Keys == mem.Keys + {page}
    ensures parent in Zeroed(mem, page) && i < |Zeroed(mem, page)[parent]|
    ensures Linked(mem, parent, i, page) == Put(Zeroed(mem, page), parent, i, TableDesc(page))
  {
  }

  lemma EntryFacts(mem: Memory, k: Kernel, roles: Roles, parent: Page, i: nat, r: Role)
    requires Forest(mem, k, roles) && LinksAt(roles, parent, i, r) && i < 512
    ensures parent in roles && IsTable(mem, parent) && !r.Root?
    ensures var e := At(mem, parent, i);
            && (HasTable(e) <==> e != 0)
            && (e != 0 ==> NextTable(e) in roles && roles[NextTable(e)] == r && e == TableDesc(NextTable(e)))
  {
    assert TableOk(mem, k, roles, parent);
    EmptyDesc();
    var e := At(mem, parent, i);
    assert Links(roles, e, r);
    if e != 0 {
      assert TableOk(mem, k, roles, NextTable(e));
      TableDescRoundTrip(NextTable(e));
    }
  }
}
