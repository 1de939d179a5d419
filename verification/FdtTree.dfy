/** Flattened device trees: the tree, its printed form, and the memory query.

    The printed form follows sections 5.4 and 5.5 of the Devicetree Specification: a node is
    FDT_BEGIN_NODE, its name padded to four bytes, its properties, its children and
    FDT_END_NODE, with FDT_NOP allowed between any two of these. Properties come before
    children. A property is named by an offset into the strings block. */
module FdtTree {
  import opened Bytes

  const BEGIN_NODE: u32 := 1
  const END_NODE: u32 := 2
  const PROP: u32 := 3
  const NOP: u32 := 4
  const END: u32 := 9

  datatype PropItem =
    | PropNop
    | Property(nameOff: u32, value: seq<byte>)

  datatype Node = Node(name: seq<byte>, props: seq<PropItem>, kids: Forest)

  datatype Forest =
    | NoKids
    | KidNop(rest: Forest)
    | Kid(node: Node, rest: Forest)

  // ---- Well-formed trees ------------------------------------------------------

  predicate PropsOk(ps: seq<PropItem>) {
    forall i :: 0 <= i < |ps| && ps[i].Property? ==> |ps[i].value| < 0x1_0000_0000
  }

  predicate NodeOk(n: Node) {
    0 !in n.name && PropsOk(n.props) && ForestOk(n.kids)
  }

  predicate ForestOk(f: Forest) {
    match f
    case NoKids => true
    case KidNop(rest) => ForestOk(rest)
    case Kid(n, rest) => NodeOk(n) && ForestOk(rest)
  }

  // ---- Printing ---------------------------------------------------------------

  /** `n` rounded up to a multiple of four. */
  function Align4(n: nat): (r: nat)
    ensures r % 4 == 0 && n <= r < n + 4
  {
    (n + 3) / 4 * 4
  }

  function Padded(s: seq<byte>): (r: seq<byte>)
    ensures |r| == Align4(|s|) && s <= r
  {
    s + seq(Align4(|s|) - |s|, _ => 0)
  }

  function PrintItem(p: PropItem): seq<byte>
    requires p.Property? ==> |p.value| < 0x1_0000_0000
  {
    match p
    case PropNop => EncodeBE32(NOP)
    case Property(off, value) => EncodeBE32(PROP) + EncodeBE32(|value|) + EncodeBE32(off) + Padded(value)
  }

  function PrintProps(ps: seq<PropItem>): seq<byte>
    requires PropsOk(ps)
  {
    if ps == [] then [] else PrintItem(ps[0]) + PrintProps(ps[1..])
  }

  function PrintNode(n: Node): seq<byte>
    requires NodeOk(n)
  {
    EncodeBE32(BEGIN_NODE) + Padded(n.name + [0]) + PrintProps(n.props) + PrintForest(n.kids) + EncodeBE32(END_NODE)
  }

  function PrintForest(f: Forest): seq<byte>
    requires ForestOk(f)
  {
    match f
    case NoKids => []
    case KidNop(rest) => EncodeBE32(NOP) + PrintForest(rest)
    case Kid(n, rest) => PrintNode(n) + PrintForest(rest)
  }

  function Nops(k: nat): seq<byte> {
    if k == 0 then [] else EncodeBE32(NOP) + Nops(k - 1)
  }

  /** A structure block: the root node, NOPs around it, FDT_END, and anything after that. */
  function PrintTree(root: Node, before: nat, after: nat, junk: seq<byte>): seq<byte>
    requires NodeOk(root)
  {
    Nops(before) + (PrintNode(root) + (Nops(after) + (EncodeBE32(END) + junk)))
  }

  // ---- Names ------------------------------------------------------------------

  /** "memory" */
  const MEMORY: seq<byte> := [0x6d, 0x65, 0x6d, 0x6f, 0x72, 0x79]
  const AT_SIGN: byte := 0x40
  /** "reg" */
  const REG: seq<byte> := [0x72, 0x65, 0x67]
  /** "#address-cells" */
  const ADDRESS_CELLS: seq<byte> :=
    [0x23, 0x61, 0x64, 0x64, 0x72, 0x65, 0x73, 0x73, 0x2d, 0x63, 0x65, 0x6c, 0x6c, 0x73]
  /** "#size-cells" */
  const SIZE_CELLS: seq<byte> := [0x23, 0x73, 0x69, 0x7a, 0x65, 0x2d, 0x63, 0x65, 0x6c, 0x6c, 0x73]

  /** "memory" or "memory@" and a unit address. */
  predicate IsMemoryName(name: seq<byte>) {
    MEMORY <= name && (|name| == 6 || name[6] == AT_SIGN)
  }

  /** The property name at an offset of the strings block, if it is terminated there. */
  function Resolve(strs: seq<byte>, off: nat): Option<seq<byte>> {
    if off < |strs| && NulIndex(strs, off) < |strs| then Some(strs[off..NulIndex(strs, off)]) else None
  }

  predicate Called(strs: seq<byte>, p: PropItem, name: seq<byte>) {
    p.Property? && Resolve(strs, p.nameOff) == Some(name)
  }

  // ---- The query --------------------------------------------------------------

  datatype Cells = Cells(address: u32, size: u32)

  /** Section 2.3.5: without the properties, two address cells and one size cell. */
  const DEFAULT_CELLS: Cells := Cells(2, 1)

  function CellsOfItem(strs: seq<byte>, p: PropItem, c: Cells): Cells {
    if p.Property? && |p.value| == 4 && Resolve(strs, p.nameOff) == Some(ADDRESS_CELLS)
    then c.(address := DecodeBE32(p.value))
    else if p.Property? && |p.value| == 4 && Resolve(strs, p.nameOff) == Some(SIZE_CELLS)
    then c.(size := DecodeBE32(p.value))
    else c
  }

  /** The cell counts a property list declares, starting from `c`. */
  function CellsOf(strs: seq<byte>, ps: seq<PropItem>, c: Cells): Cells {
    if ps == [] then c else CellsOf(strs, ps[1..], CellsOfItem(strs, ps[0], c))
  }

  /** The value of the first property called "reg". */
  function RegOf(strs: seq<byte>, ps: seq<PropItem>): Option<seq<byte>> {
    if ps == [] then None
    else if Called(strs, ps[0], REG) then Some(ps[0].value)
    else RegOf(strs, ps[1..])
  }

  /** The "reg" of the first memory node among siblings that has one. Children of the
      siblings are not looked at. */
  function MemoryReg(strs: seq<byte>, f: Forest): Option<seq<byte>> {
    match f
    case NoKids => None
    case KidNop(rest) => MemoryReg(strs, rest)
    case Kid(n, rest) =>
      if IsMemoryName(n.name) && RegOf(strs, n.props).Some? then RegOf(strs, n.props)
      else MemoryReg(strs, rest)
  }

  /** `count` big-endian cells as one number. */
  function CellValue(value: seq<byte>, at: nat, count: nat): nat
    requires at + 4 * count <= |value|
  {
    if count == 0 then 0
    else CellValue(value, at, count - 1) * 0x1_0000_0000 + DecodeBE32(value[at + 4 * (count - 1)..at + 4 * count])
  }

  datatype Region = Region(base: nat, size: nat)

  /** A single base and size pair with one or two cells each. */
  function DecodeReg(value: seq<byte>, c: Cells): Option<Region> {
    if 1 <= c.address <= 2 && 1 <= c.size <= 2 && |value| == 4 * (c.address + c.size)
    then Some(Region(CellValue(value, 0, c.address), CellValue(value, 4 * c.address, c.size)))
    else None
  }

  /** The memory region a tree describes: section 3.4, with the root's cell counts. */
  function MemoryOf(strs: seq<byte>, root: Node): Option<Region> {
    match MemoryReg(strs, root.kids)
    case None => None
    case Some(value) => DecodeReg(value, CellsOf(strs, root.props, DEFAULT_CELLS))
  }
}
