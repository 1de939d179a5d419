/** What the memory query means, in terms of the bytes a tree is printed with. */
module FdtMeaning {
  import opened Bytes
  import opened FdtTree
  import opened FdtWalker
  import opened FdtProof

  // ---- Names ------------------------------------------------------------------

  lemma NamesSpelled()
    ensures MEMORY == Ascii("memory") && REG == Ascii("reg")
    ensures ADDRESS_CELLS == Ascii("#address-cells") && SIZE_CELLS == Ascii("#size-cells")
  {
  }

  /** A memory node is called "memory", with or without a unit address. */
  lemma MemoryNameMeans(name: seq<byte>)
    ensures IsMemoryName(name) <==> name == Ascii("memory") || Ascii("memory@") <= name
  {
    NamesSpelled();
    assert Ascii("memory@") == MEMORY + [AT_SIGN];
    if IsMemoryName(name) && |name| > 6 {
      assert name[..7] == MEMORY + [AT_SIGN];
    }
  }

  /** A terminated string in the strings block is found at its offset. */
  lemma ResolvePrinted(before: seq<byte>, name: seq<byte>, after: seq<byte>)
    requires 0 !in name
    ensures Resolve(before + name + [0] + after, |before|) == Some(name)
  {
    var s := before + name + [0] + after;
    NulIndexIs(s, |before|, |before| + |name|);
    assert s[|before|..|before| + |name|] == name;
  }

  // ---- Cells ------------------------------------------------------------------

  /** The `n` big-endian cells of a number. */
  function PrintCells(v: nat, n: nat): seq<byte> {
    Digits(v, 4 * n)
  }

  lemma {:induction false} BigEndianJoin(a: seq<byte>, b: seq<byte>)
    ensures BigEndian(a + b) == BigEndian(a) * Range(|b|) + BigEndian(b)
    decreases |b|
  {
    if b == [] {
      assert a + b == a;
    } else {
      var n := |b| - 1;
      BigEndianJoin(a, b[..n]);
      assert (a + b)[..|a + b| - 1] == a + b[..n];
      Shifted(BigEndian(a), Range(n), BigEndian(b[..n]));
    }
  }

  lemma Shifted(x: nat, r: nat, y: nat)
    ensures (x * r + y) * 0x100 == x * (0x100 * r) + y * 0x100
  {
  }

  lemma NoBytes(s: seq<byte>)
    requires s == []
    ensures BigEndian(s) == 0
  {
  }

  lemma FourBytes()
    ensures Range(4) == 0x1_0000_0000
  {
    assert Range(1) == 0x100 && Range(2) == 0x1_0000 && Range(3) == 0x100_0000;
  }

  /** Cells are the big-endian number of their bytes. */
  lemma {:induction false} CellValueIs(value: seq<byte>, at: nat, n: nat)
    requires at + 4 * n <= |value|
    ensures CellValue(value, at, n) == BigEndian(value[at..at + 4 * n])
  {
    hide DecodeBE32, BigEndian;
    if n == 0 {
      NoBytes(value[at..at]);
    } else {
      var lo, hi := at + 4 * (n - 1), at + 4 * n;
      CellValueIs(value, at, n - 1);
      WordOrder(value[lo..hi]);
      BigEndianJoin(value[at..lo], value[lo..hi]);
      assert value[at..hi] == value[at..lo] + value[lo..hi];
      FourBytes();
      hide Range;
    }
  }

  /** A "reg" is decoded to base and size if and only if it is the base, printed in the address
      cells, followed by the size, printed in the size cells. */
  lemma RegMeans(value: seq<byte>, c: Cells, base: nat, size: nat)
    ensures DecodeReg(value, c) == Some(Region(base, size)) <==>
            && 1 <= c.address <= 2 && 1 <= c.size <= 2
            && base < Range(4 * c.address) && size < Range(4 * c.size)
            && value == PrintCells(base, c.address) + PrintCells(size, c.size)
  {
    hide BigEndian, Digits, Range, CellValue;
    if |value| == 4 * (c.address + c.size) {
      var k := 4 * c.address;
      var a, b := value[..k], value[k..];
      assert value == a + b && value[0..k] == a && value[k..k + 4 * c.size] == b;
      CellValueIs(value, 0, c.address);
      CellValueIs(value, k, c.size);
      DigitsExact(base, a);
      DigitsExact(size, b);
      var pa, pb := PrintCells(base, c.address), PrintCells(size, c.size);
      assert value == pa + pb ==> a == pa && b == pb;
    }
  }

  // ---- Which property sets which count -----------------------------------------

  /** The property sets the count of that name to `n`. */
  predicate Sets(strs: seq<byte>, p: PropItem, name: seq<byte>, n: nat) {
    Called(strs, p, name) && |p.value| == 4 && BigEndian(p.value) == n
  }

  /** Either the last one-cell property of that name sets `n`, or there is none and `n` is the
      default. */
  ghost predicate Declared(strs: seq<byte>, ps: seq<PropItem>, name: seq<byte>, default: nat, n: nat) {
    || (n == default && forall i, m :: 0 <= i < |ps| ==> !Sets(strs, ps[i], name, m))
    || (exists i :: && 0 <= i < |ps| && Sets(strs, ps[i], name, n)
                    && forall j, m :: i < j < |ps| ==> !Sets(strs, ps[j], name, m))
  }

  lemma OneCell(strs: seq<byte>, p: PropItem, c: Cells)
    ensures var d := CellsOfItem(strs, p, c);
            && (Sets(strs, p, ADDRESS_CELLS, d.address) || (d.address == c.address && forall m :: !Sets(strs, p, ADDRESS_CELLS, m)))
            && (Sets(strs, p, SIZE_CELLS, d.size) || (d.size == c.size && forall m :: !Sets(strs, p, SIZE_CELLS, m)))
  {
    hide Resolve, DecodeBE32, BigEndian;
    if p.Property? && |p.value| == 4 {
      WordOrder(p.value);
    }
    assert ADDRESS_CELLS != SIZE_CELLS;
  }

  lemma DeclaredStep(strs: seq<byte>, ps: seq<PropItem>, name: seq<byte>, c: nat, d: nat, n: nat)
    requires ps != [] && Declared(strs, ps[1..], name, d, n)
    requires Sets(strs, ps[0], name, d) || (d == c && forall m :: !Sets(strs, ps[0], name, m))
    ensures Declared(strs, ps, name, c, n)
  {
    hide Sets;
    var t := ps[1..];
    if i :| && 0 <= i < |t| && Sets(strs, t[i], name, n)
            && forall j, m :: i < j < |t| ==> !Sets(strs, t[j], name, m) {
      forall j, m | i + 1 < j < |ps|
        ensures !Sets(strs, ps[j], name, m)
      {
        assert ps[j] == t[j - 1];
      }
      assert Sets(strs, ps[i + 1], name, n);
    } else {
      forall j, m | 0 < j < |ps|
        ensures !Sets(strs, ps[j], name, m)
      {
        assert ps[j] == t[j - 1];
      }
    }
  }

  /** "#address-cells" sets the address cells and "#size-cells" the size cells. */
  lemma {:induction false} CellsMean(strs: seq<byte>, ps: seq<PropItem>, c: Cells)
    ensures Declared(strs, ps, Ascii("#address-cells"), c.address, CellsOf(strs, ps, c).address)
    ensures Declared(strs, ps, Ascii("#size-cells"), c.size, CellsOf(strs, ps, c).size)
    decreases |ps|
  {
    hide CellsOfItem, Sets;
    NamesSpelled();
    if ps != [] {
      var d := CellsOfItem(strs, ps[0], c);
      OneCell(strs, ps[0], c);
      CellsMean(strs, ps[1..], d);
      DeclaredStep(strs, ps, ADDRESS_CELLS, c.address, d.address, CellsOf(strs, ps, c).address);
      DeclaredStep(strs, ps, SIZE_CELLS, c.size, d.size, CellsOf(strs, ps, c).size);
    }
  }

  lemma DeclaredOnce(strs: seq<byte>, ps: seq<PropItem>, name: seq<byte>, default: nat, n: nat, m: nat)
    requires Declared(strs, ps, name, default, n) && Declared(strs, ps, name, default, m)
    ensures n == m
  {
  }

  // ---- The tree ---------------------------------------------------------------

  /** The first property called "reg" of the first child of the root that is a memory node
      and has one is `value`. */
  ghost predicate FirstReg(strs: seq<byte>, f: Forest, value: seq<byte>) {
    match f
    case NoKids => false
    case KidNop(rest) => FirstReg(strs, rest, value)
    case Kid(n, rest) =>
      if (n.name == Ascii("memory") || Ascii("memory@") <= n.name) && exists i :: 0 <= i < |n.props| && Called(strs, n.props[i], Ascii("reg"))
      then exists i :: && 0 <= i < |n.props| && Called(strs, n.props[i], Ascii("reg")) && n.props[i].value == value
                       && forall j :: 0 <= j < i ==> !Called(strs, n.props[j], Ascii("reg"))
      else FirstReg(strs, rest, value)
  }

  lemma {:induction false} RegOfMeans(strs: seq<byte>, ps: seq<PropItem>)
    ensures match RegOf(strs, ps)
            case None => forall i :: 0 <= i < |ps| ==> !Called(strs, ps[i], REG)
            case Some(value) => exists i :: && 0 <= i < |ps| && Called(strs, ps[i], REG) && ps[i].value == value
                                            && forall j :: 0 <= j < i ==> !Called(strs, ps[j], REG)
    decreases |ps|
  {
    hide Resolve;
    if ps != [] && !Called(strs, ps[0], REG) {
      var t := ps[1..];
      RegOfMeans(strs, t);
      match RegOf(strs, t) {
        case None =>
          forall i | 0 <= i < |ps|
            ensures !Called(strs, ps[i], REG)
          {
            assert i > 0 ==> ps[i] == t[i - 1];
          }
        case Some(value) =>
          var k :| && 0 <= k < |t| && Called(strs, t[k], REG) && t[k].value == value
                   && forall j :: 0 <= j < k ==> !Called(strs, t[j], REG);
          forall j | 0 <= j < k + 1
            ensures !Called(strs, ps[j], REG)
          {
            assert j > 0 ==> ps[j] == t[j - 1];
          }
          assert ps[k + 1] == t[k];
      }
    }
  }

  lemma {:induction false} FirstRegIs(strs: seq<byte>, f: Forest, value: seq<byte>)
    ensures FirstReg(strs, f, value) <==> MemoryReg(strs, f) == Some(value)
    decreases f
  {
    hide Called, IsMemoryName;
    NamesSpelled();
    match f {
      case NoKids =>
      case KidNop(rest) => FirstRegIs(strs, rest, value);
      case Kid(n, rest) =>
        MemoryNameMeans(n.name);
        RegOfMeans(strs, n.props);
        FirstRegIs(strs, rest, value);
    }
  }

  /** What the query answers: the region is (base, size) if and only if the first memory node
      with a "reg" has that pair printed in it, base first, in as many cells each as the root
      declares, or two and one where it declares nothing. */
  lemma QueryMeans(strs: seq<byte>, root: Node, base: nat, size: nat)
    ensures MemoryOf(strs, root) == Some(Region(base, size)) <==>
            exists a: u32, s: u32 ::
              && Declared(strs, root.props, Ascii("#address-cells"), 2, a)
              && Declared(strs, root.props, Ascii("#size-cells"), 1, s)
              && 1 <= a <= 2 && 1 <= s <= 2 && base < Range(4 * a) && size < Range(4 * s)
              && FirstReg(strs, root.kids, PrintCells(base, a) + PrintCells(size, s))
  {
    hide Declared, FirstReg, MemoryReg, DecodeReg, PrintCells, Range, CellsOf;
    var c := CellsOf(strs, root.props, DEFAULT_CELLS);
    CellsMean(strs, root.props, DEFAULT_CELLS);
    FirstRegIs(strs, root.kids, PrintCells(base, c.address) + PrintCells(size, c.size));
    match MemoryReg(strs, root.kids) {
      case None =>
      case Some(value) => RegMeans(value, c, base, size);
    }
    if a: u32, s: u32 :|
        && Declared(strs, root.props, Ascii("#address-cells"), 2, a)
        && Declared(strs, root.props, Ascii("#size-cells"), 1, s)
        && 1 <= a <= 2 && 1 <= s <= 2 && base < Range(4 * a) && size < Range(4 * s)
        && FirstReg(strs, root.kids, PrintCells(base, a) + PrintCells(size, s)) {
      DeclaredOnce(strs, root.props, Ascii("#address-cells"), 2, a, c.address);
      DeclaredOnce(strs, root.props, Ascii("#size-cells"), 1, s, c.size);
      RegMeans(PrintCells(base, a) + PrintCells(size, s), c, base, size);
    }
  }

  /** The round trip: a region printed into the memory node of a tree is what the walk over the
      printed tree finds. */
  lemma WalkFindsPrinted(strs: seq<byte>, root: Node, a: u32, s: u32, base: nat, size: nat, before: nat, after: nat, junk: seq<byte>)
    requires NodeOk(root) && 1 <= a <= 2 && 1 <= s <= 2 && base < Range(4 * a) && size < Range(4 * s)
    requires Declared(strs, root.props, Ascii("#address-cells"), 2, a)
    requires Declared(strs, root.props, Ascii("#size-cells"), 1, s)
    requires FirstReg(strs, root.kids, PrintCells(base, a) + PrintCells(size, s))
    ensures Walk(PrintTree(root, before, after, junk), strs, START) == Some(Region(base, size))
  {
    hide Declared, FirstReg, MemoryOf, PrintCells, Range, Walk, PrintTree;
    QueryMeans(strs, root, base, size);
    WalkTree(root, before, after, junk, strs);
  }
}
