/** The walker computes the memory query of every well-formed tree. */
module FdtProof {
  import opened Bytes
  import opened FdtTree
  import opened FdtWalker

  // ---- One record at a time ---------------------------------------------------

  lemma TokenStep(tok: u32, t: seq<byte>)
    ensures (EncodeBE32(tok) + t)[..4] == EncodeBE32(tok) && (EncodeBE32(tok) + t)[4..] == t
    ensures DecodeBE32((EncodeBE32(tok) + t)[..4]) == tok
  {
    BE32RoundTrip(tok);
  }

  lemma NopStep(t: seq<byte>, strs: seq<byte>, w: Walking)
    ensures Walk(EncodeBE32(NOP) + t, strs, w) == Walk(t, strs, w)
  {
    TokenStep(NOP, t);
  }

  lemma EndStep(t: seq<byte>, strs: seq<byte>, w: Walking)
    ensures Walk(EncodeBE32(END_NODE) + t, strs, w) == Walk(t, strs, Leave(w))
  {
    TokenStep(END_NODE, t);
  }

  lemma NameStep(name: seq<byte>, t: seq<byte>, strs: seq<byte>, w: Walking)
    requires 0 !in name
    ensures Walk(EncodeBE32(BEGIN_NODE) + (Padded(name + [0]) + t), strs, w) == Walk(t, strs, Enter(w, name))
  {
    var u := Padded(name + [0]) + t;
    var s := EncodeBE32(BEGIN_NODE) + u;
    TokenStep(BEGIN_NODE, u);
    assert s[4..4 + |name|] == name && s[4 + |name|] == 0;
    NulIndexIs(s, 4, 4 + |name|);
    assert s[BeginSize(4 + |name|)..] == t;
    BeginStep(s, strs, w);
  }

  lemma NulIndexIs(s: seq<byte>, from: nat, k: nat)
    requires from <= k < |s| && s[k] == 0 && forall i :: from <= i < k ==> s[i] != 0
    ensures NulIndex(s, from) == k
  {
  }

  lemma PropertyStep(p: PropItem, t: seq<byte>, strs: seq<byte>, w: Walking)
    requires p.Property? && |p.value| < 0x1_0000_0000
    ensures Walk(PrintItem(p) + t, strs, w) ==
            if IsAnswer(w, strs, p) then DecodeReg(p.value, w.cells) else Walk(t, strs, Note(w, strs, p))
  {
    hide PrintItem, Align4, Called, CellsOfItem, DecodeReg;
    PropertyLayout(p, t);
    BE32RoundTrip(PROP);
    BE32RoundTrip(|p.value|);
    BE32RoundTrip(p.nameOff);
  }

  lemma PropertyLayout(p: PropItem, t: seq<byte>)
    requires p.Property? && |p.value| < 0x1_0000_0000
    ensures var s := PrintItem(p) + t;
            && PropSize(|p.value|) <= |s| && s[PropSize(|p.value|)..] == t
            && s[..4] == EncodeBE32(PROP) && s[4..8] == EncodeBE32(|p.value|) && s[8..12] == EncodeBE32(p.nameOff)
            && s[12..12 + |p.value|] == p.value
  {
    hide EncodeBE32;
    var a, b, c, v := EncodeBE32(PROP), EncodeBE32(|p.value|), EncodeBE32(p.nameOff), Padded(p.value);
    assert PrintItem(p) + t == a + b + c + v + t;
    assert |a| == |b| == |c| == 4;
    assert v[..|p.value|] == p.value;
  }

  // ---- Property lists ---------------------------------------------------------

  lemma Assoc(a: seq<byte>, b: seq<byte>, c: seq<byte>)
    ensures (a + b) + c == a + (b + c)
  {
  }

  lemma PropsUnroll(ps: seq<PropItem>, t: seq<byte>)
    requires PropsOk(ps) && ps != []
    ensures PropsOk(ps[1..]) && PrintProps(ps) + t == PrintItem(ps[0]) + (PrintProps(ps[1..]) + t)
  {
    Assoc(PrintItem(ps[0]), PrintProps(ps[1..]), t);
  }

  /** Below the children of the root, properties change nothing. */
  lemma {:induction false} DeepProps(ps: seq<PropItem>, t: seq<byte>, strs: seq<byte>, w: Walking)
    requires PropsOk(ps) && w.depth >= 2 && !w.inMemory
    ensures Walk(PrintProps(ps) + t, strs, w) == Walk(t, strs, w)
  {
    hide Walk, PrintItem, DecodeReg, Called;
    if ps == [] {
      assert PrintProps(ps) + t == t;
    } else {
      PropsUnroll(ps, t);
      if ps[0].PropNop? {
        NopItem(PrintProps(ps[1..]) + t, strs, w);
      } else {
        PropertyStep(ps[0], PrintProps(ps[1..]) + t, strs, w);
      }
      DeepProps(ps[1..], t, strs, w);
    }
  }

  lemma NopItem(t: seq<byte>, strs: seq<byte>, w: Walking)
    ensures Walk(PrintItem(PropNop) + t, strs, w) == Walk(t, strs, w)
  {
    NopStep(t, strs, w);
  }

  /** In a memory node the first "reg" decides. */
  lemma {:induction false} MemoryProps(ps: seq<PropItem>, t: seq<byte>, strs: seq<byte>, w: Walking)
    requires PropsOk(ps) && w.inMemory
    ensures Walk(PrintProps(ps) + t, strs, w) ==
            match RegOf(strs, ps)
            case Some(value) => DecodeReg(value, w.cells)
            case None => Walk(t, strs, w)
  {
    hide Walk, PrintItem, DecodeReg, Resolve;
    if ps == [] {
      assert PrintProps(ps) + t == t;
    } else {
      PropsUnroll(ps, t);
      if ps[0].PropNop? {
        NopItem(PrintProps(ps[1..]) + t, strs, w);
      } else {
        PropertyStep(ps[0], PrintProps(ps[1..]) + t, strs, w);
      }
      MemoryProps(ps[1..], t, strs, w);
    }
  }

  /** The root's properties set the cell counts. */
  lemma {:induction false} RootProps(ps: seq<PropItem>, t: seq<byte>, strs: seq<byte>, w: Walking)
    requires PropsOk(ps) && w.depth == 1 && !w.inMemory
    ensures Walk(PrintProps(ps) + t, strs, w) == Walk(t, strs, w.(cells := CellsOf(strs, ps, w.cells)))
  {
    hide Walk, PrintItem, DecodeReg, Resolve, CellsOfItem;
    if ps == [] {
      assert PrintProps(ps) + t == t;
    } else {
      PropsUnroll(ps, t);
      if ps[0].PropNop? {
        NopItem(PrintProps(ps[1..]) + t, strs, w);
        NopCells(strs, w.cells);
        RootProps(ps[1..], t, strs, w);
      } else {
        PropertyStep(ps[0], PrintProps(ps[1..]) + t, strs, w);
        RootProps(ps[1..], t, strs, w.(cells := CellsOfItem(strs, ps[0], w.cells)));
      }
    }
  }

  lemma NopCells(strs: seq<byte>, c: Cells)
    ensures CellsOfItem(strs, PropNop, c) == c
  {
  }

  // ---- Nodes ------------------------------------------------------------------

  /** The walk of a node starts with its name, and its properties, children and end follow. */
  lemma NodeUnroll(n: Node, t: seq<byte>, strs: seq<byte>, w: Walking)
    requires NodeOk(n)
    ensures Walk(PrintNode(n) + t, strs, w) ==
            Walk(PrintProps(n.props) + (PrintForest(n.kids) + (EncodeBE32(END_NODE) + t)), strs, Enter(w, n.name))
  {
    hide Walk, EncodeBE32, Padded, PrintProps, PrintForest;
    var u := PrintProps(n.props) + (PrintForest(n.kids) + (EncodeBE32(END_NODE) + t));
    assert PrintNode(n) + t == EncodeBE32(BEGIN_NODE) + (Padded(n.name + [0]) + u);
    NameStep(n.name, u, strs, w);
  }

  /** Below the root's children a whole node is skipped. */
  lemma {:induction false} DeepNode(n: Node, t: seq<byte>, strs: seq<byte>, w: Walking)
    requires NodeOk(n) && w.depth >= 2
    ensures Walk(PrintNode(n) + t, strs, w) == Walk(t, strs, w.(inMemory := false))
    decreases n
  {
    hide Walk, PrintNode, PrintProps, PrintForest;
    NodeUnroll(n, t, strs, w);
    DeepProps(n.props, PrintForest(n.kids) + (EncodeBE32(END_NODE) + t), strs, Enter(w, n.name));
    DeepForest(n.kids, t, strs, Enter(w, n.name));
  }

  /** Children of a child of the root, or deeper ones, are skipped with the end of their parent. */
  lemma {:induction false} DeepForest(f: Forest, t: seq<byte>, strs: seq<byte>, w: Walking)
    requires ForestOk(f) && w.depth >= 2
    ensures Walk(PrintForest(f) + (EncodeBE32(END_NODE) + t), strs, w) == Walk(t, strs, Leave(w))
    decreases f
  {
    hide Walk, PrintNode;
    var u := EncodeBE32(END_NODE) + t;
    match f {
      case NoKids =>
        assert PrintForest(f) + u == u;
        EndStep(t, strs, w);
      case KidNop(rest) =>
        Assoc(EncodeBE32(NOP), PrintForest(rest), u);
        NopStep(PrintForest(rest) + u, strs, w);
        DeepForest(rest, t, strs, w);
      case Kid(n, rest) =>
        Assoc(PrintNode(n), PrintForest(rest), u);
        DeepNode(n, PrintForest(rest) + u, strs, w);
        DeepForest(rest, t, strs, w.(inMemory := false));
    }
  }

  /** A child of the root answers when it is a memory node with a "reg". */
  lemma {:induction false} RootChild(n: Node, t: seq<byte>, strs: seq<byte>, w: Walking)
    requires NodeOk(n) && w.depth == 1 && !w.inMemory
    ensures Walk(PrintNode(n) + t, strs, w) ==
            if IsMemoryName(n.name) && RegOf(strs, n.props).Some? then DecodeReg(RegOf(strs, n.props).value, w.cells)
            else Walk(t, strs, w)
  {
    hide Walk, PrintNode, PrintProps, PrintForest, IsMemoryName, RegOf, DecodeReg;
    var w' := Enter(w, n.name);
    NodeUnroll(n, t, strs, w);
    var u := PrintForest(n.kids) + (EncodeBE32(END_NODE) + t);
    if IsMemoryName(n.name) {
      MemoryProps(n.props, u, strs, w');
    } else {
      DeepProps(n.props, u, strs, w');
    }
    DeepForest(n.kids, t, strs, w');
  }

  lemma {:induction false} RootForest(f: Forest, t: seq<byte>, strs: seq<byte>, w: Walking)
    requires ForestOk(f) && w.depth == 1 && !w.inMemory
    ensures Walk(PrintForest(f) + (EncodeBE32(END_NODE) + t), strs, w) ==
            match MemoryReg(strs, f)
            case Some(value) => DecodeReg(value, w.cells)
            case None => Walk(t, strs, Leave(w))
  {
    hide Walk, PrintNode, IsMemoryName, RegOf, DecodeReg;
    var u := EncodeBE32(END_NODE) + t;
    match f {
      case NoKids =>
        assert PrintForest(f) + u == u;
        EndStep(t, strs, w);
      case KidNop(rest) =>
        Assoc(EncodeBE32(NOP), PrintForest(rest), u);
        NopStep(PrintForest(rest) + u, strs, w);
        RootForest(rest, t, strs, w);
      case Kid(n, rest) =>
        Assoc(PrintNode(n), PrintForest(rest), u);
        RootChild(n, PrintForest(rest) + u, strs, w);
        RootForest(rest, t, strs, w);
    }
  }

  // ---- Blocks that are not printed trees -----------------------------------------

  lemma NoNul(s: seq<byte>, from: nat)
    requires from <= |s| && 0 !in s[from..]
    ensures NulIndex(s, from) == |s|
  {
    forall i | from <= i < |s|
      ensures s[i] != 0
    {
      assert s[i] == s[from..][i - from];
    }
  }

  /** A token that is none of the five stops the walk without an answer, and so does a property
      that does not fit the block, a name that does not, and the end of the block. */
  lemma Malformed(s: seq<byte>, strs: seq<byte>, w: Walking)
    ensures |s| < 4 ==> Walk(s, strs, w) == None
    ensures |s| >= 4 && BigEndian(s[..4]) !in {1, 2, 3, 4} ==> Walk(s, strs, w) == None
    ensures |s| >= 4 && BigEndian(s[..4]) == 3 && (|s| < 12 || 12 + BigEndian(s[4..8]) > |s|) ==> Walk(s, strs, w) == None
    ensures |s| >= 4 && BigEndian(s[..4]) == 1 && 0 !in s[4..] ==> Walk(s, strs, w) == None
  {
    hide BigEndian, DecodeBE32;
    if |s| >= 4 {
      WordOrder(s[..4]);
      if |s| >= 12 {
        WordOrder(s[4..8]);
      }
      if 0 !in s[4..] {
        NoNul(s, 4);
      }
    }
  }

  // ---- Whole blocks -----------------------------------------------------------

  lemma {:induction false} WalkNops(k: nat, t: seq<byte>, strs: seq<byte>, w: Walking)
    ensures Walk(Nops(k) + t, strs, w) == Walk(t, strs, w)
  {
    hide Walk;
    if k == 0 {
      assert Nops(k) + t == t;
    } else {
      Assoc(EncodeBE32(NOP), Nops(k - 1), t);
      NopStep(Nops(k - 1) + t, strs, w);
      WalkNops(k - 1, t, strs, w);
    }
  }

  /** Device tree correctness: on every printed tree the walker returns the region that the
      first memory node with a "reg" among the root's children describes. */
  lemma WalkTree(root: Node, before: nat, after: nat, junk: seq<byte>, strs: seq<byte>)
    requires NodeOk(root)
    ensures Walk(PrintTree(root, before, after, junk), strs, START) == MemoryOf(strs, root)
  {
    hide PrintNode, PrintProps, PrintForest, Nops, MemoryReg, CellsOf, DecodeReg;
    var tail := EncodeBE32(END) + junk;
    var t := Nops(after) + tail;
    var w := Enter(START, root.name);
    var w' := w.(cells := CellsOf(strs, root.props, w.cells));
    WalkNops(before, PrintNode(root) + t, strs, START);
    NodeUnroll(root, t, strs, START);
    RootProps(root.props, PrintForest(root.kids) + (EncodeBE32(END_NODE) + t), strs, w);
    RootForest(root.kids, t, strs, w');
    WalkNops(after, tail, strs, Leave(w'));
    TokenStep(END, junk);
  }

  /** The same for a blob whose header places the printed tree and the strings block. */
  method FindMemory(mem: seq<byte>, size: u32, ghost root: Node, ghost before: nat, ghost after: nat, ghost junk: seq<byte>)
    returns (r: Option<Region>)
    requires HEADER_SIZE <= |mem| && size <= |mem| && BlocksInside(mem, size) && NodeOk(root)
    requires mem[HeaderField(mem, 8)..HeaderField(mem, 8) + HeaderField(mem, 36)] == PrintTree(root, before, after, junk)
    ensures r == MemoryOf(mem[HeaderField(mem, 12)..HeaderField(mem, 12) + HeaderField(mem, 32)], root)
  {
    hide Walk, PrintTree, MemoryOf, HeaderField;
    WalkTree(root, before, after, junk, mem[HeaderField(mem, 12)..HeaderField(mem, 12) + HeaderField(mem, 32)]);
    r := DtbMemory(mem, size);
  }
}
