/** Bytes, 32-bit words and the two byte orders used on the wire and on disk. */
module Bytes {

  type byte = x: int | 0 <= x < 0x100

  type u32 = x: int | 0 <= x < 0x1_0000_0000

  /** Unsigned 32-bit addition. */
  function Add32(a: nat, b: nat): u32 {
    (a + b) % 0x1_0000_0000
  }

  lemma NoWrap(a: nat, b: nat)
    requires a + b < 0x1_0000_0000
    ensures Add32(a, b) == a + b
  {
  }

  datatype Option<T> = None | Some(value: T)

  datatype Result<T, E> = Ok(value: T) | Err(error: E)

  function EncodeLE32(v: u32): (s: seq<byte>)
    ensures |s| == 4
  {
    [v % 0x100, v / 0x100 % 0x100, v / 0x100 / 0x100 % 0x100, v / 0x100 / 0x100 / 0x100]
  }

  function DecodeLE32(s: seq<byte>): u32
    requires |s| == 4
  {
    s[0] as int + 0x100 * s[1] as int + 0x1_0000 * s[2] as int + 0x100_0000 * s[3] as int
  }

  lemma LE32RoundTrip(v: u32)
    ensures DecodeLE32(EncodeLE32(v)) == v
  {
  }

  function EncodeBE32(v: u32): (s: seq<byte>)
    ensures |s| == 4
  {
    [v / 0x100 / 0x100 / 0x100, v / 0x100 / 0x100 % 0x100, v / 0x100 % 0x100, v % 0x100]
  }

  function DecodeBE32(s: seq<byte>): u32
    requires |s| == 4
  {
    0x100_0000 * s[0] as int + 0x1_0000 * s[1] as int + 0x100 * s[2] as int + s[3] as int
  }

  lemma BE32RoundTrip(v: u32)
    ensures DecodeBE32(EncodeBE32(v)) == v
  {
  }

  // ---- Numbers as bytes --------------------------------------------------------

  /** The number that bytes spell, most significant first. */
  function BigEndian(s: seq<byte>): nat {
    if s == [] then 0 else BigEndian(s[..|s| - 1]) * 0x100 + s[|s| - 1]
  }

  /** The number that bytes spell, least significant first. */
  function LittleEndian(s: seq<byte>): nat {
    if s == [] then 0 else s[0] + 0x100 * LittleEndian(s[1..])
  }

  /** The `k` low bytes of a number, most significant first. */
  function Digits(v: nat, k: nat): (s: seq<byte>)
    ensures |s| == k
  {
    if k == 0 then [] else Digits(v / 0x100, k - 1) + [v % 0x100]
  }

  /** How many numbers `k` bytes can spell. */
  function Range(k: nat): nat {
    if k == 0 then 1 else 0x100 * Range(k - 1)
  }

  /** Writing a number and reading it are inverse, both ways. */
  lemma {:induction false} DigitsExact(v: nat, s: seq<byte>)
    ensures BigEndian(s) < Range(|s|)
    ensures v == BigEndian(s) <==> v < Range(|s|) && s == Digits(v, |s|)
    decreases |s|
  {
    if s != [] {
      var n := |s| - 1;
      DigitsExact(v / 0x100, s[..n]);
      assert s == s[..n] + [s[n]];
      assert v < Range(|s|) <==> v / 0x100 < Range(n);
      assert Digits(v, |s|)[..n] == Digits(v / 0x100, n);
    }
  }

  /** The two 32-bit codecs are the two byte orders. */
  lemma WordOrder(s: seq<byte>)
    requires |s| == 4
    ensures DecodeBE32(s) == BigEndian(s) && DecodeLE32(s) == LittleEndian(s)
  {
    assert s[..3][..2] == s[..2] && s[..2][..1] == s[..1] && s[..1][..0] == [];
    assert BigEndian(s[..1]) == s[0] && BigEndian(s[..2]) == BigEndian(s[..1]) * 0x100 + s[1];
    assert BigEndian(s[..3]) == BigEndian(s[..2]) * 0x100 + s[2];
    assert s[1..][1..] == s[2..] && s[2..][1..] == s[3..] && s[3..][1..] == [];
    assert LittleEndian(s[3..]) == s[3] && LittleEndian(s[2..]) == s[2] + 0x100 * LittleEndian(s[3..]);
    assert LittleEndian(s[1..]) == s[1] + 0x100 * LittleEndian(s[2..]);
  }

  /** The characters of a string literal, one byte each. */
  function Ascii(t: string): (s: seq<byte>)
    requires forall i :: 0 <= i < |t| ==> t[i] < 128 as char
    ensures |s| == |t|
  {
    seq(|t|, i requires 0 <= i < |t| => t[i] as int)
  }

  /** Index of the first NUL at or after `from`, or the length when there is none. */
  function NulIndex(s: seq<byte>, from: nat := 0): (r: nat)
    requires from <= |s|
    ensures from <= r <= |s| && (r < |s| ==> s[r] == 0)
    ensures forall i :: from <= i < r ==> s[i] != 0
    decreases |s| - from
  {
    if from == |s| || s[from] == 0 then from else NulIndex(s, from + 1)
  }

  /** The bytes before the first NUL: what a C string function sees. */
  function CString(s: seq<byte>): (r: seq<byte>)
    ensures 0 !in r
  {
    s[..NulIndex(s)]
  }

  /** A NUL-free prefix that is followed by a NUL is the C string. */
  lemma CStringIs(s: seq<byte>, r: seq<byte>)
    requires |r| < |s| && r == s[..|r|] && 0 !in r && s[|r|] == 0
    ensures CString(s) == r
  {
    assert NulIndex(s) == |r|;
  }
}
