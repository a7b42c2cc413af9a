/** Bytes, fixed-width machine integers and their little-endian layout. */
module Bytes {

  newtype byte = x: int | 0 <= x < 256

  const TWO_63: int := 0x8000_0000_0000_0000
  const TWO_64: int := 0x1_0000_0000_0000_0000

  type u64 = x: int | 0 <= x < TWO_64
  type i64 = x: int | -TWO_63 <= x < TWO_63

  /** The two's complement reinterpretation of a signed 64-bit integer, and back. */
  function ToUnsigned(i: i64): (u: u64) {
    if i < 0 then i + TWO_64 else i
  }

  function ToSigned(u: u64): (i: i64) {
    if u < TWO_63 then u else u - TWO_64
  }

  function Pow256(n: nat): (p: nat)
    ensures p > 0
  {
    if n == 0 then 1 else 256 * Pow256(n - 1)
  }

  /** `width` bytes of `value`, least significant first; higher bytes are cut off. */
  function LittleEndian(width: nat, value: nat): (s: seq<byte>)
    ensures |s| == width
  {
    if width == 0 then [] else [(value % 256) as byte] + LittleEndian(width - 1, value / 256)
  }

  /** The number a little-endian byte string denotes. */
  function Number(s: seq<byte>): nat {
    if s == [] then 0 else s[0] as nat + 256 * Number(s[1..])
  }

  lemma {:induction false} NumberOfLittleEndian(width: nat, value: nat)
    requires value < Pow256(width)
    ensures Number(LittleEndian(width, value)) == value
  {
    if width > 0 {
      NumberOfLittleEndian(width - 1, value / 256);
    }
  }

  lemma {:induction false} LittleEndianOfNumber(s: seq<byte>)
    ensures Number(s) < Pow256(|s|)
    ensures LittleEndian(|s|, Number(s)) == s
  {
    if s != [] {
      LittleEndianOfNumber(s[1..]);
    }
  }

  lemma Widths()
    ensures Pow256(4) == 0x1_0000_0000
    ensures Pow256(8) == TWO_64
  {
    assert Pow256(4) == 256 * (256 * (256 * (256 * Pow256(0))));
    assert Pow256(8) == 256 * (256 * (256 * (256 * Pow256(4))));
  }

  /** Eight little-endian bytes carry every 64-bit number without loss, in both directions. */
  lemma Word64(value: u64, s: seq<byte>)
    requires |s| == 8
    ensures Number(LittleEndian(8, value)) == value
    ensures 0 <= Number(s) < TWO_64
    ensures LittleEndian(8, Number(s)) == s
  {
    Widths();
    NumberOfLittleEndian(8, value);
    LittleEndianOfNumber(s);
  }

  lemma SwapFactors(a: nat, b: nat, c: nat)
    ensures a * (b * c) == b * (a * c)
  {
  }

  lemma {:induction false} NumberSnoc(s: seq<byte>, b: byte)
    ensures Number(s + [b]) == Number(s) + b as nat * Pow256(|s|)
  {
    if s == [] {
      assert s + [b] == [b];
    } else {
      assert (s + [b])[1..] == s[1..] + [b];
      NumberSnoc(s[1..], b);
      SwapFactors(256, b as nat, Pow256(|s| - 1));
    }
  }

  /** The store loop of the record container: each round emits the low byte and shifts right by eight. */
  method Put(width: nat, value: nat) returns (s: seq<byte>)
    ensures s == LittleEndian(width, value)
  {
    s := [];
    var left := value;
    for i := 0 to width
      invariant s + LittleEndian(width - i, left) == LittleEndian(width, value)
    {
      s := s + [(left % 256) as byte];
      left := left / 256;
    }
  }

  /** The load loop: byte i enters at bit 8 * i. The bit ranges are disjoint, so the source's `|=` is an addition. */
  method Get(s: seq<byte>) returns (value: nat)
    ensures value == Number(s)
  {
    value := 0;
    var scale := 1;
    for i := 0 to |s|
      invariant scale == Pow256(i)
      invariant value == Number(s[..i])
    {
      assert s[..i + 1] == s[..i] + [s[i]];
      NumberSnoc(s[..i], s[i]);
      value := value + s[i] as nat * scale;
      scale := 256 * scale;
    }
    assert s[..|s|] == s;
  }
}
