/**
 The checksum of the record container: the reflected CRC-32 of section 8 of RFC 1952.
 A 32-bit machine word is modelled by its bits, bit 0 first.
 */
module Crc32 {
  import opened Bytes

  type Word = w: seq<bool> | |w| == 32 witness Zeros(32)

  function Zeros(n: nat): (z: seq<bool>)
    ensures |z| == n
  {
    seq(n, i => false)
  }

  function Xor(a: Word, b: Word): Word {
    seq(32, i requires 0 <= i < 32 => a[i] != b[i])
  }

  /** `a >> n` */
  function Right(a: Word, n: nat): Word
    requires n <= 32
  {
    a[n..] + Zeros(n)
  }

  /** Up to 32 bits widened to a word. */
  function Widen(bits: seq<bool>): Word
    requires |bits| <= 32
  {
    bits + Zeros(32 - |bits|)
  }

  /** The n low bits of a number, and the number some bits denote. */
  function Bits(n: nat, x: nat): (bits: seq<bool>)
    ensures |bits| == n
  {
    if n == 0 then [] else [x % 2 == 1] + Bits(n - 1, x / 2)
  }

  function FromBits(bits: seq<bool>): nat {
    if bits == [] then 0 else (if bits[0] then 1 else 0) + 2 * FromBits(bits[1..])
  }

  function ByteBits(b: byte): (bits: seq<bool>)
    ensures |bits| == 8
  {
    Bits(8, b as nat)
  }

  function MessageBits(message: seq<byte>): (bits: seq<bool>)
    ensures |bits| == 8 * |message|
  {
    if message == [] then [] else ByteBits(message[0]) + MessageBits(message[1..])
  }

  const POLYNOMIAL: Word := Bits(32, 0xEDB8_8320)

  const ALL_ONES: Word := Bits(32, 0xFFFF_FFFF)

  // ----- the reference: a shift register fed one message bit at a time, low bit first -----

  function FeedBit(state: Word, bit: bool): Word {
    if state[0] != bit then Xor(Right(state, 1), POLYNOMIAL) else Right(state, 1)
  }

  function FeedBits(state: Word, bits: seq<bool>): Word
    decreases |bits|
  {
    if bits == [] then state else FeedBits(FeedBit(state, bits[0]), bits[1..])
  }

  /** The register after a whole message. */
  function Crc(state: Word, message: seq<byte>): Word {
    FeedBits(state, MessageBits(message))
  }

  // ----- the table form -----

  function Shift(v: Word): Word {
    if v[0] then Xor(Right(v, 1), POLYNOMIAL) else Right(v, 1)
  }

  function ShiftBy(n: nat, v: Word): Word {
    if n == 0 then v else ShiftBy(n - 1, Shift(v))
  }

  function Entry(i: nat): Word {
    ShiftBy(8, Bits(32, i))
  }

  ghost predicate IsTable(table: seq<Word>) {
    |table| == 256 && forall i :: 0 <= i < 256 ==> table[i] == Entry(i)
  }

  method ShiftLoop(count: nat, start: Word) returns (value: Word)
    ensures value == ShiftBy(count, start)
  {
    value := start;
    for bit := 0 to count
      invariant ShiftBy(count - bit, value) == ShiftBy(count, start)
    {
      value := if value[0] then Xor(Right(value, 1), POLYNOMIAL) else Right(value, 1);
    }
  }

  /** The 256-entry table: the source's two nested loops, the inner one being `ShiftLoop`. */
  method BuildTable() returns (table: seq<Word>)
    ensures IsTable(table)
  {
    table := [];
    for i := 0 to 256
      invariant |table| == i
      invariant forall k :: 0 <= k < i ==> table[k] == Entry(k)
    {
      var value := ShiftLoop(8, Bits(32, i));
      table := table + [value];
    }
  }

  /** `(value ^ b) & 255` */
  function Index(value: Word, b: byte): (i: nat)
    ensures i < 256
  {
    ByteAndWordSize();
    FromBitsBelow(Xor(value, Widen(ByteBits(b)))[..8]);
    FromBits(Xor(value, Widen(ByteBits(b)))[..8])
  }

  /** The table-driven loop computes the bit-serial register. */
  method Update(table: seq<Word>, start: Word, message: seq<byte>) returns (value: Word)
    requires IsTable(table)
    ensures value == Crc(start, message)
  {
    value := start;
    for i := 0 to |message|
      invariant Crc(value, message[i..]) == Crc(start, message)
    {
      var rest := message[i + 1..];
      assert message[i..] == [message[i]] + rest;
      assert MessageBits(message[i..]) == ByteBits(message[i]) + MessageBits(rest);
      FeedAppend(value, ByteBits(message[i]), MessageBits(rest));
      TableStep(value, message[i]);
      value := Xor(table[Index(value, message[i])], Right(value, 8));
    }
  }

  function Pow2(n: nat): nat {
    if n == 0 then 1 else 2 * Pow2(n - 1)
  }

  lemma EightMore(n: nat)
    ensures Pow2(n + 8) == 256 * Pow2(n)
  {
    assert Pow2(n + 2) == 4 * Pow2(n);
    assert Pow2(n + 4) == 4 * Pow2(n + 2);
    assert Pow2(n + 6) == 4 * Pow2(n + 4);
    assert Pow2(n + 8) == 4 * Pow2(n + 6);
  }

  lemma ByteAndWordSize()
    ensures Pow2(8) == 256
    ensures Pow2(32) == 0x1_0000_0000
  {
    EightMore(0);
    EightMore(8);
    EightMore(16);
    EightMore(24);
  }

  lemma {:induction false} FromBitsBelow(bits: seq<bool>)
    ensures FromBits(bits) < Pow2(|bits|)
  {
    if bits != [] {
      FromBitsBelow(bits[1..]);
    }
  }

  lemma {:induction false} BitsOfFromBits(bits: seq<bool>)
    ensures Bits(|bits|, FromBits(bits)) == bits
  {
    if bits != [] {
      BitsOfFromBits(bits[1..]);
    }
  }

  lemma {:induction false} FromBitsOfBits(n: nat, x: nat)
    requires x < Pow2(n)
    ensures FromBits(Bits(n, x)) == x
  {
    if n > 0 {
      FromBitsOfBits(n - 1, x / 2);
    }
  }

  lemma {:induction false} BitsPadded(n: nat, k: nat, x: nat)
    requires x < Pow2(n)
    ensures Bits(n + k, x) == Bits(n, x) + Zeros(k)
  {
    if n > 0 {
      BitsPadded(n - 1, k, x / 2);
    } else if k > 0 {
      BitsPadded(0, k - 1, x);
    }
  }

  lemma {:induction false} FeedAppend(state: Word, a: seq<bool>, b: seq<bool>)
    ensures FeedBits(state, a + b) == FeedBits(FeedBits(state, a), b)
    decreases |a|
  {
    if a == [] {
      assert a + b == b;
    } else {
      assert (a + b)[1..] == a[1..] + b;
      FeedAppend(FeedBit(state, a[0]), a[1..], b);
    }
  }

  lemma ShiftXor(v: Word, w: Word)
    ensures Shift(Xor(v, w)) == Xor(Shift(v), Shift(w))
  {
    hide Bits;
    forall i | 0 <= i < 32 ensures Shift(Xor(v, w))[i] == Xor(Shift(v), Shift(w))[i] {
      ShiftBitAt(v, i);
      ShiftBitAt(w, i);
      ShiftBitAt(Xor(v, w), i);
    }
  }

  lemma {:induction false} ShiftByXor(n: nat, v: Word, w: Word)
    ensures ShiftBy(n, Xor(v, w)) == Xor(ShiftBy(n, v), ShiftBy(n, w))
  {
    if n > 0 {
      ShiftXor(v, w);
      ShiftByXor(n - 1, Shift(v), Shift(w));
    }
  }

  /** Low zero bits never fold the polynomial in: a plain move down. */
  lemma {:induction false} ShiftByPlain(n: nat, v: Word)
    requires n <= 32 && forall i :: 0 <= i < n ==> !v[i]
    ensures ShiftBy(n, v) == Right(v, n)
    decreases n
  {
    if n > 0 {
      ShiftByPlain(n - 1, Shift(v));
    } else {
      assert Right(v, 0) == v;
    }
  }

  /** Feeding up to 32 bits one by one equals folding them in at once and shifting that many times. */
  lemma {:induction false} FeedAtOnce(state: Word, bits: seq<bool>)
    requires |bits| <= 32
    ensures FeedBits(state, bits) == ShiftBy(|bits|, Xor(state, Widen(bits)))
    decreases |bits|
  {
    if bits == [] {
      assert Xor(state, Widen(bits)) == state;
    } else {
      assert Shift(Xor(state, Widen(bits))) == Xor(FeedBit(state, bits[0]), Widen(bits[1..]));
      FeedAtOnce(FeedBit(state, bits[0]), bits[1..]);
    }
  }

  /** Only the low byte selects the table entry; the other three bytes just move down. */
  lemma TableStep(state: Word, b: byte)
    ensures FeedBits(state, ByteBits(b)) == Xor(Entry(Index(state, b)), Right(state, 8))
  {
    var joined := Xor(state, Widen(ByteBits(b)));
    var low, high: Word := Widen(joined[..8]), Zeros(8) + joined[8..];
    FeedAtOnce(state, ByteBits(b));
    assert joined == Xor(low, high);
    ShiftByXor(8, low, high);
    ShiftByPlain(8, high);
    assert Right(high, 8) == Right(state, 8);
    var i := FromBits(joined[..8]);
    ByteAndWordSize();
    FromBitsBelow(joined[..8]);
    BitsPadded(8, 24, i);
    BitsOfFromBits(joined[..8]);
  }

  // ----- chaining and damage detection -----

  lemma {:induction false} MessageBitsAppend(a: seq<byte>, b: seq<byte>)
    ensures MessageBits(a + b) == MessageBits(a) + MessageBits(b)
  {
    if a == [] {
      assert a + b == b;
    } else {
      assert (a + b)[1..] == a[1..] + b;
      MessageBitsAppend(a[1..], b);
    }
  }

  /** The register chains, so a checksum over prefix and payload may be taken in two calls. */
  lemma Chains(state: Word, a: seq<byte>, b: seq<byte>)
    ensures Crc(state, a + b) == Crc(Crc(state, a), b)
  {
    MessageBitsAppend(a, b);
    FeedAppend(state, MessageBits(a), MessageBits(b));
  }

  lemma {:induction false} MessageBitsInjective(a: seq<byte>, b: seq<byte>)
    requires |a| == |b| && MessageBits(a) == MessageBits(b)
    ensures a == b
  {
    if a != [] {
      var x, y := MessageBits(a), MessageBits(b);
      assert ByteBits(a[0]) == x[..8] == y[..8] == ByteBits(b[0]);
      ByteAndWordSize();
      FromBitsOfBits(8, a[0] as nat);
      FromBitsOfBits(8, b[0] as nat);
      assert MessageBits(a[1..]) == x[8..] == y[8..] == MessageBits(b[1..]);
      MessageBitsInjective(a[1..], b[1..]);
    }
  }

  lemma PolynomialTop()
    ensures POLYNOMIAL[31]
  {
    PolynomialTerms(31);
  }

  lemma ShiftBitAt(v: Word, i: nat)
    requires i < 32
    ensures Shift(v)[i] == ((i < 31 && v[i + 1]) != (v[0] && POLYNOMIAL[i]))
  {
    assert Right(v, 1)[i] == (i < 31 && v[i + 1]);
  }

  /** The top bit shows whether the polynomial was folded in, so a shift can be undone. */
  lemma ShiftInjective(v: Word, w: Word)
    requires Shift(v) == Shift(w)
    ensures v == w
  {
    hide Bits, Shift;
    PolynomialTop();
    ShiftBitAt(v, 31);
    ShiftBitAt(w, 31);
    forall i | 1 <= i < 32
      ensures v[i] == w[i]
    {
      ShiftBitAt(v, i - 1);
      ShiftBitAt(w, i - 1);
    }
  }

  lemma {:induction false} ShiftByInjective(n: nat, v: Word, w: Word)
    requires ShiftBy(n, v) == ShiftBy(n, w)
    ensures v == w
  {
    if n > 0 {
      ShiftByInjective(n - 1, Shift(v), Shift(w));
      ShiftInjective(v, w);
    }
  }

  lemma XorInjective(v: Word, w: Word, x: Word)
    requires Xor(v, x) == Xor(w, x)
    ensures v == w
  {
    forall i | 0 <= i < 32
      ensures v[i] == w[i]
    {
      assert Xor(v, x)[i] == Xor(w, x)[i];
    }
  }

  /** A difference in the register never heals, whatever is fed afterwards. */
  lemma {:induction false} StateInjective(v: Word, w: Word, bits: seq<bool>)
    requires FeedBits(v, bits) == FeedBits(w, bits)
    ensures v == w
    decreases |bits|
  {
    if bits != [] {
      StateInjective(FeedBit(v, bits[0]), FeedBit(w, bits[0]), bits[1..]);
      FeedAtOnce(v, [bits[0]]);
      FeedAtOnce(w, [bits[0]]);
      ShiftByInjective(1, Xor(v, Widen([bits[0]])), Xor(w, Widen([bits[0]])));
      XorInjective(v, w, Widen([bits[0]]));
    }
  }

  /** The burst guarantee of a 32-bit CRC: a change confined to 32 adjacent bits is always noticed. */
  lemma BurstNoticed(state: Word, before: seq<bool>, x: seq<bool>, y: seq<bool>, after: seq<bool>)
    requires |x| == |y| <= 32 && x != y
    ensures FeedBits(state, before + x + after) != FeedBits(state, before + y + after)
  {
    var s := FeedBits(state, before);
    FeedAppend(state, before, x);
    FeedAppend(state, before, y);
    FeedAppend(state, before + x, after);
    FeedAppend(state, before + y, after);
    if FeedBits(state, before + x + after) == FeedBits(state, before + y + after) {
      StateInjective(FeedBits(s, x), FeedBits(s, y), after);
      FeedAtOnce(s, x);
      FeedAtOnce(s, y);
      ShiftByInjective(|x|, Xor(s, Widen(x)), Xor(s, Widen(y)));
      XorCommutes(s, Widen(x));
      XorCommutes(s, Widen(y));
      XorInjective(Widen(x), Widen(y), s);
      WidenInjective(x, y);
    }
  }

  lemma WidenInjective(x: seq<bool>, y: seq<bool>)
    requires |x| == |y| <= 32 && Widen(x) == Widen(y)
    ensures x == y
  {
    assert x == Widen(x)[..|x|] && y == Widen(y)[..|x|];
  }

  lemma XorCommutes(v: Word, w: Word)
    ensures Xor(v, w) == Xor(w, v)
  {
  }

  /** Two byte strings of one length whose bits differ, but only inside a window of `width` bits. */
  ghost predicate DifferWithin(m: seq<byte>, n: seq<byte>, at: nat, width: nat) {
    && |m| == |n|
    && m != n
    && at + width <= 8 * |m|
    && MessageBits(m)[..at] == MessageBits(n)[..at]
    && MessageBits(m)[at + width..] == MessageBits(n)[at + width..]
  }

  lemma DamageNoticed(state: Word, m: seq<byte>, n: seq<byte>, at: nat, width: nat)
    requires DifferWithin(m, n, at, width) && width <= 32
    ensures Crc(state, m) != Crc(state, n)
  {
    var p, q := MessageBits(m), MessageBits(n);
    var x, y := p[at..at + width], q[at..at + width];
    assert p == p[..at] + x + p[at + width..] && q == p[..at] + y + p[at + width..];
    if x == y {
      MessageBitsInjective(m, n);
    }
    BurstNoticed(state, p[..at], x, y, p[at + width..]);
  }

  /** The stored checksum: the inverted register as a number. */
  function Checksum(message: seq<byte>): (c: nat)
    ensures c < 0x1_0000_0000
  {
    ByteAndWordSize();
    FromBitsBelow(Xor(Crc(ALL_ONES, message), ALL_ONES));
    FromBits(Xor(Crc(ALL_ONES, message), ALL_ONES))
  }

  const RESIDUE: Word := ShiftBy(|ALL_ONES|, ALL_ONES)

  lemma {:induction false} BitsJoin(n: nat, k: nat, x: nat, y: nat)
    requires x < Pow2(n)
    ensures Bits(n + k, x + Pow2(n) * y) == Bits(n, x) + Bits(k, y)
  {
    if n == 0 {
      assert x + Pow2(0) * y == y;
      assert Bits(0, x) + Bits(k, y) == Bits(k, y);
    } else {
      assert x + Pow2(n) * y == x + 2 * (Pow2(n - 1) * y);
      assert (x + 2 * (Pow2(n - 1) * y)) / 2 == x / 2 + Pow2(n - 1) * y;
      BitsJoin(n - 1, k, x / 2, y);
    }
  }

  lemma {:induction false} MessageBitsOfNumber(s: seq<byte>)
    ensures MessageBits(s) == Bits(8 * |s|, Number(s))
  {
    if s != [] {
      MessageBitsOfNumber(s[1..]);
      ByteAndWordSize();
      BitsJoin(8, 8 * |s[1..]|, s[0] as nat, Number(s[1..]));
    }
  }

  lemma XorUndone(v: Word, w: Word)
    ensures Xor(v, Xor(v, w)) == w
  {
  }

  /** A message followed by its own checksum drives the register to one fixed value, and only then:
      the check covers the checksum field itself as well. */
  lemma ResidueLaw(message: seq<byte>, stored: seq<byte>)
    requires |stored| == 4
    ensures Crc(ALL_ONES, message + stored) == RESIDUE <==> Number(stored) == Checksum(message)
  {
    var state, word := Crc(ALL_ONES, message), Bits(32, Number(stored));
    Chains(ALL_ONES, message, stored);
    MessageBitsOfNumber(stored);
    FeedAtOnce(state, word);
    assert Widen(word) == word;
    XorUndone(state, word);
    XorUndone(state, ALL_ONES);
    BitsOfFromBits(Xor(state, ALL_ONES));
    Widths();
    LittleEndianOfNumber(stored);
    ByteAndWordSize();
    FromBitsOfBits(32, Number(stored));
    if Crc(ALL_ONES, message + stored) == RESIDUE {
      ShiftByInjective(32, Xor(state, word), ALL_ONES);
    }
  }

  // ----- the polynomial -----

  /** The powers of x in the CRC-32 polynomial, the highest left out. */
  predicate Term(power: int) {
    power in {26, 23, 22, 16, 12, 11, 10, 8, 7, 5, 4, 2, 1, 0}
  }

  /** A number by its hexadecimal digits, last digit first. */
  function Hex(digits: seq<nat>): nat {
    if digits == [] then 0 else digits[0] + 16 * Hex(digits[1..])
  }

  function Nibble(digit: nat): (bits: seq<bool>)
    ensures |bits| == 4
  {
    [digit % 2 == 1, digit / 2 % 2 == 1, digit / 4 % 2 == 1, digit / 8 % 2 == 1]
  }

  lemma FourBits(digit: nat)
    requires digit < 16
    ensures Bits(4, digit) == Nibble(digit)
  {
    assert Bits(4, digit) == [digit % 2 == 1] + Bits(3, digit / 2);
    assert Bits(3, digit / 2) == [digit / 2 % 2 == 1] + Bits(2, digit / 4);
    assert Bits(2, digit / 4) == [digit / 4 % 2 == 1] + Bits(1, digit / 8);
    assert Bits(1, digit / 8) == [digit / 8 % 2 == 1] + [];
  }

  lemma NibbleFirst(n: nat, digit: nat, x: nat)
    requires digit < 16
    ensures Bits(4 + n, digit + 16 * x) == Nibble(digit) + Bits(n, x)
  {
    hide Bits, Nibble;
    assert Pow2(4) == 16;
    BitsJoin(4, n, digit, x);
    FourBits(digit);
  }

  lemma {:induction false} HexBits(digits: seq<nat>, i: nat)
    requires forall k :: 0 <= k < |digits| ==> digits[k] < 16
    requires i < 4 * |digits|
    ensures Bits(4 * |digits|, Hex(digits))[i] == Nibble(digits[i / 4])[i % 4]
  {
    hide Nibble, Bits;
    var more := digits[1..];
    NibbleFirst(4 * |more|, digits[0], Hex(more));
    if i >= 4 {
      HexBits(more, i - 4);
      assert (i - 4) / 4 == i / 4 - 1 && (i - 4) % 4 == i % 4;
      assert more[(i - 4) / 4] == digits[i / 4];
    } else {
      assert i / 4 == 0 && i % 4 == i;
    }
  }

  lemma HexWord(d0: nat, d1: nat, d2: nat, d3: nat, d4: nat, d5: nat, d6: nat, d7: nat)
    ensures Hex([d0, d1, d2, d3, d4, d5, d6, d7])
         == d0 + 16 * (d1 + 16 * (d2 + 16 * (d3 + 16 * (d4 + 16 * (d5 + 16 * (d6 + 16 * d7))))))
  {
    assert Hex([d7]) == d7;
    assert Hex([d6, d7]) == d6 + 16 * d7;
    assert Hex([d5, d6, d7]) == d5 + 16 * Hex([d6, d7]);
    assert Hex([d4, d5, d6, d7]) == d4 + 16 * Hex([d5, d6, d7]);
    assert Hex([d3, d4, d5, d6, d7]) == d3 + 16 * Hex([d4, d5, d6, d7]);
    assert Hex([d2, d3, d4, d5, d6, d7]) == d2 + 16 * Hex([d3, d4, d5, d6, d7]);
    assert Hex([d1, d2, d3, d4, d5, d6, d7]) == d1 + 16 * Hex([d2, d3, d4, d5, d6, d7]);
  }

  /** The word is the reflected polynomial: bit 31 stands for the power 0. */
  lemma PolynomialTerms(i: nat)
    requires i < 32
    ensures POLYNOMIAL[i] <==> Term(31 - i)
  {
    hide Bits, Hex;
    var digits: seq<nat> := [0x0, 0x2, 0x3, 0x8, 0x8, 0xB, 0xD, 0xE];
    HexWord(0x0, 0x2, 0x3, 0x8, 0x8, 0xB, 0xD, 0xE);
    HexBits(digits, i);
  }

  // ----- the register as a machine word -----

  predicate Odd(s: bv32) {
    s & 1 != 0
  }

  function Half(s: bv32): bv32 {
    s >> 1
  }

  function XorWords(a: bv32, b: bv32): bv32 {
    a ^ b
  }

  predicate Bit(s: bv32, i: nat) {
    if i == 0 then Odd(s) else Bit(Half(s), i - 1)
  }

  function WordOf(s: bv32): Word {
    seq(32, i requires 0 <= i < 32 => Bit(s, i))
  }

  lemma XorParts(a: bv32, b: bv32)
    ensures Half(XorWords(a, b)) == XorWords(Half(a), Half(b))
    ensures Odd(XorWords(a, b)) <==> Odd(a) != Odd(b)
  {
  }

  lemma {:induction false} BitOfXor(a: bv32, b: bv32, i: nat)
    ensures Bit(XorWords(a, b), i) <==> Bit(a, i) != Bit(b, i)
    decreases i
  {
    hide Odd, Half, XorWords;
    XorParts(a, b);
    if i > 0 {
      BitOfXor(Half(a), Half(b), i - 1);
    }
  }

  lemma FourDown(s: bv32, i: nat)
    ensures Bit(s, i + 4) == Bit(s >> 4, i)
    ensures Bit(s, 0) == Odd(s) && Bit(s, 1) == Odd(s >> 1) && Bit(s, 2) == Odd(s >> 2) && Bit(s, 3) == Odd(s >> 3)
  {
    hide Odd, Half;
    HalfFour(s);
    assert Bit(s, i + 4) == Bit(Half(s), i + 3) == Bit(Half(Half(s)), i + 2);
    assert Bit(Half(Half(s)), i + 2) == Bit(Half(Half(Half(s))), i + 1);
    assert Bit(s, 2) == Bit(Half(s), 1) == Bit(Half(Half(s)), 0);
    assert Bit(s, 3) == Bit(Half(s), 2) == Bit(Half(Half(s)), 1) == Bit(Half(Half(Half(s))), 0);
  }

  lemma HalfFour(s: bv32)
    ensures Half(s) == s >> 1 && Half(Half(s)) == s >> 2 && Half(Half(Half(s))) == s >> 3
    ensures Half(Half(Half(Half(s)))) == s >> 4
  {
  }

  function Quarter(s: bv32): bv32 {
    s >> 8
  }

  lemma EightDown(s: bv32, i: nat)
    ensures Bit(s, i + 8) == Bit(Quarter(s), i)
  {
    FourDown(s, i + 4);
    FourDown(s >> 4, i);
    assert s >> 4 >> 4 == s >> 8;
  }

  lemma NothingLeft(s: bv32)
    ensures Quarter(Quarter(Quarter(Quarter(s)))) == 0 && !Odd(0)
  {
  }

  lemma NoBitAbove(s: bv32)
    ensures !Bit(s, 32)
  {
    hide Quarter, Odd;
    NothingLeft(s);
    EightDown(s, 24);
    EightDown(Quarter(s), 16);
    EightDown(Quarter(Quarter(s)), 8);
    EightDown(Quarter(Quarter(Quarter(s))), 0);
  }

  function LastDigit(s: bv32): (bits: seq<bool>)
    ensures |bits| == 4
  {
    [Odd(s), Odd(s >> 1), Odd(s >> 2), Odd(s >> 3)]
  }

  /** The low digits of a word are these. */
  predicate HasDigits(s: bv32, digits: seq<nat>)
    decreases |digits|
  {
    digits == [] || (LastDigit(s) == Nibble(digits[0]) && HasDigits(s >> 4, digits[1..]))
  }

  /** The digit a word ends with. */
  predicate EndsIn(s: bv32, digit: nat) {
    digit < 16 && s & 15 == digit as bv32
  }

  lemma DigitBits(s: bv32, digit: nat)
    requires EndsIn(s, digit)
    ensures LastDigit(s) == Nibble(digit)
  {
    if digit < 8 {
      assert digit == 0 || digit == 1 || digit == 2 || digit == 3 || digit == 4 || digit == 5 || digit == 6 || digit == 7;
    } else {
      assert digit == 8 || digit == 9 || digit == 10 || digit == 11 || digit == 12 || digit == 13 || digit == 14
        || digit == 15;
    }
  }

  /** One more digit in front of those that were taken off. */
  lemma OneDigit(s: bv32, more: bv32, digit: nat, rest: seq<nat>) returns (digits: seq<nat>)
    requires EndsIn(s, digit) && s >> 4 == more && HasDigits(more, rest)
    ensures digits == [digit] + rest && HasDigits(s, digits)
  {
    hide LastDigit, Nibble, EndsIn;
    DigitBits(s, digit);
    digits := [digit] + rest;
    assert digits[1..] == rest;
  }

  lemma {:induction false} DigitBit(s: bv32, digits: seq<nat>, i: nat)
    requires HasDigits(s, digits) && i < 4 * |digits|
    ensures Bit(s, i) == Nibble(digits[i / 4])[i % 4]
    decreases |digits|
  {
    hide Odd;
    FourDown(s, i - 4 + if i < 4 then 4 else 0);
    if i >= 4 {
      DigitBit(s >> 4, digits[1..], i - 4);
    } else {
      assert LastDigit(s)[i] == Nibble(digits[0])[i];
    }
  }

  /** One bit of the source's inner loop, the message bit added first. */
  function Step(s: bv32, bit: bool): bv32 {
    if Odd(s) != bit then XorWords(Half(s), 0xEDB8_8320) else Half(s)
  }

  lemma NoDigits()
    ensures HasDigits(0, [])
  {
  }

  lemma PolynomialDigits()
    ensures HasDigits(0xEDB8_8320, [0x0, 0x2, 0x3, 0x8, 0x8, 0xB, 0xD, 0xE])
  {
    hide HasDigits, Odd;
    NoDigits();
    var d7 := OneDigit(0xE, 0x0, 0xE, []);
    var d6 := OneDigit(0xED, 0xE, 0xD, d7);
    var d5 := OneDigit(0xEDB, 0xED, 0xB, d6);
    var d4 := OneDigit(0xEDB8, 0xEDB, 0x8, d5);
    var d3 := OneDigit(0xEDB88, 0xEDB8, 0x8, d4);
    var d2 := OneDigit(0xEDB883, 0xEDB88, 0x3, d3);
    var d1 := OneDigit(0xEDB8832, 0xEDB883, 0x2, d2);
    var d0 := OneDigit(0xEDB88320, 0xEDB8832, 0x0, d1);
    assert d0 == [0x0, 0x2, 0x3, 0x8, 0x8, 0xB, 0xD, 0xE];
  }

  lemma PolynomialWord(i: nat)
    requires i < 32
    ensures Bit(0xEDB8_8320, i) == POLYNOMIAL[i]
  {
    hide Bits, Hex, Bit, HasDigits, Nibble;
    var digits: seq<nat> := [0x0, 0x2, 0x3, 0x8, 0x8, 0xB, 0xD, 0xE];
    HexWord(0x0, 0x2, 0x3, 0x8, 0x8, 0xB, 0xD, 0xE);
    HexBits(digits, i);
    PolynomialDigits();
    DigitBit(0xEDB8_8320, digits, i);
  }

  /** Feeding a bit is one turn of the source's inner loop on a 32-bit machine word. */
  lemma MachineStep(s: bv32, bit: bool)
    ensures WordOf(Step(s, bit)) == FeedBit(WordOf(s), bit)
  {
    hide Odd, Half, XorWords, Bits;
    NoBitAbove(s);
    forall i | 0 <= i < 32
      ensures Bit(Step(s, bit), i) == FeedBit(WordOf(s), bit)[i]
    {
      BitOfXor(Half(s), 0xEDB8_8320, i);
      PolynomialWord(i);
      assert Bit(Half(s), i) == Bit(s, i + 1);
    }
  }

  /** The source's inner loop on a whole byte. */
  function StepByte(s: bv32, b: bv8): bv32 {
    Step(Step(Step(Step(Step(Step(Step(Step(
      s, b & 1 != 0), b & 2 != 0), b & 4 != 0), b & 8 != 0), b & 16 != 0), b & 32 != 0), b & 64 != 0), b & 128 != 0)
  }

  function LowBits(b: bv8): (bits: seq<bool>)
    ensures |bits| == 4
  {
    [b & 1 != 0, b & 2 != 0, b & 4 != 0, b & 8 != 0]
  }

  function HighBits(b: bv8): (bits: seq<bool>)
    ensures |bits| == 4
  {
    [b & 16 != 0, b & 32 != 0, b & 64 != 0, b & 128 != 0]
  }

  lemma FeedFour(w: Word, x: seq<bool>)
    requires |x| == 4
    ensures FeedBits(w, x) == FeedBit(FeedBit(FeedBit(FeedBit(w, x[0]), x[1]), x[2]), x[3])
  {
    hide FeedBit;
    FeedTwo(w, x[0], x[1], x[2..]);
    FeedTwo(FeedBit(FeedBit(w, x[0]), x[1]), x[2], x[3], []);
    assert x == [x[0], x[1]] + x[2..] && x[2..] == [x[2], x[3]] + [];
  }

  lemma FeedTwo(w: Word, a: bool, b: bool, rest: seq<bool>)
    ensures FeedBits(w, [a, b] + rest) == FeedBits(FeedBit(FeedBit(w, a), b), rest)
  {
    hide FeedBit;
    FeedAppend(w, [a, b], rest);
    assert [a, b][1..] == [b];
  }

  /** Feeding a byte is eight turns of it. */
  lemma MachineByte(s: bv32, b: bv8)
    ensures WordOf(StepByte(s, b)) == FeedBits(WordOf(s), LowBits(b) + HighBits(b))
  {
    hide Step, WordOf, FeedBit, FeedBits;
    FeedAppend(WordOf(s), LowBits(b), HighBits(b));
    FeedFour(WordOf(s), LowBits(b));
    FeedFour(FeedBits(WordOf(s), LowBits(b)), HighBits(b));
    var s1 := Step(s, b & 1 != 0);
    var s2 := Step(s1, b & 2 != 0);
    var s3 := Step(s2, b & 4 != 0);
    var s4 := Step(s3, b & 8 != 0);
    var s5 := Step(s4, b & 16 != 0);
    var s6 := Step(s5, b & 32 != 0);
    var s7 := Step(s6, b & 64 != 0);
    MachineStep(s, b & 1 != 0);
    MachineStep(s1, b & 2 != 0);
    MachineStep(s2, b & 4 != 0);
    MachineStep(s3, b & 8 != 0);
    MachineStep(s4, b & 16 != 0);
    MachineStep(s5, b & 32 != 0);
    MachineStep(s6, b & 64 != 0);
    MachineStep(s7, b & 128 != 0);
  }

  // ----- the check value -----

  /** The digits' bytes, one register after the other. */
  lemma CheckSteps()
    ensures StepByte(0xFFFF_FFFF, 0x31) == 0x7C23_1048 && StepByte(0x7C23_1048, 0x32) == 0xB0AC_BB32
    ensures StepByte(0xB0AC_BB32, 0x33) == 0x77B7_9C2D && StepByte(0x77B7_9C2D, 0x34) == 0x641C_1F5C
    ensures StepByte(0x641C_1F5C, 0x35) == 0x340A_C5E3 && StepByte(0x340A_C5E3, 0x36) == 0xF68D_2C9E
    ensures StepByte(0xF68D_2C9E, 0x37) == 0xAFFC_9660 && StepByte(0xAFFC_9660, 0x38) == 0x651F_2550
    ensures StepByte(0x651F_2550, 0x39) == 0x340B_C6D9
  {
  }

  lemma CheckBits()
    ensures forall b: bv8 :: 0x30 <= b <= 0x39 ==> HighBits(b) == Nibble(3)
    ensures LowBits(0x31) == Nibble(1) && LowBits(0x32) == Nibble(2) && LowBits(0x33) == Nibble(3)
    ensures LowBits(0x34) == Nibble(4) && LowBits(0x35) == Nibble(5) && LowBits(0x36) == Nibble(6)
    ensures LowBits(0x37) == Nibble(7) && LowBits(0x38) == Nibble(8) && LowBits(0x39) == Nibble(9)
  {
  }

  lemma CheckStep(start: Word, before: seq<byte>, s: bv32, digit: nat, b: bv8) returns (after: seq<byte>)
    requires digit < 10 && LowBits(b) == Nibble(digit) && HighBits(b) == Nibble(3)
    requires Crc(start, before) == WordOf(s)
    ensures after == before + [(48 + digit) as byte] && Crc(start, after) == WordOf(StepByte(s, b))
  {
    hide WordOf, StepByte, LowBits, HighBits, Nibble, FeedBits;
    var last := [(48 + digit) as byte];
    after := before + last;
    Chains(start, before, last);
    MachineByte(s, b);
    NibbleFirst(4, digit, 3);
    NibbleFirst(0, 3, 0);
    assert last[1..] == [] && ByteBits(last[0]) + [] == ByteBits(last[0]);
    assert Bits(0, 0) == [] && Nibble(3) + [] == Nibble(3);
    assert Bits(8, 48 + digit) == Nibble(digit) + Nibble(3);
  }

  lemma CheckRegister()
    ensures Crc(WordOf(0xFFFF_FFFF), [0x31, 0x32, 0x33, 0x34, 0x35, 0x36, 0x37, 0x38, 0x39]) == WordOf(0x340B_C6D9)
  {
    hide WordOf, Crc, StepByte, LowBits, HighBits, Nibble;
    var start := WordOf(0xFFFF_FFFF);
    CheckSteps();
    CheckBits();
    EmptyMessage(start);
    var m1 := CheckStep(start, [], 0xFFFF_FFFF, 1, 0x31);
    var m2 := CheckStep(start, m1, 0x7C23_1048, 2, 0x32);
    var m3 := CheckStep(start, m2, 0xB0AC_BB32, 3, 0x33);
    var m4 := CheckStep(start, m3, 0x77B7_9C2D, 4, 0x34);
    var m5 := CheckStep(start, m4, 0x641C_1F5C, 5, 0x35);
    var m6 := CheckStep(start, m5, 0x340A_C5E3, 6, 0x36);
    var m7 := CheckStep(start, m6, 0xF68D_2C9E, 7, 0x37);
    var m8 := CheckStep(start, m7, 0xAFFC_9660, 8, 0x38);
    var m9 := CheckStep(start, m8, 0x651F_2550, 9, 0x39);
    assert m9 == [0x31, 0x32, 0x33, 0x34, 0x35, 0x36, 0x37, 0x38, 0x39];
  }

  lemma EmptyMessage(w: Word)
    ensures Crc(w, []) == w
  {
  }

  lemma OnesDigits()
    ensures HasDigits(0xFFFF_FFFF, [0xF, 0xF, 0xF, 0xF, 0xF, 0xF, 0xF, 0xF])
  {
    hide HasDigits, Odd;
    NoDigits();
    var d7 := OneDigit(0xF, 0x0, 0xF, []);
    var d6 := OneDigit(0xFF, 0xF, 0xF, d7);
    var d5 := OneDigit(0xFFF, 0xFF, 0xF, d6);
    var d4 := OneDigit(0xFFFF, 0xFFF, 0xF, d5);
    var d3 := OneDigit(0xFFFFF, 0xFFFF, 0xF, d4);
    var d2 := OneDigit(0xFFFFFF, 0xFFFFF, 0xF, d3);
    var d1 := OneDigit(0xFFFFFFF, 0xFFFFFF, 0xF, d2);
    var d0 := OneDigit(0xFFFFFFFF, 0xFFFFFFF, 0xF, d1);
    assert d0 == [0xF, 0xF, 0xF, 0xF, 0xF, 0xF, 0xF, 0xF];
  }

  lemma OnesWord(i: nat)
    requires i < 32
    ensures ALL_ONES[i] && Bit(0xFFFF_FFFF, i)
  {
    hide Bits, Hex, Bit, HasDigits;
    var digits: seq<nat> := [0xF, 0xF, 0xF, 0xF, 0xF, 0xF, 0xF, 0xF];
    HexWord(0xF, 0xF, 0xF, 0xF, 0xF, 0xF, 0xF, 0xF);
    HexBits(digits, i);
    OnesDigits();
    DigitBit(0xFFFF_FFFF, digits, i);
  }

  lemma Inverted(digit: nat, k: nat)
    requires digit < 16 && k < 4
    ensures Nibble(15 - digit)[k] != Nibble(digit)[k]
  {
  }

  lemma InvertedDigits(s: bv32, digits: seq<nat>, inverted: seq<nat>, i: nat)
    requires |digits| == |inverted| == 8 && HasDigits(s, digits) && i < 32
    requires forall k :: 0 <= k < 8 ==> digits[k] < 16 && inverted[k] == 15 - digits[k]
    ensures Bits(32, Hex(inverted))[i] != Bit(s, i)
  {
    hide Bits, Hex, Bit, Nibble, HasDigits;
    HexBits(inverted, i);
    DigitBit(s, digits, i);
    Inverted(digits[i / 4], i % 4);
  }

  lemma RegisterDigits()
    ensures HasDigits(0x340B_C6D9, [0x9, 0xD, 0x6, 0xC, 0xB, 0x0, 0x4, 0x3])
  {
    hide HasDigits, Odd;
    NoDigits();
    var d7 := OneDigit(0x3, 0x0, 0x3, []);
    var d6 := OneDigit(0x34, 0x3, 0x4, d7);
    var d5 := OneDigit(0x340, 0x34, 0x0, d6);
    var d4 := OneDigit(0x340B, 0x340, 0xB, d5);
    var d3 := OneDigit(0x340BC, 0x340B, 0xC, d4);
    var d2 := OneDigit(0x340BC6, 0x340BC, 0x6, d3);
    var d1 := OneDigit(0x340BC6D, 0x340BC6, 0xD, d2);
    var d0 := OneDigit(0x340BC6D9, 0x340BC6D, 0x9, d1);
    assert d0 == [0x9, 0xD, 0x6, 0xC, 0xB, 0x0, 0x4, 0x3];
  }

  lemma InvertedWord(i: nat)
    requires i < 32
    ensures Bits(32, 0xCBF4_3926)[i] != Bit(0x340B_C6D9, i)
  {
    hide Bits, Hex, Bit, HasDigits, Nibble;
    var digits, inverted: seq<nat> := [0x9, 0xD, 0x6, 0xC, 0xB, 0x0, 0x4, 0x3], [0x6, 0x2, 0x9, 0x3, 0x4, 0xF, 0xB, 0xC];
    HexWord(0x6, 0x2, 0x9, 0x3, 0x4, 0xF, 0xB, 0xC);
    RegisterDigits();
    InvertedDigits(0x340B_C6D9, digits, inverted, i);
  }

  /** The check value of CRC-32: the checksum of the nine digits "123456789". */
  lemma CheckValue()
    ensures Checksum([0x31, 0x32, 0x33, 0x34, 0x35, 0x36, 0x37, 0x38, 0x39]) == 0xCBF4_3926
  {
    hide Bits, Bit, Crc;
    CheckRegister();
    forall i | 0 <= i < 32
      ensures ALL_ONES[i] == WordOf(0xFFFF_FFFF)[i] && Xor(WordOf(0x340B_C6D9), ALL_ONES)[i] == Bits(32, 0xCBF4_3926)[i]
    {
      OnesWord(i);
      InvertedWord(i);
    }
    assert ALL_ONES == WordOf(0xFFFF_FFFF);
    assert Xor(WordOf(0x340B_C6D9), ALL_ONES) == Bits(32, 0xCBF4_3926);
    ByteAndWordSize();
    FromBitsOfBits(32, 0xCBF4_3926);
  }
}
