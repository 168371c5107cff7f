/** Bits, bytes and shift registers: what every serial wire of the board shares. */
module Bits {

  /** Level of one pin in a GPIO word. */
  function Level(pins: bv32, pin: bv5): bool {
    (pins >> pin) & 1 != 0
  }

  function OnePin(pin: bv5): bv32 {
    1 << pin
  }

  function BothWords(a: bv32, b: bv32): bv32 {
    a | b
  }

  /** The word in which exactly these pins are high. */
  function High(pins: seq<bv5>): bv32 {
    if pins == [] then 0 else BothWords(High(pins[..|pins| - 1]), OnePin(pins[|pins| - 1]))
  }

  lemma NothingHigh(q: bv5)
    ensures !Level(0, q)
  {
  }

  lemma OnlyThatPin(p: bv5, q: bv5)
    ensures Level(OnePin(p), q) <==> p == q
  {
  }

  lemma EitherWord(a: bv32, b: bv32, q: bv5)
    ensures Level(BothWords(a, b), q) <==> Level(a, q) || Level(b, q)
  {
    ShiftsApart(a, b, q);
    BitsApart(a >> q, b >> q);
  }

  lemma ShiftsApart(a: bv32, b: bv32, q: bv5)
    ensures (a | b) >> q == (a >> q) | (b >> q)
  {
  }

  lemma BitsApart(a: bv32, b: bv32)
    ensures (a | b) & 1 != 0 <==> a & 1 != 0 || b & 1 != 0
  {
  }

  /** A word reads high at exactly the pins that are set in it. */
  lemma {:induction false} LevelsOfWord(pins: seq<bv5>, q: bv5)
    ensures Level(High(pins), q) <==> q in pins
  {
    hide Level, OnePin, BothWords;
    if pins == [] {
      NothingHigh(q);
    } else {
      var n := |pins| - 1;
      LevelsOfWord(pins[..n], q);
      OnlyThatPin(pins[n], q);
      EitherWord(High(pins[..n]), OnePin(pins[n]), q);
    }
  }

  /** A pin, if it is to be high. */
  function If(level: bool, pin: bv5): seq<bv5> {
    if level then [pin] else []
  }

  type byte = x: int | 0 <= x < 256

  datatype Option<+T> = None | Some(value: T) {
    function GetOr(default: T): T {
      match this
      case Some(v) => v
      case None => default
    }
  }

  function Bit(b: bool): byte {
    if b then 1 else 0
  }

  /** An 8-bit left shift with one bit entering at the bottom. */
  function ShiftIn(b: byte, bit: bool): byte {
    (if Top(b) then 2 * b - 256 else 2 * b) + Bit(bit)
  }

  /** What a most-significant-bit-first input register holds after these bits. */
  function ByteOf(bits: seq<bool>): byte {
    if bits == [] then 0
    else ShiftIn(ByteOf(bits[..|bits| - 1]), bits[|bits| - 1])
  }

  /** An output register after n more clocks. */
  function ShiftedOut(b: byte, n: nat): byte {
    if n == 0 then b else ShiftIn(ShiftedOut(b, n - 1), false)
  }

  predicate Top(b: byte) {
    b >= 0x80
  }

  /** The bits of a byte in transmission order. */
  function BitsOf(b: byte): (bits: seq<bool>)
    ensures |bits| == 8
    ensures forall j :: 0 <= j < 8 ==> bits[j] == Top(ShiftedOut(b, j))
  {
    seq(8, j requires 0 <= j < 8 => Top(ShiftedOut(b, j)))
  }

  /** The bits of a byte string in transmission order. */
  function Serial(bs: seq<byte>): (bits: seq<bool>)
    ensures |bits| == 8 * |bs|
  {
    if bs == [] then [] else Serial(bs[..|bs| - 1]) + BitsOf(bs[|bs| - 1])
  }

  /** The complete bytes in a bit string; a trailing partial byte is not one of them. */
  function Bytes(bits: seq<bool>): (bs: seq<byte>)
    ensures |bs| == |bits| / 8
  {
    seq(|bits| / 8, i requires 0 <= i < |bits| / 8 => ByteOf(bits[8 * i..8 * i + 8]))
  }

  /** The bits that have not yet made up a byte. */
  function Partial(bits: seq<bool>): (p: seq<bool>)
    ensures |p| == |bits| % 8
  {
    bits[|bits| - |bits| % 8..]
  }

  function Pow2(n: nat): (p: nat)
    ensures p >= 1
  {
    if n == 0 then 1 else 2 * Pow2(n - 1)
  }

  /** The first bit in is the most significant one. */
  lemma {:induction false} FirstBitWeight(bits: seq<bool>)
    requires 1 <= |bits| <= 8
    ensures ByteOf(bits) == (if bits[0] then Pow2(|bits| - 1) else 0) + ByteOf(bits[1..])
    ensures ByteOf(bits) < Pow2(|bits|) <= 256
  {
    Pow2Values();
    var n := |bits|;
    if n == 1 {
      assert bits[..0] == [] && bits[1..] == [];
    } else {
      FirstBitWeight(bits[..n - 1]);
      assert bits[..n - 1][1..] == bits[1..][..n - 2];
      assert Pow2(n - 1) == 2 * Pow2(n - 2);
    }
  }

  lemma Pow2Values()
    ensures Pow2(0) == 1 && Pow2(1) == 2 && Pow2(2) == 4 && Pow2(3) == 8 && Pow2(4) == 16
    ensures Pow2(5) == 32 && Pow2(6) == 64 && Pow2(7) == 128 && Pow2(8) == 256
  {
    assert Pow2(3) == 8;
    assert Pow2(5) == 32;
    assert Pow2(7) == 128;
  }

  /** A full register forgets its oldest bit, which is the one at the top. */
  lemma FullRegister(bits: seq<bool>, bit: bool)
    requires |bits| == 8
    ensures Top(ByteOf(bits)) == bits[0]
    ensures ShiftIn(ByteOf(bits), bit) == ByteOf(bits[1..] + [bit])
  {
    Pow2Values();
    FirstBitWeight(bits);
    FirstBitWeight(bits[1..]);
    assert (bits[1..] + [bit])[..7] == bits[1..];
  }

  lemma {:induction false} ShiftedOutBits(bits: seq<bool>, n: nat)
    requires |bits| == 8 && n < 8
    ensures ShiftedOut(ByteOf(bits), n) == ByteOf(bits[n..] + seq(n, _ => false))
    ensures Top(ShiftedOut(ByteOf(bits), n)) == bits[n]
  {
    hide ByteOf, ShiftIn, Top;
    var padded := bits[n..] + seq(n, _ => false);
    FullRegister(padded, false);
    if n > 0 {
      ShiftedOutBits(bits, n - 1);
      var before := bits[n - 1..] + seq(n - 1, _ => false);
      FullRegister(before, false);
      assert before[1..] + [false] == padded;
    } else {
      assert padded == bits;
    }
  }

  function Doubled(d: int, n: nat): int {
    if n == 0 then d else 2 * Doubled(d, n - 1)
  }

  /** Equal output bits keep two registers at a distance that doubles every clock. */
  lemma {:induction false} DistanceDoubles(b: byte, c: byte, n: nat)
    requires n <= 8 && BitsOf(b) == BitsOf(c)
    ensures ShiftedOut(b, n) - ShiftedOut(c, n) == Doubled(b - c, n)
  {
    if n > 0 {
      DistanceDoubles(b, c, n - 1);
      assert BitsOf(b)[n - 1] == BitsOf(c)[n - 1];
    }
  }

  lemma DoubledEightTimes(d: int)
    ensures Doubled(d, 8) == 256 * d
  {
    assert Doubled(d, 1) == 2 * d;
    assert Doubled(d, 2) == 2 * Doubled(d, 1);
    assert Doubled(d, 4) == 4 * Doubled(d, 2);
    assert Doubled(d, 6) == 4 * Doubled(d, 4);
    assert Doubled(d, 8) == 4 * Doubled(d, 6);
  }

  lemma BitsOfInjective(b: byte, c: byte)
    requires BitsOf(b) == BitsOf(c)
    ensures b == c
  {
    DistanceDoubles(b, c, 8);
    DoubledEightTimes(b - c);
  }

  lemma BitsOfByteOf(bits: seq<bool>)
    requires |bits| == 8
    ensures BitsOf(ByteOf(bits)) == bits
  {
    hide ByteOf, ShiftedOut;
    forall j | 0 <= j < 8 ensures BitsOf(ByteOf(bits))[j] == bits[j] { ShiftedOutBits(bits, j); }
  }

  /** Serialising and shifting back in are inverse, both ways. */
  lemma ByteRoundTrip(b: byte, bits: seq<bool>)
    requires |bits| == 8
    ensures ByteOf(BitsOf(b)) == b
    ensures BitsOf(ByteOf(bits)) == bits
  {
    hide ByteOf, BitsOf;
    BitsOfByteOf(bits);
    BitsOfByteOf(BitsOf(b));
    BitsOfInjective(b, ByteOf(BitsOf(b)));
  }

  /** One more bit completes a byte exactly when seven were pending. */
  lemma BytesSnoc(bits: seq<bool>, bit: bool)
    ensures |bits| % 8 == 7 ==> Bytes(bits + [bit]) == Bytes(bits) + [ByteOf(Partial(bits) + [bit])]
                                && Partial(bits + [bit]) == []
    ensures |bits| % 8 != 7 ==> Bytes(bits + [bit]) == Bytes(bits)
                                && Partial(bits + [bit]) == Partial(bits) + [bit]
  {
    var longer := bits + [bit];
    forall i | 0 <= i < |bits| / 8 ensures longer[8 * i..8 * i + 8] == bits[8 * i..8 * i + 8] {}
    if |bits| % 8 == 7 {
      assert longer[8 * (|bits| / 8)..8 * (|bits| / 8) + 8] == Partial(bits) + [bit];
    }
  }

  lemma {:induction false} SerialChunk(bs: seq<byte>, i: nat)
    requires i < |bs|
    ensures Serial(bs)[8 * i..8 * i + 8] == BitsOf(bs[i])
  {
    hide BitsOf;
    var front, last := Serial(bs[..|bs| - 1]), BitsOf(bs[|bs| - 1]);
    if i < |bs| - 1 {
      SerialChunk(bs[..|bs| - 1], i);
      assert (front + last)[8 * i..8 * i + 8] == front[8 * i..8 * i + 8];
    }
  }

  /** Cutting a serialised byte string back into bytes gives it back. */
  lemma BytesOfSerial(bs: seq<byte>)
    ensures Bytes(Serial(bs)) == bs
  {
    forall i | 0 <= i < |bs| ensures Bytes(Serial(bs))[i] == bs[i] {
      SerialChunk(bs, i);
      ByteRoundTrip(bs[i], BitsOf(bs[i]));
    }
  }

  lemma {:induction false} SerialBit(bs: seq<byte>, j: nat)
    requires j < 8 * |bs|
    ensures Serial(bs)[j] == BitsOf(bs[j / 8])[j % 8]
  {
    if j < 8 * (|bs| - 1) {
      SerialBit(bs[..|bs| - 1], j);
    } else {
      assert j / 8 == |bs| - 1 && j % 8 == j - 8 * (|bs| - 1);
    }
  }
}
