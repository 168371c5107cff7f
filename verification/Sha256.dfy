/**
 * SHA-256 as FIPS 180-4 defines it: padding (section 5.1.1), the message schedule and
 * the rounds (section 6.2.2), all as recursive functions.
 */
module Sha256Spec {
  import opened Bits

  type Word = bv32

  // The sixty-four round constants in four rows of sixteen.
  const K0: seq<Word> := [
    0x428a2f98, 0x71374491, 0xb5c0fbcf, 0xe9b5dba5, 0x3956c25b, 0x59f111f1, 0x923f82a4, 0xab1c5ed5,
    0xd807aa98, 0x12835b01, 0x243185be, 0x550c7dc3, 0x72be5d74, 0x80deb1fe, 0x9bdc06a7, 0xc19bf174
  ]
  const K1: seq<Word> := [
    0xe49b69c1, 0xefbe4786, 0x0fc19dc6, 0x240ca1cc, 0x2de92c6f, 0x4a7484aa, 0x5cb0a9dc, 0x76f988da,
    0x983e5152, 0xa831c66d, 0xb00327c8, 0xbf597fc7, 0xc6e00bf3, 0xd5a79147, 0x06ca6351, 0x14292967
  ]
  const K2: seq<Word> := [
    0x27b70a85, 0x2e1b2138, 0x4d2c6dfc, 0x53380d13, 0x650a7354, 0x766a0abb, 0x81c2c92e, 0x92722c85,
    0xa2bfe8a1, 0xa81a664b, 0xc24b8b70, 0xc76c51a3, 0xd192e819, 0xd6990624, 0xf40e3585, 0x106aa070
  ]
  const K3: seq<Word> := [
    0x19a4c116, 0x1e376c08, 0x2748774c, 0x34b0bcb5, 0x391c0cb3, 0x4ed8aa4a, 0x5b9cca4f, 0x682e6ff3,
    0x748f82ee, 0x78a5636f, 0x84c87814, 0x8cc70208, 0x90befffa, 0xa4506ceb, 0xbef9a3f7, 0xc67178f2
  ]
  const K: seq<Word> := K0 + K1 + K2 + K3

  /** The eight working variables, and equally the hash value between blocks. */
  datatype Regs = Regs(a: Word, b: Word, c: Word, d: Word, e: Word, f: Word, g: Word, h: Word)

  const H0 := Regs(0x6a09e667, 0xbb67ae85, 0x3c6ef372, 0xa54ff53a, 0x510e527f, 0x9b05688c, 0x1f83d9ab, 0x5be0cd19)

  /** Addition modulo 2^32. */
  function Add(x: Word, y: Word): Word { x + y }
  function Add4(p: Word, q: Word, r: Word, s: Word): Word { p + q + r + s }

  // ----- the functions of section 4.1.2 --------------------------------------------

  function Ch(x: Word, y: Word, z: Word): Word { (x & y) ^ (!x & z) }
  function Maj(x: Word, y: Word, z: Word): Word { (x & y) ^ (x & z) ^ (y & z) }
  function BigSigma0(x: Word): Word { x.RotateRight(2) ^ x.RotateRight(13) ^ x.RotateRight(22) }
  function BigSigma1(x: Word): Word { x.RotateRight(6) ^ x.RotateRight(11) ^ x.RotateRight(25) }
  function SmallSigma0(x: Word): Word { x.RotateRight(7) ^ x.RotateRight(18) ^ (x >> 3) }
  function SmallSigma1(x: Word): Word { x.RotateRight(17) ^ x.RotateRight(19) ^ (x >> 10) }

  // ----- one block --------------------------------------------------------------------

  function BigEndianWord(b0: byte, b1: byte, b2: byte, b3: byte): Word {
    (((b0 as int * 256 + b1) * 256 + b2) * 256 + b3) as bv32
  }

  /** W(t) of the message schedule. */
  function Schedule(block: seq<byte>, t: nat): Word
    requires |block| == 64 && t < 64
  {
    if t < 16 then BigEndianWord(block[4 * t], block[4 * t + 1], block[4 * t + 2], block[4 * t + 3])
    else Add4(SmallSigma1(Schedule(block, t - 2)), Schedule(block, t - 7),
              SmallSigma0(Schedule(block, t - 15)), Schedule(block, t - 16))
  }

  function Round(r: Regs, k: Word, w: Word): Regs {
    var t1 := Add(Add(Add(Add(r.h, BigSigma1(r.e)), Ch(r.e, r.f, r.g)), k), w);
    var t2 := Add(BigSigma0(r.a), Maj(r.a, r.b, r.c));
    Regs(Add(t1, t2), r.a, r.b, r.c, Add(r.d, t1), r.e, r.f, r.g)
  }

  /** The working variables after t rounds. */
  function Rounds(h: Regs, block: seq<byte>, t: nat): Regs
    requires |block| == 64 && t <= 64
  {
    if t == 0 then h else Round(Rounds(h, block, t - 1), K[t - 1], Schedule(block, t - 1))
  }

  function Sum(p: Regs, q: Regs): Regs {
    Regs(Add(p.a, q.a), Add(p.b, q.b), Add(p.c, q.c), Add(p.d, q.d),
         Add(p.e, q.e), Add(p.f, q.f), Add(p.g, q.g), Add(p.h, q.h))
  }

  function Block(h: Regs, block: seq<byte>): Regs
    requires |block| == 64
  {
    Sum(h, Rounds(h, block, 64))
  }

  // ----- a whole message -----------------------------------------------------------------

  /** The hash value after all complete blocks. */
  function Blocks(message: seq<byte>): Regs {
    if |message| < 64 then H0
    else Block(Blocks(message[..|message| - 64]), message[|message| - 64..])
  }

  function Zeros(n: nat): (z: seq<byte>)
    ensures |z| == n && forall i :: 0 <= i < n ==> z[i] == 0
  {
    seq(n, _ => 0)
  }

  function Be64(n: nat): (b: seq<byte>)
    ensures |b| == 8
  {
    [n / 0x100_0000_0000_0000 % 256, n / 0x1_0000_0000_0000 % 256, n / 0x100_0000_0000 % 256, n / 0x1_0000_0000 % 256,
     n / 0x100_0000 % 256, n / 0x1_0000 % 256, n / 0x100 % 256, n % 256]
  }

  /** The number of zero bytes: the least that leaves the length field at the end of a block. */
  function ZeroBytes(length: nat): (k: nat)
    ensures k < 64 && (length + 1 + k) % 64 == 56
  {
    (119 - length % 64) % 64
  }

  /** One bit, zeros, and the length in bits as a 64-bit big-endian number. */
  function Padded(message: seq<byte>): seq<byte> {
    message + [0x80] + Zeros(ZeroBytes(|message|)) + Be64(8 * |message|)
  }

  function Digest(message: seq<byte>): Regs {
    Blocks(Padded(message))
  }

  // ----- the printed form ------------------------------------------------------------------

  function Nibble(n: Word): char {
    if n == 0 then '0' else if n == 1 then '1' else if n == 2 then '2' else if n == 3 then '3'
    else if n == 4 then '4' else if n == 5 then '5' else if n == 6 then '6' else if n == 7 then '7'
    else if n == 8 then '8' else if n == 9 then '9' else if n == 10 then 'a' else if n == 11 then 'b'
    else if n == 12 then 'c' else if n == 13 then 'd' else if n == 14 then 'e' else 'f'
  }

  function Hex(w: Word): (s: string)
    ensures |s| == 8
  {
    [Nibble(w >> 28), Nibble((w >> 24) & 0xF), Nibble((w >> 20) & 0xF), Nibble((w >> 16) & 0xF),
     Nibble((w >> 12) & 0xF), Nibble((w >> 8) & 0xF), Nibble((w >> 4) & 0xF), Nibble(w & 0xF)]
  }

  function HexOf(r: Regs): string {
    Hex(r.a) + Hex(r.b) + Hex(r.c) + Hex(r.d) + Hex(r.e) + Hex(r.f) + Hex(r.g) + Hex(r.h)
  }
}

/** The routine itself: one block buffer, rolling registers, a one- or two-block tail. */
module Sha256 {
  import opened Bits
  import opened Sha256Spec

  ghost function HashOf(h: seq<Word>): Regs
    requires |h| == 8
  {
    Regs(h[0], h[1], h[2], h[3], h[4], h[5], h[6], h[7])
  }

  method Compress(h: array<Word>, block: array<byte>)
    requires h.Length == 8 && block.Length == 64
    modifies h
    ensures HashOf(h[..]) == Block(old(HashOf(h[..])), block[..])
  {
    hide Add, BigSigma0, BigSigma1, Ch, Maj, Schedule;
    var w := Expand(block);
    var a, b, c, d, e, f, g, hh := h[0], h[1], h[2], h[3], h[4], h[5], h[6], h[7];
    ghost var start, bs := Regs(a, b, c, d, e, f, g, hh), block[..];
    for i := 0 to 64
      invariant Regs(a, b, c, d, e, f, g, hh) == Rounds(start, bs, i)
      invariant w.Length == 64 && forall j :: 0 <= j < 64 ==> w[j] == Schedule(bs, j)
    {
      var s1 := BigSigma1(e);
      var ch := Ch(e, f, g);
      var t1 := Add(Add(Add(Add(hh, s1), ch), K[i]), w[i]);
      var s0 := BigSigma0(a);
      var maj := Maj(a, b, c);
      var t2 := Add(s0, maj);
      hh := g;
      g := f;
      f := e;
      e := Add(d, t1);
      d := c;
      c := b;
      b := a;
      a := Add(t1, t2);
    }
    h[0] := Add(h[0], a);
    h[1] := Add(h[1], b);
    h[2] := Add(h[2], c);
    h[3] := Add(h[3], d);
    h[4] := Add(h[4], e);
    h[5] := Add(h[5], f);
    h[6] := Add(h[6], g);
    h[7] := Add(h[7], hh);
  }

  method Expand(block: array<byte>) returns (w: array<Word>)
    requires block.Length == 64
    ensures fresh(w) && w.Length == 64 && forall j :: 0 <= j < 64 ==> w[j] == Schedule(block[..], j)
  {
    hide Add4, SmallSigma0, SmallSigma1, BigEndianWord, Schedule;
    w := new Word[64];
    for i := 0 to 16
      invariant forall j :: 0 <= j < i ==> w[j] == Schedule(block[..], j)
    {
      w[i] := BigEndianWord(block[i * 4], block[i * 4 + 1], block[i * 4 + 2], block[i * 4 + 3]);
      FirstWords(block[..], i);
    }
    for i := 16 to 64
      invariant forall j :: 0 <= j < i ==> w[j] == Schedule(block[..], j)
    {
      var s0 := SmallSigma0(w[i - 15]);
      var s1 := SmallSigma1(w[i - 2]);
      LaterWords(block[..], i);
      w[i] := Add4(w[i - 16], s0, w[i - 7], s1);
    }
  }

  lemma FirstWords(block: seq<byte>, t: nat)
    requires |block| == 64 && t < 16
    ensures Schedule(block, t) == BigEndianWord(block[t * 4], block[t * 4 + 1], block[t * 4 + 2], block[t * 4 + 3])
  {
    hide BigEndianWord;
  }

  lemma LaterWords(block: seq<byte>, t: nat)
    requires |block| == 64 && 16 <= t < 64
    ensures Schedule(block, t) ==
      Add4(Schedule(block, t - 16), SmallSigma0(Schedule(block, t - 15)), Schedule(block, t - 7),
           SmallSigma1(Schedule(block, t - 2)))
  {
    hide Add4, SmallSigma0, SmallSigma1, BigEndianWord;
    SumReordered(Schedule(block, t - 16), SmallSigma0(Schedule(block, t - 15)), Schedule(block, t - 7),
                 SmallSigma1(Schedule(block, t - 2)));
  }

  /** The code adds the four schedule terms in the order opposite to the standard's. */
  lemma SumReordered(p: Word, q: Word, r: Word, s: Word)
    ensures Add4(p, q, r, s) == Add4(s, r, q, p)
  {
  }

  lemma BlocksSnoc(message: seq<byte>, block: seq<byte>)
    requires |block| == 64
    ensures Blocks(message + block) == Block(Blocks(message), block)
  {
    hide Block;
    assert (message + block)[..|message|] == message;
    assert (message + block)[|message|..] == block;
  }

  /** Overwrite the block buffer with some bytes and zeros after them. */
  method Load(block: array<byte>, bytes: seq<byte>)
    requires block.Length == 64 && |bytes| <= 64
    modifies block
    ensures block[..] == bytes + Zeros(64 - |bytes|)
  {
    forall i | 0 <= i < 64 {
      block[i] := if i < |bytes| then bytes[i] else 0;
    }
  }

  method Sha256Hex(data: seq<byte>) returns (out: string)
    requires |data| < 0x2000_0000_0000_0000
    ensures out == HexOf(Digest(data))
  {
    hide Block, HexOf;
    var h := new Word[8][H0.a, H0.b, H0.c, H0.d, H0.e, H0.f, H0.g, H0.h];
    var block := new byte[64];
    var full := |data| / 64;
    for i := 0 to full
      invariant HashOf(h[..]) == Blocks(data[..64 * i])
    {
      Load(block, data[64 * i..64 * i + 64]);
      assert block[..] == data[64 * i..64 * i + 64];
      Compress(h, block);
      BlocksSnoc(data[..64 * i], block[..]);
      assert data[..64 * i] + data[64 * i..64 * i + 64] == data[..64 * (i + 1)];
    }
    Finish(h, block, data);
    out := HexString(h);
  }

  method HexString(h: array<Word>) returns (out: string)
    requires h.Length == 8
    ensures out == HexOf(HashOf(h[..]))
  {
    hide Hex, HexOf;
    out := "";
    for i := 0 to 8
      invariant out == HexWords(h[..i])
    {
      assert h[..i + 1][..i] == h[..i];
      out := out + Hex(h[i]);
    }
    assert h[..8] == h[..];
    EightWords(h[..]);
  }

  function HexWords(words: seq<Word>): string {
    if words == [] then "" else HexWords(words[..|words| - 1]) + Hex(words[|words| - 1])
  }

  lemma TwoWords(words: seq<Word>)
    requires |words| >= 2
    ensures HexWords(words) ==
      HexWords(words[..|words| - 2]) + Hex(words[|words| - 2]) + Hex(words[|words| - 1])
  {
    hide Hex;
    assert words[..|words| - 1][..|words| - 2] == words[..|words| - 2];
  }

  lemma NoWords()
    ensures HexWords([]) == ""
  {
  }

  lemma EightWords(words: seq<Word>)
    requires |words| == 8
    ensures HexWords(words) == HexOf(HashOf(words))
  {
    hide HexWords, Hex;
    NoWords();
    TwoWords(words);
    TwoWords(words[..6]);
    TwoWords(words[..4]);
    TwoWords(words[..2]);
    assert words[..6][..4] == words[..4] && words[..4][..2] == words[..2] && words[..2][..0] == [];
    assert "" + Hex(words[0]) == Hex(words[0]);
  }

  /** The tail: what is left of the data, the marker, and the length in one block or two. */
  method Finish(h: array<Word>, block: array<byte>, data: seq<byte>)
    requires h.Length == 8 && block.Length == 64 && |data| < 0x2000_0000_0000_0000
    requires HashOf(h[..]) == Blocks(data[..64 * (|data| / 64)])
    modifies h, block
    ensures HashOf(h[..]) == Digest(data)
  {
    hide Block, Blocks, Be64, ZeroBytes;
    var whole := 64 * (|data| / 64);
    var rest := data[whole..];
    var marked := rest + [0x80];
    Load(block, marked);
    ghost var done := data[..whole];
    if |rest| >= 56 {
      Compress(h, block);
      BlocksSnoc(done, block[..]);
      done := done + block[..];
      Load(block, []);
    }
    ghost var head := block[..56];
    var bits := 8 * |data| % 0x1_0000_0000_0000_0000;
    var field := Be64(bits);
    forall i | 56 <= i < 64 {
      block[i] := field[i - 56];
    }
    assert block[..] == head + Be64(8 * |data|);
    Compress(h, block);
    BlocksSnoc(done, block[..]);
    TailIsPadding(data, done, head);
  }

  /** The blocks processed are exactly the padded message. */
  lemma TailIsPadding(data: seq<byte>, done: seq<byte>, head: seq<byte>)
    requires var whole := 64 * (|data| / 64);
      var marked := data[whole..] + [0x80];
      if |marked| > 56 then done == data[..whole] + (marked + Zeros(64 - |marked|)) && head == Zeros(56)
      else done == data[..whole] && head == marked + Zeros(56 - |marked|)
    ensures done + (head + Be64(8 * |data|)) == Padded(data)
  {
    hide Be64, ZeroBytes;
    var whole := 64 * (|data| / 64);
    var marked := data[whole..] + [0x80];
    TailZeros(|data|);
    assert data + [0x80] == data[..whole] + marked;
    if |marked| > 56 {
      assert Zeros(64 - |marked|) + Zeros(56) == Zeros(120 - |marked|);
      assert done + (head + Be64(8 * |data|)) == data[..whole] + marked + (Zeros(64 - |marked|) + Zeros(56)) +
          Be64(8 * |data|);
    } else {
      assert done + (head + Be64(8 * |data|)) == data[..whole] + marked + Zeros(56 - |marked|) + Be64(8 * |data|);
    }
  }

  lemma TailZeros(length: nat)
    ensures var marked := length % 64 + 1; ZeroBytes(length) == if marked > 56 then 120 - marked else 56 - marked
  {
  }

  /** The padding is the shortest that puts the length field at the end of a block. */
  lemma PaddingIsShortest(message: seq<byte>, k: nat)
    ensures |Padded(message)| % 64 == 0
    ensures (|message| + 1 + k + 8) % 64 == 0 ==> k >= ZeroBytes(|message|)
  {
    var n, z := |message| + 9, ZeroBytes(|message|);
    assert (n + z) % 64 == 0 by {
      assert n + z == (|message| + 1 + z) / 64 * 64 + 64;
    }
    if (n + k) % 64 == 0 {
      MultiplesApart(n + k, n + z);
    }
  }

  lemma MultiplesApart(a: nat, b: nat)
    requires a % 64 == 0 && b % 64 == 0
    ensures a < b ==> a + 64 <= b
  {
  }
}
