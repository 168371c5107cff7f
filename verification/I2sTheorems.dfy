/** The transmitter's waveform and what any receiver state makes of it. */
module I2sTheorems {
  import opened Arith
  import opened Bits
  import opened I2sSpec

  /** Bit i of a word, counted from the least significant. */
  function WordBit(v: u16, i: nat): bool {
    v / Pow2(i) % 2 == 1
  }

  function Run(d: Decoder, wave: seq<Sample>): (r: Decoder)
    requires d.Valid()
    ensures r.Valid()
  {
    if wave == [] then d else Step(Run(d, wave[..|wave| - 1]), wave[|wave| - 1])
  }

  lemma {:induction false} RunConcat(d: Decoder, a: seq<Sample>, b: seq<Sample>)
    requires d.Valid()
    ensures Run(d, a + b) == Run(Run(d, a), b)
  {
    hide Step;
    if b == [] {
      assert a + b == a;
    } else {
      RunConcat(d, a, b[..|b| - 1]);
      assert (a + b)[..|a + b| - 1] == a + b[..|b| - 1];
      assert (a + b)[|a + b| - 1] == b[|b| - 1];
    }
  }

  /** One bit: DOUT settles with BCLK low, then BCLK rises. */
  function BitWave(lrclk: bool, bit: bool): seq<Sample> {
    [Sample(false, lrclk, bit), Sample(true, lrclk, bit)]
  }

  /** Bits 15 down to `low` of a word under one word-select level. */
  function HalfWave(lrclk: bool, v: u16, low: nat): (w: seq<Sample>)
    requires low <= 16
    decreases 16 - low
  {
    if low == 16 then [] else HalfWave(lrclk, v, low + 1) + BitWave(lrclk, WordBit(v, low))
  }

  /** The PIO program's frame: each word's last bit comes after the word-select edge. */
  function FrameWave(left: u16, right: u16): seq<Sample> {
    HalfWave(true, right, 1) + BitWave(false, WordBit(right, 0)) +
    HalfWave(false, left, 1) + BitWave(true, WordBit(left, 0))
  }

  lemma RunOfTwo(d: Decoder, a: Sample, b: Sample)
    requires d.Valid()
    ensures Run(d, [a, b]) == Step(Step(d, a), b)
  {
    hide Step;
    assert [a, b][..1] == [a] && [a][..0] == [];
    assert Run(d, [a]) == Step(d, a);
  }

  lemma LevelsForgotten(d: Decoder, lrclk: bool, bit: bool)
    ensures OnBclkRising(d.(prevBclk := false, prevLrclk := lrclk), bit).(prevBclk := true, prevLrclk := lrclk) ==
            OnBclkRising(d, bit).(prevBclk := true, prevLrclk := lrclk)
  {
    hide ShiftWord, Signed;
  }

  lemma BitTick(d: Decoder, lrclk: bool, bit: bool)
    requires d.Valid()
    ensures var e := if lrclk != d.prevLrclk then OnLrclkEdge(d, lrclk) else d;
      Run(d, BitWave(lrclk, bit)) == OnBclkRising(e, bit).(prevBclk := true, prevLrclk := lrclk)
  {
    hide OnLrclkEdge, OnBclkRising, Run;
    RunOfTwo(d, Sample(false, lrclk, bit), Sample(true, lrclk, bit));
    LevelsForgotten(if lrclk != d.prevLrclk then OnLrclkEdge(d, lrclk) else d, lrclk, bit);
  }

  lemma HalvedTwice(v: u16, i: nat)
    ensures v / Pow2(i) == 2 * (v / Pow2(i + 1)) + Bit(WordBit(v, i))
    ensures 0 <= v / Pow2(i + 1) <= v
    ensures i >= 1 ==> v / Pow2(i) < 0x8000
  {
    var p := Pow2(i);
    assert Pow2(i + 1) == 2 * p;
    NestedHalf(v, p);
    if i >= 1 {
      NestedHalf(v, Pow2(i - 1));
    }
  }

  lemma NestedHalf(v: nat, p: nat)
    requires p >= 1
    ensures v / (2 * p) == v / p / 2
    ensures v / p <= v && v / (2 * p) <= v / 2
  {
    var q, r := v / p, v % p;
    assert v == q * p + r;
    MulMonotone(1, p, q);
    var h, b := q / 2, q % 2;
    assert q * p == h * (2 * p) + b * p;
    DivModUnique(v, 2 * p, h, b * p + r);
  }

  // ----- the main result ------------------------------------------------------------

  /** The start of a left-to-right pairing: word select high, nothing in flight, nothing waiting. */
  predicate Aligned(d: Decoder) {
    d.Valid() && d.prevLrclk && d.word == Word(0, 0, Right, None) && d.halves == NO_HALVES
  }

  /** Where a transmitter may start: aligned, or word select low with anything but fifteen bits taken. */
  predicate Receptive(d: Decoder) {
    d.Valid() && (Aligned(d) || (!d.prevLrclk && d.word.bitCount != 15))
  }

  /** The bits of a word from 15 down to `low`. */
  function Upper(v: u16, low: nat): (acc: u16)
    ensures low >= 1 ==> acc < 0x8000
  {
    HalvedTwice(v, low);
    v / Pow2(low)
  }

  lemma UpperShifted(v: u16, low: nat)
    ensures ShiftWord(Upper(v, low + 1), WordBit(v, low)) == Upper(v, low)
  {
    HalvedTwice(v, low);
  }

  lemma NothingUpper(v: u16)
    ensures Upper(v, 16) == 0
  {
    TopBit(v);
  }

  /** Fifteen clocks under one word-select level leave the top fifteen bits in the accumulator. */
  lemma {:induction false} HalfTaken(d: Decoder, lrclk: bool, v: u16, low: nat)
    requires d.Valid() && 1 <= low <= 15
    requires var e := if lrclk != d.prevLrclk then OnLrclkEdge(d, lrclk) else d;
      e.word == Word(0, 0, e.word.current, None)
    ensures var e := if lrclk != d.prevLrclk then OnLrclkEdge(d, lrclk) else d;
      Run(d, HalfWave(lrclk, v, low)) ==
        e.(prevBclk := true, prevLrclk := lrclk,
           word := e.word.(accumulator := Upper(v, low), bitCount := 16 - low))
    decreases 16 - low
  {
    hide Step, BitWave, WordBit, ShiftWord, Upper, OnLrclkEdge, Committed;
    var bit := WordBit(v, low);
    UpperShifted(v, low);
    if low == 15 {
      NothingUpper(v);
      assert HalfWave(lrclk, v, 15) == BitWave(lrclk, bit) by {
        assert [] + BitWave(lrclk, bit) == BitWave(lrclk, bit);
      }
      BitTick(d, lrclk, bit);
    } else {
      HalfTaken(d, lrclk, v, low + 1);
      RunConcat(d, HalfWave(lrclk, v, low + 1), BitWave(lrclk, bit));
      BitTick(Run(d, HalfWave(lrclk, v, low + 1)), lrclk, bit);
    }
  }

  lemma TopBit(v: u16)
    ensures v / Pow2(16) == 0
  {
    assert Pow2(4) == 16;
    assert Pow2(8) == 16 * Pow2(4);
    assert Pow2(12) == 16 * Pow2(8);
    assert Pow2(16) == 16 * Pow2(12);
  }

  /** The last bit of a word arrives with the other word-select level and completes it. */
  lemma LastBitTaken(d: Decoder, lrclk: bool, v: u16)
    requires d.Valid() && lrclk != d.prevLrclk
    requires 0 <= v / 2 < 0x8000 && d.word == Word(v / 2, 15, if lrclk then Left else Right, None)
    ensures Run(d, BitWave(lrclk, WordBit(v, 0))) ==
      Committed(d.(word := Word(0, 0, if lrclk then Right else Left, None)), d.word.current, Signed(v))
        .(prevBclk := true, prevLrclk := lrclk)
  {
    hide Step, BitWave, Run;
    BitTick(d, lrclk, WordBit(v, 0));
    assert ShiftWord(v / 2, WordBit(v, 0)) == v;
  }

  lemma Pow2Small(v: u16)
    ensures Upper(v, 1) == v / 2 && v / 2 < 0x8000
  {
    assert Pow2(1) == 2;
  }

  /** One frame sent to a receptive decoder is appended exactly, and leaves it aligned. */
  lemma FrameDecoded(d: Decoder, left: u16, right: u16)
    requires Receptive(d)
    ensures var r := Run(d, FrameWave(left, right));
      Aligned(r) && r.frames == d.frames + [(Signed(left), Signed(right))]
  {
    hide Step, Run, HalfWave, BitWave, WordBit, Upper;
    var h1, b1, h2, b2 := HalfWave(true, right, 1), BitWave(false, WordBit(right, 0)),
                          HalfWave(false, left, 1), BitWave(true, WordBit(left, 0));
    RunConcat(d, h1, b1);
    RunConcat(d, h1 + b1, h2);
    RunConcat(d, h1 + b1 + h2, b2);
    Pow2Small(right);
    Pow2Small(left);
    HalfTaken(d, true, right, 1);
    LastBitTaken(Run(d, h1), false, right);
    HalfTaken(Run(d, h1 + b1), false, left, 1);
    LastBitTaken(Run(d, h1 + b1 + h2), true, left);
  }

  function StreamWave(frames: seq<(u16, u16)>): seq<Sample> {
    if frames == [] then []
    else
      var f := frames[|frames| - 1];
      StreamWave(frames[..|frames| - 1]) + FrameWave(f.0, f.1)
  }

  function Samples(frames: seq<(u16, u16)>): (s: seq<Stereo>)
    ensures |s| == |frames|
  {
    if frames == [] then []
    else
      var f := frames[|frames| - 1];
      Samples(frames[..|frames| - 1]) + [(Signed(f.0), Signed(f.1))]
  }

  /** Whatever came before, a receptive decoder appends exactly the frames that are sent. */
  lemma {:induction false} StreamDecoded(d: Decoder, frames: seq<(u16, u16)>)
    requires Receptive(d)
    ensures var r := Run(d, StreamWave(frames));
      Receptive(r) && r.frames == d.frames + Samples(frames) && (frames != [] ==> Aligned(r))
  {
    hide Step, FrameWave;
    if frames != [] {
      var front, f := frames[..|frames| - 1], frames[|frames| - 1];
      StreamDecoded(d, front);
      RunConcat(d, StreamWave(front), FrameWave(f.0, f.1));
      FrameDecoded(Run(d, StreamWave(front)), f.0, f.1);
    }
  }

  // ----- the condition is exact ----------------------------------------------------------

  /**
   * What a right half that is still waiting is paired with: the stale word, completed by a bit of
   * the new right word.
   */
  function Spurious(d: Decoder, right: u16): seq<Stereo> {
    if d.halves.right.None? then []
    else [(Signed(ShiftWord(d.word.accumulator, WordBit(right, 15))), d.halves.right.value)]
  }

  /** Starting with fifteen bits taken, the first clock goes to the stale word and the window comes up short. */
  lemma {:induction false} StaleWordTakesABit(d: Decoder, v: u16, low: nat)
    requires d.Valid() && !d.prevLrclk && d.word.bitCount == 15 && 1 <= low <= 15
    ensures var r := Run(d, HalfWave(true, v, low));
      r.frames == d.frames + Spurious(d, v) && r.prevLrclk && r.word.finalizing.None? && r.word.bitCount == 15 - low
    decreases 16 - low
  {
    hide Step, BitWave, WordBit;
    var bit := WordBit(v, low);
    if low == 15 {
      assert HalfWave(true, v, 15) == BitWave(true, bit) by {
        assert [] + BitWave(true, bit) == BitWave(true, bit);
      }
      BitTick(d, true, bit);
    } else {
      StaleWordTakesABit(d, v, low + 1);
      RunConcat(d, HalfWave(true, v, low + 1), BitWave(true, bit));
      BitTick(Run(d, HalfWave(true, v, low + 1)), true, bit);
    }
  }

  /** Clocks that follow without a word-select edge only fill the word up. */
  lemma {:induction false} NothingCompleted(d: Decoder, v: u16, low: nat)
    requires d.Valid() && !d.prevLrclk && d.word.finalizing.None? && 1 <= low <= 15
    ensures var r := Run(d, HalfWave(false, v, low));
      && r.frames == d.frames && r.halves == d.halves && !r.prevLrclk && r.word.finalizing.None?
      && r.word.bitCount == if d.word.bitCount + 16 - low <= 15 then d.word.bitCount + 16 - low else 15
    decreases 16 - low
  {
    hide Step, BitWave, WordBit;
    var bit := WordBit(v, low);
    if low == 15 {
      assert HalfWave(false, v, 15) == BitWave(false, bit) by {
        assert [] + BitWave(false, bit) == BitWave(false, bit);
      }
      BitTick(d, false, bit);
    } else {
      NothingCompleted(d, v, low + 1);
      RunConcat(d, HalfWave(false, v, low + 1), BitWave(false, bit));
      BitTick(Run(d, HalfWave(false, v, low + 1)), false, bit);
    }
  }

  /**
   * Word select high and nothing in flight, but with a left half still waiting: it will be paired
   * with the wrong mate.
   */
  predicate Skewed(d: Decoder) {
    && d.Valid() && d.prevLrclk && d.word == Word(0, 0, Right, None)
    && d.halves.left.Some? && d.halves.right.None?
  }

  lemma {:induction false} HighBits(v: u16, k: nat)
    requires k <= 16
    ensures 0 <= v / Pow2(k) < Pow2(16 - k)
    decreases 16 - k
  {
    if k == 16 {
      TopBit(v);
    } else {
      HighBits(v, k + 1);
      HalvedTwice(v, k);
      assert Pow2(16 - k) == 2 * Pow2(15 - k);
    }
  }

  /** The accumulator after one stray bit and the bits of a word from 15 down to `low`. */
  function Strayed(stray: bool, v: u16, low: nat): (acc: u16)
    requires 2 <= low <= 16
    ensures acc < 2 * Pow2(16 - low) <= 0x8000
  {
    HighBits(v, low);
    Doubled(low);
    Bit(stray) * Pow2(16 - low) + v / Pow2(low)
  }

  lemma {:induction false} Doubled(low: nat)
    requires 2 <= low <= 16
    ensures 2 * Pow2(16 - low) <= 0x8000
  {
    if low == 2 {
      assert Pow2(4) == 16;
      assert Pow2(8) == 16 * Pow2(4);
      assert Pow2(12) == 16 * Pow2(8);
      assert Pow2(14) == 4 * Pow2(12);
    } else {
      Doubled(low - 1);
      assert Pow2(17 - low) == 2 * Pow2(16 - low);
    }
  }

  lemma StrayShifted(stray: bool, v: u16, low: nat)
    requires 2 <= low <= 15
    ensures Strayed(stray, v, low + 1) < 0x8000
    ensures ShiftWord(Strayed(stray, v, low + 1), WordBit(v, low)) == Strayed(stray, v, low)
  {
    HalvedTwice(v, low);
    Doubled(low + 1);
    assert Pow2(16 - low) == 2 * Pow2(15 - low);
  }

  /** A word that is shifted in behind a stray bit. */
  lemma {:induction false} TakenBehind(d: Decoder, stray: bool, v: u16, low: nat)
    requires d.Valid() && !d.prevLrclk && d.word == Word(Bit(stray), 1, Left, None) && 2 <= low <= 16
    ensures Run(d, HalfWave(false, v, low)).word == Word(Strayed(stray, v, low), 17 - low, Left, None)
    ensures !Run(d, HalfWave(false, v, low)).prevLrclk
    decreases 16 - low
  {
    hide Step, BitWave, WordBit, ShiftWord, Strayed;
    if low == 16 {
      NothingBehind(stray, v);
    } else {
      TakenBehind(d, stray, v, low + 1);
      RunConcat(d, HalfWave(false, v, low + 1), BitWave(false, WordBit(v, low)));
      BitTick(Run(d, HalfWave(false, v, low + 1)), false, WordBit(v, low));
      StrayShifted(stray, v, low);
    }
  }

  lemma NothingBehind(stray: bool, v: u16)
    ensures Strayed(stray, v, 16) == Bit(stray)
  {
    TopBit(v);
  }

  /** The last bit of the right word, then bits 15 to 2 and bit 0 of the left one: bit 1 found no room. */
  function Jumbled(left: u16, right: u16): u16 {
    right % 2 * 0x8000 + left / 4 * 2 + left % 2
  }

  lemma JumbledWord(left: u16, right: u16)
    ensures ShiftWord(Strayed(WordBit(right, 0), left, 2), WordBit(left, 0)) == Jumbled(left, right)
  {
    assert Pow2(1) == 2 && Pow2(2) == 4;
    assert Pow2(4) == 16;
    assert Pow2(8) == 16 * Pow2(4);
    assert Pow2(12) == 16 * Pow2(8);
    assert Pow2(14) == 4 * Pow2(12);
  }

  /** From the stray bit on: the left word is taken behind it, and its bit 1 is ignored. */
  lemma LeftJumbled(d: Decoder, left: u16, right: u16)
    requires d.Valid() && !d.prevLrclk && d.word == Word(Bit(WordBit(right, 0)), 1, Left, None) && d.halves == NO_HALVES
    ensures var r := Run(d, HalfWave(false, left, 1) + BitWave(true, WordBit(left, 0)));
      Skewed(r) && r.frames == d.frames && r.halves.left == Some(Signed(Jumbled(left, right)))
  {
    hide Step, Run, BitWave, WordBit, Strayed, ShiftWord, Signed, Jumbled;
    var most, bit := HalfWave(false, left, 2), BitWave(false, WordBit(left, 1));
    TakenBehind(d, WordBit(right, 0), left, 2);
    NothingCompleted(d, left, 2);
    RunConcat(d, most, bit);
    BitTick(Run(d, most), false, WordBit(left, 1));
    RunConcat(d, most + bit, BitWave(true, WordBit(left, 0)));
    BitTick(Run(d, most + bit), true, WordBit(left, 0));
    JumbledWord(left, right);
  }

  /** A frame that finds fifteen bits taken is lost, and leaves a jumbled left half behind. */
  lemma FrameSkews(d: Decoder, left: u16, right: u16)
    requires d.Valid() && !d.prevLrclk && d.word.bitCount == 15
    ensures var r := Run(d, FrameWave(left, right));
      Skewed(r) && r.frames == d.frames + Spurious(d, right) && r.halves.left == Some(Signed(Jumbled(left, right)))
  {
    hide Step, Run, HalfWave, BitWave, WordBit, Signed, Jumbled, Spurious;
    var h1, b1, h2, b2 := HalfWave(true, right, 1), BitWave(false, WordBit(right, 0)),
                          HalfWave(false, left, 1), BitWave(true, WordBit(left, 0));
    assert h1 + b1 + h2 + b2 == h1 + b1 + (h2 + b2);
    RunConcat(d, h1, b1);
    RunConcat(d, h1 + b1, h2 + b2);
    StaleWordTakesABit(d, right, 1);
    BitTick(Run(d, h1), false, WordBit(right, 0));
    LeftJumbled(Run(d, h1 + b1), left, right);
  }

  /** From then on every frame's right sample goes out with the left one of the frame before. */
  lemma SkewStays(d: Decoder, left: u16, right: u16)
    requires Skewed(d)
    ensures var r := Run(d, FrameWave(left, right));
      && Skewed(r) && r.halves.left == Some(Signed(left))
      && r.frames == d.frames + [(d.halves.left.value, Signed(right))]
  {
    hide Step, Run, HalfWave, BitWave, WordBit, Upper;
    var h1, b1, h2, b2 := HalfWave(true, right, 1), BitWave(false, WordBit(right, 0)),
                          HalfWave(false, left, 1), BitWave(true, WordBit(left, 0));
    RunConcat(d, h1, b1);
    RunConcat(d, h1 + b1, h2);
    RunConcat(d, h1 + b1 + h2, b2);
    Pow2Small(right);
    Pow2Small(left);
    HalfTaken(d, true, right, 1);
    LastBitTaken(Run(d, h1), false, right);
    HalfTaken(Run(d, h1 + b1), false, left, 1);
    LastBitTaken(Run(d, h1 + b1 + h2), true, left);
  }

  /**
   * With word select low, whatever is waiting, a frame leaves the decoder aligned exactly unless
   * fifteen bits were taken.
   */
  lemma AlignedIffNotFifteen(d: Decoder, left: u16, right: u16)
    requires d.Valid() && !d.prevLrclk
    ensures Aligned(Run(d, FrameWave(left, right))) <==> d.word.bitCount != 15
  {
    hide Step, Run, FrameWave;
    if d.word.bitCount == 15 {
      FrameSkews(d, left, right);
    } else {
      FrameDecoded(d, left, right);
    }
  }

  function LastLeft(first: int, frames: seq<(u16, u16)>): int {
    if frames == [] then first else Signed(frames[|frames| - 1].0)
  }

  /** Every right sample with the left sample of the frame before, the first one with whatever was waiting. */
  function Mispaired(first: int, frames: seq<(u16, u16)>): (s: seq<Stereo>)
    ensures |s| == |frames|
  {
    if frames == [] then []
    else
      var n := |frames| - 1;
      Mispaired(first, frames[..n]) + [(LastLeft(first, frames[..n]), Signed(frames[n].1))]
  }

  lemma NothingRun(d: Decoder)
    requires d.Valid()
    ensures Run(d, []) == d
  {
  }

  lemma {:induction false} StreamMispaired(d: Decoder, frames: seq<(u16, u16)>)
    requires Skewed(d)
    ensures var r := Run(d, StreamWave(frames));
      && Skewed(r) && r.halves.left == Some(LastLeft(d.halves.left.value, frames))
      && r.frames == d.frames + Mispaired(d.halves.left.value, frames)
  {
    hide Step, Run, FrameWave, Signed;
    if frames == [] {
      NothingRun(d);
    } else {
      var front, f := frames[..|frames| - 1], frames[|frames| - 1];
      StreamMispaired(d, front);
      RunConcat(d, StreamWave(front), FrameWave(f.0, f.1));
      SkewStays(Run(d, StreamWave(front)), f.0, f.1);
    }
  }

  lemma {:induction false} StreamConcat(a: seq<(u16, u16)>, b: seq<(u16, u16)>)
    ensures StreamWave(a + b) == StreamWave(a) + StreamWave(b)
  {
    hide FrameWave;
    if b == [] {
      assert a + b == a;
    } else {
      var n := |b| - 1;
      assert (a + b)[..|a| + n] == a + b[..n] && (a + b)[|a| + n] == b[n];
      StreamConcat(a, b[..n]);
    }
  }

  /**
   * A decoder that has taken fifteen bits when the transmission starts never recovers: of every
   * stream, however long, it appends the mispaired frames and no others, and is never aligned.
   */
  lemma NeverRealigns(d: Decoder, first: (u16, u16), rest: seq<(u16, u16)>)
    requires d.Valid() && !d.prevLrclk && d.word.bitCount == 15
    ensures var r := Run(d, StreamWave([first] + rest));
            && !Aligned(r)
            && r.frames == d.frames + Spurious(d, first.1) + Mispaired(Signed(Jumbled(first.0, first.1)), rest)
  {
    hide Step, FrameWave, Spurious, Run, Signed, Jumbled;
    var one := FrameWave(first.0, first.1);
    StreamConcat([first], rest);
    assert StreamWave([first]) == one by {
      assert [first][..0] == [] && [] + one == one;
    }
    RunConcat(d, one, StreamWave(rest));
    FrameSkews(d, first.0, first.1);
    StreamMispaired(Run(d, one), rest);
  }

  /** Reset takes both clocks for low: a first sample with the bit clock high is an edge and brings a bit. */
  lemma FirstSampleCounts(lrclk: bool, bit: bool)
    ensures var d := Step(FRESH, Sample(true, lrclk, bit));
            && d.word.bitCount == 1 && d.word.accumulator == (if bit then 1 else 0)
            && d.word.current == (if lrclk then Right else Left) && d.frames == []
    ensures Step(FRESH, Sample(false, false, bit)) == FRESH
  {
  }

  /** Such a decoder is fifteen bit clocks away from reset. */
  lemma FifteenFromReset(v: u16)
    ensures var d := Run(FRESH, HalfWave(false, v, 1));
      d.Valid() && !d.prevLrclk && d.word.bitCount == 15 && d.halves == NO_HALVES && d.frames == []
  {
    hide Step, HalfWave;
    HalfTaken(FRESH, false, v, 1);
  }

  // ----- signed samples ------------------------------------------------------------------

  predicate Signed16(v: int) {
    -0x8000 <= v < 0x8000
  }

  /** The sixteen bits of a signed sample. */
  function Complement(v: int): u16
    requires Signed16(v)
  {
    v % 0x1_0000
  }

  /** In two's complement the top bit counts for -32768 and the others for what they are. */
  lemma ComplementValue(v: int)
    requires Signed16(v)
    ensures Signed(Complement(v)) == v
    ensures v == Complement(v) % 0x8000 - if WordBit(Complement(v), 15) then 0x8000 else 0
  {
    assert Pow2(3) == 8;
    assert Pow2(7) == 16 * Pow2(3);
    assert Pow2(11) == 16 * Pow2(7);
    assert Pow2(15) == 16 * Pow2(11);
  }

  /** The words of signed stereo frames. */
  function WordsOf(frames: seq<Stereo>): (words: seq<(u16, u16)>)
    requires forall i :: 0 <= i < |frames| ==> Signed16(frames[i].0) && Signed16(frames[i].1)
    ensures |words| == |frames|
  {
    if frames == [] then []
    else
      var f := frames[|frames| - 1];
      WordsOf(frames[..|frames| - 1]) + [(Complement(f.0), Complement(f.1))]
  }

  lemma {:induction false} SamplesOfWords(frames: seq<Stereo>)
    requires forall i :: 0 <= i < |frames| ==> Signed16(frames[i].0) && Signed16(frames[i].1)
    ensures Samples(WordsOf(frames)) == frames
  {
    hide Signed, Complement;
    if frames != [] {
      var n := |frames| - 1;
      SamplesOfWords(frames[..n]);
      ComplementValue(frames[n].0);
      ComplementValue(frames[n].1);
      assert frames[..n] + [frames[n]] == frames;
    }
  }

  /** Whatever signed samples are sent, those are the samples that are captured. */
  lemma SignedStreamDecoded(d: Decoder, frames: seq<Stereo>)
    requires Receptive(d)
    requires forall i :: 0 <= i < |frames| ==> Signed16(frames[i].0) && Signed16(frames[i].1)
    ensures Run(d, StreamWave(WordsOf(frames))).frames == d.frames + frames
  {
    hide Run, StreamWave, WordsOf, Samples;
    StreamDecoded(d, WordsOf(frames));
    SamplesOfWords(frames);
  }
}
