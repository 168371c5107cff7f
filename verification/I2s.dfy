/**
 * The I2S receiver: fifteen bits of each word arrive before the word-select edge and
 * the sixteenth after it (Philips I2S bus specification, section 3.2).
 */
module I2sSpec {
  import opened Bits

  type u16 = x: int | 0 <= x < 0x1_0000

  datatype Channel = Left | Right

  /** (left, right) as signed sixteen-bit samples. */
  type Stereo = (int, int)

  function Signed(word: u16): int {
    if word < 0x8000 then word else word - 0x1_0000
  }

  function ShiftWord(word: u16, bit: bool): u16 {
    (if word < 0x8000 then 2 * word else 2 * word - 0x1_0000) + Bit(bit)
  }

  /** The word being shifted in, and the channel whose word still lacks its last bit. */
  datatype Word = Word(accumulator: u16, bitCount: nat, current: Channel, finalizing: Option<Channel>)

  /** Half frames waiting for their mate. */
  datatype Halves = Halves(left: Option<int>, right: Option<int>)

  datatype Sample = Sample(bclk: bool, lrclk: bool, dout: bool)

  function SampleOf(pads: bv32, bclkPin: bv5, lrclkPin: bv5, doutPin: bv5): Sample {
    Sample(Level(pads, bclkPin), Level(pads, lrclkPin), Level(pads, doutPin))
  }

  datatype Decoder = Decoder(prevBclk: bool, prevLrclk: bool, word: Word, halves: Halves, frames: seq<Stereo>)
  {
    predicate Valid() {
      && word.bitCount <= 15
      && (word.finalizing.Some? ==> word.bitCount == 0)
      && word.current == if prevLrclk then Right else Left
    }
  }

  const NO_HALVES := Halves(None, None)
  const FRESH := Decoder(false, false, Word(0, 0, Left, None), NO_HALVES, [])

  function OnLrclkEdge(d: Decoder, lrclk: bool): Decoder {
    var current := if lrclk then Right else Left;
    if d.word.bitCount == 15 then d.(word := Word(d.word.accumulator, 0, current, Some(d.word.current)))
    else d.(word := Word(0, 0, current, None), halves := NO_HALVES)
  }

  /** Pair a finished word with a waiting mate, or let it wait. */
  function Committed(d: Decoder, channel: Channel, sample: int): Decoder {
    match channel
    case Left =>
      if d.halves.right.Some? then
        d.(frames := d.frames + [(sample, d.halves.right.value)], halves := d.halves.(right := None))
      else d.(halves := d.halves.(left := Some(sample)))
    case Right =>
      if d.halves.left.Some? then
        d.(frames := d.frames + [(d.halves.left.value, sample)], halves := d.halves.(left := None))
      else d.(halves := d.halves.(right := Some(sample)))
  }

  function OnBclkRising(d: Decoder, dout: bool): Decoder {
    var shifted := ShiftWord(d.word.accumulator, dout);
    if d.word.finalizing.Some? then
      Committed(d.(word := d.word.(accumulator := 0, finalizing := None)), d.word.finalizing.value, Signed(shifted))
    else if d.word.bitCount >= 15 then d
    else d.(word := d.word.(accumulator := shifted, bitCount := d.word.bitCount + 1))
  }

  /** The word-select edge is handled before the bit clock. */
  function Step(d: Decoder, s: Sample): (r: Decoder)
    requires d.Valid()
    ensures r.Valid()
  {
    var e := if s.lrclk != d.prevLrclk then OnLrclkEdge(d, s.lrclk) else d;
    var b := if s.bclk && !d.prevBclk then OnBclkRising(e, s.dout) else e;
    b.(prevBclk := s.bclk, prevLrclk := s.lrclk)
  }
}

/** The receiver as an object that watches the pads. */
module I2sDevice {
  import opened Bits
  import opened I2sSpec

  class I2sCapture {
    const bclkPin: bv5
    const lrclkPin: bv5
    const doutPin: bv5
    var prevBclk: bool
    var prevLrclk: bool
    var word: Word
    var halves: Halves
    var frames: seq<Stereo>

    ghost function View(): Decoder
      reads this
    {
      Decoder(prevBclk, prevLrclk, word, halves, frames)
    }

    constructor (bclkPin: bv5, lrclkPin: bv5, doutPin: bv5)
      ensures View() == FRESH
      ensures this.bclkPin == bclkPin && this.lrclkPin == lrclkPin && this.doutPin == doutPin
    {
      this.bclkPin, this.lrclkPin, this.doutPin := bclkPin, lrclkPin, doutPin;
      prevBclk, prevLrclk, word, halves, frames := false, false, Word(0, 0, Left, None), NO_HALVES, [];
    }

    method Tick(pads: bv32)
      requires View().Valid()
      modifies this
      ensures View() == Step(old(View()), SampleOf(pads, bclkPin, lrclkPin, doutPin))
    {
      hide I2sSpec.OnLrclkEdge, I2sSpec.OnBclkRising, Level;
      var bclk, lrclk, dout := Level(pads, bclkPin), Level(pads, lrclkPin), Level(pads, doutPin);
      if lrclk != prevLrclk {
        OnLrclkEdge(lrclk);
      }
      if bclk && !prevBclk {
        OnBclkRising(dout);
      }
      prevBclk, prevLrclk := bclk, lrclk;
    }

    method OnLrclkEdge(lrclk: bool)
      modifies this`word, this`halves
      ensures View() == I2sSpec.OnLrclkEdge(old(View()), lrclk)
    {
      if word.bitCount == 15 {
        word := word.(finalizing := Some(word.current));
      } else {
        word := word.(finalizing := None, accumulator := 0);
        halves := NO_HALVES;
      }
      word := word.(bitCount := 0, current := if lrclk then Right else Left);
    }

    method OnBclkRising(dout: bool)
      modifies this`word, this`halves, this`frames
      ensures View() == I2sSpec.OnBclkRising(old(View()), dout)
    {
      if word.finalizing.Some? {
        var channel := word.finalizing.value;
        word := word.(accumulator := ShiftWord(word.accumulator, dout), finalizing := None);
        var sample := Signed(word.accumulator);
        match channel {
          case Left =>
            if halves.right.Some? {
              frames, halves := frames + [(sample, halves.right.value)], halves.(right := None);
            } else {
              halves := halves.(left := Some(sample));
            }
          case Right =>
            if halves.left.Some? {
              frames, halves := frames + [(halves.left.value, sample)], halves.(left := None);
            } else {
              halves := halves.(right := Some(sample));
            }
        }
        word := word.(accumulator := 0);
        return;
      }
      if word.bitCount >= 15 {
        return;
      }
      word := word.(accumulator := ShiftWord(word.accumulator, dout), bitCount := word.bitCount + 1);
    }
  }
}
