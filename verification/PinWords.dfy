/** Pin words: what each wire of the board reads from a word in which chosen pins are high. */
module PinWords {
  import opened Bits
  import CharLcdSpec
  import I2sSpec
  import LcdWire
  import PanelSpec
  import PsramSpec
  import SdDevice

  predicate Apart(a: bv5, b: bv5, c: bv5) {
    a != b && b != c && a != c
  }

  /** A word that shows three levels on three pins, among whatever other pins are high. */
  function Shown(a: bool, pinA: bv5, b: bool, pinB: bv5, c: bool, pinC: bv5, others: seq<bv5>): bv32 {
    High(If(a, pinA) + If(b, pinB) + If(c, pinC) + others)
  }

  lemma ShownIsRead(a: bool, pinA: bv5, b: bool, pinB: bv5, c: bool, pinC: bv5, others: seq<bv5>)
    requires Apart(pinA, pinB, pinC) && pinA !in others && pinB !in others && pinC !in others
    ensures var word := Shown(a, pinA, b, pinB, c, pinC, others);
            Level(word, pinA) == a && Level(word, pinB) == b && Level(word, pinC) == c
  {
    hide Level, High;
    var pins := If(a, pinA) + If(b, pinB) + If(c, pinC) + others;
    LevelsOfWord(pins, pinA);
    LevelsOfWord(pins, pinB);
    LevelsOfWord(pins, pinC);
  }

  // ---- The memory -------------------------------------------------------------------------

  function PsramWords(cs: bv5, sck: bv5, mosi: bv5, wave: seq<PsramSpec.Sample>, others: seq<bv5>): seq<bv32> {
    seq(|wave|, i requires 0 <= i < |wave| => Shown(wave[i].cs, cs, wave[i].sck, sck, wave[i].mosi, mosi, others))
  }

  /** Driven on its three pins, any waveform is the trace the memory sees. */
  lemma PsramSeesWave(cs: bv5, sck: bv5, mosi: bv5, wave: seq<PsramSpec.Sample>, others: seq<bv5>, i: nat)
    requires Apart(cs, sck, mosi) && cs !in others && sck !in others && mosi !in others && i < |wave|
    ensures PsramSpec.SampleOf(PsramWords(cs, sck, mosi, wave, others)[i], cs, sck, mosi) == wave[i]
  {
    hide Shown, Level;
    ShownIsRead(wave[i].cs, cs, wave[i].sck, sck, wave[i].mosi, mosi, others);
  }

  // ---- The panel --------------------------------------------------------------------------

  /** The bit-level transport reads clock, data, select, data/command and reset from pins 10, 11, 13, 14 and 15. */
  lemma PanelPadsOfWord(pins: seq<bv5>)
    ensures LcdWire.PadsOf(High(pins)) == LcdWire.Pads(10 in pins, 11 in pins, 13 in pins, 14 in pins, 15 in pins)
  {
    hide Level, High;
    LevelsOfWord(pins, 10);
    LevelsOfWord(pins, 11);
    LevelsOfWord(pins, 13);
    LevelsOfWord(pins, 14);
    LevelsOfWord(pins, 15);
  }

  /** The byte-level transport: selected on a low pin 13, data on a high pin 14, reset on a low pin 15. */
  lemma PanelLinesOfWord(p: PanelSpec.Panel, pins: seq<bv5>)
    requires p.Valid()
    ensures PanelSpec.Observed(p, High(pins)).lines == PanelSpec.Lines(13 !in pins, 14 in pins, 15 !in pins)
  {
    hide Level, High;
    LevelsOfWord(pins, 13);
    LevelsOfWord(pins, 14);
    LevelsOfWord(pins, 15);
  }

  // ---- The card ---------------------------------------------------------------------------

  /** The card's chip select is pin 17. */
  lemma CardSelectOfWord(pins: seq<bv5>)
    ensures SdDevice.CsHigh(High(pins)) <==> 17 in pins
  {
    hide Level, High;
    LevelsOfWord(pins, 17);
  }

  // ---- The receiver and the character display ---------------------------------------------

  /** Driven on its three pins, any sample is the one the I2S receiver sees. */
  lemma ReceiverSees(bclk: bv5, lrclk: bv5, dout: bv5, s: I2sSpec.Sample, others: seq<bv5>)
    requires Apart(bclk, lrclk, dout) && bclk !in others && lrclk !in others && dout !in others
    ensures I2sSpec.SampleOf(Shown(s.bclk, bclk, s.lrclk, lrclk, s.dout, dout, others), bclk, lrclk, dout) == s
  {
    hide Shown, Level;
    ShownIsRead(s.bclk, bclk, s.lrclk, lrclk, s.dout, dout, others);
  }

  /** And so is the one the character display sees. */
  lemma DisplaySees(cs: bv5, sclk: bv5, data: bv5, s: CharLcdSpec.Sample, others: seq<bv5>)
    requires Apart(cs, sclk, data) && cs !in others && sclk !in others && data !in others
    ensures CharLcdSpec.SampleOf(Shown(s.cs, cs, s.sclk, sclk, s.data, data, others), cs, sclk, data) == s
  {
    hide Shown, Level;
    ShownIsRead(s.cs, cs, s.sclk, sclk, s.data, data, others);
  }
}
