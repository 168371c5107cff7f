/** The 20x2 character display behind three bit-banged pins, as a value. */
module CharLcdSpec {
  import opened Bits

  const COLS: nat := 20
  const SPACE: byte := 0x20
  const CLEAR: byte := 0x01
  const SET_CURSOR: byte := 0x02
  const WRITE: byte := 0x03

  type Line = s: seq<byte> | |s| == COLS ghost witness Padded([])

  /** A line of text, filled up with spaces. */
  function Padded(text: seq<byte>): (line: seq<byte>)
    requires |text| <= COLS
    ensures |line| == COLS
  {
    seq(COLS, i requires 0 <= i < COLS => if i < |text| then text[i] else SPACE)
  }

  datatype Display = Display(upper: Line, lower: Line, col: byte, row: byte) {
    predicate InRange() {
      col < COLS && row < 2
    }
  }

  function Blank(): Display {
    Display(Padded([]), Padded([]), 0, 0)
  }

  function Scrolled(d: Display): Display {
    d.(upper := d.lower, lower := Padded([]))
  }

  /** Past the last column the cursor moves to the next row, past the last row the text scrolls. */
  function Wrapped(d: Display): Display {
    var next := if d.col >= COLS then d.(col := 0, row := if d.row < 255 then d.row + 1 else 255) else d;
    if next.row >= 2 then Scrolled(next).(row := 1) else next
  }

  function Stored(d: Display, c: byte): Display
    requires d.InRange()
  {
    var moved := d.(col := d.col + 1);
    if d.row == 0 then moved.(upper := d.upper[d.col := c]) else moved.(lower := d.lower[d.col := c])
  }

  function Written(d: Display, c: byte): (r: Display)
    ensures r.InRange()
  {
    var stored := Stored(Wrapped(d), c);
    if stored.col >= COLS then Wrapped(stored) else stored
  }

  function WrittenAll(d: Display, text: seq<byte>): (r: Display)
    ensures d.InRange() ==> r.InRange()
  {
    if text == [] then d else Written(WrittenAll(d, text[..|text| - 1]), text[|text| - 1])
  }

  function ByteAt(bytes: seq<byte>, i: nat): byte {
    if i < |bytes| then bytes[i] else 0
  }

  function Smaller(a: byte, b: byte): byte {
    if a < b then a else b
  }

  /** What one complete frame does; an empty frame or an unknown opcode does nothing. */
  function Applied(d: Display, bytes: seq<byte>): (r: Display)
    ensures d.InRange() ==> r.InRange()
  {
    if bytes == [] then d
    else if bytes[0] == CLEAR then Blank()
    else if bytes[0] == SET_CURSOR then
      d.(col := Smaller(ByteAt(bytes, 1), 19), row := Smaller(ByteAt(bytes, 2), 1))
    else if bytes[0] == WRITE then WrittenAll(d, bytes[1..])
    else d
  }

  // ---- The wire ---------------------------------------------------------------------------

  datatype Sample = Sample(cs: bool, sclk: bool, data: bool)

  function SampleOf(gpio: bv32, csPin: bv5, sclkPin: bv5, dataPin: bv5): Sample {
    Sample(Level(gpio, csPin), Level(gpio, sclkPin), Level(gpio, dataPin))
  }

  /** The frame being shifted in. */
  datatype Frame = Frame(open: bool, shift: byte, bitCount: nat, rx: seq<byte>)

  datatype Decoder = Decoder(display: Display, prev: Option<Sample>, frame: Frame) {
    predicate Valid() {
      frame.bitCount < 8 && display.InRange()
    }
  }

  function Start(): (d: Decoder)
    ensures d.Valid()
  {
    Decoder(Blank(), None, Frame(false, 0, 0, []))
  }

  function Shifted(f: Frame, bit: bool): Frame {
    var shift := ShiftIn(f.shift, bit);
    if f.bitCount == 7 then f.(shift := 0, bitCount := 0, rx := f.rx + [shift])
    else f.(shift := shift, bitCount := f.bitCount + 1)
  }

  predicate Falls(d: Decoder, s: Sample) {
    d.prev.Some? && d.prev.value.cs && !s.cs
  }

  predicate Rises(d: Decoder, s: Sample) {
    d.prev.Some? && !d.prev.value.cs && s.cs
  }

  /** The first sample only primes the edge detectors; a falling chip select forgets the clock level. */
  function Step(d: Decoder, s: Sample): (r: Decoder)
    requires d.Valid()
    ensures r.Valid()
  {
    if d.prev.None? then d.(prev := Some(s))
    else if Falls(d, s) then d.(prev := Some(s.(sclk := false)), frame := Frame(true, 0, 0, []))
    else
      var clocked := d.frame.open && s.sclk && !d.prev.value.sclk;
      var f := if clocked then Shifted(d.frame, s.data) else d.frame;
      if Rises(d, s) then Decoder(Applied(d.display, f.rx), Some(s), f.(open := false, rx := []))
      else Decoder(d.display, Some(s), f)
  }
}

/** The display decoder as an object that samples the pads. */
module CharLcdDevice {
  import opened Bits
  import opened CharLcdSpec

  class LcdDecoder {
    const sclkPin: bv5
    const dataPin: bv5
    const csPin: bv5
    const rows: array2<byte>
    var cursor: (byte, byte)
    var prev: Option<Sample>
    var frame: Frame

    ghost predicate Shaped() {
      rows.Length0 == 2 && rows.Length1 == COLS
    }

    ghost function Row(r: nat): (line: Line)
      requires Shaped() && r < 2
      reads rows
      ensures forall c :: 0 <= c < COLS ==> line[c] == rows[r, c]
    {
      seq(COLS, c requires 0 <= c < COLS && Shaped() reads rows => rows[r, c])
    }

    ghost function Shown(): Display
      requires Shaped()
      reads this, rows
    {
      Display(Row(0), Row(1), cursor.0, cursor.1)
    }

    ghost function View(): Decoder
      requires Shaped()
      reads this, rows
    {
      Decoder(Shown(), prev, frame)
    }

    constructor (sclkPin: bv5, dataPin: bv5, csPin: bv5)
      ensures Shaped() && fresh(rows) && View() == Start()
      ensures this.sclkPin == sclkPin && this.dataPin == dataPin && this.csPin == csPin
    {
      this.sclkPin, this.dataPin, this.csPin := sclkPin, dataPin, csPin;
      rows := new byte[2, COLS]((_, _) => SPACE);
      cursor, prev, frame := (0, 0), None, Frame(false, 0, 0, []);
      new;
      assert Row(0) == Padded([]) && Row(1) == Padded([]);
    }

    method ScrollUp()
      requires Shaped()
      modifies rows
      ensures Shown() == Scrolled(old(Shown()))
    {
      forall c | 0 <= c < COLS {
        rows[0, c] := rows[1, c];
      }
      forall c | 0 <= c < COLS {
        rows[1, c] := SPACE;
      }
      assert Row(0) == old(Row(1)) && Row(1) == Padded([]);
    }

    method BlankAll()
      requires Shaped()
      modifies rows
      ensures Row(0) == Padded([]) && Row(1) == Padded([])
    {
      forall r, c | 0 <= r < 2 && 0 <= c < COLS {
        rows[r, c] := SPACE;
      }
      assert Row(0) == Padded([]);
      assert Row(1) == Padded([]);
    }

    /** The cursor is brought back in range before the character is stored, and again after it. */
    method WriteChar(c: byte)
      requires Shaped()
      modifies this`cursor, rows
      ensures Shown() == Written(old(Shown()), c)
    {
      Wrap();
      var col, row := cursor.0, cursor.1;
      rows[row, col] := c;
      cursor := (col + 1, row);
      assert Row(0) == Stored(Wrapped(old(Shown())), c).upper;
      assert Row(1) == Stored(Wrapped(old(Shown())), c).lower;
      if col + 1 >= COLS {
        Wrap();
      }
    }

    method Wrap()
      requires Shaped()
      modifies this`cursor, rows
      ensures Shown() == Wrapped(old(Shown()))
    {
      var col, row := cursor.0, cursor.1;
      if col >= COLS {
        col, row := 0, if row < 255 then row + 1 else 255;
      }
      if row >= 2 {
        ScrollUp();
        row := 1;
      }
      cursor := (col, row);
    }

    method ApplyFrame()
      requires Shaped()
      modifies this`cursor, this`frame, rows
      ensures Shown() == Applied(old(Shown()), old(frame).rx) && frame == old(frame).(rx := [])
    {
      hide CharLcdSpec.Written;
      var bytes := frame.rx;
      frame := frame.(rx := []);
      if bytes == [] {
        return;
      }
      if bytes[0] == CLEAR {
        BlankAll();
        cursor := (0, 0);
      } else if bytes[0] == SET_CURSOR {
        cursor := (Smaller(ByteAt(bytes, 1), 19), Smaller(ByteAt(bytes, 2), 1));
      } else if bytes[0] == WRITE {
        ghost var text, start := bytes[1..], Shown();
        for i := 1 to |bytes|
          invariant frame == old(frame).(rx := [])
          invariant Shown() == WrittenAll(start, text[..i - 1])
        {
          assert text[..i][..i - 1] == text[..i - 1];
          WriteChar(bytes[i]);
        }
        assert text[..|bytes| - 1] == text;
      }
    }

    method OnSample(gpio: bv32)
      requires Shaped() && View().Valid()
      modifies this, rows
      ensures View() == Step(old(View()), SampleOf(gpio, csPin, sclkPin, dataPin))
    {
      hide Applied, Level, ShiftIn;
      var now := Sample(Level(gpio, csPin), Level(gpio, sclkPin), Level(gpio, dataPin));
      if prev.None? {
        prev := Some(now);
        return;
      }
      var falling := prev.value.cs && !now.cs;
      var rising := !prev.value.cs && now.cs;
      if falling {
        frame := Frame(true, 0, 0, []);
      }
      if frame.open && !falling && now.sclk && !prev.value.sclk {
        frame := frame.(shift := ShiftIn(frame.shift, now.data), bitCount := frame.bitCount + 1);
        if frame.bitCount == 8 {
          frame := frame.(rx := frame.rx + [frame.shift], shift := 0, bitCount := 0);
        }
      }
      if rising {
        frame := frame.(open := false);
        ApplyFrame();
      }
      prev := Some(if falling then now.(sclk := false) else now);
    }
  }
}
