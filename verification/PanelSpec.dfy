/**
 * The ST7365P display controller as a value: frame memory, decoder registers and
 * the CASET/RASET window, with one function for each thing the controller does.
 */
module PanelSpec {
  import opened Bits

  type u16 = x: int | 0 <= x < 0x1_0000

  const PIN_SCK: bv5 := 10
  const PIN_MOSI: bv5 := 11
  const PIN_CS: bv5 := 13
  const PIN_DC: bv5 := 14
  const PIN_RESET: bv5 := 15

  const WIDTH: nat := 320
  const HEIGHT: nat := 480
  const CELLS: nat := 153_600

  const CMD_SWRESET: byte := 0x01
  const CMD_SLPIN: byte := 0x10
  const CMD_SLPOUT: byte := 0x11
  const CMD_INVOFF: byte := 0x20
  const CMD_INVON: byte := 0x21
  const CMD_DISPOFF: byte := 0x28
  const CMD_DISPON: byte := 0x29
  const CMD_CASET: byte := 0x2A
  const CMD_RASET: byte := 0x2B
  const CMD_RAMWR: byte := 0x2C
  const CMD_RAMRD: byte := 0x2E
  const CMD_MADCTL: byte := 0x36
  const CMD_COLMOD: byte := 0x3A

  // ----- pixel formats ------------------------------------------------------

  datatype Colmod = Rgb565 | Rgb666 {
    function BytesPerPixel(): nat {
      if Rgb565? then 2 else 3
    }
  }

  /** Only the low three bits, the serial-interface width, select the format. */
  function FromReg(value: byte): Option<Colmod> {
    if value % 8 == 5 then Some(Rgb565)
    else if value % 8 == 6 then Some(Rgb666)
    else None
  }

  function Rgb666To565(r: byte, g: byte, b: byte): u16 {
    r / 8 * 2048 + g / 4 * 32 + b / 8
  }

  function BigEndian16(hi: byte, lo: byte): u16 {
    hi * 256 + lo
  }

  /** The colour that a complete group of wire bytes stands for. */
  function Unpack(fmt: Colmod, wire: seq<byte>): u16
    requires |wire| >= fmt.BytesPerPixel()
  {
    match fmt
    case Rgb666 => Rgb666To565(wire[0], wire[1], wire[2])
    case Rgb565 => BigEndian16(wire[0], wire[1])
  }

  /** The bytes RAMRD answers for one pixel: blue first in RGB666. */
  function Pack(fmt: Colmod, colour: u16): (wire: seq<byte>)
    ensures |wire| == 3
  {
    match fmt
    case Rgb666 => [colour % 32 * 8, colour / 32 % 64 * 4, colour / 2048 * 8]
    case Rgb565 => [colour / 256, colour % 256, 0]
  }

  // ----- the window and its raster pointer -----------------------------------

  datatype Window = Window(colStart: u16, colEnd: u16, rowStart: u16, rowEnd: u16)

  datatype Cursor = Cursor(win: Window, x: u16, y: u16)

  const WHOLE: Window := Window(0, 319, 0, 479)

  function Home(win: Window): Cursor {
    Cursor(win, win.colStart, win.rowStart)
  }

  /** Column-then-row walk, wrapping to the window origin at the bottom. */
  function Next(c: Cursor): Cursor {
    if c.x >= c.win.colEnd then
      c.(x := c.win.colStart, y := if c.y >= c.win.rowEnd then c.win.rowStart else c.y + 1)
    else c.(x := c.x + 1)
  }

  // ----- the controller --------------------------------------------------------

  datatype Lines = Lines(csAsserted: bool, dcData: bool, resetAsserted: bool)

  datatype Decoder = Decoder(command: byte, paramIndex: nat, params: seq<byte>, pixelBytes: seq<byte>, pixelLen: nat)

  datatype Readout = Readout(dummyPending: bool, emitsDummy: bool, phase: nat, pixel: seq<byte>)

  datatype Display = Display(sleeping: bool, on: bool, inverted: bool, madctl: byte, colmodReg: byte, colmod: Colmod)

  datatype Counters = Counters(
    resetPulses: nat, swreset: nat, slpin: nat, slpout: nat, dispon: nat, dispoff: nat,
    caset: nat, raset: nat, ramwr: nat, ramrd: nat, madctl: nat, colmod: nat,
    written: nat, dropped: nat, orphans: nat, unknown: map<byte, nat>)

  datatype Panel = Panel(gram: seq<u16>, lines: Lines, decoder: Decoder, cursor: Cursor,
                         readout: Readout, display: Display, counters: Counters)
  {
    /** The buffer indices stay inside their buffers in every state that satisfies this. */
    ghost predicate Valid() {
      && |gram| == CELLS
      && |decoder.params| == 4 && |decoder.pixelBytes| == 3 && |readout.pixel| == 3
      && decoder.pixelLen < display.colmod.BytesPerPixel()
      && readout.phase < 3
      && (decoder.command == CMD_RAMRD ==> readout.phase < display.colmod.BytesPerPixel())
    }
  }

  const ASLEEP := Display(true, false, false, 0, 0x66, Rgb666)

  function Black(): (g: seq<u16>)
    ensures |g| == CELLS
  {
    seq(CELLS, _ => 0)
  }

  /** Power-up: undriven pads read low, which asserts both CS and RESET. */
  function PowerUp(): (p: Panel)
    ensures p.Valid()
  {
    Panel(Black(), Lines(true, false, true), Decoder(0, 0, [0, 0, 0, 0], [0, 0, 0], 0), Home(WHOLE),
          Readout(false, true, 0, [0, 0, 0]), ASLEEP,
          Counters(0, 0, 0, 0, 0, 0, 0, 0, 0, 0, 0, 0, 0, 0, 0, map[]))
  }

  /** What hardware and software reset forget. */
  function PowerOnReset(p: Panel): (q: Panel)
    requires p.Valid()
    ensures q.Valid()
  {
    p.(gram := Black(), decoder := p.decoder.(command := 0, paramIndex := 0, pixelLen := 0),
       cursor := Home(WHOLE), display := ASLEEP)
  }

  /** cs, dc and reset are pad levels; a RESET rise re-initialises the controller. */
  function SetControlLines(p: Panel, cs: bool, dc: bool, reset: bool): (q: Panel)
    requires p.Valid()
    ensures q.Valid() && q.lines == Lines(!cs, dc, !reset)
  {
    var driven := p.(lines := Lines(!cs, dc, !reset));
    if p.lines.resetAsserted && reset then
      PowerOnReset(driven.(counters := p.counters.(resetPulses := p.counters.resetPulses + 1)))
    else driven
  }

  /** What the three control pads of a word do. */
  function Observed(p: Panel, levels: bv32): (q: Panel)
    requires p.Valid()
    ensures q.Valid()
  {
    SetControlLines(p, Level(levels, PIN_CS), Level(levels, PIN_DC), Level(levels, PIN_RESET))
  }

  function SetRamrdDummy(p: Panel, emit: bool): (q: Panel)
    requires p.Valid()
    ensures q.Valid()
  {
    p.(readout := p.readout.(emitsDummy := emit))
  }

  /** A frame-memory cell; outside the memory the panel reads as zero. */
  function CellAt(gram: seq<u16>, x: nat, y: nat): u16
    requires |gram| == CELLS
  {
    if x < WIDTH && y < HEIGHT then CellIndexInRange(x, y); gram[y * WIDTH + x] else 0
  }

  lemma CellIndexInRange(x: nat, y: nat)
    requires x < WIDTH && y < HEIGHT
    ensures y * WIDTH + x < CELLS
  {
  }

  /** Store at the pointer if it is inside the frame memory, then step the pointer. */
  function StorePixel(p: Panel, colour: u16): (q: Panel)
    requires p.Valid()
    ensures q.Valid()
  {
    var c := p.cursor;
    if c.x < WIDTH && c.y < HEIGHT then
      CellIndexInRange(c.x, c.y);
      p.(gram := p.gram[c.y * WIDTH + c.x := colour], cursor := Next(c),
         counters := p.counters.(written := p.counters.written + 1))
    else
      p.(cursor := Next(c), counters := p.counters.(dropped := p.counters.dropped + 1))
  }

  function PixelByte(p: Panel, b: byte): (q: Panel)
    requires p.Valid()
    ensures q.Valid()
  {
    var d, fmt := p.decoder, p.display.colmod;
    var bytes := d.pixelBytes[d.pixelLen := b];
    if d.pixelLen + 1 < fmt.BytesPerPixel() then
      p.(decoder := d.(pixelBytes := bytes, pixelLen := d.pixelLen + 1))
    else
      StorePixel(p.(decoder := d.(pixelBytes := bytes, pixelLen := 0)), Unpack(fmt, bytes))
  }

  function Noted(unknown: map<byte, nat>, code: byte): map<byte, nat> {
    unknown[code := (if code in unknown then unknown[code] else 0) + 1]
  }

  function CommandByte(p: Panel, code: byte): (q: Panel)
    requires p.Valid()
    ensures q.Valid()
  {
    var t := p.(decoder := p.decoder.(command := code, paramIndex := 0, pixelLen := 0));
    var n := p.counters;
    if code == CMD_SWRESET then
      var r := PowerOnReset(t.(counters := n.(swreset := n.swreset + 1)));
      r.(decoder := r.decoder.(command := CMD_SWRESET))
    else if code == CMD_RAMRD then
      t.(counters := n.(ramrd := n.ramrd + 1), cursor := Home(p.cursor.win),
         readout := p.readout.(dummyPending := p.readout.emitsDummy, phase := 0))
    else if code == CMD_RAMWR then t.(counters := n.(ramwr := n.ramwr + 1), cursor := Home(p.cursor.win))
    else if code == CMD_SLPIN then t.(counters := n.(slpin := n.slpin + 1), display := p.display.(sleeping := true))
    else if code == CMD_SLPOUT then t.(counters := n.(slpout := n.slpout + 1), display := p.display.(sleeping := false))
    else if code == CMD_INVOFF then t.(display := p.display.(inverted := false))
    else if code == CMD_INVON then t.(display := p.display.(inverted := true))
    else if code == CMD_DISPOFF then t.(counters := n.(dispoff := n.dispoff + 1), display := p.display.(on := false))
    else if code == CMD_DISPON then t.(counters := n.(dispon := n.dispon + 1), display := p.display.(on := true))
    else if code == CMD_CASET then t.(counters := n.(caset := n.caset + 1))
    else if code == CMD_RASET then t.(counters := n.(raset := n.raset + 1))
    else if code == CMD_MADCTL then t.(counters := n.(madctl := n.madctl + 1))
    else if code == CMD_COLMOD then t.(counters := n.(colmod := n.colmod + 1))
    else t.(counters := n.(unknown := Noted(n.unknown, code)))
  }

  /** A parameter byte of the command in flight; RAMRD never gets here. */
  function DataByte(p: Panel, b: byte): (q: Panel)
    requires p.Valid() && p.decoder.command != CMD_RAMRD
    ensures q.Valid()
  {
    var d := p.decoder;
    if d.command == CMD_CASET || d.command == CMD_RASET then
      var params := if d.paramIndex < 4 then d.params[d.paramIndex := b] else d.params;
      if d.paramIndex + 1 != 4 then p.(decoder := d.(params := params, paramIndex := d.paramIndex + 1))
      else
        var first, last := BigEndian16(params[0], params[1]), BigEndian16(params[2], params[3]);
        p.(decoder := d.(params := params, paramIndex := 0),
           cursor := if d.command == CMD_CASET
                     then Cursor(p.cursor.win.(colStart := first, colEnd := last), first, p.cursor.y)
                     else Cursor(p.cursor.win.(rowStart := first, rowEnd := last), p.cursor.x, first))
    else if d.command == CMD_MADCTL then
      p.(decoder := d.(paramIndex := d.paramIndex + 1), display := p.display.(madctl := b))
    else if d.command == CMD_COLMOD then
      p.(decoder := d.(paramIndex := d.paramIndex + 1, pixelLen := 0),
         display := p.display.(colmodReg := b, colmod := FromReg(b).GetOr(p.display.colmod)))
    else if d.command == CMD_RAMWR then PixelByte(p, b)
    else if d.command == 0 then p.(counters := p.counters.(orphans := p.counters.orphans + 1))
    else p.(decoder := d.(paramIndex := d.paramIndex + 1))
  }

  /** The next byte of a RAMRD stream; each pixel is fetched when its first byte is due. */
  function RamrdByte(p: Panel): (r: (Panel, byte))
    requires p.Valid() && p.decoder.command == CMD_RAMRD
    ensures r.0.Valid()
  {
    var o, fmt := p.readout, p.display.colmod;
    if o.dummyPending then (p.(readout := o.(dummyPending := false)), 0)
    else
      var q := if o.phase == 0
               then p.(readout := o.(pixel := Pack(fmt, CellAt(p.gram, p.cursor.x, p.cursor.y))),
                       cursor := Next(p.cursor))
               else p;
      (q.(readout := q.readout.(phase := (o.phase + 1) % fmt.BytesPerPixel())), q.readout.pixel[o.phase])
  }

  /** One byte exchanged: the controller afterwards, and the byte it puts on MISO. */
  function Transfer(p: Panel, b: byte): (r: (Panel, byte))
    requires p.Valid()
    ensures r.0.Valid() && r.0.lines == p.lines
  {
    if p.lines.resetAsserted || !p.lines.csAsserted then (p, 0)
    else if !p.lines.dcData then (CommandByte(p, b), 0)
    else if p.decoder.command == CMD_RAMRD then RamrdByte(p)
    else (DataByte(p, b), 0)
  }
}
