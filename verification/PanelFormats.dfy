/** Pixel formats over the command stream: what bytes make which pixel, from reset or from COLMOD on. */
module PanelFormats {
  import opened Bits
  import opened PanelSpec
  import opened PanelRaster
  import opened PanelCopy

  /** An opcode and its parameters. */
  function Register(p: Panel, code: byte, params: seq<byte>): (q: Panel)
    requires p.Valid()
    ensures q.Valid()
  {
    Params(Command(p, code), params).0
  }

  /** CASET, RASET and RAMWR: set a window and fill it. */
  function Filled(p: Panel, w: Window, wire: seq<byte>): (q: Panel)
    requires p.Valid()
    ensures q.Valid()
  {
    var columns := Register(p, 0x2A, Bounds(w.colStart, w.colEnd));
    var rows := Register(columns, 0x2B, Bounds(w.rowStart, w.rowEnd));
    Register(rows, 0x2C, wire)
  }

  function ByteAt(wire: seq<byte>, i: nat): byte {
    if i < |wire| then wire[i] else 0
  }

  /** Pixel k of a byte string: two bytes with the high one first, or red, green and blue in the top bits of three. */
  function PixelOf(fmt: Colmod, wire: seq<byte>, k: nat): u16 {
    match fmt
    case Rgb565 => ByteAt(wire, 2 * k) * 256 + ByteAt(wire, 2 * k + 1)
    case Rgb666 => ByteAt(wire, 3 * k) / 8 * 2048 + ByteAt(wire, 3 * k + 1) / 4 * 32 + ByteAt(wire, 3 * k + 2) / 8
  }

  lemma SamePixel(fmt: Colmod, wire: seq<byte>, longer: seq<byte>, k: nat)
    requires wire <= longer && fmt.BytesPerPixel() * k + fmt.BytesPerPixel() <= |wire|
    ensures PixelOf(fmt, wire, k) == PixelOf(fmt, longer, k)
  {
  }

  lemma LastPixel(fmt: Colmod, wire: seq<byte>, k: nat)
    requires fmt.BytesPerPixel() * k + fmt.BytesPerPixel() == |wire|
    ensures Unpack(fmt, wire[|wire| - fmt.BytesPerPixel()..]) == PixelOf(fmt, wire, k)
  {
  }

  lemma {:induction false} PixelsOf(fmt: Colmod, wire: seq<byte>, n: nat, k: nat)
    requires |wire| == WireLen(fmt, n) && k < n
    ensures |UnpackAll(fmt, wire)| == n && UnpackAll(fmt, wire)[k] == PixelOf(fmt, wire, k)
  {
    hide Unpack, PixelOf;
    var front := wire[..|wire| - fmt.BytesPerPixel()];
    if n == 1 {
      assert UnpackAll(fmt, front) == [];
      LastPixel(fmt, wire, k);
    } else {
      PixelsOf(fmt, front, n - 1, if k < n - 1 then k else 0);
      if k < n - 1 {
        SamePixel(fmt, front, wire, k);
      } else {
        LastPixel(fmt, wire, k);
      }
    }
  }

  /** What a full window holds, by the format in force. */
  lemma FilledCell(p: Panel, w: Window, wire: seq<byte>, x: nat, y: nat)
    requires p.Valid() && !p.lines.resetAsserted && x < WIDTH && y < HEIGHT
    requires |wire| == WireLen(p.display.colmod, Area(w))
    ensures CellAt(Filled(p, w, wire).gram, x, y) ==
            if Inside(w, x, y) then PixelOf(p.display.colmod, wire, IndexOf(w, x, y)) else CellAt(p.gram, x, y)
  {
    hide Params, Command, CellAt, Paint, UnpackAll, PixelOf, Area, IndexOf, Inside;
    var ready := WithWindow(p, w);
    WindowSet(p, w);
    AllPixels(p.display.colmod, wire, Area(w));
    var canvas := WriteRegion(ready, w, wire, Area(w));
    FullPass(canvas, w, UnpackAll(p.display.colmod, wire), x, y);
    if Inside(w, x, y) {
      PixelsOf(p.display.colmod, wire, Area(w), IndexOf(w, x, y));
    }
  }

  lemma AllPixels(fmt: Colmod, wire: seq<byte>, n: nat)
    requires |wire| == WireLen(fmt, n)
    ensures |UnpackAll(fmt, wire)| == n
  {
    hide UnpackAll;
  }

  /** The low three bits of COLMOD choose the format: 5 for two bytes a pixel, 6 for three; others leave it. */
  lemma ColmodSet(p: Panel, value: byte)
    requires p.Valid() && !p.lines.resetAsserted
    ensures var q := Register(p, 0x3A, [value]);
            && q.gram == p.gram && !q.lines.resetAsserted && q.readout.emitsDummy == p.readout.emitsDummy
            && q.display.colmodReg == value
            && (value % 8 == 5 ==> q.display.colmod == Rgb565)
            && (value % 8 == 6 ==> q.display.colmod == Rgb666)
            && (value % 8 != 5 && value % 8 != 6 ==> q.display.colmod == p.display.colmod)
  {
    var c := SetControlLines(Command(p, 0x3A), false, true, true);
    SendSnoc(c, [], value);
    assert [] + [value] == [value];
  }

  /** After COLMOD with low bits 5 two bytes make a pixel, the high one first. */
  lemma TwoBytesAPixel(p: Panel, value: byte, w: Window, wire: seq<byte>, x: nat, y: nat)
    requires p.Valid() && !p.lines.resetAsserted && value % 8 == 5 && |wire| == 2 * Area(w)
    requires x < WIDTH && y < HEIGHT && Inside(w, x, y)
    ensures var k := IndexOf(w, x, y);
            CellAt(Filled(Register(p, 0x3A, [value]), w, wire).gram, x, y) ==
            ByteAt(wire, 2 * k) * 256 + ByteAt(wire, 2 * k + 1)
  {
    hide Register, Filled, CellAt, Area, IndexOf, Inside;
    ColmodSet(p, value);
    FilledCell(Register(p, 0x3A, [value]), w, wire, x, y);
  }

  /** After COLMOD with low bits 6 three bytes make one: red, green and blue in the top bits of each. */
  lemma ThreeBytesAPixel(p: Panel, value: byte, w: Window, wire: seq<byte>, x: nat, y: nat)
    requires p.Valid() && !p.lines.resetAsserted && value % 8 == 6 && |wire| == 3 * Area(w)
    requires x < WIDTH && y < HEIGHT && Inside(w, x, y)
    ensures var k := IndexOf(w, x, y);
            CellAt(Filled(Register(p, 0x3A, [value]), w, wire).gram, x, y) ==
            ByteAt(wire, 3 * k) / 8 * 2048 + ByteAt(wire, 3 * k + 1) / 4 * 32 + ByteAt(wire, 3 * k + 2) / 8
  {
    hide Register, Filled, CellAt, Area, IndexOf, Inside;
    ColmodSet(p, value);
    FilledCell(Register(p, 0x3A, [value]), w, wire, x, y);
  }

  /** The RESET pad pulled low and let go. */
  function ResetPulse(p: Panel): (q: Panel)
    requires p.Valid()
    ensures q.Valid()
  {
    SetControlLines(SetControlLines(p, false, true, false), false, true, true)
  }

  lemma AfterReset(p: Panel, software: bool)
    requires p.Valid() && (software ==> !p.lines.resetAsserted)
    ensures var q := if software then Command(p, 0x01) else ResetPulse(p);
            && q.gram == Black() && !q.lines.resetAsserted
            && q.display == Display(true, false, false, 0, 0x66, Rgb666) && q.cursor.win == Window(0, 319, 0, 479)
  {
  }

  /** Straight after a reset of either kind the screen is black, and three bytes make a pixel. */
  lemma ThreeBytesFromReset(p: Panel, software: bool, w: Window, wire: seq<byte>, x: nat, y: nat)
    requires p.Valid() && (software ==> !p.lines.resetAsserted) && |wire| == 3 * Area(w) && x < WIDTH && y < HEIGHT
    ensures var q := Filled(if software then Command(p, 0x01) else ResetPulse(p), w, wire);
            CellAt(q.gram, x, y) == if Inside(w, x, y) then PixelOf(Rgb666, wire, IndexOf(w, x, y)) else 0
  {
    hide Command, ResetPulse, Filled, CellAt, Area, IndexOf, Inside, PixelOf;
    AfterReset(p, software);
    FilledCell(if software then Command(p, 0x01) else ResetPulse(p), w, wire, x, y);
    BlackCell(x, y);
  }

  lemma BlackCell(x: nat, y: nat)
    ensures CellAt(Black(), x, y) == 0
  {
  }

  /** So from any state, COLMOD 5 and a window on the screen: the bytes written are the bytes read. */
  lemma ReadsBackFromColmod(p: Panel, value: byte, w: Window, wire: seq<byte>, clocks: seq<byte>, dummy: seq<byte>)
    requires p.Valid() && !p.lines.resetAsserted && value % 8 == 5 && |wire| == 2 * Area(w) && OnScreen(w)
    requires dummy == (if p.readout.emitsDummy then [0] else []) && |clocks| == |dummy| + 2 * Area(w)
    ensures WriteThenRead(Register(p, 0x3A, [value]), w, wire, clocks) == dummy + wire
  {
    hide Register, WriteThenRead, Area, OnScreen;
    ColmodSet(p, value);
    WrittenReadsBack(Register(p, 0x3A, [value]), w, wire, clocks, dummy);
  }

  /** And from any state, COLMOD 6: the driver's copy is exact. */
  lemma CopyFromColmod(p: Panel, value: byte, src: Window, dst: Window, clocks: seq<byte>, x: nat, y: nat)
    requires p.Valid() && !p.lines.resetAsserted && value % 8 == 6
    requires Cols(src) == Cols(dst) && Rows(src) == Rows(dst)
    requires |clocks| == (if p.readout.emitsDummy then 1 else 0) + 3 * Area(src) && x < WIDTH && y < HEIGHT
    ensures var q := Register(p, 0x3A, [value]);
            && (q.readout.emitsDummy ==> clocks != [])
            && CopyBytes(q, src, dst, clocks).Valid()
            && CellAt(CopyBytes(q, src, dst, clocks).gram, x, y) ==
               if !Inside(dst, x, y) then CellAt(p.gram, x, y)
               else CellAt(p.gram, x - dst.colStart + src.colStart, y - dst.rowStart + src.rowStart)
  {
    hide Register, CopyBytes, CellAt, Inside;
    ColmodSet(p, value);
    CopyIsExact(Register(p, 0x3A, [value]), src, dst, clocks, x, y);
  }

  /** Bringing the panel up: out of sleep, address mode, inversion and display on, each by its own opcode. */
  lemma BringUp(p: Panel, mode: byte)
    requires p.Valid() && !p.lines.resetAsserted
    ensures var awake := Command(Command(p, 0x01), 0x11);
            var moded := Register(awake, 0x36, [mode]);
            var shown := Command(Command(moded, 0x21), 0x29);
            && shown.display == Display(false, true, true, mode, 0x66, Rgb666)
            && Command(Command(Command(shown, 0x20), 0x28), 0x10).display ==
               Display(true, false, false, mode, 0x66, Rgb666)
  {
    var awake := Command(Command(p, 0x01), 0x11);
    var c := SetControlLines(Command(awake, 0x36), false, true, true);
    SendSnoc(c, [], mode);
    assert [] + [mode] == [mode];
  }
}
