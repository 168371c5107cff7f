/**
 * Reading a region out with RAMRD and writing it back with RAMWR, as the driver's
 * scroll does: over the whole command stream the region is copied exactly.
 */
module PanelCopy {
  import opened Bits
  import opened PanelSpec
  import opened PanelRaster

  // ----- byte streams -----------------------------------------------------------

  /** A burst of bytes on unchanged control lines, with the bytes that come back. */
  function Send(p: Panel, bs: seq<byte>): (r: (Panel, seq<byte>))
    requires p.Valid()
    ensures r.0.Valid() && |r.1| == |bs| && r.0.lines == p.lines
  {
    if bs == [] then (p, [])
    else
      var (q, out) := Send(p, bs[..|bs| - 1]);
      var (q', last) := Transfer(q, bs[|bs| - 1]);
      (q', out + [last])
  }

  lemma SendSnoc(p: Panel, bs: seq<byte>, b: byte)
    requires p.Valid()
    ensures Send(p, []) == (p, [])
    ensures var t := Transfer(Send(p, bs).0, b);
      Send(p, bs + [b]).0 == t.0 && Send(p, bs + [b]).1 == Send(p, bs).1 + [t.1]
  {
    hide Transfer;
    assert (bs + [b])[..|bs|] == bs;
  }

  lemma {:induction false} SendConcat(p: Panel, a: seq<byte>, b: seq<byte>)
    requires p.Valid()
    ensures var rest := Send(Send(p, a).0, b);
      Send(p, a + b).0 == rest.0 && Send(p, a + b).1 == Send(p, a).1 + rest.1
  {
    hide Transfer, Send;
    var middle := Send(p, a).0;
    if b == [] {
      SendSnoc(middle, [], 0);
      assert a + b == a && Send(p, a).1 + [] == Send(p, a).1;
    } else {
      var front, x := b[..|b| - 1], b[|b| - 1];
      SendConcat(p, a, front);
      SendSnoc(p, a + front, x);
      SendSnoc(middle, front, x);
      assert (a + front) + [x] == a + b && front + [x] == b;
    }
  }

  lemma SendTwo(p: Panel, b0: byte, b1: byte)
    requires p.Valid()
    ensures var t0 := Transfer(p, b0); var t1 := Transfer(t0.0, b1);
      Send(p, [b0, b1]).0 == t1.0 && Send(p, [b0, b1]).1 == [t0.1, t1.1]
  {
    hide *;
    SendSnoc(p, [], b0);
    assert [] + [b0] == [b0];
    var t0 := Transfer(p, b0);
    assert Send(p, [b0]).0 == t0.0;
    assert Send(p, [b0]).1 == [t0.1];
    SendSnoc(p, [b0], b1);
    assert [b0] + [b1] == [b0, b1];
  }

  lemma SendThree(p: Panel, b0: byte, b1: byte, b2: byte)
    requires p.Valid()
    ensures var t0 := Transfer(p, b0); var t1 := Transfer(t0.0, b1); var t2 := Transfer(t1.0, b2);
      Send(p, [b0, b1, b2]).0 == t2.0 && Send(p, [b0, b1, b2]).1 == [t0.1, t1.1, t2.1]
  {
    hide *;
    SendTwo(p, b0, b1);
    SendSnoc(p, [b0, b1], b2);
    assert [b0, b1] + [b2] == [b0, b1, b2];
  }

  predicate Listening(p: Panel) {
    p.lines == Lines(true, true, false)
  }

  /** The two or three bytes of one pixel. */
  lemma SendGroup(p: Panel, bs: seq<byte>)
    requires p.Valid() && |bs| == p.display.colmod.BytesPerPixel()
    ensures var t0 := Transfer(p, bs[0]);
      var t1 := Transfer(t0.0, bs[1]);
      if p.display.colmod.Rgb565? then Send(p, bs).0 == t1.0 && Send(p, bs).1 == [t0.1, t1.1]
      else var t2 := Transfer(t1.0, bs[2]); Send(p, bs).0 == t2.0 && Send(p, bs).1 == [t0.1, t1.1, t2.1]
  {
    hide Transfer, Send;
    if p.display.colmod.Rgb565? {
      assert bs == [bs[0], bs[1]];
      SendTwo(p, bs[0], bs[1]);
    } else {
      assert bs == [bs[0], bs[1], bs[2]];
      SendThree(p, bs[0], bs[1], bs[2]);
    }
  }

  function WireLen(fmt: Colmod, pixels: nat): nat {
    if fmt.Rgb565? then 2 * pixels else 3 * pixels
  }

  /** The wire bytes of a list of pixels, as RAMRD orders them. */
  function PackAll(fmt: Colmod, colours: seq<u16>): (wire: seq<byte>)
    ensures |wire| == WireLen(fmt, |colours|)
  {
    if colours == [] then []
    else PackAll(fmt, colours[..|colours| - 1]) + Pack(fmt, colours[|colours| - 1])[..fmt.BytesPerPixel()]
  }

  /** The pixels that a RAMWR burst of whole groups stands for. */
  function UnpackAll(fmt: Colmod, wire: seq<byte>): (colours: seq<u16>)
    ensures WireLen(fmt, |colours|) <= |wire| < WireLen(fmt, |colours| + 1)
  {
    var n := fmt.BytesPerPixel();
    if |wire| < n then []
    else UnpackAll(fmt, wire[..|wire| - n]) + [Unpack(fmt, wire[|wire| - n..])]
  }

  /** What the driver does to a buffer it has read: bytes 0 and 2 of every triple change places. */
  function SwapTriples(wire: seq<byte>): (r: seq<byte>)
    ensures |r| == |wire|
  {
    var n := |wire|;
    if n < 3 then wire else SwapTriples(wire[..n - 3]) + [wire[n - 1], wire[n - 2], wire[n - 3]]
  }

  lemma PackedPixel(colour: u16)
    ensures var w := Pack(Rgb666, colour); Unpack(Rgb666, [w[2], w[1], w[0]]) == colour
    ensures Unpack(Rgb565, Pack(Rgb565, colour)[..2]) == colour
  {
    FieldsOf(colour);
    WidenedBack(colour / 2048, 8);
    WidenedBack(colour / 32 % 64, 4);
    WidenedBack(colour % 32, 8);
  }

  lemma FieldsOf(colour: u16)
    ensures colour / 2048 * 2048 + colour / 32 % 64 * 32 + colour % 32 == colour
  {
    assert colour / 32 == colour / 2048 * 64 + colour / 32 % 64;
  }

  lemma WidenedBack(v: nat, scale: nat)
    requires scale == 4 || scale == 8
    ensures v * scale / scale == v
  {
  }

  lemma BytesOfPixel(hi: byte, lo: byte)
    ensures Pack(Rgb565, Unpack(Rgb565, [hi, lo]))[..2] == [hi, lo]
  {
  }

  lemma {:induction false} SwappedReadback(colours: seq<u16>)
    ensures UnpackAll(Rgb666, SwapTriples(PackAll(Rgb666, colours))) == colours
  {
    hide Pack, Unpack;
    if colours != [] {
      var front, last := colours[..|colours| - 1], colours[|colours| - 1];
      SwappedReadback(front);
      PackedPixel(last);
      var wire, group := PackAll(Rgb666, colours), Pack(Rgb666, last);
      assert wire[..|wire| - 3] == PackAll(Rgb666, front);
      var swapped := SwapTriples(wire);
      assert swapped == SwapTriples(PackAll(Rgb666, front)) + [group[2], group[1], group[0]];
      assert swapped[..|swapped| - 3] == SwapTriples(PackAll(Rgb666, front));
      assert swapped[|swapped| - 3..] == [group[2], group[1], group[0]];
    }
  }

  /** In RGB565 the bytes read back are the bytes written. */
  lemma {:induction false} SameBytesBack(wire: seq<byte>)
    requires |wire| % 2 == 0
    ensures PackAll(Rgb565, UnpackAll(Rgb565, wire)) == wire
  {
    hide Pack, Unpack;
    if wire != [] {
      var n := |wire| - 2;
      SameBytesBack(wire[..n]);
      var colours := UnpackAll(Rgb565, wire);
      assert colours[..|colours| - 1] == UnpackAll(Rgb565, wire[..n]);
      assert wire[n..] == [wire[n], wire[n + 1]];
      BytesOfPixel(wire[n], wire[n + 1]);
    }
  }

  // ----- reading ---------------------------------------------------------------------

  ghost predicate Reading(p: Panel, w: Window, n: nat) {
    && p.Valid() && Listening(p)
    && p.decoder.command == 0x2E && !p.readout.dummyPending && p.readout.phase == 0
    && p.cursor == At(w, n)
  }

  lemma ReadPixel(p: Panel, w: Window, n: nat, clocks: seq<byte>)
    requires Reading(p, w, n) && |clocks| == p.display.colmod.BytesPerPixel()
    ensures var (q, out) := Send(p, clocks);
      && out == Pack(p.display.colmod, CellAt(p.gram, At(w, n).x, At(w, n).y))[..p.display.colmod.BytesPerPixel()]
      && q == p.(readout := q.readout, cursor := At(w, n + 1)) && Reading(q, w, n + 1)
  {
    hide CellAt, At, Pack, Send, Transfer, RamrdByte;
    SendGroup(p, clocks);
    RamrdPixel(p, w, n);
    AnswersRamrd(p, clocks[0]);
    AnswersRamrd(RamrdByte(p).0, clocks[1]);
    if p.display.colmod.Rgb666? {
      AnswersRamrd(RamrdByte(RamrdByte(p).0).0, clocks[2]);
    }
  }

  lemma AnswersRamrd(p: Panel, b: byte)
    requires p.Valid() && Listening(p) && p.decoder.command == 0x2E
    ensures Transfer(p, b) == RamrdByte(p)
  {
  }

  lemma RamrdPixel(p: Panel, w: Window, n: nat)
    requires Reading(p, w, n)
    ensures var fmt := p.display.colmod;
      var wire := Pack(fmt, CellAt(p.gram, At(w, n).x, At(w, n).y));
      var (q0, b0) := RamrdByte(p);
      && b0 == wire[0] && q0.decoder == p.decoder && q0.lines == p.lines
      && var (q1, b1) := RamrdByte(q0);
      && b1 == wire[1] && q1.decoder == p.decoder && q1.lines == p.lines
      && (fmt.Rgb565? ==> q1 == p.(readout := q1.readout, cursor := At(w, n + 1)) && Reading(q1, w, n + 1))
      && (fmt.Rgb666? ==>
            var (q2, b2) := RamrdByte(q1);
            b2 == wire[2] && q2 == p.(readout := q2.readout, cursor := At(w, n + 1)) && Reading(q2, w, n + 1))
  {
    hide CellAt, At, Pack, Next;
    NextAt(w, n);
  }

  /** The contents of the first n cells of a window, in raster order. */
  function Region(gram: seq<u16>, w: Window, n: nat): (colours: seq<u16>)
    requires |gram| == CELLS
    ensures |colours| == n
  {
    if n == 0 then [] else Region(gram, w, n - 1) + [CellAt(gram, At(w, n - 1).x, At(w, n - 1).y)]
  }

  lemma {:induction false} ReadPixels(p: Panel, w: Window, n: nat, clocks: seq<byte>)
    requires Reading(p, w, 0) && |clocks| == WireLen(p.display.colmod, n)
    ensures var (q, out) := Send(p, clocks);
      && out == PackAll(p.display.colmod, Region(p.gram, w, n))
      && q == p.(readout := q.readout, cursor := At(w, n)) && Reading(q, w, n)
  {
    hide Pack, CellAt, At, Transfer;
    if n > 0 {
      var m := WireLen(p.display.colmod, n - 1);
      ReadPixels(p, w, n - 1, clocks[..m]);
      SendConcat(p, clocks[..m], clocks[m..]);
      assert clocks[..m] + clocks[m..] == clocks;
      ReadPixel(Send(p, clocks[..m]).0, w, n - 1, clocks[m..]);
    }
  }

  lemma {:induction false} RegionAt(gram: seq<u16>, w: Window, n: nat, k: nat)
    requires |gram| == CELLS && k < n
    ensures Region(gram, w, n)[k] == CellAt(gram, At(w, k).x, At(w, k).y)
  {
    hide CellAt, At;
    if k < n - 1 {
      RegionAt(gram, w, n - 1, k);
    }
  }

  // ----- writing ---------------------------------------------------------------------

  ghost predicate Writing(p: Panel) {
    p.Valid() && Listening(p) && p.decoder.command == 0x2C && p.decoder.pixelLen == 0
  }

  lemma WritePixel(p: Panel, wire: seq<byte>)
    requires Writing(p) && |wire| == p.display.colmod.BytesPerPixel()
    ensures var q := Send(p, wire).0;
      && CanvasOf(q) == Dab(CanvasOf(p), Unpack(p.display.colmod, wire))
      && Writing(q) && q.display == p.display && q.readout == p.readout
  {
    hide Next, Send, RamrdByte, CommandByte;
    SendGroup(p, wire);
    PixelBytes(p, wire);
  }

  lemma PixelBytes(p: Panel, wire: seq<byte>)
    requires Writing(p) && |wire| == p.display.colmod.BytesPerPixel()
    ensures var q0 := PixelByte(p, wire[0]);
      && Writing(q0.(decoder := q0.decoder.(pixelLen := 0)))
      && var q1 := PixelByte(q0, wire[1]);
      && var q := if p.display.colmod.Rgb565? then q1 else PixelByte(q1, wire[2]);
      && CanvasOf(q) == Dab(CanvasOf(p), Unpack(p.display.colmod, wire))
      && Writing(q) && q.display == p.display && q.readout == p.readout
  {
    hide Next;
  }

  lemma {:induction false} WritePixels(p: Panel, wire: seq<byte>, n: nat)
    requires Writing(p) && |wire| == WireLen(p.display.colmod, n)
    ensures var q := Send(p, wire).0;
      CanvasOf(q) == Paint(CanvasOf(p), UnpackAll(p.display.colmod, wire)) && Writing(q) && q.display == p.display
  {
    hide Dab, Unpack, Transfer;
    if n > 0 {
      var m := WireLen(p.display.colmod, n - 1);
      WritePixels(p, wire[..m], n - 1);
      SendConcat(p, wire[..m], wire[m..]);
      assert wire[..m] + wire[m..] == wire;
      WritePixel(Send(p, wire[..m]).0, wire[m..]);
      var colours := UnpackAll(p.display.colmod, wire);
      assert colours[..|colours| - 1] == UnpackAll(p.display.colmod, wire[..m]);
    }
  }

  // ----- the whole command stream ------------------------------------------------------

  /** An opcode with DC low, then parameters with DC high. */
  function Command(p: Panel, code: byte): (q: Panel)
    requires p.Valid()
    ensures q.Valid()
  {
    Transfer(SetControlLines(p, false, false, true), code).0
  }

  function Params(p: Panel, bs: seq<byte>): (r: (Panel, seq<byte>))
    requires p.Valid()
    ensures r.0.Valid() && |r.1| == |bs|
  {
    Send(SetControlLines(p, false, true, true), bs)
  }

  function Bounds(first: u16, last: u16): seq<byte> {
    [first / 256, first % 256, last / 256, last % 256]
  }

  function WithWindow(p: Panel, w: Window): (q: Panel)
    requires p.Valid()
    ensures q.Valid()
  {
    var columns := Params(Command(p, 0x2A), Bounds(w.colStart, w.colEnd)).0;
    Params(Command(columns, 0x2B), Bounds(w.rowStart, w.rowEnd)).0
  }

  /** Everything a window change or a data phase leaves alone. */
  predicate SameScreen(p: Panel, q: Panel) {
    q.gram == p.gram && q.display == p.display && q.readout == p.readout && !q.lines.resetAsserted
  }

  lemma WindowCommand(p: Panel, code: byte, first: u16, last: u16)
    requires p.Valid() && !p.lines.resetAsserted && (code == 0x2A || code == 0x2B)
    ensures var q := Params(Command(p, code), Bounds(first, last)).0;
      && SameScreen(p, q)
      && q.cursor.win == if code == 0x2A then p.cursor.win.(colStart := first, colEnd := last)
                         else p.cursor.win.(rowStart := first, rowEnd := last)
  {
    hide Send;
    var c := SetControlLines(Command(p, code), false, true, true);
    var b0, b1, b2, b3 := first / 256, first % 256, last / 256, last % 256;
    WindowParams(c, b0, b1, b2, b3);
    assert Bounds(first, last) == [b0, b1, b2, b3];
  }

  lemma WindowParams(c: Panel, b0: byte, b1: byte, b2: byte, b3: byte)
    requires c.Valid() && Listening(c) && (c.decoder.command == 0x2A || c.decoder.command == 0x2B)
    requires c.decoder.paramIndex == 0
    ensures var q := Send(c, [b0, b1, b2, b3]).0;
      && SameScreen(c, q)
      && q.cursor.win == if c.decoder.command == 0x2A
                         then c.cursor.win.(colStart := BigEndian16(b0, b1), colEnd := BigEndian16(b2, b3))
                         else c.cursor.win.(rowStart := BigEndian16(b0, b1), rowEnd := BigEndian16(b2, b3))
  {
    hide Send, PixelByte, CommandByte, RamrdByte;
    SendThree(c, b0, b1, b2);
    SendSnoc(c, [b0, b1, b2], b3);
    assert [b0, b1, b2] + [b3] == [b0, b1, b2, b3];
  }

  lemma WindowSet(p: Panel, w: Window)
    requires p.Valid() && !p.lines.resetAsserted
    ensures var q := WithWindow(p, w); SameScreen(p, q) && q.cursor.win == w
  {
    hide Params, Command;
    WindowCommand(p, 0x2A, w.colStart, w.colEnd);
    var columns := Params(Command(p, 0x2A), Bounds(w.colStart, w.colEnd)).0;
    WindowCommand(columns, 0x2B, w.rowStart, w.rowEnd);
  }

  lemma StartsReading(p: Panel, w: Window)
    requires p.Valid() && !p.lines.resetAsserted && p.cursor.win == w
    ensures var q := SetControlLines(Command(p, 0x2E), false, true, true);
      && q.gram == p.gram && q.display == p.display && q.readout.emitsDummy == p.readout.emitsDummy
      && q.readout.dummyPending == p.readout.emitsDummy
      && Reading(q.(readout := q.readout.(dummyPending := false)), w, 0)
  {
    hide PixelByte;
    PointerAfter(w, 0);
  }

  lemma StartsWriting(p: Panel, w: Window)
    requires p.Valid() && !p.lines.resetAsserted && p.cursor.win == w
    ensures var q := SetControlLines(Command(p, 0x2C), false, true, true);
      && q.gram == p.gram && q.display == p.display && Writing(q) && q.cursor == Home(w)
      && q.readout.emitsDummy == p.readout.emitsDummy
  {
  }

  /** A RAMRD data phase: a dummy byte if the transport wants one, then the region. */
  lemma ReadRegion(p: Panel, w: Window, n: nat, clocks: seq<byte>)
    requires p.Valid() && !p.lines.resetAsserted && p.cursor.win == w
    requires |clocks| == (if p.readout.emitsDummy then 1 else 0) + WireLen(p.display.colmod, n)
    ensures var (q, out) := Params(Command(p, 0x2E), clocks);
      && out == (if p.readout.emitsDummy then [0] else []) + PackAll(p.display.colmod, Region(p.gram, w, n))
      && q.gram == p.gram && q.display == p.display && !q.lines.resetAsserted
  {
    hide Send, Command, Transfer, PackAll, Region;
    var q := SetControlLines(Command(p, 0x2E), false, true, true);
    StartsReading(p, w);
    if p.readout.emitsDummy {
      SendSnoc(q, [], clocks[0]);
      assert [] + [clocks[0]] == [clocks[0]] && clocks == [clocks[0]] + clocks[1..];
      DummyFirst(q, clocks[0]);
      SendConcat(q, [clocks[0]], clocks[1..]);
      ReadPixels(q.(readout := q.readout.(dummyPending := false)), w, n, clocks[1..]);
    } else {
      assert q.(readout := q.readout.(dummyPending := false)) == q;
      ReadPixels(q, w, n, clocks);
      assert [] + PackAll(p.display.colmod, Region(p.gram, w, n)) == PackAll(p.display.colmod, Region(p.gram, w, n));
    }
  }

  lemma DummyFirst(q: Panel, b: byte)
    requires q.Valid() && Listening(q) && q.decoder.command == 0x2E && q.readout.dummyPending
    ensures Transfer(q, b) == (q.(readout := q.readout.(dummyPending := false)), 0)
  {
  }

  /** The driver's scroll: read a region, swap bytes 0 and 2 of each triple, write it elsewhere. */
  function CopyBytes(p: Panel, src: Window, dst: Window, clocks: seq<byte>): (r: Panel)
    requires p.Valid() && (p.readout.emitsDummy ==> clocks != [])
  {
    var (q, out) := Params(Command(WithWindow(p, src), 0x2E), clocks);
    var pixels := if p.readout.emitsDummy then out[1..] else out;
    Params(Command(WithWindow(q, dst), 0x2C), SwapTriples(pixels)).0
  }

  /** Over the whole stream every cell of dst takes the colour of its place in src; no other cell changes. */
  lemma CopyIsExact(p: Panel, src: Window, dst: Window, clocks: seq<byte>, x: nat, y: nat)
    requires p.Valid() && !p.lines.resetAsserted && p.display.colmod == Rgb666
    requires Cols(src) == Cols(dst) && Rows(src) == Rows(dst)
    requires |clocks| == (if p.readout.emitsDummy then 1 else 0) + 3 * Area(src)
    requires x < WIDTH && y < HEIGHT
    ensures CopyBytes(p, src, dst, clocks).Valid()
    ensures CellAt(CopyBytes(p, src, dst, clocks).gram, x, y) ==
      if Inside(dst, x, y) then CellAt(p.gram, x - dst.colStart + src.colStart, y - dst.rowStart + src.rowStart)
      else CellAt(p.gram, x, y)
  {
    hide Params, Command, WithWindow, CellAt, Paint, Region, PackAll, UnpackAll, SwapTriples, Area, IndexOf, Inside;
    var n := Area(src);
    var atSrc := WithWindow(p, src);
    WindowSet(p, src);
    ReadRegion(atSrc, src, n, clocks);
    var (q, out) := Params(Command(atSrc, 0x2E), clocks);
    var pixels := if p.readout.emitsDummy then out[1..] else out;
    var colours := Region(p.gram, src, n);
    assert pixels == PackAll(Rgb666, colours);
    var atDst := WithWindow(q, dst);
    WindowSet(q, dst);
    var canvas := WriteRegion(atDst, dst, SwapTriples(pixels), n);
    SwappedReadback(colours);
    PlacesMatch(canvas, src, dst, x, y);
  }

  /** A RAMWR data phase paints the unpacked colours from the window origin. */
  lemma WriteRegion(p: Panel, w: Window, wire: seq<byte>, n: nat) returns (c: Canvas)
    requires p.Valid() && !p.lines.resetAsserted && p.cursor.win == w && |wire| == WireLen(p.display.colmod, n)
    ensures |c.gram| == CELLS && c.gram == p.gram && c.cursor == Home(w)
    ensures var q := Params(Command(p, 0x2C), wire).0;
            && q.gram == Paint(c, UnpackAll(p.display.colmod, wire)).gram
            && q.cursor.win == w && q.display == p.display && !q.lines.resetAsserted
            && q.readout.emitsDummy == p.readout.emitsDummy
  {
    hide Send, Command, Paint, UnpackAll;
    var q := SetControlLines(Command(p, 0x2C), false, true, true);
    StartsWriting(p, w);
    WritePixels(q, wire, n);
    c := CanvasOf(q);
    PaintWalks(c, w, UnpackAll(p.display.colmod, wire));
    TransportKept(q, wire);
  }

  /** Whether reads start with a dummy byte is the transport's choice; no byte changes it. */
  lemma {:induction false} TransportKept(p: Panel, bs: seq<byte>)
    requires p.Valid()
    ensures Send(p, bs).0.readout.emitsDummy == p.readout.emitsDummy
  {
    hide Transfer;
    if bs != [] {
      TransportKept(p, bs[..|bs| - 1]);
      ByteKeepsTransport(Send(p, bs[..|bs| - 1]).0, bs[|bs| - 1]);
    }
  }

  lemma ByteKeepsTransport(p: Panel, b: byte)
    requires p.Valid()
    ensures Transfer(p, b).0.readout.emitsDummy == p.readout.emitsDummy
  {
  }

  lemma PlacesMatch(c: Canvas, src: Window, dst: Window, x: nat, y: nat)
    requires |c.gram| == CELLS && c.cursor == Home(dst) && x < WIDTH && y < HEIGHT
    requires Cols(src) == Cols(dst) && Rows(src) == Rows(dst)
    ensures CellAt(Paint(c, Region(c.gram, src, Area(src))).gram, x, y) ==
      if Inside(dst, x, y) then CellAt(c.gram, x - dst.colStart + src.colStart, y - dst.rowStart + src.rowStart)
      else CellAt(c.gram, x, y)
  {
    hide CellAt, Paint, Region, IndexOf;
    FullPass(c, dst, Region(c.gram, src, Area(src)), x, y);
    if Inside(dst, x, y) {
      LandsAtIndex(dst, x, y);
      RegionAt(c.gram, src, Area(src), IndexOf(dst, x, y));
    }
  }

  // ----- writing and reading back ------------------------------------------------------

  /** Pixels that fall beside the screen are not kept, and read as zero. */
  function Kept(w: Window, colours: seq<u16>): (kept: seq<u16>)
    ensures |kept| == |colours|
  {
    seq(|colours|, k requires 0 <= k < |colours| =>
                     if At(w, k).x < WIDTH && At(w, k).y < HEIGHT then colours[k] else 0)
  }

  lemma PaintedCell(c: Canvas, w: Window, colours: seq<u16>, k: nat)
    requires |c.gram| == CELLS && c.cursor == Home(w) && |colours| == Area(w) && k < Area(w)
    ensures CellAt(Paint(c, colours).gram, At(w, k).x, At(w, k).y) == Kept(w, colours)[k]
  {
    hide Paint, At, IndexOf, Area;
    var x, y := At(w, k).x, At(w, k).y;
    NeverOutside(w, k);
    if x < WIDTH && y < HEIGHT {
      FullPass(c, w, colours, x, y);
      LandsOnlyAtIndex(w, x, y, k);
    }
  }

  lemma PaintedRegion(c: Canvas, w: Window, colours: seq<u16>)
    requires |c.gram| == CELLS && c.cursor == Home(w) && |colours| == Area(w)
    ensures Region(Paint(c, colours).gram, w, Area(w)) == Kept(w, colours)
  {
    hide Paint, CellAt, At, Kept, Region, Area;
    forall k | 0 <= k < Area(w)
      ensures Region(Paint(c, colours).gram, w, Area(w))[k] == Kept(w, colours)[k]
    {
      RegionAt(Paint(c, colours).gram, w, Area(w), k);
      PaintedCell(c, w, colours, k);
    }
  }

  predicate OnScreen(w: Window) {
    w.colStart + Cols(w) <= WIDTH && w.rowStart + Rows(w) <= HEIGHT
  }

  lemma AllKept(w: Window, colours: seq<u16>)
    requires OnScreen(w)
    ensures Kept(w, colours) == colours
  {
    hide At;
    forall k | 0 <= k < |colours|
      ensures At(w, k).x < WIDTH && At(w, k).y < HEIGHT
    {
      NeverOutside(w, k);
    }
  }

  lemma AllBytesKept(w: Window, wire: seq<byte>)
    requires |wire| % 2 == 0 && OnScreen(w)
    ensures PackAll(Rgb565, Kept(w, UnpackAll(Rgb565, wire))) == wire
  {
    hide PackAll, UnpackAll, Kept, OnScreen;
    AllKept(w, UnpackAll(Rgb565, wire));
    SameBytesBack(wire);
  }

  /** Set a window, fill it with RAMWR, then read it with RAMRD. */
  function WriteThenRead(p: Panel, w: Window, wire: seq<byte>, clocks: seq<byte>): seq<byte>
    requires p.Valid()
  {
    var written := Params(Command(WithWindow(p, w), 0x2C), wire).0;
    Params(Command(written, 0x2E), clocks).1
  }

  lemma WindowFilled(p: Panel, w: Window, wire: seq<byte>)
    requires p.Valid() && !p.lines.resetAsserted && p.display.colmod == Rgb565 && |wire| == 2 * Area(w)
    ensures |UnpackAll(Rgb565, wire)| == Area(w)
    ensures var q := Params(Command(WithWindow(p, w), 0x2C), wire).0;
            && Region(q.gram, w, Area(w)) == Kept(w, UnpackAll(Rgb565, wire))
            && q.cursor.win == w && q.display == p.display && !q.lines.resetAsserted
            && q.readout.emitsDummy == p.readout.emitsDummy
  {
    hide Params, Command, WithWindow, Paint, Region, PackAll, UnpackAll, Kept, Area;
    var ready := WithWindow(p, w);
    WindowSet(p, w);
    var canvas := WriteRegion(ready, w, wire, Area(w));
    PaintedRegion(canvas, w, UnpackAll(Rgb565, wire));
  }

  lemma ReadsColours(p: Panel, w: Window, colours: seq<u16>, clocks: seq<byte>, dummy: seq<byte>)
    requires p.Valid() && !p.lines.resetAsserted && p.cursor.win == w && p.display.colmod == Rgb565
    requires Region(p.gram, w, Area(w)) == colours && dummy == if p.readout.emitsDummy then [0] else []
    requires |clocks| == |dummy| + 2 * Area(w)
    ensures Params(Command(p, 0x2E), clocks).1 == dummy + PackAll(Rgb565, colours)
  {
    hide Params, Command, Region, PackAll, Area;
    ReadRegion(p, w, Area(w), clocks);
  }

  /** In RGB565, over the whole command stream, a window reads back as what it kept of the pixels written to it. */
  lemma KeptReadsBack(p: Panel, w: Window, wire: seq<byte>, clocks: seq<byte>, dummy: seq<byte>)
    requires p.Valid() && !p.lines.resetAsserted && p.display.colmod == Rgb565 && |wire| == 2 * Area(w)
    requires dummy == (if p.readout.emitsDummy then [0] else []) && |clocks| == |dummy| + 2 * Area(w)
    ensures WriteThenRead(p, w, wire, clocks) == dummy + PackAll(Rgb565, Kept(w, UnpackAll(Rgb565, wire)))
  {
    hide Params, Command, WithWindow, Region, PackAll, UnpackAll, Kept, Area;
    WindowFilled(p, w, wire);
    var written := Params(Command(WithWindow(p, w), 0x2C), wire).0;
    ReadsColours(written, w, Kept(w, UnpackAll(Rgb565, wire)), clocks, dummy);
  }

  /** So a window on the screen reads back, behind the optional dummy, byte for byte as it was written. */
  lemma WrittenReadsBack(p: Panel, w: Window, wire: seq<byte>, clocks: seq<byte>, dummy: seq<byte>)
    requires p.Valid() && !p.lines.resetAsserted && p.display.colmod == Rgb565 && |wire| == 2 * Area(w) && OnScreen(w)
    requires dummy == (if p.readout.emitsDummy then [0] else []) && |clocks| == |dummy| + 2 * Area(w)
    ensures WriteThenRead(p, w, wire, clocks) == dummy + wire
  {
    hide PackAll, UnpackAll, Kept, Area, OnScreen, WriteThenRead;
    KeptReadsBack(p, w, wire, clocks, dummy);
    AllBytesKept(w, wire);
  }
}
