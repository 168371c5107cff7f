/**
 * The bit-level wire carries bytes faithfully in both directions, one byte late on
 * the way back; with the RAMRD dummy byte turned off that lag is exactly the dummy
 * byte of the SPI hook.
 */
module LcdWireTheorems {
  import opened Bits
  import opened PanelSpec
  import opened LcdWire

  // ----- one byte ---------------------------------------------------------------

  /** CS low, RESET high. */
  function Drive(dc: bool, sck: bool, mosi: bool): Pads {
    Pads(sck, mosi, false, dc, true)
  }

  /** The link after the first n bits of a byte, each presented with SCK low and then raised. */
  function AfterBits(l: Link, prevSck: bool, dc: bool, bits: seq<bool>): (r: Link)
    requires l.Valid()
    ensures r.Valid()
  {
    if bits == [] then l
    else
      var n := |bits| - 1;
      var before, sck := AfterBits(l, prevSck, dc, bits[..n]), if n == 0 then prevSck else true;
      var low := Drive(dc, false, bits[n]);
      // Only SCK of the earlier snapshot matters to Observe.
      Observe(Observe(before, Drive(dc, sck, false), low), low, Drive(dc, true, bits[n]))
  }

  lemma LinesSettle(p: Panel, dc: bool)
    requires p.Valid()
    ensures var q := SetControlLines(p, false, dc, true); SetControlLines(q, false, dc, true) == q
  {
  }

  /** Seven bits or fewer only fill the register, while the old reply is shed. */
  lemma {:induction false} PartOfByte(l: Link, prevSck: bool, dc: bool, bits: seq<bool>)
    requires l.Valid() && l.bits == [] && 0 < |bits| < 8
    ensures var r := AfterBits(l, prevSck, dc, bits);
      && r.panel == SetControlLines(l.panel, false, dc, true)
      && r.bits == bits && r.reply == l.reply && r.resting == l.resting
      && r.falls == l.falls + |bits| - (if prevSck then 0 else 1)
      && r.counts == Counts(l.counts.edges + |bits|, l.counts.bytes, l.counts.partials)
  {
    hide SetControlLines, Observe;
    var n := |bits| - 1;
    LinesSettle(l.panel, dc);
    if n > 0 {
      PartOfByte(l, prevSck, dc, bits[..n]);
      OneBit(AfterBits(l, prevSck, dc, bits[..n]), true, dc, bits[n]);
      assert bits[..n] + [bits[n]] == bits;
    } else {
      OneBit(l, prevSck, dc, bits[0]);
      assert [] + [bits[0]] == bits;
    }
  }

  lemma OneBit(l: Link, sck: bool, dc: bool, bit: bool)
    requires l.Valid() && |l.bits| < 7
    ensures var low := Drive(dc, false, bit);
      var r := Observe(Observe(l, Drive(dc, sck, false), low), low, Drive(dc, true, bit));
      && r.panel == SetControlLines(SetControlLines(l.panel, false, dc, true), false, dc, true)
      && r.bits == l.bits + [bit] && r.reply == l.reply && r.resting == l.resting
      && r.falls == l.falls + (if sck then 1 else 0)
      && r.counts == Counts(l.counts.edges + 1, l.counts.bytes, l.counts.partials)
  {
    hide SetControlLines, Transfer, ByteOf;
  }

  /** The eighth bit hands the byte over and takes the reply in. */
  lemma WholeByte(l: Link, prevSck: bool, dc: bool, b: byte)
    requires l.Valid() && l.bits == []
    ensures var (r, t) := (AfterBits(l, prevSck, dc, BitsOf(b)),
                           Transfer(SetControlLines(l.panel, false, dc, true), b));
      && r.panel == t.0 && r.reply == t.1 && r.bits == [] && r.falls == 0
      && r.counts == Counts(l.counts.edges + 8, l.counts.bytes + 1, l.counts.partials)
  {
    hide SetControlLines, Transfer, ByteOf, BitsOf;
    var bits := BitsOf(b);
    PartOfByte(l, prevSck, dc, bits[..7]);
    LinesSettle(l.panel, dc);
    ByteRoundTrip(b, bits);
    assert bits[..7] + [bits[7]] == bits;
  }

  /** A byte cut short by chip select never reaches the panel: its bits are lost and it is counted as partial. */
  lemma CutShort(l: Link, prevSck: bool, dc: bool, bits: seq<bool>, last: Pads, now: Pads)
    requires l.Valid() && l.bits == [] && |bits| < 8 && now.cs
    ensures var r := Observe(AfterBits(l, prevSck, dc, bits), last, now);
      && r.bits == [] && r.counts.bytes == l.counts.bytes && r.counts.edges == l.counts.edges + |bits|
      && r.counts.partials == l.counts.partials + (if bits == [] then 0 else 1)
      && r.panel == SetControlLines(if bits == [] then l.panel else SetControlLines(l.panel, false, dc, true),
                                    true, now.dc, now.reset)
  {
    hide SetControlLines, Transfer;
    if bits != [] {
      PartOfByte(l, prevSck, dc, bits);
    }
  }

  /** What the master samples at the rise of bit j is bit j of the reply it was given before this byte. */
  lemma SampledBit(l: Link, dc: bool, b: byte, j: nat)
    requires l.Valid() && l.bits == [] && l.falls == 0 && j < 8
    ensures AfterBits(l, true, dc, BitsOf(b)[..j + 1]).Miso() == BitsOf(l.reply)[j]
  {
    hide SetControlLines, Transfer, ByteOf, ShiftedOut;
    var bits := BitsOf(b);
    if j < 7 {
      PartOfByte(l, true, dc, bits[..j + 1]);
    } else {
      PartOfByte(l, true, dc, bits[..7]);
      LinesSettle(l.panel, dc);
      assert bits[..8][..7] == bits[..7];
      assert bits[..7] + [bits[7]] == bits;
    }
  }

  // ----- a run of bytes --------------------------------------------------------------

  datatype Item = Item(dc: bool, b: byte)

  /** The same items handed to the panel directly, with its replies. */
  function Direct(p: Panel, items: seq<Item>): (r: (Panel, seq<byte>))
    requires p.Valid()
    ensures r.0.Valid() && |r.1| == |items|
  {
    if items == [] then (p, [])
    else
      var i := items[|items| - 1];
      var (q, replies) := Direct(p, items[..|items| - 1]);
      var (q', reply) := Transfer(SetControlLines(q, false, i.dc, true), i.b);
      (q', replies + [reply])
  }

  /** The items clocked through the wire, SCK staying high between bytes. */
  function OnWire(l: Link, items: seq<Item>): (r: Link)
    requires l.Valid()
    ensures r.Valid()
  {
    if items == [] then l
    else
      var n := |items| - 1;
      AfterBits(OnWire(l, items[..n]), n > 0, items[n].dc, BitsOf(items[n].b))
  }

  /** The panel cannot tell the wire from direct calls, and the reply in flight is the last one. */
  lemma {:induction false} WireIsDirect(l: Link, items: seq<Item>)
    requires l.Valid() && l.bits == []
    ensures var (r, d) := (OnWire(l, items), Direct(l.panel, items));
      && r.panel == d.0 && r.bits == []
      && (items != [] ==> r.falls == 0 && r.reply == d.1[|items| - 1])
      && r.counts == Counts(l.counts.edges + 8 * |items|, l.counts.bytes + |items|, l.counts.partials)
  {
    hide AfterBits, BitsOf, Transfer, SetControlLines;
    if items != [] {
      var n := |items| - 1;
      WireIsDirect(l, items[..n]);
      WholeByte(OnWire(l, items[..n]), n > 0, items[n].dc, items[n].b);
    }
  }

  /** The byte the master reads while clocking item n is the panel's reply to item n - 1. */
  lemma ReadsPreviousReply(l: Link, items: seq<Item>, n: nat, j: nat)
    requires l.Valid() && l.bits == [] && 0 < n < |items| && j < 8
    ensures AfterBits(OnWire(l, items[..n]), true, items[n].dc, BitsOf(items[n].b)[..j + 1]).Miso() ==
            BitsOf(Direct(l.panel, items).1[n - 1])[j]
  {
    hide AfterBits, BitsOf, Direct;
    WireIsDirect(l, items[..n]);
    SampledBit(OnWire(l, items[..n]), items[n].dc, items[n].b, j);
    EarlierReply(l.panel, items, n);
  }

  lemma {:induction false} EarlierReply(p: Panel, items: seq<Item>, n: nat)
    requires p.Valid() && 0 < n <= |items|
    ensures Direct(p, items).1[n - 1] == Direct(p, items[..n]).1[n - 1]
  {
    hide Transfer, SetControlLines;
    if n < |items| {
      EarlierReply(p, items[..|items| - 1], n);
      assert items[..|items| - 1][..n] == items[..n];
    } else {
      assert items[..n] == items;
    }
  }

  // ----- RAMRD looks the same on both transports ---------------------------------------

  /** A RAMRD opcode and then only data-phase clocks. */
  predicate ReadsBack(items: seq<Item>) {
    items != [] && items[0] == Item(false, 0x2E) && forall i :: 0 < i < |items| ==> items[i].dc
  }

  /** Two panels that differ only in whether RAMRD starts with a dummy byte. */
  function WithDummy(p: Panel): Panel {
    p.(readout := p.readout.(emitsDummy := true))
  }

  lemma OpcodeReply(p: Panel)
    requires p.Valid()
    ensures var (on, off) := (Transfer(SetControlLines(WithDummy(p), false, false, true), 0x2E),
                              Transfer(SetControlLines(PanelSpec.SetRamrdDummy(p, false), false, false, true),
                                       0x2E));
      && on.1 == 0 && off.1 == 0
      && on.0 == WithDummy(off.0.(readout := off.0.readout.(dummyPending := true)))
      && off.0.decoder.command == 0x2E && !off.0.readout.dummyPending && off.0.lines == Lines(true, false, false)
  {
  }

  lemma FirstClock(p: Panel, b: byte)
    requires p.Valid() && p.decoder.command == 0x2E && !p.readout.dummyPending
    requires p.lines == Lines(true, false, false)
    ensures var on := WithDummy(p.(readout := p.readout.(dummyPending := true)));
      Transfer(SetControlLines(on, false, true, true), b) == (WithDummy(SetControlLines(p, false, true, true)), 0)
  {
  }

  lemma LaterClock(p: Panel, b: byte, c: byte)
    requires p.Valid() && p.decoder.command == 0x2E && !p.readout.dummyPending && !p.lines.resetAsserted
    ensures var q := SetControlLines(p, false, true, true);
            var (on, off) := (Transfer(SetControlLines(WithDummy(q), false, true, true), b), Transfer(q, c));
      && on.1 == off.1 && on.0 == WithDummy(off.0) && SetControlLines(off.0, false, true, true) == off.0
      && off.0.decoder.command == 0x2E && !off.0.readout.dummyPending && !off.0.lines.resetAsserted
  {
    hide CellAt, Next, Pack;
  }

  lemma DirectOne(p: Panel, i: Item)
    requires p.Valid()
    ensures var t := Transfer(SetControlLines(p, false, i.dc, true), i.b);
      Direct(p, [i]).0 == t.0 && Direct(p, [i]).1 == [t.1]
  {
    hide Transfer, SetControlLines;
    assert [i][..0] == [];
  }

  /**
   * Byte n + 1 of the exchange on the SPI hook is byte n on the wire: the hook's dummy
   * byte and the wire's one-byte lag cancel.
   */
  lemma {:induction false} RamrdStreamsAgree(p: Panel, items: seq<Item>)
    requires p.Valid() && ReadsBack(items) && |items| >= 2
    ensures var n := |items| - 1;
      var (hook, wire) := (Direct(WithDummy(p), items), Direct(PanelSpec.SetRamrdDummy(p, false), items[..n]));
      && hook.1[n] == wire.1[n - 1]
      && hook.0 == WithDummy(SetControlLines(wire.0, false, true, true))
      && wire.0.decoder.command == 0x2E && !wire.0.readout.dummyPending && !wire.0.lines.resetAsserted
      && (n == 1 ==> wire.0.lines == Lines(true, false, false))
  {
    hide Transfer, SetControlLines;
    var n, off := |items| - 1, PanelSpec.SetRamrdDummy(p, false);
    OpcodeReply(p);
    DirectOne(WithDummy(p), items[0]);
    DirectOne(off, items[0]);
    assert items[..1] == [items[0]];
    if n == 1 {
      FirstClock(Direct(off, items[..1]).0, items[1].b);
    } else {
      RamrdStreamsAgree(p, items[..n]);
      assert items[..n][..n - 1] == items[..n - 1];
      LaterClock(Direct(off, items[..n - 1]).0, items[n].b, items[n - 1].b);
    }
  }

  /** A master reading back sees the same bytes on either transport. */
  lemma SameStreamBothWays(l: Link, p: Panel, items: seq<Item>, n: nat, j: nat)
    requires l.Valid() && l.bits == [] && p.Valid() && l.panel == PanelSpec.SetRamrdDummy(p, false)
    requires ReadsBack(items) && 0 < n < |items| && j < 8
    ensures AfterBits(OnWire(l, items[..n]), true, items[n].dc, BitsOf(items[n].b)[..j + 1]).Miso() ==
            BitsOf(Direct(WithDummy(p), items).1[n])[j]
  {
    hide AfterBits, BitsOf, Direct, OnWire;
    ReadsPreviousReply(l, items, n, j);
    RamrdStreamsAgree(p, items[..n + 1]);
    assert items[..n + 1][..n] == items[..n];
    EarlierReply(WithDummy(p), items, n + 1);
    EarlierReply(l.panel, items, n);
  }
}
