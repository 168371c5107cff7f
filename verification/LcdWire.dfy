/**
 * The bit-level display transport: pad snapshots become bytes for the panel, and
 * each reply leaves on MISO during the byte after it.
 */
module LcdWire {
  import opened Bits
  import opened PanelSpec
  import opened PanelDevice

  const PIN_MISO: bv5 := 12

  /** The five levels the wire looks at in a pad snapshot. */
  datatype Pads = Pads(sck: bool, mosi: bool, cs: bool, dc: bool, reset: bool)

  function PadsOf(word: bv32): Pads {
    Pads(Level(word, PIN_SCK), Level(word, PIN_MOSI), Level(word, PIN_CS), Level(word, PIN_DC), Level(word, PIN_RESET))
  }

  datatype Counts = Counts(edges: nat, bytes: nat, partials: nat)

  /**
   * The link without shift registers: the bits of the byte in flight, the reply being
   * sent back, and how many falling edges have gone by since it was handed over.
   */
  datatype Link = Link(panel: Panel, bits: seq<bool>, reply: byte, falls: nat, resting: bool, counts: Counts)
  {
    ghost predicate Valid() { panel.Valid() && |bits| < 8 }

    /** MISO holds its level until the first falling edge after a reply is handed over. */
    function Miso(): bool {
      if falls == 0 then resting else Top(ShiftedOut(reply, falls - 1))
    }
  }

  function Observe(l: Link, prev: Pads, now: Pads): (r: Link)
    requires l.Valid()
    ensures r.Valid()
  {
    var p, n := SetControlLines(l.panel, now.cs, now.dc, now.reset), l.counts;
    if now.cs then
      l.(panel := p, bits := [], counts := n.(partials := n.partials + if l.bits == [] then 0 else 1))
    else if now.sck && !prev.sck then
      var bits := l.bits + [now.mosi];
      if |bits| < 8 then l.(panel := p, bits := bits, counts := n.(edges := n.edges + 1))
      else
        var (q, reply) := Transfer(p, ByteOf(bits));
        Link(q, [], reply, 0, l.Miso(), n.(edges := n.edges + 1, bytes := n.bytes + 1))
    else if prev.sck && !now.sck then l.(panel := p, falls := l.falls + 1)
    else l.(panel := p)
  }

  /** MOSI and MISO shift registers. */
  datatype Input = Input(shift: byte, bitCount: nat)
  datatype Output = Output(shift: byte, level: bool)

  /** The registers that stand for a link. */
  predicate Fits(l: Link, input: Input, output: Output, counts: Counts) {
    && input == Input(ByteOf(l.bits), |l.bits|)
    && output == Output(ShiftedOut(l.reply, l.falls), l.Miso())
    && counts == l.counts
  }

  class LcdPioWire {
    const panel: St7365p
    var last: bv32
    var primed: bool
    var input: Input
    var output: Output
    var counts: Counts
    ghost var link: Link

    ghost predicate Valid()
      reads this, panel, panel.gram
    {
      && link.Valid() && panel.View() == link.panel
      && Fits(link, input, output, counts)
    }

    constructor (panel: St7365p)
      requires panel.View().Valid()
      modifies panel
      ensures Valid() && !primed && this.panel == panel
      ensures link == Link(PanelSpec.SetRamrdDummy(old(panel.View()), false), [], 0, 0, false, Counts(0, 0, 0))
    {
      panel.SetRamrdDummy(false);
      this.panel := panel;
      last, primed, input, output, counts := 0, false, Input(0, 0), Output(0, false), Counts(0, 0, 0);
      link := Link(panel.View(), [], 0, 0, false, Counts(0, 0, 0));
    }

    /** One pad snapshot; the first only primes the edge detectors. */
    method Tick(word: bv32) returns (driven: Option<(bv5, bool)>)
      requires Valid()
      modifies this, panel, panel.gram
      ensures Valid() && primed && last == word
      ensures link == if old(primed) then Observe(old(link), PadsOf(old(last)), PadsOf(word)) else old(link)
      ensures driven == if old(primed) && !PadsOf(word).cs then Some((12, link.Miso())) else None
    {
      hide Level, PanelSpec.SetControlLines, Observe, Fits;
      var prev, now := PadsOf(last), PadsOf(word);
      last := word;
      if !primed {
        primed := true;
        return None;
      }
      panel.SetControlLines(now.cs, now.dc, now.reset);
      if now.cs {
        EndPartialByte(prev, now);
        link := Observe(link, prev, now);
        return None;
      }
      OnClock(prev, now);
      link := Observe(link, prev, now);
      LevelIsMiso(link, input, output, counts);
      driven := Some((PIN_MISO, output.level));
    }

    /** CS high ends any partial byte. */
    method EndPartialByte(prev: Pads, now: Pads)
      requires link.Valid() && now.cs && Fits(link, input, output, counts)
      modifies this`input, this`counts
      ensures Fits(Observe(link, prev, now), input, output, counts)
      ensures Observe(link, prev, now).panel == PanelSpec.SetControlLines(link.panel, now.cs, now.dc, now.reset)
    {
      hide Transfer, PanelSpec.SetControlLines, ByteOf, ShiftedOut;
      if input.bitCount != 0 {
        counts := counts.(partials := counts.partials + 1);
        input := Input(0, 0);
      }
      EmptyRegister();
    }

    /** With CS low: present a MISO bit on a fall, take a MOSI bit on a rise. */
    method OnClock(prev: Pads, now: Pads)
      requires link.Valid() && !now.cs && Fits(link, input, output, counts)
      requires panel.View() == PanelSpec.SetControlLines(link.panel, now.cs, now.dc, now.reset)
      modifies this`input, this`output, this`counts, panel, panel.gram
      ensures var l := Observe(link, prev, now); panel.View() == l.panel && Fits(l, input, output, counts)
    {
      hide Transfer, PanelSpec.SetControlLines, ByteOf, ShiftedOut, ShiftIn;
      if prev.sck && !now.sck {
        Shed(link.reply, link.falls);
        output := Output(ShiftIn(output.shift, false), Top(output.shift));
      }
      if !(!prev.sck && now.sck) {
        return;
      }
      counts := counts.(edges := counts.edges + 1);
      TakeIn(link.bits, now.mosi);
      input := Input(ShiftIn(input.shift, now.mosi), input.bitCount + 1);
      if input.bitCount == 8 {
        var b := input.shift;
        input, counts := Input(0, 0), counts.(bytes := counts.bytes + 1);
        EmptyRegister();
        var reply := panel.TransferByte(b);
        output := output.(shift := reply);
        Shed(reply, 0);
      }
    }
  }

  lemma LevelIsMiso(l: Link, input: Input, output: Output, counts: Counts)
    requires Fits(l, input, output, counts)
    ensures output.level == l.Miso()
  {
  }

  lemma EmptyRegister()
    ensures ByteOf([]) == 0
  {
  }

  lemma Shed(b: byte, n: nat)
    ensures ShiftedOut(b, 0) == b && ShiftedOut(b, n + 1) == ShiftIn(ShiftedOut(b, n), false)
  {
  }

  lemma TakeIn(bits: seq<bool>, bit: bool)
    ensures ByteOf(bits + [bit]) == ShiftIn(ByteOf(bits), bit)
  {
    assert (bits + [bit])[..|bits|] == bits;
  }
}
