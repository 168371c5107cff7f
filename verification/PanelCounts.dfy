/** What the panel counts over a stream of bytes, and what it does not hear. */
module PanelCounts {
  import opened Bits
  import opened PanelSpec
  import opened PanelCopy
  import opened PanelFormats

  /** How often a command was seen; the two for inversion are not counted at all. */
  function CounterOf(n: Counters, code: byte): nat {
    match code
    case 0x01 => n.swreset
    case 0x10 => n.slpin
    case 0x11 => n.slpout
    case 0x28 => n.dispoff
    case 0x29 => n.dispon
    case 0x2A => n.caset
    case 0x2B => n.raset
    case 0x2C => n.ramwr
    case 0x2E => n.ramrd
    case 0x36 => n.madctl
    case 0x3A => n.colmod
    case _ => if code in n.unknown then n.unknown[code] else 0
  }

  lemma CommandCounted(p: Panel, b: byte, code: byte)
    requires p.Valid()
    ensures CounterOf(CommandByte(p, b).counters, code) ==
            CounterOf(p.counters, code) + if b == code && code != 0x20 && code != 0x21 then 1 else 0
  {
    hide Home, Black;
  }

  /** Over any commands each is counted as often as it came, those the controller does not know included. */
  lemma {:induction false} CommandsCounted(p: Panel, codes: seq<byte>, code: byte)
    requires p.Valid() && p.lines == Lines(true, false, false)
    ensures CounterOf(Send(p, codes).0.counters, code) ==
            CounterOf(p.counters, code) + if code == 0x20 || code == 0x21 then 0 else multiset(codes)[code]
  {
    hide CommandByte, CounterOf;
    if codes == [] {
      SendSnoc(p, [], 0);
    } else {
      var front, b := codes[..|codes| - 1], codes[|codes| - 1];
      CommandsCounted(p, front, code);
      CommandCounted(Send(p, front).0, b, code);
      SendSnoc(p, front, b);
      assert front + [b] == codes;
    }
  }

  /** Data with no command before it is an orphan: it is counted and does nothing else. */
  lemma {:induction false} OrphansCounted(p: Panel, bytes: seq<byte>)
    requires p.Valid() && p.lines == Lines(true, true, false) && p.decoder.command == 0
    ensures var (q, out) := Send(p, bytes);
            && q == p.(counters := p.counters.(orphans := p.counters.orphans + |bytes|))
            && forall i :: 0 <= i < |out| ==> out[i] == 0
  {
    if bytes == [] {
      SendSnoc(p, [], 0);
    } else {
      var front, b := bytes[..|bytes| - 1], bytes[|bytes| - 1];
      OrphansCounted(p, front);
      SendSnoc(p, front, b);
      assert front + [b] == bytes;
    }
  }

  /** So it is with whatever data follows a reset. */
  lemma OrphansAfterReset(p: Panel, bytes: seq<byte>)
    requires p.Valid()
    ensures var q := Send(ResetPulse(p), bytes).0;
            && q.gram == Black() && q.counters.orphans == p.counters.orphans + |bytes|
            && q.counters.written == p.counters.written && q.counters.dropped == p.counters.dropped
            && q.display == ResetPulse(p).display && q.cursor == ResetPulse(p).cursor
  {
    AfterReset(p, false);
    OrphansCounted(ResetPulse(p), bytes);
  }

  /** Held in reset or not selected, the panel hears nothing and answers zeros. */
  lemma {:induction false} Deaf(p: Panel, bytes: seq<byte>)
    requires p.Valid() && (p.lines.resetAsserted || !p.lines.csAsserted)
    ensures var (q, out) := Send(p, bytes); q == p && forall i :: 0 <= i < |out| ==> out[i] == 0
  {
    if bytes == [] {
      SendSnoc(p, [], 0);
    } else {
      var front, b := bytes[..|bytes| - 1], bytes[|bytes| - 1];
      Deaf(p, front);
      SendSnoc(p, front, b);
      assert front + [b] == bytes;
    }
  }

  /** From power-up: a black screen of 320 by 480, nothing counted, and deaf until reset is let go. */
  lemma FreshPanel(bytes: seq<byte>, code: byte)
    ensures var p := Send(PowerUp(), bytes).0;
            && p.Valid() && |p.gram| == 320 * 480 && (forall i :: 0 <= i < |p.gram| ==> p.gram[i] == 0)
            && CounterOf(p.counters, code) == 0 && p.counters.resetPulses == 0
            && p.counters.written == p.counters.dropped == p.counters.orphans == 0
            && SetControlLines(p, true, true, true).counters.resetPulses == 1
  {
    Deaf(PowerUp(), bytes);
  }
}
