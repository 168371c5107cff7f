/**
 * What the PSRAM promises over whole traces: the reset handshake, the round trip
 * through the buffer on real waveforms, and the settling delay that shifts the
 * answer without changing anything else.
 */
module PsramTheorems {
  import opened Bits
  import opened PsramSpec
  import opened PsramChip

  // ----- the reset handshake ---------------------------------------------------

  /** The command byte of the latest frame that completed one. */
  function LastCommand(frames: seq<Frame>): Option<byte> {
    if frames == [] then None
    else
      var bs := Received(frames[|frames| - 1]);
      if bs != [] then Some(bs[0]) else LastCommand(frames[..|frames| - 1])
  }

  lemma {:induction false} ArmedByLastCommand(cfg: Config, frames: seq<Frame>)
    ensures After(cfg, frames).armed <==> LastCommand(frames) == Some(0x66)
  {
    hide Received, FallsAfterHeader, Stored, Addr;
    if frames != [] {
      ArmedByLastCommand(cfg, frames[..|frames| - 1]);
    }
  }

  /** A reset drops the open frame exactly when the command before it was Reset Enable. */
  lemma ResetTakesEffect(cfg: Config, r: Regs, frames: seq<Frame>)
    requires OpenRel(cfg, r, frames)
    ensures var bs := Received(frames[|frames| - 1]);
      r.phase == Idle <==>
        bs != [] && bs[0] == 0x99 && LastCommand(frames[..|frames| - 1]) == Some(0x66)
  {
    hide Received, FallsAfterHeader, AfterBytes, After, PointerRel, OutputRel, LastCommand, Rises, Partial, ByteOf;
    ArmedByLastCommand(cfg, frames[..|frames| - 1]);
  }

  // ----- the delay only moves the answer ----------------------------------------

  /** Everything but the prefetch counter is the same for every settling delay and identity. */
  lemma {:induction false} DelayOnlyShiftsAnswer(cfg: Config, other: Config, frames: seq<Frame>)
    ensures var c, d := After(cfg, frames), After(other, frames);
      && c.buffer == d.buffer && c.armed == d.armed
      && c.stats.written == d.stats.written && c.stats.counts == d.stats.counts
  {
    hide Received, FallsAfterHeader, Stored, Addr;
    if frames != [] {
      DelayOnlyShiftsAnswer(cfg, other, frames[..|frames| - 1]);
    }
  }

  // ----- the buffer ----------------------------------------------------------------

  function Cell(addr: nat, i: nat): nat {
    (addr + i) % SIZE
  }

  /** Within one turn round the buffer, distinct offsets are distinct cells. */
  lemma DistinctCells(addr: nat, i: nat, j: nat)
    requires i < SIZE && j < SIZE && (addr + i) % SIZE == (addr + j) % SIZE
    ensures i == j
  {
  }

  lemma {:induction false} StoredReadsBack(buffer: seq<byte>, addr: nat, data: seq<byte>, i: nat)
    requires |buffer| == SIZE && i < |data| <= SIZE
    ensures Stored(buffer, addr, data)[(addr + i) % SIZE] == data[i]
  {
    if i < |data| - 1 {
      StoredReadsBack(buffer, addr, data[..|data| - 1], i);
      if (addr + i) % SIZE == (addr + |data| - 1) % SIZE {
        DistinctCells(addr, i, |data| - 1);
      }
    }
  }

  lemma {:induction false} StoredLeavesTheRest(buffer: seq<byte>, addr: nat, data: seq<byte>, cell: nat)
    requires |buffer| == SIZE && cell < SIZE
    requires forall i :: 0 <= i < |data| ==> Cell(addr, i) != cell
    ensures Stored(buffer, addr, data)[cell] == buffer[cell]
  {
    if data != [] {
      StoredLeavesTheRest(buffer, addr, data[..|data| - 1], cell);
      assert Cell(addr, |data| - 1) != cell;
    }
  }

  // ----- waveforms -------------------------------------------------------------------

  const OPEN := Sample(false, false, false)
  const CLOSE := Sample(true, false, false)

  /** The master presents each bit with SCK low and then raises SCK. */
  function BitWave(bits: seq<bool>): seq<Sample> {
    if bits == [] then []
    else
      var b := bits[|bits| - 1];
      BitWave(bits[..|bits| - 1]) + [Sample(false, false, b), Sample(false, true, b)]
  }

  function FrameWave(bits: seq<bool>): seq<Sample> {
    [OPEN] + BitWave(bits) + [CLOSE]
  }

  /** The edges the chip sees of that wave: a fall between any two rises. */
  function EdgesOf(bits: seq<bool>): Frame {
    if bits == [] then []
    else EdgesOf(bits[..|bits| - 1]) + (if |bits| == 1 then [] else [Fall]) + [Rise(bits[|bits| - 1])]
  }

  predicate AtRest(trace: seq<Sample>) {
    Last(trace).cs && !Last(trace).sck
  }

  lemma {:induction false} WaveFrames(t: seq<Sample>, bits: seq<bool>)
    requires AtRest(t)
    ensures var w := t + [OPEN] + BitWave(bits);
      && Last(w) == (if bits == [] then OPEN else Sample(false, true, bits[|bits| - 1]))
      && Frames(w) == Frames(t) + [EdgesOf(bits)]
  {
    hide Frames, Last;
    if bits == [] {
      FramesSnoc(t, OPEN);
      assert t + [OPEN] + [] == t + [OPEN];
      assert Extend(Frames(t) + [[]], []) == Frames(t) + [[]];
    } else {
      var front, b := bits[..|bits| - 1], bits[|bits| - 1];
      WaveFrames(t, front);
      var w := t + [OPEN] + BitWave(front);
      FramesSnoc(w, Sample(false, false, b));
      FramesSnoc(w + [Sample(false, false, b)], Sample(false, true, b));
      WaveGrows(t, bits);
      EdgesGrow(Frames(t), bits);
      hide BitWave, EdgesOf, Extend;
    }
  }

  lemma WaveGrows(t: seq<Sample>, bits: seq<bool>)
    requires bits != []
    ensures var front, b := bits[..|bits| - 1], bits[|bits| - 1];
            t + [OPEN] + BitWave(front) + [Sample(false, false, b)] + [Sample(false, true, b)] ==
                t + [OPEN] + BitWave(bits)
  {
  }

  lemma EdgesGrow(frames: seq<Frame>, bits: seq<bool>)
    requires bits != []
    ensures var front, b := bits[..|bits| - 1], bits[|bits| - 1];
            var low := if front == [] then [] else [Fall];
            Extend(Extend(frames + [EdgesOf(front)], low), [Rise(b)]) == frames + [EdgesOf(bits)]
  {
  }

  lemma WholeFrame(t: seq<Sample>, bits: seq<bool>)
    requires AtRest(t)
    ensures Frames(t + FrameWave(bits)) == Frames(t) + [EdgesOf(bits)]
    ensures AtRest(t + FrameWave(bits))
  {
    hide Frames, Last;
    WaveFrames(t, bits);
    FramesSnoc(t + [OPEN] + BitWave(bits), CLOSE);
    assert t + [OPEN] + BitWave(bits) + [CLOSE] == t + FrameWave(bits);
  }

  lemma {:induction false} EdgesCarryBits(bits: seq<bool>)
    ensures Rises(EdgesOf(bits)) == bits
  {
    if bits != [] {
      EdgesCarryBits(bits[..|bits| - 1]);
      var e := EdgesOf(bits[..|bits| - 1]);
      FallStep(e);
      var f := if |bits| == 1 then e else e + [Fall];
      assert (f + [Rise(bits[|bits| - 1])])[..|f|] == f;
      assert EdgesOf(bits) == f + [Rise(bits[|bits| - 1])];
    }
  }

  /** On the master's wave, each data clock after the header brings one falling edge. */
  lemma {:induction false} FallsOnWave(bits: seq<bool>, h: nat)
    requires h == 32 || h == 40
    requires |bits| >= h && HeaderBits(Bytes(bits[..h])) == Some(h)
    ensures FallsAfterHeader(EdgesOf(bits)) == |bits| - h
  {
    hide Bytes, Rises, HeaderBits;
    var front := bits[..|bits| - 1];
    var e := EdgesOf(front);
    var f := if |bits| == 1 then e else e + [Fall];
    assert EdgesOf(bits) == f + [Rise(bits[|bits| - 1])];
    FallStep(e);
    RiseStep(f, bits[|bits| - 1]);
    EdgesCarryBits(front);
    if |bits| == h {
      assert bits[..h] == bits;
      HeaderIncomplete(bits, h);
      NotAnswering(e);
    } else {
      assert front[..h] == bits[..h];
      FallsOnWave(front, h);
      HeaderComplete(front, h);
    }
  }

  lemma NotAnswering(f: Frame)
    requires !Answering(Received(f))
    ensures FallsAfterHeader(f) == 0
  {
  }

  lemma HeaderIncomplete(bits: seq<bool>, h: nat)
    requires |bits| == h && (h == 32 || h == 40) && HeaderBits(Bytes(bits)) == Some(h)
    ensures !Answering(Bytes(bits[..h - 1]))
  {
    assert bits[..h - 1][0..8] == bits[0..8];
    assert Bytes(bits[..h - 1])[0] == Bytes(bits)[0];
  }

  lemma HeaderComplete(bits: seq<bool>, h: nat)
    requires h <= |bits| && (h == 32 || h == 40) && HeaderBits(Bytes(bits[..h])) == Some(h)
    ensures Answering(Bytes(bits)) && HeaderBits(Bytes(bits)) == Some(h)
  {
    assert bits[..h][0..8] == bits[0..8];
    assert Bytes(bits)[0] == Bytes(bits[..h])[0];
  }

  // ----- the round trip ------------------------------------------------------------------

  /** The level the master samples; it reads an undriven pin as zero. */
  function Sampled(cfg: Config, trace: seq<Sample>): bool {
    MisoAfter(cfg, trace).GetOr(false)
  }

  /** What a whole frame leaves behind. */
  lemma AfterWholeFrame(cfg: Config, t: seq<Sample>, bs: seq<byte>)
    requires AtRest(t)
    requires bs != [] && bs[0] == 0x02 && |bs| > 4
    ensures After(cfg, Frames(t + FrameWave(Serial(bs)))).buffer ==
        Stored(After(cfg, Frames(t)).buffer, Addr(bs), bs[4..])
  {
    hide Frames, Last, Serial, Bytes, Stored, Addr, EdgesOf, FallsAfterHeader;
    WholeFrame(t, Serial(bs));
    EdgesCarryBits(Serial(bs));
    BytesOfSerial(bs);
    var frames := Frames(t) + [EdgesOf(Serial(bs))];
    assert frames[..|frames| - 1] == Frames(t);
  }

  /** Bit j of the buffer's contents read serially from addr. */
  function StreamBit(buffer: seq<byte>, addr: nat, j: nat): bool
    requires |buffer| == SIZE
  {
    BitsOf(buffer[(addr + j / 8) % SIZE])[j % 8]
  }

  lemma StreamReadsBack(buffer: seq<byte>, addr: nat, data: seq<byte>, j: nat)
    requires |buffer| == SIZE && |data| <= SIZE && j < 8 * |data|
    ensures StreamBit(Stored(buffer, addr, data), addr, j) == Serial(data)[j]
  {
    hide Stored, Serial, BitsOf;
    StoredReadsBack(buffer, addr, data, j / 8);
    SerialBit(data, j);
  }

  lemma MisoOfFastRead(c: Chip, cfg: Config, bs: seq<byte>, m: nat)
    requires c.Valid() && Answering(bs) && bs[0] == 0x0B
    ensures Miso(c, cfg, bs, m + 1).GetOr(false) ==
      (m >= cfg.delay && StreamBit(c.buffer, Addr(bs), m - cfg.delay))
  {
    hide Addr, BitsOf;
  }

  /** The bit the master samples at data clock m of a Fast Read frame. */
  lemma FastReadSamples(cfg: Config, t: seq<Sample>, header: seq<byte>, clocks: seq<bool>)
    requires AtRest(t)
    requires |header| == 5 && header[0] == 0x0B && clocks != []
    ensures var m, buffer := |clocks| - 1, After(cfg, Frames(t)).buffer;
      Sampled(cfg, t + [OPEN] + BitWave(Serial(header) + clocks)) ==
        (m >= cfg.delay && StreamBit(buffer, Addr(header), m - cfg.delay))
  {
    hide Frames, Serial, Bytes, Addr, BitWave, Miso, StreamBit, Sampled;
    var bits := Serial(header) + clocks;
    HeaderOf(header, clocks);
    AnswerOnWave(cfg, t, bits, 40);
    MisoOfFastRead(After(cfg, Frames(t)), cfg, Bytes(bits), |clocks| - 1);
  }

  /** What is sampled behind the header of a wave is what the chip presents for that many falling edges. */
  lemma AnswerOnWave(cfg: Config, t: seq<Sample>, bits: seq<bool>, h: nat)
    requires AtRest(t) && (h == 32 || h == 40)
    requires |bits| >= h && HeaderBits(Bytes(bits[..h])) == Some(h)
    ensures Sampled(cfg, t + [OPEN] + BitWave(bits)) ==
      Miso(After(cfg, Frames(t)), cfg, Bytes(bits), |bits| - h).GetOr(false)
  {
    hide Frames, Bytes, EdgesOf, FallsAfterHeader, After, BitWave, Rises, Miso, HeaderBits;
    var w := t + [OPEN] + BitWave(bits);
    WaveFrames(t, bits);
    EdgesCarryBits(bits);
    FallsOnWave(bits, h);
    assert Frames(w)[..|Frames(w)| - 1] == Frames(t);
  }

  /** The first five bytes of the wave are the header, whatever is clocked after them. */
  lemma HeaderOf(header: seq<byte>, clocks: seq<bool>)
    requires |header| == 5 && header[0] == 0x0B
    ensures var bits := Serial(header) + clocks;
      && |bits| >= 40 && HeaderBits(Bytes(bits[..40])) == Some(40)
      && Answering(Bytes(bits)) && HeaderBits(Bytes(bits)) == Some(40)
      && Bytes(bits)[0] == 0x0B && Addr(Bytes(bits)) == Addr(header)
  {
    hide Serial;
    var bits := Serial(header) + clocks;
    assert bits[..40] == Serial(header);
    BytesOfSerial(header);
    forall i | 0 <= i < 5 ensures Bytes(bits)[i] == header[i] {
      assert bits[8 * i..8 * i + 8] == Serial(header)[8 * i..8 * i + 8];
      assert Bytes(Serial(header))[i] == ByteOf(Serial(header)[8 * i..8 * i + 8]);
    }
  }

  /**
   * After a Write frame, a Fast Read frame of an address equal modulo 8 MiB samples
   * `delay` zero bits and then exactly the bits of the data, in order.
   */
  lemma WriteThenFastRead(cfg: Config, t: seq<Sample>, write: seq<byte>, header: seq<byte>, clocks: seq<bool>)
    requires AtRest(t)
    requires |write| > 4 && write[0] == 0x02 && |write| - 4 <= SIZE
    requires |header| == 5 && header[0] == 0x0B && Addr(header) == Addr(write)
    requires 0 < |clocks| <= cfg.delay + 8 * (|write| - 4)
    ensures var m := |clocks| - 1;
      Sampled(cfg, t + FrameWave(Serial(write)) + [OPEN] + BitWave(Serial(header) + clocks)) ==
        (m >= cfg.delay && Serial(write[4..])[m - cfg.delay])
  {
    hide Frames, AtRest, Serial, Stored, Addr, After, BitWave, FrameWave, Sampled, StreamBit;
    var t1, m := t + FrameWave(Serial(write)), |clocks| - 1;
    AfterWholeFrame(cfg, t, write);
    WholeFrame(t, Serial(write));
    FastReadSamples(cfg, t1, header, clocks);
    if m >= cfg.delay {
      StreamReadsBack(After(cfg, Frames(t)).buffer, Addr(write), write[4..], m - cfg.delay);
    }
  }
}
