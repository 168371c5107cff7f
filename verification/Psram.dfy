/**
 * The pin-level PSRAM model: edge detection, shift registers and phases, proved
 * to refine the frame-level chip of PsramSpec after every tick of every trace.
 */
module PsramChip {
  import opened Bits
  import opened PsramSpec

  datatype Phase = Idle | Cmd | WriteAddr | WriteData | ReadAddr | ReadDummy | ReadData | IdAddr | IdData | SilentNop

  /** MOSI shift register. */
  datatype Input = Input(shift: byte, bits: nat)

  /** MISO shift register, settling countdown and pin driver. */
  datatype Output = Output(shift: byte, bits: nat, delay: nat, driving: bool, miso: bool)

  /** Address accumulator, and the index into the identity bytes. */
  datatype Pointer = Pointer(bytesSeen: nat, addr: nat, idIndex: nat)

  const U32: int := 0x1_0000_0000
  const NO_INPUT := Input(0, 0)
  const SILENT := Output(0, 0, 0, false, false)

  // ----- what the registers mean ------------------------------------------

  /** The phase a frame is in, given the bytes it has carried. */
  function PhaseOf(armed: bool, bs: seq<byte>): Phase {
    if bs == [] then Cmd
    else if bs[0] == CMD_WRITE then (if |bs| < 4 then WriteAddr else WriteData)
    else if bs[0] == CMD_FAST_READ then (if |bs| < 4 then ReadAddr else if |bs| == 4 then ReadDummy else ReadData)
    else if bs[0] == CMD_READ_ID then (if |bs| < 4 then IdAddr else IdData)
    else if bs[0] == CMD_RESET && armed then Idle
    else SilentNop
  }

  /** Bytes of a frame that were fetched or stored through the address so far. */
  function Advance(cfg: Config, bs: seq<byte>, falls: nat): nat {
    if bs != [] && bs[0] == CMD_WRITE then |Payload(bs)|
    else if Answering(bs) then 1 + Presented(cfg, falls) / 8
    else 0
  }

  predicate PointerRel(cfg: Config, p: Pointer, bs: seq<byte>, falls: nat) {
    && p.addr < U32
    && (bs != [] && bs[0] in {CMD_WRITE, CMD_FAST_READ} ==>
          if |bs| < 4 then p.bytesSeen == |bs| - 1 && p.addr == BigEndian(bs[1..])
          else p.addr % SIZE == (Addr(bs) + Advance(cfg, bs, falls)) % SIZE)
    && (bs != [] && bs[0] == CMD_READ_ID ==>
          p.idIndex == Advance(cfg, bs, falls) && (|bs| < 4 ==> p.bytesSeen == |bs| - 1))
  }

  predicate OutputRel(cfg: Config, o: Output, buffer: seq<byte>, bs: seq<byte>, falls: nat)
    requires |buffer| == SIZE
  {
    if Answering(bs) then
      var p := Presented(cfg, falls);
      && o.delay == (if falls < cfg.delay then cfg.delay - falls else 0)
      && o.driving == (falls >= cfg.delay)
      && o.miso == (p > 0 && Top(ShiftedOut(OutByte(buffer, cfg, bs, (p - 1) / 8), (p - 1) % 8)))
      && o.bits == 8 - p % 8
      && o.shift == ShiftedOut(OutByte(buffer, cfg, bs, p / 8), p % 8)
    else
      falls == 0 && o == SILENT
  }

  function BigEndian(bs: seq<byte>): nat {
    if bs == [] then 0 else BigEndian(bs[..|bs| - 1]) * 256 + bs[|bs| - 1]
  }

  lemma BigEndianOfThree(b0: byte, b1: byte, b2: byte)
    ensures BigEndian([b0]) == b0 as int
    ensures BigEndian([b0, b1]) == b0 as int * 256 + b1
    ensures BigEndian([b0, b1, b2]) == (b0 as int * 256 + b1) * 256 + b2
  {
    assert [b0][..0] == [] && [b0, b1][..1] == [b0] && [b0, b1, b2][..2] == [b0, b1];
  }

  /** The registers that carry the protocol, with the chip state they have built up. */
  datatype Regs = Regs(chip: Chip, phase: Phase, input: Input, output: Output, pointer: Pointer)

  /** The registers of a chip that was in state `base` and has since received `bs` in one frame. */
  predicate FrameRel(cfg: Config, r: Regs, base: Chip, bs: seq<byte>, falls: nat) {
    && base.Valid()
    && r.chip == AfterBytes(base, cfg, bs, falls)
    && r.phase == PhaseOf(base.armed, bs)
    && PointerRel(cfg, r.pointer, bs, falls)
    && OutputRel(cfg, r.output, base.buffer, bs, falls)
  }

  predicate OpenRel(cfg: Config, r: Regs, frames: seq<Frame>) {
    && frames != []
    && var f := frames[|frames| - 1];
    && FrameRel(cfg, r, After(cfg, frames[..|frames| - 1]), Received(f), FallsAfterHeader(f))
    && r.input == Input(ByteOf(Partial(Rises(f))), |Rises(f)| % 8)
  }

  predicate ClosedRel(cfg: Config, r: Regs, frames: seq<Frame>) {
    r.chip == After(cfg, frames) && r.phase == Idle && r.input == NO_INPUT && r.output == SILENT && r.pointer.addr < U32
  }

  class Psram {
    const pinCs: bv5
    const pinSck: bv5
    const pinMosi: bv5
    const cfg: Config

    const buffer: array<byte>
    var phase: Phase
    var input: Input
    var output: Output
    var pointer: Pointer
    var resetArmed: bool
    var latchedMosi: bool
    var prevSck: bool
    var prevCs: bool
    var stats: Stats
    var tickCount: nat
    var csFallingCount: nat

    /** Every input sample seen so far, and the frames it has been cut into. */
    ghost var trace: seq<Sample>
    ghost var frames: seq<Frame>

    ghost function Now(): Regs
      reads this`resetArmed, this`stats, this`phase, this`input, this`output, this`pointer, buffer
    {
      Regs(Chip(buffer[..], resetArmed, stats), phase, input, output, pointer)
    }

    /** The refinement: the object is where the frame-level chip is after the whole trace. */
    ghost predicate Valid()
      reads this, buffer
    {
      && frames == Frames(trace)
      && prevCs == Last(trace).cs && prevSck == Last(trace).sck
      && tickCount == |trace| && csFallingCount == |frames|
      && if prevCs then ClosedRel(cfg, Now(), frames) else OpenRel(cfg, Now(), frames)
    }

    constructor (pinCs: bv5, pinSck: bv5, pinMosi: bv5, cfg: Config)
      ensures Valid() && trace == [] && fresh(buffer)
      ensures this.cfg == cfg && this.pinCs == pinCs && this.pinSck == pinSck && this.pinMosi == pinMosi
    {
      this.pinCs, this.pinSck, this.pinMosi, this.cfg := pinCs, pinSck, pinMosi, cfg;
      buffer := new byte[SIZE](_ => 0);
      phase, input, output, pointer := Idle, NO_INPUT, SILENT, Pointer(0, 0, 0);
      resetArmed, latchedMosi, prevSck, prevCs := false, false, false, true;
      stats := Stats(0, 0, Counts(0, 0, 0, 0, 0, 0));
      tickCount, csFallingCount := 0, 0;
      trace, frames := [], [];
      new;
      assert buffer[..] == Fresh().buffer;
    }

    /** Observe the pins; the result is what the chip drives on MISO. */
    method Tick(pins: bv32) returns (miso: Option<bool>)
      requires Valid()
      modifies this, buffer
      ensures Valid()
      ensures trace == old(trace) + [SampleOf(pins, pinCs, pinSck, pinMosi)]
      ensures miso == MisoAfter(cfg, trace)
    {
      hide Level, ClosedRel, OpenRel, Now, Last, MisoAfter, Frames, Extend;
      tickCount := tickCount + 1;
      var cs, sck, mosi := Level(pins, pinCs), Level(pins, pinSck), Level(pins, pinMosi);
      ghost var now := Sample(cs, sck, mosi);
      FramesSnoc(trace, now);
      // CS edges come before clock edges, so a rise of both ends the frame.
      if cs && !prevCs {
        EndFrame();
      }
      if !cs && prevCs {
        csFallingCount := csFallingCount + 1;
        BeginFrame();
      }
      assert csFallingCount == |frames| && (cs ==> ClosedRel(cfg, Now(), frames) && frames == Frames(trace));
      if !cs {
        OnClock(sck, mosi);
      }
      prevCs, prevSck := cs, sck;
      trace := trace + [now];
      miso := if output.driving then Some(output.miso) else None;
      DrivesMiso();
    }

    lemma DrivesMiso()
      requires Valid()
      ensures (if output.driving then Some(output.miso) else None) == MisoAfter(cfg, trace)
    {
      hide Frames, After, AfterBytes, PhaseOf, PointerRel, Received, FallsAfterHeader, Rises, Partial, ByteOf, OutByte;
    }

    method OnClock(sck: bool, mosi: bool)
      requires OpenRel(cfg, Now(), frames)
      modifies this`phase, this`input, this`output, this`pointer, this`resetArmed, this`latchedMosi, this`stats
      modifies this`frames, buffer
      ensures OpenRel(cfg, Now(), frames)
      ensures frames == Extend(old(frames), EdgeOf(Sample(false, prevSck, mosi), Sample(false, sck, mosi)))
    {
      hide OpenRel, Extend;
      OpenHasFrame(cfg, Now(), frames);
      if sck && !prevSck {
        latchedMosi := mosi;
        OnSckRising();
      } else if !sck && prevSck {
        OnSckFalling();
      } else {
        ExtendByNothing(frames);
      }
    }

    method BeginFrame()
      requires ClosedRel(cfg, Now(), frames)
      modifies this`phase, this`input, this`output, this`pointer, this`frames
      ensures frames == old(frames) + [[]] && OpenRel(cfg, Now(), frames)
    {
      hide Stored, OutByte, ShiftedOut;
      phase, input, output, pointer := Cmd, NO_INPUT, SILENT, Pointer(0, 0, 0);
      frames := frames + [[]];
      assert frames[..|frames| - 1] == old(frames);
    }

    method EndFrame()
      requires OpenRel(cfg, Now(), frames)
      modifies this`phase, this`input, this`output, this`pointer
      ensures ClosedRel(cfg, Now(), frames)
    {
      hide AfterBytes, PhaseOf, OutputRel, Received, FallsAfterHeader, Rises, Partial, ByteOf;
      phase, input, output, pointer := Idle, NO_INPUT, SILENT, pointer.(idIndex := 0);
    }

    method OnSckRising()
      requires OpenRel(cfg, Now(), frames)
      modifies this`phase, this`input, this`output, this`pointer, this`resetArmed, this`latchedMosi, this`stats
      modifies this`frames, buffer
      ensures OpenRel(cfg, Now(), frames)
      ensures frames == Extend(old(frames), [Rise(old(latchedMosi))])
    {
      hide AfterBytes, PhaseOf, OutputRel, PointerRel, After, Received, FallsAfterHeader, Rises, Partial, ByteOf,
           ShiftIn;
      ghost var f := frames[|frames| - 1];
      ghost var base := After(cfg, frames[..|frames| - 1]);
      RiseStep(f, latchedMosi);
      frames := Extend(frames, [Rise(latchedMosi)]);
      assert frames[..|frames| - 1] == old(frames)[..|frames| - 1];
      input := Input(ShiftIn(input.shift, latchedMosi), input.bits + 1);
      if input.bits == 8 {
        var b := input.shift;
        input := NO_INPUT;
        ConsumeByte(b, base, Received(f), FallsAfterHeader(f));
      }
    }

    method OnSckFalling()
      requires OpenRel(cfg, Now(), frames)
      modifies this`output, this`pointer, this`stats, this`frames
      ensures OpenRel(cfg, Now(), frames)
      ensures frames == Extend(old(frames), [Fall])
    {
      hide AfterBytes, PhaseOf, OutputRel, PointerRel, After, Received, FallsAfterHeader, Rises, Partial, Answering;
      ghost var f := frames[|frames| - 1];
      ghost var base := After(cfg, frames[..|frames| - 1]);
      FallStep(f);
      frames := Extend(frames, [Fall]);
      assert frames[..|frames| - 1] == old(frames)[..|frames| - 1];
      PresentBit(base, Received(f), FallsAfterHeader(f));
    }

    /** One falling edge: count down the settling delay, or put the next bit on MISO. */
    method PresentBit(ghost base: Chip, ghost bs: seq<byte>, ghost falls: nat)
      requires FrameRel(cfg, Now(), base, bs, falls)
      modifies this`output, this`pointer, this`stats
      ensures FrameRel(cfg, Now(), base, bs, if Answering(bs) then falls + 1 else falls)
    {
      hide Stored, Addr, ShiftedOut, Payload, BigEndian, PhaseOf, AfterBytes, PointerRel, OutByte, Advance;
      if Answering(bs) {
        FallTallied(base, cfg, bs, falls);
        AddressAfterFall(cfg, pointer, base.buffer, bs, falls);
      }
      ghost var p := Presented(cfg, falls);
      if output.delay > 0 {
        output := output.(delay := output.delay - 1);
        if output.delay == 0 {
          output := output.(driving := true, miso := false);
        }
        return;
      }
      if output.bits > 0 {
        ShiftedOutStep(OutByte(base.buffer, cfg, bs, p / 8), p % 8);
        output := output.(miso := Top(output.shift), shift := ShiftIn(output.shift, false), bits := output.bits - 1);
        if output.bits == 0 {
          AnsweringPhase(base.armed, bs);
          ShiftedOutStep(OutByte(base.buffer, cfg, bs, p / 8 + 1), 0);
          if phase == IdData {
            AdvanceIdByte();
          } else {
            AdvanceReadByte();
          }
        }
      }
    }

    method ConsumeByte(b: byte, ghost base: Chip, ghost bs: seq<byte>, ghost falls: nat)
      requires FrameRel(cfg, Now(), base, bs, falls) && input == NO_INPUT
      modifies this`phase, this`input, this`output, this`pointer, this`resetArmed, this`latchedMosi, this`stats, buffer
      ensures FrameRel(cfg, Now(), base, bs + [b], falls) && input == NO_INPUT
    {
      hide AfterBytes, OutputRel, PointerRel;
      assert bs == [] ==> bs + [b] == [b];
      match phase
      case Cmd => HandleCommand(b, base, falls);
      case WriteAddr => HandleAddrByte(b, false, base, bs, falls);
      case WriteData => StoreByte(b, base, bs, falls);
      case ReadAddr => HandleAddrByte(b, true, base, bs, falls);
      case ReadDummy => StartReading(b, base, bs, falls);
      case IdAddr => CountIdAddrByte(b, base, bs, falls);
      case ReadData | IdData | Idle | SilentNop =>
        IgnoredByte(cfg, Now(), base, bs, b, falls);
    }

    method HandleCommand(b: byte, ghost base: Chip, ghost falls: nat)
      requires FrameRel(cfg, Now(), base, [], falls) && input == NO_INPUT
      modifies this`phase, this`input, this`output, this`pointer, this`resetArmed, this`latchedMosi, this`stats
      ensures FrameRel(cfg, Now(), base, [b], falls) && input == NO_INPUT
    {
      hide Stored, Addr;
      if b == CMD_RESET_ENABLE {
        stats := stats.(counts := stats.counts.(resetEnable := stats.counts.resetEnable + 1));
        resetArmed := true;
        phase := SilentNop;
      } else if b == CMD_RESET {
        stats := stats.(counts := stats.counts.(reset := stats.counts.reset + 1));
        if resetArmed {
          ResetState();
        } else {
          phase := SilentNop;
        }
      } else if b == CMD_WRITE {
        stats := stats.(counts := stats.counts.(write := stats.counts.write + 1));
        resetArmed, phase, pointer := false, WriteAddr, pointer.(bytesSeen := 0, addr := 0);
      } else if b == CMD_FAST_READ {
        stats := stats.(counts := stats.counts.(fastRead := stats.counts.fastRead + 1));
        resetArmed, phase, pointer := false, ReadAddr, pointer.(bytesSeen := 0, addr := 0);
      } else if b == CMD_READ_ID {
        stats := stats.(counts := stats.counts.(readId := stats.counts.readId + 1));
        resetArmed, phase, pointer := false, IdAddr, pointer.(bytesSeen := 0, idIndex := 0);
      } else {
        stats := stats.(counts := stats.counts.(unknown := stats.counts.unknown + 1));
        resetArmed, phase := false, SilentNop;
      }
    }

    method HandleAddrByte(b: byte, isRead: bool, ghost base: Chip, ghost bs: seq<byte>, ghost falls: nat)
      requires FrameRel(cfg, Now(), base, bs, falls)
      requires phase == if isRead then ReadAddr else WriteAddr
      modifies this`phase, this`pointer
      ensures FrameRel(cfg, Now(), base, bs + [b], falls)
    {
      hide AfterBytes, Presented, BigEndian, Addr;
      NextByte(cfg, Now(), base, bs, b, falls);
      AddressByte(bs, b);
      pointer := pointer.(addr := (pointer.addr * 256 + b) % U32, bytesSeen := pointer.bytesSeen + 1);
      if pointer.bytesSeen == 3 {
        pointer := pointer.(addr := pointer.addr % SIZE);
        phase := if isRead then ReadDummy else WriteData;
      }
    }

    method StoreByte(b: byte, ghost base: Chip, ghost bs: seq<byte>, ghost falls: nat)
      requires FrameRel(cfg, Now(), base, bs, falls) && phase == WriteData
      modifies this`pointer, this`stats, buffer
      ensures FrameRel(cfg, Now(), base, bs + [b], falls)
    {
      hide AfterBytes, Addr;
      NextByte(cfg, Now(), base, bs, b, falls);
      WrapStep(pointer.addr, Addr(bs) + Advance(cfg, bs, falls));
      buffer[pointer.addr % SIZE] := b;
      pointer := pointer.(addr := (pointer.addr + 1) % U32);
      stats := stats.(written := stats.written + 1);
    }

    method StartReading(b: byte, ghost base: Chip, ghost bs: seq<byte>, ghost falls: nat)
      requires FrameRel(cfg, Now(), base, bs, falls) && phase == ReadDummy
      modifies this`phase, this`output, this`pointer, this`stats
      ensures FrameRel(cfg, Now(), base, bs + [b], falls)
    {
      hide AfterBytes, Addr;
      NextByte(cfg, Now(), base, bs, b, falls);
      WrapStep(pointer.addr, Addr(bs) + Advance(cfg, bs, falls));
      phase := ReadData;
      output := output.(delay := cfg.delay, driving := cfg.delay == 0);
      AdvanceReadByte();
    }

    method CountIdAddrByte(b: byte, ghost base: Chip, ghost bs: seq<byte>, ghost falls: nat)
      requires FrameRel(cfg, Now(), base, bs, falls) && phase == IdAddr
      modifies this`phase, this`output, this`pointer, this`stats
      ensures FrameRel(cfg, Now(), base, bs + [b], falls)
    {
      hide AfterBytes, Addr;
      NextByte(cfg, Now(), base, bs, b, falls);
      pointer := pointer.(bytesSeen := pointer.bytesSeen + 1);
      if pointer.bytesSeen == 3 {
        phase := IdData;
        output := output.(delay := cfg.delay, driving := cfg.delay == 0);
        AdvanceIdByte();
      }
    }

    /** Mirrors the 0x66 + 0x99 handshake: everything but the buffer and the edge detectors. */
    method ResetState()
      modifies this`phase, this`input, this`output, this`pointer, this`resetArmed, this`latchedMosi
      ensures phase == Idle && input == NO_INPUT && output == SILENT && pointer == Pointer(0, 0, 0) && !resetArmed
    {
      phase, input, output, pointer := Idle, NO_INPUT, SILENT, Pointer(0, 0, 0);
      resetArmed, latchedMosi := false, false;
    }

    method AdvanceIdByte()
      modifies this`output, this`pointer, this`stats
      ensures var id := old(pointer.idIndex);
              output == old(output).(shift := if id < |cfg.identity| then cfg.identity[id] else 0, bits := 8)
      ensures pointer == old(pointer).(idIndex := old(pointer.idIndex) + 1)
      ensures stats == old(stats).(read := old(stats.read) + 1)
    {
      var next := if pointer.idIndex < |cfg.identity| then cfg.identity[pointer.idIndex] else 0;
      output := output.(shift := next, bits := 8);
      pointer := pointer.(idIndex := pointer.idIndex + 1);
      stats := stats.(read := stats.read + 1);
    }

    method AdvanceReadByte()
      requires buffer.Length == SIZE
      modifies this`output, this`pointer, this`stats
      ensures output == old(output).(shift := buffer[old(pointer.addr) % SIZE], bits := 8)
      ensures pointer == old(pointer).(addr := (old(pointer.addr) + 1) % U32)
      ensures stats == old(stats).(read := old(stats.read) + 1)
    {
      output := output.(shift := buffer[pointer.addr % SIZE], bits := 8);
      pointer := pointer.(addr := (pointer.addr + 1) % U32);
      stats := stats.(read := stats.read + 1);
    }
  }

  // ----- one edge more --------------------------------------------------------

  lemma FallStep(f: Frame)
    ensures Rises(f + [Fall]) == Rises(f) && Received(f + [Fall]) == Received(f)
    ensures FallsAfterHeader(f + [Fall]) == FallsAfterHeader(f) + if Answering(Received(f)) then 1 else 0
  {
    assert (f + [Fall])[..|f|] == f;
  }

  lemma RiseStep(f: Frame, mosi: bool)
    ensures var g, shifted := f + [Rise(mosi)], ShiftIn(ByteOf(Partial(Rises(f))), mosi);
      && |Rises(g)| == |Rises(f)| + 1
      && FallsAfterHeader(g) == FallsAfterHeader(f)
      && if |Rises(f)| % 8 == 7 then Received(g) == Received(f) + [shifted] && ByteOf(Partial(Rises(g))) == 0
         else Received(g) == Received(f) && ByteOf(Partial(Rises(g))) == shifted
  {
    var g, pending := f + [Rise(mosi)], Partial(Rises(f)) + [mosi];
    assert g[..|f|] == f;
    assert pending[..|pending| - 1] == Partial(Rises(f));
    BytesSnoc(Rises(f), mosi);
  }

  lemma OpenHasFrame(cfg: Config, r: Regs, frames: seq<Frame>)
    requires OpenRel(cfg, r, frames)
    ensures frames != []
  {
  }

  lemma ExtendByNothing(frames: seq<Frame>)
    requires frames != []
    ensures Extend(frames, []) == frames
  {
    assert frames[|frames| - 1] + [] == frames[|frames| - 1];
  }

  lemma ShiftedOutStep(b: byte, n: nat)
    ensures ShiftedOut(b, 0) == b && ShiftedOut(b, n + 1) == ShiftIn(ShiftedOut(b, n), false)
  {
  }

  /** What one more falling edge adds to the frame-level chip. */
  lemma FallTallied(base: Chip, cfg: Config, bs: seq<byte>, falls: nat)
    requires base.Valid() && Answering(bs)
    ensures var c, p := AfterBytes(base, cfg, bs, falls), Presented(cfg, falls);
      && c.buffer == base.buffer
      && AfterBytes(base, cfg, bs, falls + 1) ==
           if falls >= cfg.delay && p % 8 == 7 then c.(stats := c.stats.(read := c.stats.read + 1)) else c
  {
  }

  /** The pointer already designates the next byte to fetch. */
  lemma AddressAfterFall(cfg: Config, p: Pointer, buffer: seq<byte>, bs: seq<byte>, falls: nat)
    requires |buffer| == SIZE && Answering(bs) && PointerRel(cfg, p, bs, falls)
    ensures falls < cfg.delay || Presented(cfg, falls) % 8 < 7 ==> PointerRel(cfg, p, bs, falls + 1)
    ensures falls >= cfg.delay && Presented(cfg, falls) % 8 == 7 ==>
      var next := OutByte(buffer, cfg, bs, Presented(cfg, falls + 1) / 8);
      if bs[0] == CMD_READ_ID then
        && next == (if p.idIndex < |cfg.identity| then cfg.identity[p.idIndex] else 0)
        && PointerRel(cfg, p.(idIndex := p.idIndex + 1), bs, falls + 1)
      else
        && next == buffer[p.addr % SIZE]
        && PointerRel(cfg, p.(addr := (p.addr + 1) % U32), bs, falls + 1)
  {
    hide Addr, BigEndian, Payload;
    if bs[0] == CMD_FAST_READ {
      WrapStep(p.addr, Addr(bs) + Advance(cfg, bs, falls));
    }
  }

  /** Counting on modulo 2^32 stays right modulo the buffer size. */
  lemma WrapStep(addr: nat, n: nat)
    requires addr < U32 && addr % SIZE == n % SIZE
    ensures (addr + 1) % U32 % SIZE == (n + 1) % SIZE
  {
  }

  // ----- one byte more ----------------------------------------------------------

  /** What a byte after the command adds to the frame-level chip. */
  lemma NextByte(cfg: Config, r: Regs, base: Chip, bs: seq<byte>, b: byte, falls: nat)
    requires FrameRel(cfg, r, base, bs, falls) && bs != []
    ensures var c := r.chip;
      AfterBytes(base, cfg, bs + [b], falls) ==
        if bs[0] == CMD_WRITE && |bs| >= 4 then
          c.(buffer := c.buffer[(Addr(bs) + |bs| - 4) % SIZE := b], stats := c.stats.(written := c.stats.written + 1))
        else if Answering(bs + [b]) && !Answering(bs) then c.(stats := c.stats.(read := c.stats.read + 1))
        else c
    ensures bs[0] != CMD_WRITE ==> r.chip.buffer == base.buffer
    ensures |bs| >= 4 ==> Addr(bs + [b]) == Addr(bs) && Payload(bs + [b]) == Payload(bs) + [b]
  {
    hide PointerRel, OutputRel, PhaseOf, Addr, Stored;
    if |bs| >= 4 {
      AddressSnoc(bs, b);
      assert Payload(bs + [b]) == Payload(bs) + [b];
      StoredNothing(base.buffer, Addr(bs));
      StoredSnoc(base.buffer, Addr(bs), Payload(bs), b);
    }
    assert Answering(bs) || falls == 0 by { FallsOnlyWhenAnswering(cfg, r, base, bs, falls); }
  }

  lemma FallsOnlyWhenAnswering(cfg: Config, r: Regs, base: Chip, bs: seq<byte>, falls: nat)
    requires FrameRel(cfg, r, base, bs, falls)
    ensures Answering(bs) || falls == 0
  {
  }

  lemma StoredSnoc(buffer: seq<byte>, addr: nat, data: seq<byte>, b: byte)
    requires |buffer| == SIZE
    ensures Stored(buffer, addr, data + [b]) == Stored(buffer, addr, data)[(addr + |data|) % SIZE := b]
  {
    StoredLast(buffer, addr, data + [b]);
    assert (data + [b])[..|data|] == data;
    hide Stored;
  }

  lemma StoredNothing(buffer: seq<byte>, addr: nat)
    requires |buffer| == SIZE
    ensures Stored(buffer, addr, []) == buffer
  {
  }

  lemma StoredLast(buffer: seq<byte>, addr: nat, data: seq<byte>)
    requires |buffer| == SIZE && data != []
    ensures Stored(buffer, addr, data) ==
      Stored(buffer, addr, data[..|data| - 1])[(addr + (|data| - 1)) % SIZE := data[|data| - 1]]
  {
  }

  lemma AddressSnoc(bs: seq<byte>, b: byte)
    requires |bs| >= 4
    ensures Addr(bs + [b]) == Addr(bs)
  {
  }

  lemma AddressByte(bs: seq<byte>, b: byte)
    requires 1 <= |bs| <= 3
    ensures BigEndian((bs + [b])[1..]) == BigEndian(bs[1..]) * 256 + b < U32
    ensures |bs| == 3 ==> BigEndian((bs + [b])[1..]) % SIZE == Addr(bs + [b])
  {
    assert (bs + [b])[1..][..|bs| - 1] == bs[1..];
    if |bs| == 3 {
      BigEndianOfThree(bs[1], bs[2], b);
      assert (bs + [b])[1..] == [bs[1], bs[2], b];
    } else if |bs| == 2 {
      BigEndianOfThree(bs[1], b, 0);
      assert (bs + [b])[1..] == [bs[1], b];
    } else {
      BigEndianOfThree(b, 0, 0);
      assert (bs + [b])[1..] == [b];
    }
  }

  /** Phases that take no notice of further bytes. */
  lemma IgnoredByte(cfg: Config, r: Regs, base: Chip, bs: seq<byte>, b: byte, falls: nat)
    requires FrameRel(cfg, r, base, bs, falls)
    requires r.phase in {ReadData, IdData, Idle, SilentNop}
    ensures FrameRel(cfg, r, base, bs + [b], falls)
  {
    hide AfterBytes, Addr;
    NextByte(cfg, r, base, bs, b, falls);
  }

  lemma AnsweringPhase(armed: bool, bs: seq<byte>)
    requires Answering(bs)
    ensures PhaseOf(armed, bs) == if bs[0] == CMD_READ_ID then IdData else ReadData
  {
  }
}
