/**
 * The APS6404L seen one level above its pins: chip-select frames of bytes over
 * an 8 MiB buffer. Nothing here knows about shift registers or phases.
 */
module PsramSpec {
  import opened Bits

  const SIZE: nat := 0x80_0000

  const CMD_RESET_ENABLE: byte := 0x66
  const CMD_RESET: byte := 0x99
  const CMD_WRITE: byte := 0x02
  const CMD_FAST_READ: byte := 0x0B
  const CMD_READ_ID: byte := 0x9F

  // ----- cutting a pin trace into frames ---------------------------------

  /** The three input levels of one tick. */
  datatype Sample = Sample(cs: bool, sck: bool, mosi: bool)

  /** What one pin word shows of them. */
  function SampleOf(pins: bv32, pinCs: bv5, pinSck: bv5, pinMosi: bv5): Sample {
    Sample(Level(pins, pinCs), Level(pins, pinSck), Level(pins, pinMosi))
  }

  /** What the clock did inside a frame; a rise carries the MOSI level. */
  datatype Edge = Rise(mosi: bool) | Fall

  type Frame = seq<Edge>

  const IDLE := Sample(true, false, false)

  function Last(trace: seq<Sample>): Sample {
    if trace == [] then IDLE else trace[|trace| - 1]
  }

  /** The clock edge, if any, that a tick with CS low shows. */
  function EdgeOf(prev: Sample, now: Sample): seq<Edge> {
    if now.sck && !prev.sck then [Rise(now.mosi)]
    else if !now.sck && prev.sck then [Fall]
    else []
  }

  /** Every frame begun so far, oldest first; the last one is open while CS is low. */
  function Frames(trace: seq<Sample>): (frames: seq<Frame>)
    ensures !Last(trace).cs ==> frames != []
  {
    if trace == [] then []
    else
      var front, now := trace[..|trace| - 1], trace[|trace| - 1];
      var prev, earlier := Last(front), Frames(front);
      if now.cs then earlier
      else
        var begun := if prev.cs then earlier + [[]] else earlier;
        Extend(begun, EdgeOf(prev, now))
  }

  lemma FramesSnoc(trace: seq<Sample>, now: Sample)
    ensures Last(trace + [now]) == now
    ensures Frames(trace + [now]) ==
      if now.cs then Frames(trace)
      else Extend(if Last(trace).cs then Frames(trace) + [[]] else Frames(trace), EdgeOf(Last(trace), now))
  {
    assert (trace + [now])[..|trace|] == trace;
  }

  function Extend(frames: seq<Frame>, edges: seq<Edge>): (r: seq<Frame>)
    requires frames != []
    ensures |r| == |frames| && r[..|r| - 1] == frames[..|frames| - 1]
  {
    frames[|frames| - 1 := frames[|frames| - 1] + edges]
  }

  /** The MOSI bits of a frame: one for each rise. */
  function Rises(f: Frame): seq<bool> {
    if f == [] then []
    else
      var rest := Rises(f[..|f| - 1]);
      match f[|f| - 1]
      case Rise(b) => rest + [b]
      case Fall => rest
  }

  function Received(f: Frame): seq<byte> {
    Bytes(Rises(f))
  }

  // ----- what a frame of bytes does ---------------------------------------

  datatype Counts = Counts(write: nat, fastRead: nat, resetEnable: nat, reset: nat, readId: nat, unknown: nat)

  function Tally(c: Counts, cmd: byte): Counts {
    if cmd == CMD_RESET_ENABLE then c.(resetEnable := c.resetEnable + 1)
    else if cmd == CMD_RESET then c.(reset := c.reset + 1)
    else if cmd == CMD_WRITE then c.(write := c.write + 1)
    else if cmd == CMD_FAST_READ then c.(fastRead := c.fastRead + 1)
    else if cmd == CMD_READ_ID then c.(readId := c.readId + 1)
    else c.(unknown := c.unknown + 1)
  }

  datatype Stats = Stats(written: nat, read: nat, counts: Counts)

  datatype Chip = Chip(buffer: seq<byte>, armed: bool, stats: Stats)
  {
    predicate Valid() { |buffer| == SIZE }
  }

  /** Build-time configuration: the output-settling delay and the ID bytes. */
  datatype Config = Config(delay: nat, identity: seq<byte>)

  /** The three big-endian address bytes after the command, wrapped at 8 MiB. */
  function Addr(bs: seq<byte>): (a: nat)
    requires |bs| >= 4
    ensures a < SIZE
  {
    ((bs[1] * 256 + bs[2]) * 256 + bs[3]) % SIZE
  }

  /** The buffer after writing data from addr upwards, wrapping at the end. */
  function Stored(buffer: seq<byte>, addr: nat, data: seq<byte>): (r: seq<byte>)
    requires |buffer| == SIZE
    ensures |r| == SIZE
  {
    if data == [] then buffer
    else Stored(buffer, addr, data[..|data| - 1])[(addr + |data| - 1) % SIZE := data[|data| - 1]]
  }

  function Payload(bs: seq<byte>): seq<byte> {
    if |bs| <= 4 then [] else bs[4..]
  }

  /** How many bits the master must clock in before data flows out. */
  function HeaderBits(bs: seq<byte>): Option<nat> {
    if bs == [] then None
    else if bs[0] == CMD_FAST_READ then Some(40)
    else if bs[0] == CMD_READ_ID then Some(32)
    else None
  }

  predicate Answering(bs: seq<byte>) {
    HeaderBits(bs).Some? && 8 * |bs| >= HeaderBits(bs).value
  }

  /** The i-th byte an answering frame puts out. */
  function OutByte(buffer: seq<byte>, cfg: Config, bs: seq<byte>, i: nat): byte
    requires Answering(bs) && |buffer| == SIZE
  {
    if bs[0] == CMD_FAST_READ then buffer[(Addr(bs) + i) % SIZE]
    else if i < |cfg.identity| then cfg.identity[i]
    else 0
  }

  /** Falling edges since the header was complete. */
  function FallsAfterHeader(f: Frame): nat {
    if f == [] || !Answering(Received(f)) then 0
    else FallsAfterHeader(f[..|f| - 1]) + if f[|f| - 1].Fall? then 1 else 0
  }

  /** Data bits already presented: the first `delay` falling edges present none. */
  function Presented(cfg: Config, falls: nat): nat {
    if falls > cfg.delay then falls - cfg.delay else 0
  }

  function AfterFrame(c: Chip, cfg: Config, f: Frame): (r: Chip)
    requires c.Valid()
    ensures r.Valid()
  {
    AfterBytes(c, cfg, Received(f), FallsAfterHeader(f))
  }

  /** Bytes in, and falling edges once the header is in, are all that matters. */
  function AfterBytes(c: Chip, cfg: Config, bs: seq<byte>, falls: nat): (r: Chip)
    requires c.Valid()
    ensures r.Valid()
  {
    if bs == [] then c
    else
      Chip(
        if bs[0] == CMD_WRITE && |bs| > 4 then Stored(c.buffer, Addr(bs), Payload(bs)) else c.buffer,
        bs[0] == CMD_RESET_ENABLE,
        Stats(c.stats.written + if bs[0] == CMD_WRITE then |Payload(bs)| else 0,
              c.stats.read + if Answering(bs) then 1 + Presented(cfg, falls) / 8 else 0,
              Tally(c.stats.counts, bs[0])))
  }

  function Fresh(): (c: Chip)
    ensures c.Valid()
  {
    Chip(seq(SIZE, _ => 0), false, Stats(0, 0, Counts(0, 0, 0, 0, 0, 0)))
  }

  function After(cfg: Config, frames: seq<Frame>): (c: Chip)
    ensures c.Valid()
  {
    if frames == [] then Fresh()
    else AfterFrame(After(cfg, frames[..|frames| - 1]), cfg, frames[|frames| - 1])
  }

  /** The level driven on MISO, or None while the chip leaves the pin alone. */
  function Miso(c: Chip, cfg: Config, bs: seq<byte>, falls: nat): Option<bool>
    requires c.Valid()
  {
    if !Answering(bs) || falls < cfg.delay then None
    else if falls == cfg.delay then Some(false)
    else
      var j := falls - cfg.delay - 1;
      Some(BitsOf(OutByte(c.buffer, cfg, bs, j / 8))[j % 8])
  }

  /** What the pin shows after a whole trace. */
  function MisoAfter(cfg: Config, trace: seq<Sample>): Option<bool> {
    if Last(trace).cs then None
    else
      var frames := Frames(trace);
      var f := frames[|frames| - 1];
      Miso(After(cfg, frames[..|frames| - 1]), cfg, Received(f), FallsAfterHeader(f))
  }
}
