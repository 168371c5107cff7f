/** What the master sends and samples, byte for byte: addresses, a write and its read-back, and Read ID. */
module PsramAnswers {
  import opened Bits
  import opened PsramSpec
  import opened PsramTheorems

  /** A command and its address, the most significant byte first. */
  function Addressed(command: byte, addr: nat): (bs: seq<byte>)
    requires addr < 0x100_0000
    ensures |bs| == 4 && Addr(bs) == addr % 0x80_0000
  {
    assert addr / 256 == addr / 65536 * 256 + addr / 256 % 256;
    [command, addr / 65536, addr / 256 % 256, addr % 256]
  }

  /**
   * Whatever 24-bit addresses are used, data written at one and read at the other, equal but for the
   * top bit, comes back bit by bit behind the settling delay: command 0x02, then 0x0B and a wait byte.
   */
  lemma WrittenIsRead(cfg: Config, t: seq<Sample>, to: nat, from: nat, data: seq<byte>, wait: byte, clocks: seq<bool>)
    requires AtRest(t) && to < 0x100_0000 && from < 0x100_0000 && to % 0x80_0000 == from % 0x80_0000
    requires 0 < |data| <= SIZE && 0 < |clocks| <= cfg.delay + 8 * |data|
    ensures var write, header := Addressed(0x02, to) + data, Addressed(0x0B, from) + [wait];
            var m := |clocks| - 1;
            Sampled(cfg, t + FrameWave(Serial(write)) + [OPEN] + BitWave(Serial(header) + clocks)) ==
              (m >= cfg.delay && Serial(data)[m - cfg.delay])
  {
    hide Serial, FrameWave, BitWave, Sampled, AtRest, Addressed;
    var write, header := Addressed(0x02, to) + data, Addressed(0x0B, from) + [wait];
    SameAddress(Addressed(0x02, to), data);
    SameAddress(Addressed(0x0B, from), [wait]);
    Opens(to, 0x02);
    Opens(from, 0x0B);
    assert write[4..] == data;
    WriteThenFastRead(cfg, t, write, header, clocks);
  }

  lemma Opens(addr: nat, command: byte)
    requires addr < 0x100_0000
    ensures Addressed(command, addr)[0] == command
  {
  }

  lemma SameAddress(front: seq<byte>, rest: seq<byte>)
    requires |front| == 4
    ensures Addr(front + rest) == Addr(front)
  {
  }

  /** The identity, and zeros behind it. */
  function IdentityByte(cfg: Config, i: nat): byte {
    if i < |cfg.identity| then cfg.identity[i] else 0
  }

  function IdentityBit(cfg: Config, j: nat): bool {
    BitsOf(IdentityByte(cfg, j / 8))[j % 8]
  }

  lemma MisoOfReadId(c: Chip, cfg: Config, bs: seq<byte>, m: nat)
    requires c.Valid() && Answering(bs) && bs[0] == 0x9F
    ensures Miso(c, cfg, bs, m + 1).GetOr(false) ==
      (m >= cfg.delay && IdentityBit(cfg, m - cfg.delay))
  {
    hide Addr, BitsOf;
  }

  /** The first four bytes of the wave are the header: the command and three bytes that say nothing. */
  lemma IdHeader(header: seq<byte>, clocks: seq<bool>)
    requires |header| == 4 && header[0] == 0x9F
    ensures var bits := Serial(header) + clocks;
      && |bits| >= 32 && HeaderBits(Bytes(bits[..32])) == Some(32)
      && Answering(Bytes(bits)) && Bytes(bits)[0] == 0x9F
  {
    hide Serial;
    var bits := Serial(header) + clocks;
    assert bits[..32] == Serial(header);
    BytesOfSerial(header);
    assert bits[0..8] == Serial(header)[0..8];
    assert Bytes(Serial(header))[0] == ByteOf(Serial(header)[0..8]);
  }

  /**
   * What the master samples at any data clock of a Read ID frame: command 0x9F and three more bytes,
   * then zeros for the delay, the identity bytes most significant bit first, and zeros again.
   */
  lemma ReadIdSamples(cfg: Config, t: seq<Sample>, header: seq<byte>, clocks: seq<bool>)
    requires AtRest(t) && |header| == 4 && header[0] == 0x9F && clocks != []
    ensures var m := |clocks| - 1;
      Sampled(cfg, t + [OPEN] + BitWave(Serial(header) + clocks)) ==
        (m >= cfg.delay && IdentityBit(cfg, m - cfg.delay))
  {
    hide Frames, Serial, Bytes, After, BitWave, Miso, IdentityBit, Sampled, Answering;
    var bits := Serial(header) + clocks;
    IdHeader(header, clocks);
    AnswerOnWave(cfg, t, bits, 32);
    MisoOfReadId(After(cfg, Frames(t)), cfg, Bytes(bits), |clocks| - 1);
  }
}
