/**
 * The SD card in SPI mode as a value: what one exchanged byte does (SD Physical Layer
 * Simplified Specification, section 7.3: commands, responses and tokens).
 */
module SdSpec {
  import opened Bits

  const BLOCK: nat := 512

  const IDLE: byte := 0xFF
  const R1_IDLE: byte := 0x01
  const R1_READY: byte := 0x00
  const TOKEN_START: byte := 0xFE
  const DATA_ACCEPTED: byte := 0x05
  const U32_MAX: nat := 0xFFFF_FFFF

  datatype Phase =
    | Idle
    | Command(index: byte, taken: nat)
    | Reply
    | AwaitWriteToken
    | WriteData(taken: nat)
    | DataResponse

  datatype Session = Session(appCmdPending: bool, initialised: bool, acmd41BusyLeft: nat)

  /** The block write in flight; `pending` spans from the CMD24 reply to the commit. */
  datatype Writer = Writer(block: nat, pending: bool, buf: seq<byte>)

  datatype Stats = Stats(commands: nat, read: nat, written: nat, unknown: map<byte, nat>)

  datatype Card = Card(blocks: seq<byte>, phase: Phase, arg: seq<byte>, reply: seq<byte>,
                       session: Session, writer: Writer, stats: Stats)
  {
    /** The write buffer holds exactly the data bytes taken so far, so a commit always has 512. */
    predicate Valid() {
      && |blocks| % BLOCK == 0 && |arg| == 4
      && (phase.Command? ==> phase.taken <= 4)
      && (phase.Reply? ==> reply != [])
      && (phase.WriteData? ==>
            phase.taken <= BLOCK + 1 && |writer.buf| == if phase.taken < BLOCK then phase.taken else BLOCK)
    }
  }

  function Number(arg: seq<byte>): (n: nat)
    requires |arg| == 4
    ensures n <= U32_MAX
  {
    ((arg[0] as int * 256 + arg[1]) * 256 + arg[2]) * 256 + arg[3]
  }

  predicate InRange(c: Card, n: nat) {
    (n + 1) * BLOCK <= |c.blocks|
  }

  function BlockAt(blocks: seq<byte>, n: nat): (data: seq<byte>)
    requires (n + 1) * BLOCK <= |blocks|
    ensures |data| == BLOCK
  {
    blocks[n * BLOCK..(n + 1) * BLOCK]
  }

  /** The medium with block n replaced. */
  function WithBlock(blocks: seq<byte>, n: nat, data: seq<byte>): (r: seq<byte>)
    requires (n + 1) * BLOCK <= |blocks| && |data| == BLOCK
    ensures |r| == |blocks|
  {
    blocks[..n * BLOCK] + data + blocks[(n + 1) * BLOCK..]
  }

  function Noted(unknown: map<byte, nat>, code: byte): map<byte, nat> {
    unknown[code := if code !in unknown then 1
                    else if unknown[code] < U32_MAX then unknown[code] + 1
                    else unknown[code]]
  }

  function Deselect(c: Card): (d: Card)
    requires c.Valid()
    ensures d.Valid()
  {
    c.(phase := Idle, reply := [], writer := c.writer.(buf := []))
  }

  /** What the card queues once a command frame is complete; the first byte is always idle. */
  function Answer(c: Card, index: byte): (d: Card)
    requires c.Valid()
    ensures d.Valid() && d.phase == Reply && d.reply[0] == IDLE
  {
    var s, n := c.session, Number(c.arg);
    var d := c.(phase := Reply, reply := [IDLE, R1_READY], stats := c.stats.(commands := c.stats.commands + 1),
                session := s.(appCmdPending := false));
    var unknown := d.(stats := d.stats.(unknown := Noted(c.stats.unknown, index)));
    if s.appCmdPending then
      if index != 41 then unknown
      else if s.acmd41BusyLeft > 0 then
        d.(reply := [IDLE, R1_IDLE], session := d.session.(acmd41BusyLeft := s.acmd41BusyLeft - 1))
      else d.(session := d.session.(initialised := true))
    else if index == 0 then d.(reply := [IDLE, R1_IDLE])
    else if index == 8 then d.(reply := [IDLE, R1_IDLE, 0x00, 0x00, 0x01, c.arg[3]])
    else if index == 16 then d
    else if index == 17 then
      if !InRange(c, n) then d
      else d.(reply := [IDLE, R1_READY, TOKEN_START] + BlockAt(c.blocks, n) + [0xFF, 0xFF],
              stats := d.stats.(read := c.stats.read + 1))
    else if index == 24 then d.(writer := c.writer.(block := n, pending := true))
    else if index == 55 then
      d.(reply := [IDLE, if s.initialised then R1_READY else R1_IDLE], session := d.session.(appCmdPending := true))
    else if index == 58 then d.(reply := [IDLE, R1_READY, 0xC0, 0xFF, 0x80, 0x00])
    else unknown
  }

  function Commit(c: Card): (d: Card)
    requires c.Valid() && |c.writer.buf| == BLOCK
    ensures d.blocks ==
            if InRange(c, c.writer.block) then WithBlock(c.blocks, c.writer.block, c.writer.buf) else c.blocks
  {
    var w := c.writer.(pending := false, buf := []);
    if InRange(c, c.writer.block) then
      c.(blocks := WithBlock(c.blocks, c.writer.block, c.writer.buf), writer := w,
         stats := c.stats.(written := c.stats.written + 1))
    else c.(writer := w)
  }

  /** One byte exchanged. */
  function Transfer(c: Card, b: byte): (r: (Card, byte))
    requires c.Valid()
    ensures r.0.Valid() && |r.0.blocks| == |c.blocks|
  {
    match c.phase
    case Idle =>
      (if 64 <= b < 128 then c.(phase := Command(b - 64, 0)) else c, IDLE)
    case Command(index, taken) =>
      (if taken < 4 then c.(arg := c.arg[taken := b], phase := Command(index, taken + 1)) else Answer(c, index), IDLE)
    case Reply =>
      var rest := c.reply[1..];
      var next := if rest != [] then Reply else if c.writer.pending then AwaitWriteToken else Idle;
      (c.(reply := rest, phase := next), c.reply[0])
    case AwaitWriteToken =>
      (if b == TOKEN_START then c.(phase := WriteData(0), writer := c.writer.(buf := [])) else c, IDLE)
    case WriteData(taken) =>
      (if taken < BLOCK then c.(phase := WriteData(taken + 1), writer := c.writer.(buf := c.writer.buf + [b]))
       else if taken < BLOCK + 1 then c.(phase := WriteData(taken + 1))
       else Commit(c).(phase := DataResponse), IDLE)
    case DataResponse => (c.(phase := Idle), DATA_ACCEPTED)
  }
}
