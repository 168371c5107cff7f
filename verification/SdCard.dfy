/** The SD card as an object, and the chip-select edge detector in front of it. */
module SdDevice {
  import opened Bits
  import opened SdSpec

  class SdCard {
    const blocks: array<byte>
    var phase: Phase
    var arg: seq<byte>
    var reply: seq<byte>
    var session: Session
    var writer: Writer
    var stats: Stats

    ghost function View(): Card
      reads this, blocks
    {
      Card(blocks[..], phase, arg, reply, session, writer, stats)
    }

    constructor (image: array<byte>)
      requires image.Length % BLOCK == 0
      ensures View() == Card(image[..], Idle, [0, 0, 0, 0], [], Session(false, false, 2),
                             Writer(0, false, []), Stats(0, 0, 0, map[]))
      ensures View().Valid() && blocks == image
    {
      blocks := image;
      phase, arg, reply := Idle, [0, 0, 0, 0], [];
      session, writer, stats := Session(false, false, 2), Writer(0, false, []), Stats(0, 0, 0, map[]);
    }

    /** Chip select released: the exchange in flight is abandoned, a pending write is not. */
    method Deselect()
      requires View().Valid()
      modifies this`phase, this`reply, this`writer
      ensures View() == SdSpec.Deselect(old(View()))
    {
      phase, reply, writer := Idle, [], writer.(buf := []);
    }

    /** One byte exchanged; the result is what the card puts on MISO. */
    method Transfer(b: byte) returns (out: byte)
      requires View().Valid()
      modifies this, blocks
      ensures View() == SdSpec.Transfer(old(View()), b).0 && out == SdSpec.Transfer(old(View()), b).1
    {
      hide Answer, SdSpec.Commit;
      out := IDLE;
      match phase
      case Idle =>
        if 64 <= b < 128 {
          phase := Command(b - 64, 0);
        }
      case Command(index, taken) =>
        if taken < 4 {
          arg := arg[taken := b];
          phase := Command(index, taken + 1);
        } else {
          BeginReply(index);
        }
      case Reply =>
        out, reply := reply[0], reply[1..];
        if reply == [] {
          phase := if writer.pending then AwaitWriteToken else Idle;
        }
      case DataResponse =>
        phase := Idle;
        out := DATA_ACCEPTED;
      case AwaitWriteToken =>
        if b == TOKEN_START {
          phase := WriteData(0);
          writer := writer.(buf := []);
        }
      case WriteData(taken) =>
        if taken < BLOCK {
          writer := writer.(buf := writer.buf + [b]);
          phase := WriteData(taken + 1);
        } else if taken < BLOCK + 1 {
          phase := WriteData(taken + 1);
        } else {
          CommitWrite();
          phase := DataResponse;
        }
    }

    method CommitWrite()
      requires View().Valid() && |writer.buf| == BLOCK
      modifies this`writer, this`stats, blocks
      ensures View() == SdSpec.Commit(old(View()))
    {
      var offset := writer.block * BLOCK;
      if offset + BLOCK <= blocks.Length {
        forall i | 0 <= i < BLOCK {
          blocks[offset + i] := writer.buf[i];
        }
        assert blocks[..] == WithBlock(old(blocks[..]), writer.block, writer.buf);
        stats := stats.(written := stats.written + 1);
      }
      writer := writer.(buf := [], pending := false);
    }

    method BeginReply(index: byte)
      requires View().Valid()
      modifies this`phase, this`reply, this`session, this`writer, this`stats
      ensures View() == Answer(old(View()), index)
    {
      hide BlockAt, Noted, Number;
      stats := stats.(commands := stats.commands + 1);
      var isApp := session.appCmdPending;
      session := session.(appCmdPending := false);
      reply := [IDLE];
      phase := Reply;
      if isApp {
        AnswerAppCommand(index);
        return;
      }
      if index == 0 {
        reply := reply + [R1_IDLE];
      } else if index == 8 {
        reply := reply + [R1_IDLE, 0x00, 0x00, 0x01, arg[3]];
      } else if index == 16 {
        reply := reply + [R1_READY];
      } else if index == 17 {
        reply := reply + [R1_READY];
        QueueBlockRead(Number(arg));
      } else if index == 24 {
        reply := reply + [R1_READY];
        writer := writer.(block := Number(arg), pending := true);
      } else if index == 55 {
        session := session.(appCmdPending := true);
        reply := reply + [if session.initialised then R1_READY else R1_IDLE];
      } else if index == 58 {
        reply := reply + [R1_READY, 0xC0, 0xFF, 0x80, 0x00];
      } else {
        stats := stats.(unknown := Noted(stats.unknown, index));
        reply := reply + [R1_READY];
      }
    }

    method AnswerAppCommand(index: byte)
      modifies this`reply, this`session, this`stats
      ensures (index == 41 && old(session).acmd41BusyLeft > 0) ==>
        && reply == old(reply) + [R1_IDLE] && stats == old(stats)
        && session == old(session).(acmd41BusyLeft := old(session).acmd41BusyLeft - 1)
      ensures (index == 41 && old(session).acmd41BusyLeft == 0) ==>
        reply == old(reply) + [R1_READY] && stats == old(stats) && session == old(session).(initialised := true)
      ensures index != 41 ==>
        && reply == old(reply) + [R1_READY] && session == old(session)
        && stats == old(stats).(unknown := Noted(old(stats).unknown, index))
    {
      if index == 41 {
        if session.acmd41BusyLeft > 0 {
          session := session.(acmd41BusyLeft := session.acmd41BusyLeft - 1);
          reply := reply + [R1_IDLE];
        } else {
          session := session.(initialised := true);
          reply := reply + [R1_READY];
        }
      } else {
        stats := stats.(unknown := Noted(stats.unknown, index));
        reply := reply + [R1_READY];
      }
    }

    /** Out of range, no token is queued: the host keeps polling. */
    method QueueBlockRead(n: nat)
      modifies this`reply, this`stats
      ensures reply == old(reply) + if (n + 1) * BLOCK <= blocks.Length
                                    then [TOKEN_START] + BlockAt(blocks[..], n) + [0xFF, 0xFF] else []
      ensures stats == if (n + 1) * BLOCK <= blocks.Length then old(stats).(read := old(stats).read + 1) else old(stats)
    {
      var offset := n * BLOCK;
      if offset + BLOCK > blocks.Length {
        return;
      }
      var queued := reply + [TOKEN_START];
      for i := 0 to BLOCK
        invariant queued == reply + [TOKEN_START] + blocks[offset..offset + i]
      {
        queued := queued + [blocks[offset + i]];
      }
      reply := queued + [0xFF, 0xFF];
      stats := stats.(read := stats.read + 1);
    }
  }

  const SD_PIN_CS: bv5 := 17

  predicate CsHigh(levels: bv32) {
    Level(levels, SD_PIN_CS)
  }

  /** The wire tells the card about chip select only on its rising edge. */
  class SdCardWire {
    const card: SdCard
    var csHigh: bool

    constructor (card: SdCard)
      ensures this.card == card && csHigh
    {
      this.card, csHigh := card, true;
    }

    method Transfer(word: nat) returns (out: byte)
      requires card.View().Valid()
      modifies card, card.blocks
      ensures var r := SdSpec.Transfer(old(card.View()), word % 256); card.View() == r.0 && out == r.1
    {
      out := card.Transfer(word % 256);
    }

    method ObservePins(levels: bv32)
      requires card.View().Valid()
      modifies this, card
      ensures csHigh == CsHigh(levels)
      ensures card.View() == if csHigh && !old(csHigh) then SdSpec.Deselect(old(card.View())) else old(card.View())
    {
      var cs := Level(levels, SD_PIN_CS);
      if cs && !csHigh {
        card.Deselect();
      }
      csHigh := cs;
    }
  }
}
