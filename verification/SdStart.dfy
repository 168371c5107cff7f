/** Bringing the card up: the bytes the driver sends from power-on, and every byte it gets back. */
module SdStart {
  import opened Bits
  import opened SdSpec
  import opened SdTheorems

  /** A card between commands, with no write owed. */
  predicate Between(c: Card, blocks: seq<byte>, session: Session) {
    c.Valid() && c.phase == Idle && !c.writer.pending && c.blocks == blocks && c.session == session
  }

  /** The card as it is made. */
  function PowerOn(blocks: seq<byte>): Card {
    Card(blocks, Idle, [0, 0, 0, 0], [], Session(false, false, 2), Writer(0, false, []), Stats(0, 0, 0, map[]))
  }

  /** Between commands only 0x40 to 0x7F are heard: other bytes are met with silence and change nothing. */
  lemma {:induction false} NoiseIgnored(c: Card, noise: seq<byte>)
    requires c.Valid() && c.phase == Idle && forall i :: 0 <= i < |noise| ==> noise[i] < 0x40 || 0x80 <= noise[i]
    ensures Exchange(c, noise) == (c, Quiet(|noise|))
  {
    if noise == [] {
      ExchangeSnoc(c, [], 0);
    } else {
      var front, b := noise[..|noise| - 1], noise[|noise| - 1];
      NoiseIgnored(c, front);
      ExchangeSnoc(c, front, b);
      assert front + [b] == noise;
    }
  }

  /** A command is taken in silence, and its whole reply is polled out. */
  lemma Replied(c: Card, index: byte, arg: seq<byte>, crc: byte, n: nat)
    requires c.Valid() && c.phase == Idle && index < 64 && |arg| == 4
    requires var a := Answer(c.(arg := arg), index); |a.reply| == n && !a.writer.pending
    ensures var a := Answer(c.(arg := arg), index);
            var (d, out) := Exchange(c, Frame(index, arg, crc) + Quiet(n));
            d == a.(phase := Idle, reply := []) && out == Quiet(6) + a.reply
  {
    hide Exchange, Frame, Quiet, Answer;
    var a := Answer(c.(arg := arg), index);
    FrameAnswered(c, index, arg, crc);
    ExchangeConcat(c, Frame(index, arg, crc), Quiet(n));
    ReplyDrained(a, Quiet(n));
    assert a.reply[..n] == a.reply && a.reply[n..] == [];
  }

  /** CMD0 answers that the card is idle. */
  lemma GoesIdle(c: Card, blocks: seq<byte>, s: Session, crc: byte)
    requires Between(c, blocks, s) && !s.appCmdPending
    ensures var (d, out) := Exchange(c, [0x40, 0, 0, 0, 0, crc] + Quiet(2));
            Between(d, blocks, s) && out == Quiet(6) + [0xFF, 0x01]
  {
    hide Exchange, Quiet;
    assert Frame(0, [0, 0, 0, 0], crc) == [0x40, 0, 0, 0, 0, crc];
    Replied(c, 0, [0, 0, 0, 0], crc, 2);
  }

  /** CMD8 answers idle, the voltage nibble, and the check byte it was sent. */
  lemma Echoes(c: Card, blocks: seq<byte>, s: Session, check: byte, crc: byte)
    requires Between(c, blocks, s) && !s.appCmdPending
    ensures var (d, out) := Exchange(c, [0x48, 0, 0, 0x01, check, crc] + Quiet(6));
            Between(d, blocks, s) && out == Quiet(6) + [0xFF, 0x01, 0x00, 0x00, 0x01, check]
  {
    hide Exchange, Quiet;
    assert Frame(8, [0, 0, 0x01, check], crc) == [0x48, 0, 0, 0x01, check, crc];
    Replied(c, 8, [0, 0, 0x01, check], crc, 6);
  }

  /** CMD55 announces an application command; it answers idle until the card is initialised, and then ready. */
  lemma Announced(c: Card, blocks: seq<byte>, s: Session, crc: byte)
    requires Between(c, blocks, s) && !s.appCmdPending
    ensures var (d, out) := Exchange(c, [0x77, 0, 0, 0, 0, crc] + Quiet(2));
            && Between(d, blocks, s.(appCmdPending := true))
            && out == Quiet(6) + [0xFF, if s.initialised then 0x00 else 0x01]
  {
    hide Exchange, Quiet;
    assert Frame(55, [0, 0, 0, 0], crc) == [0x77, 0, 0, 0, 0, crc];
    Replied(c, 55, [0, 0, 0, 0], crc, 2);
  }

  /** ACMD41 answers idle while the card is busy, and then ready. */
  lemma Polled(c: Card, blocks: seq<byte>, s: Session, crc: byte)
    requires Between(c, blocks, s) && s.appCmdPending
    ensures var (d, out) := Exchange(c, [0x69, 0x40, 0, 0, 0, crc] + Quiet(2));
            && Between(d, blocks, if s.acmd41BusyLeft > 0 then Session(false, s.initialised, s.acmd41BusyLeft - 1)
                                  else Session(false, true, 0))
            && out == Quiet(6) + [0xFF, if s.acmd41BusyLeft > 0 then 0x01 else 0x00]
  {
    hide Exchange, Quiet;
    assert Frame(41, [0x40, 0, 0, 0], crc) == [0x69, 0x40, 0, 0, 0, crc];
    Replied(c, 41, [0x40, 0, 0, 0], crc, 2);
  }

  /** CMD58 answers ready, powered up and of high capacity: bits 31 and 30 of the register, so blocks are numbered. */
  lemma TellsCapacity(c: Card, blocks: seq<byte>, s: Session, crc: byte)
    requires Between(c, blocks, s) && !s.appCmdPending
    ensures var (d, out) := Exchange(c, [0x7A, 0, 0, 0, 0, crc] + Quiet(6));
            Between(d, blocks, s) && out == Quiet(6) + [0xFF, 0x00, 0xC0, 0xFF, 0x80, 0x00]
  {
    hide Exchange, Quiet;
    assert Frame(58, [0, 0, 0, 0], crc) == [0x7A, 0, 0, 0, 0, crc];
    Replied(c, 58, [0, 0, 0, 0], crc, 6);
  }

  /** CMD16 is accepted, and so, with ready, is every command the card does not know. */
  lemma Accepts(c: Card, blocks: seq<byte>, s: Session, index: byte, arg: seq<byte>, crc: byte)
    requires Between(c, blocks, s) && !s.appCmdPending && index < 64 && |arg| == 4
    requires index !in {0, 8, 17, 24, 55, 58}
    ensures var (d, out) := Exchange(c, [0x40 + index] + arg + [crc] + Quiet(2));
            && Between(d, blocks, s) && out == Quiet(6) + [0xFF, 0x00]
            && (index == 16 ==> d.stats.unknown == c.stats.unknown)
            && (index != 16 ==> d.stats.unknown == Noted(c.stats.unknown, index))
  {
    hide Exchange, Quiet;
    assert Frame(index, arg, crc) == [0x40 + index] + arg + [crc];
    Replied(c, index, arg, crc, 2);
  }

  function NotedTimes(unknown: map<byte, nat>, code: byte, n: nat): map<byte, nat> {
    if n == 0 then unknown else Noted(NotedTimes(unknown, code, n - 1), code)
  }

  /** The tally of an unknown command counts every one of them, up to the end of its 32 bits. */
  lemma {:induction false} TallyCounts(unknown: map<byte, nat>, code: byte, n: nat)
    requires n > 0 && (code in unknown ==> unknown[code] <= 0xFFFF_FFFF)
    ensures var count := (if code in unknown then unknown[code] else 0) + n;
            NotedTimes(unknown, code, n) == unknown[code := if count <= 0xFFFF_FFFF then count else 0xFFFF_FFFF]
  {
    if n > 1 {
      TallyCounts(unknown, code, n - 1);
    }
    assert NotedTimes(unknown, code, n) == Noted(NotedTimes(unknown, code, n - 1), code);
  }

  /** One round of CMD55 and ACMD41. */
  function Round(c: Card, crc: byte): (r: (Card, seq<byte>))
    requires c.Valid()
    ensures r.0.Valid()
  {
    var (announced, first) := Exchange(c, [0x77, 0, 0, 0, 0, crc] + Quiet(2));
    var (polled, second) := Exchange(announced, [0x69, 0x40, 0, 0, 0, crc] + Quiet(2));
    (polled, first[6..] + second[6..])
  }

  lemma RoundAnswers(c: Card, blocks: seq<byte>, busy: nat, crc: byte)
    requires Between(c, blocks, Session(false, false, busy))
    ensures var (d, replies) := Round(c, crc);
            && replies == [0xFF, 0x01, 0xFF, if busy > 0 then 0x01 else 0x00]
            && Between(d, blocks, if busy > 0 then Session(false, false, busy - 1) else Session(false, true, 0))
  {
    hide Exchange, Quiet;
    Announced(c, blocks, Session(false, false, busy), crc);
    var announced := Exchange(c, [0x77, 0, 0, 0, 0, crc] + Quiet(2)).0;
    Polled(announced, blocks, Session(true, false, busy), crc);
  }

  /** What the driver sends to bring a card up, and everything that comes back behind the silent frames. */
  function BroughtUp(c: Card, check: byte, crc: byte): (r: (Card, seq<seq<byte>>))
    requires c.Valid()
    ensures r.0.Valid()
  {
    var (idle, r0) := Exchange(c, [0x40, 0, 0, 0, 0, crc] + Quiet(2));
    var (checked, r1) := Exchange(idle, [0x48, 0, 0, 0x01, check, crc] + Quiet(6));
    var (busy, r2) := Round(checked, crc);
    var (still, r3) := Round(busy, crc);
    var (ready, r4) := Round(still, crc);
    var (known, r5) := Exchange(ready, [0x7A, 0, 0, 0, 0, crc] + Quiet(6));
    (known, [r0[6..], r1[6..], r2, r3, r4, r5[6..]])
  }

  /**
   * From power-on: idle, the echoed check byte, twice busy and the third time ready, and then the
   * register of a high-capacity card. It ends ready for reads and writes, its blocks untouched.
   */
  lemma CardComesUp(blocks: seq<byte>, check: byte, crc: byte)
    requires |blocks| % BLOCK == 0
    ensures PowerOn(blocks).Valid()
    ensures var (d, replies) := BroughtUp(PowerOn(blocks), check, crc);
            && replies == [[0xFF, 0x01], [0xFF, 0x01, 0x00, 0x00, 0x01, check],
                           [0xFF, 0x01, 0xFF, 0x01], [0xFF, 0x01, 0xFF, 0x01], [0xFF, 0x01, 0xFF, 0x00],
                           [0xFF, 0x00, 0xC0, 0xFF, 0x80, 0x00]]
            && Ready(d) && d.session.initialised && d.blocks == blocks
  {
    hide Exchange, Quiet, Round;
    var s := Session(false, false, 2);
    var c := PowerOn(blocks);
    GoesIdle(c, blocks, s, crc);
    var idle := Exchange(c, [0x40, 0, 0, 0, 0, crc] + Quiet(2)).0;
    Echoes(idle, blocks, s, check, crc);
    var checked := Exchange(idle, [0x48, 0, 0, 0x01, check, crc] + Quiet(6)).0;
    RoundAnswers(checked, blocks, 2, crc);
    RoundAnswers(Round(checked, crc).0, blocks, 1, crc);
    var still := Round(Round(checked, crc).0, crc).0;
    RoundAnswers(still, blocks, 0, crc);
    TellsCapacity(Round(still, crc).0, blocks, Session(false, true, 0), crc);
  }

  /** So a card just brought up is a map from block number to 512 bytes. */
  lemma ThenABlockMap(blocks: seq<byte>, check: byte, crc: byte, ops: seq<Op>)
    requires |blocks| % BLOCK == 0 && AllComplete(ops, |blocks|)
    ensures PowerOn(blocks).Valid()
    ensures var d := BroughtUp(PowerOn(blocks), check, crc).0;
            d.blocks == blocks && ActsAsMap(d, ops)
  {
    hide BroughtUp, ActsAsMap, AllComplete, PowerOn;
    CardComesUp(blocks, check, crc);
    ReadyActsAsMap(BroughtUp(PowerOn(blocks), check, crc).0, ops);
  }
}
