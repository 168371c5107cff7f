/**
 * Complete CMD17 and CMD24 exchanges make the card a map from block number to 512
 * bytes; and exactly when a read leaves the card ready for the next command.
 */
module SdTheorems {
  import opened Bits
  import opened SdSpec

  /** A string of bytes exchanged, with what came back. */
  function Exchange(c: Card, bs: seq<byte>): (r: (Card, seq<byte>))
    requires c.Valid()
    ensures r.0.Valid() && |r.1| == |bs| && |r.0.blocks| == |c.blocks|
  {
    if bs == [] then (c, [])
    else
      var (d, out) := Exchange(c, bs[..|bs| - 1]);
      var (d', last) := Transfer(d, bs[|bs| - 1]);
      (d', out + [last])
  }

  lemma ExchangeSnoc(c: Card, bs: seq<byte>, b: byte)
    requires c.Valid()
    ensures Exchange(c, []) == (c, [])
    ensures var t := Transfer(Exchange(c, bs).0, b);
      Exchange(c, bs + [b]).0 == t.0 && Exchange(c, bs + [b]).1 == Exchange(c, bs).1 + [t.1]
  {
    hide Transfer;
    assert (bs + [b])[..|bs|] == bs;
  }

  lemma {:induction false} ExchangeConcat(c: Card, a: seq<byte>, b: seq<byte>)
    requires c.Valid()
    ensures var rest := Exchange(Exchange(c, a).0, b);
      Exchange(c, a + b).0 == rest.0 && Exchange(c, a + b).1 == Exchange(c, a).1 + rest.1
  {
    hide Transfer, Exchange;
    var middle := Exchange(c, a).0;
    if b == [] {
      ExchangeSnoc(middle, [], 0);
      assert a + b == a && Exchange(c, a).1 + [] == Exchange(c, a).1;
    } else {
      var front, x := b[..|b| - 1], b[|b| - 1];
      ExchangeConcat(c, a, front);
      ExchangeSnoc(c, a + front, x);
      ExchangeSnoc(middle, front, x);
      assert (a + front) + [x] == a + b && front + [x] == b;
    }
  }

  function Quiet(n: nat): (r: seq<byte>)
    ensures |r| == n
  {
    if n == 0 then [] else Quiet(n - 1) + [0xFF]
  }

  // ----- the pieces of an exchange -------------------------------------------------

  function Frame(index: byte, arg: seq<byte>, crc: byte): (f: seq<byte>)
    requires index < 64 && |arg| == 4
    ensures |f| == 6
  {
    [64 + index] + arg + [crc]
  }

  lemma DigitsOf(n: nat)
    ensures n == n / 256 * 256 + n % 256
    ensures n / 256 == n / 0x1_0000 * 256 + n / 256 % 256
    ensures n / 0x1_0000 == n / 0x100_0000 * 256 + n / 0x1_0000 % 256
  {
  }

  /** The four argument bytes of a block number. */
  function ArgOf(n: nat): (arg: seq<byte>)
    requires n <= U32_MAX
    ensures |arg| == 4 && Number(arg) == n
  {
    DigitsOf(n);
    [n / 0x100_0000, n / 0x1_0000 % 256, n / 256 % 256, n % 256]
  }

  lemma {:induction false} ArgumentTaken(c: Card, arg: seq<byte>)
    requires c.Valid() && c.phase.Command? && c.phase.taken == 0 && |arg| <= 4
    ensures Exchange(c, arg).0 == c.(phase := Command(c.phase.index, |arg|), arg := arg + c.arg[|arg|..])
    ensures Exchange(c, arg).1 == Quiet(|arg|)
  {
    hide Exchange, Answer, Commit;
    if arg == [] {
      ExchangeSnoc(c, [], 0);
      assert [] + c.arg[0..] == c.arg;
    } else {
      var k := |arg| - 1;
      ArgumentTaken(c, arg[..k]);
      ExchangeSnoc(c, arg[..k], arg[k]);
      assert arg[..k] + [arg[k]] == arg;
      assert (arg[..k] + c.arg[k..])[k := arg[k]] == arg + c.arg[k + 1..];
    }
  }

  /** A command frame is taken in silence and answered from the next byte on. */
  lemma FrameAnswered(c: Card, index: byte, arg: seq<byte>, crc: byte)
    requires c.Valid() && c.phase == Idle && index < 64 && |arg| == 4
    ensures Exchange(c, Frame(index, arg, crc)).0 == Answer(c.(arg := arg), index)
    ensures Exchange(c, Frame(index, arg, crc)).1 == Quiet(6)
  {
    hide Answer, Exchange, Quiet;
    var opening := [64 + index];
    ExchangeSnoc(c, [], 64 + index);
    assert [] + opening == opening;
    ExchangeConcat(c, opening, arg);
    ArgumentTaken(Exchange(c, opening).0, arg);
    assert arg + c.arg[4..] == arg;
    ExchangeSnoc(c, opening + arg, crc);
    AnswerIgnoresPhase(c.(arg := arg), Command(index, 4), index);
    SixQuietBytes();
  }

  lemma AnswerIgnoresPhase(c: Card, phase: Phase, index: byte)
    requires c.Valid() && c.(phase := phase).Valid()
    ensures Answer(c.(phase := phase), index) == Answer(c, index)
  {
  }

  lemma SixQuietBytes()
    ensures [] + [IDLE] + Quiet(4) + [IDLE] == Quiet(6)
  {
    assert Quiet(1) == [IDLE] && Quiet(4) == [IDLE, IDLE, IDLE, IDLE];
    assert Quiet(6) == [IDLE, IDLE, IDLE, IDLE, IDLE, IDLE];
  }

  /** Polling hands out the queued reply in order, and the last byte decides what comes next. */
  lemma {:induction false} ReplyDrained(c: Card, polls: seq<byte>)
    requires c.Valid() && c.phase == Reply && |polls| <= |c.reply|
    ensures Exchange(c, polls).1 == c.reply[..|polls|]
    ensures Exchange(c, polls).0 ==
      c.(reply := c.reply[|polls|..],
         phase := if |polls| < |c.reply| then Reply else if c.writer.pending then AwaitWriteToken else Idle)
  {
    hide Exchange, Answer, Commit;
    if polls == [] {
      ExchangeSnoc(c, [], 0);
    } else {
      var k := |polls| - 1;
      ReplyDrained(c, polls[..k]);
      ExchangeSnoc(c, polls[..k], polls[k]);
      assert polls[..k] + [polls[k]] == polls;
      assert c.reply[..k] + [c.reply[k]] == c.reply[..k + 1];
    }
  }

  /** Until the start token arrives a card awaiting a write ignores everything. */
  lemma {:induction false} TokenAwaited(c: Card, bs: seq<byte>)
    requires c.Valid() && c.phase == AwaitWriteToken && TOKEN_START !in bs
    ensures Exchange(c, bs).0 == c && Exchange(c, bs).1 == Quiet(|bs|)
  {
    hide Exchange, Answer, Commit;
    if bs == [] {
      ExchangeSnoc(c, [], 0);
    } else {
      var k := |bs| - 1;
      TokenAwaited(c, bs[..k]);
      ExchangeSnoc(c, bs[..k], bs[k]);
      assert bs[..k] + [bs[k]] == bs;
    }
  }

  lemma {:induction false} DataTaken(c: Card, data: seq<byte>)
    requires c.Valid() && c.phase == WriteData(0) && |data| <= BLOCK
    ensures Exchange(c, data).0 == c.(phase := WriteData(|data|), writer := c.writer.(buf := data))
    ensures Exchange(c, data).1 == Quiet(|data|)
  {
    hide Exchange, Answer, Commit;
    if data == [] {
      ExchangeSnoc(c, [], 0);
      assert c.writer.buf == [];
    } else {
      var k := |data| - 1;
      DataTaken(c, data[..k]);
      ExchangeSnoc(c, data[..k], data[k]);
      assert data[..k] + [data[k]] == data;
    }
  }

  // ----- a whole read, a whole write ----------------------------------------------------

  /** Between exchanges, with no write owed and no application command announced. */
  predicate Ready(c: Card) {
    c.Valid() && c.phase == Idle && !c.writer.pending && !c.session.appCmdPending
  }

  /** A host operation with every byte it sends; polls and CRCs may be anything. */
  datatype Op =
    | Read(arg: seq<byte>, crc: byte, polls: seq<byte>)
    | Write(arg: seq<byte>, crc: byte, polls: seq<byte>, wait: seq<byte>, data: seq<byte>, crcs: seq<byte>, last: byte)
  {
    predicate Complete(size: nat) {
      && |arg| == 4 && (Number(arg) + 1) * BLOCK <= size
      && (Read? ==> |polls| == 517)
      && (Write? ==> |polls| == 2 && 0xFE !in wait && |data| == BLOCK && |crcs| == 2)
    }

    function Bytes(): seq<byte>
      requires |arg| == 4
    {
      match this
      case Read(arg, crc, polls) => Frame(17, arg, crc) + polls
      case Write(arg, crc, polls, wait, data, crcs, last) =>
        Frame(24, arg, crc) + polls + wait + [0xFE] + data + crcs + [last]
    }
  }

  /**
   * What a read of these 512 bytes answers: silence for the command, then R1, the token, the block
   * and two check bytes.
   */
  function ReadReply(data: seq<byte>): (reply: seq<byte>)
    ensures |reply| == 11 + |data|
  {
    Quiet(6) + [0xFF, 0x00, 0xFE] + data + [0xFF, 0xFF]
  }

  /** A read from an idle card answers with the block; it ends idle only if no write is owed. */
  lemma ReadExchange(c: Card, op: Op)
    requires c.Valid() && c.phase == Idle && !c.session.appCmdPending
    requires op.Read? && op.Complete(|c.blocks|)
    ensures var (d, out) := Exchange(c, op.Bytes());
      && out == ReadReply(BlockAt(c.blocks, Number(op.arg)))
      && d.blocks == c.blocks && d.writer == c.writer && !d.session.appCmdPending
      && d.phase == if c.writer.pending then AwaitWriteToken else Idle
  {
    hide Exchange, Transfer, Frame, Quiet, Number;
    FrameAnswered(c, 17, op.arg, op.crc);
    var answered := Answer(c.(arg := op.arg), 17);
    ExchangeConcat(c, Frame(17, op.arg, op.crc), op.polls);
    ReplyDrained(answered, op.polls);
    assert answered.reply[..517] == answered.reply;
  }

  /** A write replaces exactly the addressed block and leaves the card ready. */
  lemma WriteExchange(c: Card, op: Op)
    requires Ready(c) && op.Write? && op.Complete(|c.blocks|)
    ensures var (d, out) := Exchange(c, op.Bytes());
      && out[|out| - 1] == 0x05
      && d.blocks == WithBlock(c.blocks, Number(op.arg), op.data) && Ready(d)
  {
    hide Exchange, Transfer, Frame, Quiet, Number, WithBlock;
    var head := Frame(24, op.arg, op.crc) + op.polls;
    var awaiting := CommandTaken(c, op);
    ExchangeConcat(c, head, op.wait);
    TokenAwaited(awaiting, op.wait);
    var tail := [TOKEN_START] + op.data + op.crcs + [op.last];
    BlockCommitted(awaiting, op.data, op.crcs, op.last);
    ExchangeConcat(c, head + op.wait, tail);
    assert op.Bytes() == head + op.wait + tail;
  }

  /** CMD24 is acknowledged and the card waits for the data. */
  lemma CommandTaken(c: Card, op: Op) returns (d: Card)
    requires Ready(c) && op.Write? && op.Complete(|c.blocks|)
    ensures d == Exchange(c, Frame(24, op.arg, op.crc) + op.polls).0
    ensures d.Valid() && d.phase == AwaitWriteToken && d.blocks == c.blocks
    ensures d.writer.block == Number(op.arg) && d.writer.pending
    ensures !d.session.appCmdPending
  {
    hide Exchange, Transfer, Frame, Quiet, Number;
    FrameAnswered(c, 24, op.arg, op.crc);
    var answered := Answer(c.(arg := op.arg), 24);
    ExchangeConcat(c, Frame(24, op.arg, op.crc), op.polls);
    ReplyDrained(answered, op.polls);
    d := Exchange(answered, op.polls).0;
  }

  lemma TokenTaken(c: Card, data: seq<byte>)
    requires c.Valid() && c.phase == AwaitWriteToken && |data| == BLOCK
    ensures Exchange(c, [TOKEN_START] + data).0 == c.(phase := WriteData(BLOCK), writer := c.writer.(buf := data))
  {
    hide Exchange, Answer, Quiet;
    var token := [TOKEN_START];
    ExchangeSnoc(c, [], TOKEN_START);
    assert [] + token == token;
    ExchangeConcat(c, token, data);
    DataTaken(Exchange(c, token).0, data);
  }

  lemma ChecksTaken(c: Card, crcs: seq<byte>, last: byte)
    requires c.Valid() && c.phase == WriteData(BLOCK) && InRange(c, c.writer.block) && |crcs| == 2
    ensures var (d, out) := Exchange(c, crcs + [last]);
      && out[|out| - 1] == 0x05
      && d.blocks == WithBlock(c.blocks, c.writer.block, c.writer.buf)
      && d.phase == Idle && !d.writer.pending && d.session == c.session
  {
    hide Exchange, Answer, WithBlock;
    ExchangeSnoc(c, [], crcs[0]);
    ExchangeSnoc(c, [] + [crcs[0]], crcs[1]);
    ExchangeSnoc(c, [] + [crcs[0]] + [crcs[1]], last);
    assert [] + [crcs[0]] + [crcs[1]] == crcs;
  }

  /** The token, 512 bytes and their two check bytes replace the block announced last. */
  lemma BlockCommitted(c: Card, data: seq<byte>, crcs: seq<byte>, last: byte)
    requires c.Valid() && c.phase == AwaitWriteToken && InRange(c, c.writer.block) && |data| == BLOCK && |crcs| == 2
    ensures var (d, out) := Exchange(c, [TOKEN_START] + data + crcs + [last]);
      && out[|out| - 1] == 0x05
      && d.blocks == WithBlock(c.blocks, c.writer.block, data)
      && d.phase == Idle && !d.writer.pending && d.session == c.session
  {
    hide Exchange, Transfer, Quiet, WithBlock;
    TokenTaken(c, data);
    ChecksTaken(Exchange(c, [TOKEN_START] + data).0, crcs, last);
    ExchangeConcat(c, [TOKEN_START] + data, crcs + [last]);
    assert [TOKEN_START] + data + (crcs + [last]) == [TOKEN_START] + data + crcs + [last];
  }

  // ----- any sequence of operations -------------------------------------------------------

  predicate AllComplete(ops: seq<Op>, size: nat) {
    forall i :: 0 <= i < |ops| ==> ops[i].Complete(size)
  }

  function RunAll(c: Card, ops: seq<Op>): (r: (Card, seq<seq<byte>>))
    requires c.Valid() && AllComplete(ops, |c.blocks|)
    ensures r.0.Valid() && |r.1| == |ops| && |r.0.blocks| == |c.blocks|
  {
    if ops == [] then (c, [])
    else
      var (d, outs) := RunAll(c, ops[..|ops| - 1]);
      var (d', out) := Exchange(d, ops[|ops| - 1].Bytes());
      (d', outs + [out])
  }

  /** The block last written to number m, or what was there to begin with. */
  function LastWritten(blocks: seq<byte>, ops: seq<Op>, m: nat): (data: seq<byte>)
    requires (m + 1) * BLOCK <= |blocks| && AllComplete(ops, |blocks|)
    ensures |data| == BLOCK
  {
    if ops == [] then BlockAt(blocks, m)
    else
      var op := ops[|ops| - 1];
      if op.Write? && Number(op.arg) == m then op.data else LastWritten(blocks, ops[..|ops| - 1], m)
  }

  lemma BlockAtWithBlock(blocks: seq<byte>, n: nat, data: seq<byte>, m: nat)
    requires (n + 1) * BLOCK <= |blocks| && (m + 1) * BLOCK <= |blocks| && |data| == BLOCK
    ensures BlockAt(WithBlock(blocks, n, data), m) == if m == n then data else BlockAt(blocks, m)
  {
    var r := WithBlock(blocks, n, data);
    if m < n {
      assert (m + 1) * BLOCK <= n * BLOCK;
      assert r[m * BLOCK..(m + 1) * BLOCK] == blocks[m * BLOCK..(m + 1) * BLOCK];
    } else if n < m {
      assert (n + 1) * BLOCK <= m * BLOCK;
      assert r[m * BLOCK..(m + 1) * BLOCK] == blocks[m * BLOCK..(m + 1) * BLOCK];
    }
  }

  /** After any operations every block is the one last written there, and the card is ready again. */
  lemma {:induction false} CardIsABlockMap(c: Card, ops: seq<Op>, m: nat)
    requires Ready(c) && (m + 1) * BLOCK <= |c.blocks|
    requires AllComplete(ops, |c.blocks|)
    ensures var d := RunAll(c, ops).0;
      Ready(d) && |d.blocks| == |c.blocks| && BlockAt(d.blocks, m) == LastWritten(c.blocks, ops, m)
  {
    hide Exchange, BlockAt, WithBlock, Number;
    if ops != [] {
      var op := ops[|ops| - 1];
      CardIsABlockMap(c, ops[..|ops| - 1], m);
      var d := RunAll(c, ops[..|ops| - 1]).0;
      if op.Read? {
        ReadExchange(d, op);
      } else {
        WriteExchange(d, op);
        BlockAtWithBlock(d.blocks, Number(op.arg), op.data, m);
      }
    }
  }

  lemma {:induction false} RunPrefix(c: Card, ops: seq<Op>, n: nat)
    requires c.Valid() && AllComplete(ops, |c.blocks|) && n <= |ops|
    ensures RunAll(c, ops[..n]).1 == RunAll(c, ops).1[..n]
  {
    hide Exchange;
    if n == |ops| {
      assert ops[..n] == ops;
    } else {
      RunPrefix(c, ops[..|ops| - 1], n);
      assert ops[..|ops| - 1][..n] == ops[..n];
    }
  }

  /** The answer of operation k is the one it gives after the operations before it. */
  lemma AnswerOf(c: Card, ops: seq<Op>, k: nat)
    requires c.Valid() && AllComplete(ops, |c.blocks|) && k < |ops|
    ensures RunAll(c, ops).1[k] == Exchange(RunAll(c, ops[..k]).0, ops[k].Bytes()).1
  {
    hide Exchange, RunAll, Op.Bytes;
    RunPrefix(c, ops, k + 1);
    var upTo := ops[..k + 1];
    assert upTo[..k] == ops[..k];
    LastAnswer(c, upTo);
    assert RunAll(c, upTo).1[k] == RunAll(c, ops).1[k];
  }

  lemma LastAnswer(c: Card, ops: seq<Op>)
    requires c.Valid() && AllComplete(ops, |c.blocks|) && ops != []
    ensures var k := |ops| - 1; RunAll(c, ops).1[k] == Exchange(RunAll(c, ops[..k]).0, ops[k].Bytes()).1
  {
    hide Exchange, Op.Bytes;
  }

  /** In any sequence of operations every read returns the block last written to its address. */
  lemma ReadReturnsLastWritten(c: Card, ops: seq<Op>, k: nat)
    requires Ready(c) && AllComplete(ops, |c.blocks|) && k < |ops| && ops[k].Read?
    ensures RunAll(c, ops).1[k] == ReadReply(LastWritten(c.blocks, ops[..k], Number(ops[k].arg)))
  {
    hide Exchange, BlockAt, WithBlock, Number, ReadReply;
    AnswerOf(c, ops, k);
    CardIsABlockMap(c, ops[..k], Number(ops[k].arg));
    ReadExchange(RunAll(c, ops[..k]).0, ops[k]);
  }

  // ----- a write abandoned by chip select ---------------------------------------------------

  /** What the host does to the card: it clocks a byte, or it releases chip select. */
  datatype Event = Clocked(b: byte) | Released

  function Next(c: Card, e: Event): (d: Card)
    requires c.Valid()
    ensures d.Valid()
  {
    match e
    case Clocked(b) => Transfer(c, b).0
    case Released => Deselect(c)
  }

  function After(c: Card, events: seq<Event>): (d: Card)
    requires c.Valid()
    ensures d.Valid()
  {
    if events == [] then c else Next(After(c, events[..|events| - 1]), events[|events| - 1])
  }

  /** How many of these events complete the data of a block. */
  function Completed(c: Card, events: seq<Event>): nat
    requires c.Valid()
  {
    if events == [] then 0
    else
      var n := |events| - 1;
      Completed(c, events[..n]) +
      if After(c, events[..n]).phase == WriteData(BLOCK + 1) && events[n].Clocked? then 1 else 0
  }

  /**
   * Nothing but the last byte of a data block changes the medium or settles an announced write:
   * not any other byte, nor releasing chip select, however often.
   */
  lemma {:induction false} OnlyDataSettlesAWrite(c: Card, events: seq<Event>)
    requires c.Valid() && Completed(c, events) == 0
    ensures After(c, events).blocks == c.blocks
    ensures c.writer.pending ==> After(c, events).writer.pending
  {
    hide Answer, Commit;
    if events != [] {
      var n := |events| - 1;
      OnlyDataSettlesAWrite(c, events[..n]);
      hide After;
      var d := After(c, events[..n]);
      AnswerKeepsBlocks(d, if d.phase.Command? then d.phase.index else 0);
    }
  }

  lemma AnswerKeepsBlocks(c: Card, index: byte)
    requires c.Valid()
    ensures Answer(c, index).blocks == c.blocks
    ensures c.writer.pending ==> Answer(c, index).writer.pending
  {
  }

  /** From an idle card, a read leaves it idle exactly when no write is owed. */
  lemma ReadEndsIdleIff(c: Card, op: Op)
    requires c.Valid() && c.phase == Idle && !c.session.appCmdPending
    requires op.Read? && op.Complete(|c.blocks|)
    ensures Exchange(c, op.Bytes()).0.phase == Idle <==> !c.writer.pending
  {
    hide Exchange, Number, Frame, BlockAt, Quiet;
    ReadExchange(c, op);
  }

  /** In this sequence every read returns what was last written, and so does every block in the end. */
  ghost predicate ActsAsMap(c: Card, ops: seq<Op>)
    requires c.Valid() && AllComplete(ops, |c.blocks|)
  {
    && (forall k :: 0 <= k < |ops| && ops[k].Read? ==>
          RunAll(c, ops).1[k] == ReadReply(LastWritten(c.blocks, ops[..k], Number(ops[k].arg))))
    && (forall m: nat :: (m + 1) * BLOCK <= |c.blocks| ==>
          BlockAt(RunAll(c, ops).0.blocks, m) == LastWritten(c.blocks, ops, m))
  }

  function FirstBlock(): Op {
    Read([0, 0, 0, 0], 0xFF, Quiet(517))
  }

  lemma {:induction false} QuietHasNoToken(n: nat)
    ensures TOKEN_START !in Quiet(n)
  {
    if n > 0 {
      QuietHasNoToken(n - 1);
    }
  }

  /** Two reads of block 0 with a write owed: the first is answered, the second is not even heard. */
  lemma SecondReadUnheard(c: Card)
    requires c.Valid() && c.phase == Idle && !c.session.appCmdPending && c.writer.pending && BLOCK <= |c.blocks|
    ensures var ops := [FirstBlock(), FirstBlock()]; AllComplete(ops, |c.blocks|) && !ActsAsMap(c, ops)
  {
    hide Exchange, BlockAt, Transfer, WithBlock, LastWritten;
    var op := FirstBlock();
    var ops := [op, op];
    assert Number(op.arg) == 0 && op.Complete(|c.blocks|);
    assert ops[..1] == [op] && [op][..0] == [];
    ReadExchange(c, op);
    var stuck := Exchange(c, op.Bytes()).0;
    assert RunAll(c, ops[..1]).0 == stuck;
    QuietHasNoToken(517);
    NoTokenInside(op);
    TokenAwaited(stuck, op.Bytes());
    AnswerOf(c, ops, 1);
    QuietIsNoReply(|op.Bytes()|, LastWritten(c.blocks, ops[..1], 0));
  }

  lemma NoTokenInside(op: Op)
    requires op == FirstBlock()
    ensures TOKEN_START !in op.Bytes()
  {
    hide Quiet;
    QuietHasNoToken(517);
  }

  lemma QuietIsNoReply(n: nat, data: seq<byte>)
    ensures Quiet(n) != ReadReply(data)
  {
    hide ReadReply, Quiet;
    AllQuiet(n);
    ReplyHasR1(data);
  }

  lemma ReplyHasR1(data: seq<byte>)
    ensures ReadReply(data)[7] == R1_READY && ReadReply(data)[8] == TOKEN_START
  {
  }

  lemma {:induction false} AllQuiet(n: nat)
    ensures forall i :: 0 <= i < n ==> Quiet(n)[i] == IDLE
  {
    if n > 0 {
      AllQuiet(n - 1);
    }
  }

  /** An idle card stays idle under polls, and a card awaiting data goes on waiting. */
  lemma {:induction false} OnlyPolled(c: Card, n: nat)
    requires c.Valid() && (c.phase == Idle || c.phase == AwaitWriteToken)
    ensures Exchange(c, Quiet(n)).0 == c && Exchange(c, Quiet(n)).1 == Quiet(n)
  {
    hide Exchange, Answer, Commit;
    if n == 0 {
      ExchangeSnoc(c, [], 0);
    } else {
      OnlyPolled(c, n - 1);
      ExchangeSnoc(c, Quiet(n - 1), IDLE);
    }
  }

  lemma QuietSplits(n: nat, k: nat)
    requires k <= n
    ensures Quiet(n)[..k] == Quiet(k) && Quiet(n)[k..] == Quiet(n - k) && Quiet(k) + Quiet(n - k) == Quiet(n)
  {
    AllQuiet(n);
    AllQuiet(k);
    AllQuiet(n - k);
    hide Quiet;
  }

  /** What follows a two-byte reply is silence. */
  lemma ShortReply(c: Card)
    requires c.Valid() && c.phase == Reply && |c.reply| == 2
    ensures Exchange(c, Quiet(517)).1 == c.reply + Quiet(515)
  {
    hide Exchange, Answer, Quiet, Transfer;
    QuietSplits(517, 2);
    ReplyDrained(c, Quiet(2));
    ExchangeConcat(c, Quiet(2), Quiet(515));
    OnlyPolled(Exchange(c, Quiet(2)).0, 515);
    assert c.reply[..2] == c.reply;
  }

  /** A read that follows CMD55 is taken for an application command, and no block is sent. */
  lemma ReadAfterAppCmd(c: Card)
    requires c.Valid() && c.phase == Idle && c.session.appCmdPending && BLOCK <= |c.blocks|
    ensures AllComplete([FirstBlock()], |c.blocks|) && !ActsAsMap(c, [FirstBlock()])
  {
    hide Exchange, BlockAt, Transfer, WithBlock, LastWritten, Quiet, Frame, ReadReply;
    var op := FirstBlock();
    var ops := [op];
    assert Number(op.arg) == 0 && op.Complete(|c.blocks|);
    FrameAnswered(c, 17, op.arg, op.crc);
    var answered := Answer(c.(arg := op.arg), 17);
    ShortReply(answered);
    ExchangeConcat(c, Frame(17, op.arg, op.crc), op.polls);
    assert ops[..0] == [];
    AnswerOf(c, ops, 0);
    AllQuiet(515);
    assert RunAll(c, ops).1[0][8] == IDLE;
    ReplyHasR1(LastWritten(c.blocks, ops[..0], 0));
  }

  /**
   * An idle card behaves as a map from block number to 512 bytes, whatever is asked of it, exactly
   * when neither a write is owed nor an application command announced.
   */
  lemma BlockMapIff(c: Card)
    requires c.Valid() && c.phase == Idle && BLOCK <= |c.blocks|
    ensures (forall ops :: AllComplete(ops, |c.blocks|) ==> ActsAsMap(c, ops)) <==>
            !c.writer.pending && !c.session.appCmdPending
  {
    hide ActsAsMap, AllComplete;
    if c.session.appCmdPending {
      ReadAfterAppCmd(c);
    } else if c.writer.pending {
      SecondReadUnheard(c);
    } else {
      forall ops | AllComplete(ops, |c.blocks|)
        ensures ActsAsMap(c, ops)
      {
        ReadyActsAsMap(c, ops);
      }
    }
  }

  lemma ReadyActsAsMap(c: Card, ops: seq<Op>)
    requires Ready(c) && AllComplete(ops, |c.blocks|)
    ensures ActsAsMap(c, ops)
  {
    hide RunAll, LastWritten, BlockAt, ReadReply, Number;
    forall k | 0 <= k < |ops| && ops[k].Read?
      ensures RunAll(c, ops).1[k] == ReadReply(LastWritten(c.blocks, ops[..k], Number(ops[k].arg)))
    {
      ReadReturnsLastWritten(c, ops, k);
    }
    forall m: nat | (m + 1) * BLOCK <= |c.blocks|
      ensures BlockAt(RunAll(c, ops).0.blocks, m) == LastWritten(c.blocks, ops, m)
    {
      CardIsABlockMap(c, ops, m);
    }
  }

  /** The card after CMD24 was abandoned by chip select and a read has followed. */
  function Stuck(c: Card, write: Op, read: Op): (d: Card)
    requires c.Valid() && |write.arg| == 4 && |read.arg| == 4
    ensures d.Valid() && |d.blocks| == |c.blocks|
  {
    Exchange(Deselect(Exchange(c, Frame(24, write.arg, write.crc) + write.polls).0), read.Bytes()).0
  }

  lemma StuckAwaitsData(c: Card, write: Op, read: Op)
    requires Ready(c) && write.Write? && write.Complete(|c.blocks|) && read.Read? && read.Complete(|c.blocks|)
    ensures var d := Stuck(c, write, read);
      && d.phase == AwaitWriteToken && d.blocks == c.blocks && d.writer.block == Number(write.arg)
  {
    hide Exchange, Number, Frame, BlockAt, Quiet;
    var d := CommandTaken(c, write);
    ReadExchange(Deselect(d), read);
  }

  /**
   * CMD24, then chip select released before the data: the next read still answers, but after it
   * everything is swallowed, commands included, up to the first start token; and the 512 bytes
   * behind that one, whatever they were meant for, overwrite the block of the abandoned write.
   */
  lemma AbandonedWriteTakesWhatFollows(c: Card, write: Op, read: Op, junk: seq<byte>, data: seq<byte>, crcs: seq<byte>,
                                       last: byte)
    requires Ready(c) && write.Write? && write.Complete(|c.blocks|) && read.Read? && read.Complete(|c.blocks|)
    requires TOKEN_START !in junk && |data| == BLOCK && |crcs| == 2
    ensures var stuck := Stuck(c, write, read);
      && Exchange(stuck, junk) == (stuck, Quiet(|junk|))
      && Exchange(stuck, junk + ([TOKEN_START] + data + crcs + [last])).0.blocks ==
         WithBlock(c.blocks, Number(write.arg), data)
  {
    hide Exchange, Number, Stuck, WithBlock, Quiet;
    StuckAwaitsData(c, write, read);
    var stuck := Stuck(c, write, read);
    TokenAwaited(stuck, junk);
    BlockCommitted(stuck, data, crcs, last);
    ExchangeConcat(stuck, junk, [TOKEN_START] + data + crcs + [last]);
  }

  /** Five bytes to an idle card are too few for a command. */
  lemma {:induction false} TooShortForACommand(c: Card, bs: seq<byte>)
    requires c.Valid() && c.phase == Idle && |bs| <= 5
    ensures var d := Exchange(c, bs).0;
      d.blocks == c.blocks && (d.phase == Idle || (d.phase.Command? && d.phase.taken < |bs|))
  {
    hide Answer, Commit;
    if bs != [] {
      TooShortForACommand(c, bs[..|bs| - 1]);
    }
  }

  /** So after an abandoned write, a read of block 254 changes the medium: its own argument is taken for the token. */
  lemma ReadOverwrites(c: Card, write: Op, read: Op, crc: byte, polls: seq<byte>)
    requires Ready(c) && write.Write? && write.Complete(|c.blocks|) && read.Read? && read.Complete(|c.blocks|)
    requires Read([0, 0, 0, TOKEN_START], crc, polls).Complete(|c.blocks|)
    ensures Exchange(Stuck(c, write, read), Read([0, 0, 0, TOKEN_START], crc, polls).Bytes()).0.blocks ==
            WithBlock(c.blocks, Number(write.arg), [crc] + polls[..511])
  {
    hide Exchange, Number, Stuck, WithBlock, Quiet;
    StuckAwaitsData(c, write, read);
    var stuck := Stuck(c, write, read);
    var junk := [64 + 17, 0, 0, 0];
    var data, crcs, last := [crc] + polls[..511], polls[511..513], polls[513];
    var first := junk + ([TOKEN_START] + data + crcs + [last]);
    TokenAwaited(stuck, junk);
    BlockCommitted(stuck, data, crcs, last);
    ExchangeConcat(stuck, junk, [TOKEN_START] + data + crcs + [last]);
    assert Read([0, 0, 0, TOKEN_START], crc, polls).Bytes() == first + polls[514..];
    ExchangeConcat(stuck, first, polls[514..]);
    TooShortForACommand(Exchange(stuck, first).0, polls[514..]);
  }
}
