/** Any sampling rate, any framing, any text: what the character display ends up showing. */
module CharLcdTheorems {
  import opened Bits
  import opened CharLcdSpec

  // ---- Text -------------------------------------------------------------------------------

  /** The last full line above the unfinished one. */
  function Layout(text: seq<byte>): Display {
    var q, r := |text| / COLS, |text| % COLS;
    if q == 0 then Display(Padded(text), Padded([]), r, 0)
    else Display(text[COLS * (q - 1)..COLS * q], Padded(text[COLS * q..]), r, 1)
  }

  lemma LayoutGrows(text: seq<byte>, c: byte)
    ensures Layout(text + [c]) == Written(Layout(text), c)
  {
    var q, r := |text| / COLS, |text| % COLS;
    var longer := text + [c];
    var tail := text[COLS * q..];
    assert longer[COLS * q..] == tail + [c];
    assert Padded(tail)[r := c] == Padded(tail + [c]);
    if r == COLS - 1 {
      assert |longer| / COLS == q + 1 && |longer| % COLS == 0;
      assert Padded(tail + [c]) == tail + [c];
      assert longer[COLS * (q + 1)..] == [];
      assert longer[COLS * q..COLS * (q + 1)] == tail + [c];
    } else {
      assert |longer| / COLS == q && |longer| % COLS == r + 1;
      if q > 0 {
        assert longer[COLS * (q - 1)..COLS * q] == text[COLS * (q - 1)..COLS * q];
      }
    }
    if q == 0 {
      assert tail == text && longer[0..] == longer;
    }
  }

  /** Text of any length, written from a cleared display. */
  lemma {:induction false} TextFlows(text: seq<byte>)
    ensures WrittenAll(Blank(), text) == Layout(text)
  {
    hide Written;
    if text == [] {
      assert Layout([]) == Blank();
    } else {
      var n := |text| - 1;
      TextFlows(text[..n]);
      LayoutGrows(text[..n], text[n]);
      assert text[..n] + [text[n]] == text;
    }
  }

  // ---- Sampling ---------------------------------------------------------------------------

  function Run(d: Decoder, w: seq<Sample>): (r: Decoder)
    requires d.Valid()
    ensures r.Valid()
  {
    if w == [] then d else Step(Run(d, w[..|w| - 1]), w[|w| - 1])
  }

  lemma {:induction false} RunAppends(d: Decoder, a: seq<Sample>, b: seq<Sample>)
    requires d.Valid()
    ensures Run(d, a + b) == Run(Run(d, a), b)
  {
    hide Step;
    if b == [] {
      assert a + b == a;
    } else {
      var n := |b| - 1;
      assert (a + b)[..|a| + n] == a + b[..n];
      RunAppends(d, a, b[..n]);
    }
  }

  /** Seeing a level once more changes nothing, except when chip select falls while the clock is high. */
  lemma RepeatSafeIff(d: Decoder, s: Sample)
    requires d.Valid()
    ensures Step(Step(d, s), s) == Step(d, s) <==> !(Falls(d, s) && s.sclk)
  {
  }

  function Copies(s: Sample, n: nat): seq<Sample> {
    if n == 0 then [] else Copies(s, n - 1) + [s]
  }

  /** Each held level seen so many times. */
  function Stretched(w: seq<Sample>, counts: seq<nat>): seq<Sample>
    requires |w| == |counts|
  {
    if w == [] then []
    else Stretched(w[..|w| - 1], counts[..|w| - 1]) + Copies(w[|w| - 1], counts[|w| - 1])
  }

  /** Whenever chip select falls, the clock is low. */
  predicate Clean(d: Decoder, w: seq<Sample>)
    requires d.Valid()
  {
    w == [] || (Clean(d, w[..|w| - 1]) && !(Falls(Run(d, w[..|w| - 1]), w[|w| - 1]) && w[|w| - 1].sclk))
  }

  lemma {:induction false} CopiesSettle(d: Decoder, s: Sample, n: nat)
    requires d.Valid() && n >= 1 && !(Falls(d, s) && s.sclk)
    ensures Run(d, Copies(s, n)) == Step(d, s)
  {
    var before := Copies(s, n - 1);
    assert (before + [s])[..|before|] == before;
    if n > 1 {
      CopiesSettle(d, s, n - 1);
      RepeatSafeIff(d, s);
    }
    hide Step;
  }

  /** How often the levels of a clean waveform are sampled does not matter, as long as each is seen. */
  lemma {:induction false} SamplingRateIrrelevant(d: Decoder, w: seq<Sample>, counts: seq<nat>)
    requires d.Valid() && Clean(d, w) && |w| == |counts|
    requires forall i :: 0 <= i < |counts| ==> counts[i] >= 1
    ensures Run(d, Stretched(w, counts)) == Run(d, w)
  {
    hide Step;
    if w != [] {
      var n := |w| - 1;
      SamplingRateIrrelevant(d, w[..n], counts[..n]);
      RunAppends(d, Stretched(w[..n], counts[..n]), Copies(w[n], counts[n]));
      CopiesSettle(Run(d, w[..n]), w[n], counts[n]);
    }
  }

  // ---- Frames -----------------------------------------------------------------------------

  /** One bit as the transmitter holds it: data, clock up, clock down. */
  function BitWave(b: bool): seq<Sample> {
    [Sample(false, false, b), Sample(false, true, b), Sample(false, false, b)]
  }

  function BitsWave(bits: seq<bool>): seq<Sample> {
    if bits == [] then [] else BitsWave(bits[..|bits| - 1]) + BitWave(bits[|bits| - 1])
  }

  /** Where a frame leaves DATA: at its last bit. */
  function LeftAt(payload: seq<byte>, idle: bool): bool {
    var bits := Serial(payload);
    if bits == [] then idle else bits[|bits| - 1]
  }

  /** Chip select down, the payload most significant bit first, chip select up. */
  function FrameWave(payload: seq<byte>, idle: bool): seq<Sample> {
    var bits := Serial(payload);
    [Sample(false, false, idle)] + BitsWave(bits) + [Sample(true, false, LeftAt(payload, idle))]
  }

  /** The frame register after these bits. */
  function Received(bits: seq<bool>): Frame {
    Frame(true, ByteOf(Partial(bits)), |bits| % 8, Bytes(bits))
  }

  predicate Listening(d: Decoder, display: Display, bits: seq<bool>) {
    && d.display == display && d.frame == Received(bits)
    && d.prev.Some? && !d.prev.value.cs && !d.prev.value.sclk
  }

  lemma ReceivedNext(bits: seq<bool>, b: bool)
    ensures Received(bits + [b]) == Shifted(Received(bits), b)
  {
    BytesSnoc(bits, b);
    var p := Partial(bits);
    assert (p + [b])[..|p|] == p;
    hide Bytes, Partial, ShiftIn;
  }

  lemma BitTaken(d: Decoder, display: Display, bits: seq<bool>, b: bool)
    requires d.Valid() && Listening(d, display, bits)
    ensures Listening(Run(d, BitWave(b)), display, bits + [b]) && Clean(d, BitWave(b))
  {
    ReceivedNext(bits, b);
    var s0, s1, s2 := Sample(false, false, b), Sample(false, true, b), Sample(false, false, b);
    var w := [s0, s1, s2];
    assert w[..2] == [s0, s1] && [s0, s1][..1] == [s0] && [s0][..0] == [];
    hide Received, Shifted, Applied;
    assert Run(d, [s0]) == Step(d, s0);
    assert Run(d, [s0, s1]) == Step(Step(d, s0), s1);
    assert Run(d, w) == Step(Step(Step(d, s0), s1), s2);
    assert Clean(d, [s0]) && Clean(d, [s0, s1]);
  }

  lemma {:induction false} CleanAppends(d: Decoder, a: seq<Sample>, b: seq<Sample>)
    requires d.Valid() && Clean(d, a) && Clean(Run(d, a), b)
    ensures Clean(d, a + b)
  {
    if b == [] {
      assert a + b == a;
    } else {
      var n := |b| - 1;
      assert (a + b)[..|a| + n] == a + b[..n];
      CleanAppends(d, a, b[..n]);
      RunAppends(d, a, b[..n]);
    }
  }

  lemma {:induction false} BitsTaken(d: Decoder, display: Display, bits: seq<bool>)
    requires d.Valid() && Listening(d, display, [])
    ensures Listening(Run(d, BitsWave(bits)), display, bits) && Clean(d, BitsWave(bits))
  {
    hide Listening, Falls, Step, BitWave;
    if bits != [] {
      var n := |bits| - 1;
      BitsTaken(d, display, bits[..n]);
      var mid := Run(d, BitsWave(bits[..n]));
      BitTaken(mid, display, bits[..n], bits[n]);
      assert bits[..n] + [bits[n]] == bits;
      RunAppends(d, BitsWave(bits[..n]), BitWave(bits[n]));
      CleanAppends(d, BitsWave(bits[..n]), BitWave(bits[n]));
    }
  }

  /** Between frames: chip select high. */
  predicate Resting(d: Decoder) {
    d.prev.Some? && d.prev.value.cs
  }

  /** One frame on the wire is one command to the display. */
  lemma FrameIsCommand(d: Decoder, payload: seq<byte>, idle: bool)
    requires d.Valid() && Resting(d)
    ensures var r := Run(d, FrameWave(payload, idle));
            && r.display == Applied(d.display, payload) && Resting(r)
            && Clean(d, FrameWave(payload, idle))
  {
    var bits := Serial(payload);
    var down, up := Sample(false, false, idle), Sample(true, false, LeftAt(payload, idle));
    var body := BitsWave(bits);
    var opened_ := Step(d, down);
    assert [down][..0] == [] && [up][..0] == [];
    assert Run(d, [down]) == opened_ && Clean(d, [down]);
    assert Received([]) == Frame(true, 0, 0, []);
    BitsTaken(opened_, d.display, bits);
    RunAppends(d, [down], body);
    CleanAppends(d, [down], body);
    var mid := Run(opened_, body);
    assert Run(mid, [up]) == Step(mid, up) && Clean(mid, [up]);
    RunAppends(d, [down] + body, [up]);
    CleanAppends(d, [down] + body, [up]);
    BytesOfSerial(payload);
  }

  function DataAfter(idle: bool, frames: seq<seq<byte>>): bool {
    if frames == [] then idle else LeftAt(frames[|frames| - 1], DataAfter(idle, frames[..|frames| - 1]))
  }

  /** Frame after frame; between them DATA stays where the frame before left it. */
  function Session(idle: bool, frames: seq<seq<byte>>): seq<Sample> {
    if frames == [] then []
    else
      var n := |frames| - 1;
      Session(idle, frames[..n]) + FrameWave(frames[n], DataAfter(idle, frames[..n]))
  }

  function AppliedAll(d: Display, frames: seq<seq<byte>>): Display {
    if frames == [] then d else Applied(AppliedAll(d, frames[..|frames| - 1]), frames[|frames| - 1])
  }

  lemma {:induction false} SessionIsCommands(d: Decoder, idle: bool, frames: seq<seq<byte>>)
    requires d.Valid() && Resting(d)
    ensures var r := Run(d, Session(idle, frames));
            && r.display == AppliedAll(d.display, frames) && Resting(r)
            && Clean(d, Session(idle, frames))
  {
    hide FrameWave, Applied, Resting, DataAfter;
    if frames != [] {
      var n := |frames| - 1;
      var data := DataAfter(idle, frames[..n]);
      SessionIsCommands(d, idle, frames[..n]);
      FrameIsCommand(Run(d, Session(idle, frames[..n])), frames[n], data);
      RunAppends(d, Session(idle, frames[..n]), FrameWave(frames[n], data));
      CleanAppends(d, Session(idle, frames[..n]), FrameWave(frames[n], data));
    }
  }

  /** The transmitter's frames, sampled at any rate that sees every level, drive the display as commands do. */
  lemma AnySamplingDrivesDisplay(d: Decoder, idle: bool, frames: seq<seq<byte>>, counts: seq<nat>)
    requires d.Valid() && Resting(d) && |counts| == |Session(idle, frames)|
    requires forall i :: 0 <= i < |counts| ==> counts[i] >= 1
    ensures Run(d, Stretched(Session(idle, frames), counts)).display == AppliedAll(d.display, frames)
  {
    SessionIsCommands(d, idle, frames);
    SamplingRateIrrelevant(d, Session(idle, frames), counts);
  }

  lemma {:induction false} DeafUntilReleased(w: seq<Sample>)
    requires w != [] && forall i :: 0 <= i < |w| ==> !w[i].cs
    ensures Run(Start(), w) == Decoder(Blank(), Some(w[|w| - 1]), Frame(false, 0, 0, []))
  {
    if |w| > 1 {
      DeafUntilReleased(w[..|w| - 1]);
    } else {
      assert w[..0] == [];
    }
  }

  /**
   * From power-up: nothing is heard until chip select is seen released, whatever the wire does before;
   * from then on frames are commands to a blank display, and the cursor never leaves its forty cells.
   */
  lemma FromPowerUp(before: seq<Sample>, up: Sample, idle: bool, frames: seq<seq<byte>>, counts: seq<nat>)
    requires up.cs && forall i :: 0 <= i < |before| ==> !before[i].cs
    requires |counts| == |Session(idle, frames)| && forall i :: 0 <= i < |counts| ==> counts[i] >= 1
    ensures var d := Run(Start(), before + [up]);
            var shown := Run(d, Stretched(Session(idle, frames), counts)).display;
            && shown == AppliedAll(Display(Padded([]), Padded([]), 0, 0), frames)
            && shown.col < 20 && shown.row < 2
  {
    hide Session, Stretched, AppliedAll;
    assert (before + [up])[..|before|] == before;
    if before != [] {
      DeafUntilReleased(before);
    }
    AnySamplingDrivesDisplay(Run(Start(), before + [up]), idle, frames, counts);
  }

  /** From any display, a clear and then one write show the text laid out from the top. */
  lemma ClearThenWriteShows(d: Decoder, idle: bool, text: seq<byte>, counts: seq<nat>)
    requires d.Valid() && Resting(d)
    requires |counts| == |Session(idle, [[0x01], [0x03] + text])|
    requires forall i :: 0 <= i < |counts| ==> counts[i] >= 1
    ensures Run(d, Stretched(Session(idle, [[0x01], [0x03] + text]), counts)).display == Layout(text)
  {
    hide Session, Stretched, Run;
    var frames: seq<seq<byte>> := [[0x01], [0x03] + text];
    AnySamplingDrivesDisplay(d, idle, frames, counts);
    assert frames[..1] == [[0x01]] && frames[..1][..0] == [];
    assert AppliedAll(d.display, frames[..1]) == Blank();
    assert ([0x03] + text)[1..] == text;
    TextFlows(text);
  }

  // ---- The cursor -------------------------------------------------------------------------

  function LineOf(d: Display, row: nat): Line {
    if row == 0 then d.upper else d.lower
  }

  /** A clear frame leaves forty spaces and the cursor at home, whatever follows its opcode. */
  lemma ClearLeavesSpaces(d: Display, rest: seq<byte>, i: nat)
    requires i < 20
    ensures var e := Applied(d, [0x01] + rest);
            e.upper[i] == ' ' as int && e.lower[i] == ' ' as int && (e.col, e.row) == (0, 0)
  {
  }

  /** What a short frame leaves out counts as zero; any other opcode does nothing, nor does an empty frame. */
  lemma ShortAndUnknownFrames(d: Display, col: byte, opcode: byte, rest: seq<byte>)
    requires opcode !in {0x01, 0x02, 0x03}
    ensures Applied(d, [0x02]) == d.(col := 0, row := 0)
    ensures Applied(d, [0x02, col]) == d.(col := if col < 20 then col else 19, row := 0)
    ensures Applied(d, [opcode] + rest) == d && Applied(d, []) == d
  {
  }

  /**
   * A set-cursor frame names the column and then the row, each held to the display; the next
   * character lands there and nothing else changes, but in the last cell of all it scrolls up.
   */
  lemma CursorThenCharacter(d: Display, col: byte, row: byte, c: byte)
    requires d.InRange()
    ensures var x, y := if col < 20 then col else 19, if row == 0 then 0 else 1;
            var placed := Applied(d, [0x02, col, row]);
            && placed == d.(col := x, row := y)
            && var shown := Applied(placed, [0x03, c]);
               if x == 19 && y == 1 then shown == Display(d.lower[19 := c], Padded([]), 0, 1)
               else
                 && LineOf(shown, y) == LineOf(d, y)[x := c] && LineOf(shown, 1 - y) == LineOf(d, 1 - y)
                 && (shown.col, shown.row) == if x == 19 then (0, 1) else (x + 1, y)
  {
    var placed := Applied(d, [0x02, col, row]);
    assert [0x03, c][1..] == [c] && [c][..0] == [];
    assert WrittenAll(placed, [c]) == Written(WrittenAll(placed, []), c);
    assert Applied(placed, [0x03, c]) == Written(placed, c);
  }

  /** And so on the wire: the two frames, sampled at any rate that sees every level. */
  lemma CursorFramesShow(d: Decoder, idle: bool, col: byte, row: byte, c: byte, counts: seq<nat>)
    requires d.Valid() && Resting(d)
    requires |counts| == |Session(idle, [[0x02, col, row], [0x03, c]])|
    requires forall i :: 0 <= i < |counts| ==> counts[i] >= 1
    ensures Run(d, Stretched(Session(idle, [[0x02, col, row], [0x03, c]]), counts)).display ==
            Applied(Applied(d.display, [0x02, col, row]), [0x03, c])
  {
    hide Session, Stretched, Run, Applied;
    var frames: seq<seq<byte>> := [[0x02, col, row], [0x03, c]];
    AnySamplingDrivesDisplay(d, idle, frames, counts);
    var first := frames[..1];
    assert first == [[0x02, col, row]] && first[..0] == [];
    assert AppliedAll(d.display, first) == Applied(AppliedAll(d.display, first[..0]), first[0]);
    assert AppliedAll(d.display, frames) == Applied(AppliedAll(d.display, first), frames[1]);
  }
}
