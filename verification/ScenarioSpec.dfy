/** Timed scripts of input and screen checks: what one observation of the machine makes of a step. */
module ScenarioSpec {
  import opened Bits
  import KeyboardSpec
  import PanelSpec
  import Sha256Spec

  type u16 = PanelSpec.u16
  type KeyEvent = KeyboardSpec.KeyEvent

  const MS := 1_000_000
  const VIEWPORT := 320

  datatype Area = Area(x: nat, y: nat, w: nat, h: nat)

  /** Regions are checked against the viewport when a scenario is read. */
  type Rect = r: Area | 1 <= r.w && 1 <= r.h && r.x + r.w <= VIEWPORT && r.y + r.h <= VIEWPORT witness Area(0, 0, 1, 1)

  datatype PixelTest = Equals(colour: u16) | Differs(colour: u16)

  datatype Condition =
    | Pixel(x: nat, y: nat, test: PixelTest)
    | RegionNonBlack(rect: Rect, min: Option<nat>, max: Option<nat>)
    | RegionHash(rect: Rect, digest: string)
    | RegionStable(rect: Rect, forMs: nat)
    | RegionChanged(rect: Rect)
    | UartContains(text: seq<byte>)

  datatype Op =
    | Wait(ms: nat)
    | WaitCycles(cycles: nat)
    | WaitUntil(condition: Condition, timeoutMs: nat)
    | Key(text: seq<byte>, repeat: nat, gapMs: nat)
    | KeyEvents(events: seq<KeyEvent>, gapMs: nat)
    | Snapshot(png: bool)
    | Assert(condition: Condition)

  type Positive = n: nat | 1 <= n witness 1

  datatype Scenario = Scenario(pollMs: Positive, steps: seq<Op>)

  /** The machine at one poll; the frame memory is absent when no panel is attached. */
  datatype Observation = Observation(nowNs: nat, cycles: nat, lcd: Option<seq<u16>>, keyboard: bool, uart: seq<byte>,
                                     pngWritable: bool)
  {
    predicate Valid() {
      lcd.Some? ==> |lcd.value| == PanelSpec.CELLS
    }
  }

  // ---- Looking at the screen --------------------------------------------------------------

  /** The first n pixels of a row, little-endian. */
  function RowBytes(gram: seq<u16>, x: nat, y: nat, n: nat): (bytes: seq<byte>)
    requires |gram| == PanelSpec.CELLS
    ensures |bytes| == 2 * n
  {
    if n == 0 then []
    else
      var px := PanelSpec.CellAt(gram, x + n - 1, y);
      RowBytes(gram, x, y, n - 1) + [px % 256, px / 256]
  }

  /** The first h rows of a region. */
  function RowsBytes(gram: seq<u16>, r: Rect, h: nat): (bytes: seq<byte>)
    requires |gram| == PanelSpec.CELLS
    ensures |bytes| == h * (2 * r.w)
  {
    if h == 0 then [] else RowsBytes(gram, r, h - 1) + RowBytes(gram, r.x, r.y + h - 1, r.w)
  }

  function RegionBytes(gram: seq<u16>, r: Rect): seq<byte>
    requires |gram| == PanelSpec.CELLS
  {
    RowsBytes(gram, r, r.h)
  }

  function Lit(gram: seq<u16>, x: nat, y: nat): nat
    requires |gram| == PanelSpec.CELLS
  {
    if PanelSpec.CellAt(gram, x, y) != 0 then 1 else 0
  }

  function RowLit(gram: seq<u16>, x: nat, y: nat, n: nat): nat
    requires |gram| == PanelSpec.CELLS
  {
    if n == 0 then 0 else RowLit(gram, x, y, n - 1) + Lit(gram, x + n - 1, y)
  }

  function RegionLit(gram: seq<u16>, r: Rect, h: nat): nat
    requires |gram| == PanelSpec.CELLS
  {
    if h == 0 then 0 else RegionLit(gram, r, h - 1) + RowLit(gram, r.x, r.y + h - 1, r.w)
  }

  function Fingerprint(gram: seq<u16>, r: Rect): string
    requires |gram| == PanelSpec.CELLS
  {
    Sha256Spec.HexOf(Sha256Spec.Digest(RegionBytes(gram, r)))
  }

  predicate StartsAt(needle: seq<byte>, hay: seq<byte>, i: nat) {
    i + |needle| <= |hay| && hay[i..i + |needle|] == needle
  }

  /** A nonempty byte string occurs in another. */
  predicate Occurs(needle: seq<byte>, hay: seq<byte>) {
    needle != [] && exists i :: 0 <= i <= |hay| && StartsAt(needle, hay, i)
  }

  // ---- Conditions -------------------------------------------------------------------------

  /** What a step remembers of earlier polls. */
  datatype History = History(last: Option<string>, stableSinceNs: nat, baseline: Option<string>)

  const NO_HISTORY := History(None, 0, None)

  function Since(later: nat, earlier: nat): nat {
    if earlier <= later then later - earlier else 0
  }

  predicate NeedsLcd(c: Condition) {
    !c.UartContains?
  }

  predicate Unrunnable(c: Condition, obs: Observation) {
    NeedsLcd(c) && obs.lcd.None?
  }

  /** Only the two stateful conditions touch the history. */
  function Remembered(c: Condition, obs: Observation, past: History): History
    requires obs.Valid() && !Unrunnable(c, obs)
  {
    match c
    case RegionStable(rect, _) =>
      var got := Fingerprint(obs.lcd.value, rect);
      if past.last == Some(got) then past else past.(last := Some(got), stableSinceNs := obs.nowNs)
    case RegionChanged(rect) =>
      if past.baseline.Some? then past else past.(baseline := Some(Fingerprint(obs.lcd.value, rect)))
    case _ => past
  }

  predicate Holds(c: Condition, obs: Observation, past: History)
    requires obs.Valid() && !Unrunnable(c, obs)
  {
    match c
    case Pixel(x, y, test) =>
      (match test
       case Equals(want) => PanelSpec.CellAt(obs.lcd.value, x, y) == want
       case Differs(avoid) => PanelSpec.CellAt(obs.lcd.value, x, y) != avoid)
    case RegionNonBlack(rect, min, max) =>
      min.GetOr(0) <= RegionLit(obs.lcd.value, rect, rect.h) &&
      (max.Some? ==> RegionLit(obs.lcd.value, rect, rect.h) <= max.value)
    case RegionHash(rect, digest) => Fingerprint(obs.lcd.value, rect) == digest
    case RegionStable(_, forMs) => forMs <= Since(obs.nowNs, Remembered(c, obs, past).stableSinceNs) / MS
    case RegionChanged(rect) => Some(Fingerprint(obs.lcd.value, rect)) != Remembered(c, obs, past).baseline
    case UartContains(text) => Occurs(text, obs.uart)
  }

  // ---- Steps ------------------------------------------------------------------------------

  /** The queues are kept newest first: the next character or event is at the end. */
  datatype Pending =
    | Fresh
    | Waiting(untilNs: nat)
    | Counting(untilCycles: nat)
    | Watching(deadlineNs: nat, history: History)
    | Typing(chars: seq<byte>, nextAtNs: nat)
    | Replaying(events: seq<KeyEvent>, nextAtNs: nat)

  datatype StepStatus = Pass | Fail | Incomplete

  datatype Progress = Blocked | Finished(status: StepStatus) | Faulted

  /** What one look at the machine does to the step under way, and the keys it sends. */
  datatype Advance = Advance(pending: Pending, nextPollNs: nat, progress: Progress, keys: seq<KeyEvent>)

  function PressRelease(code: byte): seq<KeyEvent> {
    [KeyboardSpec.KeyEvent(KeyboardSpec.Pressed, code), KeyboardSpec.KeyEvent(KeyboardSpec.Released, code)]
  }

  function Strokes(codes: seq<byte>): seq<KeyEvent> {
    if codes == [] then [] else PressRelease(codes[0]) + Strokes(codes[1..])
  }

  function Repeated(text: seq<byte>, n: nat): seq<byte> {
    if n == 0 then [] else Repeated(text, n - 1) + text
  }

  function Reversed<T>(s: seq<T>): seq<T> {
    if s == [] then [] else [s[|s| - 1]] + Reversed(s[..|s| - 1])
  }

  function TypeWait(queue: seq<byte>, nextAtNs: nat, nowNs: nat, gapNs: nat, nextPollNs: nat): Advance {
    if queue == [] then Advance(Typing([], nextAtNs), nextPollNs, Finished(Pass), [])
    else if nowNs < nextAtNs then Advance(Typing(queue, nextAtNs), nextAtNs, Blocked, [])
    else if gapNs == 0 then Advance(Typing([], nowNs), nextPollNs, Finished(Pass), Strokes(Reversed(queue)))
    else
      var n := |queue| - 1;
      var rest := Typing(queue[..n], nowNs + gapNs);
      if n == 0 then Advance(rest, nextPollNs, Finished(Pass), PressRelease(queue[n]))
      else Advance(rest, nowNs + gapNs, Blocked, PressRelease(queue[n]))
  }

  /** The event is taken off the queue before its time is checked, so an early poll loses it. */
  function ReplayWait(queue: seq<KeyEvent>, nextAtNs: nat, nowNs: nat, gapNs: nat, nextPollNs: nat): Advance {
    if queue == [] then Advance(Replaying([], nextAtNs), nextPollNs, Finished(Pass), [])
    else
      var n := |queue| - 1;
      if nowNs < nextAtNs then Advance(Replaying(queue[..n], nextAtNs), nextAtNs, Blocked, [])
      else if gapNs == 0 then Advance(Replaying([], nowNs), nextPollNs, Finished(Pass), Reversed(queue))
      else
        var rest := Replaying(queue[..n], nowNs + gapNs);
        if n == 0 then Advance(rest, nextPollNs, Finished(Pass), [queue[n]])
        else Advance(rest, nowNs + gapNs, Blocked, [queue[n]])
  }

  function Watch(c: Condition, obs: Observation, deadlineNs: nat, past: History, pollMs: nat, nextPollNs: nat): Advance
    requires obs.Valid()
  {
    if Unrunnable(c, obs) then Advance(Watching(deadlineNs, past), nextPollNs, Faulted, [])
    else
      var watching := Watching(deadlineNs, Remembered(c, obs, past));
      var cadence := obs.nowNs + pollMs * MS;
      if Holds(c, obs, past) then Advance(watching, nextPollNs, Finished(Pass), [])
      else if deadlineNs <= obs.nowNs then Advance(watching, nextPollNs, Finished(Fail), [])
      else Advance(watching, if cadence < deadlineNs then cadence else deadlineNs, Blocked, [])
  }

  /** One look at the machine while a step is under way. */
  function Advanced(op: Op, pending: Pending, nextPollNs: nat, obs: Observation, pollMs: nat): Advance
    requires obs.Valid()
  {
    match op
    case Wait(ms) =>
      var until := if pending.Waiting? then pending.untilNs else obs.nowNs + ms * MS;
      if until <= obs.nowNs then
        Advance(Waiting(until), if pending.Waiting? then nextPollNs else until, Finished(Pass), [])
      else Advance(Waiting(until), until, Blocked, [])
    case WaitCycles(cycles) =>
      if pending.Counting? && pending.untilCycles <= obs.cycles then Advance(pending, nextPollNs, Finished(Pass), [])
      else
        Advance(if pending.Counting? then pending else Counting(obs.cycles + cycles),
                obs.nowNs + pollMs * MS, Blocked, [])
    case WaitUntil(condition, timeoutMs) =>
      if pending.Watching? then Watch(condition, obs, pending.deadlineNs, pending.history, pollMs, nextPollNs)
      else Watch(condition, obs, obs.nowNs + timeoutMs * MS, NO_HISTORY, pollMs, nextPollNs)
    case Key(text, repeat, gapMs) =>
      if !obs.keyboard then Advance(pending, nextPollNs, Faulted, [])
      else if pending.Typing? then TypeWait(pending.chars, pending.nextAtNs, obs.nowNs, gapMs * MS, nextPollNs)
      else TypeWait(Reversed(Repeated(text, repeat)), obs.nowNs, obs.nowNs, gapMs * MS, nextPollNs)
    case KeyEvents(events, gapMs) =>
      if !obs.keyboard then Advance(pending, nextPollNs, Faulted, [])
      else if pending.Replaying? then ReplayWait(pending.events, pending.nextAtNs, obs.nowNs, gapMs * MS, nextPollNs)
      else ReplayWait(Reversed(events), obs.nowNs, obs.nowNs, gapMs * MS, nextPollNs)
    case Snapshot(png) =>
      Advance(pending, nextPollNs, if obs.lcd.None? || (png && !obs.pngWritable) then Faulted else Finished(Pass), [])
    case Assert(condition) =>
      Advance(pending, nextPollNs,
              if Unrunnable(condition, obs) then Faulted
              else if Holds(condition, obs, NO_HISTORY) then Finished(Pass)
              else Finished(Fail), [])
  }

  // ---- The engine -------------------------------------------------------------------------

  datatype StepResult = StepResult(index: nat, status: StepStatus, atMs: nat, atCycles: nat)

  datatype Outcome = Outcome(failed: bool, done: bool, truncated: bool, fault: bool)

  datatype Engine = Engine(index: nat, pending: Pending, results: seq<StepResult>, outcome: Outcome, nextPollNs: nat)
  {
    predicate Passed() {
      outcome == Outcome(false, true, false, false)
    }
  }

  const READY := Engine(0, Fresh, [], Outcome(false, false, false, false), 0)

  datatype Status = ErrorStatus | IncompleteStatus | FailStatus | PassStatus

  function StatusOf(o: Outcome): Status {
    if o.fault then ErrorStatus
    else if o.truncated then IncompleteStatus
    else if o.failed then FailStatus
    else if o.done then PassStatus
    else IncompleteStatus
  }

  function ResultOf(index: nat, status: StepStatus, obs: Observation): StepResult {
    StepResult(index, status, obs.nowNs / MS, obs.cycles)
  }

  function Recorded(e: Engine, status: StepStatus, obs: Observation): Engine {
    e.(results := e.results + [ResultOf(e.index, status, obs)])
  }

  /** A finished step is recorded and the next one starts fresh; a fault ends the scenario. */
  function Entered(e: Engine, a: Advance, obs: Observation): Engine {
    var moved := e.(pending := a.pending, nextPollNs := a.nextPollNs);
    match a.progress
    case Blocked => moved
    case Finished(status) =>
      Recorded(moved, status, obs).(index := e.index + 1, pending := Fresh,
                                    outcome := if status.Fail? then e.outcome.(failed := true) else e.outcome)
    case Faulted =>
      Recorded(moved, Fail, obs).(outcome := e.outcome.(failed := true, fault := true, done := true))
  }

  function Polled(s: Scenario, e: Engine, obs: Observation): (r: (Engine, seq<KeyEvent>))
    requires obs.Valid()
    decreases |s.steps| - e.index
  {
    if e.outcome.done then (e, [])
    else if |s.steps| <= e.index then (e.(outcome := e.outcome.(done := true)), [])
    else
      var a := Advanced(s.steps[e.index], e.pending, e.nextPollNs, obs, s.pollMs);
      var entered := Entered(e, a, obs);
      if !a.progress.Finished? then (entered, a.keys)
      else
        var rest := Polled(s, entered, obs);
        (rest.0, a.keys + rest.1)
  }

  /** The run ended: every step not finished is recorded as incomplete. */
  function Abandoned(s: Scenario, index: nat, obs: Observation): seq<StepResult>
    decreases |s.steps| - index
  {
    if |s.steps| <= index then [] else [ResultOf(index, Incomplete, obs)] + Abandoned(s, index + 1, obs)
  }

  function FinishedIncomplete(s: Scenario, e: Engine, obs: Observation): Engine {
    if e.outcome.done then e
    else
      e.(results := e.results + Abandoned(s, e.index, obs),
         index := if e.index < |s.steps| then |s.steps| else e.index,
         outcome := e.outcome.(truncated := true, done := true))
  }
}
