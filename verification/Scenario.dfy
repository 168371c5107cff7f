/** The scenario engine as the object the run loop polls. */
module ScenarioEngine {
  import opened Bits
  import opened ScenarioSpec
  import KeyboardSpec
  import PanelSpec
  import Sha256
  import Sha256Spec
  import Arith
  import opened KeyboardDevice
  import opened KeyboardTheorems

  // ---- Looking at the screen --------------------------------------------------------------

  method ReadRegion(gram: seq<u16>, r: Rect) returns (out: seq<byte>)
    requires |gram| == PanelSpec.CELLS
    ensures out == RegionBytes(gram, r)
  {
    hide PanelSpec.CellAt;
    out := [];
    for row := 0 to r.h
      invariant out == RowsBytes(gram, r, row)
    {
      ghost var above := out;
      for col := 0 to r.w
        invariant out == above + RowBytes(gram, r.x, r.y + row, col)
      {
        var px := PanelSpec.CellAt(gram, r.x + col, r.y + row);
        out := out + [px % 256, px / 256];
      }
    }
  }

  method CountLit(gram: seq<u16>, r: Rect) returns (n: nat)
    requires |gram| == PanelSpec.CELLS
    ensures n == RegionLit(gram, r, r.h)
  {
    n := 0;
    for row := 0 to r.h
      invariant n == RegionLit(gram, r, row)
    {
      ghost var above := n;
      for col := 0 to r.w
        invariant n == above + RowLit(gram, r.x, r.y + row, col)
      {
        if PanelSpec.CellAt(gram, r.x + col, r.y + row) != 0 {
          n := n + 1;
        }
      }
    }
  }

  lemma RegionSize(gram: seq<u16>, r: Rect)
    requires |gram| == PanelSpec.CELLS
    ensures |RegionBytes(gram, r)| <= 640 * VIEWPORT
  {
    Arith.MulMonotone(r.h, VIEWPORT, 2 * r.w);
    Arith.MulMonotone(2 * r.w, 640, VIEWPORT);
  }

  method Hashed(gram: seq<u16>, r: Rect) returns (digest: string)
    requires |gram| == PanelSpec.CELLS
    ensures digest == Fingerprint(gram, r)
  {
    hide Sha256Spec.Digest, Sha256Spec.HexOf;
    var bytes := ReadRegion(gram, r);
    RegionSize(gram, r);
    digest := Sha256.Sha256Hex(bytes);
  }

  method Finds(needle: seq<byte>, hay: seq<byte>) returns (found: bool)
    ensures found == Occurs(needle, hay)
  {
    if needle == [] {
      return false;
    }
    var i := 0;
    while i + |needle| <= |hay|
      invariant forall j :: 0 <= j < i ==> !StartsAt(needle, hay, j)
    {
      if hay[i..i + |needle|] == needle {
        assert StartsAt(needle, hay, i);
        return true;
      }
      i := i + 1;
    }
    return false;
  }

  /** The verdict on one condition, and the history it leaves; None when there is no panel to look at. */
  method Evaluate(c: Condition, obs: Observation, past: History) returns (holds: Option<bool>, history: History)
    requires obs.Valid()
    ensures holds.None? <==> Unrunnable(c, obs)
    ensures holds.Some? ==> holds.value == Holds(c, obs, past) && history == Remembered(c, obs, past)
    ensures holds.None? ==> history == past
  {
    hide Fingerprint, RegionLit, Occurs;
    history := past;
    if NeedsLcd(c) && obs.lcd.None? {
      return None, history;
    }
    match c
    case Pixel(x, y, test) =>
      var px := PanelSpec.CellAt(obs.lcd.value, x, y);
      holds := Some(match test case Equals(want) => px == want case Differs(avoid) => px != avoid);
    case RegionNonBlack(rect, min, max) =>
      var count := CountLit(obs.lcd.value, rect);
      holds := Some((min.Some? ==> min.value <= count) && (max.Some? ==> count <= max.value));
    case RegionHash(rect, digest) =>
      var got := Hashed(obs.lcd.value, rect);
      holds := Some(got == digest);
    case RegionStable(rect, forMs) =>
      var got := Hashed(obs.lcd.value, rect);
      if history.last != Some(got) {
        history := history.(last := Some(got), stableSinceNs := obs.nowNs);
      }
      var heldNs := Since(obs.nowNs, history.stableSinceNs);
      holds := Some(forMs <= heldNs / MS);
    case RegionChanged(rect) =>
      var got := Hashed(obs.lcd.value, rect);
      if history.baseline.None? {
        history := history.(baseline := Some(got));
      }
      holds := Some(history.baseline != Some(got));
    case UartContains(text) =>
      var found := Finds(text, obs.uart);
      holds := Some(found);
  }

  // ---- Queues -----------------------------------------------------------------------------

  lemma StrokesPop(s: seq<byte>)
    requires s != []
    ensures Strokes(Reversed(s)) == PressRelease(s[|s| - 1]) + Strokes(Reversed(s[..|s| - 1]))
  {
    var rest := Reversed(s[..|s| - 1]);
    assert ([s[|s| - 1]] + rest)[1..] == rest;
  }

  lemma {:induction false} PushAllAppends(c: KeyboardSpec.Controller, a: seq<KeyEvent>, b: seq<KeyEvent>)
    requires c.Valid()
    ensures PushAll(c, a + b) == PushAll(PushAll(c, a), b)
  {
    hide KeyboardSpec.Push;
    if b == [] {
      assert a + b == a;
    } else {
      var n := |b| - 1;
      assert (a + b)[..|a| + n] == a + b[..n];
      PushAllAppends(c, a, b[..n]);
    }
  }

  lemma PushAllOne(c: KeyboardSpec.Controller, e: KeyEvent)
    requires c.Valid()
    ensures PushAll(c, []) == c && PushAll(c, [e]) == KeyboardSpec.Push(c, e)
  {
    hide KeyboardSpec.Push;
    assert [e][..0] == [];
  }

  lemma PushAllPair(c: KeyboardSpec.Controller, code: byte)
    requires c.Valid()
    ensures PushAll(c, PressRelease(code)) ==
      KeyboardSpec.Push(KeyboardSpec.Push(c, PressRelease(code)[0]), PressRelease(code)[1])
  {
    hide KeyboardSpec.Push;
    var p := PressRelease(code);
    PushAllOne(c, p[0]);
    assert p[..1] == [p[0]];
  }

  /** An advance with keys that were already sent in front. */
  function Preceded(sent: seq<KeyEvent>, a: Advance): Advance {
    a.(keys := sent + a.keys)
  }

  lemma TypedOne(sent: seq<KeyEvent>, queue: seq<byte>, nextAtNs: nat, nowNs: nat, gapNs: nat, nextPollNs: nat)
    requires queue != [] && nextAtNs <= nowNs
    ensures var n := |queue| - 1;
            var now := Preceded(sent, TypeWait(queue, nextAtNs, nowNs, gapNs, nextPollNs));
            var keys := sent + PressRelease(queue[n]);
            if gapNs > 0 && n > 0 then
              now == ScenarioSpec.Advance(Typing(queue[..n], nowNs + gapNs), nowNs + gapNs, Blocked, keys)
            else now == Preceded(keys, TypeWait(queue[..n], nowNs + gapNs, nowNs, gapNs, nextPollNs))
  {
    hide Strokes;
    var n := |queue| - 1;
    StrokesPop(queue);
    var one, rest := PressRelease(queue[n]), Strokes(Reversed(queue[..n]));
    assert sent + (one + rest) == (sent + one) + rest;
    if n == 0 {
      NoStrokes();
      assert one + [] == one;
      assert (sent + one) + [] == sent + one;
    }
  }

  lemma NoStrokes()
    ensures Strokes(Reversed([])) == []
  {
  }

  lemma ReplayedOne(sent: seq<KeyEvent>, queue: seq<KeyEvent>, nextAtNs: nat, nowNs: nat, gapNs: nat, nextPollNs: nat)
    requires queue != [] && nextAtNs <= nowNs
    ensures var n := |queue| - 1;
            var now := Preceded(sent, ReplayWait(queue, nextAtNs, nowNs, gapNs, nextPollNs));
            var keys := sent + [queue[n]];
            if gapNs > 0 && n > 0 then
              now == ScenarioSpec.Advance(Replaying(queue[..n], nowNs + gapNs), nowNs + gapNs, Blocked, keys)
            else now == Preceded(keys, ReplayWait(queue[..n], nowNs + gapNs, nowNs, gapNs, nextPollNs))
  {
    var n := |queue| - 1;
    var one, rest := [queue[n]], Reversed(queue[..n]);
    assert sent + (one + rest) == (sent + one) + rest;
    if n == 0 {
      assert one + [] == one;
      assert (sent + one) + [] == sent + one;
    }
  }

  lemma PollStops(s: Scenario, e: ScenarioSpec.Engine, obs: Observation)
    requires obs.Valid()
    ensures e.outcome.done ==> Polled(s, e, obs) == (e, [])
    ensures !e.outcome.done && |s.steps| <= e.index ==>
      Polled(s, e, obs) == (e.(outcome := e.outcome.(done := true)), [])
  {
  }

  lemma PollRound(s: Scenario, e: ScenarioSpec.Engine, obs: Observation)
    requires obs.Valid() && !e.outcome.done && e.index < |s.steps|
    ensures var a := Advanced(s.steps[e.index], e.pending, e.nextPollNs, obs, s.pollMs);
            var rest := if a.progress.Finished? then Polled(s, Entered(e, a, obs), obs) else (Entered(e, a, obs), []);
            Polled(s, e, obs) == (rest.0, a.keys + rest.1)
  {
    var a := Advanced(s.steps[e.index], e.pending, e.nextPollNs, obs, s.pollMs);
    assert a.keys + [] == a.keys;
  }

  // ---- The engine -------------------------------------------------------------------------

  class Engine {
    const scenario: Scenario
    var index: nat
    var pending: Pending
    var results: seq<StepResult>
    var outcome: Outcome
    var nextPollNs: nat

    ghost function View(): ScenarioSpec.Engine
      reads this
    {
      ScenarioSpec.Engine(index, pending, results, outcome, nextPollNs)
    }

    constructor (scenario: Scenario)
      ensures this.scenario == scenario && View() == READY
    {
      this.scenario := scenario;
      index, pending, results, outcome, nextPollNs := 0, Fresh, [], Outcome(false, false, false, false), 0;
    }

    method Passed() returns (passed: bool)
      ensures passed == View().Passed()
    {
      passed := outcome.done && !outcome.failed && !outcome.truncated && !outcome.fault;
    }

    method Status() returns (status: ScenarioSpec.Status)
      ensures status == StatusOf(outcome)
    {
      if outcome.fault {
        return ErrorStatus;
      }
      if outcome.truncated {
        return IncompleteStatus;
      }
      if outcome.failed {
        return FailStatus;
      }
      return if outcome.done then PassStatus else IncompleteStatus;
    }

    /** Advance the scenario as far as this observation allows, sending keys to the controller. */
    method Poll(obs: Observation, kbd: Keyboard?)
      requires obs.Valid() && obs.keyboard == (kbd != null)
      requires kbd != null ==> kbd.View().Valid()
      modifies this, kbd
      ensures View() == Polled(scenario, old(View()), obs).0
      ensures kbd != null ==>
        kbd.View().Valid() && kbd.View() == PushAll(old(kbd.View()), Polled(scenario, old(View()), obs).1)
    {
      hide Advanced, PushAll, Polled;
      ghost var sent: seq<KeyEvent> := [];
      ghost var start := if kbd != null then kbd.View() else KeyboardSpec.POWER_UP;
      ghost var total := Polled(scenario, View(), obs);
      PushAllOne(start, KeyboardSpec.KeyEvent(KeyboardSpec.Held, 0));
      assert [] + total.1 == total.1;
      while !outcome.done
        invariant kbd != null ==> kbd.View().Valid() && kbd.View() == PushAll(start, sent)
        invariant total.0 == Polled(scenario, View(), obs).0
        invariant total.1 == sent + Polled(scenario, View(), obs).1
        decreases !outcome.done, |scenario.steps| - index
      {
        assert sent + [] == sent;
        PollStops(scenario, View(), obs);
        if index >= |scenario.steps| {
          outcome := outcome.(done := true);
          PollStops(scenario, View(), obs);
          return;
        }
        ghost var before := View();
        ghost var a := Advanced(scenario.steps[index], pending, nextPollNs, obs, scenario.pollMs);
        PollRound(scenario, before, obs);
        var progress := AdvanceAndRecord(obs, kbd);
        assert View() == Entered(before, a, obs);
        assert (sent + a.keys) + Polled(scenario, View(), obs).1 == sent + (a.keys + Polled(scenario, View(), obs).1);
        if kbd != null {
          PushAllAppends(start, sent, a.keys);
        }
        assert a.keys + [] == a.keys;
        sent := sent + a.keys;
        if !progress.Finished? {
          return;
        }
      }
      PollStops(scenario, View(), obs);
      assert sent + [] == sent;
    }

    method AdvanceAndRecord(obs: Observation, kbd: Keyboard?) returns (progress: Progress)
      requires !outcome.done && index < |scenario.steps|
      requires obs.Valid() && obs.keyboard == (kbd != null)
      requires kbd != null ==> kbd.View().Valid()
      modifies this, kbd
      ensures var a := Advanced(scenario.steps[old(index)], old(pending), old(nextPollNs), obs, scenario.pollMs);
              && progress == a.progress
              && View() == Entered(old(View()), a, obs)
              && (kbd != null ==> kbd.View().Valid() && kbd.View() == PushAll(old(kbd.View()), a.keys))
    {
      hide Advanced, PushAll;
      progress := Advance(scenario.steps[index], obs, kbd);
      match progress
      case Blocked =>
      case Finished(status) =>
        Record(status, obs);
        if status == Fail {
          outcome := outcome.(failed := true);
        }
        index := index + 1;
        pending := Fresh;
      case Faulted =>
        Record(Fail, obs);
        outcome := outcome.(failed := true, fault := true, done := true);
    }

    method Record(status: StepStatus, obs: Observation)
      modifies this`results
      ensures results == old(results) + [ResultOf(index, status, obs)]
    {
      results := results + [StepResult(index, status, obs.nowNs / MS, obs.cycles)];
    }

    method Advance(op: Op, obs: Observation, kbd: Keyboard?) returns (progress: Progress)
      requires obs.Valid() && obs.keyboard == (kbd != null)
      requires kbd != null ==> kbd.View().Valid()
      modifies this`pending, this`nextPollNs, kbd
      ensures ScenarioSpec.Advance(pending, nextPollNs, progress,
                                   Advanced(op, old(pending), old(nextPollNs), obs, scenario.pollMs).keys)
              == Advanced(op, old(pending), old(nextPollNs), obs, scenario.pollMs)
      ensures kbd != null ==>
        && kbd.View().Valid()
        && kbd.View() ==
             PushAll(old(kbd.View()), Advanced(op, old(pending), old(nextPollNs), obs, scenario.pollMs).keys)
    {
      hide Watch, TypeWait, ReplayWait, Holds;
      if kbd != null {
        PushAllOne(kbd.View(), KeyboardSpec.KeyEvent(KeyboardSpec.Held, 0));
      }
      hide PushAll;
      match op
      case Wait(ms) =>
        if pending.Waiting? {
          if obs.nowNs >= pending.untilNs {
            return Finished(Pass);
          }
          nextPollNs := pending.untilNs;
          return Blocked;
        }
        var untilNs := obs.nowNs + ms * MS;
        pending, nextPollNs := Waiting(untilNs), untilNs;
        return if obs.nowNs >= untilNs then Finished(Pass) else Blocked;
      case WaitCycles(cycles) =>
        if pending.Counting? {
          if obs.cycles >= pending.untilCycles {
            return Finished(Pass);
          }
        } else {
          pending := Counting(obs.cycles + cycles);
        }
        nextPollNs := obs.nowNs + scenario.pollMs * MS;
        return Blocked;
      case WaitUntil(condition, timeoutMs) =>
        if !pending.Watching? {
          pending := Watching(obs.nowNs + timeoutMs * MS, NO_HISTORY);
        }
        progress := AdvanceWatch(condition, obs);
      case Key(text, repeat, gapMs) =>
        if kbd == null {
          return Faulted;
        }
        if !pending.Typing? {
          var queue: seq<byte> := [];
          for i := 0 to repeat
            invariant queue == Repeated(text, i)
          {
            queue := queue + text;
          }
          pending := Typing(Reversed(queue), obs.nowNs);
        }
        progress := AdvanceTyping(obs.nowNs, gapMs * MS, kbd);
      case KeyEvents(events, gapMs) =>
        if kbd == null {
          return Faulted;
        }
        if !pending.Replaying? {
          pending := Replaying(Reversed(events), obs.nowNs);
        }
        progress := AdvanceReplaying(obs.nowNs, gapMs * MS, kbd);
      case Snapshot(png) =>
        return if obs.lcd.None? || (png && !obs.pngWritable) then Faulted else Finished(Pass);
      case Assert(condition) =>
        var holds, _ := Evaluate(condition, obs, NO_HISTORY);
        return match holds case None => Faulted case Some(h) => Finished(if h then Pass else Fail);
    }

    method AdvanceWatch(condition: Condition, obs: Observation) returns (progress: Progress)
      requires obs.Valid() && pending.Watching?
      modifies this`pending, this`nextPollNs
      ensures ScenarioSpec.Advance(pending, nextPollNs, progress, []) ==
        Watch(condition, obs, old(pending).deadlineNs, old(pending).history, scenario.pollMs, old(nextPollNs))
    {
      hide Holds, Remembered;
      var deadlineNs := pending.deadlineNs;
      var holds, history := Evaluate(condition, obs, pending.history);
      pending := Watching(deadlineNs, history);
      if holds.None? {
        return Faulted;
      }
      if holds.value {
        return Finished(Pass);
      }
      if obs.nowNs >= deadlineNs {
        return Finished(Fail);
      }
      var cadence := obs.nowNs + scenario.pollMs * MS;
      nextPollNs := if cadence < deadlineNs then cadence else deadlineNs;
      return Blocked;
    }

    method AdvanceTyping(nowNs: nat, gapNs: nat, kbd: Keyboard) returns (progress: Progress)
      requires pending.Typing? && kbd.View().Valid()
      modifies this`pending, this`nextPollNs, kbd
      ensures kbd.View().Valid()
      ensures var a := TypeWait(old(pending).chars, old(pending).nextAtNs, nowNs, gapNs, old(nextPollNs));
              && pending == a.pending && nextPollNs == a.nextPollNs && progress == a.progress
              && kbd.View() == PushAll(old(kbd.View()), a.keys)
    {
      hide Strokes, PushAll;
      ghost var sent: seq<KeyEvent> := [];
      ghost var start := kbd.View();
      PushAllOne(start, KeyboardSpec.KeyEvent(KeyboardSpec.Held, 0));
      var queue: seq<byte>, nextAtNs: nat := pending.chars, pending.nextAtNs;
      ghost var a := TypeWait(queue, nextAtNs, nowNs, gapNs, nextPollNs);
      assert [] + a.keys == a.keys;
      while queue != []
        invariant kbd.View().Valid() && kbd.View() == PushAll(start, sent)
        invariant nextPollNs == old(nextPollNs)
        invariant Preceded(sent, TypeWait(queue, nextAtNs, nowNs, gapNs, nextPollNs)) == a
        decreases |queue|
      {
        assert sent + [] == sent;
        if nowNs < nextAtNs {
          pending, nextPollNs := Typing(queue, nextAtNs), nextAtNs;
          return Blocked;
        }
        var n := |queue| - 1;
        var code := queue[n];
        TypedOne(sent, queue, nextAtNs, nowNs, gapNs, nextPollNs);
        PushAllPair(kbd.View(), code);
        PushAllAppends(start, sent, PressRelease(code));
        queue := queue[..n];
        kbd.PressAndRelease(code);
        sent := sent + PressRelease(code);
        nextAtNs := nowNs + gapNs;
        if gapNs > 0 && queue != [] {
          pending, nextPollNs := Typing(queue, nextAtNs), nextAtNs;
          return Blocked;
        }
      }
      assert sent + [] == sent;
      pending := Typing(queue, nextAtNs);
      return Finished(Pass);
    }

    method AdvanceReplaying(nowNs: nat, gapNs: nat, kbd: Keyboard) returns (progress: Progress)
      requires pending.Replaying? && kbd.View().Valid()
      modifies this`pending, this`nextPollNs, kbd
      ensures kbd.View().Valid()
      ensures var a := ReplayWait(old(pending).events, old(pending).nextAtNs, nowNs, gapNs, old(nextPollNs));
              && pending == a.pending && nextPollNs == a.nextPollNs && progress == a.progress
              && kbd.View() == PushAll(old(kbd.View()), a.keys)
    {
      hide PushAll;
      ghost var sent: seq<KeyEvent> := [];
      ghost var start := kbd.View();
      PushAllOne(start, KeyboardSpec.KeyEvent(KeyboardSpec.Held, 0));
      var queue: seq<KeyEvent>, nextAtNs: nat := pending.events, pending.nextAtNs;
      ghost var a := ReplayWait(queue, nextAtNs, nowNs, gapNs, nextPollNs);
      assert [] + a.keys == a.keys;
      while queue != []
        invariant kbd.View().Valid() && kbd.View() == PushAll(start, sent)
        invariant nextPollNs == old(nextPollNs)
        invariant Preceded(sent, ReplayWait(queue, nextAtNs, nowNs, gapNs, nextPollNs)) == a
        decreases |queue|
      {
        var n := |queue| - 1;
        var e := queue[n];
        assert sent + [] == sent;
        ghost var full := queue;
        queue := queue[..n];
        if nowNs < nextAtNs {
          pending, nextPollNs := Replaying(queue, nextAtNs), nextAtNs;
          return Blocked;
        }
        ReplayedOne(sent, full, nextAtNs, nowNs, gapNs, nextPollNs);
        PushAllOne(kbd.View(), e);
        PushAllAppends(start, sent, [e]);
        kbd.PushEvent(e);
        sent := sent + [e];
        nextAtNs := nowNs + gapNs;
        if gapNs > 0 && queue != [] {
          pending, nextPollNs := Replaying(queue, nextAtNs), nextAtNs;
          return Blocked;
        }
      }
      assert sent + [] == sent;
      pending := Replaying(queue, nextAtNs);
      return Finished(Pass);
    }

    /** The run stopped: mark whatever was still in flight or never reached. */
    method FinishIncomplete(obs: Observation)
      modifies this`index, this`results, this`outcome
      ensures View() == FinishedIncomplete(scenario, old(View()), obs)
    {
      if outcome.done {
        return;
      }
      while index < |scenario.steps|
        invariant outcome == old(outcome)
        invariant old(index) < |scenario.steps| ==> index <= |scenario.steps|
        invariant old(index) >= |scenario.steps| ==> index == old(index)
        invariant old(results) + Abandoned(scenario, old(index), obs) == results + Abandoned(scenario, index, obs)
      {
        ghost var rest := Abandoned(scenario, index + 1, obs);
        assert results + ([ResultOf(index, Incomplete, obs)] + rest) ==
            results + [ResultOf(index, Incomplete, obs)] + rest;
        Record(Incomplete, obs);
        index := index + 1;
      }
      assert results + [] == results;
      outcome := outcome.(truncated := true, done := true);
    }
  }
}
