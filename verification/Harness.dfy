/** A whole run from the first cycle to the verdict. */
module Harness {
  import opened Bits
  import opened ScenarioSpec
  import opened VirtualClock
  import opened Verdict
  import opened RunSpec
  import opened RunLoop
  import opened RunTheorems
  import opened KeyboardDevice
  import opened ScenarioKeys
  import KeyboardSpec
  import KeyboardTheorems
  import PanelSpec
  import ScenarioEngine
  import ScenarioTheorems

  /** What the command line says about an acceptable stop. */
  datatype Request = Request(explicitStop: Option<StopReason>, stopPc: Option<nat>, markers: seq<seq<byte>>)

  /** The combinations that the argument parser lets through. */
  predicate Sensible(r: Request, scenario: bool) {
    && (r.explicitStop == Some(PcMatch) ==> r.stopPc.Some?)
    && (r.explicitStop == Some(ScenarioDone) ==> scenario)
    && !(scenario && r.stopPc.Some?)
    && (scenario && r.explicitStop.Some? ==> r.explicitStop == Some(ScenarioDone))
    && (r.stopPc.Some? && r.explicitStop.Some? ==> r.explicitStop == Some(PcMatch))
  }

  /**
   * These keys arrived and none was dropped: each was read, is waiting at the controller, or was
   * waiting when the firmware reset it. Without a reset what was read and what waits are all the
   * keys in order. No register was unknown.
   */
  ghost predicate KeyboardClean(kbd: Keyboard?, heard: seq<Stimulus>, keys: seq<KeyEvent>)
    reads kbd
  {
    kbd != null ==>
      && kbd.stats.unknownSelects == 0 && kbd.stats.unknownWrites == 0
      && KeyboardTheorems.Arrivals(heard) == keys
      && var read, cleared := KeyboardTheorems.Departures(heard), KeyboardTheorems.ClearedBy(heard);
         && KeyboardTheorems.Accounts(KeyboardTheorems.Books(heard), keys, read, cleared, kbd.View())
         && |keys| == |read| + |kbd.fifo| + cleared
         && (kbd.stats.resets == 0 ==> cleared == 0)
         && (cleared == 0 ==> keys == read + kbd.fifo)
  }

  /** What a run that is judged a pass has shown, scenario or none. */
  ghost predicate PassShown(w: World, s: Option<Scenario>, request: Request, reason: StopReason, marks: seq<nat>,
                            turns: nat) {
    && turns <= |w.script|
    && (forall i :: 0 <= i < |request.markers| ==> Occurs(request.markers[i], w.Output(turns)))
    && (request.stopPc.Some? ==> reason == PcMatch && w.State(turns).pc == request.stopPc.value)
    && (s.None? ==> request.stopPc.Some? || request.explicitStop == Some(reason))
    && (s.Some? ==>
          && reason == ScenarioDone && Watched(w, s.value, ScenarioDone, marks, turns)
          && Proven(w, s.value, marks, turns))
  }

  /** Nothing but the machine's own doing, and nothing the harness lost sight of. */
  ghost predicate NothingWrong(kbd: Keyboard?, reason: StopReason, unsupportedCount: nat, unsupportedTruncated: bool)
    reads kbd
  {
    && reason != Exception && reason != Error
    && unsupportedCount == 0 && !unsupportedTruncated
    && (kbd != null ==> kbd.stats.dropped == 0 && kbd.stats.unknownSelects == 0 && kbd.stats.unknownWrites == 0)
  }

  ghost predicate MarkersShown(markers: seq<seq<byte>>, output: seq<byte>) {
    forall i :: 0 <= i < |markers| ==> markers[i] != [] && ScenarioTheorems.Inside(markers[i], output)
  }

  /** Exactly which runs pass, in terms of the run: with a scenario, with a stop address, or with a stop named. */
  ghost predicate PassDeserved(w: World, s: Option<Scenario>, request: Request, reason: StopReason, marks: seq<nat>)
    requires w.Valid() && Timely(w, marks)
  {
    if s.Some? then reason == ScenarioDone && ScenarioTheorems.EveryStepPassed(s.value, EngineAfter(w, s.value, marks))
    else if request.stopPc.Some? then reason == PcMatch
    else request.explicitStop == Some(reason)
  }

  /** The runs that cannot be judged although nothing went wrong: a step not run, or nothing to go by. */
  ghost predicate Unjudgeable(w: World, s: Option<Scenario>, request: Request, marks: seq<nat>, shown: bool)
    requires w.Valid() && Timely(w, marks)
  {
    if s.Some? then EngineAfter(w, s.value, marks).outcome.fault
    else shown && request.stopPc.None? && request.explicitStop.None?
  }

  /**
   * A run from reset to its verdict. Whatever the verdict, the run is accounted for; a pass means
   * that nothing went wrong and that what was asked for was shown, all of it by this very machine;
   * and every run that deserves a pass gets it.
   */
  method RunAndJudge(emu: Emulator, cycleLimit: nat, engine: ScenarioEngine.Engine?, board: Board, request: Request,
                     unsupportedCount: nat, unsupportedTruncated: bool, ghost preset: seq<KeyEvent>)
    returns (report: Report, outcome: RunOutcome, ghost marks: seq<nat>, ghost turns: nat)
    requires emu.at == 0 && emu.txLog == [] && emu.InWorld(board).Valid() && emu.heard == Pushes(preset)
    requires emu.kbd != null ==> emu.kbd.View() == KeyboardTheorems.PushAll(KeyboardSpec.POWER_UP, preset)
    requires engine != null ==> engine.View() == READY
    requires Sensible(request, engine != null)
    modifies emu, emu.kbd, engine
    ensures Accounted(old(emu.InWorld(board)), cycleLimit, request.stopPc, outcome, turns)
    ensures old(emu.InWorld(board)).Valid() && Timely(old(emu.InWorld(board)), marks)
    ensures engine != null ==> Watched(old(emu.InWorld(board)), engine.scenario, outcome.stopReason, marks, turns)
    ensures var w, s := old(emu.InWorld(board)), if engine != null then Some(engine.scenario) else None;
            var well := NothingWrong(emu.kbd, outcome.stopReason, unsupportedCount, unsupportedTruncated);
            var shown := MarkersShown(request.markers, w.Output(turns));
            && (report.status == Passed <==> well && shown && PassDeserved(w, s, request, outcome.stopReason, marks))
            && (report.status == CannotJudge <==> well && Unjudgeable(w, s, request, marks, shown))
    ensures report.status == Passed ==>
      && PassShown(old(emu.InWorld(board)), if engine != null then Some(engine.scenario) else None, request,
                   outcome.stopReason, marks, turns)
    ensures report.status == Passed ==>
      KeyboardClean(emu.kbd, emu.heard, Arrived(preset, engine, old(emu.InWorld(board)), marks))
  {
    hide World.Valid, World.State, World.Output, World.Time, Steady, StopNow, OnSchedule, Quiet, Proven, Polled, Sent,
         KeysKept, EngineAfter, KeyboardTheorems.After, KeyboardTheorems.Arrivals, KeyboardTheorems.PushAll,
         KeyboardClean, Reasons, Missing, FinishedIncomplete, MarkersShown, ScenarioTheorems.EveryStepPassed;
    ghost var w := emu.InWorld(board);
    outcome, marks, turns := Run(emu, cycleLimit, request.stopPc, engine, board, preset);
    var passed: Option<bool>, fault := None, false;
    if engine != null {
      var end := Observation(outcome.elapsedNs, outcome.cycles, None, false, outcome.uart, board.pngWritable);
      EndJudged(w, engine.scenario, outcome.stopReason, marks, turns, end);
      EndFlags(w, engine.scenario, outcome.stopReason, marks, turns, end);
      engine.FinishIncomplete(end);
      var p := engine.Passed();
      passed, fault := Some(p), engine.outcome.fault;
    }
    var dropped, errors := 0, 0;
    if emu.kbd != null {
      dropped := emu.kbd.stats.dropped;
      errors := emu.kbd.stats.unknownSelects + emu.kbd.stats.unknownWrites;
    }
    if dropped == 0 && errors == 0 {
      KeysAccounted(emu.kbd, emu.heard, Arrived(preset, engine, w, marks));
    }
    var evidence := Evidence(unsupportedCount, unsupportedTruncated, dropped, errors, passed, fault,
                             EffectiveStop(request.explicitStop, request.stopPc.Some?, engine != null),
                             request.markers);
    report := Judge(outcome, evidence);
    VerdictExactly(outcome, evidence);
    StopsAsTold(w, cycleLimit, request.stopPc, outcome, turns);
    MarkersExactly(request.markers, w.Output(turns));
  }

  lemma MarkersExactly(markers: seq<seq<byte>>, output: seq<byte>)
    ensures MarkersShown(markers, output) <==> forall i :: 0 <= i < |markers| ==> Occurs(markers[i], output)
  {
    hide Occurs, ScenarioTheorems.Inside;
    forall i | 0 <= i < |markers|
      ensures Occurs(markers[i], output) <==> markers[i] != [] && ScenarioTheorems.Inside(markers[i], output)
    {
      ScenarioTheorems.OccursIffInside(markers[i], output);
    }
  }

  /** What closing the books makes of the engine's flags. */
  lemma EndFlags(w: World, s: Scenario, reason: StopReason, marks: seq<nat>, turns: nat, end: Observation)
    requires Watched(w, s, reason, marks, turns)
    ensures var e, d := EngineAfter(w, s, marks), FinishedIncomplete(s, EngineAfter(w, s, marks), end);
            && (d.Passed() <==> reason == ScenarioDone && ScenarioTheorems.EveryStepPassed(s, e))
            && (d.outcome.fault <==> e.outcome.fault)
            && (d.outcome.fault ==> !d.Passed())
  {
    hide World.State, World.Time, World.Output, World.Valid, OnSchedule, Quiet, ScenarioTheorems.After,
         ScenarioTheorems.EveryStepPassed, ScenarioTheorems.Good;
    ScenarioTheorems.RunKeeps(s, Polls(w, marks));
    if EngineAfter(w, s, marks).outcome.done {
      ScenarioTheorems.DonePasses(s, EngineAfter(w, s, marks));
    }
  }

  /** An exception or an error is told as such, and an outcome without either happened after exactly these turns. */
  lemma StopsAsTold(w: World, cycleLimit: nat, stopPc: Option<nat>, o: RunOutcome, turns: nat)
    requires Accounted(w, cycleLimit, stopPc, o, turns)
    ensures o.stopReason == Exception <==> o.exception.Some?
    ensures o.stopReason == Error <==> o.error.Some?
    ensures o.stopReason != Error ==> o.uart == w.Output(turns)
    ensures o.stopReason == PcMatch ==> stopPc == Some(w.State(turns).pc)
  {
    hide World.State, World.Output, World.Time, Steady;
  }

  /** If the scenario passes in the end it had passed when the run stopped, so that is why it stopped. */
  lemma EndJudged(w: World, s: Scenario, reason: StopReason, marks: seq<nat>, turns: nat, end: Observation)
    requires Watched(w, s, reason, marks, turns)
    ensures FinishedIncomplete(s, EngineAfter(w, s, marks), end).Passed() ==>
      reason == ScenarioDone && Proven(w, s, marks, turns)
  {
    hide World.State, World.Time, World.Output, World.Valid, OnSchedule, Quiet, EngineAfter, Proven;
    var e := EngineAfter(w, s, marks);
    if FinishedIncomplete(s, e, end).Passed() {
      assert e.Passed();
      PassProves(w, s, marks, turns);
    }
  }

  lemma KeysAccounted(kbd: Keyboard?, heard: seq<Stimulus>, keys: seq<KeyEvent>)
    requires KeysKept(kbd, heard, keys)
    requires kbd != null ==> kbd.stats.dropped == 0 && kbd.stats.unknownSelects == 0 && kbd.stats.unknownWrites == 0
    ensures KeyboardClean(kbd, heard, keys)
  {
    hide KeyboardTheorems.After, KeyboardTheorems.Arrivals, KeyboardTheorems.ClearedBy, KeyboardTheorems.Books,
         KeyboardTheorems.Departures;
    KeyboardTheorems.EveryEventAccountedFor(heard);
    KeyboardTheorems.FatesAddUp(heard);
    KeyboardTheorems.NoResetNothingCleared(heard);
    if kbd != null && KeyboardTheorems.ClearedBy(heard) == 0 {
      KeyboardTheorems.AllKeysInOrder(heard);
    }
  }

  // ---- A replay polled as the run loop polls can still lose a key --------------------------

  const RING_HZ := 6_500_000
  const RING := Booted(RING_HZ)
  const A_DOWN := KeyboardSpec.KeyEvent(KeyboardSpec.Pressed, 0x61)
  const A_UP := KeyboardSpec.KeyEvent(KeyboardSpec.Released, 0x61)
  const B_DOWN := KeyboardSpec.KeyEvent(KeyboardSpec.Pressed, 0x62)
  const TYPED_FAST := Scenario(5, [KeyEvents([A_DOWN, A_UP, B_DOWN], 1)])

  function Spin(consumed: nat): Quantum {
    Ran(consumed, RING_HZ, 0, 0, [], [], PanelSpec.Black())
  }

  /** The boot oscillator, and quanta that end a cycle past the first deadline and on the second. */
  function Spinning(): World {
    World(Machine(0, RING_HZ, 0, 0, PanelSpec.Black()), [Spin(6501), Spin(6499), Spin(1)], Board(false, false), true)
  }

  function CyclesOf(k: nat): nat {
    if k == 0 then 0 else if k == 1 then 6501 else if k == 2 then 13000 else 13001
  }

  function Replay(events: seq<KeyEvent>, dueNs: nat): ScenarioSpec.Engine {
    ScenarioSpec.Engine(0, Replaying(events, dueNs), [], Outcome(false, false, false, false), dueNs)
  }

  lemma ReplayRound(queue: seq<KeyEvent>, dueNs: nat, e: ScenarioSpec.Engine, obs: Observation)
    requires e == Replay(queue, dueNs) && obs.Valid() && obs.keyboard && queue != []
    ensures var n := |queue| - 1;
            var r := Polled(TYPED_FAST, e, obs);
            && (obs.nowNs < dueNs ==> r == (Replay(queue[..n], dueNs), []))
            && (dueNs <= obs.nowNs && n > 0 ==> r == (Replay(queue[..n], obs.nowNs + MS), [queue[n]]))
  {
  }

  lemma {:induction false} SpinsTo(k: nat)
    requires k <= 3
    ensures var w := Spinning();
            && w.State(k).cycles == CyclesOf(k) && w.State(k).pc == 0 && w.State(k).ipsr == 0 && w.Output(k) == []
            && w.Time(k) == Timeline(RING, CyclesOf(k)) && Exact(RING_HZ, w.Events(k)) == Stretch(CyclesOf(k), RING_HZ)
  {
    hide Clock.NsAt, Stretch;
    var w := Spinning();
    if k == 0 {
      NoStretch();
    } else {
      SpinsTo(k - 1);
      TimeSteps(w, k - 1);
      var before, step := w.Events(k - 1), Event.Advance(CyclesOf(k) - CyclesOf(k - 1));
      var events := before + [step, SetRate(RING_HZ)];
      assert w.Events(k) == events;
      assert events[..|before| + 1] == before + [step] && (before + [step])[..|before|] == before;
      StretchAdds(CyclesOf(k - 1), CyclesOf(k) - CyclesOf(k - 1), RING_HZ);
    }
  }

  lemma NoStretch()
    ensures Stretch(0, RING_HZ) == 0.0
  {
  }

  /** What a poll sees of this world. */
  lemma SpinSeen(k: nat)
    requires k <= 3
    ensures Spinning().Seen(k) == Observation(RING.NsAt(CyclesOf(k)), CyclesOf(k), None, true, [], false)
  {
    hide World.State, World.Time, World.Output, Clock.NsAt;
    SpinsTo(k);
  }

  lemma SpinFits()
    ensures Spinning().Valid()
  {
    hide Exact, World.Events;
    SpinsTo(3);
  }

  lemma Clockwork()
    ensures RING.NsAt(0) == 0 && RING.NsAt(6501) == 1_000_153
    ensures RING.NsAt(13000) == 2_000_000 && RING.NsAt(13001) == 2_000_153
    ensures RING.CyclesAt(1_000_000) == 6500 && RING.CyclesAt(2_000_153) == 13000
  {
  }

  /** At one rate a deadline stays where it was converted to. */
  lemma SpinDue(ns: nat, k: nat)
    requires k < 3
    ensures FallsDue(Spinning(), ns, k, k + 1) <==> Later(RING.CyclesAt(ns), CyclesOf(k) + 1) <= CyclesOf(k + 1)
  {
    hide World.State, World.Time, World.Output, Clock.CyclesAt;
    SpinsTo(k);
    SpinsTo(k + 1);
  }

  lemma SpinSize()
    ensures |Spinning().script| == 3
  {
  }

  /** One more poll of this world, after the next quantum. */
  lemma NextPoll(marks: seq<nat>, k: nat, e: ScenarioSpec.Engine, keys: seq<KeyEvent>, next: ScenarioSpec.Engine,
                 more: seq<KeyEvent>)
    requires k < 3 && Spinning().Valid() && Timely(Spinning(), marks) && marks != [] && marks[|marks| - 1] == k
    requires OnSchedule(Spinning(), TYPED_FAST, marks) && EngineAfter(Spinning(), TYPED_FAST, marks) == e
    requires Sent(TYPED_FAST, Polls(Spinning(), marks)) == keys && !e.outcome.done
    requires Later(RING.CyclesAt(e.nextPollNs), CyclesOf(k) + 1) <= CyclesOf(k + 1)
    requires |Spinning().script| == 3 && Polled(TYPED_FAST, e, Spinning().Seen(k + 1)) == (next, more)
    ensures var all := marks + [k + 1];
            && Timely(Spinning(), all) && OnSchedule(Spinning(), TYPED_FAST, all)
            && EngineAfter(Spinning(), TYPED_FAST, all) == next
            && Sent(TYPED_FAST, Polls(Spinning(), all)) == keys + more
  {
    hide Polled, Spinning, World.Seen, World.Valid, EngineAfter, OnSchedule, Sent, FallsDue, Clock.CyclesAt, CyclesOf;
    SpinDue(e.nextPollNs, k);
    OneMorePoll(Spinning(), TYPED_FAST, marks, k + 1);
    ScheduleGrows(Spinning(), TYPED_FAST, e, marks, k + 1);
  }

  lemma FirstPoll()
    requires Spinning().Valid() && |Spinning().script| == 3
    requires Polled(TYPED_FAST, READY, Spinning().Seen(0)) == (Replay([B_DOWN, A_UP], 1_000_000), [A_DOWN])
    ensures var w := Spinning();
            && Timely(w, [0]) && OnSchedule(w, TYPED_FAST, [0])
            && EngineAfter(w, TYPED_FAST, [0]) == Replay([B_DOWN, A_UP], 1_000_000)
            && Sent(TYPED_FAST, Polls(w, [0])) == [A_DOWN]
  {
    hide Polled, Spinning, World.Seen, World.Valid;
    var none: seq<nat> := [];
    assert none + [0] == [0];
    assert Timely(Spinning(), none) && Polls(Spinning(), none) == [];
    OneMorePoll(Spinning(), TYPED_FAST, none, 0);
  }

  lemma Beginning()
    requires RING.NsAt(0) == 0
    ensures Polled(TYPED_FAST, READY, Observation(0, 0, None, true, [], false)) ==
            (Replay([B_DOWN, A_UP], 1_000_000), [A_DOWN])
  {
    var events := [A_DOWN, A_UP, B_DOWN];
    assert events[..2] == [A_DOWN, A_UP] && [A_DOWN, A_UP][..1] == [A_DOWN] && [A_DOWN][..0] == [];
    assert Reversed([A_DOWN]) == [A_DOWN];
    assert Reversed([A_DOWN, A_UP]) == [A_UP] + [A_DOWN];
    assert Reversed(events) == [B_DOWN] + Reversed(events[..2]);
    assert Reversed(events) == [B_DOWN, A_UP, A_DOWN];
    assert [B_DOWN, A_UP, A_DOWN][..2] == [B_DOWN, A_UP];
  }

  lemma LastRound(obs: Observation)
    requires obs.Valid() && obs.keyboard && 2_000_153 <= obs.nowNs
    ensures var r := Polled(TYPED_FAST, Replay([], 2_000_153), obs); r.0.Passed() && r.1 == []
  {
  }

  lemma SpinsSteadily()
    requires |Spinning().script| == 3
    ensures Steady(Spinning(), 20_000, None, 3)
  {
    hide World.State;
    forall k | 0 <= k < 3
      ensures StopNow(Spinning().State(k), 20_000, None).None?
    {
      SpinsTo(k);
    }
  }

  /** The four polls of this world, each when the deadline of the one before falls due. */
  lemma SpinPolls()
    ensures var w := Spinning();
            && w.Valid() && |w.script| == 3 && Timely(w, [0, 1, 2, 3]) && OnSchedule(w, TYPED_FAST, [0, 1, 2, 3])
            && EngineAfter(w, TYPED_FAST, [0, 1, 2, 3]).Passed()
            && Sent(TYPED_FAST, Polls(w, [0, 1, 2, 3])) == [A_DOWN, A_UP]
  {
    hide Polled, Spinning, World.Valid, World.Seen, EngineAfter, OnSchedule, Sent, Clock.NsAt, Clock.CyclesAt;
    Clockwork();
    SpinFits();
    SpinSize();
    SpinSeen(0);
    SpinSeen(1);
    SpinSeen(2);
    SpinSeen(3);
    var w := Spinning();
    Beginning();
    FirstPoll();
    ReplayRound([B_DOWN, A_UP], 1_000_000, Replay([B_DOWN, A_UP], 1_000_000), w.Seen(1));
    assert [B_DOWN, A_UP][..1] == [B_DOWN];
    NextPoll([0], 0, Replay([B_DOWN, A_UP], 1_000_000), [A_DOWN], Replay([B_DOWN], 2_000_153), [A_UP]);
    ReplayRound([B_DOWN], 2_000_153, Replay([B_DOWN], 2_000_153), w.Seen(2));
    assert [B_DOWN][..0] == [] && [0] + [1] == [0, 1];
    NextPoll([0, 1], 1, Replay([B_DOWN], 2_000_153), [A_DOWN, A_UP], Replay([], 2_000_153), []);
    assert [0, 1] + [2] == [0, 1, 2];
    var last := Polled(TYPED_FAST, Replay([], 2_000_153), w.Seen(3)).0;
    LastRound(w.Seen(3));
    NextPoll([0, 1, 2], 2, Replay([], 2_000_153), [A_DOWN, A_UP], last, []);
    assert [0, 1, 2] + [3] == [0, 1, 2, 3];
  }

  /**
   * The conversion to cycles rounds down, so the loop may poll a nanosecond too soon; the replay
   * then discards an event. Here is such a run: on schedule to the last poll, with nothing to stop
   * it, and the scenario passes although its third event was never sent.
   */
  lemma LoopSchedulingCanLoseKey()
    ensures var w, marks := Spinning(), [0, 1, 2, 3];
            && Watched(w, TYPED_FAST, ScenarioDone, marks, 3) && Steady(w, 20_000, None, 3)
            && EngineAfter(w, TYPED_FAST, marks).Passed()
            && Sent(TYPED_FAST, Polls(w, marks)) == [A_DOWN, A_UP]
  {
    hide World.Valid, EngineAfter, OnSchedule, Sent, Spinning;
    SpinPolls();
    SpinsSteadily();
  }
}
