/** The run loop: it steps the machine, polls the scenario in virtual time, and decides when to stop. */
module RunLoop {
  import opened Bits
  import opened ScenarioSpec
  import opened VirtualClock
  import opened Verdict
  import opened KeyboardDevice
  import opened RunSpec
  import ScenarioKeys
  import KeyboardSpec
  import KeyboardTheorems
  import opened ScenarioEngine

  const UART_DRAIN_INTERVAL := 256

  datatype Result = Consumed(cycles: nat) | Broke(message: string)

  /** The emulator reduced to what the loop sees of it; any script of quanta may play. */
  class Emulator {
    const script: seq<Quantum>
    const kbd: Keyboard?
    var at: nat
    var machine: Machine
    var txLog: seq<byte>
    ghost var heard: seq<Stimulus>

    constructor (script: seq<Quantum>, hz: nat, pc: nat, screen: Screen, kbd: Keyboard?, ghost heard: seq<Stimulus>)
      ensures this.script == script && this.kbd == kbd
      ensures at == 0 && machine == Machine(0, hz, pc, 0, screen) && txLog == [] && this.heard == heard
    {
      this.script, this.kbd := script, kbd;
      at, machine, txLog, this.heard := 0, Machine(0, hz, pc, 0, screen), [], heard;
    }

    /** The world this emulator is about to play. */
    ghost function InWorld(board: Board): World
      reads this
    {
      World(machine, script, board, kbd != null)
    }

    /** It has played its world so far, and what is not in the log has been collected. */
    ghost predicate Stands(w: World, collected: seq<byte>)
      reads this
    {
      && script == w.script && (kbd != null) == w.keyboard
      && at <= |script| && machine == w.State(at) && collected + txLog == w.Output(at)
    }

    method DrainUart() returns (bytes: seq<byte>)
      modifies this`txLog
      ensures bytes == old(txLog) && txLog == []
    {
      bytes, txLog := txLog, [];
    }

    /** The limit is the next event outside the machine; how close the machine stops to it is its own affair. */
    method StepUntil(limit: nat) returns (result: Result)
      requires kbd != null ==> kbd.View().Valid()
      modifies this`at, this`machine, this`txLog, this`heard, kbd
      ensures kbd != null ==> kbd.View().Valid()
      ensures at == if old(at) < |script| then old(at) + 1 else old(at)
      ensures old(at) < |script| && script[old(at)].Ran? ==>
        var q := script[old(at)];
        && result == Consumed(q.consumed)
        && machine == Machine(old(machine).cycles + q.consumed, q.hz, q.pc, q.ipsr, q.screen)
        && txLog == old(txLog) + q.uart && heard == old(heard) + q.bus
        && (kbd != null ==> kbd.View() == KeyboardTheorems.Folded(old(kbd.View()), q.bus))
      ensures old(at) < |script| && script[old(at)].Crashed? ==> result == Broke(script[old(at)].message)
      ensures old(at) >= |script| ==> result == Consumed(0)
      ensures old(at) >= |script| || script[old(at)].Crashed? ==>
        && unchanged(this`machine) && unchanged(this`txLog) && unchanged(this`heard)
        && (kbd != null ==> kbd.View() == old(kbd.View()))
    {
      if at >= |script| {
        return Consumed(0);
      }
      var q := script[at];
      at := at + 1;
      match q
      case Crashed(message) =>
        return Broke(message);
      case Ran(consumed, hz, pc, ipsr, uart, bus, screen) =>
        machine := Machine(machine.cycles + consumed, hz, pc, ipsr, screen);
        txLog, heard := txLog + uart, heard + bus;
        if kbd != null {
          Talk(kbd, bus);
        }
        return Consumed(consumed);
    }
  }

  /** Firmware talking to the controller over I2C. */
  method Talk(kbd: Keyboard, bus: Traffic)
    requires kbd.View().Valid()
    modifies kbd
    ensures kbd.View() == KeyboardTheorems.Folded(old(kbd.View()), bus) && kbd.View().Valid()
  {
    hide KeyboardSpec.WriteByte, KeyboardSpec.ReadByte, KeyboardSpec.TransactionEnd;
    ghost var start := kbd.View();
    for i := 0 to |bus|
      invariant kbd.View().Valid() && kbd.View() == KeyboardTheorems.Folded(start, bus[..i])
    {
      assert bus[..i + 1][..i] == bus[..i];
      if bus[i].BusWrite? {
        kbd.WriteByte(bus[i].b);
      } else if bus[i].BusRead? {
        var _ := kbd.ReadByte();
      } else {
        kbd.TransactionEnd();
      }
    }
    assert bus[..|bus|] == bus;
  }

  function Pushes(keys: seq<KeyEvent>): seq<Stimulus> {
    if keys == [] then [] else Pushes(keys[..|keys| - 1]) + [KeyboardTheorems.KeyPushed(keys[|keys| - 1])]
  }

  lemma {:induction false} HearKeys(run: seq<Stimulus>, keys: seq<KeyEvent>)
    ensures KeyboardTheorems.After(run + Pushes(keys)) == KeyboardTheorems.PushAll(KeyboardTheorems.After(run), keys)
    ensures KeyboardTheorems.Arrivals(run + Pushes(keys)) == KeyboardTheorems.Arrivals(run) + keys
  {
    hide KeyboardSpec.Push, KeyboardTheorems.Step, KeyboardTheorems.Offered;
    if keys == [] {
      assert run + Pushes(keys) == run;
    } else {
      var n := |keys| - 1;
      var all := run + Pushes(keys);
      assert all[..|all| - 1] == run + Pushes(keys[..n]);
      HearKeys(run, keys[..n]);
      PushHeard(KeyboardTheorems.After(run + Pushes(keys[..n])), keys[n]);
      assert keys[..n] + [keys[n]] == keys;
    }
  }

  lemma PushHeard(c: KeyboardSpec.Controller, e: KeyEvent)
    requires c.Valid()
    ensures KeyboardTheorems.Step(c, KeyboardTheorems.KeyPushed(e)) == KeyboardSpec.Push(c, e)
    ensures KeyboardTheorems.Offered(c, KeyboardTheorems.KeyPushed(e)) == [e]
  {
  }

  lemma {:induction false} HearBus(run: seq<Stimulus>, bus: seq<Stimulus>)
    requires BusTraffic(bus)
    ensures KeyboardTheorems.After(run + bus) == KeyboardTheorems.Folded(KeyboardTheorems.After(run), bus)
    ensures KeyboardTheorems.Arrivals(run + bus) == KeyboardTheorems.Arrivals(run)
  {
    hide KeyboardTheorems.Step, KeyboardTheorems.Offered;
    if bus == [] {
      assert run + bus == run;
    } else {
      var n := |bus| - 1;
      var all := run + bus;
      assert all[..|all| - 1] == run + bus[..n];
      HearBus(run, bus[..n]);
      BusOffersNothing(KeyboardTheorems.After(run + bus[..n]), bus[n]);
    }
  }

  lemma BusOffersNothing(c: KeyboardSpec.Controller, t: Stimulus)
    requires t.BusWrite? || t.BusRead? || t.BusStop?
    ensures KeyboardTheorems.Offered(c, t) == []
  {
  }

  // ---- What the loop keeps ----------------------------------------------------------------

  /** The controller has heard the bus, and these keys arrived at it. */
  ghost predicate KeysKept(kbd: Keyboard?, heard: seq<Stimulus>, keys: seq<KeyEvent>)
    reads kbd
  {
    kbd != null ==>
      && kbd.View().Valid()
      && kbd.View() == KeyboardTheorems.After(heard)
      && KeyboardTheorems.Arrivals(heard) == keys
  }

  /** The engine is where its polls took it, and is next polled when its deadline falls due. */
  ghost predicate Following(w: World, s: Scenario, e: ScenarioSpec.Engine, marks: seq<nat>, at: nat,
                            nextPollCycles: nat) {
    && w.Valid() && Timely(w, marks) && at <= |w.script| && OnSchedule(w, s, marks)
    && e == EngineAfter(w, s, marks)
    && (marks == [] ==> at == 0 && nextPollCycles == 0)
    && (marks != [] ==>
          && marks[|marks| - 1] <= at
          && Quiet(w, e.nextPollNs, marks[|marks| - 1], at)
          && nextPollCycles == Due(w, e.nextPollNs, marks[|marks| - 1], at))
  }

  lemma OneMorePoll(w: World, s: Scenario, marks: seq<nat>, n: nat)
    requires w.Valid() && n <= |w.script| && Timely(w, marks) && Timely(w, marks + [n])
    ensures var r := Polled(s, EngineAfter(w, s, marks), w.Seen(n));
            && EngineAfter(w, s, marks + [n]) == r.0
            && ScenarioKeys.Sent(s, Polls(w, marks + [n])) == ScenarioKeys.Sent(s, Polls(w, marks)) + r.1
  {
    hide Polled, World.Seen, World.Valid;
    assert (marks + [n])[..|marks|] == marks;
    PollsBefore(w, marks + [n], |marks|);
  }

  /** A poll that is due keeps the schedule, and sets the next deadline. */
  lemma PollFollows(w: World, s: Scenario, e: ScenarioSpec.Engine, marks: seq<nat>, at: nat, nextPollCycles: nat)
    requires Following(w, s, e, marks, at, nextPollCycles) && !e.outcome.done && nextPollCycles <= w.State(at).cycles
    ensures var d := Polled(s, e, w.Seen(at)).0;
            Following(w, s, d, marks + [at], at, Converted(w, d.nextPollNs, at))
    ensures ScenarioKeys.Sent(s, Polls(w, marks + [at])) ==
            ScenarioKeys.Sent(s, Polls(w, marks)) + Polled(s, e, w.Seen(at)).1
  {
    hide Polled, World.State, World.Time, World.Seen, World.Valid, EngineAfter, OnSchedule, Quiet, ScenarioKeys.Sent;
    PollComesLater(w, s, e, marks, at, nextPollCycles);
    OneMorePoll(w, s, marks, at);
    ScheduleGrows(w, s, e, marks, at);
    NothingDueYet(w, Polled(s, e, w.Seen(at)).0.nextPollNs, at);
  }

  lemma PollComesLater(w: World, s: Scenario, e: ScenarioSpec.Engine, marks: seq<nat>, at: nat, nextPollCycles: nat)
    requires Following(w, s, e, marks, at, nextPollCycles) && nextPollCycles <= w.State(at).cycles
    ensures Timely(w, marks + [at]) && (marks == [] ==> at == 0)
    ensures marks != [] ==> FallsDue(w, e.nextPollNs, marks[|marks| - 1], at)
  {
    hide World.State, World.Time, World.Valid, EngineAfter, OnSchedule;
  }

  lemma ScheduleGrows(w: World, s: Scenario, e: ScenarioSpec.Engine, marks: seq<nat>, at: nat)
    requires w.Valid() && at <= |w.script| && Timely(w, marks) && Timely(w, marks + [at])
    requires OnSchedule(w, s, marks) && e == EngineAfter(w, s, marks) && !e.outcome.done
    requires marks == [] ==> at == 0
    requires marks != [] ==> FallsDue(w, e.nextPollNs, marks[|marks| - 1], at)
    ensures OnSchedule(w, s, marks + [at])
  {
    hide World.Valid, EngineAfter, FallsDue;
    assert (marks + [at])[..|marks|] == marks;
  }

  lemma NothingDueYet(w: World, ns: nat, at: nat)
    requires at <= |w.script|
    ensures Quiet(w, ns, at, at) && Due(w, ns, at, at) == Converted(w, ns, at)
  {
    hide Converted;
  }

  /** A quantum that comes before the deadline keeps the schedule; a new rate converts the deadline again. */
  lemma StepFollows(w: World, s: Scenario, e: ScenarioSpec.Engine, marks: seq<nat>, at: nat, nextPollCycles: nat)
    requires Following(w, s, e, marks, at, nextPollCycles) && at < |w.script| && w.State(at).cycles < nextPollCycles
    ensures var same := w.Time(at + 1).clock.hz == w.Time(at).clock.hz;
            Following(w, s, e, marks, at + 1, if same then nextPollCycles else Converted(w, e.nextPollNs, at + 1))
  {
    hide World.State, World.Time, World.Valid, EngineAfter, OnSchedule, Converted;
  }

  /** The keys that have arrived: those queued before the run, then those the scenario sent. */
  ghost function Arrived(preset: seq<KeyEvent>, engine: ScenarioEngine.Engine?, w: World,
                         marks: seq<nat>): seq<KeyEvent>
    requires w.Valid() && Timely(w, marks)
  {
    preset + if engine != null then ScenarioKeys.Sent(engine.scenario, Polls(w, marks)) else []
  }

  /** Everything the loop keeps from one iteration to the next. */
  ghost predicate LoopKept(emu: Emulator, engine: ScenarioEngine.Engine?, w: World, clock: Clock, uart: seq<byte>,
                           nextPollCycles: nat, marks: seq<nat>, preset: seq<KeyEvent>)
    reads emu, emu.kbd, engine
  {
    && w.Valid() && Timely(w, marks) && emu.Stands(w, uart) && clock == w.Time(emu.at).clock
    && KeysKept(emu.kbd, emu.heard, Arrived(preset, engine, w, marks))
    && (engine != null ==> Following(w, engine.scenario, engine.View(), marks, emu.at, nextPollCycles))
  }

  /** One poll: the engine must see every byte sent so far, so the log is drained first. */
  method PollEngine(emu: Emulator, engine: ScenarioEngine.Engine, board: Board, nowNs: nat, uart: seq<byte>,
                    ghost w: World, ghost keys: seq<KeyEvent>)
    returns (all: seq<byte>)
    requires emu.Stands(w, uart) && w.board == board && w.Time(emu.at).Ns() == nowNs
    requires KeysKept(emu.kbd, emu.heard, keys)
    modifies emu`txLog, emu`heard, emu.kbd, engine
    ensures emu.Stands(w, all)
    ensures engine.View() == Polled(engine.scenario, old(engine.View()), w.Seen(emu.at)).0
    ensures KeysKept(emu.kbd, emu.heard, keys + Polled(engine.scenario, old(engine.View()), w.Seen(emu.at)).1)
  {
    hide Polled, KeyboardTheorems.PushAll, KeyboardTheorems.After, KeyboardTheorems.Arrivals, Pushes,
         World.State, World.Time, World.Output;
    var drained := emu.DrainUart();
    all := uart + drained;
    var obs := Observation(nowNs, emu.machine.cycles, if board.lcd then Some(emu.machine.screen) else None,
                           emu.kbd != null, all, board.pngWritable);
    assert obs == w.Seen(emu.at) && all + [] == all;
    ghost var sent := Polled(engine.scenario, engine.View(), obs).1;
    engine.Poll(obs, emu.kbd);
    HearKeys(emu.heard, sent);
    emu.heard := emu.heard + Pushes(sent);
  }

  /** Poll, and convert the deadline that the engine now asks for. */
  method PollAndSchedule(emu: Emulator, engine: ScenarioEngine.Engine, board: Board, clock: Clock, uart: seq<byte>,
                         nextPollCycles: nat, ghost w: World, ghost marks: seq<nat>, ghost preset: seq<KeyEvent>)
    returns (all: seq<byte>, next: nat)
    requires LoopKept(emu, engine, w, clock, uart, nextPollCycles, marks, preset) && w.board == board
    requires nextPollCycles <= emu.machine.cycles && !engine.outcome.done
    modifies emu`txLog, emu`heard, emu.kbd, engine
    ensures LoopKept(emu, engine, w, clock, all, next, marks + [emu.at], preset) && emu.machine.cycles < next
  {
    hide Polled, KeysKept, World.State, World.Output, World.Events, World.Valid, World.Seen, Clock.NsAt, Clock.CyclesAt,
         EngineAfter, OnSchedule, ScenarioKeys.Sent;
    ghost var e, sent := engine.View(), ScenarioKeys.Sent(engine.scenario, Polls(w, marks));
    PollFollows(w, engine.scenario, e, marks, emu.at, nextPollCycles);
    NowAt(w, emu.at);
    all := PollEngine(emu, engine, board, clock.NsAt(emu.machine.cycles), uart, w, preset + sent);
    assert preset + sent + Polled(engine.scenario, e, w.Seen(emu.at)).1
        == preset + (sent + Polled(engine.scenario, e, w.Seen(emu.at)).1);
    next := Later(clock.CyclesAt(engine.nextPollNs), emu.machine.cycles + 1);
  }

  /** The scenario looks at the machine when its deadline has come. */
  method PollIfDue(emu: Emulator, engine: ScenarioEngine.Engine?, board: Board, clock: Clock, uart: seq<byte>,
                   nextPollCycles: nat, ghost w: World, ghost marks: seq<nat>, ghost preset: seq<KeyEvent>)
    returns (all: seq<byte>, next: nat, ghost looks: seq<nat>)
    requires LoopKept(emu, engine, w, clock, uart, nextPollCycles, marks, preset) && w.board == board
    requires engine != null ==> !engine.outcome.done
    modifies emu`txLog, emu`heard, emu.kbd, engine
    ensures LoopKept(emu, engine, w, clock, all, next, looks, preset)
    ensures engine != null ==> looks != [] && looks[|looks| - 1] <= emu.at && emu.machine.cycles < next
    ensures engine != null && engine.outcome.done ==> looks[|looks| - 1] == emu.at
  {
    hide KeysKept, World.State, World.Output, World.Time, World.Valid, World.Seen, Clock.CyclesAt, EngineAfter,
         OnSchedule, ScenarioKeys.Sent, Due, Quiet;
    all, next, looks := uart, nextPollCycles, marks;
    if engine != null {
      if emu.machine.cycles >= nextPollCycles {
        all, next := PollAndSchedule(emu, engine, board, clock, uart, nextPollCycles, w, marks, preset);
        looks := marks + [emu.at];
      }
    }
  }

  lemma NowAt(w: World, k: nat)
    requires w.Valid() && k <= |w.script|
    ensures w.Time(k).Ns() == w.Time(k).clock.NsAt(w.State(k).cycles)
  {
    hide World.Time;
    CountsTheCycles(w, k);
  }

  lemma BusKept(kbd: Keyboard?, was: KeyboardSpec.Controller, heard: seq<Stimulus>, keys: seq<KeyEvent>, bus: Traffic)
    requires kbd != null ==>
      was.Valid() && was == KeyboardTheorems.After(heard) && KeyboardTheorems.Arrivals(heard) == keys
    requires kbd != null ==> kbd.View().Valid() && kbd.View() == KeyboardTheorems.Folded(was, bus)
    ensures KeysKept(kbd, heard + bus, keys)
  {
    hide KeyboardTheorems.After, KeyboardTheorems.Arrivals, KeyboardTheorems.Folded;
    if kbd != null {
      HearBus(heard, bus);
    }
  }

  /** One quantum: the machine moves on in its world, and the old clock still tells the time. */
  method StepMachine(emu: Emulator, limit: nat, uart: seq<byte>, ghost w: World, ghost keys: seq<KeyEvent>)
    returns (result: Result)
    requires w.Valid() && emu.Stands(w, uart) && KeysKept(emu.kbd, emu.heard, keys)
    modifies emu, emu.kbd
    ensures emu.Stands(w, uart) && KeysKept(emu.kbd, emu.heard, keys)
    ensures emu.at == if old(emu.at) < |w.script| then old(emu.at) + 1 else old(emu.at)
    ensures w.Time(emu.at).Ns() == w.Time(old(emu.at)).clock.NsAt(emu.machine.cycles)
    ensures result.Consumed? ==> emu.machine.cycles == old(emu.machine.cycles) + result.cycles
    ensures match Breaks(w, old(emu.at))
            case Some(message) => result == Broke(message) || (result == Consumed(0) && message == "clock stalled")
            case None => result == Consumed(w.script[old(emu.at)].consumed) && result.cycles > 0
  {
    hide Clock.NsAt, World.Time, World.Events, World.Valid, KeyboardTheorems.After, KeyboardTheorems.Arrivals,
         KeyboardTheorems.Folded;
    ghost var at, heard := emu.at, emu.heard;
    ghost var was := if emu.kbd != null then emu.kbd.View() else KeyboardSpec.POWER_UP;
    result := emu.StepUntil(limit);
    if at < |emu.script| {
      ClockStillTells(w, at);
      if emu.script[at].Ran? {
        BusKept(emu.kbd, was, heard, keys, emu.script[at].bus);
      }
    } else {
      NowAt(w, at);
    }
  }

  lemma ClockStillTells(w: World, k: nat)
    requires w.Valid() && k < |w.script|
    ensures w.Time(k + 1).Ns() == w.Time(k).clock.NsAt(w.State(k + 1).cycles)
  {
    SameAtTheSeam(w, k);
  }

  /** The clock re-based at the end of a turn is the one of the next. */
  lemma Rebases(w: World, k: nat)
    requires w.Valid() && k < |w.script| && w.script[k].Ran?
    ensures w.Time(k + 1).clock == w.Time(k).clock.Rebased(w.State(k + 1).cycles, w.State(k + 1).hz)
    ensures w.Time(k + 1).clock.hz == Rate(w.State(k + 1).hz)
  {
    hide World.Time;
    TimeSteps(w, k);
    CountsTheCycles(w, k);
  }

  /** One turn of the machine, the periodic drain, and the clock re-based to the rate the firmware set. */
  method Turn(emu: Emulator, engine: ScenarioEngine.Engine?, vclock: ClockCell, steps: nat, limit: nat, uart: seq<byte>,
              nextPollCycles: nat, ghost w: World, ghost marks: seq<nat>, ghost preset: seq<KeyEvent>)
    returns (error: Option<string>, all: seq<byte>, next: nat)
    requires LoopKept(emu, engine, w, vclock.clock, uart, nextPollCycles, marks, preset)
    requires engine != null ==> emu.machine.cycles < nextPollCycles
    modifies emu, emu.kbd, vclock
    ensures emu.Stands(w, all) && KeysKept(emu.kbd, emu.heard, Arrived(preset, engine, w, marks))
    ensures error == Breaks(w, old(emu.at))
    ensures error.Some? ==>
      && emu.at == Played(w, Error, old(emu.at))
      && w.Time(emu.at).Ns() == vclock.clock.NsAt(emu.machine.cycles)
    ensures error.None? ==>
      && emu.at == old(emu.at) + 1 && old(emu.machine.cycles) < emu.machine.cycles
      && LoopKept(emu, engine, w, vclock.clock, all, next, marks, preset)
  {
    hide KeysKept, World.Time, World.State, World.Events, World.Output, World.Valid, Following, Clock.NsAt,
         Clock.CyclesAt, Clock.Rebased, ScenarioKeys.Sent;
    all, next := uart, nextPollCycles;
    ghost var at, keys := emu.at, Arrived(preset, engine, w, marks);
    var result := StepMachine(emu, limit, uart, w, keys);
    match result
    case Broke(message) =>
      error := Some(message);
    case Consumed(consumed) =>
      if consumed == 0 {
        error := Some("clock stalled");
        return;
      }
      error := None;
      if (steps + 1) % UART_DRAIN_INTERVAL == 0 {
        var drained := emu.DrainUart();
        all := all + drained;
        assert all + [] == all;
      }
      Rebases(w, at);
      var changed := vclock.Rebase(emu.machine.cycles, emu.machine.hz);
      if engine != null {
        StepFollows(w, engine.scenario, engine.View(), marks, at, nextPollCycles);
        if changed {
          next := Later(vclock.clock.CyclesAt(engine.nextPollNs), emu.machine.cycles + 1);
        }
      }
  }

  /** At the start the first poll is due at once; the keys of the command line have been pushed already. */
  lemma Starts(emu: Emulator, engine: ScenarioEngine.Engine?, w: World, nextPollCycles: nat, preset: seq<KeyEvent>)
    requires emu.at == 0 && emu.txLog == [] && w == emu.InWorld(w.board) && w.Valid() && emu.heard == Pushes(preset)
    requires emu.kbd != null ==> emu.kbd.View() == KeyboardTheorems.PushAll(KeyboardSpec.POWER_UP, preset)
    requires engine != null ==> engine.View() == READY
    requires engine != null ==> nextPollCycles == Booted(emu.machine.hz).CyclesAt(engine.nextPollNs)
    ensures LoopKept(emu, engine, w, Booted(emu.machine.hz), [], nextPollCycles, [], preset)
  {
    hide Fits, KeysKept, KeyboardTheorems.PushAll;
    if engine != null {
      assert nextPollCycles == 0;
    }
    KeysQueued(emu.kbd, preset);
    NothingSent(engine, w, preset);
  }

  lemma KeysQueued(kbd: Keyboard?, preset: seq<KeyEvent>)
    requires kbd != null ==> kbd.View() == KeyboardTheorems.PushAll(KeyboardSpec.POWER_UP, preset)
    ensures KeysKept(kbd, Pushes(preset), preset)
  {
    hide KeyboardTheorems.PushAll;
    HearKeys([], preset);
    assert [] + Pushes(preset) == Pushes(preset);
  }

  lemma NothingSent(engine: ScenarioEngine.Engine?, w: World, preset: seq<KeyEvent>)
    requires w.Valid()
    ensures Arrived(preset, engine, w, []) == preset
  {
  }

  /** Drain what is left and close the books. */
  method Finish(emu: Emulator, clock: Clock, uart: seq<byte>, reason: StopReason, exception: Option<string>,
                error: Option<string>, ghost w: World, ghost turns: nat)
    returns (outcome: RunOutcome)
    requires turns <= |w.script| && emu.Stands(w, uart) && emu.at == Played(w, reason, turns)
    requires w.Time(emu.at).Ns() == clock.NsAt(emu.machine.cycles)
    requires exception == Raised(w, reason, turns) && error == if reason == Error then Breaks(w, turns) else None
    modifies emu`txLog
    ensures emu.Stands(w, outcome.uart) && outcome.stopReason == reason && outcome == Told(w, reason, turns)
  {
    hide World.State, World.Time, World.Output, Clock.NsAt, Raised, Breaks;
    var drained := emu.DrainUart();
    assert uart + drained + [] == uart + drained;
    outcome := RunOutcome(reason, emu.machine.cycles, clock.NsAt(emu.machine.cycles), emu.machine.pc,
                          exception, error, uart + drained);
  }

  lemma NoTurnsYet(w: World, cycleLimit: nat, stopPc: Option<nat>)
    ensures Steady(w, cycleLimit, stopPc, 0)
  {
  }

  /** The scenario's part of a run that stops now. */
  lemma WatchedToTheEnd(w: World, s: Scenario, e: ScenarioSpec.Engine, marks: seq<nat>, at: nat, nextPollCycles: nat,
                        reason: StopReason)
    requires Following(w, s, e, marks, at, nextPollCycles) && marks != []
    requires if reason == ScenarioDone then e.outcome.done && marks[|marks| - 1] == at
             else !e.outcome.done && w.State(at).cycles < nextPollCycles
    ensures Watched(w, s, reason, marks, at)
  {
    hide World.State, World.Time, World.Valid, EngineAfter, OnSchedule;
  }

  lemma AnotherTurn(w: World, cycleLimit: nat, stopPc: Option<nat>, turns: nat)
    requires turns < |w.script| && Steady(w, cycleLimit, stopPc, turns)
    requires StopNow(w.State(turns), cycleLimit, stopPc).None? && Breaks(w, turns).None?
    ensures Steady(w, cycleLimit, stopPc, turns + 1)
  {
    hide World.State, StopNow;
  }

  /** What a finished run leaves behind, of the machine, of the scenario and of the keys. */
  ghost predicate RunKept(emu: Emulator, engine: ScenarioEngine.Engine?, w: World, preset: seq<KeyEvent>,
                          cycleLimit: nat, stopPc: Option<nat>, outcome: RunOutcome, marks: seq<nat>, turns: nat)
    reads emu, emu.kbd, engine
  {
    && Accounted(w, cycleLimit, stopPc, outcome, turns)
    && emu.at == Played(w, outcome.stopReason, turns) && emu.Stands(w, outcome.uart)
    && w.Valid() && Timely(w, marks) && KeysKept(emu.kbd, emu.heard, Arrived(preset, engine, w, marks))
    && (engine == null ==> outcome.stopReason != ScenarioDone)
    && (engine != null ==>
          && Watched(w, engine.scenario, outcome.stopReason, marks, turns)
          && engine.View() == EngineAfter(w, engine.scenario, marks))
  }

  lemma Kept(emu: Emulator, engine: ScenarioEngine.Engine?, w: World, clock: Clock, uart: seq<byte>,
             nextPollCycles: nat, marks: seq<nat>, preset: seq<KeyEvent>)
    requires LoopKept(emu, engine, w, clock, uart, nextPollCycles, marks, preset)
    ensures w.Valid() && Timely(w, marks) && emu.at <= |w.script| && emu.machine == w.State(emu.at)
    ensures engine != null ==>
      && Following(w, engine.scenario, engine.View(), marks, emu.at, nextPollCycles)
      && engine.View() == EngineAfter(w, engine.scenario, marks)
  {
    hide KeysKept, World.State, World.Output, World.Time, World.Valid, EngineAfter, OnSchedule;
  }

  /** Stop before the next turn. */
  method Stop(emu: Emulator, engine: ScenarioEngine.Engine?, clock: Clock, uart: seq<byte>, reason: StopReason,
              exception: Option<string>, ghost nextPollCycles: nat, ghost w: World, ghost marks: seq<nat>,
              ghost preset: seq<KeyEvent>, ghost cycleLimit: nat, ghost stopPc: Option<nat>)
    returns (outcome: RunOutcome)
    requires LoopKept(emu, engine, w, clock, uart, nextPollCycles, marks, preset) && reason != Error
    requires Steady(w, cycleLimit, stopPc, emu.at) && MayStop(w, cycleLimit, stopPc, reason, emu.at)
    requires engine == null ==> reason != ScenarioDone
    requires engine != null ==>
      && marks != []
      && if reason == ScenarioDone then engine.outcome.done && marks[|marks| - 1] == emu.at
         else !engine.outcome.done && emu.machine.cycles < nextPollCycles
    requires exception == Raised(w, reason, emu.at)
    modifies emu`txLog
    ensures RunKept(emu, engine, w, preset, cycleLimit, stopPc, outcome, marks, emu.at)
  {
    hide KeysKept, World.Time, World.State, World.Output, World.Valid, Clock.NsAt, Following, Steady, Raised, Told,
         MayStop, Watched, EngineAfter, ScenarioKeys.Sent;
    NowAt(w, emu.at);
    Kept(emu, engine, w, clock, uart, nextPollCycles, marks, preset);
    if engine != null {
      WatchedToTheEnd(w, engine.scenario, engine.View(), marks, emu.at, nextPollCycles, reason);
    }
    outcome := Finish(emu, clock, uart, reason, exception, None, w, emu.at);
  }

  /** Stop because the turn went wrong. */
  method Fail(emu: Emulator, engine: ScenarioEngine.Engine?, clock: Clock, uart: seq<byte>, error: Option<string>,
              ghost w: World, ghost marks: seq<nat>, ghost turns: nat, ghost preset: seq<KeyEvent>,
              ghost cycleLimit: nat, ghost stopPc: Option<nat>)
    returns (outcome: RunOutcome)
    requires w.Valid() && Timely(w, marks) && turns <= |w.script|
    requires emu.Stands(w, uart) && emu.at == Played(w, Error, turns)
    requires KeysKept(emu.kbd, emu.heard, Arrived(preset, engine, w, marks))
    requires w.Time(emu.at).Ns() == clock.NsAt(emu.machine.cycles)
    requires engine != null ==>
      Watched(w, engine.scenario, Error, marks, turns) && engine.View() == EngineAfter(w, engine.scenario, marks)
    requires Steady(w, cycleLimit, stopPc, turns) && MayStop(w, cycleLimit, stopPc, Error, turns)
    requires error == Breaks(w, turns)
    modifies emu`txLog
    ensures RunKept(emu, engine, w, preset, cycleLimit, stopPc, outcome, marks, turns)
  {
    hide KeysKept, World.Time, World.State, World.Output, World.Valid, Clock.NsAt, Steady, Told, MayStop, Breaks,
         Watched, EngineAfter, ScenarioKeys.Sent;
    outcome := Finish(emu, clock, uart, Error, None, error, w, turns);
  }

  method Run(emu: Emulator, cycleLimit: nat, stopPc: Option<nat>, engine: ScenarioEngine.Engine?, board: Board,
             ghost preset: seq<KeyEvent>)
    returns (outcome: RunOutcome, ghost marks: seq<nat>, ghost turns: nat)
    requires emu.at == 0 && emu.txLog == [] && emu.InWorld(board).Valid() && emu.heard == Pushes(preset)
    requires emu.kbd != null ==> emu.kbd.View() == KeyboardTheorems.PushAll(KeyboardSpec.POWER_UP, preset)
    requires engine != null ==> engine.View() == READY
    modifies emu, emu.kbd, engine
    ensures RunKept(emu, engine, old(emu.InWorld(board)), preset, cycleLimit, stopPc, outcome, marks, turns)
  {
    hide Clock.NsAt, Clock.CyclesAt, KeysKept, LoopKept, RunKept, World.Valid, World.Time, World.State, World.Output,
         Steady, Breaks, StopNow, Told, Watched, Following, EngineAfter, ScenarioKeys.Sent, KeyboardTheorems.PushAll;
    var uart: seq<byte>, steps: nat := [], 0;
    var vclock := new ClockCell(emu.machine.hz);
    var nextPollCycles: nat := if engine != null then vclock.clock.CyclesAt(engine.nextPollNs) else U64_MAX;
    ghost var w := emu.InWorld(board);
    marks := [];
    Starts(emu, engine, w, nextPollCycles, preset);
    NoTurnsYet(w, cycleLimit, stopPc);
    while true
      invariant LoopKept(emu, engine, w, vclock.clock, uart, nextPollCycles, marks, preset)
      invariant emu.at <= |w.script| && Steady(w, cycleLimit, stopPc, emu.at)
      invariant engine != null ==> !engine.outcome.done
      decreases cycleLimit - emu.machine.cycles
    {
      turns := emu.at;
      uart, nextPollCycles, marks := PollIfDue(emu, engine, board, vclock.clock, uart, nextPollCycles, w, marks,
                                               preset);
      Kept(emu, engine, w, vclock.clock, uart, nextPollCycles, marks, preset);
      if engine != null && engine.outcome.done {
        outcome := Stop(emu, engine, vclock.clock, uart, ScenarioDone, None, nextPollCycles, w, marks, preset,
                        cycleLimit, stopPc);
        return;
      }
      var stop := StopNow(emu.machine, cycleLimit, stopPc);
      if stop.Some? {
        var exception := if stop.value == Exception then Some(FatalName(emu.machine.ipsr)) else None;
        outcome := Stop(emu, engine, vclock.clock, uart, stop.value, exception, nextPollCycles, w, marks, preset,
                        cycleLimit, stopPc);
        return;
      }
      var limit := if nextPollCycles < cycleLimit then nextPollCycles else cycleLimit;
      if engine != null {
        WatchedToTheEnd(w, engine.scenario, engine.View(), marks, turns, nextPollCycles, Error);
      }
      var error;
      error, uart, nextPollCycles := Turn(emu, engine, vclock, steps, limit, uart, nextPollCycles, w, marks, preset);
      steps := steps + 1;
      if error.Some? {
        outcome := Fail(emu, engine, vclock.clock, uart, error, w, marks, turns, preset, cycleLimit, stopPc);
        return;
      }
      AnotherTurn(w, cycleLimit, stopPc, turns);
    }
  }
}
