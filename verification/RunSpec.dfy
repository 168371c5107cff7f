/** What a run is: the machine after every quantum, virtual time, and when the scenario gets to look. */
module RunSpec {
  import opened Bits
  import opened ScenarioSpec
  import opened VirtualClock
  import opened Verdict
  import ScenarioTheorems
  import KeyboardTheorems
  import PanelSpec

  type Stimulus = KeyboardTheorems.Stimulus

  predicate BusTraffic(t: seq<Stimulus>) {
    forall i :: 0 <= i < |t| ==> t[i].BusWrite? || t[i].BusRead? || t[i].BusStop?
  }

  type Traffic = t: seq<Stimulus> | BusTraffic(t) witness []
  type Screen = s: seq<PanelSpec.u16> | |s| == PanelSpec.CELLS ghost witness PanelSpec.Black()

  /**
   * One call into the emulator: the cycles it consumed, the machine it left, the UART bytes the
   * firmware sent and what it said to the keyboard controller. Consuming nothing is a stalled clock.
   */
  datatype Quantum =
    | Ran(consumed: nat, hz: nat, pc: nat, ipsr: nat, uart: seq<byte>, bus: Traffic, screen: Screen)
    | Crashed(message: string)

  datatype Machine = Machine(cycles: nat, hz: nat, pc: nat, ipsr: nat, screen: Screen)

  /** What the board has besides the machine. */
  datatype Board = Board(lcd: bool, pngWritable: bool)

  /** The machine at reset, every quantum it would play, and the board around it. */
  datatype World = World(start: Machine, script: seq<Quantum>, board: Board, keyboard: bool) {

    function State(k: nat): Machine
      requires k <= |script|
    {
      if k == 0 then start
      else
        match script[k - 1]
        case Ran(consumed, hz, pc, ipsr, _, _, screen) => Machine(State(k - 1).cycles + consumed, hz, pc, ipsr, screen)
        case Crashed(_) => State(k - 1)
    }

    /** Everything sent over the UART by then. */
    function Output(k: nat): seq<byte>
      requires k <= |script|
    {
      if k == 0 then []
      else
        match script[k - 1]
        case Ran(_, _, _, _, uart, _, _) => Output(k - 1) + uart
        case Crashed(_) => Output(k - 1)
    }

    /** What the quanta do to virtual time. */
    function Events(k: nat): seq<Event>
      requires k <= |script|
    {
      if k == 0 then []
      else
        match script[k - 1]
        case Ran(consumed, hz, _, _, _, _, _) => Events(k - 1) + [Event.Advance(consumed), SetRate(hz)]
        case Crashed(_) => Events(k - 1)
    }

    function Time(k: nat): Timeline
      requires k <= |script|
    {
      After(start.hz, Events(k))
    }

    /** The run starts at cycle zero, and its length fits in 64-bit nanoseconds. */
    predicate Valid() {
      start.cycles == 0 && Fits(start.hz, Events(|script|))
    }

    /** What a poll after k quanta sees. */
    function Seen(k: nat): (obs: Observation)
      requires k <= |script|
      ensures obs.Valid()
    {
      Observation(Time(k).Ns(), State(k).cycles, if board.lcd then Some(State(k).screen) else None, keyboard,
                  Output(k), board.pngWritable)
    }
  }

  // ---- Time over a run --------------------------------------------------------------------

  lemma TimelineGrows(hz: nat, before: seq<Event>, e: Event)
    ensures After(hz, before + [e]) == After(hz, before).Then(e)
  {
    hide Clock.NsAt, Clock.Rebased;
    assert (before + [e])[..|before|] == before;
  }

  /** A quantum that ran moves time on and then re-reads the rate. */
  lemma TimeSteps(w: World, k: nat)
    requires k < |w.script| && w.script[k].Ran?
    ensures w.Time(k + 1) == w.Time(k).Then(Event.Advance(w.script[k].consumed)).Then(SetRate(w.script[k].hz))
  {
    hide Clock.NsAt, Clock.Rebased, After, Timeline.Then;
    var step, seam := Event.Advance(w.script[k].consumed), SetRate(w.script[k].hz);
    assert w.Events(k) + [step, seam] == w.Events(k) + [step] + [seam];
    TimelineGrows(w.start.hz, w.Events(k), step);
    TimelineGrows(w.start.hz, w.Events(k) + [step], seam);
  }

  /** The clock's own count is the machine's. */
  lemma {:induction false} CountsTheCycles(w: World, k: nat)
    requires k <= |w.script| && w.start.cycles == 0
    ensures w.Time(k).now == w.State(k).cycles
  {
    hide Clock.NsAt, Clock.Rebased;
    if k > 0 {
      CountsTheCycles(w, k - 1);
      if w.script[k - 1].Ran? {
        TimeSteps(w, k - 1);
      }
    }
  }

  /** Re-basing does not move the hands: the old clock reads the same at the seam. */
  lemma SameAtTheSeam(w: World, k: nat)
    requires k < |w.script| && w.start.cycles == 0
    ensures w.Time(k + 1).Ns() == w.Time(k).clock.NsAt(w.State(k + 1).cycles)
  {
    hide After;
    CountsTheCycles(w, k);
    CountsTheCycles(w, k + 1);
    if w.script[k].Ran? {
      TimeSteps(w, k);
    }
  }

  lemma {:induction false} EventsPrefix(w: World, j: nat, k: nat)
    requires j <= k <= |w.script|
    ensures |w.Events(j)| <= |w.Events(k)|
    ensures w.Events(k)[..|w.Events(j)|] == w.Events(j)
  {
    if j < k {
      EventsPrefix(w, j, k - 1);
    }
  }

  lemma {:induction false} ExactMonotone(hz: nat, events: seq<Event>, n: nat)
    requires n <= |events|
    ensures Exact(hz, events[..n]) <= Exact(hz, events)
  {
    if n == |events| {
      assert events[..n] == events;
    } else {
      var before, e := events[..|events| - 1], events[|events| - 1];
      if e.Advance? {
        StretchFloor(e.cycles, After(hz, before).clock.hz);
      }
      ExactMonotone(hz, before, n);
      assert before[..n] == events[..n];
    }
  }

  lemma StillFits(w: World, k: nat)
    requires w.Valid() && k <= |w.script|
    ensures Fits(w.start.hz, w.Events(k))
  {
    hide Exact;
    EventsPrefix(w, k, |w.script|);
    ExactMonotone(w.start.hz, w.Events(|w.script|), |w.Events(k)|);
  }

  /** Neither virtual time nor the cycle count ever runs backwards. */
  lemma {:induction false} NeverBackwards(w: World, j: nat, k: nat)
    requires w.Valid() && j <= k <= |w.script|
    ensures w.Seen(j).nowNs <= w.Seen(k).nowNs && w.Seen(j).cycles <= w.Seen(k).cycles
    decreases k
  {
    hide Fits, Clock.NsAt, Clock.Rebased, After;
    StillFits(w, k);
    EventsPrefix(w, j, k);
    NeverDecreases(w.start.hz, w.Events(k), |w.Events(j)|);
    if j < k {
      NeverBackwards(w, j, k - 1);
    }
  }

  lemma {:induction false} OutputGrows(w: World, j: nat, k: nat)
    requires j <= k <= |w.script|
    ensures w.Output(j) <= w.Output(k)
  {
    if j < k {
      OutputGrows(w, j, k - 1);
    }
  }

  // ---- Polls ------------------------------------------------------------------------------

  /** Polls after ever more quanta. */
  predicate Timely(w: World, marks: seq<nat>) {
    && (forall i :: 0 <= i < |marks| ==> marks[i] <= |w.script|)
    && forall i, j :: 0 <= i < j < |marks| ==> marks[i] < marks[j]
  }

  /** What the polls saw. */
  function Polls(w: World, marks: seq<nat>): (polls: seq<Observation>)
    requires w.Valid() && Timely(w, marks)
    ensures |polls| == |marks| && ScenarioTheorems.Ordered(polls)
    ensures forall i :: 0 <= i < |marks| ==> polls[i] == w.Seen(marks[i])
  {
    InOrder(w, marks);
    seq(|marks|, i requires 0 <= i < |marks| => w.Seen(marks[i]))
  }

  lemma InOrder(w: World, marks: seq<nat>)
    requires w.Valid() && Timely(w, marks)
    ensures forall i, j :: 0 <= i < j < |marks| ==>
      w.Seen(marks[i]).nowNs <= w.Seen(marks[j]).nowNs && w.Seen(marks[i]).cycles <= w.Seen(marks[j]).cycles
  {
    hide World.Seen, World.Valid;
    forall i, j | 0 <= i < j < |marks|
      ensures w.Seen(marks[i]).nowNs <= w.Seen(marks[j]).nowNs && w.Seen(marks[i]).cycles <= w.Seen(marks[j]).cycles
    {
      NeverBackwards(w, marks[i], marks[j]);
    }
  }

  lemma PollsBefore(w: World, marks: seq<nat>, n: nat)
    requires w.Valid() && Timely(w, marks) && n <= |marks|
    ensures Timely(w, marks[..n]) && Polls(w, marks[..n]) == Polls(w, marks)[..n]
  {
    hide World.Seen, World.Valid;
  }

  function Later(a: nat, b: nat): nat {
    if a < b then b else a
  }

  /** The cycle count that ns comes to after k quanta, and never the present one again. */
  function Converted(w: World, ns: nat, k: nat): nat
    requires k <= |w.script|
  {
    Later(w.Time(k).clock.CyclesAt(ns), w.State(k).cycles + 1)
  }

  /** When a deadline set after k quanta falls due, as it stands after j: a new rate converts it again. */
  function Due(w: World, ns: nat, k: nat, j: nat): nat
    requires k <= j <= |w.script|
    decreases j
  {
    if j == k then Converted(w, ns, k)
    else if w.Time(j).clock.hz == w.Time(j - 1).clock.hz then Due(w, ns, k, j - 1)
    else Converted(w, ns, j)
  }

  /** A deadline set after k quanta does not fall due before n of them. */
  ghost predicate Quiet(w: World, ns: nat, k: nat, n: nat)
    requires k <= |w.script| && n <= |w.script| + 1
  {
    forall j :: k < j < n ==> w.State(j).cycles < Due(w, ns, k, j)
  }

  /** It falls due after exactly n quanta. */
  ghost predicate FallsDue(w: World, ns: nat, k: nat, n: nat)
    requires n <= |w.script|
  {
    k < n && Quiet(w, ns, k, n) && Due(w, ns, k, n) <= w.State(n).cycles
  }

  /** The engine after all these polls. */
  function EngineAfter(w: World, s: Scenario, marks: seq<nat>): Engine
    requires w.Valid() && Timely(w, marks)
  {
    ScenarioTheorems.After(s, Polls(w, marks))
  }

  /** The first poll comes before anything has run, every later one when the engine's deadline falls due. */
  ghost predicate OnSchedule(w: World, s: Scenario, marks: seq<nat>)
    requires w.Valid() && Timely(w, marks)
  {
    marks == [] ||
    var n := |marks| - 1;
    if n == 0 then marks[0] == 0
    else
      assert Timely(w, marks[..n]);
      var e := EngineAfter(w, s, marks[..n]);
      && OnSchedule(w, s, marks[..n])
      && !e.outcome.done
      && FallsDue(w, e.nextPollNs, marks[n - 1], marks[n])
  }

  // ---- Stops ------------------------------------------------------------------------------

  predicate FatalIpsr(ipsr: nat) {
    ipsr == 2 || ipsr == 3
  }

  function FatalName(ipsr: nat): string
    requires FatalIpsr(ipsr)
  {
    if ipsr == 2 then "NMI" else "HardFault"
  }

  /** The stops that are looked for before every step, in this order. */
  function StopNow(m: Machine, cycleLimit: nat, stopPc: Option<nat>): (stop: Option<StopReason>)
    ensures stop.Some? ==> stop.value != ScenarioDone && stop.value != Error
    ensures stop == Some(Exception) ==> FatalIpsr(m.ipsr)
    ensures stop.None? ==> m.cycles < cycleLimit
  {
    if stopPc == Some(m.pc) then Some(PcMatch)
    else if FatalIpsr(m.ipsr) then Some(Exception)
    else if cycleLimit <= m.cycles then Some(CycleLimit)
    else None
  }

  /** Nothing stopped the first n turns: no stop condition held before any of them, and each made progress. */
  ghost predicate Steady(w: World, cycleLimit: nat, stopPc: Option<nat>, n: nat)
    requires n <= |w.script|
  {
    forall j :: 0 <= j < n ==>
      StopNow(w.State(j), cycleLimit, stopPc).None? && w.script[j].Ran? && w.script[j].consumed > 0
  }

  /** The turn after k quanta goes wrong: the machine crashes, or its clock stands still. */
  function Breaks(w: World, k: nat): Option<string>
    requires k <= |w.script|
  {
    if k < |w.script| && w.script[k].Crashed? then Some(w.script[k].message)
    else if k == |w.script| || w.script[k].consumed == 0 then Some("clock stalled")
    else None
  }

  /** How many quanta have been played when a run of so many turns has ended: a failed turn may play one more. */
  function Played(w: World, reason: StopReason, turns: nat): nat {
    if reason == Error && turns < |w.script| then turns + 1 else turns
  }

  /** Why a run may stop before its next turn, scenario aside. */
  ghost predicate MayStop(w: World, cycleLimit: nat, stopPc: Option<nat>, reason: StopReason, turns: nat)
    requires turns <= |w.script|
  {
    match reason
    case ScenarioDone => true
    case Error => StopNow(w.State(turns), cycleLimit, stopPc).None? && Breaks(w, turns).Some?
    case _ => StopNow(w.State(turns), cycleLimit, stopPc) == Some(reason)
  }

  function Raised(w: World, reason: StopReason, turns: nat): Option<string>
    requires turns <= |w.script|
  {
    if reason == Exception && FatalIpsr(w.State(turns).ipsr) then Some(FatalName(w.State(turns).ipsr)) else None
  }

  /** What is reported of a run that stops after so many turns, down to the last field. */
  function Told(w: World, reason: StopReason, turns: nat): RunOutcome
    requires turns <= |w.script|
  {
    var at := Played(w, reason, turns);
    RunOutcome(reason, w.State(at).cycles, w.Time(at).Ns(), w.State(at).pc, Raised(w, reason, turns),
               if reason == Error then Breaks(w, turns) else None, w.Output(at))
  }

  /** A run that went on for so many turns, no further and no less, and tells it as it was. */
  ghost predicate Accounted(w: World, cycleLimit: nat, stopPc: Option<nat>, o: RunOutcome, turns: nat) {
    && turns <= |w.script| && Steady(w, cycleLimit, stopPc, turns)
    && MayStop(w, cycleLimit, stopPc, o.stopReason, turns)
    && o == Told(w, o.stopReason, turns)
  }

  /** The polls of a run: all on schedule, none left out, and the last one is the one that ended it, if any did. */
  ghost predicate Watched(w: World, s: Scenario, reason: StopReason, marks: seq<nat>, turns: nat) {
    && w.Valid() && Timely(w, marks) && OnSchedule(w, s, marks)
    && marks != [] && marks[|marks| - 1] <= turns <= |w.script|
    && var e := EngineAfter(w, s, marks);
       if reason == ScenarioDone then e.outcome.done && marks[|marks| - 1] == turns
       else !e.outcome.done && Quiet(w, e.nextPollNs, marks[|marks| - 1], turns + 1)
  }
}
