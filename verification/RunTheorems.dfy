/** What the loop's schedule means for the scenario: when its polls come too early, and what a pass has shown. */
module RunTheorems {
  import opened Bits
  import opened ScenarioSpec
  import opened VirtualClock
  import opened Verdict
  import opened RunSpec
  import ScenarioTheorems
  import opened ScenarioSpans
  import opened ScenarioKeys

  // ---- Early polls ------------------------------------------------------------------------

  lemma SameRateSameClock(w: World, k: nat)
    requires k < |w.script| && w.Time(k + 1).clock.hz == w.Time(k).clock.hz
    ensures w.Time(k + 1).clock == w.Time(k).clock
  {
    if w.script[k].Ran? {
      TimeSteps(w, k);
    }
  }

  /** A deadline never falls due before the cycle it converts to, nor at the cycle it was set. */
  lemma {:induction false} DueBounds(w: World, ns: nat, k: nat, j: nat)
    requires w.Valid() && k <= j <= |w.script|
    ensures w.Time(j).clock.CyclesAt(ns) <= Due(w, ns, k, j) && w.State(k).cycles < Due(w, ns, k, j)
    decreases j
  {
    hide World.Time, World.State, World.Valid, Clock.CyclesAt;
    if j > k {
      NeverBackwards(w, k, j);
      if w.Time(j).clock.hz == w.Time(j - 1).clock.hz {
        SameRateSameClock(w, j - 1);
        DueBounds(w, ns, k, j - 1);
      }
    }
  }

  lemma StillInRange(w: World, k: nat)
    requires w.Valid() && k <= |w.script|
    ensures InRange(w.Time(k).clock, w.State(k).cycles)
  {
    hide Fits, Drift;
    StillFits(w, k);
    RunDrift(w.start.hz, w.Events(k));
    InRangeOf(w.start.hz, w.Events(k));
    CountsTheCycles(w, k);
  }

  lemma InRangeOf(hz: nat, events: seq<Event>)
    requires Fits(hz, events)
    ensures var t := After(hz, events); InRange(t.clock, t.now)
  {
    RunDrift(hz, events);
    DriftBounds(After(hz, events), Exact(hz, events), Changes(hz, events));
  }

  /** The deadline converts to the very cycle the machine is at, but does not lie on the cycle grid. */
  predicate RoundedDown(w: World, ns: nat, n: nat)
    requires n <= |w.script|
  {
    w.State(n).cycles == w.Time(n).clock.CyclesAt(ns) && !OnCycle(w.Time(n).clock, ns)
  }

  lemma EarlyIffRounded(c: Clock, ns: nat, cycles: nat)
    requires c.CyclesAt(ns) <= cycles < U64_MAX && InRange(c, cycles)
    ensures c.NsAt(cycles) < ns <==> cycles == c.CyclesAt(ns) && !OnCycle(c, ns)
  {
    if c.epochNs <= ns {
      assert Unsaturated(c, ns);
      ReachedIff(c, ns, cycles);
    } else {
      assert c.NsAt(cycles) >= c.epochNs;
      assert VirtualClock.Since(ns, c.epochNs) * c.hz == 0;
    }
  }

  /**
   * A poll of a run comes before its deadline exactly when the conversion to cycles rounded down
   * and the machine is there.
   */
  lemma EarlyPollIff(w: World, ns: nat, k: nat, n: nat)
    requires w.Valid() && n <= |w.script| && FallsDue(w, ns, k, n) && w.State(n).cycles < U64_MAX
    ensures w.Seen(n).nowNs < ns <==> RoundedDown(w, ns, n)
  {
    hide Quiet, World.State, World.Output, World.Time, World.Valid, OnCycle, InRange, Clock.NsAt, Clock.CyclesAt;
    DueBounds(w, ns, k, n);
    StillInRange(w, n);
    EarlyIffRounded(w.Time(n).clock, ns, w.State(n).cycles);
    ClockReads(w, n);
  }

  lemma ClockReads(w: World, n: nat)
    requires w.Valid() && n <= |w.script|
    ensures w.Seen(n).nowNs == w.Time(n).clock.NsAt(w.State(n).cycles)
  {
    hide World.Time;
    CountsTheCycles(w, n);
  }

  /** At poll i a replay with events left meets a deadline that was rounded down. */
  predicate Misses(w: World, s: Scenario, marks: seq<nat>, i: nat)
    requires w.Valid() && Timely(w, marks) && i < |marks|
  {
    assert Timely(w, marks[..i]);
    var e := EngineAfter(w, s, marks[..i]);
    && e.index < |s.steps| && s.steps[e.index].KeyEvents?
    && e.pending.Replaying? && e.pending.events != []
    && w.keyboard && RoundedDown(w, e.nextPollNs, marks[i])
  }

  lemma LosesIffMisses(w: World, s: Scenario, marks: seq<nat>)
    requires w.Valid() && Timely(w, marks) && marks != [] && OnSchedule(w, s, marks)
    requires w.State(marks[|marks| - 1]).cycles < U64_MAX
    ensures var n := |marks| - 1;
            && Timely(w, marks[..n])
            && (LosesEvent(s, EngineAfter(w, s, marks[..n]), w.Seen(marks[n])) <==> Misses(w, s, marks, n))
  {
    hide World.Seen, World.State, World.Valid, RoundedDown, ScenarioTheorems.Good, Balanced;
    var n := |marks| - 1;
    var e := EngineAfter(w, s, marks[..n]);
    RunSends(s, Polls(w, marks[..n]));
    hide ScenarioTheorems.After;
    SeesKeyboard(w, marks[n]);
    if n > 0 {
      EarlyPollIff(w, e.nextPollNs, marks[n - 1], marks[n]);
    } else {
      NothingAsked(s, w, marks[..n]);
    }
  }

  lemma SeesKeyboard(w: World, k: nat)
    requires k <= |w.script|
    ensures w.Seen(k).keyboard == w.keyboard && w.Seen(k).cycles == w.State(k).cycles
  {
  }

  lemma NothingAsked(s: Scenario, w: World, marks: seq<nat>)
    requires w.Valid() && Timely(w, marks) && marks == []
    ensures EngineAfter(w, s, marks) == READY
  {
  }

  lemma LostGrows(w: World, s: Scenario, marks: seq<nat>)
    requires w.Valid() && Timely(w, marks) && marks != []
    ensures var n := |marks| - 1;
            && Timely(w, marks[..n])
            && Lost(s, Polls(w, marks)) == Lost(s, Polls(w, marks[..n])) +
                 if LosesEvent(s, EngineAfter(w, s, marks[..n]), w.Seen(marks[n])) then 1 else 0
  {
    hide World.Seen, World.Valid, LosesEvent, ScenarioTheorems.After;
    PollsBefore(w, marks, |marks| - 1);
  }

  lemma MissesBefore(w: World, s: Scenario, marks: seq<nat>, n: nat, i: nat)
    requires w.Valid() && Timely(w, marks) && i < n <= |marks|
    ensures Timely(w, marks[..n]) && (Misses(w, s, marks, i) <==> Misses(w, s, marks[..n], i))
  {
    hide World.Valid, EngineAfter, RoundedDown;
    assert marks[..i] == marks[..n][..i];
  }

  lemma OnScheduleBefore(w: World, s: Scenario, marks: seq<nat>)
    requires w.Valid() && Timely(w, marks) && OnSchedule(w, s, marks) && marks != []
    ensures Timely(w, marks[..|marks| - 1]) && OnSchedule(w, s, marks[..|marks| - 1])
  {
    hide World.Valid, EngineAfter;
  }

  /**
   * A run loses no replayed key exactly when no poll finds a replay waiting for a deadline that the
   * conversion to cycles rounded down to the cycle the machine is at.
   */
  lemma {:induction false} LosesNothingIff(w: World, s: Scenario, marks: seq<nat>)
    requires w.Valid() && Timely(w, marks) && OnSchedule(w, s, marks)
    requires forall i :: 0 <= i < |marks| ==> w.State(marks[i]).cycles < U64_MAX
    ensures Lost(s, Polls(w, marks)) == 0 <==> forall i :: 0 <= i < |marks| ==> !Misses(w, s, marks, i)
  {
    hide World.State, World.Valid, EngineAfter, LosesEvent, OnSchedule, Lost, Misses;
    if marks == [] {
      NoPollsNoLoss(w, s, marks);
    } else {
      var n := |marks| - 1;
      OnScheduleBefore(w, s, marks);
      LosesNothingIff(w, s, marks[..n]);
      LostGrows(w, s, marks);
      LosesIffMisses(w, s, marks);
      forall i | 0 <= i < n
        ensures Misses(w, s, marks, i) <==> Misses(w, s, marks[..n], i)
      {
        MissesBefore(w, s, marks, n, i);
      }
    }
  }

  lemma NoPollsNoLoss(w: World, s: Scenario, marks: seq<nat>)
    requires w.Valid() && Timely(w, marks) && marks == []
    ensures Lost(s, Polls(w, marks)) == 0
  {
  }

  // ---- What a pass has shown --------------------------------------------------------------

  lemma OccursInLonger(needle: seq<byte>, hay: seq<byte>, longer: seq<byte>)
    requires Occurs(needle, hay) && hay <= longer
    ensures Occurs(needle, longer)
  {
    var i :| 0 <= i <= |hay| && StartsAt(needle, hay, i);
    assert longer[i..i + |needle|] == hay[i..i + |needle|];
    assert StartsAt(needle, longer, i);
  }

  /** The condition of a step held at a moment of the run, looked at from some moment no later. */
  ghost predicate Shown(c: Condition, w: World, marks: seq<nat>)
    requires w.Valid() && Timely(w, marks)
  {
    exists p, q :: 0 <= p <= q < |marks| && ScenarioTheorems.Met(c, Polls(w, marks), p, q)
  }

  /** The output a step waits for or asserts. */
  function TextOf(op: Op): Option<seq<byte>> {
    match ConditionOf(op)
    case Some(UartContains(text)) => Some(text)
    case _ => None
  }

  lemma OutputShown(text: seq<byte>, w: World, marks: seq<nat>, turns: nat)
    requires w.Valid() && Timely(w, marks) && Shown(UartContains(text), w, marks)
    requires turns <= |w.script| && marks != [] && marks[|marks| - 1] <= turns
    ensures Occurs(text, w.Output(turns))
  {
    hide World.State, World.Time, World.Output, World.Valid, Occurs;
    var p, q :| 0 <= p <= q < |marks| && ScenarioTheorems.Met(UartContains(text), Polls(w, marks), p, q);
    assert Polls(w, marks)[q] == w.Seen(marks[q]);
    OutputGrows(w, marks[q], turns);
    OccursInLonger(text, w.Output(marks[q]), w.Output(turns));
  }

  /** What a passed scenario has shown of the machine, for good and in time. */
  ghost predicate Proven(w: World, s: Scenario, marks: seq<nat>, turns: nat)
    requires w.Valid() && Timely(w, marks) && turns <= |w.script|
  {
    var polls, e := Polls(w, marks), EngineAfter(w, s, marks);
    && ScenarioTheorems.EveryStepPassed(s, e)
    && (exists ends :: Explained(s, polls, ends))
    && (forall i :: 0 <= i < |s.steps| && ConditionOf(s.steps[i]).Some? ==>
          Shown(ConditionOf(s.steps[i]).value, w, marks))
    && (forall i :: 0 <= i < |s.steps| && TextOf(s.steps[i]).Some? ==>
          Occurs(TextOf(s.steps[i]).value, w.Output(turns)))
    && LeastTotalNs(s, |s.steps|) <= w.Time(turns).Ns()
    && var all := ScriptUpTo(s, |s.steps|);
       && Rising(LostAt(s, polls), |all|) && Sent(s, polls) == Without(all, LostAt(s, polls))
       && |Sent(s, polls)| + Lost(s, polls) == |all|
       && (Sent(s, polls) == all <==> Lost(s, polls) == 0)
  }

  lemma TimeShown(w: World, s: Scenario, marks: seq<nat>, turns: nat)
    requires Watched(w, s, ScenarioDone, marks, turns) && EngineAfter(w, s, marks).Passed()
    ensures LeastTotalNs(s, |s.steps|) <= w.Time(turns).Ns()
  {
    hide World.State, World.Time, World.Output, World.Valid, OnSchedule, ScenarioTheorems.After, LeastTotalNs;
    WaitsAddUp(s, Polls(w, marks));
  }

  lemma StepsShown(w: World, s: Scenario, marks: seq<nat>, i: nat)
    requires w.Valid() && Timely(w, marks) && marks != [] && i < |s.steps|
    requires ScenarioTheorems.EveryStepPassed(s, EngineAfter(w, s, marks))
    ensures ConditionOf(s.steps[i]).Some? ==> Shown(ConditionOf(s.steps[i]).value, w, marks)
  {
    hide World.Valid, ScenarioTheorems.After, ScenarioTheorems.Met;
    PassedStepSawIt(s, Polls(w, marks), i);
  }

  /** A passed scenario on schedule has shown everything its steps were to show. */
  lemma PassProves(w: World, s: Scenario, marks: seq<nat>, turns: nat)
    requires Watched(w, s, ScenarioDone, marks, turns) && EngineAfter(w, s, marks).Passed()
    ensures Proven(w, s, marks, turns)
  {
    hide World.State, World.Time, World.Output, World.Valid, OnSchedule, ScenarioTheorems.After, LeastTotalNs,
         Explained, Shown, Sent, LostAt, Lost, Without, ScriptUpTo, Occurs, ScenarioTheorems.EveryStepPassed,
         StillCurrent;
    var polls := Polls(w, marks);
    AllPassed(s, polls);
    StepsEndWhenOver(s, polls);
    TimeShown(w, s, marks, turns);
    PassedSendsScript(s, polls);
    forall i | 0 <= i < |s.steps|
      ensures ConditionOf(s.steps[i]).Some? ==> Shown(ConditionOf(s.steps[i]).value, w, marks)
    {
      StepsShown(w, s, marks, i);
    }
    forall i | 0 <= i < |s.steps| && TextOf(s.steps[i]).Some?
      ensures Occurs(TextOf(s.steps[i]).value, w.Output(turns))
    {
      OutputShown(TextOf(s.steps[i]).value, w, marks, turns);
    }
  }

  lemma AllPassed(s: Scenario, polls: seq<Observation>)
    requires ScenarioTheorems.Ordered(polls) && ScenarioTheorems.After(s, polls).Passed()
    ensures ScenarioTheorems.EveryStepPassed(s, ScenarioTheorems.After(s, polls))
  {
    hide ScenarioTheorems.After;
    ScenarioTheorems.RunKeeps(s, polls);
  }

  // ---- Stops ------------------------------------------------------------------------------

  /**
   * The stop address wins over a fatal exception, and that over the cycle limit; fatal are NMI and
   * HardFault, numbers 2 and 3 of the ARMv6-M exception model, and no other.
   */
  lemma StopsInOrder(m: Machine, cycleLimit: nat, stopPc: Option<nat>)
    ensures var stop := StopNow(m, cycleLimit, stopPc);
            && (stop == Some(PcMatch) <==> stopPc == Some(m.pc))
            && (stop == Some(Exception) <==> stopPc != Some(m.pc) && m.ipsr in {2, 3})
            && (stop == Some(CycleLimit) <==> stopPc != Some(m.pc) && m.ipsr !in {2, 3} && m.cycles >= cycleLimit)
    ensures m.ipsr == 2 ==> FatalName(m.ipsr) == "NMI"
    ensures m.ipsr == 3 ==> FatalName(m.ipsr) == "HardFault"
  {
  }
}
