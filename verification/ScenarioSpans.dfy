/** When the steps of a scenario end: each at the first poll at which it is over, to the nanosecond. */
module ScenarioSpans {
  import opened Bits
  import opened ScenarioKeys
  import opened ScenarioSpec
  import opened ScenarioTheorems
  import opened ScenarioTyping

  /** A step that started at poll p has nothing left to wait for at poll j. */
  predicate Over(op: Op, polls: seq<Observation>, p: nat, j: nat)
    requires p <= j < |polls|
  {
    match op
    case Wait(ms) => polls[p].nowNs + ms * MS <= polls[j].nowNs
    case WaitCycles(cycles) => p < j && polls[p].cycles + cycles <= polls[j].cycles
    case WaitUntil(c, timeoutMs) => Met(c, polls, p, j) || polls[p].nowNs + timeoutMs * MS <= polls[j].nowNs
    case Snapshot(_) => true
    case Assert(_) => true
    case _ => AllTaken(op, polls, p, j)
  }

  /** The step passes unless its condition failed. */
  predicate Deserves(op: Op, status: StepStatus, polls: seq<Observation>, p: nat, q: nat)
    requires p <= q < |polls|
  {
    match op
    case WaitUntil(c, _) => Runnable(c, polls, p, q + 1) && status == if Met(c, polls, p, q) then Pass else Fail
    case Assert(c) => Runnable(c, polls, p, q + 1) && status == if Met(c, polls, p, q) then Pass else Fail
    case _ => status == Pass
  }

  /** A result that says: started at poll p, ended at poll q, the first at which the step was over. */
  predicate Span(op: Op, r: StepResult, polls: seq<Observation>, p: nat, q: nat) {
    && p <= q < |polls|
    && r.atMs == polls[q].nowNs / MS && r.atCycles == polls[q].cycles
    && Deserves(op, r.status, polls, p, q)
    && Over(op, polls, p, q) && forall j :: p <= j < q ==> !Over(op, polls, p, j)
  }

  /** The moment a step that watches the clock asks to be polled by, at the latest. */
  function DueNs(op: Op, startNs: nat): Option<nat> {
    match op
    case Wait(ms) => Some(startNs + ms * MS)
    case WaitUntil(_, timeoutMs) => Some(startNs + timeoutMs * MS)
    case _ => None
  }

  /** What the engine remembers of a step that started at poll p and was still blocked at poll n - 1. */
  predicate Remembers(op: Op, pending: Pending, polls: seq<Observation>, p: nat, n: nat)
    requires p < n <= |polls|
  {
    match op
    case Wait(ms) => pending == Waiting(polls[p].nowNs + ms * MS)
    case WaitCycles(cycles) => pending == Counting(polls[p].cycles + cycles)
    case WaitUntil(c, timeoutMs) =>
      && Runnable(c, polls, p, n)
      && pending == Watching(polls[p].nowNs + timeoutMs * MS, HistoryOver(c, polls, p, n))
    case Key(_, _, _) => pending == Queue(op, polls, Tallied(op, polls, p, n - 1))
    case KeyEvents(_, _) => pending == Queue(op, polls, Tallied(op, polls, p, n - 1))
    case _ => false
  }

  predicate Current(op: Op, pending: Pending, nextPollNs: nat, polls: seq<Observation>, p: nat, n: nat) {
    && p < n <= |polls|
    && Remembers(op, pending, polls, p, n)
    && (forall j :: p <= j < n ==> !Over(op, polls, p, j))
    && (DueNs(op, polls[p].nowNs).Some? ==> nextPollNs <= DueNs(op, polls[p].nowNs).value)
    && (op.Wait? ==> nextPollNs == DueNs(op, polls[p].nowNs).value)
    && (SendsKeys(op) ==> nextPollNs == polls[Tallied(op, polls, p, n - 1).at].nowNs + GapNs(op))
  }

  predicate AllValid(polls: seq<Observation>) {
    forall i :: 0 <= i < |polls| ==> polls[i].Valid()
  }

  lemma WatchSpans(op: Op, pending: Pending, nextPollNs: nat, polls: seq<Observation>, p: nat, n: nat, pollMs: Positive,
                   index: nat)
    requires AllValid(polls) && p <= n < |polls| && op.WaitUntil?
    requires if pending.Fresh? then p == n else p < n && Current(op, pending, nextPollNs, polls, p, n)
    ensures var a := Advanced(op, pending, nextPollNs, polls[n], pollMs);
            && (a.progress.Finished? ==> Span(op, ResultOf(index, a.progress.status, polls[n]), polls, p, n))
            && (a.progress.Blocked? ==> Current(op, a.pending, a.nextPollNs, polls, p, n + 1))
  {
    hide Holds, Remembered;
    var c := op.condition;
    assert Runnable(c, polls, p, n) && (Unrunnable(c, polls[n]) || Runnable(c, polls, p, n + 1));
    var past := HistoryOver(c, polls, p, n);
    var a := Advanced(op, pending, nextPollNs, polls[n], pollMs);
    var deadline := polls[p].nowNs + op.timeoutMs * MS;
    assert a == Watch(c, polls[n], deadline, past, pollMs, nextPollNs);
    if a.progress.Blocked? {
      assert a.pending == Watching(deadline, HistoryOver(c, polls, p, n + 1));
      assert !Over(op, polls, p, n);
    }
  }

  lemma KeySpans(op: Op, pending: Pending, nextPollNs: nat, polls: seq<Observation>, p: nat, n: nat, pollMs: Positive,
                 index: nat)
    requires AllValid(polls) && p <= n < |polls| && SendsKeys(op)
    requires if pending.Fresh? then p == n else p < n && Current(op, pending, nextPollNs, polls, p, n)
    ensures var a := Advanced(op, pending, nextPollNs, polls[n], pollMs);
            && a.keys == (if a.progress.Faulted? then [] else KeysAt(op, polls, p, n))
            && (a.progress.Finished? ==> Span(op, ResultOf(index, a.progress.status, polls[n]), polls, p, n))
            && (a.progress.Blocked? ==> Current(op, a.pending, a.nextPollNs, polls, p, n + 1))
  {
    hide TypeWait, ReplayWait, Tallied, AllTaken, KeysAt, Queue, Repeated;
    if polls[n].keyboard {
      if pending.Fresh? {
        FirstLookTallies(op, nextPollNs, polls, n, pollMs);
      } else {
        assert !Over(op, polls, p, n - 1);
        if op.Key? {
          NextLookTypes(op, nextPollNs, polls, p, n, pollMs);
        } else {
          NextLookReplays(op, nextPollNs, polls, p, n, pollMs);
        }
      }
    }
  }

  lemma StepSpans(op: Op, pending: Pending, nextPollNs: nat, polls: seq<Observation>, p: nat, n: nat, pollMs: Positive,
                  index: nat)
    requires AllValid(polls) && p <= n < |polls| && Underway(op, pending)
    requires if pending.Fresh? then p == n else p < n && Current(op, pending, nextPollNs, polls, p, n)
    ensures var a := Advanced(op, pending, nextPollNs, polls[n], pollMs);
            && a.keys == (if a.progress.Faulted? then [] else KeysAt(op, polls, p, n))
            && (a.progress.Finished? ==> Span(op, ResultOf(index, a.progress.status, polls[n]), polls, p, n))
            && (a.progress.Blocked? ==> Current(op, a.pending, a.nextPollNs, polls, p, n + 1))
  {
    hide Holds, Remembered, TypeWait, ReplayWait, Tallied, AllTaken, Queue;
    if op.WaitUntil? {
      WatchSpans(op, pending, nextPollNs, polls, p, n, pollMs, index);
    } else if SendsKeys(op) {
      KeySpans(op, pending, nextPollNs, polls, p, n, pollMs, index);
    }
  }

  // ---- Whole runs -------------------------------------------------------------------------

  /** Step i starts at the poll at which the one before it ended. */
  function StartPoll(ends: seq<nat>, i: nat): nat
    requires i <= |ends|
  {
    if i == 0 then 0 else ends[i - 1]
  }

  predicate Increasing(ends: seq<nat>, n: nat) {
    && (forall i :: 0 <= i < |ends| ==> ends[i] < n)
    && forall i, j :: 0 <= i < j < |ends| ==> ends[i] <= ends[j]
  }

  /** Each finished step spans the polls from its start to its end; a result that is a fault spans none. */
  ghost predicate Spanned(s: Scenario, e: Engine, polls: seq<Observation>, ends: seq<nat>) {
    && |ends| == |e.results| <= |s.steps|
    && Increasing(ends, |polls|)
    && forall i :: 0 <= i < |ends| && !(e.outcome.fault && i == |ends| - 1) ==>
         Span(s.steps[i], e.results[i], polls, StartPoll(ends, i), ends[i])
  }

  /** After n polls the step under way is still blocked, and asks for no poll beyond its deadline. */
  ghost predicate StillCurrent(s: Scenario, e: Engine, polls: seq<Observation>, ends: seq<nat>, n: nat) {
    !e.outcome.done ==>
      && e.index < |s.steps| && e.index <= |ends| && !e.pending.Fresh? && StartPoll(ends, e.index) < n
      && Current(s.steps[e.index], e.pending, e.nextPollNs, polls, StartPoll(ends, e.index), n)
  }

  /** Where the step under way stands when poll n comes. */
  ghost predicate AtPoll(s: Scenario, e: Engine, polls: seq<Observation>, ends: seq<nat>, n: nat)
    requires e.index < |s.steps| && e.index <= |ends|
  {
    var p := StartPoll(ends, e.index);
    && p <= n < |polls|
    && (if e.pending.Fresh? then p == n
        else p < n && Current(s.steps[e.index], e.pending, e.nextPollNs, polls, p, n))
  }

  lemma SpansGrow(s: Scenario, e: Engine, a: Advance, polls: seq<Observation>, ends: seq<nat>, n: nat)
    requires Orderly(s, e) && !e.outcome.done && e.index < |s.steps| && n < |polls|
    requires Spanned(s, e, polls, ends) && Increasing(ends, n + 1) && !a.progress.Blocked?
    requires a.progress.Finished? ==>
      Span(s.steps[e.index], ResultOf(e.index, a.progress.status, polls[n]), polls, StartPoll(ends, e.index), n)
    ensures Spanned(s, Entered(e, a, polls[n]), polls, ends + [n]) && Increasing(ends + [n], n + 1)
  {
    hide Span, InTurn, HasStatus;
    var d, longer := Entered(e, a, polls[n]), ends + [n];
    assert forall i :: 0 <= i < |ends| ==> longer[i] == ends[i] && d.results[i] == e.results[i];
    assert forall i :: 0 <= i <= |ends| ==> StartPoll(longer, i) == StartPoll(ends, i);
  }

  // ---- What was sent ----------------------------------------------------------------------

  /** What the first i steps sent, each over the polls of its own span. */
  function SentUpTo(s: Scenario, polls: seq<Observation>, ends: seq<nat>, i: nat): seq<KeyEvent>
    requires Increasing(ends, |polls|) && i <= |ends| && i <= |s.steps|
  {
    if i == 0 then []
    else SentUpTo(s, polls, ends, i - 1) + KeysOver(s.steps[i - 1], polls, StartPoll(ends, i - 1), ends[i - 1] + 1)
  }

  /** What the polls before n sent: the finished steps, and then the one under way, or the one that faulted. */
  ghost function SentBefore(s: Scenario, e: Engine, polls: seq<Observation>, ends: seq<nat>, n: nat): seq<KeyEvent>
    requires Increasing(ends, |polls|) && |ends| <= |s.steps| && n <= |polls|
  {
    var k := |ends|;
    if e.outcome.fault && k > 0 then
      SentUpTo(s, polls, ends, k - 1) + KeysOver(s.steps[k - 1], polls, StartPoll(ends, k - 1), ends[k - 1])
    else if k < |s.steps| && StartPoll(ends, k) <= n then
      SentUpTo(s, polls, ends, k) + KeysOver(s.steps[k], polls, StartPoll(ends, k), n)
    else SentUpTo(s, polls, ends, k)
  }

  lemma {:induction false} SentUpToGrows(s: Scenario, polls: seq<Observation>, ends: seq<nat>, n: nat, i: nat)
    requires Increasing(ends, |polls|) && Increasing(ends + [n], |polls|) && i <= |ends| && i <= |s.steps|
    ensures SentUpTo(s, polls, ends + [n], i) == SentUpTo(s, polls, ends, i)
  {
    hide KeysOver;
    if i > 0 {
      SentUpToGrows(s, polls, ends, n, i - 1);
    }
  }

  /** One look of a poll: what it sends comes to what has been sent. */
  lemma LookSends(s: Scenario, e: Engine, a: Advance, polls: seq<Observation>, ends: seq<nat>, n: nat)
    requires Orderly(s, e) && !e.outcome.done && e.index < |s.steps| && n < |polls| && |ends| == |e.results|
    requires Increasing(ends, n + 1) && StartPoll(ends, e.index) <= n
    requires a.keys == if a.progress.Faulted? then [] else KeysAt(s.steps[e.index], polls, StartPoll(ends, e.index), n)
    ensures var sent, d := SentBefore(s, e, polls, ends, n) + a.keys, Entered(e, a, polls[n]);
            && (a.progress.Blocked? ==> sent == SentBefore(s, d, polls, ends, n + 1))
            && (!a.progress.Blocked? ==>
                  Increasing(ends + [n], n + 1) && |ends + [n]| <= |s.steps| &&
                  sent == SentBefore(s, d, polls, ends + [n], if a.progress.Faulted? then n + 1 else n))
  {
    hide KeysAt, InTurn, HasStatus;
    var op, p := s.steps[e.index], StartPoll(ends, e.index);
    var done := SentUpTo(s, polls, ends, e.index);
    assert done + KeysOver(op, polls, p, n) + KeysAt(op, polls, p, n) ==
           done + (KeysOver(op, polls, p, n) + KeysAt(op, polls, p, n));
    if !a.progress.Blocked? {
      SentUpToGrows(s, polls, ends, n, e.index);
      var longer := ends + [n];
      assert StartPoll(longer, e.index) == p && longer[e.index] == n && StartPoll(longer, e.index + 1) == n;
      assert done + KeysOver(op, polls, p, n) + [] == done + KeysOver(op, polls, p, n);
      if a.progress.Finished? && e.index + 1 < |s.steps| {
        assert SentUpTo(s, polls, longer, e.index + 1) + KeysOver(s.steps[e.index + 1], polls, n, n) ==
               SentUpTo(s, polls, longer, e.index + 1);
      }
    }
  }

  /** A poll of an engine that has nothing more to do sends nothing. */
  lemma NoneSent(s: Scenario, e: Engine, d: Engine, polls: seq<Observation>, ends: seq<nat>, n: nat)
    requires Increasing(ends, |polls|) && |ends| <= |s.steps| && n < |polls| && d.outcome.fault == e.outcome.fault
    requires (e.outcome.fault && |ends| > 0) || |ends| == |s.steps|
    ensures SentBefore(s, d, polls, ends, n + 1) == SentBefore(s, e, polls, ends, n) + []
  {
    hide KeysOver, SentUpTo;
  }

  lemma {:induction false} PollSpans(s: Scenario, e: Engine, polls: seq<Observation>, ends: seq<nat>, n: nat)
    returns (longer: seq<nat>)
    requires AllValid(polls) && n < |polls| && Good(s, e) && NotBefore(e, polls[n])
    requires Spanned(s, e, polls, ends) && Increasing(ends, n + 1)
    requires !e.outcome.done && e.index < |s.steps| ==> AtPoll(s, e, polls, ends, n)
    ensures var (d, keys) := Polled(s, e, polls[n]);
            && Spanned(s, d, polls, longer) && Increasing(longer, n + 1) && StillCurrent(s, d, polls, longer, n + 1)
            && SentBefore(s, d, polls, longer, n + 1) == SentBefore(s, e, polls, ends, n) + keys
    decreases |s.steps| - e.index
  {
    hide Advanced, Current, Span, SentBefore, KeysAt, InTurn, HasStatus;
    longer := ends;
    var obs := polls[n];
    if e.outcome.done || |s.steps| <= e.index {
      NoneSent(s, e, Polled(s, e, obs).0, polls, ends, n);
    } else {
      var a := Advanced(s.steps[e.index], e.pending, e.nextPollNs, obs, s.pollMs);
      var d := Entered(e, a, obs);
      RoundKeeps(s, e, obs);
      StepSpans(s.steps[e.index], e.pending, e.nextPollNs, polls, StartPoll(ends, e.index), n, s.pollMs, e.index);
      LookSends(s, e, a, polls, ends, n);
      if !a.progress.Blocked? {
        SpansGrow(s, e, a, polls, ends, n);
        longer := ends + [n];
        if a.progress.Finished? {
          longer := PollSpans(s, d, polls, longer, n);
          assert SentBefore(s, e, polls, ends, n) + (a.keys + Polled(s, d, obs).1) ==
                 SentBefore(s, e, polls, ends, n) + a.keys + Polled(s, d, obs).1;
        }
      }
    }
  }

  lemma NothingSentYet(s: Scenario, polls: seq<Observation>)
    ensures SentBefore(s, READY, polls, [], 0) == []
  {
  }

  lemma {:induction false} RunSpans(s: Scenario, polls: seq<Observation>, n: nat) returns (ends: seq<nat>)
    requires Ordered(polls) && n <= |polls|
    ensures Ordered(polls[..n])
    ensures var e := After(s, polls[..n]);
            && Spanned(s, e, polls, ends) && Increasing(ends, n)
            && (n > 0 ==> StillCurrent(s, e, polls, ends, n))
            && Sent(s, polls[..n]) == SentBefore(s, e, polls, ends, n)
  {
    hide Polled, Span, Current, SentBefore;
    if n == 0 {
      ends := [];
      NothingSentYet(s, polls);
    } else {
      var earlier := RunSpans(s, polls, n - 1);
      assert polls[..n][..n - 1] == polls[..n - 1];
      GoodBefore(s, polls[..n]);
      RunKeeps(s, polls[..n - 1]);
      ends := PollSpans(s, After(s, polls[..n - 1]), polls, earlier, n - 1);
    }
  }

  /** The polls at which the steps ended explain the results, the step under way, and every key that was sent. */
  ghost predicate Explained(s: Scenario, polls: seq<Observation>, ends: seq<nat>)
    requires Ordered(polls)
  {
    var e := After(s, polls);
    && Spanned(s, e, polls, ends) && StillCurrent(s, e, polls, ends, |polls|)
    && Sent(s, polls) == SentBefore(s, e, polls, ends, |polls|)
  }

  /**
   * Over any run every finished step ended at the first poll at which it was over, no earlier and
   * no later, with the status its condition earned there; the step under way asks for its next
   * poll no later than its own deadline; and the keys sent are those of each step's own polls.
   */
  lemma StepsEndWhenOver(s: Scenario, polls: seq<Observation>)
    requires Ordered(polls) && polls != []
    ensures exists ends :: Explained(s, polls, ends)
  {
    hide Polled, Spanned, StillCurrent, SentBefore, Sent, After;
    var ends := RunSpans(s, polls, |polls|);
    assert polls[..|polls|] == polls;
    assert Explained(s, polls, ends);
  }

  /** A result that lies between two polls at least so many nanoseconds apart. */
  predicate Lasted(r: StepResult, polls: seq<Observation>, p: nat, q: nat, ns: nat) {
    && p <= q < |polls|
    && r.atMs == polls[q].nowNs / MS
    && polls[p].nowNs + ns <= polls[q].nowNs
  }

  /** The span of a finished step. */
  lemma SpanOf(s: Scenario, polls: seq<Observation>, i: nat) returns (p: nat, q: nat)
    requires Ordered(polls) && polls != []
    requires var e := After(s, polls); i < |e.results| && !(e.outcome.fault && i == |e.results| - 1)
    ensures i < |s.steps| && Span(s.steps[i], After(s, polls).results[i], polls, p, q)
  {
    hide Span, StillCurrent, After, Sent, SentBefore;
    StepsEndWhenOver(s, polls);
    var ends :| Explained(s, polls, ends);
    p, q := StartPoll(ends, i), ends[i];
  }

  /** A finished wait lasted its whole time, and a watch that failed had all of its own, to the nanosecond. */
  lemma NoStepEndsEarly(s: Scenario, polls: seq<Observation>, i: nat)
    requires Ordered(polls) && polls != []
    requires var e := After(s, polls); i < |e.results| && !(e.outcome.fault && i == |e.results| - 1)
    ensures var r := After(s, polls).results[i];
            && i < |s.steps|
            && (s.steps[i].Wait? ==>
                  r.status == Pass && exists p, q :: Lasted(r, polls, p, q, s.steps[i].ms * MS))
            && (s.steps[i].WaitUntil? && r.status == Fail ==>
                  exists p, q :: Lasted(r, polls, p, q, s.steps[i].timeoutMs * MS))
  {
    hide Met, After;
    var p, q := SpanOf(s, polls, i);
    var r := After(s, polls).results[i];
    if s.steps[i].Wait? {
      assert Lasted(r, polls, p, q, s.steps[i].ms * MS);
    } else if s.steps[i].WaitUntil? && r.status == Fail {
      assert Lasted(r, polls, p, q, s.steps[i].timeoutMs * MS);
    }
  }

  /** The condition a step waits for or asserts. */
  function ConditionOf(op: Op): Option<Condition> {
    match op
    case WaitUntil(c, _) => Some(c)
    case Assert(c) => Some(c)
    case _ => None
  }

  lemma PassIsNoFault(s: Scenario, polls: seq<Observation>, i: nat)
    requires Ordered(polls) && i < |After(s, polls).results| && After(s, polls).results[i].status == Pass
    ensures !(After(s, polls).outcome.fault && i == |After(s, polls).results| - 1)
  {
    hide After, Underway, InTurn, HasStatus;
    RunKeeps(s, polls);
  }

  /** A step that passed saw its condition hold, at one of the polls. */
  lemma PassedStepSawIt(s: Scenario, polls: seq<Observation>, i: nat)
    requires Ordered(polls) && polls != []
    requires i < |After(s, polls).results| && After(s, polls).results[i].status == Pass
    ensures i < |s.steps|
    ensures ConditionOf(s.steps[i]).Some? ==>
      exists p, q :: 0 <= p <= q < |polls| && Met(ConditionOf(s.steps[i]).value, polls, p, q)
  {
    hide Met, After, Runnable;
    PassIsNoFault(s, polls, i);
    var p, q := SpanOf(s, polls, i);
  }

  // ---- How long it took -------------------------------------------------------------------

  /** A finished step that typed or replayed took as many gaps as it made sends, less one. */
  lemma KeyStepsTakeTime(s: Scenario, polls: seq<Observation>, i: nat)
    requires Ordered(polls) && polls != []
    requires var e := After(s, polls); i < |e.results| && !(e.outcome.fault && i == |e.results| - 1)
    requires i < |s.steps| && SendsKeys(s.steps[i]) && Items(s.steps[i]) > 0
    ensures exists p, q :: Span(s.steps[i], After(s, polls).results[i], polls, p, q) && Gapped(s.steps[i], polls, p, q)
  {
    hide After, Span, SendPolls;
    var p, q := SpanOf(s, polls, i);
    assert p <= q < |polls| by {
      SpanBounds(s.steps[i], After(s, polls).results[i], polls, p, q);
    }
    SendsTakeTime(s.steps[i], polls, p, q);
  }

  lemma SpanBounds(op: Op, r: StepResult, polls: seq<Observation>, p: nat, q: nat)
    requires Span(op, r, polls, p, q)
    ensures p <= q < |polls|
  {
  }

  predicate Gapped(op: Op, polls: seq<Observation>, p: nat, q: nat) {
    && SendsKeys(op) && p <= q < |polls|
    && polls[p].nowNs + (|SendPolls(op, polls, p, q)| - 1) * GapNs(op) <= polls[q].nowNs
  }

  /** The nanoseconds a step takes at least: a wait its time, and typing a gap between any two characters. */
  function LeastNs(op: Op): nat {
    match op
    case Wait(ms) => ms * MS
    case Key(_, _, _) => if Items(op) == 0 then 0 else (Items(op) - 1) * GapNs(op)
    case _ => 0
  }

  /** The least time of the first n steps together. */
  function LeastTotalNs(s: Scenario, n: nat): nat
    requires n <= |s.steps|
  {
    if n == 0 then 0 else LeastTotalNs(s, n - 1) + LeastNs(s.steps[n - 1])
  }

  lemma StepTakesTime(op: Op, r: StepResult, polls: seq<Observation>, p: nat, q: nat)
    requires Ordered(polls) && Span(op, r, polls, p, q)
    ensures p <= q < |polls| && polls[p].nowNs + LeastNs(op) <= polls[q].nowNs
  {
    hide Deserves, Met, Items, GapNs, SendPolls;
    if op.Key? && Items(op) > 0 {
      SendsTakeTime(op, polls, p, q);
      if GapNs(op) > 0 {
        SendsTallied(op, polls, p, q);
      } else {
        assert (Items(op) - 1) * GapNs(op) == 0;
      }
    }
  }

  lemma {:induction false} SpansAddUp(s: Scenario, e: Engine, polls: seq<Observation>, ends: seq<nat>, i: nat)
    requires Ordered(polls) && polls != [] && Spanned(s, e, polls, ends) && !e.outcome.fault && i <= |ends|
    ensures StartPoll(ends, i) < |polls|
    ensures polls[0].nowNs + LeastTotalNs(s, i) <= polls[StartPoll(ends, i)].nowNs
  {
    hide Span, LeastNs;
    if i > 0 {
      SpansAddUp(s, e, polls, ends, i - 1);
      StepTakesTime(s.steps[i - 1], e.results[i - 1], polls, StartPoll(ends, i - 1), ends[i - 1]);
    }
  }

  /** A scenario that passed has taken at least the time of all its waits and all its typing together. */
  lemma WaitsAddUp(s: Scenario, polls: seq<Observation>)
    requires Ordered(polls) && polls != [] && After(s, polls).Passed()
    ensures polls[0].nowNs + LeastTotalNs(s, |s.steps|) <= polls[|polls| - 1].nowNs
  {
    hide After, Span, Underway, InTurn, HasStatus, StillCurrent, Sent, SentBefore;
    StepsEndWhenOver(s, polls);
    var e := After(s, polls);
    var ends :| Explained(s, polls, ends);
    RunKeeps(s, polls);
    SpansAddUp(s, e, polls, ends, |s.steps|);
  }
}
