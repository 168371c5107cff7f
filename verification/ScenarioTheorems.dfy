/** What a scenario run promises, for every scenario and every sequence of polls. */
module ScenarioTheorems {
  import opened Bits
  import opened ScenarioSpec
  import PanelSpec

  // ---- The screen -------------------------------------------------------------------------

  lemma {:induction false} RowsAgree(a: seq<u16>, b: seq<u16>, x: nat, y: nat, n: nat)
    requires |a| == PanelSpec.CELLS && |b| == PanelSpec.CELLS
    ensures RowBytes(a, x, y, n) == RowBytes(b, x, y, n) <==>
            forall i :: x <= i < x + n ==> PanelSpec.CellAt(a, i, y) == PanelSpec.CellAt(b, i, y)
  {
    if n > 0 {
      RowsAgree(a, b, x, y, n - 1);
      var p, q := RowBytes(a, x, y, n), RowBytes(b, x, y, n);
      assert p[..2 * (n - 1)] == RowBytes(a, x, y, n - 1) && q[..2 * (n - 1)] == RowBytes(b, x, y, n - 1);
      assert p[2 * (n - 1)] == PanelSpec.CellAt(a, x + n - 1, y) % 256
          && p[2 * n - 1] == PanelSpec.CellAt(a, x + n - 1, y) / 256;
      assert q[2 * (n - 1)] == PanelSpec.CellAt(b, x + n - 1, y) % 256
          && q[2 * n - 1] == PanelSpec.CellAt(b, x + n - 1, y) / 256;
    }
  }

  ghost predicate SamePixels(a: seq<u16>, b: seq<u16>, r: Rect, h: nat)
    requires |a| == PanelSpec.CELLS && |b| == PanelSpec.CELLS
  {
    forall j, i :: r.y <= j < r.y + h && r.x <= i < r.x + r.w ==> PanelSpec.CellAt(a, i, j) == PanelSpec.CellAt(b, i, j)
  }

  lemma {:induction false} RegionsAgree(a: seq<u16>, b: seq<u16>, r: Rect, h: nat)
    requires |a| == PanelSpec.CELLS && |b| == PanelSpec.CELLS
    ensures RowsBytes(a, r, h) == RowsBytes(b, r, h) <==> SamePixels(a, b, r, h)
  {
    hide RowBytes, PanelSpec.CellAt;
    if h > 0 {
      RegionsAgree(a, b, r, h - 1);
      RowsAgree(a, b, r.x, r.y + h - 1, r.w);
      var above, row := RowsBytes(a, r, h - 1), RowBytes(a, r.x, r.y + h - 1, r.w);
      var above', row' := RowsBytes(b, r, h - 1), RowBytes(b, r.x, r.y + h - 1, r.w);
      assert (above + row)[..|above|] == above && (above + row)[|above|..] == row;
      assert (above' + row')[..|above|] == above' && (above' + row')[|above|..] == row';
    }
  }

  /** What is fingerprinted tells two screens apart exactly when some pixel of the region differs. */
  lemma SameBytesIffSamePixels(a: seq<u16>, b: seq<u16>, r: Rect)
    requires |a| == PanelSpec.CELLS && |b| == PanelSpec.CELLS
    ensures RegionBytes(a, r) == RegionBytes(b, r) <==> SamePixels(a, b, r, r.h)
  {
    RegionsAgree(a, b, r, r.h);
  }

  /** A region that counts as changed really has a pixel that differs. */
  lemma ChangedIsReal(obs: Observation, first: seq<u16>, r: Rect, past: History)
    requires obs.Valid() && obs.lcd.Some? && |first| == PanelSpec.CELLS
    requires past.baseline == Some(Fingerprint(first, r))
    requires Holds(RegionChanged(r), obs, past)
    ensures !SamePixels(first, obs.lcd.value, r, r.h)
  {
    hide PanelSpec.CellAt;
    SameBytesIffSamePixels(first, obs.lcd.value, r);
  }

  lemma {:induction false} RowLitBounds(g: seq<u16>, x: nat, y: nat, n: nat)
    requires |g| == PanelSpec.CELLS
    ensures RowLit(g, x, y, n) == 0 <==> forall i :: x <= i < x + n ==> PanelSpec.CellAt(g, i, y) == 0
    ensures RowLit(g, x, y, n) <= n
  {
    if n > 0 {
      RowLitBounds(g, x, y, n - 1);
    }
  }

  /** No pixel counts as lit exactly when the whole region is black. */
  lemma {:induction false} NothingLitIffBlack(g: seq<u16>, r: Rect, h: nat)
    requires |g| == PanelSpec.CELLS
    ensures RegionLit(g, r, h) == 0 <==>
            forall j, i :: r.y <= j < r.y + h && r.x <= i < r.x + r.w ==> PanelSpec.CellAt(g, i, j) == 0
  {
    hide PanelSpec.CellAt;
    if h > 0 {
      NothingLitIffBlack(g, r, h - 1);
      RowLitBounds(g, r.x, r.y + h - 1, r.w);
    }
  }

  /** One byte string is somewhere inside another. */
  ghost predicate Inside(needle: seq<byte>, hay: seq<byte>) {
    exists before, after :: hay == before + needle + after
  }

  /** What counts as found: a nonempty text that is somewhere in the output. */
  lemma OccursIffInside(needle: seq<byte>, hay: seq<byte>)
    ensures Occurs(needle, hay) <==> needle != [] && Inside(needle, hay)
  {
    if Occurs(needle, hay) {
      var i :| 0 <= i <= |hay| && StartsAt(needle, hay, i);
      assert hay == hay[..i] + needle + hay[i + |needle|..];
    }
    if needle != [] && Inside(needle, hay) {
      var before, after :| hay == before + needle + after;
      assert hay[|before|..|before| + |needle|] == needle;
      assert StartsAt(needle, hay, |before|);
    }
  }

  // ---- Runs -------------------------------------------------------------------------------

  /** Time and cycles never run backwards. */
  predicate Ordered(polls: seq<Observation>) {
    && (forall i :: 0 <= i < |polls| ==> polls[i].Valid())
    && forall i, j :: 0 <= i < j < |polls| ==>
         polls[i].nowNs <= polls[j].nowNs && polls[i].cycles <= polls[j].cycles
  }

  function After(s: Scenario, polls: seq<Observation>): Engine
    requires Ordered(polls)
  {
    if polls == [] then READY else Polled(s, After(s, polls[..|polls| - 1]), polls[|polls| - 1]).0
  }

  /** Results in step order, at non-decreasing times. */
  ghost predicate InTurn(results: seq<StepResult>) {
    && (forall i :: 0 <= i < |results| ==> results[i].index == i && results[i].status != Incomplete)
    && (forall i, j :: 0 <= i < j < |results| ==>
          results[i].atMs <= results[j].atMs && results[i].atCycles <= results[j].atCycles)
  }

  ghost predicate HasStatus(results: seq<StepResult>, status: StepStatus) {
    exists i :: 0 <= i < |results| && results[i].status == status
  }

  /** Results in turn, and outcome flags that tell what they say. */
  ghost predicate Orderly(s: Scenario, e: Engine) {
    && InTurn(e.results)
    && !e.outcome.truncated
    && e.index <= |s.steps|
    && |e.results| == e.index + (if e.outcome.fault then 1 else 0)
    && (e.outcome.fault ==> e.outcome.done && e.index < |s.steps| && e.results[e.index].status == Fail)
    && (e.outcome.failed <==> HasStatus(e.results, Fail))
    && (e.outcome.done && !e.outcome.fault ==> e.index == |s.steps|)
  }

  predicate NotBefore(e: Engine, obs: Observation) {
    e.results != [] ==>
      e.results[|e.results| - 1].atMs <= obs.nowNs / MS && e.results[|e.results| - 1].atCycles <= obs.cycles
  }

  /** The memory of the step under way is the one its kind keeps. */
  predicate Underway(op: Op, pending: Pending) {
    match pending
    case Fresh => true
    case Waiting(_) => op.Wait?
    case Counting(_) => op.WaitCycles?
    case Watching(_, _) => op.WaitUntil?
    case Typing(_, _) => op.Key?
    case Replaying(_, _) => op.KeyEvents?
  }

  lemma AdvanceKeeps(op: Op, pending: Pending, nextPollNs: nat, obs: Observation, pollMs: Positive)
    requires obs.Valid() && Underway(op, pending)
    ensures var a := Advanced(op, pending, nextPollNs, obs, pollMs);
            && (a.progress.Finished? ==> a.progress.status != Incomplete)
            && (a.progress.Blocked? ==> Underway(op, a.pending) && !a.pending.Fresh? && obs.nowNs < a.nextPollNs)
  {
    hide Holds, Remembered, Strokes, Reversed, Repeated;
  }

  ghost predicate Good(s: Scenario, e: Engine) {
    && Orderly(s, e)
    && (!e.outcome.done && e.index < |s.steps| ==> Underway(s.steps[e.index], e.pending))
  }

  lemma OrderlyGrows(s: Scenario, e: Engine, a: Advance, obs: Observation)
    requires Orderly(s, e) && NotBefore(e, obs) && !e.outcome.done && e.index < |s.steps|
    requires a.progress.Finished? ==> a.progress.status != Incomplete
    ensures Orderly(s, Entered(e, a, obs)) && NotBefore(Entered(e, a, obs), obs)
  {
    hide InTurn, HasStatus;
    if !a.progress.Blocked? {
      var last := ResultOf(e.index, if a.progress.Finished? then a.progress.status else Fail, obs);
      TurnsGrow(e.results, last);
      FailuresGrow(e.results, last);
    }
  }

  lemma TurnsGrow(results: seq<StepResult>, last: StepResult)
    requires InTurn(results) && last.index == |results| && last.status != Incomplete
    requires results != [] ==>
      results[|results| - 1].atMs <= last.atMs && results[|results| - 1].atCycles <= last.atCycles
    ensures InTurn(results + [last])
  {
  }

  lemma FailuresGrow(results: seq<StepResult>, last: StepResult)
    ensures HasStatus(results + [last], Fail) <==> last.status == Fail || HasStatus(results, Fail)
  {
    var longer := results + [last];
    assert longer[|results|] == last && forall i :: 0 <= i < |results| ==> longer[i] == results[i];
  }

  lemma RoundKeeps(s: Scenario, e: Engine, obs: Observation)
    requires obs.Valid() && !e.outcome.done && e.index < |s.steps|
    requires Good(s, e) && NotBefore(e, obs)
    ensures var a := Advanced(s.steps[e.index], e.pending, e.nextPollNs, obs, s.pollMs);
            var d := Entered(e, a, obs);
            && Orderly(s, d) && NotBefore(d, obs)
            && (a.progress.Blocked? ==>
                  Underway(s.steps[e.index], d.pending) && !d.pending.Fresh? && obs.nowNs < d.nextPollNs)
  {
    hide Advanced, Underway, Orderly;
    AdvanceKeeps(s.steps[e.index], e.pending, e.nextPollNs, obs, s.pollMs);
    OrderlyGrows(s, e, Advanced(s.steps[e.index], e.pending, e.nextPollNs, obs, s.pollMs), obs);
  }

  /** Between polls a scenario is done, or its current step is under way and due later. */
  predicate Settled(s: Scenario, e: Engine, obs: Observation) {
    !e.outcome.done ==> e.index < |s.steps| && !e.pending.Fresh? && obs.nowNs < e.nextPollNs
  }

  lemma {:induction false} PollKeeps(s: Scenario, e: Engine, obs: Observation)
    requires obs.Valid() && Good(s, e) && NotBefore(e, obs)
    ensures var d := Polled(s, e, obs).0;
            Good(s, d) && NotBefore(d, obs) && Settled(s, d, obs)
    decreases |s.steps| - e.index
  {
    hide Advanced;
    if !e.outcome.done && e.index < |s.steps| {
      RoundKeeps(s, e, obs);
      var a := Advanced(s.steps[e.index], e.pending, e.nextPollNs, obs, s.pollMs);
      if a.progress.Finished? {
        PollKeeps(s, Entered(e, a, obs), obs);
      }
    }
  }

  lemma InMsMonotone(a: nat, b: nat)
    requires a <= b
    ensures a / MS <= b / MS
  {
  }

  lemma LaterStill(e: Engine, earlier: Observation, later: Observation)
    requires NotBefore(e, earlier) && earlier.nowNs <= later.nowNs && earlier.cycles <= later.cycles
    ensures NotBefore(e, later)
  {
    InMsMonotone(earlier.nowNs, later.nowNs);
  }

  lemma {:induction false} RunKeeps(s: Scenario, polls: seq<Observation>)
    requires Ordered(polls)
    ensures var e := After(s, polls);
            && Good(s, e)
            && (polls == [] ==> e == READY)
            && (polls != [] ==> NotBefore(e, polls[|polls| - 1]) && Settled(s, e, polls[|polls| - 1]))
    decreases |polls|, 1
  {
    hide Polled;
    if polls != [] {
      GoodBefore(s, polls);
      PollKeeps(s, After(s, polls[..|polls| - 1]), polls[|polls| - 1]);
    }
  }

  /** What the last poll of a run finds. */
  lemma {:induction false} GoodBefore(s: Scenario, polls: seq<Observation>)
    requires Ordered(polls) && polls != []
    ensures var e := After(s, polls[..|polls| - 1]); Good(s, e) && NotBefore(e, polls[|polls| - 1])
    decreases |polls|, 0
  {
    var before, obs := polls[..|polls| - 1], polls[|polls| - 1];
    RunKeeps(s, before);
    if before != [] {
      LaterStill(After(s, before), before[|before| - 1], obs);
    }
  }

  ghost predicate EveryStepPassed(s: Scenario, e: Engine) {
    && |e.results| == |s.steps|
    && forall i :: 0 <= i < |e.results| ==> e.results[i].status == Pass
  }

  /** An engine that is done has passed exactly when every step has. */
  lemma DonePasses(s: Scenario, e: Engine)
    requires Good(s, e) && e.outcome.done
    ensures e.Passed() <==> EveryStepPassed(s, e)
  {
  }

  /** Results come once per step, in step order, at non-decreasing times. */
  lemma ResultsInOrder(s: Scenario, polls: seq<Observation>)
    requires Ordered(polls)
    ensures var r := After(s, polls).results;
            && |r| <= |s.steps|
            && (forall i :: 0 <= i < |r| ==> r[i].index == i && r[i].status != Incomplete)
            && forall i, j :: 0 <= i < j < |r| ==> r[i].atMs <= r[j].atMs && r[i].atCycles <= r[j].atCycles
  {
    RunKeeps(s, polls);
  }

  /** A scenario passes exactly when every step has a passing result. */
  lemma PassedIffEveryStepPassed(s: Scenario, polls: seq<Observation>)
    requires Ordered(polls) && s.steps != []
    ensures After(s, polls).Passed() <==> EveryStepPassed(s, After(s, polls))
  {
    RunKeeps(s, polls);
  }

  /** The engine always asks for a later poll: it cannot be re-polled for ever at one instant. */
  lemma AsksForLater(s: Scenario, polls: seq<Observation>)
    requires Ordered(polls) && polls != []
    ensures var e := After(s, polls); !e.outcome.done ==> polls[|polls| - 1].nowNs < e.nextPollNs
  {
    RunKeeps(s, polls);
  }

  // ---- When the run stops first -----------------------------------------------------------

  lemma {:induction false} AbandonedSteps(s: Scenario, index: nat, obs: Observation)
    requires index <= |s.steps|
    ensures var r := Abandoned(s, index, obs);
            && |r| == |s.steps| - index
            && forall k :: 0 <= k < |r| ==> r[k] == ResultOf(index + k, Incomplete, obs)
    decreases |s.steps| - index
  {
    if index < |s.steps| {
      AbandonedSteps(s, index + 1, obs);
    }
  }

  /**
   * However the run ends, passing still means that every step passed, and unless the scenario
   * could not be run at all every step has a result, the unreached ones incomplete.
   */
  lemma StoppedRunIsJudged(s: Scenario, polls: seq<Observation>, end: Observation)
    requires Ordered(polls) && polls != []
    ensures var e, d := After(s, polls), FinishedIncomplete(s, After(s, polls), end);
            && d.outcome.done
            && (d.Passed() <==> EveryStepPassed(s, d))
            && (d.Passed() <==> e.Passed())
            && (!d.outcome.fault ==> |d.results| == |s.steps|)
            && (d.outcome.truncated <==> exists i :: 0 <= i < |d.results| && d.results[i].status == Incomplete)
            && forall i :: 0 <= i < |d.results| ==> d.results[i].index == i
  {
    hide Underway, Polled;
    RunKeeps(s, polls);
    var e := After(s, polls);
    hide After;
    if !e.outcome.done {
      AbandonedSteps(s, e.index, end);
      var d := FinishedIncomplete(s, e, end);
      assert d.results[e.index] == ResultOf(e.index, Incomplete, end);
    }
  }

  /** The reported status tells the ends of a scenario apart: unrunnable, cut short, failed or passed. */
  lemma StatusTells(s: Scenario, polls: seq<Observation>, end: Observation)
    requires Ordered(polls) && polls != []
    ensures var d := FinishedIncomplete(s, After(s, polls), end);
            match StatusOf(d.outcome)
            case ErrorStatus => d.outcome.fault
            case IncompleteStatus => !d.outcome.fault && HasStatus(d.results, Incomplete)
            case FailStatus => !d.outcome.fault && !HasStatus(d.results, Incomplete) && HasStatus(d.results, Fail)
            case PassStatus => EveryStepPassed(s, d)
  {
    hide Underway, Polled, After;
    StoppedRunIsJudged(s, polls, end);
    RunKeeps(s, polls);
  }

  // ---- Conditions over several polls ------------------------------------------------------

  /** A condition can be evaluated at each of the polls from p up to n. */
  predicate Runnable(c: Condition, polls: seq<Observation>, p: nat, n: nat)
    requires n <= |polls|
  {
    forall i :: p <= i < n ==> polls[i].Valid() && !Unrunnable(c, polls[i])
  }

  /** What a watch that started at poll p remembers after the polls up to n. */
  function HistoryOver(c: Condition, polls: seq<Observation>, p: nat, n: nat): History
    requires p <= n <= |polls| && Runnable(c, polls, p, n)
    decreases n - p
  {
    if n == p then NO_HISTORY else Remembered(c, polls[n - 1], HistoryOver(c, polls, p, n - 1))
  }

  /** The condition of a watch that started at poll p holds at poll j. */
  predicate Met(c: Condition, polls: seq<Observation>, p: nat, j: nat)
    requires p <= j < |polls|
  {
    Runnable(c, polls, p, j + 1) && Holds(c, polls[j], HistoryOver(c, polls, p, j))
  }

  /** Polls that all see the panel. */
  predicate AllSee(polls: seq<Observation>) {
    Ordered(polls) && forall i :: 0 <= i < |polls| ==> polls[i].lcd.Some?
  }

  function SeenAt(polls: seq<Observation>, i: nat, r: Rect): string
    requires AllSee(polls) && i < |polls|
  {
    Fingerprint(polls[i].lcd.value, r)
  }

  /** From poll i up to poll n, every poll saw what poll n sees. */
  predicate UnchangedSince(polls: seq<Observation>, i: nat, n: nat, r: Rect)
    requires AllSee(polls) && i <= n < |polls|
  {
    forall j :: i <= j <= n ==> SeenAt(polls, j, r) == SeenAt(polls, n, r)
  }

  lemma {:induction false} StableSince(r: Rect, forMs: nat, polls: seq<Observation>, p: nat, n: nat) returns (i: nat)
    requires AllSee(polls) && p <= n < |polls|
    ensures var h := HistoryOver(RegionStable(r, forMs), polls, p, n + 1);
            && h.last == Some(SeenAt(polls, n, r))
            && p <= i <= n && h.stableSinceNs == polls[i].nowNs && UnchangedSince(polls, i, n, r)
            && (i > p ==> SeenAt(polls, i - 1, r) != SeenAt(polls, n, r))
    decreases n - p
  {
    hide Fingerprint;
    i := n;
    if n > p {
      var k := StableSince(r, forMs, polls, p, n - 1);
      if SeenAt(polls, n - 1, r) == SeenAt(polls, n, r) {
        i := k;
      }
    }
  }

  /** A region counts as stable exactly when its fingerprint was the same at every poll of a long enough stretch. */
  lemma StableIffUnchanged(r: Rect, forMs: nat, polls: seq<Observation>, p: nat, n: nat)
    requires AllSee(polls) && p <= n < |polls|
    ensures Met(RegionStable(r, forMs), polls, p, n) <==>
            exists i :: p <= i <= n && UnchangedSince(polls, i, n, r) && forMs <= (polls[n].nowNs - polls[i].nowNs) / MS
  {
    hide Fingerprint, UnchangedSince;
    var k := StableSince(r, forMs, polls, p, n);
    forall i | p <= i <= n && UnchangedSince(polls, i, n, r)
      ensures k <= i && (polls[n].nowNs - polls[i].nowNs) / MS <= (polls[n].nowNs - polls[k].nowNs) / MS
    {
      Oldest(polls, r, k, i, p, n);
      InMsMonotone(polls[n].nowNs - polls[i].nowNs, polls[n].nowNs - polls[k].nowNs);
    }
  }

  lemma Oldest(polls: seq<Observation>, r: Rect, k: nat, i: nat, p: nat, n: nat)
    requires AllSee(polls) && p <= k <= n < |polls| && p <= i <= n && UnchangedSince(polls, i, n, r)
    requires k > p ==> SeenAt(polls, k - 1, r) != SeenAt(polls, n, r)
    ensures k <= i
  {
    hide Fingerprint, SeenAt;
  }

  /** A region counts as changed exactly when its fingerprint differs from the one at the first poll of the watch. */
  lemma {:induction false} ChangedIffUnlikeFirst(r: Rect, polls: seq<Observation>, p: nat, n: nat)
    requires AllSee(polls) && p <= n < |polls|
    ensures HistoryOver(RegionChanged(r), polls, p, n + 1).baseline == Some(SeenAt(polls, p, r))
    ensures Met(RegionChanged(r), polls, p, n) <==> SeenAt(polls, n, r) != SeenAt(polls, p, r)
    decreases n - p
  {
    hide Fingerprint;
    if n > p {
      ChangedIffUnlikeFirst(r, polls, p, n - 1);
    }
  }
}
