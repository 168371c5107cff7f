/** Which keys a scenario sends: exactly its script, except for events replayed too early. */
module ScenarioKeys {
  import opened Bits
  import opened ScenarioSpec
  import opened ScenarioTheorems

  /** The events a step is meant to send. */
  function Script(op: Op): seq<KeyEvent> {
    match op
    case Key(text, repeat, _) => Strokes(Repeated(text, repeat))
    case KeyEvents(events, _) => events
    case _ => []
  }

  function ScriptUpTo(s: Scenario, n: nat): seq<KeyEvent>
    requires n <= |s.steps|
  {
    if n == 0 then [] else ScriptUpTo(s, n - 1) + Script(s.steps[n - 1])
  }

  function Unsent(p: Pending): seq<KeyEvent> {
    match p
    case Typing(chars, _) => Strokes(Reversed(chars))
    case Replaying(events, _) => Reversed(events)
    case _ => []
  }

  /** A replay in progress that is polled before its own time. */
  predicate TooEarly(op: Op, pending: Pending, obs: Observation) {
    op.KeyEvents? && obs.keyboard && pending.Replaying? && pending.events != [] && obs.nowNs < pending.nextAtNs
  }

  predicate LosesEvent(s: Scenario, e: Engine, obs: Observation) {
    !e.outcome.done && e.index < |s.steps| && TooEarly(s.steps[e.index], e.pending, obs)
  }

  /** What is left of a step: its whole script before its first poll. */
  function Ahead(op: Op, p: Pending): seq<KeyEvent> {
    if p.Fresh? then Script(op) else Unsent(p)
  }

  lemma {:induction false} ReversedFront<T>(x: T, s: seq<T>)
    ensures Reversed([x] + s) == Reversed(s) + [x]
  {
    var all, n := [x] + s, |s|;
    if s == [] {
      assert all[..0] == [];
    } else {
      assert all[n] == s[n - 1] && all[..n] == [x] + s[..n - 1];
      ReversedFront(x, s[..n - 1]);
    }
  }

  lemma {:induction false} ReversedTwice<T>(s: seq<T>)
    ensures Reversed(Reversed(s)) == s
  {
    if s != [] {
      var n := |s| - 1;
      ReversedTwice(s[..n]);
      ReversedFront(s[n], Reversed(s[..n]));
    }
  }

  lemma ReversedLast<T>(s: seq<T>)
    requires s != []
    ensures Reversed(s) == [s[|s| - 1]] + Reversed(s[..|s| - 1])
  {
  }

  lemma StrokesLast(s: seq<byte>)
    requires s != []
    ensures Strokes(Reversed(s)) == PressRelease(s[|s| - 1]) + Strokes(Reversed(s[..|s| - 1]))
  {
    var rest := Reversed(s[..|s| - 1]);
    assert ([s[|s| - 1]] + rest)[1..] == rest;
  }

  lemma TypingSends(queue: seq<byte>, nextAtNs: nat, nowNs: nat, gapNs: nat, nextPollNs: nat)
    ensures var a := TypeWait(queue, nextAtNs, nowNs, gapNs, nextPollNs);
            && a.keys + Unsent(a.pending) == Strokes(Reversed(queue))
            && (a.progress.Finished? ==> a.progress == Finished(Pass) && Unsent(a.pending) == [])
            && !a.progress.Faulted? && a.pending.Typing?
  {
    NoneLeft();
    hide Strokes, Reversed;
    if queue != [] {
      var n := |queue| - 1;
      StrokesLast(queue);
      var all := Strokes(Reversed(queue));
      assert [] + all == all && all + [] == all;
      if n == 0 {
        assert queue[..n] == [];
        assert PressRelease(queue[n]) + [] == PressRelease(queue[n]);
      }
    }
  }

  lemma NoneLeft()
    ensures Strokes(Reversed([])) == [] && Reversed<KeyEvent>([]) == []
  {
  }

  /** What one look at a replay comes to. */
  ghost predicate ReplaySound(queue: seq<KeyEvent>, nextAtNs: nat, nowNs: nat, a: Advance) {
    var lost := queue != [] && nowNs < nextAtNs;
    && a.pending.Replaying? && !a.progress.Faulted?
    && (!lost ==> a.keys + Unsent(a.pending) == Reversed(queue))
    && (lost ==> a.keys == [] && a.progress.Blocked?)
    && (lost ==> [queue[|queue| - 1]] + Unsent(a.pending) == Reversed(queue))
    && (a.progress.Finished? ==> a.progress == Finished(Pass) && Unsent(a.pending) == [])
    && (a.progress.Blocked? ==> a.nextPollNs == a.pending.nextAtNs)
  }

  lemma ReplayEarly(queue: seq<KeyEvent>, nextAtNs: nat, nowNs: nat)
    requires queue != [] && nowNs < nextAtNs
    ensures ReplaySound(queue, nextAtNs, nowNs,
                        Advance(Replaying(queue[..|queue| - 1], nextAtNs), nextAtNs, Blocked, []))
  {
    hide Reversed;
    ReversedLast(queue);
  }

  lemma ReplayBurst(queue: seq<KeyEvent>, nextAtNs: nat, nowNs: nat, dueNs: nat, nextPollNs: nat)
    requires nextAtNs <= nowNs || queue == []
    ensures ReplaySound(queue, nextAtNs, nowNs,
                        Advance(Replaying([], dueNs), nextPollNs, Finished(Pass), Reversed(queue)))
  {
    hide Reversed;
    NoneLeft();
    assert Reversed(queue) + [] == Reversed(queue);
  }

  lemma ReplayOne(queue: seq<KeyEvent>, nextAtNs: nat, nowNs: nat, dueNs: nat)
    requires queue != [] && nextAtNs <= nowNs
    ensures ReplaySound(queue, nextAtNs, nowNs,
                        Advance(Replaying(queue[..|queue| - 1], dueNs), dueNs, Blocked, [queue[|queue| - 1]]))
  {
    hide Reversed;
    ReversedLast(queue);
  }

  lemma ReversedOne(e: KeyEvent)
    ensures Reversed([e]) == [e]
  {
  }

  lemma ReplayingSends(queue: seq<KeyEvent>, nextAtNs: nat, nowNs: nat, gapNs: nat, nextPollNs: nat)
    ensures ReplaySound(queue, nextAtNs, nowNs, ReplayWait(queue, nextAtNs, nowNs, gapNs, nextPollNs))
  {
    hide Reversed, ReplaySound;
    if queue == [] {
      NoneLeft();
      ReplayBurst(queue, nextAtNs, nowNs, nextAtNs, nextPollNs);
    } else if nowNs < nextAtNs {
      ReplayEarly(queue, nextAtNs, nowNs);
    } else {
      if gapNs == 0 {
        ReplayBurst(queue, nextAtNs, nowNs, nowNs, nextPollNs);
      } else if |queue| == 1 {
        assert queue == [queue[0]] && queue[..0] == [];
        ReversedOne(queue[0]);
        ReplayBurst(queue, nextAtNs, nowNs, nowNs + gapNs, nextPollNs);
      } else {
        ReplayOne(queue, nextAtNs, nowNs, nowNs + gapNs);
      }
    }
  }

  lemma FirstLook(op: Op)
    ensures op.Key? ==> Strokes(Reversed(Reversed(Repeated(op.text, op.repeat)))) == Script(op)
    ensures op.KeyEvents? ==> Reversed(Reversed(op.events)) == Script(op)
  {
    if op.Key? {
      ReversedTwice(Repeated(op.text, op.repeat));
    } else if op.KeyEvents? {
      ReversedTwice(op.events);
    }
  }

  lemma KeySends(op: Op, pending: Pending, nextPollNs: nat, obs: Observation, pollMs: Positive)
    requires obs.Valid() && op.Key? && (pending.Fresh? || pending.Typing?)
    ensures var a := Advanced(op, pending, nextPollNs, obs, pollMs);
            && a.keys + Ahead(op, a.pending) == Ahead(op, pending)
            && (a.progress.Finished? ==> Ahead(op, a.pending) == [])
            && (a.progress.Blocked? ==> a.pending.Typing?)
  {
    FirstLook(op);
    hide Strokes, Reversed, Repeated, TypeWait;
    assert [] + Ahead(op, pending) == Ahead(op, pending);
    if pending.Typing? {
      TypingSends(pending.chars, pending.nextAtNs, obs.nowNs, op.gapMs * MS, nextPollNs);
    } else {
      TypingSends(Reversed(Repeated(op.text, op.repeat)), obs.nowNs, obs.nowNs, op.gapMs * MS, nextPollNs);
    }
  }

  lemma EventsSend(op: Op, pending: Pending, nextPollNs: nat, obs: Observation, pollMs: Positive)
    requires obs.Valid() && op.KeyEvents? && (pending.Fresh? || pending.Replaying?)
    ensures var a := Advanced(op, pending, nextPollNs, obs, pollMs);
            && (!TooEarly(op, pending, obs) ==> a.keys + Ahead(op, a.pending) == Ahead(op, pending))
            && (TooEarly(op, pending, obs) ==>
                  a.keys == [] && a.progress.Blocked? &&
                  Ahead(op, pending) != [] && Ahead(op, a.pending) == Ahead(op, pending)[1..])
            && (a.progress.Finished? ==> Ahead(op, a.pending) == [])
            && (a.progress.Blocked? ==> a.pending.Replaying? && a.nextPollNs == a.pending.nextAtNs)
  {
    FirstLook(op);
    hide Reversed, ReplayWait;
    assert [] + Ahead(op, pending) == Ahead(op, pending);
    if pending.Replaying? {
      ReplayingSends(pending.events, pending.nextAtNs, obs.nowNs, op.gapMs * MS, nextPollNs);
    } else {
      ReplayingSends(Reversed(op.events), obs.nowNs, obs.nowNs, op.gapMs * MS, nextPollNs);
    }
  }

  /** One look moves keys from ahead to sent, and drops one exactly when it comes too early. */
  lemma AdvanceSends(op: Op, pending: Pending, nextPollNs: nat, obs: Observation, pollMs: Positive)
    requires obs.Valid() && Underway(op, pending)
    ensures var a := Advanced(op, pending, nextPollNs, obs, pollMs);
            && (!TooEarly(op, pending, obs) ==> a.keys + Ahead(op, a.pending) == Ahead(op, pending))
            && (TooEarly(op, pending, obs) ==>
                  a.keys == [] && a.progress.Blocked? &&
                  Ahead(op, pending) != [] && Ahead(op, a.pending) == Ahead(op, pending)[1..])
            && (a.progress.Finished? ==> Ahead(op, a.pending) == [])
            && (a.progress.Blocked? && a.pending.Replaying? ==> a.nextPollNs == a.pending.nextAtNs)
  {
    hide Holds, Remembered, Strokes, Reversed, Repeated, TypeWait, ReplayWait;
    if op.Key? {
      KeySends(op, pending, nextPollNs, obs, pollMs);
    } else if op.KeyEvents? {
      EventsSend(op, pending, nextPollNs, obs, pollMs);
    }
  }

  // ---- Whole runs -------------------------------------------------------------------------

  /** All but the events at these positions. */
  function Without(all: seq<KeyEvent>, gone: seq<nat>): seq<KeyEvent> {
    if all == [] then []
    else
      var n := |all| - 1;
      Without(all[..n], gone) + if n in gone then [] else [all[n]]
  }

  lemma {:induction false} WithoutLater(front: seq<KeyEvent>, tail: seq<KeyEvent>, gone: seq<nat>)
    requires forall i :: 0 <= i < |gone| ==> gone[i] < |front|
    ensures Without(front + tail, gone) == Without(front, gone) + tail
  {
    if tail == [] {
      assert front + tail == front;
    } else {
      var n := |tail| - 1;
      assert (front + tail)[..|front| + n] == front + tail[..n];
      WithoutLater(front, tail[..n], gone);
      assert tail[..n] + [tail[n]] == tail;
    }
  }

  lemma {:induction false} WithoutMore(front: seq<KeyEvent>, gone: seq<nat>, k: nat)
    requires |front| <= k
    ensures Without(front, gone + [k]) == Without(front, gone)
  {
    if front != [] {
      WithoutMore(front[..|front| - 1], gone, k);
    }
  }

  lemma {:induction false} WithoutNone(all: seq<KeyEvent>)
    ensures Without(all, []) == all
  {
    if all != [] {
      WithoutNone(all[..|all| - 1]);
    }
  }

  /** The script up to and including the step under way. */
  function ScriptDue(s: Scenario, e: Engine): seq<KeyEvent>
    requires e.index <= |s.steps|
  {
    ScriptUpTo(s, if e.index < |s.steps| then e.index + 1 else e.index)
  }

  function LeftOver(s: Scenario, e: Engine): seq<KeyEvent> {
    if e.index < |s.steps| then Ahead(s.steps[e.index], e.pending) else []
  }

  predicate Rising(positions: seq<nat>, n: nat) {
    && (forall i :: 0 <= i < |positions| ==> positions[i] < n)
    && forall i, j :: 0 <= i < j < |positions| ==> positions[i] < positions[j]
  }

  /** The script so far is what was sent, with what was lost in its places, and then what is ahead. */
  ghost predicate Balanced(s: Scenario, e: Engine, sent: seq<KeyEvent>, gone: seq<nat>) {
    && e.index <= |s.steps|
    && var all, m := ScriptDue(s, e), |sent| + |gone|;
       && m <= |all| && Rising(gone, m)
       && all[m..] == LeftOver(s, e)
       && sent == Without(all[..m], gone)
  }

  /** A blocked replay asks to be polled exactly when its next event is due. */
  predicate Punctual(e: Engine) {
    !e.outcome.done && e.pending.Replaying? ==> e.nextPollNs == e.pending.nextAtNs
  }

  lemma TakesMore(all: seq<KeyEvent>, m: nat, keys: seq<KeyEvent>, left: seq<KeyEvent>)
    requires m <= |all| && all[m..] == keys + left
    ensures m + |keys| <= |all| && all[..m + |keys|] == all[..m] + keys && all[m + |keys|..] == left
  {
    assert all == all[..m] + (keys + left);
    assert all[m + |keys|..] == all[m..][|keys|..];
  }

  /** Keys move from ahead to sent. */
  lemma Moves(all: seq<KeyEvent>, sent: seq<KeyEvent>, gone: seq<nat>, keys: seq<KeyEvent>, left: seq<KeyEvent>)
    requires var m := |sent| + |gone|;
             m <= |all| && Rising(gone, m) && all[m..] == keys + left && sent == Without(all[..m], gone)
    ensures var m := |sent + keys| + |gone|;
            && m <= |all| && Rising(gone, m) && all[m..] == left && sent + keys == Without(all[..m], gone)
  {
    hide Without;
    var m := |sent| + |gone|;
    TakesMore(all, m, keys, left);
    WithoutLater(all[..m], keys, gone);
  }

  lemma RisesMore(gone: seq<nat>, m: nat)
    requires Rising(gone, m)
    ensures Rising(gone + [m], m + 1)
  {
  }

  /** The first key ahead is lost. */
  lemma Loses(all: seq<KeyEvent>, m: nat, sent: seq<KeyEvent>, gone: seq<nat>, left: seq<KeyEvent>)
    requires m <= |all| && Rising(gone, m) && all[m..] == left && left != [] && sent == Without(all[..m], gone)
    ensures m + 1 <= |all| && Rising(gone + [m], m + 1) && all[m + 1..] == left[1..]
    ensures sent == Without(all[..m + 1], gone + [m])
  {
    hide Without, Rising;
    FirstTaken(all, m, left);
    RisesMore(gone, m);
    LastGone(all[..m], left[0], gone, m);
  }

  lemma FirstTaken(all: seq<KeyEvent>, m: nat, left: seq<KeyEvent>)
    requires m <= |all| && all[m..] == left && left != []
    ensures m + 1 <= |all| && all[..m + 1] == all[..m] + [left[0]] && all[m + 1..] == left[1..]
  {
  }

  lemma LastGone(front: seq<KeyEvent>, last: KeyEvent, gone: seq<nat>, m: nat)
    requires |front| == m
    ensures Without(front + [last], gone + [m]) == Without(front, gone)
  {
    hide Without;
    var more := gone + [m];
    assert more[|gone|] == m;
    WithoutMore(front, gone, m);
    WithoutLast(front, last, more);
  }

  lemma WithoutLast(front: seq<KeyEvent>, last: KeyEvent, gone: seq<nat>)
    requires |front| in gone
    ensures Without(front + [last], gone) == Without(front, gone)
  {
    assert (front + [last])[..|front|] == front;
  }

  /** The next step starts with its whole script ahead. */
  lemma NextStepBalanced(s: Scenario, e: Engine, d: Engine, sent: seq<KeyEvent>, gone: seq<nat>)
    requires e.index < |s.steps| && d.index == e.index + 1 && d.pending == Fresh
    requires var all, m := ScriptDue(s, e), |sent| + |gone|;
             m == |all| && Rising(gone, m) && sent == Without(all, gone)
    ensures Balanced(s, d, sent, gone)
  {
    hide Ahead, Script, Without;
    var all := ScriptDue(s, e);
    if d.index < |s.steps| {
      FreshAhead(s.steps[d.index]);
      assert ScriptDue(s, d) == all + Script(s.steps[d.index]);
      assert ScriptDue(s, d)[..|all|] == all;
    } else {
      assert ScriptDue(s, d) == all && all[..|all|] == all;
    }
  }

  /** The position in the script of an event lost now: right behind everything sent or lost so far. */
  function LostNow(s: Scenario, e: Engine, obs: Observation, done: nat): seq<nat> {
    if LosesEvent(s, e, obs) then [done] else []
  }

  lemma RoundSends(s: Scenario, e: Engine, obs: Observation, sent: seq<KeyEvent>, gone: seq<nat>)
    requires obs.Valid() && !e.outcome.done && e.index < |s.steps| && Good(s, e) && Balanced(s, e, sent, gone)
    ensures var a := Advanced(s.steps[e.index], e.pending, e.nextPollNs, obs, s.pollMs);
            var d := Entered(e, a, obs);
            && Balanced(s, d, sent + a.keys, gone + LostNow(s, e, obs, |sent| + |gone|))
            && (LosesEvent(s, e, obs) ==> a.progress.Blocked? && a.keys == [])
            && (a.progress.Blocked? ==> Punctual(d))
  {
    hide Advanced, Orderly, Ahead, Without, ScriptUpTo, TooEarly, Rising;
    var op := s.steps[e.index];
    var a := Advanced(op, e.pending, e.nextPollNs, obs, s.pollMs);
    var d := Entered(e, a, obs);
    AdvanceSends(op, e.pending, e.nextPollNs, obs, s.pollMs);
    var all := ScriptDue(s, e);
    assert gone + [] == gone && sent + [] == sent;
    if LosesEvent(s, e, obs) {
      Loses(all, |sent| + |gone|, sent, gone, Ahead(op, e.pending));
    } else {
      Moves(all, sent, gone, a.keys, Ahead(op, a.pending));
      if a.progress.Finished? {
        assert all[..|all|] == all;
        NextStepBalanced(s, e, d, sent + a.keys, gone);
      }
    }
  }

  lemma FreshAhead(op: Op)
    ensures Ahead(op, Fresh) == Script(op)
  {
  }

  lemma {:induction false} PollSends(s: Scenario, e: Engine, obs: Observation, sent: seq<KeyEvent>, gone: seq<nat>)
    requires obs.Valid() && Good(s, e) && NotBefore(e, obs)
    requires Balanced(s, e, sent, gone) && Punctual(e)
    ensures var r := Polled(s, e, obs);
            Balanced(s, r.0, sent + r.1, gone + LostNow(s, e, obs, |sent| + |gone|)) && Punctual(r.0)
    decreases |s.steps| - e.index
  {
    hide Advanced, Balanced, TooEarly;
    assert sent + [] == sent && gone + [] == gone;
    if e.outcome.done {
    } else if |s.steps| <= e.index {
      SameBalance(s, e, e.(outcome := e.outcome.(done := true)), sent, gone);
    } else {
      var a := Advanced(s.steps[e.index], e.pending, e.nextPollNs, obs, s.pollMs);
      var d := Entered(e, a, obs);
      RoundKeeps(s, e, obs);
      RoundSends(s, e, obs, sent, gone);
      if a.progress.Finished? {
        FreshLosesNothing(s, d, obs);
        PollSends(s, d, obs, sent + a.keys, gone);
        assert sent + (a.keys + Polled(s, d, obs).1) == (sent + a.keys) + Polled(s, d, obs).1;
      }
    }
  }

  lemma FreshLosesNothing(s: Scenario, e: Engine, obs: Observation)
    requires e.pending.Fresh?
    ensures !LosesEvent(s, e, obs)
  {
  }

  lemma SameBalance(s: Scenario, e: Engine, d: Engine, sent: seq<KeyEvent>, gone: seq<nat>)
    requires d.index == e.index && d.pending == e.pending
    ensures Balanced(s, e, sent, gone) ==> Balanced(s, d, sent, gone)
  {
    hide Ahead, ScriptUpTo, Without;
  }

  /** Every key event the engine has pushed into the controller. */
  function Sent(s: Scenario, polls: seq<Observation>): seq<KeyEvent>
    requires Ordered(polls)
  {
    if polls == [] then []
    else Sent(s, polls[..|polls| - 1]) + Polled(s, After(s, polls[..|polls| - 1]), polls[|polls| - 1]).1
  }

  /** The positions in the script of the events that were lost: one for every poll that came too early for a replay. */
  function LostAt(s: Scenario, polls: seq<Observation>): seq<nat>
    requires Ordered(polls)
  {
    if polls == [] then []
    else
      var before := polls[..|polls| - 1];
      var gone := LostAt(s, before);
      gone + LostNow(s, After(s, before), polls[|polls| - 1], |Sent(s, before)| + |gone|)
  }

  function Lost(s: Scenario, polls: seq<Observation>): nat
    requires Ordered(polls)
  {
    |LostAt(s, polls)|
  }

  lemma {:induction false} RunSends(s: Scenario, polls: seq<Observation>)
    requires Ordered(polls)
    ensures var e := After(s, polls); Balanced(s, e, Sent(s, polls), LostAt(s, polls)) && Punctual(e)
  {
    hide Balanced, Polled, Good, LosesEvent;
    if polls == [] {
      NothingSent(s);
    } else {
      var before, obs := polls[..|polls| - 1], polls[|polls| - 1];
      RunSends(s, before);
      GoodBefore(s, polls);
      PollSends(s, After(s, before), obs, Sent(s, before), LostAt(s, before));
    }
  }

  lemma NothingSent(s: Scenario)
    ensures Balanced(s, READY, [], [])
  {
    hide Script;
    if s.steps != [] {
      FreshAhead(s.steps[0]);
      assert ScriptUpTo(s, 0) == [];
    }
  }

  /**
   * A scenario that passed has sent its whole script in order, but for exactly the events lost to
   * polls that came too early for a replay: each such poll costs one, and the scenario still passes.
   */
  lemma PassedSendsScript(s: Scenario, polls: seq<Observation>)
    requires Ordered(polls) && polls != [] && After(s, polls).Passed()
    ensures var all := ScriptUpTo(s, |s.steps|);
            && Rising(LostAt(s, polls), |all|)
            && Sent(s, polls) == Without(all, LostAt(s, polls))
            && |Sent(s, polls)| + Lost(s, polls) == |all|
            && (Sent(s, polls) == all <==> Lost(s, polls) == 0)
  {
    hide Ahead, Polled, LosesEvent, ScriptUpTo, Without, After, Sent, LostAt, Underway;
    RunSends(s, polls);
    RunKeeps(s, polls);
    var all := ScriptUpTo(s, |s.steps|);
    assert all[..|all|] == all;
    WithoutNone(all);
  }

  /**
   * At any moment of any run: what was sent, with what was lost in its places, and then what is
   * ahead make up the script.
   */
  lemma NothingRepeatedOrReordered(s: Scenario, polls: seq<Observation>)
    requires Ordered(polls)
    ensures var e, done := After(s, polls), |Sent(s, polls)| + Lost(s, polls);
            && e.index <= |s.steps| && done <= |ScriptDue(s, e)|
            && Rising(LostAt(s, polls), done)
            && Sent(s, polls) == Without(ScriptDue(s, e)[..done], LostAt(s, polls))
            && LeftOver(s, e) == ScriptDue(s, e)[done..]
  {
    hide Ahead, Polled, LosesEvent, ScriptUpTo, Without;
    RunSends(s, polls);
  }

  /** Every poll after the first comes no earlier than the engine asked for. */
  predicate AsAsked(s: Scenario, polls: seq<Observation>)
    requires Ordered(polls)
  {
    polls == [] ||
    var n := |polls| - 1;
    AsAsked(s, polls[..n]) && After(s, polls[..n]).nextPollNs <= polls[n].nowNs
  }

  /** Polled as it asks, or without any replay in it, a scenario loses nothing. */
  lemma {:induction false} NothingLost(s: Scenario, polls: seq<Observation>)
    requires Ordered(polls)
    requires AsAsked(s, polls) || forall i :: 0 <= i < |s.steps| ==> !s.steps[i].KeyEvents?
    ensures Lost(s, polls) == 0
  {
    hide Polled, Balanced;
    if polls != [] {
      NothingLost(s, polls[..|polls| - 1]);
      RunSends(s, polls[..|polls| - 1]);
    }
  }
}
