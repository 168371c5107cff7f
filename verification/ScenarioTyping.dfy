/** What a step that sends keys has sent by each poll: a tally of how far its script it is, and since when. */
module ScenarioTyping {
  import opened Bits
  import opened ScenarioKeys
  import opened ScenarioSpec

  predicate SendsKeys(op: Op) {
    op.Key? || op.KeyEvents?
  }

  function GapNs(op: Op): nat
    requires SendsKeys(op)
  {
    op.gapMs * MS
  }

  /** The characters or events of a step. */
  function Items(op: Op): nat
    requires SendsKeys(op)
  {
    if op.Key? then |Repeated(op.text, op.repeat)| else |op.events|
  }

  /** What the characters or events from a up to b send. */
  function Coded(op: Op, a: nat, b: nat): seq<KeyEvent>
    requires SendsKeys(op) && a <= b <= Items(op)
  {
    if op.Key? then Strokes(Repeated(op.text, op.repeat)[a..b]) else op.events[a..b]
  }

  /** How many items are done with, the poll of the last send, and whether the latest poll missed an item. */
  datatype Tally = Tally(taken: nat, at: nat, missed: bool)

  /** A gap has passed since the last send. */
  predicate GapOver(op: Op, polls: seq<Observation>, at: nat, j: nat)
    requires SendsKeys(op) && at < |polls| && j < |polls|
  {
    polls[at].nowNs + GapNs(op) <= polls[j].nowNs
  }

  /**
   * The tally at poll j of a step that started at poll p. Without a gap everything goes at once.
   * With one, the first item goes at the first poll and each other one at a poll at which the gap
   * is over; a character waits for such a poll, but an event is done with at the very next one.
   */
  function Tallied(op: Op, polls: seq<Observation>, p: nat, j: nat): (t: Tally)
    requires SendsKeys(op) && p <= j < |polls|
    ensures t.taken <= Items(op) && p <= t.at <= j && (t.missed ==> op.KeyEvents?)
    decreases j
  {
    if j == p then Tally(if GapNs(op) == 0 || Items(op) == 0 then Items(op) else 1, p, false)
    else
      var t := Tallied(op, polls, p, j - 1);
      if t.taken == Items(op) then t.(missed := false)
      else if GapOver(op, polls, t.at, j) then Tally(t.taken + 1, j, false)
      else if op.KeyEvents? then Tally(t.taken + 1, t.at, true)
      else t
  }

  /** The whole script is done with, and the last of it was not missed at this very poll. */
  predicate AllTaken(op: Op, polls: seq<Observation>, p: nat, j: nat)
    requires SendsKeys(op) && p <= j < |polls|
  {
    var t := Tallied(op, polls, p, j);
    t.taken == Items(op) && !t.missed
  }

  function TakenBefore(op: Op, polls: seq<Observation>, p: nat, j: nat): (n: nat)
    requires SendsKeys(op) && p <= j < |polls|
    ensures n <= Tallied(op, polls, p, j).taken
  {
    if j == p then 0 else Tallied(op, polls, p, j - 1).taken
  }

  /** The keys that a step which started at poll p sends at poll j. */
  function KeysAt(op: Op, polls: seq<Observation>, p: nat, j: nat): seq<KeyEvent>
    requires p <= j < |polls|
  {
    if !SendsKeys(op) || Tallied(op, polls, p, j).missed then []
    else Coded(op, TakenBefore(op, polls, p, j), Tallied(op, polls, p, j).taken)
  }

  /** The keys it sends at the polls from p up to n. */
  function KeysOver(op: Op, polls: seq<Observation>, p: nat, n: nat): seq<KeyEvent>
    requires p <= n <= |polls|
    decreases n
  {
    if n == p then [] else KeysOver(op, polls, p, n - 1) + KeysAt(op, polls, p, n - 1)
  }

  // ---- One look does what the tally says ---------------------------------------------------

  /** The queue that a tally stands for, newest first, and when its next item is due. */
  function Queue(op: Op, polls: seq<Observation>, t: Tally): Pending
    requires SendsKeys(op) && t.taken <= Items(op) && t.at < |polls|
  {
    var dueNs := polls[t.at].nowNs + GapNs(op);
    if op.Key? then Typing(Reversed(Repeated(op.text, op.repeat)[t.taken..]), dueNs)
    else Replaying(Reversed(op.events[t.taken..]), dueNs)
  }

  lemma ReversedTail<T>(s: seq<T>, k: nat)
    requires k < |s|
    ensures var q := Reversed(s[k..]);
            |q| == |s| - k && q[|q| - 1] == s[k] && q[..|q| - 1] == Reversed(s[k + 1..])
  {
    hide Reversed;
    assert s[k..] == [s[k]] + s[k + 1..];
    ReversedFront(s[k], s[k + 1..]);
    ReversedLength(s[k..]);
  }

  lemma {:induction false} ReversedLength<T>(s: seq<T>)
    ensures |Reversed(s)| == |s|
  {
    if s != [] {
      ReversedLength(s[..|s| - 1]);
    }
  }

  lemma OneStroke(codes: seq<byte>, k: nat)
    requires k < |codes|
    ensures Strokes(codes[k..k + 1]) == PressRelease(codes[k])
  {
    assert codes[k..k + 1] == [codes[k]] && [codes[k]][1..] == [];
    assert PressRelease(codes[k]) + [] == PressRelease(codes[k]);
  }

  /** The typing loop on a queue that is a tail of the codes. */
  lemma TypesNext(codes: seq<byte>, k: nat, nextAtNs: nat, nowNs: nat, gapNs: nat, nextPollNs: nat)
    requires k <= |codes|
    ensures var a := TypeWait(Reversed(codes[k..]), nextAtNs, nowNs, gapNs, nextPollNs);
            if k == |codes| then a.keys == [] && a.progress == Finished(Pass)
            else if nowNs < nextAtNs then
              a == Advance(Typing(Reversed(codes[k..]), nextAtNs), nextAtNs, Blocked, [])
            else if gapNs == 0 then a.keys == Strokes(codes[k..]) && a.progress == Finished(Pass)
            else
              && a.keys == PressRelease(codes[k])
              && (k + 1 == |codes| ==> a.progress == Finished(Pass))
              && (k + 1 < |codes| ==>
                    a.progress == Blocked && a.pending == Typing(Reversed(codes[k + 1..]), nowNs + gapNs) &&
                    a.nextPollNs == nowNs + gapNs)
  {
    hide Strokes, Reversed;
    ReversedLength(codes[k..]);
    if k < |codes| {
      ReversedTail(codes, k);
      ReversedTwice(codes[k..]);
    }
  }

  /** The replay loop on a queue that is a tail of the events. */
  lemma ReplaysNext(events: seq<KeyEvent>, k: nat, nextAtNs: nat, nowNs: nat, gapNs: nat, nextPollNs: nat)
    requires k <= |events|
    ensures var a := ReplayWait(Reversed(events[k..]), nextAtNs, nowNs, gapNs, nextPollNs);
            if k == |events| then a.keys == [] && a.progress == Finished(Pass)
            else if nowNs < nextAtNs then
              a == Advance(Replaying(Reversed(events[k + 1..]), nextAtNs), nextAtNs, Blocked, [])
            else if gapNs == 0 then a.keys == events[k..] && a.progress == Finished(Pass)
            else
              && a.keys == [events[k]]
              && (k + 1 == |events| ==> a.progress == Finished(Pass))
              && (k + 1 < |events| ==>
                    a.progress == Blocked && a.pending == Replaying(Reversed(events[k + 1..]), nowNs + gapNs) &&
                    a.nextPollNs == nowNs + gapNs)
  {
    hide Reversed;
    ReversedLength(events[k..]);
    if k < |events| {
      ReversedTail(events, k);
      ReversedTwice(events[k..]);
    }
  }

  /** Without a gap a step is over at its first poll, and stays so. */
  lemma {:induction false} NoGapNoWait(op: Op, polls: seq<Observation>, p: nat, j: nat)
    requires SendsKeys(op) && p <= j < |polls| && GapNs(op) == 0
    ensures AllTaken(op, polls, p, j)
    decreases j
  {
    if j > p {
      NoGapNoWait(op, polls, p, j - 1);
    }
  }

  /** What one look at poll n must do, by the tally. */
  ghost predicate LookTallies(op: Op, a: Advance, polls: seq<Observation>, p: nat, n: nat)
    requires SendsKeys(op) && p <= n < |polls|
  {
    var t := Tallied(op, polls, p, n);
    && a.keys == KeysAt(op, polls, p, n)
    && a.progress == (if AllTaken(op, polls, p, n) then Finished(Pass) else Blocked)
    && (a.progress.Blocked? ==>
          a.pending == Queue(op, polls, t) && a.nextPollNs == polls[t.at].nowNs + GapNs(op))
  }

  lemma FirstLookTallies(op: Op, nextPollNs: nat, polls: seq<Observation>, n: nat, pollMs: Positive)
    requires SendsKeys(op) && n < |polls| && polls[n].Valid() && polls[n].keyboard
    ensures LookTallies(op, Advanced(op, Fresh, nextPollNs, polls[n], pollMs), polls, n, n)
  {
    hide Strokes, Reversed, Repeated, TypeWait, ReplayWait;
    var now := polls[n].nowNs;
    if op.Key? {
      var codes := Repeated(op.text, op.repeat);
      assert codes[0..] == codes && codes[0..|codes|] == codes && codes[0..0] == [];
      NoStrokes();
      TypesNext(codes, 0, now, now, GapNs(op), nextPollNs);
      if codes != [] {
        OneStroke(codes, 0);
      }
    } else {
      assert op.events[0..] == op.events && op.events[0..|op.events|] == op.events;
      ReplaysNext(op.events, 0, now, now, GapNs(op), nextPollNs);
    }
  }

  lemma NoStrokes()
    ensures Strokes([]) == []
  {
  }

  lemma NextLookTypes(op: Op, nextPollNs: nat, polls: seq<Observation>, p: nat, n: nat, pollMs: Positive)
    requires op.Key? && p < n < |polls| && polls[n].Valid() && polls[n].keyboard && !AllTaken(op, polls, p, n - 1)
    ensures var pending := Queue(op, polls, Tallied(op, polls, p, n - 1));
            LookTallies(op, Advanced(op, pending, nextPollNs, polls[n], pollMs), polls, p, n)
  {
    hide Strokes, Reversed, Repeated, TypeWait;
    var t := Tallied(op, polls, p, n - 1);
    var codes := Repeated(op.text, op.repeat);
    if GapNs(op) == 0 {
      NoGapNoWait(op, polls, p, n - 1);
    }
    TypesNext(codes, t.taken, polls[t.at].nowNs + GapNs(op), polls[n].nowNs, GapNs(op), nextPollNs);
    OneStroke(codes, t.taken);
    NoStrokes();
    assert codes[t.taken..t.taken] == [];
  }

  lemma NextLookReplays(op: Op, nextPollNs: nat, polls: seq<Observation>, p: nat, n: nat, pollMs: Positive)
    requires op.KeyEvents? && p < n < |polls| && polls[n].Valid() && polls[n].keyboard
    requires !AllTaken(op, polls, p, n - 1)
    ensures var pending := Queue(op, polls, Tallied(op, polls, p, n - 1));
            LookTallies(op, Advanced(op, pending, nextPollNs, polls[n], pollMs), polls, p, n)
  {
    hide Reversed, ReplayWait;
    var t := Tallied(op, polls, p, n - 1);
    if GapNs(op) == 0 {
      NoGapNoWait(op, polls, p, n - 1);
    }
    ReplaysNext(op.events, t.taken, polls[t.at].nowNs + GapNs(op), polls[n].nowNs, GapNs(op), nextPollNs);
  }

  // ---- Spacing ----------------------------------------------------------------------------

  /** The polls up to j at which a step that started at poll p has sent something. */
  function SendPolls(op: Op, polls: seq<Observation>, p: nat, j: nat): (sends: seq<nat>)
    requires SendsKeys(op) && p <= j < |polls|
    ensures forall i :: 0 <= i < |sends| ==> p <= sends[i] <= j
    decreases j
  {
    (if j == p then [] else SendPolls(op, polls, p, j - 1)) + if KeysAt(op, polls, p, j) == [] then [] else [j]
  }

  lemma {:induction false} StrokesLength(codes: seq<byte>)
    ensures |Strokes(codes)| == 2 * |codes|
  {
    if codes != [] {
      StrokesLength(codes[1..]);
    }
  }

  lemma CodedLength(op: Op, a: nat, b: nat)
    requires SendsKeys(op) && a <= b <= Items(op)
    ensures |Coded(op, a, b)| == (b - a) * if op.Key? then 2 else 1
  {
    hide Strokes;
    if op.Key? {
      StrokesLength(Repeated(op.text, op.repeat)[a..b]);
    }
  }

  /** A send is one stroke or one event when there is a gap, and the tally remembers its poll. */
  lemma SendOfOne(op: Op, polls: seq<Observation>, p: nat, j: nat)
    requires SendsKeys(op) && p <= j < |polls| && GapNs(op) > 0
    ensures var sends := KeysAt(op, polls, p, j) != [];
            && (sends ==> |KeysAt(op, polls, p, j)| == if op.Key? then 2 else 1)
            && (sends ==> Tallied(op, polls, p, j).at == j)
            && (sends && j > p ==> GapOver(op, polls, Tallied(op, polls, p, j - 1).at, j))
            && (!sends && j > p ==> Tallied(op, polls, p, j).at == Tallied(op, polls, p, j - 1).at)
            && (op.Key? && sends ==> Tallied(op, polls, p, j).taken == TakenBefore(op, polls, p, j) + 1)
            && (op.Key? && !sends ==> Tallied(op, polls, p, j).taken == TakenBefore(op, polls, p, j))
  {
    hide Coded, Repeated, GapOver;
    CodedLength(op, TakenBefore(op, polls, p, j), Tallied(op, polls, p, j).taken);
  }

  /** The last send is the one the tally remembers, and every stroke typed was a send. */
  lemma {:induction false} SendsTallied(op: Op, polls: seq<Observation>, p: nat, j: nat)
    requires SendsKeys(op) && p <= j < |polls| && GapNs(op) > 0
    ensures var sends, t := SendPolls(op, polls, p, j), Tallied(op, polls, p, j);
            && (sends == [] <==> Items(op) == 0)
            && (sends != [] ==> sends[0] == p && sends[|sends| - 1] == t.at)
            && (op.Key? ==> |sends| == t.taken)
    decreases j
  {
    hide KeysAt, GapNs, Items, Tallied;
    SendOfOne(op, polls, p, j);
    if j > p {
      SendsTallied(op, polls, p, j - 1);
      if Items(op) == 0 {
        NothingToSend(op, polls, p, j);
      }
    } else {
      FirstSend(op, polls, p);
    }
  }

  /** Two sends of a step are at least its gap apart, and with a gap each sends one stroke or one event. */
  lemma {:induction false} SendsAreSpaced(op: Op, polls: seq<Observation>, p: nat, j: nat)
    requires SendsKeys(op) && p <= j < |polls| && GapNs(op) > 0
    ensures var sends := SendPolls(op, polls, p, j);
            && (forall i :: 0 <= i < |sends| - 1 ==> GapOver(op, polls, sends[i], sends[i + 1]))
            && (forall i :: 0 <= i < |sends| ==> |KeysAt(op, polls, p, sends[i])| == if op.Key? then 2 else 1)
    decreases j
  {
    hide KeysAt, GapNs, Items, Tallied, GapOver;
    SendOfOne(op, polls, p, j);
    if j > p {
      SendsAreSpaced(op, polls, p, j - 1);
      SendsTallied(op, polls, p, j - 1);
    }
  }

  lemma {:induction false} GapsAddUp(op: Op, polls: seq<Observation>, sends: seq<nat>, n: nat)
    requires SendsKeys(op) && n < |sends| && forall i :: 0 <= i < |sends| ==> sends[i] < |polls|
    requires forall i :: 0 <= i < |sends| - 1 ==> GapOver(op, polls, sends[i], sends[i + 1])
    ensures polls[sends[0]].nowNs + n * GapNs(op) <= polls[sends[n]].nowNs
  {
    if n > 0 {
      GapsAddUp(op, polls, sends, n - 1);
      assert GapOver(op, polls, sends[n - 1], sends[n]);
      assert n * GapNs(op) == (n - 1) * GapNs(op) + GapNs(op);
    }
  }

  /** So the last of n sends comes no sooner than n - 1 gaps after the step started. */
  lemma SendsTakeTime(op: Op, polls: seq<Observation>, p: nat, j: nat)
    requires SendsKeys(op) && p <= j < |polls| && Items(op) > 0
    requires forall i :: p <= i <= j ==> polls[i].nowNs <= polls[j].nowNs
    ensures var n := |SendPolls(op, polls, p, j)|;
            n >= 1 && polls[p].nowNs + (n - 1) * GapNs(op) <= polls[j].nowNs
  {
    hide KeysAt, GapNs, Items, Tallied, GapOver;
    if GapNs(op) == 0 {
      SomethingSent(op, polls, p, j);
    } else {
      SendsTallied(op, polls, p, j);
      SendsAreSpaced(op, polls, p, j);
      var sends := SendPolls(op, polls, p, j);
      GapsAddUp(op, polls, sends, |sends| - 1);
    }
  }

  lemma {:induction false} SomethingSent(op: Op, polls: seq<Observation>, p: nat, j: nat)
    requires SendsKeys(op) && p <= j < |polls| && Items(op) > 0
    ensures SendPolls(op, polls, p, j) != []
    decreases j
  {
    hide KeysAt, Items;
    if j > p {
      SomethingSent(op, polls, p, j - 1);
    } else {
      FirstSend(op, polls, p);
    }
  }

  lemma FirstSend(op: Op, polls: seq<Observation>, p: nat)
    requires SendsKeys(op) && p < |polls|
    ensures KeysAt(op, polls, p, p) == [] ==> Items(op) == 0
    ensures Items(op) == 0 ==> KeysAt(op, polls, p, p) == []
  {
    hide Coded, Repeated;
    CodedLength(op, 0, Tallied(op, polls, p, p).taken);
  }

  lemma NothingToSend(op: Op, polls: seq<Observation>, p: nat, j: nat)
    requires SendsKeys(op) && p < j < |polls| && Items(op) == 0
    ensures KeysAt(op, polls, p, j) == []
  {
    hide Coded, Repeated;
    CodedLength(op, 0, 0);
  }
}
