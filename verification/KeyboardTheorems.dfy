/** What becomes of every key event, over any mix of key traffic and bus traffic. */
module KeyboardTheorems {
  import opened Bits
  import opened KeyboardSpec

  datatype Stimulus =
    | KeyPushed(e: KeyEvent)
    | ModifierMoved(m: Modifier, state: KeyState)
    | KeyMoved(primary: byte, symbol: byte, state: KeyState)
    | BusWrite(b: byte)
    | BusRead
    | BusStop
    | ConfigSet(config: bv8)
    | LocksSet(caps: bool, num: bool)

  function Step(c: Controller, s: Stimulus): (r: Controller)
    requires c.Valid()
    ensures r.Valid()
  {
    match s
    case KeyPushed(e) => Push(c, e)
    case ModifierMoved(m, state) => ModifierEvent(c, m, state)
    case KeyMoved(primary, symbol, state) => MappedKeyEvent(c, primary, symbol, state)
    case BusWrite(b) => WriteByte(c, b)
    case BusRead => ReadByte(c).0
    case BusStop => TransactionEnd(c)
    case ConfigSet(config) => c.(settings := c.settings.(config := config))
    case LocksSet(caps, num) => c.(settings := c.settings.(capsLock := caps, numLock := num))
  }

  function After(run: seq<Stimulus>): (c: Controller)
    ensures c.Valid()
  {
    if run == [] then POWER_UP else Step(After(run[..|run| - 1]), run[|run| - 1])
  }

  // ---- Which events come and go -----------------------------------------------------------

  /** The register whose reply a byte on the bus prepares. */
  function Prepares(c: Controller, b: byte): Option<byte> {
    if c.link.pendingWrite.Some? then c.link.pendingWrite
    else if b >= 128 then None
    else Some(b)
  }

  predicate Polls(c: Controller, s: Stimulus) {
    s.BusWrite? && Prepares(c, s.b) == Some(0x09)
  }

  predicate Resets(c: Controller, s: Stimulus) {
    s.BusWrite? && Prepares(c, s.b) == Some(0x08)
  }

  /** The event a stimulus offers to the queue. */
  function Offered(c: Controller, s: Stimulus): seq<KeyEvent> {
    match s
    case KeyPushed(e) => [e]
    case ModifierMoved(m, state) =>
      if c.settings.config & 0x40 != 0 then [KeyEvent(state, m.Code())] else []
    case KeyMoved(primary, symbol, state) =>
      var caps := if primary == 0xC1 && state.Pressed? then !c.settings.capsLock else c.settings.capsLock;
      var code := Mapped(c.settings.(capsLock := caps), primary, symbol, state).GetOr(0);
      if code == 0 then []
      else [KeyEvent(if state.Held? && Repeatable(code) then Pressed else state, code)]
    case _ => []
  }

  function Arrivals(run: seq<Stimulus>): seq<KeyEvent> {
    if run == [] then []
    else Arrivals(run[..|run| - 1]) + Offered(After(run[..|run| - 1]), run[|run| - 1])
  }

  /** The events handed to the bus master, in the order it got them. */
  function Departures(run: seq<Stimulus>): seq<KeyEvent> {
    if run == [] then []
    else
      var c := After(run[..|run| - 1]);
      Departures(run[..|run| - 1]) + if Polls(c, run[|run| - 1]) && c.fifo != [] then [c.fifo[0]] else []
  }

  /** How many events were waiting when the controller was reset, over all resets. */
  function ClearedBy(run: seq<Stimulus>): nat {
    if run == [] then 0
    else
      var c := After(run[..|run| - 1]);
      ClearedBy(run[..|run| - 1]) + if Resets(c, run[|run| - 1]) then |c.fifo| else 0
  }

  // ---- Ledgers ----------------------------------------------------------------------------

  datatype Fate = Queued | Delivered | Dropped | Cleared

  /** One fate for each arrival, and the arrivals that wait or were taken, oldest first. */
  datatype Ledger = Ledger(fates: seq<Fate>, waiting: seq<nat>, taken: seq<nat>)

  function Count(fates: seq<Fate>, f: Fate): nat {
    if fates == [] then 0
    else Count(fates[..|fates| - 1], f) + if fates[|fates| - 1] == f then 1 else 0
  }

  ghost predicate Ascending(ids: seq<nat>) {
    forall i, j :: 0 <= i < j < |ids| ==> ids[i] < ids[j]
  }

  /** The listed positions are exactly those with this fate. */
  ghost predicate Lists(fates: seq<Fate>, ids: seq<nat>, f: Fate) {
    && (forall i :: 0 <= i < |ids| ==> ids[i] < |fates|)
    && forall k :: 0 <= k < |fates| ==> (fates[k] == f <==> k in ids)
  }

  ghost predicate Picks(all: seq<KeyEvent>, ids: seq<nat>, chosen: seq<KeyEvent>) {
    && |ids| == |chosen|
    && forall i :: 0 <= i < |ids| ==> ids[i] < |all| && chosen[i] == all[ids[i]]
  }

  ghost predicate InOrder(l: Ledger) {
    && Ascending(l.waiting) && Ascending(l.taken)
    && forall i, j :: 0 <= i < |l.taken| && 0 <= j < |l.waiting| ==> l.taken[i] < l.waiting[j]
  }

  ghost predicate Accounts(l: Ledger, arrivals: seq<KeyEvent>, departures: seq<KeyEvent>, cleared: nat, c: Controller) {
    && |l.fates| == |arrivals|
    && InOrder(l)
    && Lists(l.fates, l.waiting, Queued) && Picks(arrivals, l.waiting, c.fifo)
    && Lists(l.fates, l.taken, Delivered) && Picks(arrivals, l.taken, departures)
    && Count(l.fates, Dropped) == c.stats.dropped
    && Count(l.fates, Cleared) == cleared
    && |departures| == c.stats.delivered
  }

  function Arrived(l: Ledger): Ledger {
    Ledger(l.fates + [Queued], l.waiting + [|l.fates|], l.taken)
  }

  function Refused(l: Ledger): Ledger {
    l.(fates := l.fates + [Dropped])
  }

  function Lost(l: Ledger): Ledger
    requires l.waiting != [] && l.waiting[0] < |l.fates|
  {
    Ledger(l.fates[l.waiting[0] := Dropped], l.waiting[1..], l.taken)
  }

  function Taken(l: Ledger): Ledger
    requires l.waiting != [] && l.waiting[0] < |l.fates|
  {
    Ledger(l.fates[l.waiting[0] := Delivered], l.waiting[1..], l.taken + [l.waiting[0]])
  }

  function Wiped(fates: seq<Fate>): (w: seq<Fate>)
    ensures |w| == |fates|
    ensures forall k :: 0 <= k < |fates| ==> w[k] == if fates[k] == Queued then Cleared else fates[k]
  {
    seq(|fates|, k requires 0 <= k < |fates| => if fates[k] == Queued then Cleared else fates[k])
  }

  lemma {:induction false} CountUpdate(fates: seq<Fate>, k: nat, g: Fate, f: Fate)
    requires k < |fates|
    ensures Count(fates[k := g], f) + (if fates[k] == f then 1 else 0) == Count(fates, f) + if g == f then 1 else 0
  {
    var n := |fates| - 1;
    if k == n {
      assert fates[k := g][..n] == fates[..n];
    } else {
      assert fates[k := g][..n] == fates[..n][k := g];
      CountUpdate(fates[..n], k, g, f);
    }
  }

  lemma CountSnoc(fates: seq<Fate>, g: Fate, f: Fate)
    ensures Count(fates + [g], f) == Count(fates, f) + if g == f then 1 else 0
  {
    assert (fates + [g])[..|fates|] == fates;
  }

  lemma {:induction false} CountWiped(fates: seq<Fate>)
    ensures Count(Wiped(fates), Dropped) == Count(fates, Dropped)
    ensures Count(Wiped(fates), Cleared) == Count(fates, Cleared) + Count(fates, Queued)
  {
    if fates != [] {
      var n := |fates| - 1;
      assert Wiped(fates)[..n] == Wiped(fates[..n]);
      CountWiped(fates[..n]);
    }
  }

  lemma {:induction false} CountListed(fates: seq<Fate>, ids: seq<nat>, f: Fate)
    requires Ascending(ids) && Lists(fates, ids, f)
    ensures |ids| == Count(fates, f)
  {
    assert ids != [] ==> ids[0] < |fates|;
    if fates != [] {
      var n, m := |fates| - 1, |ids| - 1;
      if fates[n] == f {
        assert n in ids;
        assert ids[m] == n;
        assert forall k :: k in ids && k != n ==> k in ids[..m];
        CountListed(fates[..n], ids[..m], f);
      } else {
        assert forall i :: 0 <= i < |ids| ==> ids[i] != n;
        CountListed(fates[..n], ids, f);
      }
    }
  }

  lemma {:induction false} CountAll(fates: seq<Fate>)
    ensures Count(fates, Queued) + Count(fates, Delivered) + Count(fates, Dropped) + Count(fates, Cleared) == |fates|
  {
    if fates != [] {
      CountAll(fates[..|fates| - 1]);
    }
  }

  // ---- Each movement keeps the books ------------------------------------------------------

  lemma OthersStay(fates: seq<Fate>, ids: seq<nat>, f: Fate, g: Fate)
    requires Lists(fates, ids, f) && f != g
    ensures Lists(fates + [g], ids, f)
  {
  }

  lemma NewestJoins(fates: seq<Fate>, ids: seq<nat>, g: Fate)
    requires Lists(fates, ids, g)
    ensures Lists(fates + [g], ids + [|fates|], g)
  {
    var joined := ids + [|fates|];
    assert joined[|ids|] == |fates|;
    assert forall k :: k in ids ==> k in joined;
  }

  lemma MorePicked(all: seq<KeyEvent>, ids: seq<nat>, chosen: seq<KeyEvent>, e: KeyEvent)
    requires Picks(all, ids, chosen)
    ensures Picks(all + [e], ids, chosen) && Picks(all + [e], ids + [|all|], chosen + [e])
  {
  }

  lemma NewestInOrder(l: Ledger)
    requires InOrder(l)
    requires Lists(l.fates, l.waiting, Queued) && Lists(l.fates, l.taken, Delivered)
    ensures InOrder(Arrived(l))
  {
  }

  lemma OldestLeavesInOrder(l: Ledger)
    requires InOrder(l) && l.waiting != [] && l.waiting[0] < |l.fates|
    ensures InOrder(Lost(l)) && InOrder(Taken(l))
  {
  }

  lemma ArrivedKeeps(l: Ledger, arrivals: seq<KeyEvent>, departures: seq<KeyEvent>, cleared: nat, c: Controller,
                     d: Controller, e: KeyEvent)
    requires Accounts(l, arrivals, departures, cleared, c)
    requires d.fifo == c.fifo + [e]
    requires d.stats.dropped == c.stats.dropped && d.stats.delivered == c.stats.delivered
    ensures Accounts(Arrived(l), arrivals + [e], departures, cleared, d)
  {
    CountSnoc(l.fates, Queued, Dropped);
    CountSnoc(l.fates, Queued, Cleared);
    OthersStay(l.fates, l.taken, Delivered, Queued);
    NewestJoins(l.fates, l.waiting, Queued);
    MorePicked(arrivals, l.waiting, c.fifo, e);
    MorePicked(arrivals, l.taken, departures, e);
    NewestInOrder(l);
    hide Lists, Picks, InOrder, Count;
  }

  lemma RefusedKeeps(l: Ledger, arrivals: seq<KeyEvent>, departures: seq<KeyEvent>, cleared: nat, c: Controller,
                     d: Controller, e: KeyEvent)
    requires Accounts(l, arrivals, departures, cleared, c)
    requires d.fifo == c.fifo
    requires d.stats.dropped == c.stats.dropped + 1 && d.stats.delivered == c.stats.delivered
    ensures Accounts(Refused(l), arrivals + [e], departures, cleared, d)
  {
    CountSnoc(l.fates, Dropped, Dropped);
    CountSnoc(l.fates, Dropped, Cleared);
  }

  lemma HeadLeaves(fates: seq<Fate>, ids: seq<nat>, f: Fate, g: Fate)
    requires Lists(fates, ids, f) && Ascending(ids) && ids != [] && f != g
    ensures Lists(fates[ids[0] := g], ids[1..], f)
  {
    assert forall k :: k in ids && k != ids[0] ==> k in ids[1..];
  }

  lemma TailJoins(fates: seq<Fate>, ids: seq<nat>, g: Fate, k: nat)
    requires Lists(fates, ids, g) && k < |fates|
    ensures Lists(fates[k := g], ids + [k], g)
  {
    var joined := ids + [k];
    assert joined[|ids|] == k;
    assert forall j :: j in ids ==> j in joined;
  }

  lemma LostKeeps(l: Ledger, arrivals: seq<KeyEvent>, departures: seq<KeyEvent>, cleared: nat, c: Controller,
                 d: Controller)
    requires Accounts(l, arrivals, departures, cleared, c) && c.fifo != []
    requires d.fifo == c.fifo[1..]
    requires d.stats.dropped == c.stats.dropped + 1 && d.stats.delivered == c.stats.delivered
    ensures l.waiting != [] && l.waiting[0] < |l.fates|
    ensures Accounts(Lost(l), arrivals, departures, cleared, d)
  {
    CountUpdate(l.fates, l.waiting[0], Dropped, Dropped);
    CountUpdate(l.fates, l.waiting[0], Dropped, Cleared);
    HeadLeaves(l.fates, l.waiting, Queued, Dropped);
    ElsewhereStays(l.fates, l.taken, Delivered, l.waiting[0], Dropped);
    HeadPicked(arrivals, l.waiting, c.fifo, l.taken, departures);
    OldestLeavesInOrder(l);
    hide Lists, Count, Picks, InOrder;
  }

  lemma ElsewhereStays(fates: seq<Fate>, ids: seq<nat>, f: Fate, k: nat, g: Fate)
    requires Lists(fates, ids, f) && k < |fates| && fates[k] != f && g != f
    ensures Lists(fates[k := g], ids, f)
  {
  }

  lemma TakenKeeps(l: Ledger, arrivals: seq<KeyEvent>, departures: seq<KeyEvent>, cleared: nat, c: Controller,
                  d: Controller)
    requires Accounts(l, arrivals, departures, cleared, c) && c.fifo != []
    requires d.fifo == c.fifo[1..]
    requires d.stats.dropped == c.stats.dropped && d.stats.delivered == c.stats.delivered + 1
    ensures l.waiting != [] && l.waiting[0] < |l.fates|
    ensures Accounts(Taken(l), arrivals, departures + [c.fifo[0]], cleared, d)
  {
    CountUpdate(l.fates, l.waiting[0], Delivered, Dropped);
    CountUpdate(l.fates, l.waiting[0], Delivered, Cleared);
    HeadLeaves(l.fates, l.waiting, Queued, Delivered);
    TailJoins(l.fates, l.taken, Delivered, l.waiting[0]);
    HeadPicked(arrivals, l.waiting, c.fifo, l.taken, departures);
    OldestLeavesInOrder(l);
    hide Lists, Count, Picks, InOrder;
  }

  lemma HeadPicked(all: seq<KeyEvent>, ids: seq<nat>, chosen: seq<KeyEvent>, taken: seq<nat>, earlier: seq<KeyEvent>)
    requires Picks(all, ids, chosen) && Picks(all, taken, earlier) && ids != []
    ensures Picks(all, ids[1..], chosen[1..]) && Picks(all, taken + [ids[0]], earlier + [chosen[0]])
  {
  }

  lemma ClearedKeeps(l: Ledger, arrivals: seq<KeyEvent>, departures: seq<KeyEvent>, cleared: nat, c: Controller,
                    d: Controller)
    requires Accounts(l, arrivals, departures, cleared, c)
    requires d.fifo == []
    requires d.stats.dropped == c.stats.dropped && d.stats.delivered == c.stats.delivered
    ensures Accounts(Ledger(Wiped(l.fates), [], l.taken), arrivals, departures, cleared + |c.fifo|, d)
  {
    CountWiped(l.fates);
    CountListed(l.fates, l.waiting, Queued);
  }

  // ---- The main result --------------------------------------------------------------------

  /** What one stimulus does to the queue and to the counters of what leaves it. */
  ghost predicate QueueMoves(c: Controller, s: Stimulus, d: Controller)
    requires c.Valid()
  {
    var offered := Offered(c, s);
    && |offered| <= 1
    && d.stats.delivered == c.stats.delivered + (if Polls(c, s) && c.fifo != [] then 1 else 0)
    && d.stats.resets == c.stats.resets + (if Resets(c, s) then 1 else 0)
    && d.stats.dropped == c.stats.dropped + (if offered != [] && |c.fifo| == CAPACITY then 1 else 0)
    && d.fifo == if Resets(c, s) then []
                 else if Polls(c, s) then (if c.fifo == [] then [] else c.fifo[1..])
                 else if |c.fifo| < CAPACITY then c.fifo + offered
                 else if offered != [] && Overwrites(c) then c.fifo[1..] + offered
                 else c.fifo
  }

  lemma StepMoves(c: Controller, s: Stimulus)
    requires c.Valid()
    ensures QueueMoves(c, s, Step(c, s))
  {
    hide Mapped, Reply, Written, Push;
    match s
    case BusWrite(b) => WriteMoves(c, b);
    case KeyPushed(e) => PushMoves(c, e);
    case ModifierMoved(m, state) => ModifierMoves(c, m, state);
    case KeyMoved(primary, symbol, state) => MappedMoves(c, primary, symbol, state);
    case _ =>
  }

  lemma ModifierMoves(c: Controller, m: Modifier, state: KeyState)
    requires c.Valid()
    ensures QueueMoves(c, ModifierMoved(m, state), ModifierEvent(c, m, state))
  {
    hide Push;
    var pressed := if state.Pressed? then c.(settings := c.settings.(active := c.settings.active + {m})) else c;
    PushMoves(pressed, KeyEvent(state, m.Code()));
  }

  lemma MappedMoves(c: Controller, primary: byte, symbol: byte, state: KeyState)
    requires c.Valid()
    ensures QueueMoves(c, KeyMoved(primary, symbol, state), MappedKeyEvent(c, primary, symbol, state))
  {
    hide Push, Mapped, Lit;
    var caps := if primary == 0xC1 && state.Pressed? then !c.settings.capsLock else c.settings.capsLock;
    var toggled := c.(settings := c.settings.(capsLock := caps));
    var code := Mapped(toggled.settings, primary, symbol, state).GetOr(0);
    PushMoves(toggled, KeyEvent(if state.Held? && Repeatable(code) then Pressed else state, code));
    hide Repeatable;
  }

  lemma WriteMoves(c: Controller, b: byte)
    requires c.Valid()
    ensures QueueMoves(c, BusWrite(b), WriteByte(c, b))
  {
  }

  lemma NothingYet()
    ensures Accounts(Ledger([], [], []), Arrivals([]), Departures([]), ClearedBy([]), After([]))
  {
  }

  predicate Tidy(l: Ledger, c: Controller) {
    |l.waiting| == |c.fifo| && forall i :: 0 <= i < |l.waiting| ==> l.waiting[i] < |l.fates|
  }

  /** The books after one more stimulus. */
  function Booked(l: Ledger, c: Controller, s: Stimulus): Ledger
    requires Tidy(l, c)
  {
    if Resets(c, s) then Ledger(Wiped(l.fates), [], l.taken)
    else if Polls(c, s) then if c.fifo == [] then l else Taken(l)
    else if Offered(c, s) == [] then l
    else if |c.fifo| < CAPACITY then Arrived(l)
    else if Overwrites(c) && c.fifo != [] then Arrived(Lost(l))
    else Refused(l)
  }

  lemma BookedKeeps(l: Ledger, arrivals: seq<KeyEvent>, departures: seq<KeyEvent>, cleared: nat, c: Controller,
                    s: Stimulus, d: Controller)
    requires c.Valid() && Tidy(l, c) && Accounts(l, arrivals, departures, cleared, c) && QueueMoves(c, s, d)
    ensures Accounts(Booked(l, c, s), arrivals + Offered(c, s),
                     departures + (if Polls(c, s) && c.fifo != [] then [c.fifo[0]] else []),
                     cleared + (if Resets(c, s) then |c.fifo| else 0), d)
  {
    hide Accounts, Arrived, Refused, Lost, Taken;
    var offered := Offered(c, s);
    assert arrivals + [] == arrivals && departures + [] == departures;
    if Resets(c, s) {
      ClearedKeeps(l, arrivals, departures, cleared, c, d);
    } else if Polls(c, s) {
      if c.fifo == [] {
        assert c.fifo + [] == c.fifo;
        SameBooks(l, arrivals, departures, cleared, c, d);
      } else {
        TakenKeeps(l, arrivals, departures, cleared, c, d);
      }
    } else if offered == [] {
      assert c.fifo + [] == c.fifo;
      SameBooks(l, arrivals, departures, cleared, c, d);
    } else {
      var e := offered[0];
      assert offered == [e];
      if |c.fifo| < CAPACITY {
        ArrivedKeeps(l, arrivals, departures, cleared, c, d, e);
      } else if Overwrites(c) {
        var mid := c.(fifo := c.fifo[1..], stats := c.stats.(dropped := c.stats.dropped + 1));
        LostKeeps(l, arrivals, departures, cleared, c, mid);
        ArrivedKeeps(Lost(l), arrivals, departures, cleared, mid, d, e);
      } else {
        RefusedKeeps(l, arrivals, departures, cleared, c, d, e);
      }
    }
  }

  lemma SameBooks(l: Ledger, arrivals: seq<KeyEvent>, departures: seq<KeyEvent>, cleared: nat, c: Controller,
                  d: Controller)
    requires Accounts(l, arrivals, departures, cleared, c)
    requires d.fifo == c.fifo && d.stats.dropped == c.stats.dropped && d.stats.delivered == c.stats.delivered
    ensures Accounts(l, arrivals, departures, cleared, d)
  {
  }

  lemma AccountsTidy(l: Ledger, arrivals: seq<KeyEvent>, departures: seq<KeyEvent>, cleared: nat, c: Controller)
    requires Accounts(l, arrivals, departures, cleared, c)
    ensures Tidy(l, c) && |l.fates| == |arrivals|
    ensures forall k :: 0 <= k < |l.fates| ==> (l.fates[k] == Queued <==> k in l.waiting)
  {
  }

  /**
   * The books of a run. Every event that ever arrived has exactly one fate: waiting in the queue,
   * delivered, dropped, or cleared by a reset. Delivered events are an in-order subsequence of the
   * arrivals, everything delivered is older than everything waiting, and no more are cleared than
   * were waiting when the controller was reset.
   */
  function Books(run: seq<Stimulus>): (l: Ledger)
    ensures Tidy(l, After(run))
  {
    if run == [] then Ledger([], [], [])
    else
      var before, s := run[..|run| - 1], run[|run| - 1];
      BookedTidy(Books(before), After(before), s);
      Booked(Books(before), After(before), s)
  }

  lemma BookedTidy(l: Ledger, c: Controller, s: Stimulus)
    requires c.Valid() && Tidy(l, c)
    ensures Tidy(Booked(l, c, s), Step(c, s))
  {
    hide Step, Offered;
    StepMoves(c, s);
  }

  lemma {:induction false} EveryEventAccountedFor(run: seq<Stimulus>)
    ensures Accounts(Books(run), Arrivals(run), Departures(run), ClearedBy(run), After(run))
  {
    hide Step, Offered, Accounts, Booked, QueueMoves;
    if run == [] {
      NothingYet();
    } else {
      var before, s := run[..|run| - 1], run[|run| - 1];
      EveryEventAccountedFor(before);
      StepMoves(After(before), s);
      BookedKeeps(Books(before), Arrivals(before), Departures(before), ClearedBy(before), After(before), s, After(run));
    }
  }

  // ---- Why an event is no longer waiting --------------------------------------------------

  /** This stimulus settles the fate of arrival k: read, overwritten or refused at a full queue, or wiped by a reset. */
  predicate Settles(l: Ledger, c: Controller, s: Stimulus, k: nat, f: Fate) {
    match f
    case Queued => false
    case Delivered => Polls(c, s) && l.waiting != [] && k == l.waiting[0]
    case Dropped =>
      && Offered(c, s) != [] && |c.fifo| == CAPACITY
      && (if Overwrites(c) then l.waiting != [] && k == l.waiting[0] else k == |l.fates|)
    case Cleared => Resets(c, s) && k in l.waiting
  }

  predicate HasFate(l: Ledger, k: nat, f: Fate) {
    k < |l.fates| && l.fates[k] == f
  }

  lemma BookedSettles(l: Ledger, arrivals: seq<KeyEvent>, departures: seq<KeyEvent>, cleared: nat, c: Controller,
                      s: Stimulus, k: nat, f: Fate)
    requires c.Valid() && Tidy(l, c) && Accounts(l, arrivals, departures, cleared, c) && f != Queued
    ensures HasFate(Booked(l, c, s), k, f) <==> HasFate(l, k, f) || Settles(l, c, s, k, f)
  {
    AccountsTidy(l, arrivals, departures, cleared, c);
    BusOffersNone(c, s);
    hide Accounts, Offered;
  }

  lemma BusOffersNone(c: Controller, s: Stimulus)
    ensures s.BusWrite? ==> Offered(c, s) == []
  {
  }

  /** Stimulus j of the run settles the fate of arrival k. */
  predicate SettledAt(run: seq<Stimulus>, j: nat, k: nat, f: Fate)
    requires j < |run|
  {
    Settles(Books(run[..j]), After(run[..j]), run[j], k, f)
  }

  lemma LastSettles(run: seq<Stimulus>, k: nat, f: Fate)
    requires run != [] && f != Queued
    ensures var n := |run| - 1;
            HasFate(Books(run), k, f) <==> HasFate(Books(run[..n]), k, f) || SettledAt(run, n, k, f)
  {
    hide Step, Offered, Accounts, Settles, Booked, HasFate;
    var before, s := run[..|run| - 1], run[|run| - 1];
    EveryEventAccountedFor(before);
    BookedSettles(Books(before), Arrivals(before), Departures(before), ClearedBy(before), After(before), s, k, f);
  }

  /**
   * An event has been delivered exactly when some poll took it as the oldest one waiting, dropped
   * exactly when it met or made way at a full queue, and cleared exactly when it was waiting at a
   * reset. So no event ever leaves the queue in any other way, and no fate is ever revised.
   */
  lemma {:induction false} FateIffCause(run: seq<Stimulus>, k: nat, f: Fate)
    requires f != Queued
    ensures HasFate(Books(run), k, f) <==> exists j :: 0 <= j < |run| && SettledAt(run, j, k, f)
  {
    hide Step, Offered, Accounts, Settles, Books, After, HasFate;
    if run == [] {
      NoFatesYet(k, f);
    } else {
      var n := |run| - 1;
      FateIffCause(run[..n], k, f);
      LastSettles(run, k, f);
      forall j | 0 <= j < n
        ensures SettledAt(run[..n], j, k, f) <==> SettledAt(run, j, k, f)
      {
        assert run[..n][..j] == run[..j];
      }
    }
  }

  lemma NoFatesYet(k: nat, f: Fate)
    ensures !HasFate(Books([]), k, f)
  {
  }

  /** The conservation law in numbers, each one a counter or a fact of the run. */
  lemma FatesAddUp(run: seq<Stimulus>)
    ensures var c := After(run);
            |Arrivals(run)| == c.stats.delivered + |c.fifo| + c.stats.dropped + ClearedBy(run)
  {
    hide Step, Offered, After, Arrivals, Departures, ClearedBy;
    EveryEventAccountedFor(run);
    var l := Books(run);
    CountAll(l.fates);
    CountListed(l.fates, l.waiting, Queued);
    CountListed(l.fates, l.taken, Delivered);
  }

  /** A controller that counts no reset has cleared nothing. */
  lemma {:induction false} NoResetNothingCleared(run: seq<Stimulus>)
    ensures After(run).stats.resets == 0 ==> ClearedBy(run) == 0
  {
    hide Step, Offered;
    if run != [] {
      NoResetNothingCleared(run[..|run| - 1]);
      StepMoves(After(run[..|run| - 1]), run[|run| - 1]);
    }
  }

  /** With nothing dropped and nothing cleared, what was read and then what waits are all that arrived, in order. */
  lemma {:induction false} AllKeysInOrder(run: seq<Stimulus>)
    requires After(run).stats.dropped == 0 && ClearedBy(run) == 0
    ensures Arrivals(run) == Departures(run) + After(run).fifo
  {
    hide Step, Offered, Polls;
    if run != [] {
      var before, s := run[..|run| - 1], run[|run| - 1];
      StepMoves(After(before), s);
      BusOffersNone(After(before), s);
      AllKeysInOrder(before);
      StillInOrder(Arrivals(before), Departures(before), After(before), s, After(run));
    }
  }

  lemma StillInOrder(arrivals: seq<KeyEvent>, departures: seq<KeyEvent>, c: Controller, s: Stimulus, d: Controller)
    requires c.Valid() && QueueMoves(c, s, d) && arrivals == departures + c.fifo
    requires c.stats.dropped == d.stats.dropped && (Resets(c, s) ==> c.fifo == [])
    ensures arrivals + Offered(c, s) ==
            departures + (if Polls(c, s) && c.fifo != [] then [c.fifo[0]] else []) + d.fifo
  {
    BusOffersNone(c, s);
    hide Offered;
  }

  // ---- What the firmware sees -------------------------------------------------------------

  /** Reading and stopping move the reply position and nothing else. */
  lemma {:induction false} ReadsNeverConsume(c: Controller, traffic: seq<Stimulus>)
    requires c.Valid() && forall i :: 0 <= i < |traffic| ==> traffic[i].BusRead? || traffic[i].BusStop?
    ensures Folded(c, traffic).(link := c.link) == c
  {
    if traffic != [] {
      ReadsNeverConsume(c, traffic[..|traffic| - 1]);
    }
  }

  function Folded(c: Controller, traffic: seq<Stimulus>): (r: Controller)
    requires c.Valid()
    ensures r.Valid()
  {
    if traffic == [] then c else Step(Folded(c, traffic[..|traffic| - 1]), traffic[|traffic| - 1])
  }

  /** Select a register, optionally stop, and read two bytes; then stop. */
  function Exchange(c: Controller, reg: byte, stop: bool): (r: (Controller, byte, byte))
    requires c.Valid()
    ensures r.0.Valid()
  {
    var selected := WriteByte(c, reg);
    var ready := if stop then TransactionEnd(selected) else selected;
    var first := ReadByte(ready);
    var second := ReadByte(first.0);
    (TransactionEnd(second.0), first.1, second.1)
  }

  /** A repeated start and a stop before the read see the same snapshot. */
  lemma ExchangeAnswers(c: Controller, reg: byte, stop: bool)
    requires c.Valid() && c.link.pendingWrite == None && KnownRegister(reg)
    ensures var answer, x := Reply(Selected(c, reg), reg), Exchange(c, reg, stop);
            && |answer.1| >= 2 && x.1 == answer.1[0] && x.2 == answer.1[1]
            && x.0 == answer.0.(link := Link(Serving(answer.1, 0), answer.0.link.selected, None))
  {
    ReplyShape(Selected(c, reg), reg);
    hide Reply;
  }

  lemma ReplyShape(c: Controller, reg: byte)
    requires c.Valid() && c.link.pendingWrite == None
    ensures |Reply(c, reg).1| >= 2 && Reply(c, reg).0.link.pendingWrite == None
  {
  }

  lemma CountStatusFields(c: Controller)
    requires c.Valid()
    ensures var status := CountStatus(c);
            && status % 32 == |c.fifo|
            && (status / 32 % 2 == 1 <==> c.settings.capsLock)
            && (status / 64 == 1 <==> c.settings.numLock) && status < 128
    ensures Reply(c, 0x04).1[0] == CountStatus(c)
  {
  }

  /** In every reachable state the count register tells the queue length and both lock flags. */
  lemma CountRegisterAgrees(run: seq<Stimulus>, stop: bool)
    requires After(run).link.pendingWrite == None
    ensures var c := After(run); var status := Exchange(c, 0x04, stop).1;
            && status % 32 == |c.fifo|
            && (status / 32 % 2 == 1 <==> c.settings.capsLock)
            && (status / 64 == 1 <==> c.settings.numLock) && status < 128
  {
    hide After, Exchange;
    ExchangeAnswers(After(run), 0x04, stop);
    CountStatusFields(Selected(After(run), 0x04));
    hide *;
  }

  /** Events as the two bytes of a reply; an empty queue reads as two zeros. */
  function Wire(events: seq<KeyEvent>, k: nat): (byte, byte) {
    if k < |events| then (events[k].state.Code(), events[k].code) else (0, 0)
  }

  function PollMany(c: Controller, n: nat, stop: bool): (r: (Controller, seq<(byte, byte)>))
    requires c.Valid()
    ensures r.0.Valid() && |r.1| == n
  {
    if n == 0 then (c, [])
    else
      var earlier := PollMany(c, n - 1, stop);
      var x := Exchange(earlier.0, 0x09, stop);
      (x.0, earlier.1 + [(x.1, x.2)])
  }

  function Smaller(a: nat, b: nat): nat {
    if a < b then a else b
  }

  lemma TailOfTail(s: seq<KeyEvent>, n: nat)
    ensures var rest := s[Smaller(n, |s|)..];
            && rest[Smaller(1, |rest|)..] == s[Smaller(n + 1, |s|)..]
            && Wire(rest, 0) == Wire(s, n)
  {
  }

  /** Polling hands out the queue oldest first, and then zeros for as long as one likes. */
  lemma {:induction false} PollsDrain(c: Controller, n: nat, stop: bool)
    requires c.Valid() && c.link.pendingWrite == None
    ensures var r := PollMany(c, n, stop);
            && r.0.link.pendingWrite == None
            && r.0.fifo == c.fifo[Smaller(n, |c.fifo|)..]
            && forall k :: 0 <= k < n ==> r.1[k] == Wire(c.fifo, k)
  {
    hide Exchange, Wire, Smaller, Controller.Valid, PollMany;
    if n == 0 {
      NoPolls(c, stop);
    } else {
      PollsDrain(c, n - 1, stop);
      OneMorePoll(c, n - 1, stop);
      PollAnswers(PollMany(c, n - 1, stop).0, stop);
      TailOfTail(c.fifo, n - 1);
    }
  }

  lemma OneMorePoll(c: Controller, n: nat, stop: bool)
    requires c.Valid()
    ensures var earlier := PollMany(c, n, stop);
            var x := Exchange(earlier.0, 0x09, stop);
            PollMany(c, n + 1, stop).0 == x.0 && PollMany(c, n + 1, stop).1 == earlier.1 + [(x.1, x.2)]
  {
    hide Exchange;
  }

  lemma NoPolls(c: Controller, stop: bool)
    requires c.Valid()
    ensures PollMany(c, 0, stop) == (c, []) && c.fifo == c.fifo[Smaller(0, |c.fifo|)..]
  {
  }

  lemma PollAnswers(c: Controller, stop: bool)
    requires c.Valid() && c.link.pendingWrite == None
    ensures var x := Exchange(c, 0x09, stop);
            && x.0.link.pendingWrite == None
            && (x.1, x.2) == Wire(c.fifo, 0)
            && x.0.fifo == c.fifo[Smaller(1, |c.fifo|)..]
  {
    ExchangeAnswers(c, 0x09, stop);
    hide Exchange;
  }

  function PushAll(c: Controller, events: seq<KeyEvent>): (r: Controller)
    requires c.Valid()
    ensures r.Valid()
  {
    if events == [] then c else Push(PushAll(c, events[..|events| - 1]), events[|events| - 1])
  }

  /** A burst into an empty queue keeps the first 31 events, or the last 31 with overwriting on. */
  function Kept(overwrite: bool, events: seq<KeyEvent>): seq<KeyEvent> {
    if |events| <= CAPACITY then events
    else if overwrite then events[|events| - CAPACITY..]
    else events[..CAPACITY]
  }

  lemma {:induction false} BurstKeeps(c: Controller, events: seq<KeyEvent>)
    requires c.Valid() && c.fifo == []
    ensures var d := PushAll(c, events);
            && d.fifo == Kept(Overwrites(c), events)
            && d.settings.config == c.settings.config && d.link == c.link
            && d.stats.dropped == c.stats.dropped + if |events| <= CAPACITY then 0 else |events| - CAPACITY
  {
    if events != [] {
      var before, e := events[..|events| - 1], events[|events| - 1];
      BurstKeeps(c, before);
      PushMoves(PushAll(c, before), e);
      KeptGrows(Overwrites(c), before, e);
      assert before + [e] == events;
      hide Push, Kept;
    }
  }

  lemma PushMoves(c: Controller, e: KeyEvent)
    requires c.Valid()
    ensures var d := Push(c, e);
            && d.settings.config == c.settings.config && d.link == c.link && d.stats.delivered == c.stats.delivered
            && d.stats.dropped == c.stats.dropped + (if |c.fifo| < CAPACITY then 0 else 1)
            && d.fifo == if |c.fifo| < CAPACITY then c.fifo + [e]
                         else if Overwrites(c) then c.fifo[1..] + [e]
                         else c.fifo
    ensures Push(c, e).stats.resets == c.stats.resets
  {
  }

  lemma KeptGrows(overwrite: bool, events: seq<KeyEvent>, e: KeyEvent)
    ensures var kept := Kept(overwrite, events);
            && (|kept| < CAPACITY <==> |events| < CAPACITY) && |kept| <= CAPACITY
            && Kept(overwrite, events + [e]) == if |kept| < CAPACITY then kept + [e]
                                                 else if overwrite then kept[1..] + [e]
                                                 else kept
  {
  }

  /** Keys typed into an idle controller arrive at the firmware, in order, up to its capacity. */
  lemma TypedKeysArrive(c: Controller, events: seq<KeyEvent>, polls: nat, stop: bool)
    requires c.Valid() && c.fifo == [] && c.link.pendingWrite == None
    ensures forall k :: 0 <= k < polls ==>
              PollMany(PushAll(c, events), polls, stop).1[k] == Wire(Kept(Overwrites(c), events), k)
  {
    BurstKeeps(c, events);
    PollsDrain(PushAll(c, events), polls, stop);
  }

  // ---- Physical keys and registers --------------------------------------------------------

  /** With the modifiers held as they are, the release of a key sends the code its press sent. */
  lemma NoStuckKeys(c: Controller, primary: byte, symbol: byte)
    requires c.Valid()
    ensures var down := Offered(c, KeyMoved(primary, symbol, Pressed));
            var up := Offered(MappedKeyEvent(c, primary, symbol, Pressed), KeyMoved(primary, symbol, Released));
            && |down| == |up| <= 1
            && (down != [] ==> down[0].state == Pressed && up[0] == KeyEvent(Released, down[0].code))
  {
    hide Push;
    var caps := if primary == 0xC1 then !c.settings.capsLock else c.settings.capsLock;
    var toggled := c.(settings := c.settings.(capsLock := caps));
    var code := Mapped(toggled.settings, primary, symbol, Pressed).GetOr(0);
    PushMoves(toggled, KeyEvent(Pressed, code));
    PushKeepsModifiers(toggled, KeyEvent(Pressed, code));
  }

  lemma PushKeepsModifiers(c: Controller, e: KeyEvent)
    requires c.Valid()
    ensures var s := Push(c, e).settings;
            s == c.settings.(interrupts := s.interrupts) && Push(c, e).lamps == c.lamps
  {
  }

  /** Announce a write, send its value, and read two bytes back. */
  function WriteRegister(c: Controller, reg: byte, value: byte): (r: (byte, byte))
    requires c.Valid() && reg < 128
  {
    var written := WriteByte(WriteByte(c, reg + 128), value);
    var first := ReadByte(written);
    (first.1, ReadByte(first.0).1)
  }

  /**
   * Both lamps keep the largest level of their scale that is no brighter than asked, and never read
   * back as a dead word.
   */
  lemma LampsReadBack(c: Controller, value: byte)
    requires c.Valid() && c.link.pendingWrite == None
    ensures var lcd := WriteRegister(c, 0x05, value);
            && lcd.0 == 0x05 && lcd.1 % 16 == 0 && 16 <= lcd.1 <= 240
            && (16 <= value ==> lcd.1 <= value < lcd.1 + 16)
    ensures var keys := WriteRegister(c, 0x0A, value);
            && keys.0 == 0x0A && keys.1 % 32 == 0 && keys.1 <= value < keys.1 + 32
  {
    WrittenBack(c, 0x05, value);
    WrittenBack(c, 0x0A, value);
    hide WriteRegister;
  }

  lemma WrittenBack(c: Controller, reg: byte, value: byte)
    requires c.Valid() && c.link.pendingWrite == None && reg in {0x05, 0x0A}
    ensures WriteRegister(c, reg, value) ==
      (reg, if reg == 0x05 then NormalisedLcd(value) else NormalisedKeyboard(value))
  {
    hide NormalisedLcd, NormalisedKeyboard;
  }

  /** Shortcuts act: alt is held, shift is not, and modifiers are in use. */
  predicate Shortcuts(s: Settings) {
    s.config & 0x80 != 0 && AltHeld(s) && !ShiftHeld(s)
  }

  const COMMA: byte := 0x2C
  const PERIOD: byte := 0x2E
  const SPACE: byte := 0x20

  /** Press and release one key so many times. */
  function Tapped(c: Controller, primary: byte, n: nat): (r: Controller)
    requires c.Valid()
    ensures r.Valid()
  {
    if n == 0 then c
    else MappedKeyEvent(MappedKeyEvent(Tapped(c, primary, n - 1), primary, 0, Pressed), primary, 0, Released)
  }

  function Capped(level: nat): byte {
    if level < 240 then level else 240
  }

  function Floored(level: int): byte
    requires level < 256
  {
    if level < 16 then 16 else level
  }

  /** What n taps of a lamp shortcut come to. */
  function LampsAfter(lamps: Lamps, primary: byte, n: nat): Lamps
    requires lamps.keyboard <= 240 && lamps.lcd <= 240
  {
    if primary == PERIOD then lamps.(lcd := Capped(lamps.lcd + 16 * n))
    else if primary == COMMA then lamps.(lcd := Floored(lamps.lcd - 16 * n))
    else lamps.(keyboard := (lamps.keyboard + 32 * n) % 256)
  }

  /**
   * Taps of the three lamp shortcuts send nothing: the LCD moves sixteen levels at a time between
   * 16 and 240, and the keyboard lamp goes round its eight levels.
   */
  lemma {:induction false} LampTaps(c: Controller, primary: byte, n: nat)
    requires c.Valid() && Shortcuts(c.settings) && primary in {PERIOD, COMMA, SPACE}
    ensures Tapped(c, primary, n) == c.(lamps := LampsAfter(c.lamps, primary, n))
  {
    hide MappedKeyEvent, LampsAfter, Lit, Shortcuts;
    OneMoreTap(c, primary, n);
    if n > 0 {
      LampTaps(c, primary, n - 1);
      OneMoreTap(c, primary, n - 1);
      var before := Tapped(c, primary, n - 1);
      assert before.settings == c.settings;
      OneTap(before, primary);
    }
  }

  lemma BrighterSteps(lcd: byte, n: nat)
    requires lcd <= 240
    ensures Capped(lcd + 16 * 0) == lcd && Brighter(Capped(lcd + 16 * n)) == Capped(lcd + 16 * (n + 1))
  {
  }

  lemma DimmerSteps(lcd: byte, n: nat)
    requires 16 <= lcd
    ensures Floored(lcd - 16 * 0) == lcd && Dimmer(Floored(lcd - 16 * n)) == Floored(lcd - 16 * (n + 1))
  {
  }

  lemma Eighths(m: nat)
    ensures 32 * m % 256 == 32 * (m % 8)
  {
  }

  lemma NextEighth(r: nat)
    requires r < 8
    ensures NextLevel(32 * r) == 32 * ((r + 1) % 8)
  {
  }

  lemma LevelSteps(eighths: nat, n: nat)
    requires eighths < 8
    ensures (32 * eighths + 32 * 0) % 256 == 32 * eighths
    ensures NextLevel((32 * eighths + 32 * n) % 256) == (32 * eighths + 32 * (n + 1)) % 256
  {
    hide NextLevel;
    Eighths(eighths);
    Eighths(eighths + n);
    Eighths(eighths + n + 1);
    NextEighth((eighths + n) % 8);
  }

  lemma OneMoreTap(c: Controller, primary: byte, n: nat)
    requires c.Valid() && primary in {PERIOD, COMMA, SPACE}
    ensures LampsAfter(c.lamps, primary, 0) == c.lamps
    ensures Lit(LampsAfter(c.lamps, primary, n), primary) == LampsAfter(c.lamps, primary, n + 1)
  {
    hide Brighter, Dimmer, NextLevel, Capped, Floored;
    BrighterSteps(c.lamps.lcd, n);
    DimmerSteps(c.lamps.lcd, n);
    LevelSteps(c.lamps.keyboard / 32, n);
  }

  lemma OneTap(c: Controller, primary: byte)
    requires c.Valid() && Shortcuts(c.settings) && primary in {PERIOD, COMMA, SPACE}
    ensures MappedKeyEvent(MappedKeyEvent(c, primary, 0, Pressed), primary, 0, Released) ==
        c.(lamps := Lit(c.lamps, primary))
  {
    hide Lit, Push, Repeatable;
  }
}
