/** Emulated cycles converted to virtual nanoseconds, re-based whenever the system clock changes. */
module VirtualClock {
  import opened Arith

  const NS := 1_000_000_000
  const U64_MAX := 0xFFFF_FFFF_FFFF_FFFF

  type Hz = hz: nat | 1 <= hz witness 1

  datatype Clock = Clock(epochCycles: nat, epochNs: nat, hz: Hz) {

    /** The quotient is truncated to 64 bits. */
    function NsAt(cycles: nat): nat {
      epochNs + Since(cycles, epochCycles) * NS / hz % (U64_MAX + 1)
    }

    function CyclesAt(ns: nat): nat {
      Saturated(epochCycles + Saturated(Since(ns, epochNs) * hz / NS))
    }

    function Rebased(cycles: nat, hz: nat): Clock {
      if Rate(hz) == this.hz then this else Clock(cycles, NsAt(cycles), Rate(hz))
    }
  }

  /** Saturating subtraction. */
  function Since(later: nat, earlier: nat): nat {
    if earlier <= later then later - earlier else 0
  }

  function Saturated(n: nat): nat {
    if n <= U64_MAX then n else U64_MAX
  }

  function Rate(hz: nat): Hz {
    if hz == 0 then 1 else hz
  }

  function Booted(hz: nat): Clock {
    Clock(0, 0, Rate(hz))
  }

  /** Both conversions stay in 64 bits: the quotient wraps, the cycle count saturates. */
  lemma SixtyFourBits(c: Clock, cycles: nat, ns: nat)
    ensures c.epochNs <= c.NsAt(cycles) < c.epochNs + 0x1_0000_0000_0000_0000
    ensures var q := Since(cycles, c.epochCycles) * 1_000_000_000 / c.hz;
            q < 0x1_0000_0000_0000_0000 ==> c.NsAt(cycles) == c.epochNs + q
    ensures var at := c.epochCycles + Since(ns, c.epochNs) * c.hz / 1_000_000_000;
            c.CyclesAt(ns) == if at < 0x1_0000_0000_0000_0000 then at else 0xFFFF_FFFF_FFFF_FFFF
  {
    var q := Since(ns, c.epochNs) * c.hz / NS;
    assert q >= 0;
  }

  class ClockCell {
    var clock: Clock

    constructor (hz: nat)
      ensures clock == Booted(hz) && clock.hz == if hz > 1 then hz else 1
    {
      clock := Clock(0, 0, Rate(hz));
    }

    /** Continuous at the seam: the new clock reads what the old one read. */
    method Rebase(cycles: nat, hz: nat) returns (changed: bool)
      modifies this
      ensures clock == old(clock).Rebased(cycles, hz) && changed == (old(clock).hz != Rate(hz))
      ensures clock.NsAt(cycles) == old(clock).NsAt(cycles) && clock.hz == if hz > 1 then hz else 1
    {
      var rate := Rate(hz);
      if rate == clock.hz {
        return false;
      }
      clock := Clock(cycles, clock.NsAt(cycles), rate);
      return true;
    }
  }

  // ---- Deadlines --------------------------------------------------------------------------

  lemma FloorBounds(n: nat, d: nat)
    requires d >= 1
    ensures n / d * d <= n < (n / d + 1) * d
  {
    assert n == n / d * d + n % d;
  }

  lemma FloorAtLeast(n: nat, d: nat, q: nat)
    requires d >= 1
    ensures q <= n / d <==> q * d <= n
  {
    FloorBounds(n, d);
    if q <= n / d {
      MulMonotone(q, n / d, d);
    } else {
      MulMonotone(n / d + 1, q, d);
    }
  }

  /** Whole nanoseconds that fall on a whole cycle. */
  predicate OnCycle(c: Clock, ns: nat) {
    Since(ns, c.epochNs) * c.hz % NS == 0
  }

  /** The first cycle at which the clock has reached a deadline. */
  function FirstReached(c: Clock, ns: nat): (cycles: nat)
    ensures c.CyclesAt(ns) <= cycles <= c.CyclesAt(ns) + 1
  {
    c.CyclesAt(ns) + if OnCycle(c, ns) then 0 else 1
  }

  /** Counts and readings that fit in 64 bits, where the clock neither saturates nor truncates. */
  predicate InRange(c: Clock, cycles: nat) {
    c.epochCycles <= cycles && (cycles - c.epochCycles) * NS / c.hz <= U64_MAX
  }

  predicate Unsaturated(c: Clock, ns: nat) {
    c.epochNs <= ns && c.epochCycles + (ns - c.epochNs) * c.hz / NS <= U64_MAX
  }

  /** Exactly which cycles lie at or after a deadline: an off-cycle one is reached a cycle late. */
  lemma {:induction false} ReachedIff(c: Clock, ns: nat, cycles: nat)
    requires Unsaturated(c, ns) && InRange(c, cycles)
    ensures ns <= c.NsAt(cycles) <==> FirstReached(c, ns) <= cycles
  {
    var ahead, spent := ns - c.epochNs, cycles - c.epochCycles;
    assert c.NsAt(cycles) == c.epochNs + spent * NS / c.hz;
    FloorAtLeast(spent * NS, c.hz, ahead);
    var q, r := ahead * c.hz / NS, ahead * c.hz % NS;
    assert ahead * c.hz == q * NS + r;
    assert c.CyclesAt(ns) == c.epochCycles + q;
  }

  lemma RoundingDownTwice(ahead: nat, hz: Hz, spent: nat)
    requires spent <= ahead * hz / NS
    ensures spent * NS / hz <= ahead
  {
    FloorBounds(ahead * hz, NS);
    FloorBounds(spent * NS, hz);
    if ahead + 1 <= spent * NS / hz {
      MulMonotone(ahead + 1, spent * NS / hz, hz);
      assert false;
    }
  }

  lemma NeverOvershoots(c: Clock, ns: nat)
    requires c.epochNs <= ns
    ensures c.NsAt(c.CyclesAt(ns)) <= ns
  {
    var spent := Since(c.CyclesAt(ns), c.epochCycles);
    RoundingDownTwice(ns - c.epochNs, c.hz, spent);
    ModAtMost(spent * NS / c.hz);
  }

  lemma ModAtMost(n: nat)
    ensures n % (U64_MAX + 1) <= n
  {
  }

  /** The conversion never overshoots, and one more cycle always reaches the deadline. */
  lemma DeadlineBracketed(c: Clock, ns: nat)
    requires c.epochNs <= ns <= U64_MAX
    ensures c.NsAt(c.CyclesAt(ns)) <= ns
    ensures Unsaturated(c, ns) && InRange(c, c.CyclesAt(ns) + 1) ==> ns <= c.NsAt(c.CyclesAt(ns) + 1)
  {
    hide *;
    NeverOvershoots(c, ns);
    if Unsaturated(c, ns) && InRange(c, c.CyclesAt(ns) + 1) {
      ReachedIff(c, ns, c.CyclesAt(ns) + 1);
    }
  }

  /** The conversion can come out a cycle early, and does so exactly off the cycle grid. */
  lemma EarlyIffOffCycle(c: Clock, ns: nat)
    requires Unsaturated(c, ns) && ns <= U64_MAX
    ensures c.NsAt(c.CyclesAt(ns)) < ns <==> !OnCycle(c, ns)
  {
    hide OnCycle;
    var cycles := c.CyclesAt(ns);
    RoundingDownTwice(ns - c.epochNs, c.hz, cycles - c.epochCycles);
    ReachedIff(c, ns, cycles);
  }

  lemma NsAtMonotone(c: Clock, a: nat, b: nat)
    requires a <= b && InRange(c, b)
    ensures c.NsAt(a) <= c.NsAt(b)
  {
    var x, y := Since(a, c.epochCycles) * NS, (b - c.epochCycles) * NS;
    QuotientMonotone(x, y, c.hz);
    ModAtMost(x / c.hz);
  }

  lemma QuotientMonotone(x: nat, y: nat, d: nat)
    requires d >= 1 && x <= y
    ensures x / d <= y / d
  {
    var q := x / d;
    assert q * d <= x by {
      FloorBounds(x, d);
    }
    FloorAtLeast(y, d, q);
  }

  // ---- Whole runs -------------------------------------------------------------------------

  /** What the run loop does to the clock: time passes, and the rate is re-read. */
  datatype Event = Advance(cycles: nat) | SetRate(hz: nat)

  datatype Timeline = Timeline(clock: Clock, now: nat) {
    function Then(e: Event): Timeline {
      match e
      case Advance(n) => this.(now := now + n)
      case SetRate(hz) => this.(clock := clock.Rebased(now, hz))
    }

    function Ns(): nat {
      clock.NsAt(now)
    }
  }

  function After(hz: nat, events: seq<Event>): Timeline {
    if events == [] then Timeline(Booted(hz), 0)
    else After(hz, events[..|events| - 1]).Then(events[|events| - 1])
  }

  function Stretch(cycles: nat, hz: Hz): real {
    cycles as real * NS as real / hz as real
  }

  /** Elapsed nanoseconds without any rounding. */
  function Exact(hz: nat, events: seq<Event>): real {
    if events == [] then 0.0
    else
      var before := events[..|events| - 1];
      Exact(hz, before) + match events[|events| - 1]
                          case Advance(n) => Stretch(n, After(hz, before).clock.hz)
                          case SetRate(_) => 0.0
  }

  /** How often the rate really changed. */
  function Changes(hz: nat, events: seq<Event>): nat {
    if events == [] then 0
    else
      var before := events[..|events| - 1];
      Changes(hz, before) + match events[|events| - 1]
                            case Advance(_) => 0
                            case SetRate(new_) => if Rate(new_) == After(hz, before).clock.hz then 0 else 1
  }

  lemma StretchFloor(n: nat, hz: Hz)
    ensures 0.0 <= (n * NS / hz) as real <= Stretch(n, hz) < (n * NS / hz) as real + 1.0
  {
    var q, r := n * NS / hz, n * NS % hz;
    assert n * NS == q * hz + r;
    assert (q * hz) as real == q as real * hz as real;
    assert Stretch(n, hz) == (q as real * hz as real + r as real) / hz as real;
    assert Stretch(n, hz) == q as real + r as real / hz as real;
  }

  lemma StretchAdds(a: nat, b: nat, hz: Hz)
    ensures Stretch(a + b, hz) == Stretch(a, hz) + Stretch(b, hz)
  {
  }

  /** A run whose exact length fits in 64 bits. */
  predicate Fits(hz: nat, events: seq<Event>) {
    Exact(hz, events) < (U64_MAX + 1) as real
  }

  /** What is lost when the clock is re-based is less than a nanosecond each time. */
  predicate Drift(t: Timeline, exact: real, changes: nat) {
    && t.clock.epochCycles <= t.now
    && var atEpoch := exact - Stretch(t.now - t.clock.epochCycles, t.clock.hz);
       t.clock.epochNs as real <= atEpoch <= (t.clock.epochNs + changes) as real
  }

  lemma DriftBounds(t: Timeline, exact: real, changes: nat)
    requires Drift(t, exact, changes) && exact < (U64_MAX + 1) as real
    ensures InRange(t.clock, t.now)
    ensures t.Ns() as real <= exact < (t.Ns() + changes + 1) as real
  {
    StretchFloor(t.now - t.clock.epochCycles, t.clock.hz);
  }

  lemma DriftAdvances(t: Timeline, exact: real, changes: nat, n: nat)
    requires Drift(t, exact, changes)
    ensures Drift(t.Then(Advance(n)), exact + Stretch(n, t.clock.hz), changes)
  {
    StretchAdds(t.now - t.clock.epochCycles, n, t.clock.hz);
  }

  lemma DriftRebases(t: Timeline, exact: real, changes: nat, hz: nat)
    requires Drift(t, exact, changes) && exact < (U64_MAX + 1) as real
    ensures Drift(t.Then(SetRate(hz)), exact, changes + if Rate(hz) == t.clock.hz then 0 else 1)
  {
    DriftBounds(t, exact, changes);
  }

  lemma {:induction false} RunDrift(hz: nat, events: seq<Event>)
    requires Fits(hz, events)
    ensures Drift(After(hz, events), Exact(hz, events), Changes(hz, events))
  {
    if events != [] {
      hide Drift;
      var before, e := events[..|events| - 1], events[|events| - 1];
      var t := After(hz, before);
      if e.Advance? {
        StretchFloor(e.cycles, t.clock.hz);
      }
      RunDrift(hz, before);
      match e
      case Advance(n) => DriftAdvances(t, Exact(hz, before), Changes(hz, before), n);
      case SetRate(rate) => DriftRebases(t, Exact(hz, before), Changes(hz, before), rate);
    }
  }

  /** Over any run with k rate changes, virtual time trails exact time by less than k + 1 ns. */
  lemma WithinOneNsPerChange(hz: nat, events: seq<Event>)
    requires Fits(hz, events)
    ensures var ns := After(hz, events).Ns();
            ns as real <= Exact(hz, events) < (ns + Changes(hz, events) + 1) as real
  {
    RunDrift(hz, events);
    DriftBounds(After(hz, events), Exact(hz, events), Changes(hz, events));
  }

  /** Virtual time never decreases. */
  lemma {:induction false} NeverDecreases(hz: nat, events: seq<Event>, n: nat)
    requires Fits(hz, events) && n <= |events|
    ensures After(hz, events[..n]).Ns() <= After(hz, events).Ns()
    decreases |events|
  {
    if n == |events| {
      assert events[..n] == events;
    } else {
      var before, e := events[..|events| - 1], events[|events| - 1];
      var t := After(hz, before);
      if e.Advance? {
        StretchFloor(e.cycles, t.clock.hz);
      }
      NeverDecreases(hz, before, n);
      assert before[..n] == events[..n];
      RunDrift(hz, events);
      DriftBounds(After(hz, events), Exact(hz, events), Changes(hz, events));
      if e.Advance? {
        NsAtMonotone(t.clock, t.now, t.now + e.cycles);
      }
    }
  }
}
