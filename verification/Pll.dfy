/** The PLL: its output frequency, and a LOCK bit that tells how long the loop has had to settle. */
module Pll {
  import opened Bits
  import opened Arith

  const WORD := 0x1_0000_0000
  const LOCK_BIT := 0x8000_0000
  const XOSC_FREQ_HZ := 12_000_000
  const LOCK_DELAY := 2000

  type u32 = x: int | 0 <= x < WORD

  datatype Regs = Regs(cs: u32, pwr: u32, fbdivInt: u32, prim: u32) {
    function RefDiv(): nat { cs % 64 }
    function FbDiv(): nat { fbdivInt % 4096 }
    function PostDiv1(): nat { prim / 65536 % 8 }
    function PostDiv2(): nat { prim / 4096 % 8 }
    predicate PowerDown() { pwr % 2 == 1 }
    predicate VcoPowerDown() { pwr / 32 % 2 == 1 }
  }

  function AtLeastOne(n: nat): (m: nat)
    ensures m >= 1
  {
    if n == 0 then 1 else n
  }

  function VcoHz(r: Regs): nat {
    XOSC_FREQ_HZ / AtLeastOne(r.RefDiv()) * r.FbDiv()
  }

  function PostDivider(r: Regs): (d: nat)
    ensures d >= 1
  {
    MulMonotone(1, AtLeastOne(r.PostDiv1()), AtLeastOne(r.PostDiv2()));
    AtLeastOne(r.PostDiv1()) * AtLeastOne(r.PostDiv2())
  }

  function Clamped(hz: nat): u32 {
    if hz < WORD then hz else WORD - 1
  }

  function OutputHz(r: Regs): u32 {
    if r.FbDiv() == 0 then 0 else Clamped(Quotient(VcoHz(r), PostDivider(r)))
  }

  function Quotient(n: nat, d: nat): nat
    requires d >= 1
  {
    n / d
  }

  predicate LockedBase(r: Regs) {
    r.FbDiv() != 0 && !r.PowerDown() && !r.VcoPowerDown()
  }

  function CsRead(r: Regs, lockAt: Option<nat>, now: nat): u32 {
    var rest := r.cs % LOCK_BIT;
    if LockedBase(r) && lockAt.Some? && lockAt.value <= now then rest + LOCK_BIT else rest
  }

  function ArmLock(old_: Regs, new_: Regs, lockAt: Option<nat>, now: nat): Option<nat> {
    if !LockedBase(new_) then None
    else if lockAt.None? then Some(now + LOCK_DELAY)
    else if old_.RefDiv() != new_.RefDiv() then Some(now + LOCK_DELAY)
    else if old_.FbDiv() != new_.FbDiv() then Some(now + LOCK_DELAY)
    else lockAt
  }

  // ---- Histories --------------------------------------------------------------------------

  /** One register write: the image it leaves, and the cycle it happened at. */
  datatype Write = Write(image: Regs, at: nat)

  predicate InOrder(writes: seq<Write>) {
    forall i, j :: 0 <= i < j < |writes| ==> writes[i].at <= writes[j].at
  }

  /** The image after the first n writes. */
  function ImageAt(start: Regs, writes: seq<Write>, n: nat): Regs
    requires n <= |writes|
  {
    if n == 0 then start else writes[n - 1].image
  }

  function ArmedBy(start: Regs, writes: seq<Write>): Option<nat> {
    if writes == [] then None
    else
      var n := |writes| - 1;
      ArmLock(ImageAt(start, writes, n), writes[n].image, ArmedBy(start, writes[..n]), writes[n].at)
  }

  /** The reference divider is bits 5..0 of CS, the feedback divider bits 11..0 of its own register. */
  predicate SameLoop(a: Regs, b: Regs) {
    a.cs % 64 == b.cs % 64 && a.fbdivInt % 4096 == b.fbdivInt % 4096
  }

  /** Neither power-down bit (0 and 5 of PWR) set, and a feedback divider. */
  predicate Running(r: Regs) {
    r.pwr % 64 / 32 == 0 && r.pwr % 2 == 0 && r.fbdivInt % 4096 > 0
  }

  lemma RunningIsBase(r: Regs)
    ensures Running(r) <==> LockedBase(r)
  {
    var p := r.pwr;
    assert p / 32 % 2 == p % 64 / 32;
  }

  /** A write after which the loop has to settle anew: it runs, and before it it did not, or ran differently. */
  predicate Restarts(start: Regs, writes: seq<Write>, i: nat)
    requires i < |writes|
  {
    && Running(writes[i].image)
    && (i == 0 || !Running(ImageAt(start, writes, i)) || !SameLoop(ImageAt(start, writes, i), writes[i].image))
  }

  /** Running, and every restart at least the lock delay ago. */
  ghost predicate Settled(start: Regs, writes: seq<Write>, now: nat) {
    && writes != [] && Running(writes[|writes| - 1].image)
    && forall i :: 0 <= i < |writes| && Restarts(start, writes, i) ==> writes[i].at + 2000 <= now
  }

  /** The arm always belongs to the last restart. */
  lemma {:induction false} ArmedByLastRestart(start: Regs, writes: seq<Write>) returns (last: nat)
    requires InOrder(writes) && writes != [] && LockedBase(writes[|writes| - 1].image)
    ensures last < |writes| && Restarts(start, writes, last)
    ensures forall i :: last < i < |writes| ==> !Restarts(start, writes, i)
    ensures ArmedBy(start, writes) == Some(writes[last].at + 2000)
  {
    hide LockedBase, Running, SameLoop, Regs.RefDiv, Regs.FbDiv;
    var n := |writes| - 1;
    RestartsNow(start, writes);
    if Restarts(start, writes, n) {
      last := n;
    } else {
      last := ArmedByLastRestart(start, writes[..n]);
      assert forall i :: 0 <= i < n ==> Restarts(start, writes, i) == Restarts(start, writes[..n], i);
    }
  }

  lemma {:induction false} ArmedIffRunning(start: Regs, writes: seq<Write>)
    requires writes != []
    ensures ArmedBy(start, writes).Some? <==> LockedBase(writes[|writes| - 1].image)
  {
  }

  lemma RestartsNow(start: Regs, writes: seq<Write>)
    requires writes != [] && LockedBase(writes[|writes| - 1].image)
    ensures var n := |writes| - 1;
            if Restarts(start, writes, n) then ArmedBy(start, writes) == Some(writes[n].at + 2000)
            else n > 0 && LockedBase(writes[n - 1].image) && ArmedBy(start, writes) == ArmedBy(start, writes[..n])
  {
    hide LockedBase, Running;
    var n := |writes| - 1;
    RunningIsBase(writes[n].image);
    if n > 0 {
      RunningIsBase(writes[n - 1].image);
      ArmedIffRunning(start, writes[..n]);
    }
  }

  /** LOCK reads one exactly when the loop runs and has been undisturbed for the lock delay. */
  lemma LockReadsOneIffSettled(start: Regs, writes: seq<Write>, now: nat)
    requires InOrder(writes)
    ensures var image := ImageAt(start, writes, |writes|);
            var cs := CsRead(image, ArmedBy(start, writes), now);
            && (cs >= 0x8000_0000 <==> Settled(start, writes, now))
            && cs % 0x8000_0000 == image.cs % 0x8000_0000
  {
    hide LockedBase, Running, ArmLock, SameLoop;
    if writes != [] {
      RunningIsBase(writes[|writes| - 1].image);
      if LockedBase(writes[|writes| - 1].image) {
        var last := ArmedByLastRestart(start, writes);
        assert forall i :: 0 <= i < |writes| && Restarts(start, writes, i) ==> writes[i].at <= writes[last].at;
      }
    }
  }

  /** Post-dividers sit behind the oscillator: changing them alone never costs the lock. */
  lemma PostDividersKeepLock(start: Regs, writes: seq<Write>, prim: u32, at: nat)
    requires writes != []
    ensures var image := writes[|writes| - 1].image.(prim := prim);
            ArmedBy(start, writes + [Write(image, at)]) == ArmedBy(start, writes)
  {
    var image := writes[|writes| - 1].image.(prim := prim);
    var longer := writes + [Write(image, at)];
    assert longer[..|writes|] == writes;
    ArmedIffRunning(start, writes);
  }

  // ---- The output -------------------------------------------------------------------------

  lemma QuotientAtLeast(n: nat, d: nat, q: nat)
    requires d >= 1 && q * d <= n
    ensures q <= n / d
  {
    if n / d < q {
      assert n == n / d * d + n % d;
      MulMonotone(n / d + 1, q, d);
    }
  }

  /** An unconfigured PLL is the only one that does not run, and no intermediate value leaves 64 bits. */
  lemma SilentIffUnconfigured(r: Regs)
    ensures OutputHz(r) == 0 <==> r.FbDiv() == 0
    ensures VcoHz(r) < 0x1_0000_0000_0000_0000
  {
    var refdiv, fbdiv := AtLeastOne(r.RefDiv()), r.FbDiv();
    var p, q := AtLeastOne(r.PostDiv1()), AtLeastOne(r.PostDiv2());
    var step := XOSC_FREQ_HZ / refdiv;
    MulMonotone(refdiv, 63, 190_000);
    QuotientAtLeast(XOSC_FREQ_HZ, refdiv, 190_000);
    QuotientSmall(XOSC_FREQ_HZ, refdiv);
    MulMonotone(step, XOSC_FREQ_HZ, fbdiv);
    MulMonotone(p, 7, q);
    if fbdiv >= 1 {
      MulMonotone(1, fbdiv, step);
      QuotientAtLeast(step * fbdiv, p * q, 1);
    }
  }

  lemma QuotientSmall(n: nat, d: nat)
    requires d >= 1
    ensures n / d <= n
  {
    assert n == n / d * d + n % d;
    MulMonotone(1, d, n / d);
  }

  /** The divider that a three-bit field asks for; zero counts as one. */
  function Field3(word: nat, low: nat): (d: nat)
    requires low >= 1
    ensures 1 <= d <= 7
  {
    if word / low % 8 == 0 then 1 else word / low % 8
  }

  /**
   * The output is the reference over its divider, rounded down, times the feedback divider, over both
   * post-dividers, rounded down again, and held to 32 bits.
   */
  lemma FrequencyBracketed(r: Regs)
    ensures var reference := 12_000_000 / if r.cs % 64 == 0 then 1 else r.cs % 64;
            var vco, post := reference * (r.fbdivInt % 4096), Field3(r.prim, 65536) * Field3(r.prim, 4096);
            var hz := OutputHz(r);
            && hz <= 0xFFFF_FFFF && hz * post <= vco
            && (hz < 0xFFFF_FFFF ==> vco < (hz + 1) * post)
  {
    hide Field3, PostDivider, VcoHz;
    var vco, post := VcoHz(r), PostDivider(r);
    PostFields(r);
    VcoField(r);
    QuotientBracket(vco, post);
    if r.FbDiv() == 0 {
      NoVco(r);
    } else if vco / post >= WORD {
      MulMonotone(WORD - 1, vco / post, post);
    }
  }

  lemma QuotientBracket(n: nat, d: nat)
    requires d >= 1
    ensures n / d * d <= n < (n / d + 1) * d
  {
    assert n == n / d * d + n % d;
  }

  lemma VcoField(r: Regs)
    ensures VcoHz(r) == (12_000_000 / if r.cs % 64 == 0 then 1 else r.cs % 64) * (r.fbdivInt % 4096)
  {
  }

  lemma NoVco(r: Regs)
    requires r.FbDiv() == 0
    ensures VcoHz(r) == 0
  {
  }

  lemma PostFields(r: Regs)
    ensures PostDivider(r) == Field3(r.prim, 65536) * Field3(r.prim, 4096)
  {
  }
}
