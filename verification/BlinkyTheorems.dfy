/** What the two harts do with the image, for every length of run. */
module BlinkyTheorems {
  import opened Bits
  import opened Rv32
  import opened Rv32Machine
  import opened Blinky

  /** A hart at an instruction of a program. */
  predicate At(s: State, program: seq<Insn>, k: nat) {
    Loaded(s.mem, program) && s.pc == SRAM_BASE + 4 * k && k < 0x400_0000
  }

  /** Loading any 32-bit value leaves it in the register, whatever the register held. */
  lemma LoadsEveryValue(s: State, hart: u32, program: seq<Insn>, k: nat, rd: Reg, value: int)
    requires At(s, program, k)
    requires k + |Li32(rd, value)| <= |program| && program[k..k + |Li32(rd, value)|] == Li32(rd, value)
    ensures var n := |Li32(rd, value)|;
            Exec(s, hart, n) == Some((State(s.pc + 4 * n, Set(s.x, rd, value % WORD), s.mem), []))
  {
    hide Loaded, Step;
    var code := Li32(rd, value);
    var slice := program[k..k + |code|];
    assert slice[0] == program[k];
    StepRuns(s, hart, program, k);
    assert Exec(s, hart, 0) == Some((s, []));
    if |code| == 2 {
      assert slice[1] == program[k + 1];
      LoadsInTwo(s, hart, program, k, rd, value);
    } else {
      LoadsInOne(rd, value);
      assert Exec(s, hart, 1).Some?;
    }
  }

  lemma LoadsInOne(rd: Reg, value: int)
    requires |Li32(rd, value)| == 1
    ensures var i := Li32(rd, value)[0];
            && (i.Lui? ==> i.rd == rd && i.imm20 * 4096 == value % WORD)
            && (i.Addi? ==> i.rd == rd && i.rs1 == 0 && Wrap(i.imm) == value % WORD)
            && (i.Lui? || i.Addi?)
  {
  }

  lemma LoadsInTwoParts(rd: Reg, value: int)
    requires |Li32(rd, value)| == 2
    ensures var i, j := Li32(rd, value)[0], Li32(rd, value)[1];
            && i.Lui? && j.Addi? && i.rd == rd && j.rd == rd && j.rs1 == rd
            && Wrap(i.imm20 * 4096 + j.imm) == value % WORD
  {
  }

  lemma LoadsInTwo(s: State, hart: u32, program: seq<Insn>, k: nat, rd: Reg, value: int)
    requires At(s, program, k) && |Li32(rd, value)| == 2
    requires k + 2 <= |program| && program[k] == Li32(rd, value)[0] && program[k + 1] == Li32(rd, value)[1]
    ensures Exec(s, hart, 2) == Some((State(s.pc + 8, Set(s.x, rd, value % WORD), s.mem), []))
  {
    hide Loaded, Step, Li32;
    LoadsInTwoParts(rd, value);
    StepRuns(s, hart, program, k);
    var t := State(s.pc + 4, Set(s.x, rd, program[k].imm20 * 4096), s.mem);
    assert Exec(s, hart, 0) == Some((s, []));
    assert Exec(s, hart, 1) == Some((t, []));
    StepRuns(t, hart, program, k + 1);
    assert Set(t.x, rd, value % WORD) == Set(s.x, rd, value % WORD);
  }

  // ---- The listing ------------------------------------------------------------------------

  lemma Listing()
    ensures |Program()| == 23
    ensures Program()[..3] == Guard()
    ensures Program()[3..7] == Poke(PADS_BANK0_GPIO25, 0x56)
    ensures Program()[7..11] == Poke(IO_BANK0_GPIO25_CTRL, 5)
    ensures Program()[11..15] == EnableOutput()
    ensures Program()[15..18] == HotPath()
    ensures Program()[18..] == BlinkLoop()
  {
    assert |Poke(PADS_BANK0_GPIO25, 0x56)| == 4 && |Poke(IO_BANK0_GPIO25_CTRL, 5)| == 4;
    assert |EnableOutput()| == 4 && |HotPath()| == 3;
    hide Guard, Poke, EnableOutput, HotPath, BlinkLoop;
  }

  lemma LoopListing()
    ensures |Program()| == 23 && forall k :: 0 <= k < 5 ==> Program()[18 + k] == BlinkLoop()[k]
    ensures forall k :: 0 <= k < 3 ==> Program()[k] == Guard()[k]
  {
    Listing();
    hide Program, Guard, BlinkLoop;
    forall k | 0 <= k < 5 ensures Program()[18 + k] == BlinkLoop()[k] {
      assert Program()[18..][k] == Program()[18 + k];
    }
    forall k | 0 <= k < 3 ensures Program()[k] == Guard()[k] {
      assert Program()[..3][k] == Program()[k];
    }
  }

  // ---- The parked hart --------------------------------------------------------------------

  /** Where a hart whose id is not zero is after n instructions. */
  function Parked(s: State, hart: u32, n: nat): State {
    if n == 0 then s
    else State(SRAM_BASE + (if n == 1 then 4 else 8), Set(s.x, 1, hart), s.mem)
  }

  lemma ParkedStep(s: State, hart: u32, n: nat)
    requires At(s, Program(), 0) && hart != 0
    ensures Step(Parked(s, hart, n), hart) == Ran(Parked(s, hart, n + 1), None)
  {
    LoopListing();
    hide Loaded, Step, Program;
    StepRuns(Parked(s, hart, n), hart, Program(), if n < 2 then n else 2);
  }

  /** Any hart but the first parks: it never traps, never stores, and never leaves the self-jump. */
  lemma {:induction false} OtherHartsPark(s: State, hart: u32, n: nat)
    requires At(s, Program(), 0) && hart != 0
    ensures Exec(s, hart, n) == Some((Parked(s, hart, n), []))
  {
    hide Step, Parked;
    if n == 0 {
      ParkedStart(s, hart);
    } else {
      OtherHartsPark(s, hart, n - 1);
      ParkedStep(s, hart, n - 1);
    }
  }

  lemma ParkedStart(s: State, hart: u32)
    ensures Parked(s, hart, 0) == s
  {
  }

  // ---- The blinking hart ------------------------------------------------------------------

  const TOGGLE := Store(0xD000_0028, 0x0200_0000)
  const PERIOD := 4097

  /** The delay counter m instructions into a pass of the loop. */
  function Countdown(m: nat): u32
    requires 1 <= m < PERIOD
  {
    if m <= 4094 then 2047 - m / 2 else 0
  }

  /** The loop instruction about to run. */
  function LoopIndex(m: nat): nat
    requires m < PERIOD
  {
    if m == 0 then 18 else if m <= 4094 then 20 - m % 2 else m - 4074
  }

  /** m instructions into a pass that started with these registers. */
  function Blinking(x: Regs, mem: seq<byte>, m: nat): State
    requires m < PERIOD
  {
    State(SRAM_BASE + 4 * LoopIndex(m), if m == 0 then x else Set(x, 12, Countdown(m)), mem)
  }

  predicate Ready(x: Regs) {
    x[10] == SIO_GPIO_OUT_XOR && x[11] == LED_MASK
  }

  /** One instruction of the loop: the only store is the toggle, and a pass ends where it began. */
  lemma BlinkStep(x: Regs, mem: seq<byte>, m: nat)
    requires Loaded(mem, Program()) && Ready(x) && m < PERIOD
    ensures Step(Blinking(x, mem, m), 0) ==
      Ran(if m + 1 < PERIOD then Blinking(x, mem, m + 1) else Blinking(Set(x, 12, 0), mem, 0),
          if m == 4095 then Some(TOGGLE) else None)
  {
    LoopListing();
    hide Step, Program, Assemble;
    var s := Blinking(x, mem, m);
    StepRuns(s, 0, Program(), LoopIndex(m));
    LoopExecutes(x, mem, m);
  }

  lemma LoopExecutes(x: Regs, mem: seq<byte>, m: nat)
    requires Ready(x) && m < PERIOD && |mem| < 0x1000_0000
    ensures Execute(BlinkLoop()[LoopIndex(m) - 18], Blinking(x, mem, m), 0) ==
      Ran(if m + 1 < PERIOD then Blinking(x, mem, m + 1) else Blinking(Set(x, 12, 0), mem, 0),
          if m == 4095 then Some(TOGGLE) else None)
  {
  }

  // ---- From reset to the loop -------------------------------------------------------------

  /** A peripheral address: nothing that is loaded lives there. */
  predicate Peripheral(addr: u32) {
    0x4000_0000 <= addr && addr % 4 == 0
  }

  lemma StoreLeavesMemory(mem: seq<byte>, addr: u32, value: u32)
    requires Peripheral(addr) && |mem| < 0x1000_0000
    ensures Stored(mem, addr, value) == mem
  {
  }

  /** One more instruction after a run. */
  lemma RunOn(s: State, hart: u32, n: nat, t: State, stores: seq<Store>, k: nat, u: State, store: Option<Store>)
    requires Exec(s, hart, n) == Some((t, stores)) && At(t, Program(), k) && k < |Program()|
    requires Execute(Program()[k], t, hart) == Ran(u, store)
    ensures Exec(s, hart, n + 1) == Some((u, if store.Some? then stores + [store.value] else stores))
  {
    hide Loaded, Step, Program;
    StepRuns(t, hart, Program(), k);
  }

  lemma GuardRuns(s: State)
    requires At(s, Program(), 0)
    ensures Exec(s, 0, 2) == Some((State(SRAM_BASE + 12, s.x[1 := 0], s.mem), []))
  {
    LoopListing();
    hide Loaded, Step, Program;
    var t := State(SRAM_BASE + 4, s.x[1 := 0], s.mem);
    assert Exec(s, 0, 0) == Some((s, []));
    RunOn(s, 0, 0, s, [], 0, t, None);
    RunOn(s, 0, 1, t, [], 1, State(SRAM_BASE + 12, s.x[1 := 0], s.mem), None);
  }

  lemma Joined(s: State, m: nat, t: State, a: seq<Store>, n: nat, u: State, b: seq<Store>)
    requires Exec(s, 0, m) == Some((t, a)) && Exec(t, 0, n) == Some((u, b))
    ensures Exec(s, 0, m + n) == Some((u, a + b))
  {
    hide Exec, Step;
    ExecAdds(s, 0, m, n);
  }

  /** The last instruction of a setup block. */
  lemma StoreRuns(s: State, n: nat, t: State, k: nat)
    requires Exec(s, 0, n) == Some((t, [])) && At(t, Program(), k) && k < |Program()|
    requires Program()[k] == Sw(6, 0, 5) && Peripheral(t.x[5])
    ensures Exec(s, 0, n + 1) == Some((State(t.pc + 4, t.x, t.mem), [Store(t.x[5], t.x[6])]))
  {
    hide Step, Program, Assemble, Exec;
    StoreLeavesMemory(t.mem, t.x[5], t.x[6]);
    RunOn(s, 0, n, t, [], k, State(t.pc + 4, t.x, t.mem), Some(Store(t.x[5], t.x[6])));
    assert [] + [Store(t.x[5], t.x[6])] == [Store(t.x[5], t.x[6])];
  }

  lemma PokeListed(k: nat, addr: u32, value: Imm12)
    requires k + 4 <= |Program()| && Program()[k..k + 4] == Poke(addr, value) && |Li32(5, addr)| == 2
    ensures Program()[k..k + 2] == Li32(5, addr)
    ensures Program()[k + 2] == Addi(6, 0, value) && Program()[k + 3] == Sw(6, 0, 5)
  {
    hide Program, Li32;
    var block := Program()[k..k + 4];
    assert Program()[k..k + 2] == block[..2] && block[..2] == Li32(5, addr);
    assert Program()[k + 2] == block[2] && Program()[k + 3] == block[3];
  }

  lemma AddiRuns(s: State, n: nat, t: State, k: nat, value: Imm12)
    requires Exec(s, 0, n) == Some((t, [])) && At(t, Program(), k) && k < |Program()|
    requires Program()[k] == Addi(6, 0, value) && 0 <= value
    ensures Exec(s, 0, n + 1) == Some((State(t.pc + 4, t.x[6 := value], t.mem), []))
  {
    hide Step, Program, Loaded, Exec;
    RunOn(s, 0, n, t, [], k, State(t.pc + 4, t.x[6 := value], t.mem), None);
  }

  lemma AddressLoads(s: State, k: nat, addr: u32)
    requires At(s, Program(), k) && k + 2 <= |Program()| && |Li32(5, addr)| == 2
    requires Program()[k..k + 2] == Li32(5, addr)
    ensures Exec(s, 0, 2) == Some((State(s.pc + 8, s.x[5 := addr], s.mem), []))
  {
    hide Exec, Program, Li32, Loaded;
    LoadsEveryValue(s, 0, Program(), k, 5, addr);
  }

  lemma PokeTail(s: State, t: State, k: nat, addr: u32, value: Imm12)
    requires Exec(s, 0, 2) == Some((t, [])) && At(t, Program(), k) && k + 2 <= |Program()| == 23
    requires Program()[k] == Addi(6, 0, value) && Program()[k + 1] == Sw(6, 0, 5)
    requires t.x[5] == addr && Peripheral(addr) && 0 <= value
    ensures Exec(s, 0, 4) == Some((State(t.pc + 8, t.x[6 := value], t.mem), [Store(addr, value)]))
  {
    hide Step, Program, Loaded, Exec, Execute, Fetch, Peripheral;
    AddiRuns(s, 2, t, k, value);
    StoreRuns(s, 3, State(t.pc + 4, t.x[6 := value], t.mem), k + 1);
  }

  /** A setup block: one peripheral register gets a small constant. */
  lemma PokeRuns(s: State, k: nat, addr: u32, value: Imm12)
    requires At(s, Program(), k) && k + 4 <= |Program()| == 23 && Program()[k..k + 4] == Poke(addr, value)
    requires Peripheral(addr) && |Li32(5, addr)| == 2 && 0 <= value
    ensures Exec(s, 0, 4) == Some((State(s.pc + 16, s.x[5 := addr][6 := value], s.mem), [Store(addr, value)]))
  {
    hide *;
    PokeListed(k, addr, value);
    PokeTailAt(s, k, addr, value);
  }

  lemma PokeTailAt(s: State, k: nat, addr: u32, value: Imm12)
    requires At(s, Program(), k) && k + 4 <= |Program()| == 23 && |Li32(5, addr)| == 2
    requires Program()[k..k + 2] == Li32(5, addr)
    requires Program()[k + 2] == Addi(6, 0, value) && Program()[k + 3] == Sw(6, 0, 5)
    requires Peripheral(addr) && 0 <= value
    ensures Exec(s, 0, 4) == Some((State(s.pc + 16, s.x[5 := addr][6 := value], s.mem), [Store(addr, value)]))
  {
    hide Program, Li32, Loaded, Exec, Peripheral;
    AddressLoads(s, k, addr);
    PokeTail(s, State(s.pc + 8, s.x[5 := addr], s.mem), k + 2, addr, value);
  }

  lemma EnableListed()
    ensures |Program()| == 23 && |Li32(5, SIO_GPIO_OE_SET)| == 2 && |Li32(6, LED_MASK)| == 1
    ensures Program()[11..13] == Li32(5, SIO_GPIO_OE_SET) && Program()[13..14] == Li32(6, LED_MASK)
    ensures Program()[14] == Sw(6, 0, 5)
  {
    Listing();
    assert |Li32(5, SIO_GPIO_OE_SET)| == 2 && |Li32(6, LED_MASK)| == 1;
    hide Program, Li32;
    var block := Program()[11..15];
    assert Program()[11..13] == block[..2] && block[..2] == Li32(5, SIO_GPIO_OE_SET);
    assert Program()[13..14] == block[2..3] && block[2..3] == Li32(6, LED_MASK);
    assert Program()[14] == block[3];
  }

  lemma EnableRuns(s: State)
    requires At(s, Program(), 11)
    ensures Exec(s, 0, 4) == Some((State(s.pc + 16, s.x[5 := SIO_GPIO_OE_SET][6 := LED_MASK], s.mem),
                                   [Store(SIO_GPIO_OE_SET, LED_MASK)]))
  {
    EnableListed();
    hide Step, Program, Li32, Loaded, Exec;
    LoadsEveryValue(s, 0, Program(), 11, 5, SIO_GPIO_OE_SET);
    var t := State(s.pc + 8, s.x[5 := SIO_GPIO_OE_SET], s.mem);
    var u := State(s.pc + 12, t.x[6 := LED_MASK], s.mem);
    LoadsEveryValue(t, 0, Program(), 13, 6, LED_MASK);
    Joined(s, 2, t, [], 1, u, []);
    var none: seq<Store> := [];
    assert none + none == none;
    StoreRuns(s, 3, u, 14);
  }

  lemma HotPathListed()
    ensures |Program()| == 23 && |Li32(10, SIO_GPIO_OUT_XOR)| == 2 && |Li32(11, LED_MASK)| == 1
    ensures Program()[15..17] == Li32(10, SIO_GPIO_OUT_XOR) && Program()[17..18] == Li32(11, LED_MASK)
  {
    Listing();
    assert |Li32(10, SIO_GPIO_OUT_XOR)| == 2 && |Li32(11, LED_MASK)| == 1;
    hide Program, Li32;
    var block := Program()[15..18];
    assert Program()[15..17] == block[..2] && block[..2] == Li32(10, SIO_GPIO_OUT_XOR);
    assert Program()[17..18] == block[2..3] && block[2..3] == Li32(11, LED_MASK);
  }

  lemma HotPathRuns(s: State)
    requires At(s, Program(), 15)
    ensures Exec(s, 0, 3) == Some((State(s.pc + 12, s.x[10 := SIO_GPIO_OUT_XOR][11 := LED_MASK], s.mem), []))
  {
    HotPathListed();
    hide Step, Program, Li32, Loaded, Exec;
    LoadsEveryValue(s, 0, Program(), 15, 10, SIO_GPIO_OUT_XOR);
    var t := State(s.pc + 8, s.x[10 := SIO_GPIO_OUT_XOR], s.mem);
    LoadsEveryValue(t, 0, Program(), 17, 11, LED_MASK);
    Joined(s, 2, t, [], 1, State(s.pc + 12, t.x[11 := LED_MASK], s.mem), []);
    var none: seq<Store> := [];
    assert none + none == none;
  }

  const SETUP := [Store(0x4003_8068, 0x56), Store(0x4002_80CC, 5), Store(0xD000_0038, 0x0200_0000)]

  function Configured(x: Regs): Regs {
    x[1 := 0][5 := SIO_GPIO_OE_SET][6 := LED_MASK][10 := SIO_GPIO_OUT_XOR][11 := LED_MASK]
  }

  lemma PokesListed()
    ensures |Program()| == 23
    ensures Program()[3..7] == Poke(PADS_BANK0_GPIO25, 0x56) && |Li32(5, PADS_BANK0_GPIO25)| == 2
    ensures Program()[7..11] == Poke(IO_BANK0_GPIO25_CTRL, 5) && |Li32(5, IO_BANK0_GPIO25_CTRL)| == 2
  {
    Listing();
    hide Program, Poke;
  }

  lemma FirstPoke(s: State)
    requires At(s, Program(), 0)
    ensures Exec(s, 0, 6) == Some((State(SRAM_BASE + 28, s.x[1 := 0][5 := PADS_BANK0_GPIO25][6 := 0x56], s.mem),
                                   [Store(PADS_BANK0_GPIO25, 0x56)]))
  {
    PokesListed();
    hide Step, Program, Li32, Poke, Loaded, Exec;
    GuardRuns(s);
    var a := State(SRAM_BASE + 12, s.x[1 := 0], s.mem);
    PokeRuns(a, 3, PADS_BANK0_GPIO25, 0x56);
    var stores := [Store(PADS_BANK0_GPIO25, 0x56)];
    Joined(s, 2, a, [], 4, State(SRAM_BASE + 28, a.x[5 := PADS_BANK0_GPIO25][6 := 0x56], s.mem), stores);
    assert [] + stores == stores;
  }

  lemma PadsRun(s: State)
    requires At(s, Program(), 0)
    ensures Exec(s, 0, 10) == Some((State(SRAM_BASE + 44, s.x[1 := 0][5 := IO_BANK0_GPIO25_CTRL][6 := 5], s.mem),
                                    [Store(PADS_BANK0_GPIO25, 0x56), Store(IO_BANK0_GPIO25_CTRL, 5)]))
  {
    PokesListed();
    hide Step, Program, Li32, Poke, Loaded, Exec;
    FirstPoke(s);
    var b := State(SRAM_BASE + 28, s.x[1 := 0][5 := PADS_BANK0_GPIO25][6 := 0x56], s.mem);
    PokeRuns(b, 7, IO_BANK0_GPIO25_CTRL, 5);
    var c := State(SRAM_BASE + 44, b.x[5 := IO_BANK0_GPIO25_CTRL][6 := 5], s.mem);
    var first, second := [Store(PADS_BANK0_GPIO25, 0x56)], [Store(IO_BANK0_GPIO25_CTRL, 5)];
    Joined(s, 6, b, first, 4, c, second);
    assert first + second == [first[0], second[0]];
    assert c.x == s.x[1 := 0][5 := IO_BANK0_GPIO25_CTRL][6 := 5];
  }

  lemma PrologueRuns(s: State)
    requires At(s, Program(), 0)
    ensures Exec(s, 0, 17) == Some((Blinking(Configured(s.x), s.mem, 0), SETUP)) && Ready(Configured(s.x))
  {
    hide Step, Program, Li32, Loaded, Exec;
    var pads := [Store(PADS_BANK0_GPIO25, 0x56), Store(IO_BANK0_GPIO25_CTRL, 5)];
    PadsRun(s);
    var c := State(SRAM_BASE + 44, s.x[1 := 0][5 := IO_BANK0_GPIO25_CTRL][6 := 5], s.mem);
    EnableRuns(c);
    var d := State(SRAM_BASE + 60, c.x[5 := SIO_GPIO_OE_SET][6 := LED_MASK], s.mem);
    Joined(s, 10, c, pads, 4, d, [Store(SIO_GPIO_OE_SET, LED_MASK)]);
    assert pads + [Store(SIO_GPIO_OE_SET, LED_MASK)] == SETUP;
    HotPathRuns(d);
    var e := State(SRAM_BASE + 72, d.x[10 := SIO_GPIO_OUT_XOR][11 := LED_MASK], s.mem);
    Joined(s, 14, d, SETUP, 3, e, []);
    assert SETUP + [] == SETUP;
    assert e.x == Configured(s.x);
  }

  // ---- For ever ---------------------------------------------------------------------------

  function Toggles(n: nat): seq<Store> {
    if n == 0 then [] else Toggles(n - 1) + [TOGGLE]
  }

  function PassRegs(x: Regs, m: nat): (r: Regs)
    ensures Ready(x) ==> Ready(r)
  {
    if m < PERIOD then x else Set(x, 12, 0)
  }

  /**
   * The first hart configures the pin with three stores and then, after m more instructions, has
   * made exactly (m + 1) / 4097 further stores, each the same toggle.
   */
  lemma {:induction false} FirstHartBlinks(s: State, m: nat)
    requires At(s, Program(), 0)
    ensures Exec(s, 0, 17 + m) ==
      Some((Blinking(PassRegs(Configured(s.x), m), s.mem, m % PERIOD), SETUP + Toggles((m + 1) / PERIOD)))
  {
    hide Step, Blinking, Configured, PassRegs, Ready, Program, Loaded, Exec;
    if m == 0 {
      PrologueRuns(s);
      PassStarts(Configured(s.x));
      assert SETUP + Toggles(0) == SETUP;
    } else {
      FirstHartBlinks(s, m - 1);
      PrologueRuns(s);
      PassGoesOn(s, m - 1, Configured(s.x), s.mem, SETUP + Toggles(m / PERIOD));
      assert SETUP + (Toggles(m / PERIOD) + [TOGGLE]) == (SETUP + Toggles(m / PERIOD)) + [TOGGLE];
    }
  }

  lemma PassStarts(x: Regs)
    ensures PassRegs(x, 0) == x
  {
  }

  lemma PassGoesOn(s: State, m: nat, x: Regs, mem: seq<byte>, stores: seq<Store>)
    requires Loaded(mem, Program()) && Ready(x)
    requires Exec(s, 0, 17 + m) == Some((Blinking(PassRegs(x, m), mem, m % PERIOD), stores))
    ensures Exec(s, 0, 17 + (m + 1)) ==
      Some((Blinking(PassRegs(x, m + 1), mem, (m + 1) % PERIOD),
            if m % PERIOD == 4095 then stores + [TOGGLE] else stores))
    ensures (m + 2) / PERIOD == (m + 1) / PERIOD + if m % PERIOD == 4095 then 1 else 0
  {
    hide Step, Program, Loaded;
    BlinkStep(PassRegs(x, m), mem, m % PERIOD);
    SamePass(x, m, mem);
  }

  lemma SamePass(x: Regs, m: nat, mem: seq<byte>)
    ensures m % PERIOD + 1 < PERIOD ==>
      (m + 1) % PERIOD == m % PERIOD + 1
      && Blinking(PassRegs(x, m), mem, (m + 1) % PERIOD) == Blinking(PassRegs(x, m + 1), mem, (m + 1) % PERIOD)
    ensures m % PERIOD + 1 == PERIOD ==>
      (m + 1) % PERIOD == 0 && Set(PassRegs(x, m), 12, 0) == PassRegs(x, m + 1)
  {
  }

  /** The generated image at the load address, whatever follows it, is what the theorems start from. */
  lemma ImageIsLoaded(x: Regs, rest: seq<byte>)
    requires |rest| < 0xF00_0000
    ensures At(State(0x2000_0000, x, Assemble(Program()) + rest), Program(), 0)
  {
    Listing();
    hide Program;
  }
}
