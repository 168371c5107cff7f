/** The generated blinky image: one hart parks, the other toggles the LED for ever. */
module Blinky {
  import opened Bits
  import opened Rv32
  import opened Rv32Machine

  const LOAD_ADDR: u32 := SRAM_BASE
  const SIO_GPIO_OUT_XOR: u32 := 0xD000_0028
  const SIO_GPIO_OE_SET: u32 := 0xD000_0038
  const IO_BANK0_GPIO25_CTRL: u32 := 0x4002_80CC
  const PADS_BANK0_GPIO25: u32 := 0x4003_8068
  const LED_MASK: u32 := 0x0200_0000
  const DELAY_COUNT: Imm12 := 0x7FF

  /** Load a constant: the high part is one too large when the low part will be sign-extended. */
  function Li32(rd: Reg, value: int): seq<Insn> {
    var v := value % WORD;
    var lo := v % 4096;
    var hi := if lo >= 2048 then (v / 4096 + 1) % 1_048_576 else v / 4096;
    var signed: Imm12 := if lo >= 2048 then lo - 4096 else lo;
    if hi == 0 then [Addi(rd, 0, signed)]
    else if signed == 0 then [Lui(rd, hi)]
    else [Lui(rd, hi), Addi(rd, rd, signed)]
  }

  function Guard(): seq<Insn> {
    [Csrrs(1, 0xF14, 0), Beq(1, 0, 8), Jal(0, 0)]
  }

  /** Store a small constant to a peripheral register. */
  function Poke(addr: u32, value: Imm12): seq<Insn> {
    Li32(5, addr) + [Addi(6, 0, value), Sw(6, 0, 5)]
  }

  function EnableOutput(): seq<Insn> {
    Li32(5, SIO_GPIO_OE_SET) + Li32(6, LED_MASK) + [Sw(6, 0, 5)]
  }

  function HotPath(): seq<Insn> {
    Li32(10, SIO_GPIO_OUT_XOR) + Li32(11, LED_MASK)
  }

  function BlinkLoop(): seq<Insn> {
    [Addi(12, 0, DELAY_COUNT), Addi(12, 12, -1), Bne(12, 0, -4), Sw(11, 0, 10), Jal(0, -16)]
  }

  function Program(): seq<Insn> {
    Guard() + Poke(PADS_BANK0_GPIO25, 0x56) + Poke(IO_BANK0_GPIO25_CTRL, 5) + EnableOutput() + HotPath() + BlinkLoop()
  }

  lemma {:induction false} AssembleAppends(a: seq<Insn>, b: seq<Insn>)
    ensures Assemble(a + b) == Assemble(a) + Assemble(b)
  {
    hide Encode, LittleEndian;
    if b == [] {
      assert a + b == a;
    } else {
      var n := |b| - 1;
      assert (a + b)[..|a| + n] == a + b[..n];
      AssembleAppends(a, b[..n]);
    }
  }

  /** The emitter: bytes are appended, and the next address is known at every point. */
  class Asm {
    const base: u32
    var code: seq<byte>
    ghost var program: seq<Insn>

    ghost predicate Valid()
      reads this
    {
      code == Assemble(program)
    }

    constructor (base: u32)
      ensures Valid() && this.base == base && program == []
    {
      this.base, code, program := base, [], [];
    }

    function Pc(): int
      reads this
    {
      base + |code|
    }

    method Emit(i: Insn)
      requires Valid()
      modifies this
      ensures Valid() && program == old(program) + [i] && Pc() == old(Pc()) + 4
    {
      assert (program + [i])[..|program|] == program;
      code, program := code + LittleEndian(Encode(i)), program + [i];
    }

    method EmitLi32(rd: Reg, value: int)
      requires Valid()
      modifies this
      ensures Valid() && program == old(program) + Li32(rd, value) && Pc() == old(Pc()) + 4 * |Li32(rd, value)|
    {
      AssembleAppends(program, Li32(rd, value));
      code, program := code + Assemble(Li32(rd, value)), program + Li32(rd, value);
    }
  }

  method EmitGuard(asm: Asm)
    requires asm.Valid()
    modifies asm
    ensures asm.Valid() && asm.program == old(asm.program) + Guard()
  {
    hide Assemble;
    asm.Emit(Csrrs(1, MHARTID, 0));
    asm.Emit(Beq(1, 0, 8));
    asm.Emit(Jal(0, 0));
  }

  method EmitPoke(asm: Asm, addr: u32, value: Imm12)
    requires asm.Valid()
    modifies asm
    ensures asm.Valid() && asm.program == old(asm.program) + Poke(addr, value)
  {
    hide Li32, Assemble;
    asm.EmitLi32(5, addr);
    asm.Emit(Addi(6, 0, value));
    asm.Emit(Sw(6, 0, 5));
  }

  method EmitSetup(asm: Asm)
    requires asm.Valid()
    modifies asm
    ensures asm.Valid() && asm.program == old(asm.program) + EnableOutput() + HotPath()
  {
    hide Li32, Assemble;
    asm.EmitLi32(5, SIO_GPIO_OE_SET);
    asm.EmitLi32(6, LED_MASK);
    asm.Emit(Sw(6, 0, 5));
    assert asm.program == old(asm.program) + EnableOutput();
    asm.EmitLi32(10, SIO_GPIO_OUT_XOR);
    asm.EmitLi32(11, LED_MASK);
  }

  /** Both backward distances are computed from the addresses reached. */
  method EmitBlinkLoop(asm: Asm)
    requires asm.Valid()
    modifies asm
    ensures asm.Valid() && asm.program == old(asm.program) + BlinkLoop()
  {
    hide Assemble;
    var loopTop := asm.Pc();
    asm.Emit(Addi(12, 0, DELAY_COUNT));
    var delayTop := asm.Pc();
    asm.Emit(Addi(12, 12, -1));
    asm.Emit(Bne(12, 0, delayTop - asm.Pc()));
    asm.Emit(Sw(11, 0, 10));
    asm.Emit(Jal(0, loopTop - asm.Pc()));
  }

  method BuildImage() returns (asm: Asm)
    ensures fresh(asm) && asm.Valid() && asm.base == LOAD_ADDR && asm.program == Program()
  {
    hide Guard, Poke, EnableOutput, HotPath, BlinkLoop, Assemble;
    asm := new Asm(LOAD_ADDR);
    EmitGuard(asm);
    assert asm.program == Guard();
    EmitPoke(asm, PADS_BANK0_GPIO25, 0x56);
    EmitPoke(asm, IO_BANK0_GPIO25_CTRL, 5);
    EmitSetup(asm);
    EmitBlinkLoop(asm);
  }
}
