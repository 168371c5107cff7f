/** A small RV32I interpreter: what a hart does with an image in memory. */
module Rv32Machine {
  import opened Bits
  import opened Rv32

  const SRAM_BASE: u32 := 0x2000_0000
  const MHARTID: Csr := 0xF14

  type Regs = x: seq<u32> | |x| == 32 && x[0] == 0 ghost witness ZeroRegs()

  ghost function ZeroRegs(): (x: seq<u32>)
    ensures |x| == 32 && x[0] == 0
  {
    seq(32, _ => 0)
  }

  datatype State = State(pc: u32, x: Regs, mem: seq<byte>)

  datatype Store = Store(addr: u32, value: u32)

  datatype Outcome = Ran(state: State, store: Option<Store>) | Trap

  /** Reduction to 32 bits. */
  function Wrap(n: int): u32 {
    n % WORD
  }

  /** Register zero ignores writes. */
  function Set(x: Regs, rd: Reg, value: u32): Regs {
    if rd == 0 then x else x[rd := value]
  }

  function LittleEndian(w: u32): (b: seq<byte>)
    ensures |b| == 4
  {
    [w % 256, w / 256 % 256, w / 65536 % 256, w / 16_777_216]
  }

  function FromLittleEndian(b0: byte, b1: byte, b2: byte, b3: byte): u32 {
    b0 + 256 * b1 + 65536 * b2 + 16_777_216 * b3
  }

  lemma LittleEndianBack(w: u32)
    ensures var b := LittleEndian(w); FromLittleEndian(b[0], b[1], b[2], b[3]) == w
  {
    assert w / 256 == w / 65536 * 256 + w / 256 % 256;
    assert w / 65536 == w / 16_777_216 * 256 + w / 65536 % 256;
  }

  /** A store inside the loaded memory changes it; anywhere else it goes to a peripheral. */
  function Stored(mem: seq<byte>, addr: u32, value: u32): seq<byte> {
    var at := addr - SRAM_BASE;
    if 0 <= at && at + 4 <= |mem| then mem[..at] + LittleEndian(value) + mem[at + 4..] else mem
  }

  function Jumped(s: State, x: Regs, target: u32): Outcome {
    if target % 4 == 0 then Ran(s.(pc := target, x := x), None) else Trap
  }

  function Execute(i: Insn, s: State, hart: u32): Outcome {
    var next := Wrap(s.pc + 4);
    match i
    case Lui(rd, imm20) => Ran(s.(pc := next, x := Set(s.x, rd, imm20 * 4096)), None)
    case Addi(rd, rs1, imm) => Ran(s.(pc := next, x := Set(s.x, rd, Wrap(s.x[rs1] + imm))), None)
    case Sw(rs2, imm, rs1) =>
      var addr, value := Wrap(s.x[rs1] + imm), s.x[rs2];
      if addr % 4 != 0 then Trap
      else Ran(s.(pc := next, mem := Stored(s.mem, addr, value)), Some(Store(addr, value)))
    case Bne(rs1, rs2, off) =>
      if s.x[rs1] != s.x[rs2] then Jumped(s, s.x, Wrap(s.pc + off)) else Ran(s.(pc := next), None)
    case Beq(rs1, rs2, off) =>
      if s.x[rs1] == s.x[rs2] then Jumped(s, s.x, Wrap(s.pc + off)) else Ran(s.(pc := next), None)
    case Jal(rd, off) => Jumped(s, Set(s.x, rd, next), Wrap(s.pc + off))
    case Csrrs(rd, csr, rs1) =>
      if csr == MHARTID && rs1 == 0 then Ran(s.(pc := next, x := Set(s.x, rd, hart)), None) else Trap
  }

  function Fetch(s: State): Option<u32> {
    var at := s.pc - SRAM_BASE;
    if s.pc % 4 == 0 && 0 <= at && at + 4 <= |s.mem| then
      Some(FromLittleEndian(s.mem[at], s.mem[at + 1], s.mem[at + 2], s.mem[at + 3]))
    else None
  }

  function Step(s: State, hart: u32): Outcome {
    match Fetch(s)
    case None => Trap
    case Some(w) =>
      match Decode(w)
      case None => Trap
      case Some(i) => Execute(i, s, hart)
  }

  /** The state after n instructions and the stores they made, oldest first; None once a trap was taken. */
  function Exec(s: State, hart: u32, n: nat): Option<(State, seq<Store>)> {
    if n == 0 then Some((s, []))
    else
      match Exec(s, hart, n - 1)
      case None => None
      case Some((t, stores)) =>
        match Step(t, hart)
        case Trap => None
        case Ran(u, store) => Some((u, if store.Some? then stores + [store.value] else stores))
  }

  // ---- Programs in memory -----------------------------------------------------------------

  function Assemble(program: seq<Insn>): (b: seq<byte>)
    ensures |b| == 4 * |program|
  {
    if program == [] then []
    else Assemble(program[..|program| - 1]) + LittleEndian(Encode(program[|program| - 1]))
  }

  lemma {:induction false} AssembledAt(program: seq<Insn>, k: nat)
    requires k < |program|
    ensures Assemble(program)[4 * k..4 * k + 4] == LittleEndian(Encode(program[k]))
  {
    hide Encode, LittleEndian;
    var n := |program| - 1;
    if k < n {
      AssembledAt(program[..n], k);
      var front, last := Assemble(program[..n]), LittleEndian(Encode(program[n]));
      assert (front + last)[..4 * n] == front;
      assert (front + last)[4 * k..4 * k + 4] == (front + last)[..4 * n][4 * k..4 * k + 4];
    }
  }

  /** The program sits at the start of memory. */
  predicate Loaded(mem: seq<byte>, program: seq<Insn>) {
    Assemble(program) <= mem && |mem| < 0x1000_0000
  }

  /** What the hart executes is what was assembled. */
  lemma StepRuns(s: State, hart: u32, program: seq<Insn>, k: nat)
    requires Loaded(s.mem, program) && k < |program| && s.pc == SRAM_BASE + 4 * k
    ensures Step(s, hart) == Execute(program[k], s, hart)
  {
    hide Decode, Encode, Execute, Assemble, LittleEndian, FromLittleEndian;
    var w := Encode(program[k]);
    AssembledAt(program, k);
    LittleEndianBack(w);
    DecodesBack(program[k]);
    assert s.mem[4 * k..4 * k + 4] == Assemble(program)[4 * k..4 * k + 4];
    assert s.mem[4 * k] == LittleEndian(w)[0] && s.mem[4 * k + 1] == LittleEndian(w)[1];
    assert s.mem[4 * k + 2] == LittleEndian(w)[2] && s.mem[4 * k + 3] == LittleEndian(w)[3];
  }

  lemma {:induction false} ExecAdds(s: State, hart: u32, m: nat, n: nat)
    requires Exec(s, hart, m).Some?
    ensures var t := Exec(s, hart, m).value;
            var r := Exec(t.0, hart, n);
            Exec(s, hart, m + n) == if r.None? then None else Some((r.value.0, t.1 + r.value.1))
  {
    hide Step;
    var before := Exec(s, hart, m).value.1;
    if n == 0 {
      assert before + [] == before;
    } else {
      ExecAdds(s, hart, m, n - 1);
      var earlier := Exec(Exec(s, hart, m).value.0, hart, n - 1);
      if earlier.Some? {
        var more := earlier.value.1;
        assert forall st :: before + (more + [st]) == (before + more) + [st];
      }
    }
  }
}
