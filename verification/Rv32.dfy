/** The slice of RV32I that the blinky generator emits: encoders, a decoder and an interpreter. */
module Rv32 {
  import opened Bits

  const WORD := 0x1_0000_0000

  type u32 = x: int | 0 <= x < 0x1_0000_0000
  type Reg = r: int | 0 <= r < 32
  type Imm12 = i: int | -2048 <= i < 2048
  /** A branch distance: even, thirteen bits signed. */
  type Off13 = i: int | -4096 <= i < 4096 && i % 2 == 0
  /** A jump distance: even, twenty-one bits signed. */
  type Off21 = i: int | -1_048_576 <= i < 1_048_576 && i % 2 == 0
  type Imm20 = i: int | 0 <= i < 1_048_576
  type Csr = i: int | 0 <= i < 4096

  datatype Insn =
    | Lui(rd: Reg, imm20: Imm20)
    | Addi(rd: Reg, rs1: Reg, imm: Imm12)
    | Sw(rs2: Reg, imm: Imm12, rs1: Reg)
    | Bne(rs1: Reg, rs2: Reg, off13: Off13)
    | Beq(rs1: Reg, rs2: Reg, off13: Off13)
    | Jal(rd: Reg, off21: Off21)
    | Csrrs(rd: Reg, csr: Csr, rs1: Reg)

  // ---- Encoding ---------------------------------------------------------------------------

  /** The fields of a word from the opcode up; they do not overlap, so "or" is "plus". */
  function Fields(opcode: int, f7: int, f12: int, f15: int, f20: int): u32
    requires 0 <= opcode < 128 && 0 <= f7 < 32 && 0 <= f12 < 8 && 0 <= f15 < 32 && 0 <= f20 < 4096
  {
    opcode + 128 * f7 + 4096 * f12 + 32768 * f15 + 1_048_576 * f20
  }

  function IType(imm: int, rs1: Reg, funct3: int, rd: Reg, opcode: int): u32
    requires 0 <= funct3 < 8 && 0 <= opcode < 128
  {
    Fields(opcode, rd, funct3, rs1, imm % 4096)
  }

  function SType(imm: int, rs2: Reg, rs1: Reg, funct3: int, opcode: int): u32
    requires 0 <= funct3 < 8 && 0 <= opcode < 128
  {
    var v := imm % 4096;
    Fields(opcode, v % 32, funct3, rs1, v / 32 * 32 + rs2)
  }

  /** Offset bits 12, 10..5, 4..1 and 11, scattered over the word. */
  function BType(off: Off13, rs2: Reg, rs1: Reg, funct3: int, opcode: int): u32
    requires 0 <= funct3 < 8 && 0 <= opcode < 128
  {
    var v := off % 8192;
    var b12, b11, b10to5, b4to1 := v / 4096 % 2, v / 2048 % 2, v / 32 % 64, v / 2 % 16;
    Fields(opcode, b4to1 * 2 + b11, funct3, rs1, (b12 * 64 + b10to5) * 32 + rs2)
  }

  /** A word whose upper twenty bits are one field. */
  function Upper(opcode: int, rd: Reg, top: int): u32
    requires 0 <= opcode < 128 && 0 <= top < 1_048_576
  {
    opcode + 128 * rd + 4096 * top
  }

  /** Offset bits 20, 10..1, 11 and 19..12, scattered over the upper twenty. */
  function JType(off: Off21, rd: Reg, opcode: int): u32
    requires 0 <= opcode < 128
  {
    var v := off % 2_097_152;
    var b20, b10to1, b11, b19to12 := v / 1_048_576 % 2, v / 2 % 1024, v / 2048 % 2, v / 4096 % 256;
    Upper(opcode, rd, ((b20 * 1024 + b10to1) * 2 + b11) * 256 + b19to12)
  }

  function Encode(i: Insn): u32 {
    match i
    case Lui(rd, imm20) => Upper(0x37, rd, imm20)
    case Addi(rd, rs1, imm) => IType(imm, rs1, 0, rd, 0x13)
    case Sw(rs2, imm, rs1) => SType(imm, rs2, rs1, 2, 0x23)
    case Bne(rs1, rs2, off) => BType(off, rs2, rs1, 1, 0x63)
    case Beq(rs1, rs2, off) => BType(off, rs2, rs1, 0, 0x63)
    case Jal(rd, off) => JType(off, rd, 0x6F)
    case Csrrs(rd, csr, rs1) => IType(csr, rs1, 2, rd, 0x73)
  }

  // ---- Decoding ---------------------------------------------------------------------------

  function SignExtend(v: int, half: int): int
    requires half > 0
  {
    if v < half then v else v - 2 * half
  }

  function BranchOffset(f7: int, f20: int): (off: Off13)
    requires 0 <= f7 < 32 && 0 <= f20 < 4096
  {
    var v := f20 / 2048 * 4096 + f7 % 2 * 2048 + f20 / 32 % 64 * 32 + f7 / 2 * 2;
    SignExtend(v, 4096)
  }

  function JumpOffset(top: int): (off: Off21)
    requires 0 <= top < 1_048_576
  {
    var v := top / 524_288 * 1_048_576 + top % 256 * 4096 + top / 256 % 2 * 2048 + top / 512 % 1024 * 2;
    SignExtend(v, 1_048_576)
  }

  function Decode(w: u32): Option<Insn> {
    var opcode, f7, f12, f15, f20 := w % 128, w / 128 % 32, w / 4096 % 8, w / 32768 % 32, w / 1_048_576;
    if opcode == 0x37 then Some(Lui(f7, w / 4096))
    else if opcode == 0x13 && f12 == 0 then Some(Addi(f7, f15, SignExtend(f20, 2048)))
    else if opcode == 0x23 && f12 == 2 then Some(Sw(f20 % 32, SignExtend(f20 / 32 * 32 + f7, 2048), f15))
    else if opcode == 0x63 && f12 == 1 then Some(Bne(f15, f20 % 32, BranchOffset(f7, f20)))
    else if opcode == 0x63 && f12 == 0 then Some(Beq(f15, f20 % 32, BranchOffset(f7, f20)))
    else if opcode == 0x6F then Some(Jal(f7, JumpOffset(w / 4096)))
    else if opcode == 0x73 && f12 == 2 then Some(Csrrs(f7, f20, f15))
    else None
  }

  lemma FieldsApart(opcode: int, f7: int, f12: int, f15: int, f20: int)
    requires 0 <= opcode < 128 && 0 <= f7 < 32 && 0 <= f12 < 8 && 0 <= f15 < 32 && 0 <= f20 < 4096
    ensures var w := Fields(opcode, f7, f12, f15, f20);
            && w % 128 == opcode && w / 128 % 32 == f7 && w / 4096 % 8 == f12 && w / 32768 % 32 == f15
            && w / 1_048_576 == f20
  {
    var w := Fields(opcode, f7, f12, f15, f20);
    assert w / 128 == f7 + 32 * f12 + 256 * f15 + 8192 * f20;
    assert w / 4096 == f12 + 8 * f15 + 256 * f20;
    assert w / 32768 == f15 + 32 * f20;
  }

  lemma UpperApart(opcode: int, rd: Reg, top: int)
    requires 0 <= opcode < 128 && 0 <= top < 1_048_576
    ensures var w := Upper(opcode, rd, top); w % 128 == opcode && w / 128 % 32 == rd && w / 4096 == top
  {
    var w := Upper(opcode, rd, top);
    assert w / 128 == rd + 32 * top;
  }

  lemma Halved(v: int)
    requires 0 <= v < 2_097_152
    ensures v / 4096 == v / 2048 / 2 && v / 2048 == v / 32 / 64
  {
  }

  lemma LowBits(v: int)
    requires 0 <= v < 2_097_152
    ensures v / 32 == v / 2 / 16 && v / 2048 == v / 2 / 1024 && v / 1_048_576 == v / 4096 / 256
  {
  }

  lemma BranchBits(v: int)
    requires 0 <= v < 8192 && v % 2 == 0
    ensures v == v / 4096 % 2 * 4096 + v / 2048 % 2 * 2048 + v / 32 % 64 * 32 + v / 2 % 16 * 2
  {
    Halved(v);
    LowBits(v);
    var a, b, c := v / 2, v / 32, v / 2048;
    assert a == b * 16 + a % 16;
    assert b == c * 64 + b % 64;
    assert c == c / 2 * 2 + c % 2;
  }

  lemma BranchParts(b12: int, b11: int, b10to5: int, b4to1: int, rs2: Reg)
    requires 0 <= b12 < 2 && 0 <= b11 < 2 && 0 <= b10to5 < 64 && 0 <= b4to1 < 16
    ensures var f7, f20 := b4to1 * 2 + b11, (b12 * 64 + b10to5) * 32 + rs2;
            && f20 % 32 == rs2 && f20 / 32 % 64 == b10to5 && f20 / 2048 == b12 && f7 % 2 == b11 && f7 / 2 == b4to1
            && f7 < 32 && f20 < 4096
  {
    var f20 := (b12 * 64 + b10to5) * 32 + rs2;
    assert f20 / 32 == b12 * 64 + b10to5;
  }

  /** Gathering undoes scattering, for every branch distance. */
  lemma BranchGathered(off: Off13, rs2: Reg)
    ensures var v := off % 8192;
            var b12, b11, b10to5, b4to1 := v / 4096 % 2, v / 2048 % 2, v / 32 % 64, v / 2 % 16;
            var f7, f20 := b4to1 * 2 + b11, (b12 * 64 + b10to5) * 32 + rs2;
            BranchOffset(f7, f20) == off && f20 % 32 == rs2
  {
    hide BranchOffset, SignExtend;
    var v := off % 8192;
    var b12, b11, b10to5, b4to1 := v / 4096 % 2, v / 2048 % 2, v / 32 % 64, v / 2 % 16;
    BranchBits(v);
    BranchParts(b12, b11, b10to5, b4to1, rs2);
    BranchJoined(b12, b11, b10to5, b4to1, b4to1 * 2 + b11, (b12 * 64 + b10to5) * 32 + rs2);
    SignedBack13(off);
  }

  lemma SignedBack13(off: Off13)
    ensures SignExtend(off % 8192, 4096) == off
  {
  }

  lemma SignedBack21(off: Off21)
    ensures SignExtend(off % 2_097_152, 1_048_576) == off
  {
  }

  lemma BranchJoined(b12: int, b11: int, b10to5: int, b4to1: int, f7: int, f20: int)
    requires 0 <= f7 < 32 && 0 <= f20 < 4096
    requires f20 / 32 % 64 == b10to5 && f20 / 2048 == b12 && f7 % 2 == b11 && f7 / 2 == b4to1
    ensures BranchOffset(f7, f20) == SignExtend(b12 * 4096 + b11 * 2048 + b10to5 * 32 + b4to1 * 2, 4096)
  {
  }

  lemma JumpBits(v: int)
    requires 0 <= v < 2_097_152 && v % 2 == 0
    ensures v == v / 1_048_576 % 2 * 1_048_576 + v / 4096 % 256 * 4096 + v / 2048 % 2 * 2048 + v / 2 % 1024 * 2
  {
    Halved(v);
    LowBits(v);
    var a, b, c := v / 2, v / 2048, v / 4096;
    assert a == b * 1024 + a % 1024;
    assert b == c * 2 + b % 2;
    assert c == c / 256 * 256 + c % 256;
  }

  lemma JumpParts(b20: int, b10to1: int, b11: int, b19to12: int)
    requires 0 <= b20 < 2 && 0 <= b10to1 < 1024 && 0 <= b11 < 2 && 0 <= b19to12 < 256
    ensures var top := ((b20 * 1024 + b10to1) * 2 + b11) * 256 + b19to12;
            && 0 <= top < 1_048_576
            && top % 256 == b19to12 && top / 256 % 2 == b11 && top / 512 % 1024 == b10to1 && top / 524_288 == b20
  {
    var top := ((b20 * 1024 + b10to1) * 2 + b11) * 256 + b19to12;
    assert top / 256 == (b20 * 1024 + b10to1) * 2 + b11;
    assert top / 512 == b20 * 1024 + b10to1;
  }

  lemma JumpJoined(b20: int, b10to1: int, b11: int, b19to12: int, top: int)
    requires 0 <= top < 1_048_576
    requires top % 256 == b19to12 && top / 256 % 2 == b11 && top / 512 % 1024 == b10to1 && top / 524_288 == b20
    ensures JumpOffset(top) == SignExtend(b20 * 1_048_576 + b19to12 * 4096 + b11 * 2048 + b10to1 * 2, 1_048_576)
  {
  }

  /** And for every jump distance. */
  lemma JumpGathered(off: Off21)
    ensures var v := off % 2_097_152;
            var b20, b10to1, b11, b19to12 := v / 1_048_576 % 2, v / 2 % 1024, v / 2048 % 2, v / 4096 % 256;
            JumpOffset(((b20 * 1024 + b10to1) * 2 + b11) * 256 + b19to12) == off
  {
    hide JumpOffset, SignExtend;
    var v := off % 2_097_152;
    JumpBits(v);
    var b20, b10to1, b11, b19to12 := v / 1_048_576 % 2, v / 2 % 1024, v / 2048 % 2, v / 4096 % 256;
    JumpParts(b20, b10to1, b11, b19to12);
    JumpJoined(b20, b10to1, b11, b19to12, ((b20 * 1024 + b10to1) * 2 + b11) * 256 + b19to12);
    SignedBack21(off);
  }

  lemma Signed12(imm: Imm12)
    ensures SignExtend(imm % 4096, 2048) == imm
  {
  }

  lemma StoreSplit(v: int, rs2: Reg)
    requires 0 <= v < 4096
    ensures var f20 := v / 32 * 32 + rs2; f20 % 32 == rs2 && f20 / 32 * 32 + v % 32 == v && f20 < 4096
  {
  }

  /** Decoding undoes encoding, for every instruction the generator can emit. */
  lemma DecodesBack(i: Insn)
    ensures Decode(Encode(i)) == Some(i)
  {
    hide Fields, Upper, BranchOffset, JumpOffset, SignExtend;
    match i
    case Lui(rd, imm20) => UpperApart(0x37, rd, imm20);
    case Addi(rd, rs1, imm) =>
      FieldsApart(0x13, rd, 0, rs1, imm % 4096);
      Signed12(imm);
    case Sw(rs2, imm, rs1) =>
      StoreSplit(imm % 4096, rs2);
      FieldsApart(0x23, imm % 4096 % 32, 2, rs1, imm % 4096 / 32 * 32 + rs2);
      Signed12(imm);
    case Bne(rs1, rs2, off) => BranchDecodes(off, rs2, rs1, 1);
    case Beq(rs1, rs2, off) => BranchDecodes(off, rs2, rs1, 0);
    case Jal(rd, off) =>
      var v := off % 2_097_152;
      UpperApart(0x6F, rd, ((v / 1_048_576 % 2 * 1024 + v / 2 % 1024) * 2 + v / 2048 % 2) * 256 + v / 4096 % 256);
      JumpGathered(off);
    case Csrrs(rd, csr, rs1) => FieldsApart(0x73, rd, 2, rs1, csr % 4096);
  }

  lemma BranchDecodes(off: Off13, rs2: Reg, rs1: Reg, funct3: int)
    requires 0 <= funct3 < 2
    ensures Decode(BType(off, rs2, rs1, funct3, 0x63)) ==
      Some(if funct3 == 1 then Bne(rs1, rs2, off) else Beq(rs1, rs2, off))
  {
    hide Fields, BranchOffset;
    var v := off % 8192;
    FieldsApart(0x63, v / 2 % 16 * 2 + v / 2048 % 2, funct3, rs1, (v / 4096 % 2 * 64 + v / 32 % 64) * 32 + rs2);
    BranchGathered(off, rs2);
  }

  // ---- The instruction formats ------------------------------------------------------------

  /** Bits of a word: so many from `low` on. */
  function BitsFrom(w: u32, low: int, size: int): int
    requires low >= 1 && size >= 1
  {
    w / low % size
  }

  /**
   * Each instruction against its format in the RISC-V unprivileged specification, chapter 2: opcode in
   * bits 6..0, rd in 11..7, funct3 in 14..12, rs1 in 19..15, rs2 in 24..20, and the immediate where its
   * type has it.
   */
  lemma Formats(i: Insn)
    ensures var w := Encode(i);
            match i
            case Lui(rd, imm20) => w % 128 == 0x37 && BitsFrom(w, 128, 32) == rd && w / 4096 == imm20
            case Addi(rd, rs1, imm) =>
              && w % 128 == 0x13 && BitsFrom(w, 128, 32) == rd && BitsFrom(w, 4096, 8) == 0
              && BitsFrom(w, 32768, 32) == rs1 && w / 1_048_576 == if imm < 0 then imm + 4096 else imm
            case Sw(rs2, imm, rs1) =>
              && w % 128 == 0x23 && BitsFrom(w, 4096, 8) == 2 && BitsFrom(w, 32768, 32) == rs1
              && BitsFrom(w, 1_048_576, 32) == rs2
              && w / 33_554_432 * 32 + BitsFrom(w, 128, 32) == if imm < 0 then imm + 4096 else imm
            case Bne(rs1, rs2, _) =>
              && w % 128 == 0x63 && BitsFrom(w, 4096, 8) == 1 && BitsFrom(w, 32768, 32) == rs1
              && BitsFrom(w, 1_048_576, 32) == rs2
            case Beq(rs1, rs2, _) =>
              && w % 128 == 0x63 && BitsFrom(w, 4096, 8) == 0 && BitsFrom(w, 32768, 32) == rs1
              && BitsFrom(w, 1_048_576, 32) == rs2
            case Jal(rd, _) => w % 128 == 0x6F && BitsFrom(w, 128, 32) == rd
            case Csrrs(rd, csr, rs1) =>
              && w % 128 == 0x73 && BitsFrom(w, 128, 32) == rd && BitsFrom(w, 4096, 8) == 2
              && BitsFrom(w, 32768, 32) == rs1 && w / 1_048_576 == csr
  {
    hide Fields, Upper, SType, BType, JType;
    match i
    case Lui(rd, imm20) => UpperApart(0x37, rd, imm20);
    case Addi(rd, rs1, imm) => FieldsApart(0x13, rd, 0, rs1, imm % 4096);
    case Sw(rs2, imm, rs1) => StoreFormat(rs2, imm, rs1);
    case Bne(rs1, rs2, off) => BranchFormat(off, rs2, rs1, 1);
    case Beq(rs1, rs2, off) => BranchFormat(off, rs2, rs1, 0);
    case Jal(rd, off) => JumpFormat(off, rd);
    case Csrrs(rd, csr, rs1) => FieldsApart(0x73, rd, 2, rs1, csr % 4096);
  }

  lemma TopSeven(w: u32, f20: int, rs2: Reg)
    requires 0 <= f20 && w / 1_048_576 == f20 && f20 % 32 == rs2
    ensures BitsFrom(w, 1_048_576, 32) == rs2 && w / 33_554_432 == f20 / 32
  {
  }

  lemma BranchFormat(off: Off13, rs2: Reg, rs1: Reg, funct3: int)
    requires 0 <= funct3 < 2
    ensures var w := BType(off, rs2, rs1, funct3, 0x63);
            && w % 128 == 0x63 && BitsFrom(w, 4096, 8) == funct3 && BitsFrom(w, 32768, 32) == rs1
            && BitsFrom(w, 1_048_576, 32) == rs2
  {
    hide Fields;
    var v := off % 8192;
    var b12, b11, b10to5, b4to1 := v / 4096 % 2, v / 2048 % 2, v / 32 % 64, v / 2 % 16;
    BranchParts(b12, b11, b10to5, b4to1, rs2);
    FieldsApart(0x63, b4to1 * 2 + b11, funct3, rs1, (b12 * 64 + b10to5) * 32 + rs2);
    TopSeven(BType(off, rs2, rs1, funct3, 0x63), (b12 * 64 + b10to5) * 32 + rs2, rs2);
  }

  /**
   * The distance of a branch from the bits of its word: bit 12 in 31, bits 10..5 in 30..25, bits 4..1 in
   * 11..8 and bit 11 in 7.
   */
  lemma BranchImmediate(off: Off13, rs2: Reg, rs1: Reg, funct3: int)
    requires 0 <= funct3 < 2
    ensures var w := BType(off, rs2, rs1, funct3, 0x63);
            BitsFrom(w, 0x8000_0000, 2) * 4096 + BitsFrom(w, 128, 2) * 2048 + BitsFrom(w, 0x200_0000, 64) * 32
            + BitsFrom(w, 256, 16) * 2 == off % 8192
  {
    hide BType, BitsFrom;
    BranchPlaces(off, off % 8192, rs2, rs1, funct3);
    BranchPieces(off % 8192);
  }

  lemma BranchPieces(v: int)
    requires 0 <= v < 8192 && v % 2 == 0
    ensures v == BitsFrom(v, 4096, 2) * 4096 + BitsFrom(v, 2048, 2) * 2048 + BitsFrom(v, 32, 64) * 32
              + BitsFrom(v, 2, 16) * 2
  {
    BranchBits(v);
  }

  lemma BranchPlaces(off: Off13, v: int, rs2: Reg, rs1: Reg, funct3: int)
    requires 0 <= funct3 < 2 && v == off % 8192
    ensures var w := BType(off, rs2, rs1, funct3, 0x63);
            && BitsFrom(w, 0x8000_0000, 2) == BitsFrom(v, 4096, 2) && BitsFrom(w, 128, 2) == BitsFrom(v, 2048, 2)
            && BitsFrom(w, 0x200_0000, 64) == BitsFrom(v, 32, 64) && BitsFrom(w, 256, 16) == BitsFrom(v, 2, 16)
  {
    hide Fields;
    var b12, b11, b10to5, b4to1 := v / 4096 % 2, v / 2048 % 2, v / 32 % 64, v / 2 % 16;
    var f7, f20 := b4to1 * 2 + b11, (b12 * 64 + b10to5) * 32 + rs2;
    BranchParts(b12, b11, b10to5, b4to1, rs2);
    FieldsApart(0x63, f7, funct3, rs1, f20);
    BranchWindows(BType(off, rs2, rs1, funct3, 0x63), f7, f20);
  }

  lemma BranchWindows(w: u32, f7: int, f20: int)
    requires w / 128 % 32 == f7 && w / 1_048_576 == f20
    ensures BitsFrom(w, 128, 2) == f7 % 2 && BitsFrom(w, 256, 16) == f7 / 2
    ensures BitsFrom(w, 0x200_0000, 64) == f20 / 32 % 64 && BitsFrom(w, 0x8000_0000, 2) == f20 / 2048
  {
    LowWindows(w, f7);
    HighWindows(w, f20);
  }

  lemma LowWindows(w: u32, f7: int)
    requires w / 128 % 32 == f7
    ensures BitsFrom(w, 128, 2) == f7 % 2 && BitsFrom(w, 256, 16) == f7 / 2
  {
    var v := w / 128;
    assert w / 256 == v / 2;
    assert v == v / 32 * 32 + f7;
  }

  lemma HighWindows(w: u32, f20: int)
    requires w / 1_048_576 == f20
    ensures BitsFrom(w, 0x200_0000, 64) == f20 / 32 % 64 && BitsFrom(w, 0x8000_0000, 2) == f20 / 2048
  {
  }

  /** The distance of a jump: bit 20 in 31, bits 10..1 in 30..21, bit 11 in 20 and bits 19..12 in 19..12. */
  lemma JumpImmediate(off: Off21, rd: Reg)
    ensures var w := JType(off, rd, 0x6F);
            BitsFrom(w, 0x8000_0000, 2) * 1_048_576 + BitsFrom(w, 4096, 256) * 4096 + BitsFrom(w, 0x10_0000, 2) * 2048
            + BitsFrom(w, 0x20_0000, 1024) * 2 == off % 2_097_152
  {
    hide JType, BitsFrom;
    JumpPlaces(off, off % 2_097_152, rd);
    JumpPieces(off % 2_097_152);
  }

  lemma JumpPieces(v: int)
    requires 0 <= v < 2_097_152 && v % 2 == 0
    ensures v == BitsFrom(v, 1_048_576, 2) * 1_048_576 + BitsFrom(v, 4096, 256) * 4096 + BitsFrom(v, 2048, 2) * 2048
              + BitsFrom(v, 2, 1024) * 2
  {
    JumpBits(v);
  }

  lemma JumpPlaces(off: Off21, v: int, rd: Reg)
    requires v == off % 2_097_152
    ensures var w := JType(off, rd, 0x6F);
            && BitsFrom(w, 0x8000_0000, 2) == BitsFrom(v, 1_048_576, 2)
            && BitsFrom(w, 4096, 256) == BitsFrom(v, 4096, 256)
            && BitsFrom(w, 0x10_0000, 2) == BitsFrom(v, 2048, 2)
            && BitsFrom(w, 0x20_0000, 1024) == BitsFrom(v, 2, 1024)
  {
    hide JType;
    var b20, b10to1, b11, b19to12 := v / 1_048_576 % 2, v / 2 % 1024, v / 2048 % 2, v / 4096 % 256;
    JumpTop(off, rd, v, b20, b10to1, b11, b19to12);
    JumpWindows(JType(off, rd, 0x6F), b20, b10to1, b11, b19to12);
  }

  lemma JumpTop(off: Off21, rd: Reg, v: int, b20: int, b10to1: int, b11: int, b19to12: int)
    requires v == off % 2_097_152 && b20 == v / 1_048_576 % 2 && b10to1 == v / 2 % 1024
    requires b11 == v / 2048 % 2 && b19to12 == v / 4096 % 256
    ensures JType(off, rd, 0x6F) / 4096 == ((b20 * 1024 + b10to1) * 2 + b11) * 256 + b19to12
  {
    hide Upper;
    UpperApart(0x6F, rd, ((b20 * 1024 + b10to1) * 2 + b11) * 256 + b19to12);
  }

  lemma JumpWindows(w: u32, b20: int, b10to1: int, b11: int, b19to12: int)
    requires 0 <= b20 < 2 && 0 <= b10to1 < 1024 && 0 <= b11 < 2 && 0 <= b19to12 < 256
    requires w / 4096 == ((b20 * 1024 + b10to1) * 2 + b11) * 256 + b19to12
    ensures BitsFrom(w, 4096, 256) == b19to12 && BitsFrom(w, 0x10_0000, 2) == b11
    ensures BitsFrom(w, 0x20_0000, 1024) == b10to1 && BitsFrom(w, 0x8000_0000, 2) == b20
  {
    JumpParts(b20, b10to1, b11, b19to12);
    UpperWindows(w, w / 4096);
  }

  lemma UpperWindows(w: u32, top: int)
    requires w / 4096 == top
    ensures BitsFrom(w, 0x10_0000, 2) == top / 256 % 2
    ensures BitsFrom(w, 0x20_0000, 1024) == top / 512 % 1024
    ensures BitsFrom(w, 0x8000_0000, 2) == top / 524_288
  {
  }

  lemma JumpFormat(off: Off21, rd: Reg)
    ensures var w := JType(off, rd, 0x6F); w % 128 == 0x6F && BitsFrom(w, 128, 32) == rd
  {
    hide Upper;
    var v := off % 2_097_152;
    UpperApart(0x6F, rd, ((v / 1_048_576 % 2 * 1024 + v / 2 % 1024) * 2 + v / 2048 % 2) * 256 + v / 4096 % 256);
  }

  lemma StoreFormat(rs2: Reg, imm: Imm12, rs1: Reg)
    ensures var w := SType(imm, rs2, rs1, 2, 0x23);
            && w % 128 == 0x23 && BitsFrom(w, 4096, 8) == 2 && BitsFrom(w, 32768, 32) == rs1
            && BitsFrom(w, 1_048_576, 32) == rs2
            && w / 33_554_432 * 32 + BitsFrom(w, 128, 32) == if imm < 0 then imm + 4096 else imm
  {
    hide Fields;
    var v := imm % 4096;
    StoreSplit(v, rs2);
    FieldsApart(0x23, v % 32, 2, rs1, v / 32 * 32 + rs2);
    TopSeven(SType(imm, rs2, rs1, 2, 0x23), v / 32 * 32 + rs2, rs2);
  }

  /** Instructions as an assembler writes them, distances of both signs and every immediate type among them. */
  lemma KnownWords()
    ensures Encode(Lui(5, 0x12345)) == 0x1234_52B7
    ensures Encode(Addi(1, 0, 1)) == 0x0010_0093 && Encode(Addi(2, 1, -1)) == 0xFFF0_8113
    ensures Encode(Sw(6, 8, 5)) == 0x0062_A423 && Encode(Sw(6, -4, 5)) == 0xFE62_AE23
    ensures Encode(Csrrs(10, 0xF14, 0)) == 0xF140_2573
  {
  }
}
