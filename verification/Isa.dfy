/** The documented NMOS 6502 instruction set as a function on architectural
    states. Both cores of this project are proved to refine it. */
module Isa {
  import opened Words

  datatype Flags = Flags(n: bool, v: bool, d: bool, i: bool, z: bool, c: bool)

  datatype Arch = Arch(a: byte, x: byte, y: byte, s: byte, pc: word, f: Flags, ram: Ram)

  datatype ReadOp = ADC | AND | BIT | CMP | CPX | CPY | EOR | LDA | LDX | LDY | ORA | SBC
  datatype StoreOp = STA | STX | STY
  datatype ModifyOp = ASL | LSR | ROL | ROR | INC | DEC
  datatype BranchOp = BCC | BCS | BEQ | BMI | BNE | BPL | BVC | BVS
  datatype RegisterOp =
    | CLC | CLD | CLI | CLV | SEC | SED | SEI | DEX | DEY | INX | INY | NOP
    | TAX | TAY | TSX | TXA | TXS | TYA

  datatype Op =
    | Read(readOp: ReadOp) | Store(storeOp: StoreOp) | Modify(modifyOp: ModifyOp)
    | Branch(branchOp: BranchOp) | Register(registerOp: RegisterOp)
    | JMP | JSR | PHA | PHP | PLA | PLP | RTS | RTI | BRK

  datatype Mode =
    | Accumulator | Immediate | Absolute | ZeroPage | ZeroPageX | ZeroPageY | AbsoluteX | AbsoluteY
    | NoOperand | Relative | IndirectX | IndirectY | Indirect

  datatype Instr = Instr(op: Op, mode: Mode, cycles: nat, penalty: bool)

  datatype Decoded = Illegal | Legal(instr: Instr)

  /** The 151 documented opcodes with their published base cycles, by the low five
      bits of the opcode, which mostly select the addressing mode. */
  function InstrTable(opcode: byte): Decoded {
    if opcode % 0x20 < 0x10 then EvenRows(opcode) else OddRows(opcode)
  }

  /** The even rows of sixteen opcodes. */
  function EvenRows(opcode: byte): Decoded {
    match opcode % 0x20
    case 0x00 => Column00(opcode)
    case 0x01 => Column01(opcode)
    case 0x02 => Column02(opcode)
    case 0x04 => Column04(opcode)
    case 0x05 => Column05(opcode)
    case 0x06 => Column06(opcode)
    case 0x08 => Column08(opcode)
    case 0x09 => Column09(opcode)
    case 0x0A => Column0A(opcode)
    case 0x0C => Column0C(opcode)
    case 0x0D => Column0D(opcode)
    case 0x0E => Column0E(opcode)
    case _ => Illegal
  }

  function OddRows(opcode: byte): Decoded {
    match opcode % 0x20
    case 0x10 => Column10(opcode)
    case 0x11 => Column11(opcode)
    case 0x14 => Column14(opcode)
    case 0x15 => Column15(opcode)
    case 0x16 => Column16(opcode)
    case 0x18 => Column18(opcode)
    case 0x19 => Column19(opcode)
    case 0x1A => Column1A(opcode)
    case 0x1C => Column1C(opcode)
    case 0x1D => Column1D(opcode)
    case 0x1E => Column1E(opcode)
    case _ => Illegal
  }

  function Column00(opcode: byte): Decoded {
    match opcode
    case 0x00 => Legal(Instr(BRK, NoOperand, 7, false))
    case 0x20 => Legal(Instr(JSR, Absolute, 6, false))
    case 0x40 => Legal(Instr(RTI, NoOperand, 6, false))
    case 0x60 => Legal(Instr(RTS, NoOperand, 6, false))
    case 0xA0 => Legal(Instr(Read(LDY), Immediate, 2, false))
    case 0xC0 => Legal(Instr(Read(CPY), Immediate, 2, false))
    case 0xE0 => Legal(Instr(Read(CPX), Immediate, 2, false))
    case _ => Illegal
  }

  function Column01(opcode: byte): Decoded {
    match opcode
    case 0x01 => Legal(Instr(Read(ORA), IndirectX, 6, false))
    case 0x21 => Legal(Instr(Read(AND), IndirectX, 6, false))
    case 0x41 => Legal(Instr(Read(EOR), IndirectX, 6, false))
    case 0x61 => Legal(Instr(Read(ADC), IndirectX, 6, false))
    case 0x81 => Legal(Instr(Store(STA), IndirectX, 6, false))
    case 0xA1 => Legal(Instr(Read(LDA), IndirectX, 6, false))
    case 0xC1 => Legal(Instr(Read(CMP), IndirectX, 6, false))
    case 0xE1 => Legal(Instr(Read(SBC), IndirectX, 6, false))
    case _ => Illegal
  }

  function Column02(opcode: byte): Decoded {
    match opcode
    case 0xA2 => Legal(Instr(Read(LDX), Immediate, 2, false))
    case _ => Illegal
  }

  function Column04(opcode: byte): Decoded {
    match opcode
    case 0x24 => Legal(Instr(Read(BIT), ZeroPage, 3, false))
    case 0x84 => Legal(Instr(Store(STY), ZeroPage, 3, false))
    case 0xA4 => Legal(Instr(Read(LDY), ZeroPage, 3, false))
    case 0xC4 => Legal(Instr(Read(CPY), ZeroPage, 3, false))
    case 0xE4 => Legal(Instr(Read(CPX), ZeroPage, 3, false))
    case _ => Illegal
  }

  function Column05(opcode: byte): Decoded {
    match opcode
    case 0x05 => Legal(Instr(Read(ORA), ZeroPage, 3, false))
    case 0x25 => Legal(Instr(Read(AND), ZeroPage, 3, false))
    case 0x45 => Legal(Instr(Read(EOR), ZeroPage, 3, false))
    case 0x65 => Legal(Instr(Read(ADC), ZeroPage, 3, false))
    case 0x85 => Legal(Instr(Store(STA), ZeroPage, 3, false))
    case 0xA5 => Legal(Instr(Read(LDA), ZeroPage, 3, false))
    case 0xC5 => Legal(Instr(Read(CMP), ZeroPage, 3, false))
    case 0xE5 => Legal(Instr(Read(SBC), ZeroPage, 3, false))
    case _ => Illegal
  }

  function Column06(opcode: byte): Decoded {
    match opcode
    case 0x06 => Legal(Instr(Modify(ASL), ZeroPage, 5, false))
    case 0x26 => Legal(Instr(Modify(ROL), ZeroPage, 5, false))
    case 0x46 => Legal(Instr(Modify(LSR), ZeroPage, 5, false))
    case 0x66 => Legal(Instr(Modify(ROR), ZeroPage, 5, false))
    case 0x86 => Legal(Instr(Store(STX), ZeroPage, 3, false))
    case 0xA6 => Legal(Instr(Read(LDX), ZeroPage, 3, false))
    case 0xC6 => Legal(Instr(Modify(DEC), ZeroPage, 5, false))
    case 0xE6 => Legal(Instr(Modify(INC), ZeroPage, 5, false))
    case _ => Illegal
  }

  function Column08(opcode: byte): Decoded {
    match opcode
    case 0x08 => Legal(Instr(PHP, NoOperand, 3, false))
    case 0x28 => Legal(Instr(PLP, NoOperand, 4, false))
    case 0x48 => Legal(Instr(PHA, NoOperand, 3, false))
    case 0x68 => Legal(Instr(PLA, NoOperand, 4, false))
    case 0x88 => Legal(Instr(Register(DEY), NoOperand, 2, false))
    case 0xA8 => Legal(Instr(Register(TAY), NoOperand, 2, false))
    case 0xC8 => Legal(Instr(Register(INY), NoOperand, 2, false))
    case 0xE8 => Legal(Instr(Register(INX), NoOperand, 2, false))
    case _ => Illegal
  }

  function Column09(opcode: byte): Decoded {
    match opcode
    case 0x09 => Legal(Instr(Read(ORA), Immediate, 2, false))
    case 0x29 => Legal(Instr(Read(AND), Immediate, 2, false))
    case 0x49 => Legal(Instr(Read(EOR), Immediate, 2, false))
    case 0x69 => Legal(Instr(Read(ADC), Immediate, 2, false))
    case 0xA9 => Legal(Instr(Read(LDA), Immediate, 2, false))
    case 0xC9 => Legal(Instr(Read(CMP), Immediate, 2, false))
    case 0xE9 => Legal(Instr(Read(SBC), Immediate, 2, false))
    case _ => Illegal
  }

  function Column0A(opcode: byte): Decoded {
    match opcode
    case 0x0A => Legal(Instr(Modify(ASL), Accumulator, 2, false))
    case 0x2A => Legal(Instr(Modify(ROL), Accumulator, 2, false))
    case 0x4A => Legal(Instr(Modify(LSR), Accumulator, 2, false))
    case 0x6A => Legal(Instr(Modify(ROR), Accumulator, 2, false))
    case 0x8A => Legal(Instr(Register(TXA), NoOperand, 2, false))
    case 0xAA => Legal(Instr(Register(TAX), NoOperand, 2, false))
    case 0xCA => Legal(Instr(Register(DEX), NoOperand, 2, false))
    case 0xEA => Legal(Instr(Register(NOP), NoOperand, 2, false))
    case _ => Illegal
  }

  function Column0C(opcode: byte): Decoded {
    match opcode
    case 0x2C => Legal(Instr(Read(BIT), Absolute, 4, false))
    case 0x4C => Legal(Instr(JMP, Absolute, 3, false))
    case 0x6C => Legal(Instr(JMP, Indirect, 5, false))
    case 0x8C => Legal(Instr(Store(STY), Absolute, 4, false))
    case 0xAC => Legal(Instr(Read(LDY), Absolute, 4, false))
    case 0xCC => Legal(Instr(Read(CPY), Absolute, 4, false))
    case 0xEC => Legal(Instr(Read(CPX), Absolute, 4, false))
    case _ => Illegal
  }

  function Column0D(opcode: byte): Decoded {
    match opcode
    case 0x0D => Legal(Instr(Read(ORA), Absolute, 4, false))
    case 0x2D => Legal(Instr(Read(AND), Absolute, 4, false))
    case 0x4D => Legal(Instr(Read(EOR), Absolute, 4, false))
    case 0x6D => Legal(Instr(Read(ADC), Absolute, 4, false))
    case 0x8D => Legal(Instr(Store(STA), Absolute, 4, false))
    case 0xAD => Legal(Instr(Read(LDA), Absolute, 4, false))
    case 0xCD => Legal(Instr(Read(CMP), Absolute, 4, false))
    case 0xED => Legal(Instr(Read(SBC), Absolute, 4, false))
    case _ => Illegal
  }

  function Column0E(opcode: byte): Decoded {
    match opcode
    case 0x0E => Legal(Instr(Modify(ASL), Absolute, 6, false))
    case 0x2E => Legal(Instr(Modify(ROL), Absolute, 6, false))
    case 0x4E => Legal(Instr(Modify(LSR), Absolute, 6, false))
    case 0x6E => Legal(Instr(Modify(ROR), Absolute, 6, false))
    case 0x8E => Legal(Instr(Store(STX), Absolute, 4, false))
    case 0xAE => Legal(Instr(Read(LDX), Absolute, 4, false))
    case 0xCE => Legal(Instr(Modify(DEC), Absolute, 6, false))
    case 0xEE => Legal(Instr(Modify(INC), Absolute, 6, false))
    case _ => Illegal
  }

  function Column10(opcode: byte): Decoded {
    match opcode
    case 0x10 => Legal(Instr(Branch(BPL), Relative, 2, true))
    case 0x30 => Legal(Instr(Branch(BMI), Relative, 2, true))
    case 0x50 => Legal(Instr(Branch(BVC), Relative, 2, true))
    case 0x70 => Legal(Instr(Branch(BVS), Relative, 2, true))
    case 0x90 => Legal(Instr(Branch(BCC), Relative, 2, true))
    case 0xB0 => Legal(Instr(Branch(BCS), Relative, 2, true))
    case 0xD0 => Legal(Instr(Branch(BNE), Relative, 2, true))
    case 0xF0 => Legal(Instr(Branch(BEQ), Relative, 2, true))
    case _ => Illegal
  }

  function Column11(opcode: byte): Decoded {
    match opcode
    case 0x11 => Legal(Instr(Read(ORA), IndirectY, 5, true))
    case 0x31 => Legal(Instr(Read(AND), IndirectY, 5, true))
    case 0x51 => Legal(Instr(Read(EOR), IndirectY, 5, true))
    case 0x71 => Legal(Instr(Read(ADC), IndirectY, 5, true))
    case 0x91 => Legal(Instr(Store(STA), IndirectY, 6, false))
    case 0xB1 => Legal(Instr(Read(LDA), IndirectY, 5, true))
    case 0xD1 => Legal(Instr(Read(CMP), IndirectY, 5, true))
    case 0xF1 => Legal(Instr(Read(SBC), IndirectY, 5, true))
    case _ => Illegal
  }

  function Column14(opcode: byte): Decoded {
    match opcode
    case 0x94 => Legal(Instr(Store(STY), ZeroPageX, 4, false))
    case 0xB4 => Legal(Instr(Read(LDY), ZeroPageX, 4, false))
    case _ => Illegal
  }

  function Column15(opcode: byte): Decoded {
    match opcode
    case 0x15 => Legal(Instr(Read(ORA), ZeroPageX, 4, false))
    case 0x35 => Legal(Instr(Read(AND), ZeroPageX, 4, false))
    case 0x55 => Legal(Instr(Read(EOR), ZeroPageX, 4, false))
    case 0x75 => Legal(Instr(Read(ADC), ZeroPageX, 4, false))
    case 0x95 => Legal(Instr(Store(STA), ZeroPageX, 4, false))
    case 0xB5 => Legal(Instr(Read(LDA), ZeroPageX, 4, false))
    case 0xD5 => Legal(Instr(Read(CMP), ZeroPageX, 4, false))
    case 0xF5 => Legal(Instr(Read(SBC), ZeroPageX, 4, false))
    case _ => Illegal
  }

  function Column16(opcode: byte): Decoded {
    match opcode
    case 0x16 => Legal(Instr(Modify(ASL), ZeroPageX, 6, false))
    case 0x36 => Legal(Instr(Modify(ROL), ZeroPageX, 6, false))
    case 0x56 => Legal(Instr(Modify(LSR), ZeroPageX, 6, false))
    case 0x76 => Legal(Instr(Modify(ROR), ZeroPageX, 6, false))
    case 0x96 => Legal(Instr(Store(STX), ZeroPageY, 4, false))
    case 0xB6 => Legal(Instr(Read(LDX), ZeroPageY, 4, false))
    case 0xD6 => Legal(Instr(Modify(DEC), ZeroPageX, 6, false))
    case 0xF6 => Legal(Instr(Modify(INC), ZeroPageX, 6, false))
    case _ => Illegal
  }

  function Column18(opcode: byte): Decoded {
    match opcode
    case 0x18 => Legal(Instr(Register(CLC), NoOperand, 2, false))
    case 0x38 => Legal(Instr(Register(SEC), NoOperand, 2, false))
    case 0x58 => Legal(Instr(Register(CLI), NoOperand, 2, false))
    case 0x78 => Legal(Instr(Register(SEI), NoOperand, 2, false))
    case 0x98 => Legal(Instr(Register(TYA), NoOperand, 2, false))
    case 0xB8 => Legal(Instr(Register(CLV), NoOperand, 2, false))
    case 0xD8 => Legal(Instr(Register(CLD), NoOperand, 2, false))
    case 0xF8 => Legal(Instr(Register(SED), NoOperand, 2, false))
    case _ => Illegal
  }

  function Column19(opcode: byte): Decoded {
    match opcode
    case 0x19 => Legal(Instr(Read(ORA), AbsoluteY, 4, true))
    case 0x39 => Legal(Instr(Read(AND), AbsoluteY, 4, true))
    case 0x59 => Legal(Instr(Read(EOR), AbsoluteY, 4, true))
    case 0x79 => Legal(Instr(Read(ADC), AbsoluteY, 4, true))
    case 0x99 => Legal(Instr(Store(STA), AbsoluteY, 5, false))
    case 0xB9 => Legal(Instr(Read(LDA), AbsoluteY, 4, true))
    case 0xD9 => Legal(Instr(Read(CMP), AbsoluteY, 4, true))
    case 0xF9 => Legal(Instr(Read(SBC), AbsoluteY, 4, true))
    case _ => Illegal
  }

  function Column1A(opcode: byte): Decoded {
    match opcode
    case 0x9A => Legal(Instr(Register(TXS), NoOperand, 2, false))
    case 0xBA => Legal(Instr(Register(TSX), NoOperand, 2, false))
    case _ => Illegal
  }

  function Column1C(opcode: byte): Decoded {
    match opcode
    case 0xBC => Legal(Instr(Read(LDY), AbsoluteX, 4, true))
    case _ => Illegal
  }

  function Column1D(opcode: byte): Decoded {
    match opcode
    case 0x1D => Legal(Instr(Read(ORA), AbsoluteX, 4, true))
    case 0x3D => Legal(Instr(Read(AND), AbsoluteX, 4, true))
    case 0x5D => Legal(Instr(Read(EOR), AbsoluteX, 4, true))
    case 0x7D => Legal(Instr(Read(ADC), AbsoluteX, 4, true))
    case 0x9D => Legal(Instr(Store(STA), AbsoluteX, 5, false))
    case 0xBD => Legal(Instr(Read(LDA), AbsoluteX, 4, true))
    case 0xDD => Legal(Instr(Read(CMP), AbsoluteX, 4, true))
    case 0xFD => Legal(Instr(Read(SBC), AbsoluteX, 4, true))
    case _ => Illegal
  }

  function Column1E(opcode: byte): Decoded {
    match opcode
    case 0x1E => Legal(Instr(Modify(ASL), AbsoluteX, 7, false))
    case 0x3E => Legal(Instr(Modify(ROL), AbsoluteX, 7, false))
    case 0x5E => Legal(Instr(Modify(LSR), AbsoluteX, 7, false))
    case 0x7E => Legal(Instr(Modify(ROR), AbsoluteX, 7, false))
    case 0xBE => Legal(Instr(Read(LDX), AbsoluteY, 4, true))
    case 0xDE => Legal(Instr(Modify(DEC), AbsoluteX, 7, false))
    case 0xFE => Legal(Instr(Modify(INC), AbsoluteX, 7, false))
    case _ => Illegal
  }

  // ---------------------------------------------------------------- addresses

  /** What an addressing mode yields: the effective address, the program counter
      past the operand, and whether indexing left the base page. */
  datatype Target = Target(ea: word, pc: word, crossed: bool)

  function IndexFrom(base: word, index: byte, pc: word): Target {
    Target(Trunc(base + index), pc, base % 0x100 + index > 0xFF)
  }

  /** Indexing as the hardware does it: add to the low byte, then carry into the
      high byte in one more cycle if the page changed. */
  lemma IndexCarry(high: byte, low: byte, index: byte, pc: word)
    ensures var crossed := low + index > 0xFF;
            IndexFrom(Pair(high, low), index, pc) ==
              Target(Pair(if crossed then Succ(high) else high, Low(low + index)), pc, crossed)
  {
    hide Trunc, Low;
    LowCases(low + index);
    LowCases(high + 1);
    TruncCases(Pair(high, low) + index);
    PairLow(high, low);
  }

  lemma LowCases(x: nat)
    requires x < 0x200
    ensures Low(x) == if x < 0x100 then x else x - 0x100
  {
  }

  lemma TruncCases(x: nat)
    requires x < 0x2_0000
    ensures Trunc(x) == if x < 0x1_0000 then x else x - 0x1_0000
  {
  }

  lemma PairLow(high: byte, low: byte)
    ensures Pair(high, low) % 0x100 == low
  {
  }

  lemma ZeroPagePointer(m: Ram, z: byte)
    ensures PageWord(m, 0, z) == Pair(m[Succ(z)], m[z]) && Succ(z) == Low(z + 1)
  {
  }

  /** The word at an address whose second byte wraps inside the same page. */
  function PageWord(m: Ram, page: byte, low: byte): word {
    Pair(m[Pair(page, Low(low + 1))], m[Pair(page, low)])
  }

  function OperandWord(m: Ram, p: word): word { Pair(m[Trunc(p + 1)], m[p]) }

  // In all of these s.pc is the address after the opcode.

  function ResolveZeroPage(index: byte, s: Arch): Target {
    Target(Low(s.ram[s.pc] + index), Trunc(s.pc + 1), false)
  }

  function ResolveAbsolute(s: Arch): Target {
    Target(OperandWord(s.ram, s.pc), Trunc(s.pc + 2), false)
  }

  function ResolveIndexed(index: byte, s: Arch): Target {
    IndexFrom(OperandWord(s.ram, s.pc), index, Trunc(s.pc + 2))
  }

  function ResolveIndirect(s: Arch): Target {
    Target(PageWord(s.ram, s.ram[Trunc(s.pc + 1)], s.ram[s.pc]), Trunc(s.pc + 2), false)
  }

  function ResolvePointerX(s: Arch): Target {
    Target(PageWord(s.ram, 0, Low(s.ram[s.pc] + s.x)), Trunc(s.pc + 1), false)
  }

  function ResolvePointerY(s: Arch): Target {
    IndexFrom(PageWord(s.ram, 0, s.ram[s.pc]), s.y, Trunc(s.pc + 1))
  }

  function ResolveRelative(s: Arch): Target {
    var next := Trunc(s.pc + 1);
    var ea := Trunc(next + Signed(s.ram[s.pc]));
    Target(ea, next, High(ea) != High(next))
  }

  function Resolve(mode: Mode, s: Arch): Target {
    match mode
    case Accumulator | NoOperand => Target(0, s.pc, false)
    case Immediate => Target(s.pc, Trunc(s.pc + 1), false)
    case ZeroPage => ResolveZeroPage(0, s)
    case ZeroPageX => ResolveZeroPage(s.x, s)
    case ZeroPageY => ResolveZeroPage(s.y, s)
    case Absolute => ResolveAbsolute(s)
    case AbsoluteX => ResolveIndexed(s.x, s)
    case AbsoluteY => ResolveIndexed(s.y, s)
    case IndirectX => ResolvePointerX(s)
    case IndirectY => ResolvePointerY(s)
    case Indirect => ResolveIndirect(s)
    case Relative => ResolveRelative(s)
  }

  // ---------------------------------------------------------------- arithmetic

  function NZ(f: Flags, v: byte): Flags { f.(n := Sign(v), z := v == 0) }

  /** The sum, with the overflow and carry it raises. */
  datatype Sum = Sum(value: byte, n: bool, v: bool, z: bool, c: bool)

  /** Overflow read off the signs of the operands and of the result. */
  predicate AddV(a: bool, m: bool, r: bool) { a == m && a != r }
  predicate SubV(a: bool, m: bool, r: bool) { a != m && a != r }

  predicate FitsSigned(x: int) { -0x80 <= x < 0x80 }

  function AddBinary(a: byte, m: byte, c: bool): Sum {
    var t := a + m + Bit(c);
    var signed := Signed(a) + Signed(m) + Bit(c);
    Sum(Low(t), Sign(t), !FitsSigned(signed), Low(t) == 0, t > 0xFF)
  }

  function SubBinary(a: byte, m: byte, c: bool): Sum {
    var t := a - m - Bit(!c);
    var signed := Signed(a) - Signed(m) - Bit(!c);
    Sum(Low(t), Sign(Low(t)), !FitsSigned(signed), Low(t) == 0, t >= 0)
  }

  /** Decimal mode, digit by digit. A digit may be any value below sixteen, so
      every byte is a legal operand. */
  function AddDecimal(a: byte, m: byte, c: bool): Sum {
    AddDigits(a / 0x10, a % 0x10, m / 0x10, m % 0x10, c, AddBinary(a, m, c).z)
  }

  function AddDigits(ah: nat, al: nat, mh: nat, ml: nat, c: bool, z: bool): Sum
    requires ah < 0x10 && al < 0x10 && mh < 0x10 && ml < 0x10
  {
    var low := al + ml + Bit(c);
    var high := ah + mh + Bit(low >= 10);
    var n := Nibble(high) >= 8;
    Sum(Nibble(if high >= 10 then high + 6 else high) * 0x10 + Nibble(if low >= 10 then low + 6 else low),
        n, AddV(ah >= 8, mh >= 8, n), z, high >= 10)
  }

  function SubDecimal(a: byte, m: byte, c: bool): Sum {
    SubDigits(a / 0x10, a % 0x10, m / 0x10, m % 0x10, c, SubBinary(a, m, c).z)
  }

  function SubDigits(ah: nat, al: nat, mh: nat, ml: nat, c: bool, z: bool): Sum
    requires ah < 0x10 && al < 0x10 && mh < 0x10 && ml < 0x10
  {
    var low := al - ml - Bit(!c);
    var high := ah - mh - Bit(low < 0);
    var n := Nibble(high) >= 8;
    Sum(Nibble(if high < 0 then high - 6 else high) * 0x10 + Nibble(if low < 0 then low - 6 else low),
        n, SubV(ah >= 8, mh >= 8, n), z, high >= 0)
  }

  function Accumulate(s: Arch, r: Sum): Arch {
    s.(a := r.value, f := s.f.(n := r.n, v := r.v, z := r.z, c := r.c))
  }

  function Adc(s: Arch, m: byte): Arch {
    Accumulate(s, if s.f.d then AddDecimal(s.a, m, s.f.c) else AddBinary(s.a, m, s.f.c))
  }

  function Sbc(s: Arch, m: byte): Arch {
    Accumulate(s, if s.f.d then SubDecimal(s.a, m, s.f.c) else SubBinary(s.a, m, s.f.c))
  }

  function LoadA(s: Arch, v: byte): Arch { s.(a := v, f := NZ(s.f, v)) }
  function LoadX(s: Arch, v: byte): Arch { s.(x := v, f := NZ(s.f, v)) }
  function LoadY(s: Arch, v: byte): Arch { s.(y := v, f := NZ(s.f, v)) }

  /** The registers that loads, transfers and comparisons name. */
  datatype Reg = RegA | RegX | RegY

  /** A register receives v, and N and Z follow it. */
  function SetFlagged(s: Arch, reg: Reg, v: byte): Arch {
    match reg case RegA => LoadA(s, v) case RegX => LoadX(s, v) case RegY => LoadY(s, v)
  }

  /** The flags that instructions set and clear by name. */
  datatype FlagName = CARRY | INTERRUPT | DECIMAL | OVERFLOW

  function FlagOp(name: FlagName, value: bool): RegisterOp {
    match name
    case CARRY => if value then SEC else CLC
    case INTERRUPT => if value then SEI else CLI
    case DECIMAL => if value then SED else CLD
    case OVERFLOW => CLV
  }

  function Compare(s: Arch, reg: byte, m: byte): Arch {
    s.(f := NZ(s.f, Low(reg - m)).(c := reg >= m))
  }

  function BitTest(s: Arch, m: byte): Arch {
    s.(f := s.f.(n := Sign(m), v := m / 0x40 % 2 == 1, z := BitAnd(s.a, m) == 0))
  }

  // ---------------------------------------------------------------- operations

  function DoRead(op: ReadOp, s: Arch, m: byte): Arch
  {
    match op
    case ADC => Adc(s, m)
    case SBC => Sbc(s, m)
    case AND => LoadA(s, BitAnd(s.a, m))
    case ORA => LoadA(s, BitOr(s.a, m))
    case EOR => LoadA(s, BitXor(s.a, m))
    case BIT => BitTest(s, m)
    case CMP => Compare(s, s.a, m)
    case CPX => Compare(s, s.x, m)
    case CPY => Compare(s, s.y, m)
    case LDA => LoadA(s, m)
    case LDX => LoadX(s, m)
    case LDY => LoadY(s, m)
  }

  function Stored(op: StoreOp, s: Arch): byte
  {
    match op case STA => s.a case STX => s.x case STY => s.y
  }

  function Modified(op: ModifyOp, v: byte, c: bool): byte
  {
    match op
    case ASL => Low(2 * v)
    case LSR => v / 2
    case ROL => Low(2 * v + Bit(c))
    case ROR => Low(v / 2 + 0x80 * Bit(c))
    case INC => Low(v + 1)
    case DEC => Low(v - 1)
  }

  function ModifiedFlags(op: ModifyOp, v: byte, f: Flags): Flags
  {
    var g := NZ(f, Modified(op, v, f.c));
    match op
    case ASL | ROL => g.(c := v >= 0x80)
    case LSR | ROR => g.(c := v % 2 == 1)
    case INC | DEC => g
  }

  function ModifyA(op: ModifyOp, s: Arch): Arch
  {
    s.(a := Modified(op, s.a, s.f.c), f := ModifiedFlags(op, s.a, s.f))
  }

  function ModifyAt(op: ModifyOp, s: Arch, ea: word): Arch
  {
    s.(ram := s.ram[ea := Modified(op, s.ram[ea], s.f.c)], f := ModifiedFlags(op, s.ram[ea], s.f))
  }

  predicate Taken(op: BranchOp, f: Flags)
  {
    match op
    case BCC => !f.c case BCS => f.c
    case BNE => !f.z case BEQ => f.z
    case BPL => !f.n case BMI => f.n
    case BVC => !f.v case BVS => f.v
  }

  function DoRegister(op: RegisterOp, s: Arch): Arch
  {
    match op
    case CLC => s.(f := s.f.(c := false))
    case SEC => s.(f := s.f.(c := true))
    case CLI => s.(f := s.f.(i := false))
    case SEI => s.(f := s.f.(i := true))
    case CLD => s.(f := s.f.(d := false))
    case SED => s.(f := s.f.(d := true))
    case CLV => s.(f := s.f.(v := false))
    case DEX => LoadX(s, Low(s.x - 1))
    case DEY => LoadY(s, Low(s.y - 1))
    case INX => LoadX(s, Low(s.x + 1))
    case INY => LoadY(s, Low(s.y + 1))
    case TAX => LoadX(s, s.a)
    case TAY => LoadY(s, s.a)
    case TSX => LoadX(s, s.s)
    case TXA => LoadA(s, s.x)
    case TYA => LoadA(s, s.y)
    case TXS => s.(s := s.x)
    case NOP => s
  }

  function WithFlag(f: Flags, name: FlagName, value: bool): Flags {
    match name
    case CARRY => f.(c := value)
    case INTERRUPT => f.(i := value)
    case DECIMAL => f.(d := value)
    case OVERFLOW => f.(v := value)
  }

  /** What the instructions that name a flag do to it. */
  lemma FlagOpSets(name: FlagName, value: bool, s: Arch)
    requires name == OVERFLOW ==> !value
    ensures DoRegister(FlagOp(name, value), s) == s.(f := WithFlag(s.f, name, value))
  {
    hide LoadA, LoadX, LoadY;
  }

  // ---------------------------------------------------------------- the stack

  function PushByte(s: Arch, v: byte): Arch {
    s.(ram := s.ram[0x100 + s.s := v], s := Low(s.s - 1))
  }

  function PushWord(s: Arch, w: word): Arch { PushByte(PushByte(s, High(w)), Low(w)) }

  /** The byte the next pull returns. */
  function Top(s: Arch): byte { s.ram[0x100 + Low(s.s + 1)] }

  function Drop(s: Arch): Arch { s.(s := Low(s.s + 1)) }

  /** The flags as the status byte; bit 5 always reads as set. */
  function Pack(f: Flags, brk: bool): byte {
    Bit(f.c) + 2 * Bit(f.z) + 4 * Bit(f.i) + 8 * Bit(f.d) + 0x10 * Bit(brk) + 0x20
    + 0x40 * Bit(f.v) + 0x80 * Bit(f.n)
  }

  function Unpack(p: byte): Flags {
    Flags(p / 0x80 % 2 == 1, p / 0x40 % 2 == 1, p / 8 % 2 == 1, p / 4 % 2 == 1, p / 2 % 2 == 1, p % 2 == 1)
  }

  const IRQ_VECTOR: word := 0xFFFE
  const NMI_VECTOR: word := 0xFFFA

  function VectorAt(m: Ram, v: word): word requires v < 0xFFFF { Pair(m[v + 1], m[v]) }

  /** Interrupt entry: three pushes, I set, control to the vector. */
  function Enter(s: Arch, vector: word, brk: bool): Arch
    requires vector < 0xFFFF
  {
    var t := PushByte(PushWord(s, s.pc), Pack(s.f, brk));
    t.(f := t.f.(i := true), pc := VectorAt(t.ram, vector))
  }

  function PullFlags(s: Arch): Arch { Drop(s).(f := Unpack(Top(s))) }

  function PullPc(s: Arch, offset: nat): Arch {
    var t := Drop(s);
    Drop(t).(pc := Trunc(Pair(Top(t), Top(s)) + offset))
  }

  /** JSR: the address of its own last byte is pushed, and only then is that byte,
      the high half of the destination, read. */
  function CallTo(s: Arch, low: byte): Arch {
    var last := Trunc(s.pc - 1);
    var t := PushWord(s, last);
    t.(pc := Pair(t.ram[last], low))
  }

  // ---------------------------------------------------------------- one instruction

  /** s.pc is the address after the whole instruction. */
  function Apply(i: Instr, s: Arch, ea: word): Arch {
    match i.op
    case Read(op) => DoRead(op, s, s.ram[ea])
    case Store(op) => s.(ram := s.ram[ea := Stored(op, s)])
    case Modify(op) => if i.mode == Accumulator then ModifyA(op, s) else ModifyAt(op, s, ea)
    case Branch(op) => if Taken(op, s.f) then s.(pc := ea) else s
    case Register(op) => DoRegister(op, s)
    case JMP => s.(pc := ea)
    case JSR => CallTo(s, Low(ea))
    case PHA => PushByte(s, s.a)
    case PHP => PushByte(s, Pack(s.f, true))
    case PLA => LoadA(Drop(s), Top(s))
    case PLP => PullFlags(s)
    case RTS => PullPc(s, 1)
    case RTI => PullPc(PullFlags(s), 0)
    case BRK => Enter(s.(pc := Trunc(s.pc + 1)), IRQ_VECTOR, true)
  }

  function Fetched(s: Arch): Arch { s.(pc := Trunc(s.pc + 1)) }

  /** One instruction whose operand has been resolved. */
  function Complete(i: Instr, t: Target, s: Arch): Arch { Apply(i, s.(pc := t.pc), t.ea) }

  /** The published cycle count: the table entry, one more for a taken branch,
      one more where a page crossing is penalised. */
  function Cost(i: Instr, t: Target, f: Flags): nat {
    var taken := i.op.Branch? && Taken(i.op.branchOp, f);
    i.cycles + Bit(taken) + Bit(i.penalty && t.crossed && (i.op.Branch? ==> taken))
  }

  /** One instruction, fetch included. */
  function Execute(i: Instr, s: Arch): Arch { Complete(i, Resolve(i.mode, Fetched(s)), s) }

  function Cycles(i: Instr, s: Arch): nat { Cost(i, Resolve(i.mode, Fetched(s)), s.f) }

  // ---------------------------------------------------------------- runs

  function Next(s: Arch): Decoded { InstrTable(s.ram[s.pc]) }

  /** The first n instructions met from s are all documented ones. */
  predicate DocumentedRun(s: Arch, n: nat)
    decreases n
  {
    n == 0 || match Next(s) { case Illegal => false case Legal(i) => DocumentedRun(Execute(i, s), n - 1) }
  }

  /** n instructions from s, or as many as precede the first undocumented one. */
  function Run(s: Arch, n: nat): Arch
    decreases n
  {
    if n == 0 then s else
    match Next(s) { case Illegal => s case Legal(i) => Run(Execute(i, s), n - 1) }
  }

  function RunCycles(s: Arch, n: nat): nat
    decreases n
  {
    if n == 0 then 0 else
    match Next(s) { case Illegal => 0 case Legal(i) => Cycles(i, s) + RunCycles(Execute(i, s), n - 1) }
  }
}
