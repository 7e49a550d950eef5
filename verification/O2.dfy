/** The O2 core: a machine that does one bus access per `Cycle`, keeping the
    partial work of an instruction in its scratch fields. Dummy reads change
    nothing on plain memory and are dropped. */
module O2 {
  import opened Words
  import opened Isa
  import opened Alu

  datatype InterruptFlag = NMI | RESET | IRQ | INONE
  datatype State = FETCH | LOAD | EXECUTE
  datatype AddressingMode = IMPLIED | IMM | ZP | ZPX | ZPY | ABS | ABSX | ABSY | IND | INDX | INDY

  /** The array `P[8]`, entry by entry. */
  datatype Status = Status(carry: bool, zero: bool, interrupt: bool, decimal: bool,
                           b0: bool, b1: bool, overflow: bool, negative: bool)
  {
    function Flags(): Flags { Isa.Flags(negative, overflow, decimal, interrupt, zero, carry) }
    function Set(name: FlagName, value: bool): (r: Status)
      ensures r.Flags() == WithFlag(Flags(), name, value)
    {
      match name
      case CARRY => this.(carry := value)
      case INTERRUPT => this.(interrupt := value)
      case DECIMAL => this.(decimal := value)
      case OVERFLOW => this.(overflow := value)
    }

    function Update(v: byte): Status { this.(negative := Sign(v), zero := v == 0) }
  }

  /** What the core is busy with between two boundaries. */
  datatype Job = Instruction | Service(flag: InterruptFlag)

  const RESET_VECTOR: word := 0xFFFC

  function VectorOf(flag: InterruptFlag): (v: word) ensures v < 0xFFFF {
    match flag case NMI => NMI_VECTOR case RESET => RESET_VECTOR case _ => IRQ_VECTOR
  }

  // ---------------------------------------------------------------- decoding

  function AddmOf(i: Instr): AddressingMode {
    match i.mode
    case Accumulator | NoOperand => IMPLIED
    case Immediate | Relative => IMM
    case ZeroPage => ZP case ZeroPageX => ZPX case ZeroPageY => ZPY
    case Absolute => if i.op == JSR then IMPLIED else ABS
    case AbsoluteX => ABSX case AbsoluteY => ABSY
    case Indirect => IND case IndirectX => INDX case IndirectY => INDY
  }

  predicate Indexed(addm: AddressingMode) { addm in {ABSX, ABSY, INDY} }

  /** Bus cycles of the LOAD state; `page` is the fix-up cycle. */
  function LoadCycles(addm: AddressingMode, page: byte): nat {
    match addm
    case IMPLIED | IMM => 0
    case ZP => 1
    case ZPX | ZPY | ABS => 2
    case ABSX | ABSY => 2 + page
    case IND | INDX => 4
    case INDY => 3 + page
  }

  /** Cycles of an instruction that crosses no page and takes no branch. */
  function BaseCycles(i: Instr): nat {
    var addm := AddmOf(i);
    match i.op
    case Read(_) => 2 + LoadCycles(addm, 0)
    case Store(_) => 2 + LoadCycles(addm, 0) + Bit(Indexed(addm))
    case Modify(_) => if addm == IMPLIED then 2 else 4 + LoadCycles(addm, 0) + Bit(addm == ABSX)
    case JMP => 1 + LoadCycles(addm, 0)
    case Branch(_) | Register(_) => 2
    case JSR | RTS | RTI => 6
    case PHA | PHP => 3
    case PLA | PLP => 4
    case BRK => 7
  }

  /** Which modes go with which operations, and the published timing. */
  predicate Regular(i: Instr) {
    var addm := AddmOf(i);
    && i.cycles == BaseCycles(i)
    && i.penalty == (i.op.Branch? || (i.op.Read? && Indexed(addm)))
    && match i.op
       case Read(_) => i.mode != Relative && addm !in {IMPLIED, IND}
       case Store(_) => addm !in {IMPLIED, IMM, IND}
       case Modify(op) =>
         if addm == IMPLIED then i.mode == Accumulator && op !in {INC, DEC} else addm in {ZP, ZPX, ABS, ABSX}
       case JMP => addm in {ABS, IND}
       case Branch(_) => i.mode == Relative
       case JSR => i.mode == Absolute
       case _ => i.mode == NoOperand
  }

  /** Only these operations have a LOAD phase. */
  lemma Loadable(i: Instr)
    requires Regular(i) && AddmOf(i) != IMM && AddmOf(i) != IMPLIED
    ensures i.op.Read? || i.op.Store? || i.op.Modify? || i.op == JMP
  {
  }

  lemma RegularColumns0(opcode: byte)
    requires InstrTable(opcode).Legal? && opcode % 0x20 < 4
    ensures Regular(InstrTable(opcode).instr)
  {
  }

  lemma RegularColumns1(opcode: byte)
    requires InstrTable(opcode).Legal? && 4 <= opcode % 0x20 < 8
    ensures Regular(InstrTable(opcode).instr)
  {
  }

  lemma RegularColumns2(opcode: byte)
    requires InstrTable(opcode).Legal? && 8 <= opcode % 0x20 < 0x0C
    ensures Regular(InstrTable(opcode).instr)
  {
  }

  lemma RegularColumns3(opcode: byte)
    requires InstrTable(opcode).Legal? && 0x0C <= opcode % 0x20 < 0x10
    ensures Regular(InstrTable(opcode).instr)
  {
  }

  lemma RegularColumns4(opcode: byte)
    requires InstrTable(opcode).Legal? && 0x10 <= opcode % 0x20 < 0x14
    ensures Regular(InstrTable(opcode).instr)
  {
  }

  lemma RegularColumns5(opcode: byte)
    requires InstrTable(opcode).Legal? && 0x14 <= opcode % 0x20 < 0x18
    ensures Regular(InstrTable(opcode).instr)
  {
  }

  lemma RegularColumns6(opcode: byte)
    requires InstrTable(opcode).Legal? && 0x18 <= opcode % 0x20 < 0x1C
    ensures Regular(InstrTable(opcode).instr)
  {
  }

  lemma RegularColumns7(opcode: byte)
    requires InstrTable(opcode).Legal? && 0x1C <= opcode % 0x20
    ensures Regular(InstrTable(opcode).instr)
  {
  }

  lemma TableIsRegular(opcode: byte)
    requires InstrTable(opcode).Legal?
    ensures Regular(InstrTable(opcode).instr)
  {
    hide InstrTable, Regular;
    match opcode % 0x20 / 4
    case 0 => RegularColumns0(opcode);
    case 1 => RegularColumns1(opcode);
    case 2 => RegularColumns2(opcode);
    case 3 => RegularColumns3(opcode);
    case 4 => RegularColumns4(opcode);
    case 5 => RegularColumns5(opcode);
    case 6 => RegularColumns6(opcode);
    case _ => RegularColumns7(opcode);
  }

  /** The operation of a documented opcode ending in 01, by its top three bits. */
  function AluOp(row: byte): Op {
    match row
    case 0 => Read(ORA) case 1 => Read(AND) case 2 => Read(EOR) case 3 => Read(ADC)
    case 4 => Store(STA) case 5 => Read(LDA) case 6 => Read(CMP) case _ => Read(SBC)
  }

  lemma AluRow(opcode: byte)
    requires InstrTable(opcode).Legal? && opcode % 4 == 1
    ensures InstrTable(opcode).instr.op == AluOp(opcode / 0x20)
  {
    match opcode % 0x20
    case 0x01 => case 0x05 => case 0x09 => case 0x0D => case 0x11 => case 0x15 => case 0x19 => case _ =>
  }

  // Classes of opcodes, by column (the low five bits) and half.
  predicate FlagOpcode(opcode: byte) { opcode % 0x20 == 0x18 && opcode != 0x98 }
  predicate BranchOpcode(opcode: byte) { opcode % 0x20 == 0x10 }
  predicate StackOpcode(opcode: byte) { opcode % 0x20 == 0x08 && opcode < 0x80 }
  predicate ShiftOpcode(opcode: byte) { opcode % 0x20 == 0x0A && opcode < 0x80 }
  predicate ControlOpcode(opcode: byte) { opcode % 0x20 == 0x00 && opcode < 0x80 }
  predicate CounterOpcode(opcode: byte) { opcode in {0x88, 0xC8, 0xCA, 0xE8, 0xEA} }
  predicate TransferOpcode(opcode: byte) {
    && !CounterOpcode(opcode)
    && match opcode % 0x20
       case 0x08 | 0x0A => opcode >= 0x80
       case 0x18 => opcode == 0x98
       case 0x1A => true
       case _ => false
  }
  predicate CtrlRowOpcode(opcode: byte) {
    match opcode % 0x20
    case 0x00 => opcode >= 0x80
    case 0x04 | 0x14 | 0x1C => true
    case 0x0C => opcode != 0x4C && opcode != 0x6C
    case _ => false
  }
  predicate RmwOpcode(opcode: byte) { opcode % 4 == 2 && opcode % 0x20 != 0x0A && opcode % 0x20 != 0x1A }

  function FlagOpAt(opcode: byte): Op {
    match opcode
    case 0x18 => Register(CLC)
    case 0x38 => Register(SEC)
    case 0x58 => Register(CLI)
    case 0x78 => Register(SEI)
    case 0xB8 => Register(CLV)
    case 0xD8 => Register(CLD)
    case _ => Register(SED)
  }

  lemma FlagOpcodes(opcode: byte)
    requires FlagOpcode(opcode) && InstrTable(opcode).Legal?
    ensures InstrTable(opcode).instr.op == FlagOpAt(opcode)
  {
  }

  function BranchOpAt(opcode: byte): Op {
    match opcode
    case 0x10 => Branch(BPL)
    case 0x30 => Branch(BMI)
    case 0x50 => Branch(BVC)
    case 0x70 => Branch(BVS)
    case 0x90 => Branch(BCC)
    case 0xB0 => Branch(BCS)
    case 0xD0 => Branch(BNE)
    case _ => Branch(BEQ)
  }

  /** The flag a branch looks at, and the value it branches on. */
  function BranchTest(opcode: byte, f: Flags): (bool, bool) {
    match opcode
    case 0x10 => (f.n, false)
    case 0x30 => (f.n, true)
    case 0x50 => (f.v, false)
    case 0x70 => (f.v, true)
    case 0x90 => (f.c, false)
    case 0xB0 => (f.c, true)
    case 0xD0 => (f.z, false)
    case _ => (f.z, true)
  }

  lemma BranchCondition(opcode: byte, f: Flags)
    ensures BranchOpAt(opcode).Branch?
    ensures Taken(BranchOpAt(opcode).branchOp, f) == (BranchTest(opcode, f).0 == BranchTest(opcode, f).1)
  {
  }

  lemma BranchOpcodes(opcode: byte)
    requires BranchOpcode(opcode) && InstrTable(opcode).Legal?
    ensures InstrTable(opcode).instr.op == BranchOpAt(opcode)
  {
  }

  function StackOpAt(opcode: byte): Op {
    match opcode
    case 0x08 => PHP
    case 0x28 => PLP
    case 0x48 => PHA
    case _ => PLA
  }

  lemma StackOpcodes(opcode: byte)
    requires StackOpcode(opcode) && InstrTable(opcode).Legal?
    ensures InstrTable(opcode).instr.op == StackOpAt(opcode)
  {
  }

  function TransferOpAt(opcode: byte): Op {
    match opcode
    case 0x8A => Register(TXA) case 0x98 => Register(TYA) case 0x9A => Register(TXS)
    case 0xA8 => Register(TAY) case 0xAA => Register(TAX) case _ => Register(TSX)
  }

  lemma TransferOpcodes(opcode: byte)
    requires TransferOpcode(opcode) && InstrTable(opcode).Legal?
    ensures InstrTable(opcode).instr.op == TransferOpAt(opcode)
    ensures opcode in {0x8A, 0x98, 0x9A, 0xA8, 0xAA, 0xBA}
  {
  }

  lemma TransferEffect(opcode: byte, s: Arch)
    requires opcode in {0x8A, 0x98, 0x9A, 0xA8, 0xAA, 0xBA}
    ensures TransferOpAt(opcode).Register?
    ensures DoRegister(TransferOpAt(opcode).registerOp, s) ==
            match opcode
            case 0x8A => SetFlagged(s, RegA, s.x) case 0x98 => SetFlagged(s, RegA, s.y)
            case 0xA8 => SetFlagged(s, RegY, s.a) case 0xAA => SetFlagged(s, RegX, s.a)
            case 0xBA => SetFlagged(s, RegX, s.s) case _ => s.(s := s.x)
  {
  }

  function CounterOpAt(opcode: byte): Op {
    match opcode
    case 0x88 => Register(DEY) case 0xC8 => Register(INY)
    case 0xCA => Register(DEX) case 0xE8 => Register(INX) case _ => Register(NOP)
  }

  lemma CounterOpcodes(opcode: byte)
    requires CounterOpcode(opcode) && InstrTable(opcode).Legal?
    ensures InstrTable(opcode).instr.op == CounterOpAt(opcode)
  {
  }

  function ShiftOpAt(opcode: byte): Op {
    match opcode
    case 0x0A => Modify(ASL)
    case 0x2A => Modify(ROL)
    case 0x4A => Modify(LSR)
    case _ => Modify(ROR)
  }

  lemma ShiftOpcodes(opcode: byte)
    requires ShiftOpcode(opcode) && InstrTable(opcode).Legal?
    ensures InstrTable(opcode).instr.op == ShiftOpAt(opcode)
  {
  }

  function ControlOpAt(opcode: byte): Op {
    match opcode
    case 0x00 => BRK
    case 0x20 => JSR
    case 0x40 => RTI
    case _ => RTS
  }

  lemma ControlOpcodes(opcode: byte)
    requires ControlOpcode(opcode) && InstrTable(opcode).Legal?
    ensures InstrTable(opcode).instr.op == ControlOpAt(opcode)
  {
  }

  /** The other opcodes ending in 00, and those ending in 10, go by row. */
  function CtrlRowOp(row: byte): Op {
    match row
    case 1 => Read(BIT) case 4 => Store(STY) case 5 => Read(LDY) case 6 => Read(CPY) case _ => Read(CPX)
  }

  lemma CtrlRow(opcode: byte)
    requires InstrTable(opcode).Legal? && CtrlRowOpcode(opcode)
    ensures InstrTable(opcode).instr.op == CtrlRowOp(opcode / 0x20)
  {
    match opcode % 0x20 case 0x00 => case 0x04 => case 0x0C => case 0x14 => case 0x1C => case _ =>
  }

  function RmwRowOp(row: byte): Op {
    match row
    case 0 => Modify(ASL) case 1 => Modify(ROL) case 2 => Modify(LSR) case 3 => Modify(ROR)
    case 4 => Store(STX) case 5 => Read(LDX) case 6 => Modify(DEC) case _ => Modify(INC)
  }

  lemma RmwRow(opcode: byte)
    requires InstrTable(opcode).Legal? && RmwOpcode(opcode)
    ensures InstrTable(opcode).instr.op == RmwRowOp(opcode / 0x20)
  {
    hide InstrTable;
    if opcode % 0x20 < 0x10 { RmwRowEven(opcode); } else { RmwRowOdd(opcode); }
  }

  lemma RmwRowEven(opcode: byte)
    requires InstrTable(opcode).Legal? && RmwOpcode(opcode) && opcode % 0x20 < 0x10
    ensures InstrTable(opcode).instr.op == RmwRowOp(opcode / 0x20)
  {
    hide OddRows, Column00, Column01, Column04, Column05, Column08, Column09, Column0A, Column0C, Column0D;
    match opcode % 0x20 case 0x02 => case 0x06 => case _ =>
  }

  lemma RmwRowOdd(opcode: byte)
    requires InstrTable(opcode).Legal? && RmwOpcode(opcode) && opcode % 0x20 >= 0x10
    ensures InstrTable(opcode).instr.op == RmwRowOp(opcode / 0x20)
  {
    hide EvenRows;
  }

  // The addressing modes of the documented opcodes, by column.

  lemma CtrlModes(opcode: byte)
    requires InstrTable(opcode).Legal? && opcode % 4 == 0
    ensures var m, c := AddmOf(InstrTable(opcode).instr), opcode % 0x20;
            && (c == 0x00 ==> m == if opcode / 0x20 < 4 then IMPLIED else IMM)
            && (c == 0x04 ==> m == ZP) && (c == 0x08 || c == 0x18 ==> m == IMPLIED)
            && (c == 0x0C ==> m == if opcode == 0x6C then IND else ABS)
            && (c == 0x10 ==> m == IMM) && (c == 0x14 ==> m == ZPX) && (c == 0x1C ==> m == ABSX)
  {
    match opcode % 0x20
    case 0x00 => case 0x04 => case 0x08 => case 0x0C => case 0x10 => case 0x14 => case 0x18 => case _ =>
  }

  lemma AluModes(opcode: byte)
    requires InstrTable(opcode).Legal? && opcode % 4 == 1
    ensures var m, c := AddmOf(InstrTable(opcode).instr), opcode % 0x20;
            && (c == 0x01 ==> m == INDX) && (c == 0x05 ==> m == ZP)
            && (c == 0x09 ==> m == IMM) && (c == 0x0D ==> m == ABS)
            && (c == 0x11 ==> m == INDY) && (c == 0x15 ==> m == ZPX) && (c == 0x19 ==> m == ABSY)
            && (c == 0x1D ==> m == ABSX)
  {
    match opcode % 0x20
    case 0x01 => case 0x05 => case 0x09 => case 0x0D => case 0x11 => case 0x15 => case 0x19 => case _ =>
  }

  lemma RmwModes(opcode: byte)
    requires InstrTable(opcode).Legal? && opcode % 4 == 2
    ensures var m, c := AddmOf(InstrTable(opcode).instr), opcode % 0x20;
            && (c == 0x02 ==> m == if opcode / 0x20 < 4 then IMPLIED else IMM)
            && (c == 0x06 ==> m == ZP) && (c == 0x0A || c == 0x12 || c == 0x1A ==> m == IMPLIED)
            && (c == 0x0E ==> m == ABS)
            && (c == 0x16 ==> m == if opcode == 0x96 || opcode == 0xB6 then ZPY else ZPX)
            && (c == 0x1E ==> m == if opcode / 0x20 == 4 || opcode / 0x20 == 5 then ABSY else ABSX)
  {
    match opcode % 0x20 case 0x02 => case 0x06 => case 0x0A => case 0x0E => case 0x16 => case 0x1A => case _ =>
  }

  /** Every documented opcode is one the dispatch of `Exec` knows. */
  lemma Coverage(opcode: byte)
    requires InstrTable(opcode).Legal?
    ensures || opcode % 4 == 1 || FlagOpcode(opcode) || BranchOpcode(opcode) || StackOpcode(opcode)
            || TransferOpcode(opcode) || CounterOpcode(opcode) || ShiftOpcode(opcode) || ControlOpcode(opcode)
            || opcode in {0x4C, 0x6C} || CtrlRowOpcode(opcode) || RmwOpcode(opcode)
  {
    hide Column00, Column01, Column02, Column04, Column05, Column06, Column08, Column09, Column0A, Column0C,
         Column0D, Column0E,
         Column10, Column11, Column14, Column15, Column16, Column18, Column19, Column1A, Column1C, Column1D, Column1E;
    assert opcode % 4 == opcode % 0x20 % 4;
  }

  lemma BreakAndJump(opcode: byte)
    requires InstrTable(opcode).Legal?
    ensures opcode == 0x00 <==> InstrTable(opcode).instr.op == BRK
    ensures opcode in {0x4C, 0x6C} <==> InstrTable(opcode).instr.op == JMP
  {
    Coverage(opcode);
    hide InstrTable;
    if opcode % 4 == 1 { AluRow(opcode); }
    else if FlagOpcode(opcode) { FlagOpcodes(opcode); }
    else if BranchOpcode(opcode) { BranchOpcodes(opcode); }
    else if StackOpcode(opcode) { StackOpcodes(opcode); }
    else if TransferOpcode(opcode) { TransferOpcodes(opcode); }
    else if CounterOpcode(opcode) { CounterOpcodes(opcode); }
    else if ShiftOpcode(opcode) { ShiftOpcodes(opcode); }
    else if ControlOpcode(opcode) { ControlOpcodes(opcode); }
    else if CtrlRowOpcode(opcode) { CtrlRow(opcode); }
    else if RmwOpcode(opcode) { RmwRow(opcode); }
    else { JumpOpcodes(opcode); }
  }

  lemma JumpOpcodes(opcode: byte)
    requires opcode in {0x4C, 0x6C}
    ensures InstrTable(opcode).Legal? && InstrTable(opcode).instr.op == JMP
  {
  }

  lemma JumpModes(opcode: byte)
    requires opcode in {0x4C, 0x6C}
    ensures InstrTable(opcode).Legal?
    ensures InstrTable(opcode).instr.mode == if opcode == 0x4C then Absolute else Indirect
  {
  }

  function ShiftResult(op: ModifyOp, v: byte, c: bool): byte {
    if op == ASL then Low(v * 2)
    else if op == ROL then Low(v * 2 + Bit(c))
    else if op == LSR then v / 2
    else Low(v / 2 + Bit(c) * 0x80)
  }

  lemma ShiftFlags(op: ModifyOp, v: byte, f: Flags)
    requires op !in {INC, DEC}
    ensures ShiftResult(op, v, f.c) == Modified(op, v, f.c)
    ensures ModifiedFlags(op, v, f) ==
      NZ(f, Modified(op, v, f.c)).(c := if op == ASL || op == ROL then v / 0x80 == 1 else v % 2 == 1)
  {
    hide Sign;
  }

  /** A reset sets I and jumps; unless it is the power-on one, S drops by three. */
  function ResetTo(s: Arch, warm: bool, pc: word): Arch {
    s.(pc := pc, s := if warm then Low(s.s - 3) else s.s, f := s.f.(i := true))
  }

  /** The state t of an interrupt entry from `base` with j of its cycles done. */
  predicate EntryAt(t: Arch, base: Arch, vector: word, brk: bool, j: nat)
    requires vector < 0xFFFF
  {
    var three := PushByte(PushWord(base, base.pc), Pack(base.f, brk));
    var masked := three.(f := three.f.(i := true));
    && (j <= 2 ==> t == base)
    && (j == 3 ==> t == PushByte(base, High(base.pc)))
    && (j == 4 ==> t == PushWord(base, base.pc))
    && (j == 5 ==> t == masked)
    && (j == 6 ==> t == masked.(pc := masked.ram[vector]))
  }

  // ---------------------------------------------------------------- jobs

  /** What a job started at boundary state s leaves behind. */
  function Outcome(job: Job, s: Arch, warm: bool): Arch {
    match job
    case Instruction => (match Next(s) case Legal(i) => Execute(i, s) case Illegal => s)
    case Service(flag) =>
      if flag == RESET then ResetTo(s, warm, VectorAt(s.ram, RESET_VECTOR))
      else Enter(s, VectorOf(flag), false)
  }

  function Duration(job: Job, s: Arch): nat {
    match job
    case Instruction => (match Next(s) case Legal(i) => Cycles(i, s) case Illegal => 0)
    case Service(_) => 7
  }

  /** Completing a job acknowledges the interrupt whose vector it used; BRK uses
      the vector of IRQ. */
  predicate Acknowledges(job: Job, s: Arch, line: InterruptFlag) {
    job == Service(line) || (job == Instruction && line == IRQ && Next(s).Legal? && Next(s).instr.op == BRK)
  }

  class CPU {
    var pc: word
    var a: byte
    var x: byte
    var y: byte
    var s: byte
    var p: Status
    var tsc: nat
    var state: State
    var ram: Ram
    var cold: bool
    var addm: AddressingMode
    var iflag: InterruptFlag
    var rnmi: bool
    var rirq: bool
    var rbrk: bool
    var cbrk: bool
    var intc: bool
    var hlt: bool
    var cycleCount: byte
    var opcode: byte
    var wv0: byte
    var wv1: byte
    var page: byte
    var av: word

    // The boundary the current job started from, and what it will do.
    ghost var start: Arch
    ghost var t0: nat
    ghost var job: Job
    ghost var instr: Instr
    ghost var target: Target
    ghost var warm: bool

    function Arch(): Arch
      reads `pc, `a, `x, `y, `s, `p, `ram
    {
      Isa.Arch(a, x, y, s, pc, p.Flags(), ram)
    }

    function Wv(): word
      reads `wv0, `wv1
    {
      Pair(wv1, wv0)
    }

    // -------------------------------------------------------------- invariant

    ghost predicate AtBoundary()
      reads `state, `intc
    {
      state == FETCH && !intc
    }

    /** The boundary state with pc moved past the operand. */
    ghost function Base(): Arch
      reads `start, `target
    {
      start.(pc := target.pc)
    }

    /** The LOAD state with j of its cycles done. */
    ghost predicate Loading(j: nat)
      reads `pc, `a, `x, `y, `s, `p, `ram, `start, `addm, `page, `av, `wv0, `wv1
    {
      match addm
      case IMPLIED | IMM => false
      case ZP | ZPX | ZPY | ABS => LoadingDirect(j)
      case ABSX => LoadingIndexed(start.x, j)
      case ABSY => LoadingIndexed(start.y, j)
      case IND => LoadingIndirect(j)
      case INDX => LoadingPointerX(j)
      case INDY => LoadingPointerY(j)
    }

    ghost predicate Waiting(now: int)
      reads `pc, `a, `x, `y, `s, `p, `ram, `start, `page
    {
      Arch() == start.(pc := Trunc(now)) && page == 0
    }

    ghost predicate LoadingDirect(j: nat)
      reads `pc, `a, `x, `y, `s, `p, `ram, `start, `addm, `page, `av, `wv0, `wv1
    {
      var p1 := start.pc + 1;
      && Waiting(p1)
      && j < LoadCycles(addm, 0)
      && av == Trunc(if addm == ABS then p1 + j else p1)
      && (j == 1 ==> wv0 == start.ram[Trunc(p1)])
    }

    ghost predicate LoadingIndexed(index: byte, j: nat)
      reads `pc, `a, `x, `y, `s, `p, `ram, `start, `addm, `page, `av, `wv0, `wv1
    {
      var m, p1 := start.ram, start.pc + 1;
      && j <= 2
      && (j <= 1 ==> Waiting(p1) && av == Trunc(p1 + j))
      && (j == 1 ==> wv0 == m[Trunc(p1)])
      && (j == 2 ==>
            && Arch() == start.(pc := Trunc(p1)) && page == 1
            && m[Trunc(p1)] + index > 0xFF && wv0 == Low(m[Trunc(p1)] + index) && wv1 == m[Trunc(p1 + 1)])
    }

    ghost predicate LoadingIndirect(j: nat)
      reads `pc, `a, `x, `y, `s, `p, `ram, `start, `addm, `page, `av, `wv0, `wv1
    {
      var m, p1 := start.ram, start.pc + 1;
      var low, high := m[Trunc(p1)], m[Trunc(p1 + 1)];
      && j <= 3
      && Waiting(p1)
      && (j <= 1 ==> av == Trunc(p1 + j))
      && (1 <= j <= 2 ==> wv0 == low)
      && (j >= 2 ==> wv1 == high)
      && (j == 3 ==> wv0 == Succ(low) && av == m[Pair(high, low)])
    }

    ghost predicate LoadingPointerX(j: nat)
      reads `pc, `a, `x, `y, `s, `p, `ram, `start, `addm, `page, `av, `wv0, `wv1
    {
      var m, p1 := start.ram, start.pc + 1;
      var z: int := Low(m[Trunc(p1)] + start.x);
      && j <= 3
      && Waiting(p1)
      && (j == 0 ==> av == Trunc(p1))
      && (j == 1 ==> av == m[Trunc(p1)])
      && (j == 2 ==> av == z)
      && (j == 3 ==> av == z + 1 && wv0 == m[z])
    }

    ghost predicate LoadingPointerY(j: nat)
      reads `pc, `a, `x, `y, `s, `p, `ram, `start, `addm, `page, `av, `wv0, `wv1
    {
      var m, p1 := start.ram, start.pc + 1;
      var z: int := m[Trunc(p1)];
      && j <= 3
      && (j == 0 ==> Waiting(p1) && av == Trunc(p1))
      && (1 <= j <= 2 ==> Waiting(p1 + 1))
      && (j == 1 ==> av == z)
      && (j == 2 ==> av == z + 1 && wv0 == m[z])
      && (j == 3 ==>
            && Arch() == start.(pc := Trunc(p1 + 1)) && page == 1
            && m[z] + start.y > 0xFF && wv0 == Low(m[z] + start.y) && wv1 == m[Succ(z)])
    }

    /** The address phase is over: (wv1, wv0) is the effective address, pc is past
        the operand and `page` says whether indexing crossed. */
    ghost predicate Located()
      reads `pc, `a, `x, `y, `s, `p, `ram, `addm, `page, `wv0, `wv1, `target, `start
    {
      Wv() == target.ea && Arch() == Base() && page == Bit(Indexed(addm) && target.crossed)
    }

    /** A store before cycle j; without a page crossing the first one is a dummy. */
    ghost predicate Storing(j: nat)
      reads `pc, `a, `x, `y, `s, `p, `ram, `addm, `page, `wv0, `wv1, `target, `start
    {
      Located() && (j == 0 || (j == 1 && page == 0 && Indexed(addm)))
    }

    /** A read-modify-write before cycle j; cycle 1 happens only in the mode
        (absolute,X) without a page crossing. The shifts compute in cycle 2, the
        counters in cycle 3. */
    ghost predicate Modifying(op: ModifyOp, j: nat)
      reads `pc, `a, `x, `y, `s, `p, `ram, `addm, `page, `av, `wv0, `wv1, `target, `start
    {
      var v := start.ram[target.ea];
      && j <= 3
      && page == Bit(Indexed(addm) && target.crossed)
      && (if j == 0 then Wv() == target.ea else av == target.ea)
      && (j == 1 ==> addm == ABSX && page == 0)
      && if j == 3 && op !in {INC, DEC} then
           && wv0 == Modified(op, v, start.f.c)
           && Arch() == Base().(f := ModifiedFlags(op, v, start.f))
         else
           (j > 0 ==> wv0 == v) && Arch() == Base()
    }

    ghost predicate Branching(op: BranchOp, j: nat)
      reads `pc, `a, `x, `y, `s, `p, `ram, `wv0, `wv1, `target, `start
    {
      var p1 := Trunc(start.pc + 1);
      && (if j == 2 then Arch() == start.(pc := target.ea) else Arch() == Base())
      && if j == 0 then Wv() == p1 else
         j <= 2 && Taken(op, start.f) && wv0 == start.ram[p1] && (j == 2 ==> target.crossed)
    }

    ghost predicate Calling(j: nat)
      reads `pc, `a, `x, `y, `s, `p, `ram, `wv0, `av, `target, `start
    {
      var p1, last := Trunc(start.pc + 1), Trunc(start.pc + 2);
      if j == 0 then av == p1 && Arch() == start.(pc := p1) else
      && j <= 4 && wv0 == start.ram[p1] && av == last
      && var back := start.(pc := last);
         && (j < 3 ==> Arch() == Base())
         && (j == 3 ==> Arch() == PushByte(back, High(last)))
         && (j == 4 ==> Arch() == PushWord(back, last))
    }

    ghost predicate Returning(rts: bool, j: nat)
      reads `pc, `a, `x, `y, `s, `p, `ram, `target, `start
    {
      var one := if rts then Base() else PullFlags(Base());
      var two := Drop(one);
      && j <= 4
      && (j <= 2 ==> Arch() == Base())
      && (j == 3 ==> Arch() == if rts then two.(pc := Top(one)) else one)
      && (j == 4 ==> Arch() == if rts then Drop(two).(pc := Pair(Top(two), Top(one))) else two.(pc := Top(one)))
    }

    /** The EXECUTE state with cycle counter j. */
    ghost predicate Executing(j: nat)
      reads `pc, `a, `x, `y, `s, `p, `ram, `start, `addm, `page, `av, `wv0, `wv1, `instr, `target
    {
      match instr.op
      case Read(_) | JMP => j == 0 && Located()
      case Store(_) => Storing(j)
      case Modify(op) => if addm == IMPLIED then j == 0 && Arch() == Base() else Modifying(op, j)
      case Branch(op) => Branching(op, j)
      case JSR => Calling(j)
      case RTS | RTI => Returning(instr.op == RTS, j)
      case PHA | PHP => j <= 1 && Arch() == Base()
      case PLA | PLP => j <= 2 && Arch() == Base()
      case Register(_) | BRK => j == 0 && Arch() == Base()
    }

    /** The value of the cycle counter in the last cycle of the instruction. */
    ghost function LastCycle(): nat
      reads `addm, `page, `instr, `target, `start
    {
      match instr.op
      case Read(_) | Register(_) | JMP | BRK => 0
      case Store(_) => Bit(page == 0 && Indexed(addm))
      case Modify(_) => if addm == IMPLIED then 0 else 3
      case Branch(op) => if !Taken(op, start.f) then 0 else 1 + Bit(target.crossed)
      case JSR | RTS | RTI => 4
      case PHA | PHP => 1
      case PLA | PLP => 2
    }

    /** Cycles spent since the boundary, in the EXECUTE state. */
    ghost function Spent(j: nat): int
      reads `addm, `page, `instr
    {
      1 + LoadCycles(addm, page) +
      match instr.op
      case JMP => -1      // jumps execute inside their last LOAD cycle
      case Modify(_) => if j > 0 && !(addm == ABSX && page == 0) then j - 1 else j
      case _ => j
    }

    /** The state an interrupt entry pushes. */
    ghost function EntryBase(): Arch
      reads `start, `job
    {
      if job == Instruction then start.(pc := Trunc(start.pc + 2)) else start
    }

    /** The interrupt sequencer with j of its cycles done. A BRK is an entry for
        the IRQ vector that carries `cbrk`. */
    ghost predicate Entering(j: nat)
      reads `pc, `a, `x, `y, `s, `p, `ram, `start, `job, `iflag, `cbrk, `cold, `warm
    {
      var brk := job == Instruction;
      && j <= 6
      && iflag != INONE
      && (if brk then iflag == IRQ && j >= 2 else job == Service(iflag))
      && cbrk == (brk && j <= 4)
      && if iflag == RESET then
           && cold == (!warm && j <= 2)
           && (j <= 2 ==> Arch() == start)
           && (3 <= j <= 5 ==> Arch() == ResetTo(start, warm, start.pc))
           && (j == 6 ==> Arch() == ResetTo(start, warm, start.ram[RESET_VECTOR]))
         else
           !cold && EntryAt(Arch(), EntryBase(), VectorOf(iflag), brk, j)
    }

    ghost predicate Valid()
      reads this
    {
      && !hlt && !rbrk
      && (intc <==> iflag != INONE)
      && if intc then ValidEntry() else
         && !cbrk && !cold
         && match state
            case FETCH => cycleCount == 0 && tsc == t0 && Arch() == start
            case LOAD => ValidLoad()
            case EXECUTE => ValidExecute()
    }

    ghost predicate ValidEntry()
      reads `tsc, `t0, `cycleCount, `state, `iflag, `cbrk, `cold, `warm, `pc, `a, `x, `y, `s, `p, `ram, `job,
            `opcode, `instr, `target, `start, `addm
    {
      && tsc == t0 + cycleCount && Entering(cycleCount)
      && (if job == Instruction then state == EXECUTE && Working() && instr.op == BRK else state == FETCH)
    }

    ghost predicate ValidLoad()
      reads `tsc, `t0, `cycleCount, `page, `av, `wv0, `wv1, `pc, `a, `x, `y, `s, `p, `ram,
            `job, `opcode, `instr, `target, `start, `addm
    {
      && job == Instruction && Working()
      && (instr.op.Read? || instr.op.Store? || instr.op.Modify? || instr.op == JMP)
      && Loading(cycleCount) && tsc == t0 + 1 + cycleCount
    }

    ghost predicate ValidExecute()
      reads `tsc, `t0, `cycleCount, `page, `av, `wv0, `wv1, `pc, `a, `x, `y, `s, `p, `ram,
            `job, `opcode, `instr, `target, `start, `addm
    {
      job == Instruction && Working() && instr.op != JMP && Executing(cycleCount) && tsc == t0 + Spent(cycleCount)
    }

    /** A documented instruction has been fetched. */
    ghost predicate Working()
      reads `job, `opcode, `instr, `target, `start, `addm
    {
      && job == Instruction && opcode == start.ram[start.pc]
      && InstrTable(opcode) == Legal(instr) && Regular(instr)
      && addm == AddmOf(instr) && target == Resolve(instr.mode, Fetched(start))
    }

    /** What the core starts at a boundary: a pending NMI first, then an unmasked
        IRQ, then the next instruction. */
    ghost function NextJob(): Job
      reads `rnmi, `rirq, `p
    {
      if rnmi then Service(NMI) else if rirq && !p.interrupt then Service(IRQ) else Instruction
    }

    ghost function CurrentJob(): Job
      reads this
    {
      if AtBoundary() then NextJob() else job
    }

    // -------------------------------------------------------------- small steps

    function Get(reg: Reg): byte
      reads `a, `x, `y
    {
      match reg case RegA => a case RegX => x case RegY => y
    }

    method Set(reg: Reg, v: byte)
      modifies `a, `x, `y
      ensures a == if reg == RegA then v else old(a)
      ensures x == if reg == RegX then v else old(x)
      ensures y == if reg == RegY then v else old(y)
    {
      match reg case RegA => a := v; case RegX => x := v; case RegY => y := v;
    }

    method PushTo(v: byte)
      modifies `ram, `s
      ensures Arch() == PushByte(old(Arch()), v)
    {
      ram := ram[0x100 + s := v];
      s := Low(s - 1);
    }

    method Pop() returns (v: byte)
      modifies `s
      ensures v == Top(old(Arch())) && Arch() == Drop(old(Arch()))
    {
      s := Low(s + 1);
      v := ram[0x100 + s];
    }

    /** The macro P_CHAR, with bit 4 forced to `brk` and bit 5 to one. */
    function PChar(brk: bool): (r: byte)
      reads `p
      ensures r == Pack(p.Flags(), brk)
    {
      Bit(p.carry) + 2 * Bit(p.zero) + 4 * Bit(p.interrupt) + 8 * Bit(p.decimal)
      + 0x10 * Bit(brk) + 0x20 + 0x40 * Bit(p.overflow) + 0x80 * Bit(p.negative)
    }

    method OPlp()
      modifies `p, `s, `state
      ensures cycleCount < 2 ==> Arch() == old(Arch()) && state == old(state)
      ensures cycleCount >= 2 ==> Arch() == PullFlags(old(Arch())) && state == FETCH
    {
      if cycleCount < 2 { return; }
      var v := Pop();
      p := Status(v % 2 == 1, v / 2 % 2 == 1, v / 4 % 2 == 1, v / 8 % 2 == 1,
                  false, true, v / 0x40 % 2 == 1, v / 0x80 % 2 == 1);
      state := FETCH;
    }

    /** Where the cycle counter goes after the first cycle of a read-modify-write. */
    ghost function Skip(j: byte): byte
      reads `addm, `page
    {
      if j == 0 && (addm != ABSX || page != 0) then 1 else j
    }

    // -------------------------------------------------------------- the sequencer

    /** One cycle of the interrupt sequencer. */
    method Interrupt()
      requires intc && iflag != INONE
      requires if rbrk then cycleCount == 0 && BrkStarting() else Entering(cycleCount)
      modifies `pc, `s, `p, `ram, `cold, `intc, `rbrk, `cbrk, `cycleCount
      ensures !rbrk
      ensures if old(rbrk) then intc && cycleCount == 1 && Entering(2)
              else if old(cycleCount) < 6 then intc && cycleCount == old(cycleCount) && Entering(cycleCount + 1)
              else !intc && !cbrk && !cold && Arch() == Entered()
    {
      hide Entered, PushByte, PushWord, Pack;
      match cycleCount {
        case 0 =>
          if rbrk {
            cbrk := true;
            rbrk := false;
            cycleCount := cycleCount + 1;
          }
        case 1 =>
        case 2 | 3 | 4 => PushCycle();
        case _ => VectorCycle();
      }
    }

    /** Cycles 2 to 4: the three pushes, or the three skipped by a reset. */
    method PushCycle()
      requires intc && 2 <= cycleCount <= 4 && Entering(cycleCount)
      modifies `s, `p, `ram, `cold, `cbrk
      ensures Entering(cycleCount + 1)
    {
      hide Pack, PChar, Trunc, High, Low;
      match cycleCount {
        case 2 =>
          if iflag != RESET {
            PushTo(High(pc));
          } else {
            p := p.(interrupt := true);
            if !cold { s := Low(s - 3); } else { cold := false; }
          }
        case 3 =>
          if iflag != RESET { PushTo(Low(pc)); }
        case _ =>
          if iflag != RESET {
            PushTo(PChar(cbrk));
            p := p.(interrupt := true);
            cbrk := false;
          }
      }
    }

    /** Cycles 5 and 6: the two halves of the vector. */
    method VectorCycle()
      requires intc && 5 <= cycleCount <= 6 && Entering(cycleCount)
      modifies `pc, `intc
      ensures if cycleCount == 5 then intc && Entering(6) else !intc && Arch() == Entered()
    {
      hide PushByte, PushWord, Pack, Pair, Low;
      LowOfByte(pc);
      if cycleCount == 5 {
        pc := ram[VectorOf(iflag)];
      } else {
        pc := Pair(ram[VectorOf(iflag) + 1], Low(pc));
        intc := false;
      }
    }

    /** BRK has raised its flags and not yet pushed anything. */
    ghost predicate BrkStarting()
      reads `pc, `a, `x, `y, `s, `p, `ram, `start, `job, `iflag, `cold
    {
      iflag == IRQ && job == Instruction && !cold && Arch() == EntryBase()
    }

    /** The outcome of a completed entry. */
    ghost function Entered(): Arch
      reads `start, `job, `iflag, `warm
    {
      if iflag == RESET then ResetTo(start, warm, VectorAt(start.ram, RESET_VECTOR))
      else Enter(EntryBase(), VectorOf(iflag), job == Instruction)
    }

    // -------------------------------------------------------------- operations

    method OAdc()
      modifies `a, `p, `state
      ensures Arch() == Adc(old(Arch()), ram[Wv()]) && state == FETCH
    {
      hide AddDecimal, AddBinary;
      var m := ram[Wv()];
      if p.decimal { AdcDecimal(m); } else { AdcBinary(m); }
      state := FETCH;
    }

    method AdcDecimal(m: byte)
      modifies `a, `p
      ensures Arch() == Accumulate(old(Arch()), AddDecimal(old(a), m, old(p).carry))
    {
      hide AddDecimal, AddBinary, Low, Sign, Nibble;
      AddSplit(a, m, p.carry);
      AddOverflow(a, m, p.carry);
      var oldA, carry := a, Bit(p.carry);
      var binResult := Low(oldA + m + carry);
      var low, high := oldA % 0x10 + m % 0x10 + carry, oldA / 0x10 + m / 0x10;
      if low > 9 { low, high := low - 10, high + 1; }
      var result := Low(high * 0x10) + Nibble(low);
      p := p.(zero := binResult == 0, negative := Sign(result),
              overflow := AddV(Sign(oldA), Sign(m), Sign(result)));
      if high > 9 {
        result := Low(result - 0xA0);
        p := p.(carry := true);
      } else {
        p := p.(carry := false);
      }
      a := result;
    }

    method AdcBinary(m: byte)
      modifies `a, `p
      ensures Arch() == Accumulate(old(Arch()), AddBinary(old(a), m, old(p).carry))
    {
      hide AddBinary, Low, Sign;
      AddOverflow(a, m, p.carry);
      var r := m + a + Bit(p.carry);
      p := p.(carry := r > 0xFF, overflow := AddV(Sign(a), Sign(m), Sign(r)));
      a := Low(r);
      p := p.Update(a);
    }

    method OSbc()
      modifies `a, `p, `state
      ensures Arch() == Sbc(old(Arch()), ram[Wv()]) && state == FETCH
    {
      hide SubDecimal, SubBinary;
      var m := ram[Wv()];
      if p.decimal { SbcDecimal(m); } else { SbcBinary(m); }
      state := FETCH;
    }

    method SbcDecimal(m: byte)
      modifies `a, `p
      ensures Arch() == Accumulate(old(Arch()), SubDecimal(old(a), m, old(p).carry))
    {
      hide SubDecimal, SubBinary, Low, Sign, Nibble;
      SubSplit(a, m, p.carry);
      SubComplement(a, m, p.carry);
      var oldA, carry := a, Bit(p.carry);
      var binResult := Low(oldA + (0xFF - m) + carry);
      var low, high := oldA % 0x10 - m % 0x10 - (1 - carry), oldA / 0x10 - m / 0x10;
      if low < 0 { low, high := low + 10, high - 1; }
      var result := Low(high * 0x10) + Nibble(low);
      p := p.(zero := binResult == 0, negative := Sign(result),
              overflow := SubV(Sign(oldA), Sign(m), Sign(result)));
      if high < 0 {
        result := Low(result + 0xA0);
        p := p.(carry := false);
      } else {
        p := p.(carry := true);
      }
      a := result;
    }

    method SbcBinary(m: byte)
      modifies `a, `p
      ensures Arch() == Accumulate(old(Arch()), SubBinary(old(a), m, old(p).carry))
    {
      hide SubBinary, Low, Sign;
      SubComplement(a, m, p.carry);
      var r := a + (0xFF - m) + Bit(p.carry);
      var v := Sign(a) != Sign(r) && Sign(0xFF - m) != Sign(r);
      p := p.(carry := r > 0xFF, overflow := v);
      a := Low(r);
      p := p.Update(a);
    }

    method OAnd()
      modifies `a, `p, `state
      ensures Arch() == LoadA(old(Arch()), BitAnd(old(a), ram[Wv()])) && state == FETCH
    {
      a := BitAnd(a, ram[Wv()]);
      p := p.Update(a);
      state := FETCH;
    }

    method OEor()
      modifies `a, `p, `state
      ensures Arch() == LoadA(old(Arch()), BitXor(old(a), ram[Wv()])) && state == FETCH
    {
      a := BitXor(a, ram[Wv()]);
      p := p.Update(a);
      state := FETCH;
    }

    method OOra()
      modifies `a, `p, `state
      ensures Arch() == LoadA(old(Arch()), BitOr(old(a), ram[Wv()])) && state == FETCH
    {
      a := BitOr(a, ram[Wv()]);
      p := p.Update(a);
      state := FETCH;
    }

    method OBit()
      modifies `p, `state
      ensures Arch() == BitTest(old(Arch()), ram[Wv()]) && state == FETCH
    {
      var m := ram[Wv()];
      p := p.(overflow := m / 0x40 % 2 == 1, negative := m / 0x80 % 2 == 1);
      p := p.(zero := BitAnd(a, m) == 0);
      state := FETCH;
    }

    method OCp(reg: Reg)
      modifies `p, `state
      ensures Arch() == Compare(old(Arch()), Get(reg), ram[Wv()]) && state == FETCH
    {
      var r: int, m: int := Get(reg), ram[Wv()];
      m := Low(r - m);
      p := p.Update(m);
      p := p.(carry := r >= m);
      state := FETCH;
    }

    method OLd(reg: Reg)
      modifies `a, `x, `y, `s, `p, `state
      ensures Arch() == SetFlagged(old(Arch()), reg, ram[Wv()]) && state == FETCH
    {
      var m := ram[Wv()];
      Set(reg, m);
      p := p.Update(m);
      state := FETCH;
    }

    method OSt(reg: Reg)
      requires Storing(cycleCount)
      modifies `av, `ram, `state
      ensures if old(cycleCount) < Bit(page == 0 && Indexed(addm)) then state == old(state) && Arch() == old(Arch())
              else state == FETCH && Arch() == old(Arch()).(ram := old(ram)[Wv() := Get(reg)])
    {
      av := Wv();
      if cycleCount == 0 && page == 0 && (addm == INDY || addm == ABSY || addm == ABSX) {
        return;
      }
      ram := ram[av := Get(reg)];
      state := FETCH;
    }

    /** The shift itself, with the flags it sets: the part the four shift
        instructions do not share. */
    method Shift(op: ModifyOp, v: byte) returns (r: byte)
      requires op !in {INC, DEC}
      modifies `p
      ensures r == Modified(op, v, old(p).carry)
      ensures p.Flags() == ModifiedFlags(op, v, old(p).Flags())
    {
      hide Sign, ModifiedFlags, Modified, ShiftResult;
      ShiftFlags(op, v, p.Flags());
      var carry := if op == ASL || op == ROL then v / 0x80 == 1 else v % 2 == 1;
      r := ShiftResult(op, v, p.carry);
      p := p.(carry := carry);
      p := p.Update(r);
    }

    method OShift(op: ModifyOp)
      requires op !in {INC, DEC}
      requires addm == IMPLIED || Modifying(op, cycleCount)
      modifies `a, `p, `state, `av, `wv0, `ram, `cycleCount
      ensures addm == IMPLIED ==>
        Arch() == ModifyA(op, old(Arch())) && state == FETCH && cycleCount == old(cycleCount)
      ensures addm != IMPLIED ==>
        && cycleCount == Skip(old(cycleCount))
        && if old(cycleCount) < 3 then state == old(state) && Modifying(op, cycleCount + 1)
           else state == FETCH && Arch() == ModifyAt(op, Base(), target.ea)
    {
      if addm == IMPLIED {
        hide Modified, ModifiedFlags;
        a := Shift(op, a);
        state := FETCH;
      } else {
        hide Modifying, ModifyAt;
        ShiftMemory(op);
      }
    }

    method ShiftMemory(op: ModifyOp)
      requires op !in {INC, DEC} && Modifying(op, cycleCount)
      modifies `p, `state, `av, `wv0, `ram, `cycleCount
      ensures cycleCount == Skip(old(cycleCount))
      ensures if old(cycleCount) < 3 then state == old(state) && Modifying(op, cycleCount + 1)
              else state == FETCH && Arch() == ModifyAt(op, Base(), target.ea)
    {
      hide Modified, ModifiedFlags;
      match cycleCount
      case 0 =>
        av := Wv();
        wv0 := ram[av];
        if addm != ABSX || page != 0 { cycleCount := cycleCount + 1; }
      case 1 =>
      case 2 =>
        ram := ram[av := wv0];
        wv0 := Shift(op, wv0);
      case _ =>
        ram := ram[av := wv0];
        state := FETCH;
    }

    /** INC and DEC. */
    method OCount(op: ModifyOp)
      requires op in {INC, DEC} && Modifying(op, cycleCount)
      modifies `p, `state, `av, `wv0, `ram, `cycleCount
      ensures cycleCount == Skip(old(cycleCount))
      ensures if old(cycleCount) < 3 then state == old(state) && Modifying(op, cycleCount + 1)
              else state == FETCH && Arch() == ModifyAt(op, Base(), target.ea)
    {
      hide Low, Sign, Pair;
      match cycleCount
      case 0 =>
        av := Wv();
        wv0 := ram[av];
        if addm != ABSX || page != 0 { cycleCount := cycleCount + 1; }
      case 1 =>
      case 2 => ram := ram[av := wv0];
      case _ =>
        wv0 := if op == INC then Low(wv0 + 1) else Low(wv0 - 1);
        ram := ram[av := wv0];
        p := p.Update(wv0);
        state := FETCH;
    }

    method OJmp()
      modifies `pc, `state
      ensures Arch() == old(Arch()).(pc := Wv()) && state == FETCH
    {
      pc := Wv();
      state := FETCH;
    }

    method OJsr()
      requires Calling(cycleCount) && target.pc == Trunc(start.pc + 3)
      modifies `pc, `s, `ram, `av, `wv0, `wv1, `state
      ensures if old(cycleCount) < 4 then state == old(state) && Calling(cycleCount + 1)
              else state == FETCH && Arch() == CallTo(Base(), start.ram[Trunc(start.pc + 1)])
    {
      hide CallTo, Trunc;
      TruncTrunc(start.pc + 1, 1);
      TruncTrunc(start.pc + 1, 2);
      TruncTrunc(start.pc + 3, -1);
      match cycleCount
      case 0 =>
        wv0 := ram[av];
        av := Trunc(av + 1);
        pc := Trunc(pc + 2);
      case 1 =>
      case 2 =>
        pc := Trunc(pc - 1);
        PushTo(High(pc));
      case 3 => PushTo(Low(pc));
      case _ => JsrJump();
    }

    lemma LowOfByte(v: word)
      ensures v < 0x100 ==> Low(v) == v
    {
    }

    /** The last cycle of JSR reads the high byte after the pushes. */
    method JsrJump()
      requires Calling(4) && target.pc == Trunc(start.pc + 3)
      modifies `pc, `wv1, `state
      ensures state == FETCH && Arch() == CallTo(Base(), start.ram[Trunc(start.pc + 1)])
    {
      hide Trunc, Pair, High, Low;
      TruncTrunc(start.pc + 3, -1);
      wv1 := ram[av];
      pc := Wv();
      state := FETCH;
    }

    method OBrk()
      requires !intc && !rbrk && !cold && job == Instruction && cycleCount == 0
      requires Arch() == start.(pc := Trunc(start.pc + 1))
      modifies `pc, `s, `p, `ram, `cold, `intc, `rbrk, `cbrk, `iflag, `cycleCount
      ensures !rbrk && intc && iflag == IRQ && cycleCount == 1 && Entering(2)
    {
      pc := Trunc(pc + 1);
      intc := true;
      rbrk := true;
      iflag := IRQ;  // not an IRQ, but it uses the IRQ vector
      Interrupt();
    }

    method ORts()
      requires state == EXECUTE && Returning(true, cycleCount)
      modifies `pc, `s, `state
      ensures if old(cycleCount) < 4 then state == EXECUTE && Returning(true, cycleCount + 1)
              else state == FETCH && Arch() == PullPc(Base(), 1)
    {
      hide Pair, Low, Trunc;
      LowOfByte(pc);
      match cycleCount
      case 0 | 1 =>
      case 2 => pc := Pop();
      case 3 =>
        var high := Pop();
        pc := Pair(high, Low(pc));
      case _ =>
        pc := Trunc(pc + 1);
        state := FETCH;
    }

    method ORti()
      requires state == EXECUTE && Returning(false, cycleCount)
      modifies `pc, `s, `p, `state
      ensures if old(cycleCount) < 4 then state == EXECUTE && Returning(false, cycleCount + 1)
              else state == FETCH && Arch() == PullPc(PullFlags(Base()), 0)
    {
      hide Pair, Low, Unpack;
      LowOfByte(pc);
      match cycleCount
      case 0 | 1 | 2 =>
        OPlp();
        state := EXECUTE;
      case 3 => pc := Pop();
      case _ =>
        var high := Pop();
        pc := Pair(high, Low(pc));
        state := FETCH;
    }

    method OPhp()
      modifies `s, `ram, `state
      ensures cycleCount == 0 ==> Arch() == old(Arch()) && state == old(state)
      ensures cycleCount != 0 ==> Arch() == PushByte(old(Arch()), Pack(old(Arch()).f, true)) && state == FETCH
    {
      if cycleCount == 0 { return; }
      PushTo(PChar(true));
      state := FETCH;
    }

    method OPh(value: byte)
      modifies `s, `ram, `state
      ensures cycleCount == 0 ==> Arch() == old(Arch()) && state == old(state)
      ensures cycleCount != 0 ==> Arch() == PushByte(old(Arch()), value) && state == FETCH
    {
      if cycleCount == 0 { return; }
      PushTo(value);
      state := FETCH;
    }

    method OPl(reg: Reg)
      modifies `a, `x, `y, `s, `p, `state
      ensures cycleCount < 2 ==> Arch() == old(Arch()) && state == old(state)
      ensures cycleCount >= 2 ==> Arch() == SetFlagged(Drop(old(Arch())), reg, Top(old(Arch()))) && state == FETCH
    {
      if cycleCount < 2 { return; }
      var v := Pop();
      Set(reg, v);
      p := p.Update(v);
      state := FETCH;
    }

    method OTxs()
      modifies `s, `state
      ensures Arch() == old(Arch()).(s := x) && state == FETCH
    {
      s := x;
      state := FETCH;
    }

    method ONop()
      modifies `state
      ensures state == FETCH
    {
      state := FETCH;
    }

    method OBr(flag: bool, v: bool)
      requires instr.op.Branch? && Branching(instr.op.branchOp, cycleCount)
      requires Taken(instr.op.branchOp, start.f) == (flag == v)
      requires target == ResolveRelative(Fetched(start))
      modifies `pc, `av, `wv0, `page, `state
      ensures var last := if flag == v then 1 + Bit(target.crossed) else 0;
              if old(cycleCount) < last then state == old(state) && Branching(instr.op.branchOp, cycleCount + 1)
              else state == FETCH && Arch() == if flag == v then start.(pc := target.ea) else Base()
    {
      if cycleCount == 0 {
        av := Wv();
        wv0 := ram[av];
        av := Trunc(av + 1);
        if flag != v { state := FETCH; }
      } else if cycleCount == 1 {
        var tmp := High(pc);
        pc := Trunc(pc + Signed(wv0));
        if tmp != High(pc) {
          page := 1;
          return;
        }
        page := 0;
        state := FETCH;
      } else {
        state := FETCH;
      }
    }

    method OFl(name: FlagName, value: bool)
      requires name == OVERFLOW ==> !value
      modifies `p, `state
      ensures Arch() == DoRegister(FlagOp(name, value), old(Arch())) && state == FETCH
    {
      hide DoRegister, FlagOp, WithFlag;
      FlagOpSets(name, value, Arch());
      p := p.Set(name, value);
      state := FETCH;
    }

    method ODe(reg: Reg)
      modifies `a, `x, `y, `s, `p, `state
      ensures Arch() == SetFlagged(old(Arch()), reg, Low(old(Get(reg)) - 1)) && state == FETCH
    {
      var v := Low(Get(reg) - 1);
      Set(reg, v);
      p := p.Update(v);
      state := FETCH;
    }

    method OIn(reg: Reg)
      modifies `a, `x, `y, `s, `p, `state
      ensures Arch() == SetFlagged(old(Arch()), reg, Low(old(Get(reg)) + 1)) && state == FETCH
    {
      var v := Low(Get(reg) + 1);
      Set(reg, v);
      p := p.Update(v);
      state := FETCH;
    }

    method OTr(to: Reg, value: byte)
      modifies `a, `x, `y, `s, `p, `state
      ensures Arch() == SetFlagged(old(Arch()), to, value) && state == FETCH
    {
      Set(to, value);
      p := p.Update(Get(to));
      state := FETCH;
    }

    // -------------------------------------------------------------- LOAD

    /** After the last LOAD cycle, the one numbered j. */
    ghost predicate Loaded(j: nat)
      reads `pc, `a, `x, `y, `s, `p, `ram, `addm, `page, `wv0, `wv1, `target, `start, `state
    {
      state == EXECUTE && Located() && LoadCycles(addm, page) == j + 1
    }

    method PageCross(index: byte) returns (crossed: bool)
      modifies `wv0, `page
      ensures wv0 == Low(old(wv0) + index)
      ensures crossed == (old(wv0) + index > 0xFF) && page == Bit(crossed)
    {
      page := wv0;
      wv0 := Low(wv0 + index);
      crossed := wv0 < page;
      page := Bit(crossed);
    }

    method Zp()
      requires state == LOAD && addm == ZP && LoadingDirect(cycleCount)
      requires target == ResolveZeroPage(0, Fetched(start))
      modifies `wv0, `wv1, `pc, `state
      ensures Loaded(cycleCount)
    {
      hide Trunc;
      TruncTrunc(start.pc + 1, 1);
      wv0 := ram[av];
      wv1 := 0;
      pc := Trunc(pc + 1);
      state := EXECUTE;
    }

    method Zpx()
      requires state == LOAD && addm == ZPX && LoadingDirect(cycleCount)
      requires target == ResolveZeroPage(start.x, Fetched(start))
      modifies `wv0, `wv1, `pc, `state
      ensures state == LOAD ==> LoadingDirect(cycleCount + 1)
      ensures state != LOAD ==> Loaded(cycleCount)
    {
      hide Trunc;
      TruncTrunc(start.pc + 1, 1);
      TruncTrunc(start.pc + 1, 2);
      if cycleCount == 0 {
        wv0 := ram[av];
      } else {
        wv0 := Low(wv0 + x);
        wv1 := 0;
        pc := Trunc(pc + 1);
        state := EXECUTE;
      }
    }

    method Zpy()
      requires state == LOAD && addm == ZPY && LoadingDirect(cycleCount)
      requires target == ResolveZeroPage(start.y, Fetched(start))
      modifies `wv0, `wv1, `pc, `state
      ensures state == LOAD ==> LoadingDirect(cycleCount + 1)
      ensures state != LOAD ==> Loaded(cycleCount)
    {
      hide Trunc;
      TruncTrunc(start.pc + 1, 1);
      TruncTrunc(start.pc + 1, 2);
      if cycleCount == 0 {
        wv0 := ram[av];
      } else {
        wv0 := Low(wv0 + y);
        wv1 := 0;
        pc := Trunc(pc + 1);
        state := EXECUTE;
      }
    }

    method Absx()
      requires state == LOAD && addm == ABSX && LoadingIndexed(start.x, cycleCount)
      requires target == ResolveIndexed(start.x, Fetched(start))
      modifies `wv0, `wv1, `av, `page, `pc, `state
      ensures state == LOAD ==> LoadingIndexed(start.x, cycleCount + 1)
      ensures state != LOAD ==> Loaded(cycleCount)
    {
      hide Trunc, LoadingIndexed, Loaded;
      IndexIsKept(start.x);
      AbsIndexed(x);
    }

    method Absy()
      requires state == LOAD && addm == ABSY && LoadingIndexed(start.y, cycleCount)
      requires target == ResolveIndexed(start.y, Fetched(start))
      modifies `wv0, `wv1, `av, `page, `pc, `state
      ensures state == LOAD ==> LoadingIndexed(start.y, cycleCount + 1)
      ensures state != LOAD ==> Loaded(cycleCount)
    {
      hide Trunc, LoadingIndexed, Loaded;
      IndexIsKept(start.y);
      AbsIndexed(y);
    }

    lemma IndexIsKept(index: byte)
      requires LoadingIndexed(index, cycleCount)
      ensures x == start.x && y == start.y
    {
      hide Trunc, Low;
    }

    /** The cycles absolute,X and absolute,Y share. */
    method AbsIndexed(index: byte)
      requires state == LOAD && addm in {ABSX, ABSY} && LoadingIndexed(index, cycleCount)
      requires target == ResolveIndexed(index, Fetched(start))
      modifies `wv0, `wv1, `av, `page, `pc, `state
      ensures state == LOAD ==> LoadingIndexed(index, cycleCount + 1)
      ensures state != LOAD ==> Loaded(cycleCount)
    {
      hide Trunc, Loaded, ResolveIndexed;
      if cycleCount == 0 {
        TruncTrunc(start.pc + 1, 1);
        wv0 := ram[av];
        av := Trunc(av + 1);
      } else if cycleCount == 1 {
        HighAndIndex(index);
      } else {
        FixHigh(index);
      }
    }

    /** The high byte is read while the index is added to the low one. */
    method HighAndIndex(index: byte)
      requires state == LOAD && addm in {ABSX, ABSY} && cycleCount == 1 && LoadingIndexed(index, 1)
      requires target == ResolveIndexed(index, Fetched(start))
      modifies `wv0, `wv1, `page, `pc, `state
      ensures state == LOAD ==> LoadingIndexed(index, 2)
      ensures state != LOAD ==> Loaded(1)
    {
      hide Trunc, IndexFrom, Pair, Low, Succ;
      IndexCarry(start.ram[Trunc(start.pc + 2)], start.ram[Trunc(start.pc + 1)], index, Trunc(start.pc + 3));
      TruncTrunc(start.pc + 1, 1);
      TruncTrunc(start.pc + 1, 2);
      wv1 := ram[av];
      var crossed := PageCross(index);
      if !crossed {
        pc := Trunc(pc + 2);
        state := EXECUTE;
      }
    }

    /** The fix-up cycle. */
    method FixHigh(index: byte)
      requires state == LOAD && addm in {ABSX, ABSY} && cycleCount == 2 && LoadingIndexed(index, 2)
      requires target == ResolveIndexed(index, Fetched(start))
      modifies `wv1, `pc, `state
      ensures state != LOAD && Loaded(2)
    {
      hide Trunc, IndexFrom, Pair, Low, Succ;
      IndexCarry(start.ram[Trunc(start.pc + 2)], start.ram[Trunc(start.pc + 1)], index, Trunc(start.pc + 3));
      TruncTrunc(start.pc + 1, 1);
      TruncTrunc(start.pc + 1, 2);
      wv1 := Succ(wv1);
      pc := Trunc(pc + 2);
      state := EXECUTE;
    }

    method Indx()
      requires state == LOAD && addm == INDX && LoadingPointerX(cycleCount)
      requires target == ResolvePointerX(Fetched(start))
      modifies `wv0, `wv1, `av, `pc, `state
      ensures state == LOAD ==> LoadingPointerX(cycleCount + 1)
      ensures state != LOAD ==> Loaded(cycleCount)
    {
      hide Trunc, PageWord, Pair, Low, Succ;
      ZeroPagePointer(start.ram, Low(start.ram[Trunc(start.pc + 1)] + start.x));
      TruncTrunc(start.pc + 1, 1);
      TruncTrunc(start.pc + 1, 2);
      match cycleCount
      case 0 => av := ram[av];
      case 1 => av := Low(av + x);
      case 2 =>
        wv0 := ram[av];
        av := av + 1;
      case _ =>
        wv1 := ram[Low(av)];
        pc := Trunc(pc + 1);
        state := EXECUTE;
    }

    method Indy()
      requires state == LOAD && addm == INDY && LoadingPointerY(cycleCount)
      requires target == ResolvePointerY(Fetched(start))
      modifies `wv0, `wv1, `av, `page, `pc, `state
      ensures state == LOAD ==> LoadingPointerY(cycleCount + 1)
      ensures state != LOAD ==> Loaded(cycleCount)
    {
      hide Trunc, PageWord, IndexFrom, Pair, Low, Succ;
      var m, z: byte := start.ram, start.ram[Trunc(start.pc + 1)];
      ZeroPagePointer(m, z);
      IndexCarry(m[Succ(z)], m[z], start.y, Trunc(start.pc + 2));
      TruncTrunc(start.pc + 1, 1);
      TruncTrunc(start.pc + 1, 2);
      match cycleCount
      case 0 =>
        av := ram[av];
        pc := Trunc(pc + 1);
      case 1 =>
        wv0 := ram[av];
        av := av + 1;
      case 2 =>
        wv1 := ram[Low(av)];
        var crossed := PageCross(y);
        if !crossed { state := EXECUTE; }
      case _ =>
        wv1 := Succ(wv1);
        state := EXECUTE;
    }

    method Abs()
      requires state == LOAD && addm == ABS && LoadingDirect(cycleCount)
      requires target == ResolveAbsolute(Fetched(start))
      modifies `wv0, `wv1, `av, `pc, `state, `cycleCount
      ensures if old(cycleCount) < 1 then state == LOAD && cycleCount == old(cycleCount) && LoadingDirect(1)
              else if opcode == 0x4C then state == FETCH && Arch() == Base().(pc := target.ea)
              else state == EXECUTE && Located()
      ensures state != LOAD ==> old(cycleCount) == 1
    {
      hide Trunc;
      TruncTrunc(start.pc + 1, 1);
      TruncTrunc(start.pc + 1, 2);
      if cycleCount == 0 {
        wv0 := ram[av];
        av := Trunc(av + 1);
      } else {
        wv1 := ram[av];
        cycleCount := 0;
        pc := Trunc(pc + 2);
        state := EXECUTE;
        if opcode == 0x4C { OJmp(); }
      }
    }

    method Ind()
      requires state == LOAD && addm == IND && LoadingIndirect(cycleCount)
      requires target == ResolveIndirect(Fetched(start))
      modifies `wv0, `wv1, `av, `pc, `state
      ensures if old(cycleCount) < 3 then
                state == LOAD && cycleCount == old(cycleCount) && LoadingIndirect(old(cycleCount) + 1)
              else if opcode == 0x6C then state == FETCH && Arch() == Base().(pc := target.ea)
              else state == EXECUTE && Located()
      ensures state != LOAD ==> cycleCount == 3
    {
      hide Trunc, Pair, Low;
      TruncTrunc(start.pc + 1, 1);
      TruncTrunc(start.pc + 1, 2);
      LowOfByte(av);
      match cycleCount
      case 0 =>
        wv0 := ram[av];
        av := Trunc(av + 1);
      case 1 => wv1 := ram[av];
      case 2 =>
        av := ram[Wv()];
        wv0 := Succ(wv0);
      case _ =>
        wv1 := ram[Wv()];
        wv0 := Low(av);
        pc := Trunc(pc + 2);
        state := EXECUTE;
        if opcode == 0x6C { OJmp(); }
    }

    // -------------------------------------------------------------- FETCH

    method CtrlParse()
      requires opcode % 4 == 0
      modifies `addm
      ensures InstrTable(opcode).Legal? ==> addm == AddmOf(InstrTable(opcode).instr)
    {
      hide InstrTable, AddmOf;
      if InstrTable(opcode).Legal? { CtrlModes(opcode); }
      match opcode % 0x20 {
        case 0x00 => addm := if opcode / 0x20 < 4 then IMPLIED else IMM;
        case 0x04 => addm := ZP;
        case 0x08 | 0x18 => addm := IMPLIED;
        case 0x0C => addm := if opcode == 0x6C then IND else ABS;
        case 0x10 => addm := IMM;
        case 0x14 => addm := ZPX;
        case 0x1C => addm := ABSX;
        case _ =>
      }
    }

    method AlucParse()
      requires opcode % 4 == 1
      modifies `addm
      ensures InstrTable(opcode).Legal? ==> addm == AddmOf(InstrTable(opcode).instr)
    {
      hide InstrTable, AddmOf;
      if InstrTable(opcode).Legal? { AluModes(opcode); }
      match opcode % 0x20 {
        case 0x01 => addm := INDX;
        case 0x05 => addm := ZP;
        case 0x09 => addm := IMM;
        case 0x0D => addm := ABS;
        case 0x11 => addm := INDY;
        case 0x15 => addm := ZPX;
        case 0x19 => addm := ABSY;
        case 0x1D => addm := ABSX;
        case _ =>
      }
    }

    method RmwcParse()
      requires opcode % 4 == 2
      modifies `addm
      ensures InstrTable(opcode).Legal? ==> addm == AddmOf(InstrTable(opcode).instr)
    {
      hide InstrTable, AddmOf;
      if InstrTable(opcode).Legal? { RmwModes(opcode); }
      match opcode % 0x20 {
        case 0x02 => addm := if opcode / 0x20 < 4 then IMPLIED else IMM;
        case 0x06 => addm := ZP;
        case 0x0A | 0x12 | 0x1A => addm := IMPLIED;
        case 0x0E => addm := ABS;
        case 0x16 => addm := if opcode == 0x96 || opcode == 0xB6 then ZPY else ZPX;
        case 0x1E => addm := if opcode / 0x20 == 4 || opcode / 0x20 == 5 then ABSY else ABSX;
        case _ =>
      }
    }

    /** The first cycle of a documented instruction. */
    method Fetch()
      requires AtBoundary() && cycleCount == 0 && Arch() == start && Next(start).Legal?
      modifies `pc, `opcode, `addm, `av, `wv0, `wv1, `page, `state, `job, `instr, `target
      ensures Working()
      ensures state == LOAD || state == EXECUTE
      ensures state == LOAD ==>
        (instr.op.Read? || instr.op.Store? || instr.op.Modify? || instr.op == JMP) && Loading(0)
      ensures state == EXECUTE ==> instr.op != JMP && Executing(0) && LoadCycles(addm, page) == 0
    {
      hide InstrTable, Working, Executing, Loading, LoadCycles, Trunc, High, Low, Pair;
      FetchOpcode();
      PairUp(pc);
      av, wv0, wv1, page := pc, Low(pc), High(pc), 0;
      Begin();
    }

    method FetchOpcode()
      requires Arch() == start && Next(start).Legal?
      modifies `pc, `opcode, `addm, `job, `instr, `target
      ensures Working() && Arch() == start.(pc := Trunc(start.pc + 1))
    {
      hide InstrTable, Regular, Resolve, AddmOf, Trunc;
      opcode, pc := ram[pc], Trunc(pc + 1);
      Parse();
      job, instr := Instruction, InstrTable(opcode).instr;
      target := Resolve(instr.mode, Fetched(start));
      TableIsRegular(opcode);
    }

    /** The end of the fetch cycle chooses the next state. */
    method Begin()
      requires Working() && page == 0 && Wv() == av == Trunc(start.pc + 1) && Arch() == start.(pc := av)
      modifies `pc, `state
      ensures state == LOAD || state == EXECUTE
      ensures state == LOAD ==>
        (instr.op.Read? || instr.op.Store? || instr.op.Modify? || instr.op == JMP) && Loading(0)
      ensures state == EXECUTE ==> instr.op != JMP && Executing(0) && LoadCycles(addm, page) == 0
    {
      hide InstrTable, Regular, Resolve, Executing, Loading, AddmOf, Trunc, Pair;
      if addm == IMM || addm == IMPLIED {
        state := EXECUTE;
        if addm == IMM { pc := Trunc(pc + 1); }
        Started();
      } else {
        state := LOAD;
        Loadable(instr);
        LoadStarts();
      }
    }

    /** An instruction without a LOAD phase is ready to execute. */
    lemma Started()
      requires Working() && page == 0
      requires addm == IMM || addm == IMPLIED
      requires Wv() == av == Trunc(start.pc + 1)
      requires Arch() == start.(pc := if addm == IMM then Trunc(Trunc(start.pc + 1) + 1) else Trunc(start.pc + 1))
      ensures instr.op != JMP && Executing(0)
    {
      hide InstrTable, Trunc;
    }

    lemma LoadStarts()
      requires addm != IMM && addm != IMPLIED
      requires page == 0 && av == Trunc(start.pc + 1) && Arch() == start.(pc := av)
      ensures Loading(0)
    {
    }

    method Parse()
      requires InstrTable(opcode).Legal?
      modifies `addm
      ensures addm == AddmOf(InstrTable(opcode).instr)
    {
      match opcode % 4
      case 0 => CtrlParse();
      case 2 => RmwcParse();
      case _ => AlucParse();
    }

    // -------------------------------------------------------------- EXECUTE

    /** One EXECUTE cycle, before `Cycle` advances the counter: the last one leaves
        the outcome of the instruction, any other leads to the next. */
    twostate predicate Ran()
      reads this
    {
      && (state == FETCH <==> old(cycleCount) == old(LastCycle()))
      && (state == FETCH ==> Arch() == Complete(instr, target, start))
      && (state != FETCH ==> state == EXECUTE && Executing(cycleCount + 1))
      && cycleCount == (if instr.op.Modify? && addm != IMPLIED then Skip(old(cycleCount)) else old(cycleCount))
      && (addm != IMM ==> page == old(page))
    }

    /** A read instruction is over when its operation has been applied to the byte
        at the effective address. */
    twostate lemma RanRead()
      requires instr.op.Read? && old(Located() && cycleCount == 0)
      requires unchanged(`instr, `target, `start, `addm, `cycleCount, `page)
      requires state == FETCH && Arch() == DoRead(instr.op.readOp, old(Arch()), old(ram[Wv()]))
      ensures Ran()
    {
      hide DoRead, Executing;
    }

    twostate lemma RanStore()
      requires instr.op.Store? && old(Storing(cycleCount))
      requires unchanged(`instr, `target, `start, `addm, `cycleCount, `page, `wv0, `wv1)
      requires if old(cycleCount) < Bit(page == 0 && Indexed(addm)) then state == EXECUTE && Arch() == old(Arch())
               else
                 && state == FETCH
                 && Arch() == old(Arch()).(ram := old(ram)[Wv() := Stored(instr.op.storeOp, old(Arch()))])
      ensures Ran()
    {
      hide Stored;
    }

    /** The ALU group, opcodes ending in 01. */
    method ExecAlu()
      requires Working() && opcode % 4 == 1 && state == EXECUTE && Executing(cycleCount)
      modifies `pc, `a, `x, `y, `s, `p, `ram, `av, `wv0, `wv1, `page, `cycleCount, `state
      ensures Ran()
    {
      hide InstrTable, Ran, Resolve, Regular, AddmOf, BitAnd, BitOr, BitXor, Adc, Sbc, Compare, LoadA, LoadX,
           LoadY, BitTest, Branching, Modifying, Calling, Returning;
      AluRow(opcode);
      if opcode / 0x20 == 4 {
        OSt(RegA);
        RanStore();
      } else {
        ExecAluRead();
      }
    }

    /** The reads of that group. */
    method ExecAluRead()
      requires Working() && opcode % 4 == 1 && opcode / 0x20 != 4 && state == EXECUTE && Executing(cycleCount)
      modifies `a, `x, `y, `s, `p, `state
      ensures Ran()
    {
      hide InstrTable, Ran, Resolve, Regular, AddmOf, BitAnd, BitOr, BitXor, Adc, Sbc, Compare, LoadA, LoadX,
           LoadY, BitTest, Branching, Modifying, Calling, Returning;
      AluRow(opcode);
      match opcode / 0x20 {
        case 0 => OOra();
        case 1 => OAnd();
        case 2 => OEor();
        case 3 => OAdc();
        case 5 => OLd(RegA);
        case 6 => OCp(RegA);
        case _ => OSbc();
      }
      RanRead();
    }

    twostate lemma RanRegister()
      requires instr.op.Register? && old(Executing(cycleCount))
      requires unchanged(`instr, `target, `start, `addm, `cycleCount, `page)
      requires state == FETCH && Arch() == DoRegister(instr.op.registerOp, old(Arch()))
      ensures Ran()
    {
      hide DoRegister;
    }

    lemma BranchTarget()
      requires Working() && instr.op.Branch? && Executing(cycleCount)
      ensures addm == IMM && target == ResolveRelative(Fetched(start)) && p.Flags() == start.f
    {
      hide InstrTable, ResolveRelative;
    }

    twostate lemma RanBranch()
      requires addm == IMM && instr.op.Branch? && old(Executing(cycleCount))
      requires unchanged(`instr, `target, `start, `addm, `cycleCount)
      requires var flag := Taken(instr.op.branchOp, start.f);
               var last := if flag then 1 + Bit(target.crossed) else 0;
               if cycleCount < last then state == EXECUTE && Branching(instr.op.branchOp, cycleCount + 1)
               else state == FETCH && Arch() == if flag then start.(pc := target.ea) else Base()
      ensures Ran()
    {
    }

    twostate lemma RanStack()
      requires instr.op in {PHA, PHP, PLA, PLP} && old(Executing(cycleCount))
      requires unchanged(`instr, `target, `start, `addm, `cycleCount, `page)
      requires if cycleCount < (if instr.op in {PHA, PHP} then 1 else 2) then state == EXECUTE && Arch() == old(Arch())
               else state == FETCH && Arch() == Apply(instr, old(Arch()), target.ea)
      ensures Ran()
    {
      hide Apply;
    }

    lemma ModifyMode()
      requires Working() && instr.op.Modify?
      ensures if addm == IMPLIED then instr.mode == Accumulator && instr.op.modifyOp !in {INC, DEC}
              else instr.mode != Accumulator
    {
      hide InstrTable, Resolve;
    }

    twostate lemma RanModify()
      requires instr.op.Modify? && old(Executing(cycleCount)) && unchanged(`instr, `target, `start, `addm, `page)
      requires (instr.mode == Accumulator) == (addm == IMPLIED)
      requires addm == IMPLIED ==>
        Arch() == ModifyA(instr.op.modifyOp, old(Arch())) && state == FETCH && cycleCount == old(cycleCount)
      requires addm != IMPLIED ==>
        && cycleCount == Skip(old(cycleCount))
        && if old(cycleCount) < 3 then state == EXECUTE && Modifying(instr.op.modifyOp, cycleCount + 1)
           else state == FETCH && Arch() == ModifyAt(instr.op.modifyOp, Base(), target.ea)
      ensures Ran()
    {
      hide ModifyA, ModifyAt;
    }

    lemma CallTarget()
      requires Working() && instr.op == JSR
      ensures target.pc == Trunc(start.pc + 3) && Low(target.ea) == start.ram[Trunc(start.pc + 1)]
    {
      hide InstrTable, Trunc, Pair;
      TruncTrunc(start.pc + 1, 2);
      PairLow(start.ram[Trunc(Trunc(start.pc + 1) + 1)], start.ram[Trunc(start.pc + 1)]);
    }

    twostate lemma RanReturn()
      requires instr.op in {JSR, RTS, RTI} && old(Executing(cycleCount))
      requires unchanged(`instr, `target, `start, `addm, `cycleCount, `page)
      requires if cycleCount < 4 then state == EXECUTE && Executing(cycleCount + 1)
               else state == FETCH && Arch() == Apply(instr, Base(), target.ea)
      ensures Ran()
    {
      hide Apply;
    }

    /** CLC to SED. */
    method ExecFlags()
      requires Working() && FlagOpcode(opcode) && state == EXECUTE && Executing(cycleCount)
      modifies `pc, `a, `x, `y, `s, `p, `ram, `av, `wv0, `wv1, `page, `cycleCount, `state
      ensures Ran()
    {
      hide InstrTable, Ran, Resolve, Regular, AddmOf, Branching, Modifying, Calling, Returning, DoRegister;
      FlagOpcodes(opcode);
      match opcode {
        case 0x18 => OFl(CARRY, false);
        case 0x38 => OFl(CARRY, true);
        case 0x58 => OFl(INTERRUPT, false);
        case 0x78 => OFl(INTERRUPT, true);
        case 0xB8 => OFl(OVERFLOW, false);
        case 0xD8 => OFl(DECIMAL, false);
        case _ => OFl(DECIMAL, true);
      }
      RanRegister();
    }

    method ExecBranches()
      requires Working() && BranchOpcode(opcode) && state == EXECUTE && Executing(cycleCount)
      modifies `pc, `a, `x, `y, `s, `p, `ram, `av, `wv0, `wv1, `page, `cycleCount, `state
      ensures Ran()
    {
      hide InstrTable, Ran, Resolve, Regular, AddmOf, Branching, Modifying, Calling, Returning, ResolveRelative,
           BranchTest,
           BranchOpAt, Taken;
      BranchOpcodes(opcode);
      BranchCondition(opcode, p.Flags());
      BranchTarget();
      var (flag, v) := BranchTest(opcode, p.Flags());
      OBr(flag, v);
      RanBranch();
    }

    method ExecStack()
      requires Working() && StackOpcode(opcode) && state == EXECUTE && Executing(cycleCount)
      modifies `pc, `a, `x, `y, `s, `p, `ram, `av, `wv0, `wv1, `page, `cycleCount, `state
      ensures Ran()
    {
      hide InstrTable, Ran, Resolve, Regular, AddmOf, Branching, Modifying, Calling, Returning;
      hide PushByte, PullFlags, LoadA, Pack, Drop, Top;
      StackOpcodes(opcode);
      match opcode {
        case 0x48 => OPh(a);
        case 0x68 => OPl(RegA);
        case 0x08 => OPhp();
        case _ => OPlp();
      }
      RanStack();
    }

    method ExecTransfers()
      requires Working() && TransferOpcode(opcode) && state == EXECUTE && Executing(cycleCount)
      modifies `pc, `a, `x, `y, `s, `p, `ram, `av, `wv0, `wv1, `page, `cycleCount, `state
      ensures Ran()
    {
      hide InstrTable, Ran, Resolve, Regular, AddmOf, Branching, Modifying, Calling, Returning;
      hide DoRegister, SetFlagged, TransferOpcode, TransferOpAt;
      TransferOpcodes(opcode);
      TransferEffect(opcode, Arch());
      if opcode == 0x9A {
        OTxs();
      } else {
        var (to, value) := match opcode
                           case 0xBA => (RegX, s)
                           case 0xAA => (RegX, a)
                           case 0x8A => (RegA, x)
                           case 0xA8 => (RegY, a)
                           case _ => (RegA, y);
        OTr(to, value);
      }
      RanRegister();
    }

    /** The register counters and NOP. */
    method ExecCounters()
      requires Working() && CounterOpcode(opcode) && state == EXECUTE && Executing(cycleCount)
      modifies `pc, `a, `x, `y, `s, `p, `ram, `av, `wv0, `wv1, `page, `cycleCount, `state
      ensures Ran()
    {
      hide InstrTable, Ran, Resolve, Regular, AddmOf, Branching, Modifying, Calling, Returning;
      hide LoadX, LoadY, Low;
      CounterOpcodes(opcode);
      match opcode {
        case 0xCA => ODe(RegX);
        case 0xE8 => OIn(RegX);
        case 0x88 => ODe(RegY);
        case 0xC8 => OIn(RegY);
        case _ => ONop();
      }
      RanRegister();
    }

    /** The shifts of the accumulator. */
    method ExecShifts()
      requires Working() && ShiftOpcode(opcode) && state == EXECUTE && Executing(cycleCount)
      modifies `pc, `a, `x, `y, `s, `p, `ram, `av, `wv0, `wv1, `page, `cycleCount, `state
      ensures Ran()
    {
      hide InstrTable, Ran, Resolve, Regular, AddmOf, ModifyA, ModifyAt;
      ShiftOpcodes(opcode);
      ModifyMode();
      match opcode {
        case 0x2A => OShift(ROL);
        case 0x6A => OShift(ROR);
        case 0x0A => OShift(ASL);
        case _ => OShift(LSR);
      }
      RanModify();
    }

    /** JSR, RTI and RTS. */
    method ExecReturns()
      requires Working() && ControlOpcode(opcode) && opcode != 0 && state == EXECUTE && Executing(cycleCount)
      modifies `pc, `a, `x, `y, `s, `p, `ram, `av, `wv0, `wv1, `page, `cycleCount, `state
      ensures Ran()
    {
      hide InstrTable, Ran, Resolve, Regular, AddmOf, Calling, Returning, PullPc, PullFlags, CallTo;
      ControlOpcodes(opcode);
      match opcode {
        case 0x20 => CallTarget(); OJsr();
        case 0x40 => ORti();
        case _ => ORts();
      }
      RanReturn();
    }

    method ExecCtrl()
      requires Working() && CtrlRowOpcode(opcode) && state == EXECUTE && Executing(cycleCount)
      modifies `pc, `a, `x, `y, `s, `p, `ram, `av, `wv0, `wv1, `page, `cycleCount, `state
      ensures Ran()
    {
      hide InstrTable, Ran, Resolve, Regular, AddmOf, Branching, Modifying, Calling, Returning, Compare, LoadY,
           BitTest;
      CtrlRow(opcode);
      match opcode / 0x20 {
        case 1 => OBit();
        case 4 => OSt(RegY);
        case 5 => OLd(RegY);
        case 6 => OCp(RegY);
        case _ => OCp(RegX);
      }
      if instr.op.Read? { RanRead(); } else { RanStore(); }
    }

    method ExecRmw()
      requires Working() && RmwOpcode(opcode) && state == EXECUTE && Executing(cycleCount)
      modifies `pc, `a, `x, `y, `s, `p, `ram, `av, `wv0, `wv1, `page, `cycleCount, `state
      ensures Ran()
    {
      hide InstrTable, Ran, Resolve, Regular, AddmOf, Branching, Modifying, Calling, Returning, LoadX, ModifyA,
           ModifyAt;
      RmwRow(opcode);
      if opcode < 0x80 || opcode >= 0xC0 {
        ExecModify();
      } else if opcode < 0xA0 {
        OSt(RegX);
        RanStore();
      } else {
        OLd(RegX);
        RanRead();
      }
    }

    /** The read-modify-writes of that group. */
    method ExecModify()
      requires Working() && RmwOpcode(opcode) && (opcode < 0x80 || opcode >= 0xC0)
      requires state == EXECUTE && Executing(cycleCount)
      modifies `a, `p, `ram, `av, `wv0, `cycleCount, `state
      ensures Ran()
    {
      hide InstrTable, Ran, Resolve, Regular, AddmOf, Branching, Modifying, Calling, Returning, LoadX, ModifyA,
           ModifyAt;
      RmwRow(opcode);
      ModifyMode();
      if opcode < 0x80 {
        OShift(if opcode < 0x20 then ASL else if opcode < 0x40 then ROL else if opcode < 0x60 then LSR else ROR);
      } else {
        OCount(if opcode < 0xE0 then DEC else INC);
      }
      RanModify();
    }

    method Exec()
      requires Working() && instr.op != JMP && state == EXECUTE && Executing(cycleCount)
      requires !intc && !rbrk && !cold
      modifies `pc, `a, `x, `y, `s, `p, `ram, `av, `wv0, `wv1, `page, `cycleCount, `state, `intc, `rbrk, `cbrk,
               `cold, `iflag
      ensures !rbrk
      ensures instr.op == BRK ==> intc && state == EXECUTE && iflag == IRQ && cycleCount == 1 && Entering(2)
      ensures instr.op != BRK ==> Ran() && !intc && !cold && unchanged(`iflag, `cbrk)
    {
      hide InstrTable, Ran, Regular, Resolve, Executing, Entering, CtrlRowOpcode, FlagOpcode, BranchOpcode,
           StackOpcode,
           TransferOpcode, CounterOpcode, ShiftOpcode, RmwOpcode, ControlOpcode;
      Coverage(opcode);
      BreakAndJump(opcode);
      if opcode == 0x00 {
        Breaks();
        OBrk();
      } else {
        if opcode % 4 == 1 { ExecAlu(); }
        else if FlagOpcode(opcode) { ExecFlags(); }
        else if BranchOpcode(opcode) { ExecBranches(); }
        else if StackOpcode(opcode) { ExecStack(); }
        else if TransferOpcode(opcode) { ExecTransfers(); }
        else if CounterOpcode(opcode) { ExecCounters(); }
        else if ShiftOpcode(opcode) { ExecShifts(); }
        else if ControlOpcode(opcode) { ExecReturns(); }
        else if CtrlRowOpcode(opcode) { ExecCtrl(); }
        else { ExecRmw(); }
      }
    }

    lemma Breaks()
      requires Working() && instr.op == BRK && Executing(cycleCount)
      ensures cycleCount == 0 && Arch() == start.(pc := Trunc(start.pc + 1))
    {
      hide InstrTable;
    }

    /** One cycle in the LOAD state; a jump executes in the last one. */
    method Load()
      requires Working() && (instr.op.Read? || instr.op.Store? || instr.op.Modify? || instr.op == JMP)
      requires Loading(cycleCount) && state == LOAD
      modifies `wv0, `wv1, `av, `page, `pc, `state, `cycleCount
      ensures state == LOAD ==> cycleCount == old(cycleCount) && Loading(cycleCount + 1)
      ensures state == EXECUTE ==>
        instr.op != JMP && Located() && LoadCycles(addm, page) == old(cycleCount) + 1
      ensures state == FETCH ==>
        instr.op == JMP && Arch() == Base().(pc := target.ea) && LoadCycles(addm, page) == old(cycleCount) + 1
    {
      hide InstrTable, Regular, Resolve, AddmOf, Located, Base;
      hide LoadingDirect, LoadingIndexed, LoadingIndirect, LoadingPointerX, LoadingPointerY;
      hide ResolveZeroPage, ResolveAbsolute, ResolveIndexed, ResolveIndirect, ResolvePointerX, ResolvePointerY;
      LoadTargets();
      match addm {
        case ZP => Zp();
        case ZPX => Zpx();
        case ZPY => Zpy();
        case ABS => Abs();
        case ABSX => Absx();
        case ABSY => Absy();
        case IND => Ind();
        case INDX => Indx();
        case INDY => Indy();
        case IMPLIED => assert false;
        case IMM => assert false;
      }
    }

    lemma LoadTargets()
      requires Working()
      ensures var s1 := Fetched(start);
              match addm
              case ZP => target == ResolveZeroPage(0, s1) && instr.op != JMP
              case ZPX => target == ResolveZeroPage(start.x, s1) && instr.op != JMP
              case ZPY => target == ResolveZeroPage(start.y, s1) && instr.op != JMP
              case ABS => target == ResolveAbsolute(s1) && (instr.op == JMP <==> opcode == 0x4C)
              case ABSX => target == ResolveIndexed(start.x, s1) && instr.op != JMP
              case ABSY => target == ResolveIndexed(start.y, s1) && instr.op != JMP
              case IND => target == ResolveIndirect(s1) && instr.op == JMP && opcode == 0x6C
              case INDX => target == ResolvePointerX(s1) && instr.op != JMP
              case INDY => target == ResolvePointerY(s1) && instr.op != JMP
              case _ => true
    {
      hide InstrTable, ResolveZeroPage, ResolveAbsolute, ResolveIndexed, ResolveIndirect, ResolvePointerX,
           ResolvePointerY;
      BreakAndJump(opcode);
      if instr.op == JMP { JumpModes(opcode); }
    }

    // -------------------------------------------------------------- timing

    /** The last EXECUTE cycle is the last of the published ones. */
    lemma LastIsCost()
      requires Working() && instr.op != JMP && instr.op != BRK
      requires Executing(cycleCount) && cycleCount == LastCycle()
      ensures Spent(cycleCount) + 1 == Cost(instr, target, start.f)
    {
      hide InstrTable;
    }

    /** Any other cycle is followed by one more. */
    lemma NotLastGoesOn()
      requires Working() && instr.op != JMP && instr.op != BRK
      requires Executing(cycleCount) && cycleCount != LastCycle()
      ensures var j := if instr.op.Modify? && addm != IMPLIED then Skip(cycleCount) else cycleCount;
              Spent(j + 1) == Spent(cycleCount) + 1
      ensures Spent(cycleCount) + 1 < Cost(instr, target, start.f)
    {
      hide InstrTable;
    }

    /** The LOAD phase ends before the published cycles do, except for a jump. */
    lemma LoadLeavesRoom()
      requires Working() && (instr.op.Read? || instr.op.Store? || instr.op.Modify? || instr.op == JMP)
      requires addm != IMPLIED && addm != IMM
      ensures LoadCycles(addm, Bit(Indexed(addm) && target.crossed)) + 1 <= Cost(instr, target, start.f)
      ensures var page := Bit(Indexed(addm) && target.crossed);
              LoadCycles(addm, page) + 1 == Cost(instr, target, start.f) <==> instr.op == JMP
    {
      hide InstrTable;
    }

    /** In the middle of a job its duration is not yet used up. */
    lemma RoomLeft()
      requires Valid() && !AtBoundary()
      ensures tsc < t0 + Duration(job, start)
    {
      hide Outcome, Duration, Entering, Executing, Working, Loading, Spent, Acknowledges, Complete, Cost, Next;
      if intc { EntryRoom(); }
      else if state == LOAD { LoadRoom(); }
      else { ExecRoom(); }
    }

    lemma NotEarly()
      requires Valid()
      ensures tsc >= t0
    {
      hide Entering, Executing, Working, Loading;
    }

    lemma EntryRoom()
      requires iflag != INONE && ValidEntry()
      ensures tsc < t0 + Duration(job, start)
    {
      hide Outcome, Duration, Entering, Working, Acknowledges;
      EntryFacts();
      EntryOutcome();
    }

    lemma LoadRoom()
      requires ValidLoad()
      ensures tsc < t0 + Duration(job, start)
    {
      hide Loading, Working, Cost, Duration, Outcome, Acknowledges;
      InstructionOutcome();
      LoadingHasRoom(cycleCount);
    }

    lemma ExecRoom()
      requires ValidExecute()
      ensures tsc < t0 + Duration(job, start)
    {
      hide Executing, Working, Cost, Spent, Duration, LastCycle, Outcome, Acknowledges;
      InstructionOutcome();
      if instr.op == BRK { BreakTiming(); }
      else if cycleCount == LastCycle() { LastIsCost(); }
      else { NotLastGoesOn(); }
    }

    // -------------------------------------------------------------- one cycle

    /** What a cycle spent on job `was` keeps and does, apart from counting itself. */
    twostate predicate Advanced(was: Job)
      reads this
    {
      && Valid()
      && if AtBoundary() then
           && Arch() == Outcome(was, old(start), warm) && tsc == old(t0) + Duration(was, old(start))
           && rnmi == (old(rnmi) && !Acknowledges(was, old(start), NMI))
           && rirq == (old(rirq) && !Acknowledges(was, old(start), IRQ))
         else
           && start == old(start) && t0 == old(t0) && job == was
           && tsc < t0 + Duration(job, start)
           && rnmi == old(rnmi) && rirq == old(rirq)
    }

    method Cycle()
      requires Valid()
      requires AtBoundary() && NextJob() == Instruction ==> Next(start).Legal?
      modifies this
      ensures Advanced(old(CurrentJob()))
      ensures tsc == old(tsc) + 1 && warm == old(warm)
    {
      hide Outcome, Duration, Acknowledges, Entering, Working, Executing, Loading, Next, Spent;
      tsc := tsc + 1;
      if intc {
        SequencerCycle();
        return;
      }
      match state {
        case FETCH =>
          if rnmi {
            Recognise(NMI);
            SequencerCycle();
          } else if rirq && !p.interrupt {
            Recognise(IRQ);
            SequencerCycle();
          } else {
            FetchCycle();
          }
        case LOAD => LoadCycle();
        case EXECUTE => ExecCycle();
      }
    }

    /** The interrupt lines are looked at only here. */
    method Recognise(line: InterruptFlag)
      requires line in {NMI, IRQ} && Arch() == start && !cold && !cbrk
      modifies `iflag, `intc, `job
      ensures iflag == line && intc && job == Service(line) && Entering(0)
    {
      iflag, intc := line, true;
      job := Service(line);
    }

    /** A cycle of the interrupt sequencer; the last one acknowledges. */
    method SequencerCycle()
      requires intc && iflag != INONE && !rbrk && !hlt
      requires Entering(cycleCount) && tsc == t0 + cycleCount + 1
      requires if job == Instruction then state == EXECUTE && Working() && instr.op == BRK else state == FETCH
      modifies `pc, `s, `p, `ram, `cold, `intc, `rbrk, `cbrk, `cycleCount, `rnmi, `rirq, `iflag, `state, `start, `t0
      ensures Advanced(job)
    {
      hide Outcome, Duration, Acknowledges, Entered, Working, ValidLoad, ValidExecute, Entering;
      EntryFacts();
      EntryOutcome();
      Sequence();
    }

    /** `Interrupt`, and what follows it in `cycle`. */
    method Sequence()
      requires intc && iflag != INONE && !rbrk && Entering(cycleCount) && cycleCount <= 6
      modifies `pc, `s, `p, `ram, `cold, `intc, `rbrk, `cbrk, `cycleCount, `rnmi, `rirq, `iflag, `state, `start, `t0
      ensures !rbrk
      ensures if old(cycleCount) < 6 then
                && intc && cycleCount == old(cycleCount) + 1 && Entering(cycleCount)
                && unchanged(`rnmi, `rirq, `iflag, `state, `start, `t0)
              else
                && !intc && !cbrk && !cold && cycleCount == 0 && iflag == INONE && state == FETCH
                && Arch() == start == old(Entered()) && t0 == tsc
                && rnmi == (old(rnmi) && old(iflag) != NMI) && rirq == (old(rirq) && old(iflag) != IRQ)
    {
      hide Entered, Entering;
      Interrupt();
      if !intc {
        Acknowledge();
      } else {
        cycleCount := cycleCount + 1;
      }
    }

    /** The end of an entry drops the request whose vector was used. */
    method Acknowledge()
      requires !intc && iflag != INONE
      modifies `cycleCount, `rnmi, `rirq, `iflag, `state, `start, `t0
      ensures cycleCount == 0 && iflag == INONE && state == FETCH && start == Arch() && t0 == tsc
      ensures rnmi == (old(rnmi) && old(iflag) != NMI)
      ensures rirq == (old(rirq) && old(iflag) != IRQ)
    {
      cycleCount := 0;
      match iflag {
        case NMI => rnmi := false;
        case IRQ => rirq := false;
        case _ =>
      }
      iflag := INONE;
      state := FETCH;
      start, t0 := Arch(), tsc;
    }

    lemma EntryFacts()
      requires Entering(cycleCount)
      ensures cycleCount <= 6 && iflag != INONE
      ensures if job == Instruction then iflag == IRQ else job == Service(iflag)
    {
    }

    lemma EntryOutcome()
      requires iflag != INONE
      requires if job == Instruction then Working() && instr.op == BRK && iflag == IRQ else job == Service(iflag)
      ensures Entered() == Outcome(job, start, warm) && Duration(job, start) == 7
      ensures Acknowledges(job, start, NMI) == (iflag == NMI) && Acknowledges(job, start, IRQ) == (iflag == IRQ)
    {
      hide InstrTable, Enter, ResetTo;
      TruncTrunc(start.pc + 1, 1);
    }

    method FetchCycle()
      requires AtBoundary() && !hlt && !rbrk && !cold && !cbrk && iflag == INONE && cycleCount == 0
      requires Arch() == start && tsc == t0 + 1 && Next(start).Legal?
      modifies `pc, `opcode, `addm, `av, `wv0, `wv1, `page, `state, `job, `instr, `target
      ensures Advanced(Instruction)
    {
      hide Outcome, Duration, Acknowledges, Executing, Loading, Working, ValidEntry, Next;
      Fetch();
      InstructionTakesLonger();
    }

    lemma InstructionTakesLonger()
      requires Working()
      ensures job == Instruction && 1 < Duration(Instruction, start)
    {
      hide InstrTable, Resolve;
    }

    lemma InstructionOutcome()
      requires Working()
      ensures job == Instruction && Outcome(Instruction, start, warm) == Complete(instr, target, start)
      ensures Duration(Instruction, start) == Cost(instr, target, start.f)
      ensures !Acknowledges(Instruction, start, NMI)
      ensures Acknowledges(Instruction, start, IRQ) == (instr.op == BRK)
    {
      hide InstrTable, Complete, Cost, Resolve, Regular;
    }

    lemma LoadingHasRoom(j: nat)
      requires Working() && (instr.op.Read? || instr.op.Store? || instr.op.Modify? || instr.op == JMP)
      requires Loading(j)
      ensures j <= 3 && 1 + j < Cost(instr, target, start.f) && addm != IMPLIED && addm != IMM
    {
      hide InstrTable;
    }

    /** A located operand is where every instruction with a LOAD phase starts. */
    lemma LocatedIsExecuting()
      requires Working() && (instr.op.Read? || instr.op.Store? || instr.op.Modify?)
      requires Located() && addm != IMPLIED && addm != IMM
      ensures Executing(0) && Spent(0) == 1 + LoadCycles(addm, page)
      ensures LoadCycles(addm, page) + 1 < Cost(instr, target, start.f)
    {
      hide InstrTable, Resolve;
      LoadLeavesRoom();
    }

    method LoadCycle()
      requires Working() && (instr.op.Read? || instr.op.Store? || instr.op.Modify? || instr.op == JMP)
      requires Loading(cycleCount) && tsc == t0 + 2 + cycleCount && state == LOAD
      requires !intc && !hlt && !rbrk && !cold && !cbrk && iflag == INONE
      modifies `wv0, `wv1, `av, `page, `pc, `state, `cycleCount, `start, `t0
      ensures Advanced(Instruction)
    {
      hide Outcome, Duration, Acknowledges, Loading, Working, Executing, Complete, Cost, Spent, ValidEntry,
           LoadCycles;
      InstructionOutcome();
      LoadCounted();
      if state == FETCH { start, t0 := Arch(), tsc; }
    }

    /** `LoadOnce`, and the cycle counter after it. */
    method LoadCounted()
      requires Working() && (instr.op.Read? || instr.op.Store? || instr.op.Modify? || instr.op == JMP)
      requires Loading(cycleCount) && tsc == t0 + 2 + cycleCount && state == LOAD
      modifies `wv0, `wv1, `av, `page, `pc, `state, `cycleCount
      ensures state == LOAD ==>
        Loading(cycleCount) && tsc == t0 + 1 + cycleCount < t0 + Cost(instr, target, start.f)
      ensures state == EXECUTE ==>
        instr.op != JMP && cycleCount == 0 && Executing(0) && tsc == t0 + Spent(0) < t0 + Cost(instr, target, start.f)
      ensures state == FETCH ==>
        cycleCount == 0 && Arch() == Complete(instr, target, start) && tsc == t0 + Cost(instr, target, start.f)
    {
      hide Loading, Working, Executing, Complete, Cost, Spent;
      LoadOnce();
      cycleCount := if state != LOAD then 0 else cycleCount + 1;
    }

    /** `Load`, with what its outcome means for the rest of the instruction. */
    method LoadOnce()
      requires Working() && (instr.op.Read? || instr.op.Store? || instr.op.Modify? || instr.op == JMP)
      requires Loading(cycleCount) && tsc == t0 + 2 + cycleCount && state == LOAD
      modifies `wv0, `wv1, `av, `page, `pc, `state, `cycleCount
      ensures state == LOAD ==>
        cycleCount == old(cycleCount) <= 3 && Loading(cycleCount + 1) && tsc < t0 + Cost(instr, target, start.f)
      ensures state == EXECUTE ==>
        instr.op != JMP && Executing(0) && tsc == t0 + Spent(0) < t0 + Cost(instr, target, start.f)
      ensures state == FETCH ==>
        instr.op == JMP && Arch() == Complete(instr, target, start) && tsc == t0 + Cost(instr, target, start.f)
    {
      hide Loading, Working, Located, Executing, Complete, Cost, LoadCycles, Spent;
      LoadingHasRoom(cycleCount);
      Load();
      if state == LOAD { LoadingHasRoom(cycleCount + 1); }
      else if state == EXECUTE { LocatedIsExecuting(); }
      else { JumpIsDone(); }
    }

    lemma JumpIsDone()
      requires Working() && instr.op == JMP
      requires Arch() == Base().(pc := target.ea)
      ensures Arch() == Complete(instr, target, start)
      ensures Cost(instr, target, start.f) == 1 + LoadCycles(addm, page)
    {
      hide InstrTable, Resolve;
    }

    method ExecCycle()
      requires Working() && instr.op != JMP && Executing(cycleCount) && state == EXECUTE
      requires tsc == t0 + Spent(cycleCount) + 1
      requires !intc && !hlt && !rbrk && !cold && !cbrk && iflag == INONE
      modifies `pc, `a, `x, `y, `s, `p, `ram, `av, `wv0, `wv1, `page, `cycleCount, `state, `intc, `rbrk, `cbrk,
               `cold, `iflag, `start, `t0
      ensures Advanced(Instruction)
    {
      hide Outcome, Duration, Acknowledges, Executing, Working, Entering, Complete, Cost, ValidLoad, Spent;
      InstructionOutcome();
      ExecCounted();
      if state == FETCH { start, t0 := Arch(), tsc; }
    }

    /** `ExecOnce`, and the cycle counter after it. */
    method ExecCounted()
      requires Working() && instr.op != JMP && Executing(cycleCount) && state == EXECUTE
      requires tsc == t0 + Spent(cycleCount) + 1
      requires !intc && !hlt && !rbrk && !cold && !cbrk && iflag == INONE
      modifies `pc, `a, `x, `y, `s, `p, `ram, `av, `wv0, `wv1, `page, `cycleCount, `state, `intc, `rbrk, `cbrk,
               `cold, `iflag
      ensures !rbrk && (intc <==> iflag != INONE) && (intc <==> instr.op == BRK) && state != LOAD
      ensures intc ==>
        state == EXECUTE && Entering(cycleCount) && tsc == t0 + cycleCount < t0 + Cost(instr, target, start.f)
      ensures !intc ==> !cold && !cbrk
      ensures !intc && state == EXECUTE ==>
        Executing(cycleCount) && tsc == t0 + Spent(cycleCount) < t0 + Cost(instr, target, start.f)
      ensures state == FETCH ==>
        cycleCount == 0 && Arch() == Complete(instr, target, start) && tsc == t0 + Cost(instr, target, start.f)
    {
      hide Executing, Working, Entering, Complete, Cost, Spent;
      ExecOnce();
      cycleCount := if state != EXECUTE then 0 else cycleCount + 1;
    }

    /** `Exec`, with what its outcome means for the rest of the instruction. */
    method ExecOnce()
      requires Working() && instr.op != JMP && Executing(cycleCount) && state == EXECUTE
      requires tsc == t0 + Spent(cycleCount) + 1
      requires !intc && !hlt && !rbrk && !cold && !cbrk && iflag == INONE
      modifies `pc, `a, `x, `y, `s, `p, `ram, `av, `wv0, `wv1, `page, `cycleCount, `state, `intc, `rbrk, `cbrk,
               `cold, `iflag
      ensures !rbrk && cycleCount <= 4
      ensures instr.op == BRK ==>
        && intc && state == EXECUTE && iflag == IRQ && Entering(cycleCount + 1)
        && tsc == t0 + cycleCount + 1 < t0 + Cost(instr, target, start.f)
      ensures instr.op != BRK ==> !intc && !cold && !cbrk && iflag == INONE && state != LOAD
      ensures instr.op != BRK && state == EXECUTE ==>
        Executing(cycleCount + 1) && tsc == t0 + Spent(cycleCount + 1) < t0 + Cost(instr, target, start.f)
      ensures instr.op != BRK && state == FETCH ==>
        Arch() == Complete(instr, target, start) && tsc == t0 + Cost(instr, target, start.f)
    {
      hide Executing, Working, LastCycle, Entering, Complete, Cost, Spent;
      if instr.op == BRK { BreakTiming(); }
      else if cycleCount == LastCycle() { LastIsCost(); }
      else { NotLastGoesOn(); }
      FewCycles();
      Exec();
      if instr.op != BRK { SpentIsKept(cycleCount + 1); }
      if instr.op != BRK && state == EXECUTE { FewCycles(); }
    }

    twostate lemma SpentIsKept(j: nat)
      requires unchanged(`instr, `addm) && (addm != IMM ==> page == old(page))
      ensures Spent(j) == old(Spent(j))
    {
    }

    lemma FewCycles()
      requires Working()
      ensures Executing(cycleCount) ==> cycleCount <= 4
      ensures Executing(cycleCount + 1) ==> cycleCount < 4
    {
      hide InstrTable, Resolve, Regular;
    }

    lemma BreakTiming()
      requires Working() && instr.op == BRK && Executing(cycleCount)
      ensures Spent(cycleCount) == 1 && Cost(instr, target, start.f) == 7
    {
      hide InstrTable, Resolve;
    }

    // -------------------------------------------------------------- the interface

    /** Power-on: a reset is under way. */
    constructor (memory: Ram)
      ensures Valid() && !rnmi && !rirq && tsc == 0 && !warm
      ensures job == Service(RESET) && !AtBoundary()
      ensures Arch() == start == Isa.Arch(0, 0, 0, 0xFD, 0, Isa.Flags(false, false, false, true, false, false), memory)
    {
      pc, a, x, y, s, ram := 0, 0, 0, 0, 0xFD, memory;
      p := Status(false, false, true, false, true, true, false, false);
      cold, state := true, FETCH;
      rnmi, rirq, rbrk, cbrk := false, false, false, false;
      intc, iflag, hlt := true, RESET, false;
      cycleCount, tsc := 0, 0;
      addm, opcode, wv0, wv1, page, av := IMPLIED, 0, 0, 0, 0, 0;
      start := Isa.Arch(0, 0, 0, 0xFD, 0, Isa.Flags(false, false, false, true, false, false), memory);
      t0, job, warm := 0, Service(RESET), false;
      instr, target := Instr(BRK, NoOperand, 7, false), Target(0, 0, false);
    }

    /** Requests a line. A reset may be raised at a boundary. */
    method Raise(line: InterruptFlag)
      requires Valid() && (line == RESET ==> AtBoundary())
      modifies `rnmi, `rirq, `iflag, `intc, `hlt, `job, `warm
      ensures Valid()
      ensures rnmi == (if line == NMI then true else if line == INONE then false else old(rnmi))
      ensures rirq == (if line == IRQ then true else if line == INONE then false else old(rirq))
      ensures if line == RESET then job == Service(RESET) && warm && !AtBoundary()
              else unchanged(`iflag, `intc, `hlt, `job, `warm)
    {
      hide ValidLoad, ValidExecute, ValidEntry;
      match line {
        case NMI => rnmi := true;
        case IRQ => rirq := true;
        case RESET => RaiseReset();
        case INONE => rnmi, rirq := false, false;
      }
    }

    method RaiseReset()
      requires Valid() && AtBoundary()
      modifies `iflag, `intc, `hlt, `job, `warm
      ensures Valid() && !AtBoundary() && job == Service(RESET) && warm
    {
      hide ValidLoad, ValidExecute, Working;
      iflag, intc, hlt := RESET, true, false;
      job, warm := Service(RESET), true;
    }

    method Unraise(line: InterruptFlag)
      requires Valid() && line != RESET
      modifies `rnmi, `rirq
      ensures Valid()
      ensures rnmi == (old(rnmi) && line != NMI) && rirq == (old(rirq) && line != IRQ)
    {
      hide ValidLoad, ValidExecute, ValidEntry;
      match line {
        case NMI => rnmi := false;
        case IRQ => rirq := false;
        case _ =>
      }
    }

    /** Runs to the next boundary: the job under way, or the one a boundary starts,
        is carried out whole, in exactly its published number of cycles. */
    method Step()
      requires Valid()
      requires AtBoundary() && NextJob() == Instruction ==> Next(start).Legal?
      modifies this
      ensures Valid() && AtBoundary() && warm == old(warm)
      ensures Arch() == start == Outcome(old(CurrentJob()), old(start), warm)
      ensures tsc == old(t0) + Duration(old(CurrentJob()), old(start))
      ensures rnmi == (old(rnmi) && !Acknowledges(old(CurrentJob()), old(start), NMI))
      ensures rirq == (old(rirq) && !Acknowledges(old(CurrentJob()), old(start), IRQ))
    {
      hide Outcome, Duration, Acknowledges, ValidLoad, ValidExecute, ValidEntry, NextJob, Next;
      Cycle();
      while state != FETCH || intc
        invariant Valid() && warm == old(warm)
        invariant if AtBoundary() then
            && Arch() == Outcome(old(CurrentJob()), old(start), warm)
            && tsc == old(t0) + Duration(old(CurrentJob()), old(start))
            && rnmi == (old(rnmi) && !Acknowledges(old(CurrentJob()), old(start), NMI))
            && rirq == (old(rirq) && !Acknowledges(old(CurrentJob()), old(start), IRQ))
          else
            && start == old(start) && t0 == old(t0) && job == old(CurrentJob())
            && tsc < t0 + Duration(job, start) && rnmi == old(rnmi) && rirq == old(rirq)
        decreases if AtBoundary() then 0 else t0 + Duration(job, start) - tsc
      {
        Cycle();
      }
    }

    /** n documented instructions with nothing pending. */
    method Steps(n: nat)
      requires Valid() && AtBoundary() && !rnmi && !rirq && DocumentedRun(start, n)
      modifies this
      ensures Valid() && AtBoundary() && !rnmi && !rirq
      ensures Arch() == start == Run(old(start), n)
      ensures tsc == old(tsc) + RunCycles(old(start), n)
    {
      hide ValidLoad, ValidExecute, ValidEntry, Execute, Cycles, Next;
      var c := n;
      while c > 0
        invariant 0 <= c <= n
        invariant Valid() && AtBoundary() && !rnmi && !rirq && DocumentedRun(start, c) && Arch() == start
        invariant Run(start, c) == Run(old(start), n)
        invariant tsc + RunCycles(start, c) == old(tsc) + RunCycles(old(start), n)
      {
        Step();
        c := c - 1;
      }
    }
  }
}
