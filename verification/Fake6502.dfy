/** The fake6502 core's clock: table-driven costs, handlers that take a tick back
    on an unsigned counter, and the loop that runs to a budget of ticks. */
module Fake6502 {
  import opened Isa
  import opened Words
  import O2

  /** C's 32-bit unsigned integers. */
  type uint32 = x: int | 0 <= x < 0x1_0000_0000

  function Wrap(x: int): uint32 { x % 0x1_0000_0000 }

  /** The entries of the handler table: documented operations, and the undocumented
      ones built from two of them. */
  datatype Handler = Documented(op: Op) | LAX | SAX | DCP | ISB | SLO | RLA | SRE | RRA

  datatype Branching = NotTaken | Near | Far

  /** Registers, memory and whatever else instructions work on, with what they do to
      it. The clock depends on it only through the answers given here. */
  datatype Machine<!D> = Machine(
    /** read6502(pc++) */
    fetch: D -> (byte, D),
    /** Computes an effective address, and says whether indexing left the page. */
    address: (Mode, D) -> (bool, D),
    /** Whether a branch jumps, and whether to another page. */
    branch: (BranchOp, D) -> Branching,
    /** A documented handler; the opcode tells accumulator forms from memory ones. */
    effect: (Op, byte, D) -> D,
    /** putvalue(a & x) */
    storeAX: D -> D)

  /** A row of the addressing-mode table. */
  function AddrRow(row: nat): (r: seq<Mode>)
    requires row < 0x10
    ensures |r| == 0x10
  {
    match row
    case 0x0 | 0x4 => [
      NoOperand, IndirectX, NoOperand, IndirectX, ZeroPage, ZeroPage, ZeroPage, ZeroPage,
      NoOperand, Immediate, Accumulator, Immediate, Absolute, Absolute, Absolute, Absolute]
    case 0x1 | 0x3 | 0x5 | 0x7 | 0xD | 0xF => [
      Relative, IndirectY, NoOperand, IndirectY, ZeroPageX, ZeroPageX, ZeroPageX, ZeroPageX,
      NoOperand, AbsoluteY, NoOperand, AbsoluteY, AbsoluteX, AbsoluteX, AbsoluteX, AbsoluteX]
    case 0x2 => [
      Absolute, IndirectX, NoOperand, IndirectX, ZeroPage, ZeroPage, ZeroPage, ZeroPage,
      NoOperand, Immediate, Accumulator, Immediate, Absolute, Absolute, Absolute, Absolute]
    case 0x6 => [
      NoOperand, IndirectX, NoOperand, IndirectX, ZeroPage, ZeroPage, ZeroPage, ZeroPage,
      NoOperand, Immediate, Accumulator, Immediate, Indirect, Absolute, Absolute, Absolute]
    case 0x8 | 0xA | 0xC | 0xE => [
      Immediate, IndirectX, Immediate, IndirectX, ZeroPage, ZeroPage, ZeroPage, ZeroPage,
      NoOperand, Immediate, NoOperand, Immediate, Absolute, Absolute, Absolute, Absolute]
    case _ => [
      Relative, IndirectY, NoOperand, IndirectY, ZeroPageX, ZeroPageX, ZeroPageY, ZeroPageY,
      NoOperand, AbsoluteY, NoOperand, AbsoluteY, AbsoluteX, AbsoluteX, AbsoluteY, AbsoluteY]
  }

  /** A row of the handler table. */
  function OpRow(row: nat): (r: seq<Handler>)
    requires row < 0x10
    ensures |r| == 0x10
  {
    match row
    case 0x0 => [
      Documented(BRK), Documented(Read(ORA)), Documented(Register(NOP)), SLO,
      Documented(Register(NOP)), Documented(Read(ORA)), Documented(Modify(ASL)), SLO,
      Documented(PHP), Documented(Read(ORA)), Documented(Modify(ASL)), Documented(Register(NOP)),
      Documented(Register(NOP)), Documented(Read(ORA)), Documented(Modify(ASL)), SLO]
    case 0x1 => [
      Documented(Branch(BPL)), Documented(Read(ORA)), Documented(Register(NOP)), SLO,
      Documented(Register(NOP)), Documented(Read(ORA)), Documented(Modify(ASL)), SLO,
      Documented(Register(CLC)), Documented(Read(ORA)), Documented(Register(NOP)), SLO,
      Documented(Register(NOP)), Documented(Read(ORA)), Documented(Modify(ASL)), SLO]
    case 0x2 => [
      Documented(JSR), Documented(Read(AND)), Documented(Register(NOP)), RLA,
      Documented(Read(BIT)), Documented(Read(AND)), Documented(Modify(ROL)), RLA,
      Documented(PLP), Documented(Read(AND)), Documented(Modify(ROL)), Documented(Register(NOP)),
      Documented(Read(BIT)), Documented(Read(AND)), Documented(Modify(ROL)), RLA]
    case 0x3 => [
      Documented(Branch(BMI)), Documented(Read(AND)), Documented(Register(NOP)), RLA,
      Documented(Register(NOP)), Documented(Read(AND)), Documented(Modify(ROL)), RLA,
      Documented(Register(SEC)), Documented(Read(AND)), Documented(Register(NOP)), RLA,
      Documented(Register(NOP)), Documented(Read(AND)), Documented(Modify(ROL)), RLA]
    case 0x4 => [
      Documented(RTI), Documented(Read(EOR)), Documented(Register(NOP)), SRE,
      Documented(Register(NOP)), Documented(Read(EOR)), Documented(Modify(LSR)), SRE,
      Documented(PHA), Documented(Read(EOR)), Documented(Modify(LSR)), Documented(Register(NOP)),
      Documented(JMP), Documented(Read(EOR)), Documented(Modify(LSR)), SRE]
    case 0x5 => [
      Documented(Branch(BVC)), Documented(Read(EOR)), Documented(Register(NOP)), SRE,
      Documented(Register(NOP)), Documented(Read(EOR)), Documented(Modify(LSR)), SRE,
      Documented(Register(CLI)), Documented(Read(EOR)), Documented(Register(NOP)), SRE,
      Documented(Register(NOP)), Documented(Read(EOR)), Documented(Modify(LSR)), SRE]
    case 0x6 => [
      Documented(RTS), Documented(Read(ADC)), Documented(Register(NOP)), RRA,
      Documented(Register(NOP)), Documented(Read(ADC)), Documented(Modify(ROR)), RRA,
      Documented(PLA), Documented(Read(ADC)), Documented(Modify(ROR)), Documented(Register(NOP)),
      Documented(JMP), Documented(Read(ADC)), Documented(Modify(ROR)), RRA]
    case 0x7 => [
      Documented(Branch(BVS)), Documented(Read(ADC)), Documented(Register(NOP)), RRA,
      Documented(Register(NOP)), Documented(Read(ADC)), Documented(Modify(ROR)), RRA,
      Documented(Register(SEI)), Documented(Read(ADC)), Documented(Register(NOP)), RRA,
      Documented(Register(NOP)), Documented(Read(ADC)), Documented(Modify(ROR)), RRA]
    case 0x8 => [
      Documented(Register(NOP)), Documented(Store(STA)), Documented(Register(NOP)), SAX,
      Documented(Store(STY)), Documented(Store(STA)), Documented(Store(STX)), SAX,
      Documented(Register(DEY)), Documented(Register(NOP)), Documented(Register(TXA)), Documented(Register(NOP)),
      Documented(Store(STY)), Documented(Store(STA)), Documented(Store(STX)), SAX]
    case 0x9 => [
      Documented(Branch(BCC)), Documented(Store(STA)), Documented(Register(NOP)), Documented(Register(NOP)),
      Documented(Store(STY)), Documented(Store(STA)), Documented(Store(STX)), SAX,
      Documented(Register(TYA)), Documented(Store(STA)), Documented(Register(TXS)), Documented(Register(NOP)),
      Documented(Register(NOP)), Documented(Store(STA)), Documented(Register(NOP)), Documented(Register(NOP))]
    case 0xA => [
      Documented(Read(LDY)), Documented(Read(LDA)), Documented(Read(LDX)), LAX,
      Documented(Read(LDY)), Documented(Read(LDA)), Documented(Read(LDX)), LAX,
      Documented(Register(TAY)), Documented(Read(LDA)), Documented(Register(TAX)), Documented(Register(NOP)),
      Documented(Read(LDY)), Documented(Read(LDA)), Documented(Read(LDX)), LAX]
    case 0xB => [
      Documented(Branch(BCS)), Documented(Read(LDA)), Documented(Register(NOP)), LAX,
      Documented(Read(LDY)), Documented(Read(LDA)), Documented(Read(LDX)), LAX,
      Documented(Register(CLV)), Documented(Read(LDA)), Documented(Register(TSX)), LAX,
      Documented(Read(LDY)), Documented(Read(LDA)), Documented(Read(LDX)), LAX]
    case 0xC => [
      Documented(Read(CPY)), Documented(Read(CMP)), Documented(Register(NOP)), DCP,
      Documented(Read(CPY)), Documented(Read(CMP)), Documented(Modify(DEC)), DCP,
      Documented(Register(INY)), Documented(Read(CMP)), Documented(Register(DEX)), Documented(Register(NOP)),
      Documented(Read(CPY)), Documented(Read(CMP)), Documented(Modify(DEC)), DCP]
    case 0xD => [
      Documented(Branch(BNE)), Documented(Read(CMP)), Documented(Register(NOP)), DCP,
      Documented(Register(NOP)), Documented(Read(CMP)), Documented(Modify(DEC)), DCP,
      Documented(Register(CLD)), Documented(Read(CMP)), Documented(Register(NOP)), DCP,
      Documented(Register(NOP)), Documented(Read(CMP)), Documented(Modify(DEC)), DCP]
    case 0xE => [
      Documented(Read(CPX)), Documented(Read(SBC)), Documented(Register(NOP)), ISB,
      Documented(Read(CPX)), Documented(Read(SBC)), Documented(Modify(INC)), ISB,
      Documented(Register(INX)), Documented(Read(SBC)), Documented(Register(NOP)), Documented(Read(SBC)),
      Documented(Read(CPX)), Documented(Read(SBC)), Documented(Modify(INC)), ISB]
    case _ => [
      Documented(Branch(BEQ)), Documented(Read(SBC)), Documented(Register(NOP)), ISB,
      Documented(Register(NOP)), Documented(Read(SBC)), Documented(Modify(INC)), ISB,
      Documented(Register(SED)), Documented(Read(SBC)), Documented(Register(NOP)), ISB,
      Documented(Register(NOP)), Documented(Read(SBC)), Documented(Modify(INC)), ISB]
  }

  /** A row of the base-cost table. */
  function TickRow(row: nat): (r: seq<nat>)
    requires row < 0x10
    ensures |r| == 0x10
  {
    match row
    case 0x0 => [7, 6, 2, 8, 3, 3, 5, 5, 3, 2, 2, 2, 4, 4, 6, 6]
    case 0x1 | 0x3 | 0x5 | 0x7 | 0xD | 0xF => [2, 5, 2, 8, 4, 4, 6, 6, 2, 4, 2, 7, 4, 4, 7, 7]
    case 0x2 => [6, 6, 2, 8, 3, 3, 5, 5, 4, 2, 2, 2, 4, 4, 6, 6]
    case 0x4 => [6, 6, 2, 8, 3, 3, 5, 5, 3, 2, 2, 2, 3, 4, 6, 6]
    case 0x6 => [6, 6, 2, 8, 3, 3, 5, 5, 4, 2, 2, 2, 5, 4, 6, 6]
    case 0x8 | 0xA => [2, 6, 2, 6, 3, 3, 3, 3, 2, 2, 2, 2, 4, 4, 4, 4]
    case 0x9 => [2, 6, 2, 6, 4, 4, 4, 4, 2, 5, 2, 5, 5, 5, 5, 5]
    case 0xB => [2, 5, 2, 5, 4, 4, 4, 4, 2, 4, 2, 4, 4, 4, 4, 4]
    case _ => [2, 6, 2, 8, 3, 3, 5, 5, 2, 2, 2, 2, 4, 4, 6, 6]
  }

  function AddrTable(opcode: byte): Mode { AddrRow(opcode / 0x10)[opcode % 0x10] }
  function OpTable(opcode: byte): Handler { OpRow(opcode / 0x10)[opcode % 0x10] }
  function TickTable(opcode: byte): nat { TickRow(opcode / 0x10)[opcode % 0x10] }

  // ---------------------------------------------------------------- specification

  /** The modes whose page crossings can cost a tick. */
  predicate Indexed(mode: Mode) { mode in {AbsoluteX, AbsoluteY, IndirectY} }

  predicate PenalisedRead(op: ReadOp) { op !in {BIT, CPX, CPY} }

  /** Whether a page crossing costs a tick in the end. */
  predicate Penalised(opcode: byte) {
    match OpTable(opcode)
    case Documented(op) =>
      if op.Read? then PenalisedRead(op.readOp)
      else op == Register(NOP) && opcode in {0x1C, 0x3C, 0x5C, 0x7C, 0xDC, 0xFC}
    case LAX => true
    case _ => false
  }

  function BranchTicks(b: Branching): nat { match b case NotTaken => 0 case Near => 1 case Far => 2 }

  function Crossing<D(!new)>(m: Machine<D>, d: D): bool {
    var (opcode, fetched) := m.fetch(d);
    m.address(AddrTable(opcode), fetched).0 && Indexed(AddrTable(opcode))
  }

  function Addressed<D(!new)>(m: Machine<D>, d: D): D {
    var (opcode, fetched) := m.fetch(d);
    m.address(AddrTable(opcode), fetched).1
  }

  function TickCost<D(!new)>(m: Machine<D>, d: D): nat {
    var opcode := m.fetch(d).0;
    TickTable(opcode) + Bit(Penalised(opcode) && Crossing(m, d)) + Jump(m, opcode, Addressed(m, d))
  }

  function Jump<D(!new)>(m: Machine<D>, opcode: byte, d: D): nat {
    match OpTable(opcode)
    case Documented(op) => if op.Branch? then BranchTicks(m.branch(op.branchOp, d)) else 0
    case _ => 0
  }

  function Handled<D(!new)>(m: Machine<D>, h: Handler, opcode: byte, d: D): D {
    match h
    case Documented(op) => m.effect(op, opcode, d)
    case LAX => m.effect(Read(LDX), opcode, m.effect(Read(LDA), opcode, d))
    case SAX => m.storeAX(m.effect(Store(STX), opcode, m.effect(Store(STA), opcode, d)))
    case DCP => m.effect(Read(CMP), opcode, m.effect(Modify(DEC), opcode, d))
    case ISB => m.effect(Read(SBC), opcode, m.effect(Modify(INC), opcode, d))
    case SLO => m.effect(Read(ORA), opcode, m.effect(Modify(ASL), opcode, d))
    case RLA => m.effect(Read(AND), opcode, m.effect(Modify(ROL), opcode, d))
    case SRE => m.effect(Read(EOR), opcode, m.effect(Modify(LSR), opcode, d))
    case RRA => m.effect(Read(ADC), opcode, m.effect(Modify(ROR), opcode, d))
  }

  function After<D(!new)>(m: Machine<D>, d: D): D {
    var opcode := m.fetch(d).0;
    Handled(m, OpTable(opcode), opcode, Addressed(m, d))
  }

  /** n instructions, and what they cost together. */
  function Stepped<D(!new)>(m: Machine<D>, d: D, n: nat): D {
    if n == 0 then d else After(m, Stepped(m, d, n - 1))
  }

  function TotalCost<D(!new)>(m: Machine<D>, d: D, n: nat): nat {
    if n == 0 then 0 else TotalCost(m, d, n - 1) + TickCost(m, Stepped(m, d, n - 1))
  }

  // ---------------------------------------------------------------- costs

  predicate Priced(opcode: byte) {
    && 2 <= TickTable(opcode) <= 8
    && (Penalised(opcode) && Indexed(AddrTable(opcode)) ==> TickTable(opcode) <= 5)
    && (OpTable(opcode).Documented? && OpTable(opcode).op.Branch? ==>
          TickTable(opcode) == 2 && !Indexed(AddrTable(opcode)))
    && (OpTable(opcode).Documented? && OpTable(opcode).op.Read? && !PenalisedRead(OpTable(opcode).op.readOp) ==>
          !Indexed(AddrTable(opcode)))
  }

  /** Every entry of the three tables, documented or not. */
  lemma EveryOpcodeIsPriced(opcode: byte)
    ensures Priced(opcode)
  {
    hide Priced, OpTable, TickTable, AddrTable;
    match opcode / 0x10
    case 0x0 => Row0(opcode);
    case 0x1 => Row1(opcode);
    case 0x2 => Row2(opcode);
    case 0x3 => Row3(opcode);
    case 0x4 => Row4(opcode);
    case 0x5 => Row5(opcode);
    case 0x6 => Row6(opcode);
    case 0x7 => Row7(opcode);
    case 0x8 => Row8(opcode);
    case 0x9 => Row9(opcode);
    case 0xA => RowA(opcode);
    case 0xB => RowB(opcode);
    case 0xC => RowC(opcode);
    case 0xD => RowD(opcode);
    case 0xE => RowE(opcode);
    case _ => RowF(opcode);
  }

  lemma Row0(opcode: byte) requires opcode / 0x10 == 0x0 ensures Priced(opcode) { }
  lemma Row1(opcode: byte) requires opcode / 0x10 == 0x1 ensures Priced(opcode) { }
  lemma Row2(opcode: byte) requires opcode / 0x10 == 0x2 ensures Priced(opcode) { }
  lemma Row3(opcode: byte) requires opcode / 0x10 == 0x3 ensures Priced(opcode) { }
  lemma Row4(opcode: byte) requires opcode / 0x10 == 0x4 ensures Priced(opcode) { }
  lemma Row5(opcode: byte) requires opcode / 0x10 == 0x5 ensures Priced(opcode) { }
  lemma Row6(opcode: byte) requires opcode / 0x10 == 0x6 ensures Priced(opcode) { }
  lemma Row7(opcode: byte) requires opcode / 0x10 == 0x7 ensures Priced(opcode) { }
  lemma Row8(opcode: byte) requires opcode / 0x10 == 0x8 ensures Priced(opcode) { }
  lemma Row9(opcode: byte) requires opcode / 0x10 == 0x9 ensures Priced(opcode) { }
  lemma RowA(opcode: byte) requires opcode / 0x10 == 0xA ensures Priced(opcode) { }
  lemma RowB(opcode: byte) requires opcode / 0x10 == 0xB ensures Priced(opcode) { }
  lemma RowC(opcode: byte) requires opcode / 0x10 == 0xC ensures Priced(opcode) { }
  lemma RowD(opcode: byte) requires opcode / 0x10 == 0xD ensures Priced(opcode) { }
  lemma RowE(opcode: byte) requires opcode / 0x10 == 0xE ensures Priced(opcode) { }
  lemma RowF(opcode: byte) requires opcode / 0x10 == 0xF ensures Priced(opcode) { }

  lemma CostBounds<D(!new)>(m: Machine<D>, d: D)
    ensures 2 <= TickCost(m, d) <= 8
  {
    hide AddrTable, OpTable, TickTable, Penalised, Indexed;
    EveryOpcodeIsPriced(m.fetch(d).0);
  }

  // ---------------------------------------------------------------- agreement

  predicate Agrees(opcode: byte) {
    match InstrTable(opcode)
    case Illegal => true
    case Legal(i) =>
      OpTable(opcode) == Documented(i.op) && AddrTable(opcode) == i.mode && TickTable(opcode) == i.cycles
  }

  /** The documented part of the tables is the one of the other cores: same
      operation, same mode, same base cost, same penalty for a crossing. */
  lemma TablesAgree(opcode: byte)
    requires InstrTable(opcode).Legal?
    ensures var i := InstrTable(opcode).instr;
            && OpTable(opcode) == Documented(i.op) && AddrTable(opcode) == i.mode && TickTable(opcode) == i.cycles
            && (i.penalty <==> i.op.Branch? || (Penalised(opcode) && Indexed(i.mode)))
  {
    hide OpTable, TickTable, AddrTable, InstrTable;
    EntriesAgree(opcode);
    O2.TableIsRegular(opcode);
    EveryOpcodeIsPriced(opcode);
  }

  /** A machine that meets the instruction at s.pc and answers for it as the reference
      instruction set does. */
  predicate AnswersAs<D(!new)>(m: Machine<D>, d: D, s: Arch)
    requires Next(s).Legal?
  {
    var i := Next(s).instr;
    var t := Resolve(i.mode, Fetched(s));
    && m.fetch(d).0 == s.ram[s.pc]
    && m.address(i.mode, m.fetch(d).1).0 == t.crossed
    && (i.op.Branch? ==>
          m.branch(i.op.branchOp, Addressed(m, d)) ==
            if !Taken(i.op.branchOp, s.f) then NotTaken else if t.crossed then Far else Near)
  }

  /** On a documented instruction the net cost is the published one. */
  lemma DocumentedCost<D(!new)>(m: Machine<D>, d: D, s: Arch)
    requires Next(s).Legal? && AnswersAs(m, d, s)
    ensures TickCost(m, d) == Cycles(Next(s).instr, s)
  {
    hide OpTable, TickTable, AddrTable, InstrTable, Penalised, Resolve, Taken, Addressed;
    var opcode := s.ram[s.pc];
    TablesAgree(opcode);
    EveryOpcodeIsPriced(opcode);
    NeverBoth(opcode);
  }

  /** Penalties belong to indexed reads, not to branches. */
  lemma NeverBoth(opcode: byte)
    ensures OpTable(opcode).Documented? && OpTable(opcode).op.Branch? ==> !Penalised(opcode)
  {
    hide OpTable;
  }

  lemma EntriesAgree(opcode: byte)
    ensures Agrees(opcode)
  {
    hide Agrees, OpTable, TickTable, AddrTable, InstrTable;
    match opcode / 0x10
    case 0x0 => if opcode < 8 { Agree00(opcode); } else { Agree08(opcode); }
    case 0x1 => Agree1(opcode);
    case 0x2 => Agree2(opcode);
    case 0x3 => Agree3(opcode);
    case 0x4 => Agree4(opcode);
    case 0x5 => Agree5(opcode);
    case 0x6 => Agree6(opcode);
    case 0x7 => Agree7(opcode);
    case 0x8 => Agree8(opcode);
    case 0x9 => Agree9(opcode);
    case 0xA => AgreeA(opcode);
    case 0xB => AgreeB(opcode);
    case 0xC => AgreeC(opcode);
    case 0xD => AgreeD(opcode);
    case 0xE => AgreeE(opcode);
    case _ => AgreeF(opcode);
  }

  lemma Agree00(opcode: byte) requires opcode / 8 == 0 ensures Agrees(opcode) { hide OddRows; }
  lemma Agree08(opcode: byte) requires opcode / 8 == 1 ensures Agrees(opcode) { hide OddRows; }
  lemma Agree1(opcode: byte) requires opcode / 0x10 == 0x1 ensures Agrees(opcode) { hide EvenRows; }
  lemma Agree2(opcode: byte) requires opcode / 0x10 == 0x2 ensures Agrees(opcode) { hide OddRows; }
  lemma Agree3(opcode: byte) requires opcode / 0x10 == 0x3 ensures Agrees(opcode) { hide EvenRows; }
  lemma Agree4(opcode: byte) requires opcode / 0x10 == 0x4 ensures Agrees(opcode) { hide OddRows; }
  lemma Agree5(opcode: byte) requires opcode / 0x10 == 0x5 ensures Agrees(opcode) { hide EvenRows; }
  lemma Agree6(opcode: byte) requires opcode / 0x10 == 0x6 ensures Agrees(opcode) { hide OddRows; }
  lemma Agree7(opcode: byte) requires opcode / 0x10 == 0x7 ensures Agrees(opcode) { hide EvenRows; }
  lemma Agree8(opcode: byte) requires opcode / 0x10 == 0x8 ensures Agrees(opcode) { hide OddRows; }
  lemma Agree9(opcode: byte) requires opcode / 0x10 == 0x9 ensures Agrees(opcode) { hide EvenRows; }
  lemma AgreeA(opcode: byte) requires opcode / 0x10 == 0xA ensures Agrees(opcode) { hide OddRows; }
  lemma AgreeB(opcode: byte) requires opcode / 0x10 == 0xB ensures Agrees(opcode) { hide EvenRows; }
  lemma AgreeC(opcode: byte) requires opcode / 0x10 == 0xC ensures Agrees(opcode) { hide OddRows; }
  lemma AgreeD(opcode: byte) requires opcode / 0x10 == 0xD ensures Agrees(opcode) { hide EvenRows; }
  lemma AgreeE(opcode: byte) requires opcode / 0x10 == 0xE ensures Agrees(opcode) { hide OddRows; }
  lemma AgreeF(opcode: byte) requires opcode / 0x10 == 0xF ensures Agrees(opcode) { hide EvenRows; }

  // ---------------------------------------------------------------- the core

  class Cpu<D(!new)> {
    const machine: Machine<D>
    var data: D
    var opcode: byte
    var penaltyop: bool
    var penaltyaddr: bool
    var clockticks: uint32
    var clockgoal: uint32

    constructor (machine: Machine<D>, data: D)
      ensures this.machine == machine && this.data == data
    {
      this.machine, this.data := machine, data;
      opcode, penaltyop, penaltyaddr, clockticks, clockgoal := 0, false, false, 0, 0;
    }

    /** (*addrtable[opcode])() */
    method Address()
      requires !penaltyaddr
      modifies `data, `penaltyaddr
      ensures data == machine.address(AddrTable(opcode), old(data)).1
      ensures penaltyaddr == (machine.address(AddrTable(opcode), old(data)).0 && Indexed(AddrTable(opcode)))
    {
      hide AddrTable;
      var mode := AddrTable(opcode);
      var (crossed, next) := machine.address(mode, data);
      data := next;
      if Indexed(mode) && crossed { penaltyaddr := true; }
    }

    /** A documented handler. */
    method Do(op: Op)
      modifies `data, `penaltyop, `clockticks
      ensures data == machine.effect(op, opcode, old(data))
      ensures penaltyop == (old(penaltyop) || (op.Read? && PenalisedRead(op.readOp))
                            || (op == Register(NOP) && opcode in {0x1C, 0x3C, 0x5C, 0x7C, 0xDC, 0xFC}))
      ensures clockticks ==
        if op.Branch? then Wrap(old(clockticks) + BranchTicks(machine.branch(op.branchOp, old(data))))
        else old(clockticks)
    {
      match op {
        case Read(read) => if PenalisedRead(read) { penaltyop := true; }
        case Branch(branch) =>
          match machine.branch(branch, data) {
            case NotTaken =>
            case Far => clockticks := Wrap(clockticks + 2);
            case Near => clockticks := Wrap(clockticks + 1);
          }
        case Register(register) =>
          if register == NOP && opcode in {0x1C, 0x3C, 0x5C, 0x7C, 0xDC, 0xFC} { penaltyop := true; }
        case _ =>
      }
      data := machine.effect(op, opcode, data);
    }

    /** An undocumented handler: two documented ones, and the tick the second one's
        penalty is going to cost is taken back in advance. */
    method Combine(first: Op, second: Op)
      requires !first.Branch? && !second.Branch? && !first.Register? && !second.Register?
      modifies `data, `penaltyop, `clockticks
      ensures data == machine.effect(second, opcode, machine.effect(first, opcode, old(data)))
      ensures penaltyop == (old(penaltyop) || (first.Read? && PenalisedRead(first.readOp))
                            || (second.Read? && PenalisedRead(second.readOp)))
      ensures clockticks == Wrap(old(clockticks) - Bit(penaltyop && penaltyaddr))
    {
      Do(first);
      Do(second);
      if penaltyop && penaltyaddr { clockticks := Wrap(clockticks - 1); }
    }

    /** sax() */
    method StoreBoth()
      modifies `data, `penaltyop, `clockticks
      ensures data == Handled(machine, SAX, opcode, old(data)) && penaltyop == old(penaltyop)
      ensures clockticks == Wrap(old(clockticks) - Bit(penaltyop && penaltyaddr))
    {
      Do(Store(STA));
      Do(Store(STX));
      data := machine.storeAX(data);
      if penaltyop && penaltyaddr { clockticks := Wrap(clockticks - 1); }
    }

    /** An undocumented handler. */
    method Undocumented(h: Handler)
      requires !penaltyop && !h.Documented?
      modifies `data, `penaltyop, `clockticks
      ensures data == Handled(machine, h, opcode, old(data))
      ensures h == LAX ==> penaltyop && clockticks == old(clockticks)
      ensures h != LAX ==> clockticks == Wrap(old(clockticks) - Bit(penaltyop && penaltyaddr))
    {
      hide Wrap;
      match h {
        case LAX =>
          Do(Read(LDA));
          Do(Read(LDX));
        case SAX => StoreBoth();
        case DCP => Combine(Modify(DEC), Read(CMP));
        case ISB => Combine(Modify(INC), Read(SBC));
        case SLO => Combine(Modify(ASL), Read(ORA));
        case RLA => Combine(Modify(ROL), Read(AND));
        case SRE => Combine(Modify(LSR), Read(EOR));
        case RRA => Combine(Modify(ROR), Read(ADC));
      }
    }

    /** (*optable[opcode])(): the handler's net effect on the clock is not yet the
        cost of a penalty, which the caller adds. */
    method Operate()
      requires !penaltyop
      modifies `data, `penaltyop, `clockticks
      ensures data == Handled(machine, OpTable(opcode), opcode, old(data))
      ensures Wrap(clockticks + Bit(penaltyop && penaltyaddr))
           == Wrap(old(clockticks) + Jump(machine, opcode, old(data)) + Bit(Penalised(opcode) && penaltyaddr))
    {
      hide OpTable, Wrap;
      ghost var t := clockticks;
      var h := OpTable(opcode);
      if h.Documented? {
        Do(h.op);
        WrapTwice(t, Jump(machine, opcode, old(data)), Bit(penaltyop && penaltyaddr));
      } else {
        Undocumented(h);
        TakenBack(t, penaltyop && penaltyaddr);
      }
    }

    /** What the loop of exec6502 and step6502 do for one instruction. */
    method Instruction()
      modifies `data, `opcode, `penaltyop, `penaltyaddr, `clockticks
      ensures data == After(machine, old(data))
      ensures clockticks == Wrap(old(clockticks) + TickCost(machine, old(data)))
    {
      hide AddrTable, OpTable, TickTable, Penalised, Wrap, Handled, Jump;
      var (fetched, next) := machine.fetch(data);
      opcode, data := fetched, next;
      penaltyop, penaltyaddr := false, false;
      Address();
      ghost var addressed := data;
      ghost var t := clockticks;
      Operate();
      ghost var jump := Jump(machine, opcode, addressed);
      ghost var penalty := Bit(Penalised(opcode) && penaltyaddr);
      ghost var due := Bit(penaltyop && penaltyaddr);
      WrapSum(clockticks, due, t + jump + penalty, TickTable(opcode));
      WrapTwice(clockticks, TickTable(opcode), due);
      clockticks := Wrap(clockticks + TickTable(opcode));
      WrapIdentity(clockticks);
      if penaltyop && penaltyaddr { clockticks := Wrap(clockticks + 1); }
    }

    method Step6502() returns (ticks: uint32)
      modifies `data, `opcode, `penaltyop, `penaltyaddr, `clockticks
      ensures data == After(machine, old(data))
      ensures ticks == TickCost(machine, old(data)) && 2 <= ticks <= 8
    {
      hide TickCost, After;
      CostBounds(machine, data);
      WrapIdentity(TickCost(machine, data));
      clockticks := 0;
      Instruction();
      ticks := clockticks;
    }

    /** Runs to a budget of ticks: exactly as many single steps as it takes to use it
        up, overrunning it by at most seven. */
    method Exec6502(tickcount: uint32) returns (ticks: uint32, ghost n: nat)
      requires tickcount <= 0x1_0000_0000 - 8
      modifies `data, `opcode, `penaltyop, `penaltyaddr, `clockticks, `clockgoal
      ensures tickcount <= ticks && (tickcount > 0 ==> ticks <= tickcount + 7)
      ensures data == Stepped(machine, old(data), n) && ticks == TotalCost(machine, old(data), n)
      ensures n > 0 ==> TotalCost(machine, old(data), n - 1) < tickcount
      ensures tickcount == 0 ==> n == 0
    {
      hide TickCost, After;
      clockgoal := tickcount;
      clockticks := 0;
      n := 0;
      while clockticks < clockgoal
        invariant clockgoal == tickcount
        invariant data == Stepped(machine, old(data), n) && clockticks == TotalCost(machine, old(data), n)
        invariant n > 0 ==> TotalCost(machine, old(data), n - 1) < tickcount
        invariant tickcount > 0 ==> clockticks <= tickcount + 7
        invariant tickcount == 0 ==> n == 0
        decreases tickcount - clockticks
      {
        CostBounds(machine, data);
        WrapIdentity(clockticks + TickCost(machine, data));
        Instruction();
        n := n + 1;
      }
      ticks := clockticks;
    }
  }

  lemma WrapTwice(x: int, y: int, z: int)
    ensures Wrap(Wrap(x + y) + z) == Wrap(x + y + z)
  {
  }

  lemma TakenBack(t: int, due: bool)
    ensures Wrap(Wrap(t - Bit(due)) + Bit(due)) == Wrap(t)
  {
  }

  lemma WrapSum(x: int, dx: int, y: int, k: int)
    requires Wrap(x + dx) == Wrap(y)
    ensures Wrap(x + k + dx) == Wrap(y + k)
  {
    WrapTwice(x, dx, k);
    WrapTwice(y, 0, k);
  }

  lemma WrapIdentity(x: int)
    requires 0 <= x < 0x1_0000_0000
    ensures Wrap(x) == x
  {
  }

  // ---------------------------------------------------------------- large budgets

  /** The 32-bit counter reaches the goal after some number of instructions. */
  ghost predicate Stops<D(!new)>(m: Machine<D>, d: D, goal: uint32) {
    exists n: nat :: Wrap(TotalCost(m, d, n)) >= goal
  }

  lemma {:induction false} GoalIsReached<D(!new)>(m: Machine<D>, d: D, goal: nat) returns (n: nat)
    ensures goal <= TotalCost(m, d, n) && (goal > 0 ==> TotalCost(m, d, n) <= goal + 7)
  {
    hide TickCost;
    n := 0;
    while TotalCost(m, d, n) < goal
      invariant goal > 0 ==> TotalCost(m, d, n) <= goal + 7
      decreases goal - TotalCost(m, d, n)
    {
      CostBounds(m, Stepped(m, d, n));
      n := n + 1;
    }
  }

  /** The registers and the memory of the core. */
  datatype Core = Core(a: byte, x: byte, y: byte, sp: byte, pc: word, ea: word, f: Flags, mem: Ram)

  /** Zero-page indexed indirect: the pointer wraps inside the zero page. */
  function Indx(s: Core): Core {
    var p := Low(s.mem[s.pc] + s.x);
    s.(pc := Trunc(s.pc + 1), ea := Pair(s.mem[Low(p + 1)], s.mem[p]))
  }

  /** The memory form of ASL. */
  function AslMemory(s: Core): Core {
    s.(mem := s.mem[s.ea := Modified(ASL, s.mem[s.ea], s.f.c)], f := ModifiedFlags(ASL, s.mem[s.ea], s.f))
  }

  function Ora(s: Core): Core {
    var v := BitOr(s.a, s.mem[s.ea]);
    s.(a := v, f := NZ(s.f, v))
  }

  /** In state s the machine fetches, resolves (zp,X) and carries out the two halves
      of SLO as the core does. Nothing is said of the rest of it. */
  predicate SloAt(m: Machine<Core>, s: Core) {
    && m.fetch(s) == (s.mem[s.pc], s.(pc := Trunc(s.pc + 1)))
    && m.address(IndirectX, s).1 == Indx(s)
    && m.effect(Modify(ASL), 0x03, s) == AslMemory(s)
    && m.effect(Read(ORA), 0x03, s) == Ora(s)
  }

  ghost predicate RunsSlo(m: Machine<Core>) { forall s: Core :: SloAt(m, s) }

  /** SLO ($00,X) in every even place and X zero: the pointer at zero leads to address
      three, which holds a zero byte. */
  predicate Looping(s: Core) {
    && s.x == 0 && s.pc % 2 == 0
    && forall k: nat :: k < 0x1_0000 ==> s.mem[k] == if k % 2 == 0 then 0x03 else 0x00
  }

  function LoopStart(): Core {
    Core(0, 0, 0, 0xFD, 0, 0, Flags(false, false, false, false, false, false),
         seq(0x1_0000, k => if k % 2 == 0 then 0x03 else 0x00))
  }

  lemma SloEntry()
    ensures OpTable(0x03) == SLO && AddrTable(0x03) == IndirectX && TickTable(0x03) == 8 && !Penalised(0x03)
  {
  }

  lemma PointerOfLoop(s: Core)
    requires Looping(s)
    ensures s.mem[s.pc] == 0x03
    ensures var t := Indx(s.(pc := Trunc(s.pc + 1))); t.ea == 3 && t.mem == s.mem && t.x == 0 && t.pc % 2 == 0
  {
    assert s.mem[s.pc + 1] == 0x00;
  }

  lemma SloOnZero(t: Core)
    requires t.ea == 3 && t.mem[3] == 0x00
    ensures var u := Ora(AslMemory(t)); u.mem == t.mem && u.x == t.x && u.pc == t.pc
  {
    assert t.mem[3 := 0x00] == t.mem;
  }

  lemma SloStep(m: Machine<Core>, s: Core)
    requires RunsSlo(m) && s.mem[s.pc] == 0x03
    ensures After(m, s) == Ora(AslMemory(Indx(s.(pc := Trunc(s.pc + 1))))) && TickCost(m, s) == 8
  {
    hide OpTable, AddrTable, TickTable, Penalised, Indx, AslMemory, Ora, Trunc;
    SloEntry();
    var fetched := s.(pc := Trunc(s.pc + 1));
    assert SloAt(m, s) && SloAt(m, fetched) && SloAt(m, Indx(fetched)) && SloAt(m, AslMemory(Indx(fetched)));
  }

  /** One SLO of that program changes nothing but the program counter. */
  lemma LoopGoesOn(m: Machine<Core>, s: Core)
    requires RunsSlo(m) && Looping(s)
    ensures Looping(After(m, s)) && TickCost(m, s) == 8
  {
    hide RunsSlo, After, TickCost, Indx, AslMemory, Ora, Trunc;
    PointerOfLoop(s);
    SloStep(m, s);
    SloOnZero(Indx(s.(pc := Trunc(s.pc + 1))));
  }

  lemma {:induction false} LoopForEver(m: Machine<Core>, s: Core, n: nat)
    requires RunsSlo(m) && Looping(s)
    ensures Looping(Stepped(m, s, n)) && TotalCost(m, s, n) == 8 * n
  {
    hide RunsSlo, Looping, After, TickCost;
    if n > 0 {
      LoopForEver(m, s, n - 1);
      LoopGoesOn(m, Stepped(m, s, n - 1));
    }
  }

  /** A machine of that kind, doing nothing in every other handler. */
  function SloOnly(): Machine<Core> {
    Machine((s: Core) => (s.mem[s.pc], s.(pc := Trunc(s.pc + 1))),
            (mode: Mode, s: Core) => (false, Indx(s)),
            (_: BranchOp, _: Core) => NotTaken,
            (op: Op, _: byte, s: Core) => if op == Modify(ASL) then AslMemory(s) else Ora(s),
            (s: Core) => s)
  }

  /** The loop ends exactly for budgets of at most 2^32 - 8. Up to there it ends on
      every machine whatever. Beyond, every machine that runs SLO as the core does has a
      memory on which the counter wraps past the goal for ever. */
  lemma SafeBudgets<D(!new)>(goal: uint32)
    ensures goal <= 0x1_0000_0000 - 8 ==> forall m: Machine<D>, s: D :: Stops(m, s, goal)
    ensures goal > 0x1_0000_0000 - 8 ==> forall m: Machine<Core> :: RunsSlo(m) ==> !Stops(m, LoopStart(), goal)
    ensures goal <= 0x1_0000_0000 - 8 <==> forall m: Machine<Core>, s: Core :: RunsSlo(m) ==> Stops(m, s, goal)
  {
    hide RunsSlo, LoopStart, SloOnly, TotalCost;
    if goal <= 0x1_0000_0000 - 8 {
      forall m: Machine<D>, s: D ensures Stops(m, s, goal) { SmallBudget(m, s, goal); }
      forall m: Machine<Core>, s: Core ensures Stops(m, s, goal) { SmallBudget(m, s, goal); }
    } else {
      forall m: Machine<Core> | RunsSlo(m) ensures !Stops(m, LoopStart(), goal) { LargeBudget(m, goal); }
      SloOnlyRunsSlo();
      assert !Stops(SloOnly(), LoopStart(), goal);
    }
  }

  lemma SloOnlyRunsSlo()
    ensures RunsSlo(SloOnly())
  {
  }

  lemma SmallBudget<D(!new)>(m: Machine<D>, s: D, goal: uint32)
    requires goal <= 0x1_0000_0000 - 8
    ensures Stops(m, s, goal)
  {
    var n := GoalIsReached(m, s, goal);
    if goal > 0 { WrapIdentity(TotalCost(m, s, n)); }
  }

  lemma LargeBudget(m: Machine<Core>, goal: uint32)
    requires RunsSlo(m) && goal > 0x1_0000_0000 - 8
    ensures !Stops(m, LoopStart(), goal)
  {
    hide RunsSlo, Looping;
    assert Looping(LoopStart()) by { StartLoops(); }
    forall n: nat ensures Wrap(TotalCost(m, LoopStart(), n)) < goal {
      LoopForEver(m, LoopStart(), n);
      MultipleOfEight(n);
    }
  }

  lemma StartLoops()
    ensures Looping(LoopStart())
  {
  }

  lemma MultipleOfEight(n: nat)
    ensures Wrap(8 * n) <= 0x1_0000_0000 - 8
  {
    assert Wrap(8 * n) % 8 == 0;
  }
}
