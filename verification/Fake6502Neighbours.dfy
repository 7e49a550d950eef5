/** The undocumented half of fake6502's tables, told by documented neighbours. */
module Fake6502Neighbours {
  import opened Words
  import opened Isa
  import opened Fake6502

  // ---------------------------------------------------------------- which they are

  /** The 105 opcodes without a documented meaning. */
  predicate Undocumented(opcode: byte) {
    match opcode % 4
    case 0 => opcode in {0x04, 0x0C, 0x14, 0x1C, 0x34, 0x3C, 0x44, 0x54, 0x5C, 0x64, 0x74, 0x7C, 0x80, 0x9C, 0xD4, 0xDC,
                         0xF4, 0xFC}
    case 1 => opcode == 0x89
    case 2 => opcode in {0x02, 0x12, 0x1A, 0x22, 0x32, 0x3A, 0x42, 0x52, 0x5A, 0x62, 0x72, 0x7A, 0x82, 0x92, 0x9E, 0xB2,
                         0xC2, 0xD2, 0xDA, 0xE2, 0xF2, 0xFA}
    case _ => true
  }

  lemma Columns0(opcode: byte)
    requires 0 <= opcode % 0x20 < 4
    ensures InstrTable(opcode).Illegal? <==> Undocumented(opcode)
  {
  }

  lemma Columns1(opcode: byte)
    requires 4 <= opcode % 0x20 < 8
    ensures InstrTable(opcode).Illegal? <==> Undocumented(opcode)
  {
  }

  lemma Columns2(opcode: byte)
    requires 8 <= opcode % 0x20 < 12
    ensures InstrTable(opcode).Illegal? <==> Undocumented(opcode)
  {
  }

  lemma Columns3(opcode: byte)
    requires 12 <= opcode % 0x20 < 16
    ensures InstrTable(opcode).Illegal? <==> Undocumented(opcode)
  {
  }

  lemma Columns4(opcode: byte)
    requires 16 <= opcode % 0x20 < 20
    ensures InstrTable(opcode).Illegal? <==> Undocumented(opcode)
  {
  }

  lemma Columns5(opcode: byte)
    requires 20 <= opcode % 0x20 < 24
    ensures InstrTable(opcode).Illegal? <==> Undocumented(opcode)
  {
  }

  lemma Columns6(opcode: byte)
    requires 24 <= opcode % 0x20 < 28
    ensures InstrTable(opcode).Illegal? <==> Undocumented(opcode)
  {
  }

  lemma Columns7(opcode: byte)
    requires 28 <= opcode % 0x20 < 32
    ensures InstrTable(opcode).Illegal? <==> Undocumented(opcode)
  {
  }

  lemma UndocumentedOpcodes(opcode: byte)
    ensures InstrTable(opcode).Illegal? <==> Undocumented(opcode)
  {
    hide InstrTable, Undocumented;
    match opcode % 0x20 / 4
    case 0 => Columns0(opcode);
    case 1 => Columns1(opcode);
    case 2 => Columns2(opcode);
    case 3 => Columns3(opcode);
    case 4 => Columns4(opcode);
    case 5 => Columns5(opcode);
    case 6 => Columns6(opcode);
    case _ => Columns7(opcode);
  }

  // ---------------------------------------------------------------- timing

  /** A documented opcode with the addressing mode and the timing of an undocumented one,
      which may take some ticks more. */
  datatype Neighbour = Like(opcode: byte, extra: nat)

  /** A read-modify-write pair is timed as STA and two more; LAX and SAX as the loads and
      stores they are made of; and an opcode that does nothing as a load, or as a store
      among the stores. */
  function NeighbourOf(opcode: byte): Neighbour {
    match opcode % 4
    case 0 => if opcode == 0x9C then Like(0x9D, 0) else Like(0xA0 + opcode % 0x20, 0)
    case 1 => Like(0xA9, 0)
    case 2 =>
      if opcode == 0x9E then Like(0x99, 0)
      else if opcode in {0x82, 0xC2, 0xE2} then Like(0xA2, 0) else Like(0xEA, 0)
    case _ =>
      if opcode % 0x20 == 0x0B then Like(0xA9, 0)
      else match opcode
           case 0x97 => Like(0x96, 0)
           case 0x9F => Like(0x99, 0)
           case 0xB7 => Like(0xB6, 0)
           case 0xBF => Like(0xBE, 0)
           case _ => if 0x80 <= opcode < 0xC0 then Like(opcode - 2, 0) else Like(0x80 + opcode % 0x20 - 2, 2)
  }

  // The neighbours.
  predicate NearStores() {
    && InstrTable(0x81) == Legal(Instr(Store(STA), IndirectX, 6, false))
    && InstrTable(0x85) == Legal(Instr(Store(STA), ZeroPage, 3, false))
    && InstrTable(0x8D) == Legal(Instr(Store(STA), Absolute, 4, false))
    && InstrTable(0x91) == Legal(Instr(Store(STA), IndirectY, 6, false))
    && InstrTable(0x95) == Legal(Instr(Store(STA), ZeroPageX, 4, false))
    && InstrTable(0x99) == Legal(Instr(Store(STA), AbsoluteY, 5, false))
    && InstrTable(0x9D) == Legal(Instr(Store(STA), AbsoluteX, 5, false))
    && InstrTable(0x96) == Legal(Instr(Store(STX), ZeroPageY, 4, false))
  }

  predicate NearLoads() {
    && InstrTable(0xA0) == Legal(Instr(Read(LDY), Immediate, 2, false))
    && InstrTable(0xA4) == Legal(Instr(Read(LDY), ZeroPage, 3, false))
    && InstrTable(0xAC) == Legal(Instr(Read(LDY), Absolute, 4, false))
    && InstrTable(0xB4) == Legal(Instr(Read(LDY), ZeroPageX, 4, false))
    && InstrTable(0xBC) == Legal(Instr(Read(LDY), AbsoluteX, 4, true))
    && InstrTable(0xA2) == Legal(Instr(Read(LDX), Immediate, 2, false))
    && InstrTable(0xB6) == Legal(Instr(Read(LDX), ZeroPageY, 4, false))
    && InstrTable(0xBE) == Legal(Instr(Read(LDX), AbsoluteY, 4, true))
    && InstrTable(0xEA) == Legal(Instr(Register(NOP), NoOperand, 2, false))
  }

  predicate NearAccumulators() {
    && InstrTable(0xA1) == Legal(Instr(Read(LDA), IndirectX, 6, false))
    && InstrTable(0xA5) == Legal(Instr(Read(LDA), ZeroPage, 3, false))
    && InstrTable(0xA9) == Legal(Instr(Read(LDA), Immediate, 2, false))
    && InstrTable(0xAD) == Legal(Instr(Read(LDA), Absolute, 4, false))
    && InstrTable(0xB1) == Legal(Instr(Read(LDA), IndirectY, 5, true))
    && InstrTable(0xB9) == Legal(Instr(Read(LDA), AbsoluteY, 4, true))
  }

  lemma NearStoresHold() ensures NearStores() { }
  lemma NearLoadsHold() ensures NearLoads() { }
  lemma NearAccumulatorsHold() ensures NearAccumulators() { }

  lemma Facts()
    ensures NearStores() && NearLoads() && NearAccumulators()
  {
    hide InstrTable;
    NearStoresHold();
    NearLoadsHold();
    NearAccumulatorsHold();
  }

  /** The opcode has the mode and the base cost of its neighbour. */
  predicate Timed(opcode: byte) {
    Undocumented(opcode) ==>
      var n := NeighbourOf(opcode);
      && InstrTable(n.opcode).Legal? && AddrTable(opcode) == InstrTable(n.opcode).instr.mode
      && TickTable(opcode) == InstrTable(n.opcode).instr.cycles + n.extra
  }

  /** A page crossing costs it a tick exactly when it costs its neighbour one. */
  predicate Charged(opcode: byte) {
    Undocumented(opcode) ==>
      var n := NeighbourOf(opcode);
      && InstrTable(n.opcode).Legal?
      && (Penalised(opcode) && Indexed(AddrTable(opcode)) <==> n.extra == 0 && InstrTable(n.opcode).instr.penalty)
  }

  lemma Timed0(opcode: byte) requires opcode / 0x10 == 0x0 ensures Timed(opcode) { hide InstrTable; Facts(); }
  lemma Timed1(opcode: byte) requires opcode / 0x10 == 0x1 ensures Timed(opcode) { hide InstrTable; Facts(); }
  lemma Timed2(opcode: byte) requires opcode / 0x10 == 0x2 ensures Timed(opcode) { hide InstrTable; Facts(); }
  lemma Timed3(opcode: byte) requires opcode / 0x10 == 0x3 ensures Timed(opcode) { hide InstrTable; Facts(); }
  lemma Timed4(opcode: byte) requires opcode / 0x10 == 0x4 ensures Timed(opcode) { hide InstrTable; Facts(); }
  lemma Timed5(opcode: byte) requires opcode / 0x10 == 0x5 ensures Timed(opcode) { hide InstrTable; Facts(); }
  lemma Timed6(opcode: byte) requires opcode / 0x10 == 0x6 ensures Timed(opcode) { hide InstrTable; Facts(); }
  lemma Timed7(opcode: byte) requires opcode / 0x10 == 0x7 ensures Timed(opcode) { hide InstrTable; Facts(); }
  lemma Timed8(opcode: byte) requires opcode / 0x10 == 0x8 ensures Timed(opcode) { hide InstrTable; Facts(); }
  lemma Timed9(opcode: byte) requires opcode / 0x10 == 0x9 ensures Timed(opcode) { hide InstrTable; Facts(); }
  lemma TimedA(opcode: byte) requires opcode / 0x10 == 0xA ensures Timed(opcode) { hide InstrTable; Facts(); }
  lemma TimedB(opcode: byte) requires opcode / 0x10 == 0xB ensures Timed(opcode) { hide InstrTable; Facts(); }
  lemma TimedC(opcode: byte) requires opcode / 0x10 == 0xC ensures Timed(opcode) { hide InstrTable; Facts(); }
  lemma TimedD(opcode: byte) requires opcode / 0x10 == 0xD ensures Timed(opcode) { hide InstrTable; Facts(); }
  lemma TimedE(opcode: byte) requires opcode / 0x10 == 0xE ensures Timed(opcode) { hide InstrTable; Facts(); }
  lemma TimedF(opcode: byte) requires opcode / 0x10 == 0xF ensures Timed(opcode) { hide InstrTable; Facts(); }

  lemma Charged0(opcode: byte) requires opcode / 0x10 == 0x0 ensures Charged(opcode) { hide InstrTable; Facts(); }
  lemma Charged1(opcode: byte) requires opcode / 0x10 == 0x1 ensures Charged(opcode) { hide InstrTable; Facts(); }
  lemma Charged2(opcode: byte) requires opcode / 0x10 == 0x2 ensures Charged(opcode) { hide InstrTable; Facts(); }
  lemma Charged3(opcode: byte) requires opcode / 0x10 == 0x3 ensures Charged(opcode) { hide InstrTable; Facts(); }
  lemma Charged4(opcode: byte) requires opcode / 0x10 == 0x4 ensures Charged(opcode) { hide InstrTable; Facts(); }
  lemma Charged5(opcode: byte) requires opcode / 0x10 == 0x5 ensures Charged(opcode) { hide InstrTable; Facts(); }
  lemma Charged6(opcode: byte) requires opcode / 0x10 == 0x6 ensures Charged(opcode) { hide InstrTable; Facts(); }
  lemma Charged7(opcode: byte) requires opcode / 0x10 == 0x7 ensures Charged(opcode) { hide InstrTable; Facts(); }
  lemma Charged8(opcode: byte) requires opcode / 0x10 == 0x8 ensures Charged(opcode) { hide InstrTable; Facts(); }
  lemma Charged9(opcode: byte) requires opcode / 0x10 == 0x9 ensures Charged(opcode) { hide InstrTable; Facts(); }
  lemma ChargedA(opcode: byte) requires opcode / 0x10 == 0xA ensures Charged(opcode) { hide InstrTable; Facts(); }
  lemma ChargedB(opcode: byte) requires opcode / 0x10 == 0xB ensures Charged(opcode) { hide InstrTable; Facts(); }
  lemma ChargedC(opcode: byte) requires opcode / 0x10 == 0xC ensures Charged(opcode) { hide InstrTable; Facts(); }
  lemma ChargedD(opcode: byte) requires opcode / 0x10 == 0xD ensures Charged(opcode) { hide InstrTable; Facts(); }
  lemma ChargedE(opcode: byte) requires opcode / 0x10 == 0xE ensures Charged(opcode) { hide InstrTable; Facts(); }
  lemma ChargedF(opcode: byte) requires opcode / 0x10 == 0xF ensures Charged(opcode) { hide InstrTable; Facts(); }

  // ---------------------------------------------------------------- operations

  /** The operations a row of thirty-two has in zero page: the one on memory, X or the
      shifter, and the one on the accumulator. */
  function OnMemory(row: nat): Decoded requires row < 8 { InstrTable(row * 0x20 + 0x06) }
  function OnAccumulator(row: nat): Decoded requires row < 8 { InstrTable(row * 0x20 + 0x05) }

  lemma RowFacts(row: nat)
    requires row < 8
    ensures OnMemory(row).Legal? && OnAccumulator(row).Legal?
    ensures OnMemory(row).instr.op == match row
      case 0 => Modify(ASL) case 1 => Modify(ROL) case 2 => Modify(LSR) case 3 => Modify(ROR)
      case 4 => Store(STX) case 5 => Read(LDX) case 6 => Modify(DEC) case _ => Modify(INC)
    ensures OnAccumulator(row).instr.op == match row
      case 0 => Read(ORA) case 1 => Read(AND) case 2 => Read(EOR) case 3 => Read(ADC)
      case 4 => Store(STA) case 5 => Read(LDA) case 6 => Read(CMP) case _ => Read(SBC)
  {
    match row case 0 => case 1 => case 2 => case 3 => case 4 => case 5 => case 6 => case _ =>
  }

  /** The undocumented opcodes that combine the two. */
  predicate Combines(opcode: byte) {
    opcode % 4 == 3 && opcode % 0x20 != 0x0B && opcode !in {0x93, 0x9B, 0x9F}
  }

  /** Handler h does `first` and then `second`. */
  predicate Does(h: Handler, first: Op, second: Op) {
    match h
    case Documented(_) => false
    case LAX => first == Read(LDA) && second == Read(LDX)
    case SAX => first == Store(STA) && second == Store(STX)
    case DCP => first == Modify(DEC) && second == Read(CMP)
    case ISB => first == Modify(INC) && second == Read(SBC)
    case SLO => first == Modify(ASL) && second == Read(ORA)
    case RLA => first == Modify(ROL) && second == Read(AND)
    case SRE => first == Modify(LSR) && second == Read(EOR)
    case RRA => first == Modify(ROR) && second == Read(ADC)
  }

  /** The two operations of its row, the memory first where memory is modified; or SBC,
      at $EB; or nothing. */
  predicate Acts(opcode: byte) {
    Undocumented(opcode) ==> if Combines(opcode) then ActsTwice(opcode) else ActsOnce(opcode)
  }

  predicate ActsTwice(opcode: byte) {
    var row := opcode / 0x20;
    && OnMemory(row).Legal? && OnAccumulator(row).Legal?
    && var m, a := OnMemory(row).instr.op, OnAccumulator(row).instr.op;
       if 0x80 <= opcode < 0xC0 then Does(OpTable(opcode), a, m) else Does(OpTable(opcode), m, a)
  }

  predicate ActsOnce(opcode: byte) {
    OpTable(opcode) == Documented(if opcode == 0xEB then Read(SBC) else Register(NOP))
  }

  lemma Acts0(opcode: byte) requires opcode / 0x10 == 0x0 ensures Acts(opcode) { hide InstrTable; RowFacts(0x0); }
  lemma Acts1(opcode: byte) requires opcode / 0x10 == 0x1 ensures Acts(opcode) { hide InstrTable; RowFacts(0x0); }
  lemma Acts2(opcode: byte) requires opcode / 0x10 == 0x2 ensures Acts(opcode) { hide InstrTable; RowFacts(0x1); }
  lemma Acts3(opcode: byte) requires opcode / 0x10 == 0x3 ensures Acts(opcode) { hide InstrTable; RowFacts(0x1); }
  lemma Acts4(opcode: byte) requires opcode / 0x10 == 0x4 ensures Acts(opcode) { hide InstrTable; RowFacts(0x2); }
  lemma Acts5(opcode: byte) requires opcode / 0x10 == 0x5 ensures Acts(opcode) { hide InstrTable; RowFacts(0x2); }
  lemma Acts6(opcode: byte) requires opcode / 0x10 == 0x6 ensures Acts(opcode) { hide InstrTable; RowFacts(0x3); }
  lemma Acts7(opcode: byte) requires opcode / 0x10 == 0x7 ensures Acts(opcode) { hide InstrTable; RowFacts(0x3); }
  lemma Acts8(opcode: byte) requires opcode / 0x10 == 0x8 ensures Acts(opcode) { hide InstrTable; RowFacts(0x4); }
  lemma Acts9(opcode: byte) requires opcode / 0x10 == 0x9 ensures Acts(opcode) { hide InstrTable; RowFacts(0x4); }
  lemma ActsA(opcode: byte) requires opcode / 0x10 == 0xA ensures Acts(opcode) { hide InstrTable; RowFacts(0x5); }
  lemma ActsB(opcode: byte) requires opcode / 0x10 == 0xB ensures Acts(opcode) { hide InstrTable; RowFacts(0x5); }
  lemma ActsC(opcode: byte) requires opcode / 0x10 == 0xC ensures Acts(opcode) { hide InstrTable; RowFacts(0x6); }
  lemma ActsD(opcode: byte) requires opcode / 0x10 == 0xD ensures Acts(opcode) { hide InstrTable; RowFacts(0x6); }
  lemma ActsE(opcode: byte) requires opcode / 0x10 == 0xE ensures Acts(opcode) { hide InstrTable; RowFacts(0x7); }
  lemma ActsF(opcode: byte) requires opcode / 0x10 == 0xF ensures Acts(opcode) { hide InstrTable; RowFacts(0x7); }

  /** Every undocumented opcode is timed as its neighbour and does as its row. */
  lemma UndocumentedIsLike(opcode: byte)
    requires InstrTable(opcode).Illegal?
    ensures Undocumented(opcode) && Timed(opcode) && Charged(opcode) && Acts(opcode)
  {
    hide InstrTable, Timed, Charged, Acts, Undocumented;
    UndocumentedOpcodes(opcode);
    EachTimed(opcode);
    EachCharged(opcode);
    EachActs(opcode);
  }

  lemma EachTimed(opcode: byte)
    ensures Timed(opcode)
  {
    hide Timed;
    match opcode / 0x10
    case 0x0 => Timed0(opcode);
    case 0x1 => Timed1(opcode);
    case 0x2 => Timed2(opcode);
    case 0x3 => Timed3(opcode);
    case 0x4 => Timed4(opcode);
    case 0x5 => Timed5(opcode);
    case 0x6 => Timed6(opcode);
    case 0x7 => Timed7(opcode);
    case 0x8 => Timed8(opcode);
    case 0x9 => Timed9(opcode);
    case 0xA => TimedA(opcode);
    case 0xB => TimedB(opcode);
    case 0xC => TimedC(opcode);
    case 0xD => TimedD(opcode);
    case 0xE => TimedE(opcode);
    case _ => TimedF(opcode);
  }

  lemma EachCharged(opcode: byte)
    ensures Charged(opcode)
  {
    hide Charged;
    match opcode / 0x10
    case 0x0 => Charged0(opcode);
    case 0x1 => Charged1(opcode);
    case 0x2 => Charged2(opcode);
    case 0x3 => Charged3(opcode);
    case 0x4 => Charged4(opcode);
    case 0x5 => Charged5(opcode);
    case 0x6 => Charged6(opcode);
    case 0x7 => Charged7(opcode);
    case 0x8 => Charged8(opcode);
    case 0x9 => Charged9(opcode);
    case 0xA => ChargedA(opcode);
    case 0xB => ChargedB(opcode);
    case 0xC => ChargedC(opcode);
    case 0xD => ChargedD(opcode);
    case 0xE => ChargedE(opcode);
    case _ => ChargedF(opcode);
  }

  lemma EachActs(opcode: byte)
    ensures Acts(opcode)
  {
    hide Acts;
    match opcode / 0x10
    case 0x0 => Acts0(opcode);
    case 0x1 => Acts1(opcode);
    case 0x2 => Acts2(opcode);
    case 0x3 => Acts3(opcode);
    case 0x4 => Acts4(opcode);
    case 0x5 => Acts5(opcode);
    case 0x6 => Acts6(opcode);
    case 0x7 => Acts7(opcode);
    case 0x8 => Acts8(opcode);
    case 0x9 => Acts9(opcode);
    case 0xA => ActsA(opcode);
    case 0xB => ActsB(opcode);
    case 0xC => ActsC(opcode);
    case 0xD => ActsD(opcode);
    case 0xE => ActsE(opcode);
    case _ => ActsF(opcode);
  }

  /** What a combining handler makes of the registers and the memory. */
  lemma DoesBoth<D(!new)>(m: Machine<D>, h: Handler, opcode: byte, d: D, first: Op, second: Op)
    requires Does(h, first, second)
    ensures Handled(m, h, opcode, d) ==
            var both := m.effect(second, opcode, m.effect(first, opcode, d));
            if h == SAX then m.storeAX(both) else both
  {
  }
}
