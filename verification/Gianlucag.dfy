/** The gianlucag core: one call resolves the whole operand, a second performs
    the whole operation. */
module Gianlucag {
  import opened Words
  import opened Isa
  import opened Alu
  import opened NmiLatch

  /** The status byte, bit by bit. */
  datatype Status = Status(n: bool, v: bool, constant: bool, brk: bool, d: bool, i: bool, z: bool, c: bool)
  {
    function Flags(): Flags { Isa.Flags(n, v, d, i, z, c) }

    function Set(name: FlagName, value: bool): (r: Status)
      ensures r.Flags() == WithFlag(Flags(), name, value)
    {
      match name
      case CARRY => this.(c := value)
      case INTERRUPT => this.(i := value)
      case DECIMAL => this.(d := value)
      case OVERFLOW => this.(v := value)
    }

    /** status | CONSTANT, with BREAK forced. */
    function Pushed(b: bool): (r: byte)
      ensures r == Pack(Flags(), b)
    {
      Bit(c) + 2 * Bit(z) + 4 * Bit(i) + 8 * Bit(d) + 0x10 * Bit(b) + 0x20 + 0x40 * Bit(v) + 0x80 * Bit(n)
    }

    /** Bits 4 and 5 stay; the flags come from p. */
    function Pulled(p: byte): (r: Status)
      ensures r.Flags() == Unpack(p)
    {
      Status(p / 0x80 % 2 == 1, p / 0x40 % 2 == 1, constant, brk,
             p / 8 % 2 == 1, p / 4 % 2 == 1, p / 2 % 2 == 1, p % 2 == 1)
    }
  }

  datatype CycleMethod = INST_COUNT | CYCLE_COUNT

  /** The 16-bit intermediate value of a read-modify-write, with the old carry
      shifted in, and the carry it leaves. */
  function Widened(op: ModifyOp, v: byte, c: bool): int {
    match op
    case ASL => v * 2
    case ROL => v * 2 + Bit(c)
    case LSR => v / 2
    case ROR => (v + 0x100 * Bit(c)) / 2
    case INC => v + 1
    case DEC => v - 1
  }

  predicate CarryOut(op: ModifyOp, v: byte, c: bool) {
    match op
    case ASL | ROL => Widened(op, v, c) > 0xFF
    case LSR | ROR => v % 2 == 1
    case INC | DEC => c
  }

  lemma AlterIsModify(op: ModifyOp, v: byte, f: Flags)
    ensures Modified(op, v, f.c) == Low(Widened(op, v, f.c))
    ensures ModifiedFlags(op, v, f) == NZ(f, Modified(op, v, f.c)).(c := CarryOut(op, v, f.c))
  {
    HalfOf(v, f.c);
  }

  // ---------------------------------------------------------------- the loop

  datatype Machine = MachineState(arch: Arch, latch: Latch, illegal: bool)

  function AfterCheck(choice: Serviced, s: Arch): Arch {
    match choice
    case Nothing => s
    case Nmi => Enter(s, NMI_VECTOR, false)
    case Irq => Enter(s, IRQ_VECTOR, false)
  }

  /** The machine after the interrupt check that opens a pass. */
  function Opened(g: Machine): Machine {
    g.(arch := AfterCheck(Choice(g.latch, g.arch.f.i), g.arch), latch := Checked(g.latch, g.arch.f.i))
  }

  function AfterPass(g: Machine): Machine {
    var o := Opened(g);
    match Next(o.arch)
    case Illegal => o.(arch := Fetched(o.arch), illegal := true)
    case Legal(i) =>
      o.(arch := Execute(i, o.arch), latch := if i.op == RTI then ReturnFromInterrupt(o.latch) else o.latch)
  }

  /** The cycles a pass counts; an interrupt entry is counted as six. */
  function PassCycles(g: Machine): nat {
    (if Choice(g.latch, g.arch.f.i) != Nothing then 6 else 0) +
    match Next(Opened(g).arch) case Illegal => 0 case Legal(i) => Cycles(i, Opened(g).arch)
  }

  /** The cycles a pass takes off the budget: the table entry alone. */
  function TableCycles(g: Machine): nat {
    match Next(Opened(g).arch) case Illegal => 0 case Legal(i) => i.cycles
  }

  lemma PassMakesProgress(g: Machine)
    requires !g.illegal
    ensures AfterPass(g).illegal || TableCycles(g) > 0
  {
    hide InstrTable, Opened, Execute;
    if Next(Opened(g).arch).Legal? { EveryInstructionCosts(Opened(g).arch.ram[Opened(g).arch.pc]); }
  }

  lemma EveryInstructionCosts(opcode: byte)
    requires InstrTable(opcode).Legal?
    ensures InstrTable(opcode).instr.cycles >= 2
  {
    hide InstrTable;
    if opcode % 0x20 < 0x0C { LowColumnsCost(opcode); } else { HighColumnsCost(opcode); }
  }

  lemma LowColumnsCost(opcode: byte)
    requires opcode % 0x20 < 0x0C && InstrTable(opcode).Legal?
    ensures InstrTable(opcode).instr.cycles >= 2
  {
  }

  lemma HighColumnsCost(opcode: byte)
    requires opcode % 0x20 >= 0x0C && InstrTable(opcode).Legal?
    ensures InstrTable(opcode).instr.cycles >= 2
  {
  }

  /** The loop of `Run`, with its running cycle count. */
  function RunFrom(g: Machine, count: nat, budget: int, cycleMethod: CycleMethod): (Machine, nat)
    decreases !g.illegal, budget
  {
    if budget <= 0 || g.illegal then (g, count) else
    PassMakesProgress(g);
    RunFrom(AfterPass(g), count + PassCycles(g), budget - (if cycleMethod == CYCLE_COUNT then TableCycles(g) else 1),
            cycleMethod)
  }

  /** n passes, the cycles they count, and what they take off the budget: in
      CYCLE_COUNT the table cycles of their instructions, otherwise one each. */
  function Passes(g: Machine, n: nat): Machine { if n == 0 then g else AfterPass(Passes(g, n - 1)) }

  function Counted(g: Machine, n: nat): nat {
    if n == 0 then 0 else Counted(g, n - 1) + PassCycles(Passes(g, n - 1))
  }

  function Spent(g: Machine, n: nat, cycleMethod: CycleMethod): nat {
    match cycleMethod
    case INST_COUNT => n
    case CYCLE_COUNT => if n == 0 then 0 else Spent(g, n - 1, CYCLE_COUNT) + TableCycles(Passes(g, n - 1))
  }

  /** The loop stops after n passes: they use up the budget, or the last of them met
      an undocumented opcode. */
  predicate Over(g: Machine, n: nat, budget: int, cycleMethod: CycleMethod) {
    Spent(g, n, cycleMethod) >= budget || Passes(g, n).illegal
  }

  /** The loop makes the fewest passes after which it is over, and counts exactly
      their cycles. */
  lemma {:induction false} RunIsShortest(g: Machine, count: nat, budget: int, cycleMethod: CycleMethod) returns (n: nat)
    ensures RunFrom(g, count, budget, cycleMethod) == (Passes(g, n), count + Counted(g, n))
    ensures Over(g, n, budget, cycleMethod) && forall m: nat :: m < n ==> !Over(g, m, budget, cycleMethod)
  {
    hide AfterPass, PassCycles, TableCycles;
    n := 0;
    while !Over(g, n, budget, cycleMethod)
      invariant RunFrom(g, count, budget, cycleMethod)
             == RunFrom(Passes(g, n), count + Counted(g, n), budget - Spent(g, n, cycleMethod), cycleMethod)
      invariant forall m: nat :: m < n ==> !Over(g, m, budget, cycleMethod)
      decreases !Passes(g, n).illegal, budget - Spent(g, n, cycleMethod)
    {
      PassMakesProgress(Passes(g, n));
      n := n + 1;
    }
  }

  /** The register values a reset loads. */
  datatype ResetValues = ResetValues(a: byte, x: byte, y: byte, sp: byte, f: Flags)

  function AfterReset(g: Machine, r: ResetValues): Machine {
    MachineState(Isa.Arch(r.a, r.x, r.y, r.sp, VectorAt(g.arch.ram, 0xFFFC), r.f, g.arch.ram),
                 ResetLatch(g.latch), false)
  }

  class Mos6502 {
    var resetA: byte
    var resetX: byte
    var resetY: byte
    var resetSp: byte
    var resetStatus: Status
    var a: byte
    var x: byte
    var y: byte
    var sp: byte
    var pc: word
    var status: Status
    var ram: Ram
    var illegalOpcode: bool
    var crossed: bool
    var branched: bool
    var irqLine: bool
    var nmiRequest: bool
    var nmiInhibit: bool
    var nmiLine: bool

    function Arch(): Arch
      reads `a, `x, `y, `sp, `pc, `status, `ram
    {
      Isa.Arch(a, x, y, sp, pc, status.Flags(), ram)
    }

    function Latch(): Latch
      reads `irqLine, `nmiRequest, `nmiInhibit, `nmiLine
    {
      NmiLatch.Latch(nmiRequest, nmiInhibit, nmiLine, irqLine)
    }

    function Resets(): ResetValues
      reads `resetA, `resetX, `resetY, `resetSp, `resetStatus
    {
      ResetValues(resetA, resetX, resetY, resetSp, resetStatus.Flags())
    }

    /** Sets the reset values and the lines. Registers, memory and the illegal-opcode
        flag stay as they are found: a core is ready to run only after a Reset. */
    constructor (found: Isa.Arch, illegal: bool)
      ensures Latch() == Idle() && Arch() == found && illegalOpcode == illegal
      ensures Resets() == ResetValues(0, 0, 0, 0xFD, Isa.Flags(false, false, false, false, false, false))
    {
      resetA, resetX, resetY, resetSp := 0, 0, 0, 0xFD;
      resetStatus := Status(false, false, true, false, false, false, false, false);
      a, x, y, sp, pc, ram := found.a, found.x, found.y, found.s, found.pc, found.ram;
      status := Status(found.f.n, found.f.v, false, false, found.f.d, found.f.i, found.f.z, found.f.c);
      illegalOpcode, crossed, branched := illegal, false, false;
      irqLine, nmiRequest, nmiInhibit, nmiLine := true, false, false, true;
    }

    // -------------------------------------------------------------- addressing

    /** What a resolved operand leaves: its address, pc past it and `crossed`. */
    ghost predicate Resolved(t: Target, src: word)
      reads `pc, `crossed
    {
      t == Target(src, pc, crossed)
    }

    method FetchByte() returns (v: byte)
      modifies `pc
      ensures v == ram[old(pc)] && pc == Trunc(old(pc) + 1)
    {
      v := ram[pc];
      pc := Trunc(pc + 1);
    }

    method AddrImm() returns (src: word)
      modifies `pc
      ensures src == old(pc) && pc == Trunc(old(pc) + 1)
    {
      src := pc;
      pc := Trunc(pc + 1);
    }

    method AddrAbs() returns (src: word)
      requires !crossed
      modifies `pc
      ensures Resolved(ResolveAbsolute(old(Arch())), src)
    {
      hide Trunc;
      TruncTrunc(pc + 1, 1);
      var addrL := FetchByte();
      var addrH := FetchByte();
      src := Pair(addrH, addrL);
    }

    method AddrZer() returns (src: word)
      requires !crossed
      modifies `pc
      ensures Resolved(ResolveZeroPage(0, old(Arch())), src)
    {
      src := FetchByte();
    }

    /** Addr_ZEX and Addr_ZEY. */
    method AddrZeroPageIndexed(index: byte) returns (src: word)
      requires !crossed
      modifies `pc
      ensures Resolved(ResolveZeroPage(index, old(Arch())), src)
    {
      var base := FetchByte();
      src := Low(base + index);
    }

    /** Addr_ABX and Addr_ABY. */
    method AddrAbsoluteIndexed(index: byte) returns (src: word)
      modifies `pc, `crossed
      ensures Resolved(ResolveIndexed(index, old(Arch())), src)
    {
      hide Trunc, Low;
      TruncTrunc(pc + 1, 1);
      var addrL := FetchByte();
      var addrH := FetchByte();
      src := Trunc(addrL + addrH * 0x100 + index);
      crossed := addrL + index > 255;
    }

    method AddrRel() returns (src: word)
      modifies `pc, `crossed
      ensures Resolved(ResolveRelative(old(Arch())), src)
    {
      var offset: int := FetchByte();
      if offset >= 0x80 { offset := offset + 0xFF00; }
      var displacement := if offset >= 0x8000 then offset - 0x1_0000 else offset;
      src := Trunc(pc + displacement);
      crossed := src / 0x100 != pc / 0x100;
    }

    method AddrAbi() returns (src: word)
      requires !crossed
      modifies `pc
      ensures Resolved(ResolveIndirect(old(Arch())), src)
    {
      hide Trunc, Pair, Low;
      TruncTrunc(pc + 1, 1);
      var addrL := FetchByte();
      var addrH := FetchByte();
      var abs := Pair(addrH, addrL);
      var effL := ram[abs];
      IndirectWrap(addrH, addrL);
      var effH := ram[abs / 0x100 * 0x100 + Low(abs + 1)];
      src := Pair(effH, effL);
    }

    method AddrInx() returns (src: word)
      requires !crossed
      modifies `pc
      ensures Resolved(ResolvePointerX(old(Arch())), src)
    {
      hide PageWord, Low, Succ, Trunc, Pair;
      var base := FetchByte();
      var zeroL: int := Low(base + x);
      ZeroPagePointer(ram, zeroL);
      var zeroH := Low(zeroL + 1);
      src := Pair(ram[zeroH], ram[zeroL]);
    }

    method AddrIny() returns (src: word)
      modifies `pc, `crossed
      ensures Resolved(ResolvePointerY(old(Arch())), src)
    {
      hide PageWord, Low, Succ, Trunc, Pair;
      var fetched := FetchByte();
      var zeroL: int := fetched;
      ZeroPagePointer(ram, zeroL);
      var zeroH := Low(zeroL + 1);
      var baseL := ram[zeroL];
      src := Trunc(Pair(ram[zeroH], baseL) + y);
      PairLow(ram[zeroH], baseL);
      crossed := baseL + y > 255;
    }

    method Addr(mode: Mode) returns (src: word)
      requires !crossed
      modifies `pc, `crossed
      ensures Resolved(Resolve(mode, old(Arch())), src)
    {
      hide ResolveZeroPage, ResolveAbsolute, ResolveIndexed, ResolveIndirect, ResolvePointerX, ResolvePointerY,
           ResolveRelative, Trunc;
      match mode
      case Accumulator => src := 0;
      case NoOperand => src := 0;
      case Immediate => src := AddrImm();
      case ZeroPage => src := AddrZer();
      case ZeroPageX => src := AddrZeroPageIndexed(x);
      case ZeroPageY => src := AddrZeroPageIndexed(y);
      case Absolute => src := AddrAbs();
      case AbsoluteX => src := AddrAbsoluteIndexed(x);
      case AbsoluteY => src := AddrAbsoluteIndexed(y);
      case IndirectX => src := AddrInx();
      case IndirectY => src := AddrIny();
      case Indirect => src := AddrAbi();
      case Relative => src := AddrRel();
    }

    // -------------------------------------------------------------- operations

    method SetRegister(reg: Reg, v: byte)
      modifies `a, `x, `y, `status
      ensures Arch() == SetFlagged(old(Arch()), reg, v)
    {
      status := status.(n := Sign(v), z := v == 0);
      match reg case RegA => a := v; case RegX => x := v; case RegY => y := v;
    }

    function Get(reg: Reg): byte
      reads `a, `x, `y
    {
      match reg case RegA => a case RegX => x case RegY => y
    }

    method OpAdc(src: word)
      modifies `a, `status
      ensures Arch() == Adc(old(Arch()), ram[src])
    {
      hide AddDecimal, AddBinary, Low, Sign, Nibble, AddV;
      var m: int := ram[src];
      AddOverflow(a, ram[src], status.c);
      var tmp := m + a + Bit(status.c);
      status := status.(v := AddV(Sign(a), Sign(m), Sign(tmp)), n := Sign(tmp), z := Low(tmp) == 0);
      if status.d {
        AddWord(a, ram[src], status.c);
        var al := a % 0x10 + m % 0x10 + Bit(status.c);
        if al >= 0xA { al := Nibble(al + 6) + 0x10; }
        tmp := m / 0x10 * 0x10 + a / 0x10 * 0x10 + al;
        status := status.(v := AddV(Sign(a), Sign(m), Sign(tmp)), n := Sign(tmp));
        if tmp >= 0xA0 { tmp := tmp + 0x60; }
      }
      status := status.(c := tmp > 0xFF);
      a := Low(tmp);
    }

    method OpSbc(src: word)
      modifies `a, `status
      ensures Arch() == Sbc(old(Arch()), ram[src])
    {
      hide SubDecimal, SubBinary, Low, Sign, Nibble, SubV;
      var m: int := ram[src];
      SubOverflow(a, ram[src], status.c);
      var tmp := a - m - Bit(!status.c);
      status := status.(v := SubV(Sign(a), Sign(m), Sign(tmp)), n := Sign(tmp), z := Low(tmp) == 0);
      if status.d {
        SubWord(a, ram[src], status.c);
        var al := a % 0x10 - m % 0x10 - Bit(!status.c);
        if al < 0 { al := Nibble(al - 6) - 0x10; }
        tmp := a / 0x10 * 0x10 - m / 0x10 * 0x10 + al;
        status := status.(v := SubV(Sign(a), Sign(m), Sign(tmp)), n := Sign(tmp));
        if tmp < 0 { tmp := tmp - 0x60; }
      }
      status := status.(c := tmp >= 0);
      a := Low(tmp);
    }

    method OpAnd(src: word)
      modifies `a, `x, `y, `status
      ensures Arch() == LoadA(old(Arch()), BitAnd(old(a), ram[src]))
    {
      SetRegister(RegA, BitAnd(a, ram[src]));
    }

    method OpOra(src: word)
      modifies `a, `x, `y, `status
      ensures Arch() == LoadA(old(Arch()), BitOr(old(a), ram[src]))
    {
      SetRegister(RegA, BitOr(a, ram[src]));
    }

    method OpEor(src: word)
      modifies `a, `x, `y, `status
      ensures Arch() == LoadA(old(Arch()), BitXor(old(a), ram[src]))
    {
      SetRegister(RegA, BitXor(a, ram[src]));
    }

    method OpBit(src: word)
      modifies `status
      ensures Arch() == BitTest(old(Arch()), ram[src])
    {
      BitAndSym(a, ram[src]);
      var m := ram[src];
      status := status.(n := Sign(m), v := m / 0x40 % 2 == 1);
      status := status.(z := BitAnd(m, a) == 0);
    }

    /** CMP, CPX and CPY; the difference is an unsigned 32-bit one. */
    method OpCompare(reg: Reg, src: word)
      modifies `status
      ensures Arch() == Compare(old(Arch()), Get(reg), ram[src])
    {
      hide Sign, Low;
      UnsignedDifference(Get(reg), ram[src]);
      var r: int, m: int := Get(reg), ram[src];
      var tmp := (r - m) % 0x1_0000_0000;
      status := status.(c := tmp < 0x100, n := Sign(tmp), z := Low(tmp) == 0);
    }

    /** LDA, LDX and LDY. */
    method OpLoad(reg: Reg, src: word)
      modifies `a, `x, `y, `status
      ensures Arch() == SetFlagged(old(Arch()), reg, ram[src])
    {
      SetRegister(reg, ram[src]);
    }

    /** STA, STX and STY. */
    method OpStore(reg: Reg, src: word)
      modifies `ram
      ensures Arch() == old(Arch()).(ram := old(ram)[src := Get(reg)])
    {
      ram := ram[src := Get(reg)];
    }

    /** The computation the memory and accumulator forms of ASL, LSR, ROL, ROR, INC
        and DEC share. */
    method Alter(op: ModifyOp, v: byte) returns (r: byte)
      modifies `status
      ensures r == Modified(op, v, old(status).c)
      ensures status.Flags() == ModifiedFlags(op, v, old(status).Flags())
    {
      hide Modified, ModifiedFlags, Widened, CarryOut;
      AlterIsModify(op, v, status.Flags());
      var c := CarryOut(op, v, status.c);
      r := Low(Widened(op, v, status.c));
      status := status.(c := c);
      status := status.(n := Sign(r), z := r == 0);
    }

    method OpModify(op: ModifyOp, src: word)
      modifies `ram, `status
      ensures Arch() == ModifyAt(op, old(Arch()), src)
    {
      hide Modified, ModifiedFlags;
      var m := Alter(op, ram[src]);
      ram := ram[src := m];
    }

    method OpModifyAcc(op: ModifyOp)
      modifies `a, `status
      ensures Arch() == ModifyA(op, old(Arch()))
    {
      hide Modified, ModifiedFlags;
      a := Alter(op, a);
    }

    /** The eight branches. */
    method OpBranch(condition: bool, src: word)
      modifies `pc, `branched, `crossed
      ensures Arch() == if condition then old(Arch()).(pc := src) else old(Arch())
      ensures branched == (old(branched) || condition) && crossed == (old(crossed) && condition)
    {
      if condition {
        pc := src;
        branched := true;
      } else {
        crossed := false;  // no penalty without a jump
      }
    }

    /** CLC to SEV. */
    method OpFlag(name: FlagName, value: bool)
      requires name == OVERFLOW ==> !value
      modifies `status
      ensures Arch() == DoRegister(FlagOp(name, value), old(Arch()))
    {
      hide DoRegister, FlagOp, WithFlag;
      FlagOpSets(name, value, Arch());
      status := status.Set(name, value);
    }

    method StackPush(v: byte)
      modifies `ram, `sp
      ensures Arch() == PushByte(old(Arch()), v)
    {
      ram := ram[0x100 + sp := v];
      if sp == 0x00 { sp := 0xFF; } else { sp := sp - 1; }
    }

    method StackPop() returns (v: byte)
      modifies `sp
      ensures v == Top(old(Arch())) && Arch() == Drop(old(Arch()))
    {
      if sp == 0xFF { sp := 0x00; } else { sp := sp + 1; }
      v := ram[0x100 + sp];
    }

    method PushFrame(v: byte)
      modifies `ram, `sp
      ensures Arch() == PushByte(PushWord(old(Arch()), old(pc)), v)
    {
      hide PushByte;
      StackPush(High(pc));
      StackPush(Low(pc));
      StackPush(v);
    }

    method OpBrk()
      modifies `pc, `ram, `sp, `status
      ensures Arch() == Enter(old(Arch()).(pc := Trunc(old(pc) + 1)), IRQ_VECTOR, true)
    {
      hide PushByte, PushWord, Pack, Trunc;
      pc := Trunc(pc + 1);
      PushFrame(status.Pushed(true));
      status := status.(i := true);
      pc := Pair(ram[IRQ_VECTOR + 1], ram[IRQ_VECTOR]);
    }

    /** Svc_NMI and Svc_IRQ. */
    method Service(vector: word)
      requires vector < 0xFFFF
      modifies `pc, `ram, `sp, `status
      ensures Arch() == Enter(old(Arch()), vector, false)
    {
      hide PushByte, PushWord, Pack;
      PushFrame(status.Pushed(false));
      status := status.(i := true);
      pc := Pair(ram[vector + 1], ram[vector]);
    }

    method OpJsr(src: word)
      modifies `pc, `ram, `sp
      ensures Arch() == CallTo(old(Arch()), Low(src))
    {
      hide Trunc, Low, High;
      pc := Trunc(pc - 1);
      StackPush(High(pc));
      StackPush(Low(pc));
      // the operand and the stack may overlap: the high byte is read again
      pc := Pair(ram[pc], Low(src));
    }

    method OpPla()
      modifies `sp, `a, `x, `y, `status
      ensures Arch() == LoadA(Drop(old(Arch())), Top(old(Arch())))
    {
      hide Drop, Top;
      var v := StackPop();
      SetRegister(RegA, v);
    }

    method OpPlp()
      modifies `sp, `status
      ensures Arch() == PullFlags(old(Arch()))
    {
      hide Unpack, Drop, Top;
      var v := StackPop();
      status := status.Pulled(v);
    }

    method PopPc(offset: nat)
      modifies `sp, `pc
      ensures Arch() == PullPc(old(Arch()), offset)
    {
      hide Drop, Top, Trunc;
      var lo := StackPop();
      var hi := StackPop();
      pc := Trunc(Pair(hi, lo) + offset);
    }

    method OpRti()
      modifies `sp, `pc, `status, `nmiInhibit
      ensures Arch() == PullPc(PullFlags(old(Arch())), 0)
      ensures Latch() == ReturnFromInterrupt(old(Latch()))
    {
      hide PullFlags, PullPc;
      OpPlp();
      PopPc(0);
      nmiInhibit := false;
    }

    // -------------------------------------------------------------- Exec

    method ExecRead(op: ReadOp, src: word)
      modifies `a, `x, `y, `status
      ensures Arch() == DoRead(op, old(Arch()), ram[src])
    {
      hide Adc, Sbc, LoadA, LoadX, LoadY, Compare, BitTest, BitAnd, BitOr, BitXor;
      match op
      case ADC => OpAdc(src);
      case SBC => OpSbc(src);
      case AND => OpAnd(src);
      case ORA => OpOra(src);
      case EOR => OpEor(src);
      case BIT => OpBit(src);
      case CMP => OpCompare(RegA, src);
      case CPX => OpCompare(RegX, src);
      case CPY => OpCompare(RegY, src);
      case LDA => OpLoad(RegA, src);
      case LDX => OpLoad(RegX, src);
      case LDY => OpLoad(RegY, src);
    }

    /** The flag, transfer and counter instructions, and NOP. */
    method ExecRegister(op: RegisterOp)
      modifies `a, `x, `y, `sp, `status
      ensures Arch() == DoRegister(op, old(Arch()))
    {
      hide LoadA, LoadX, LoadY, Low;
      match op
      case CLC => OpFlag(CARRY, false);
      case SEC => OpFlag(CARRY, true);
      case CLI => OpFlag(INTERRUPT, false);
      case SEI => OpFlag(INTERRUPT, true);
      case CLD => OpFlag(DECIMAL, false);
      case SED => OpFlag(DECIMAL, true);
      case CLV => OpFlag(OVERFLOW, false);
      case DEX => SetRegister(RegX, Low(x - 1));
      case DEY => SetRegister(RegY, Low(y - 1));
      case INX => SetRegister(RegX, Low(x + 1));
      case INY => SetRegister(RegY, Low(y + 1));
      case TAX => SetRegister(RegX, a);
      case TAY => SetRegister(RegY, a);
      case TSX => SetRegister(RegX, sp);
      case TXA => SetRegister(RegA, x);
      case TYA => SetRegister(RegA, y);
      case TXS => sp := x;
      case NOP =>
    }

    method ExecStore(op: StoreOp, src: word)
      modifies `ram
      ensures Arch() == old(Arch()).(ram := old(ram)[src := Stored(op, old(Arch()))])
    {
      match op
      case STA => OpStore(RegA, src);
      case STX => OpStore(RegX, src);
      case STY => OpStore(RegY, src);
    }

    method ExecBranch(op: BranchOp, src: word)
      modifies `pc, `branched, `crossed
      ensures var taken := Taken(op, old(Arch()).f);
              && Arch() == (if taken then old(Arch()).(pc := src) else old(Arch()))
              && branched == (old(branched) || taken) && crossed == (old(crossed) && taken)
    {
      match op
      case BCC => OpBranch(!status.c, src);
      case BCS => OpBranch(status.c, src);
      case BEQ => OpBranch(status.z, src);
      case BNE => OpBranch(!status.z, src);
      case BMI => OpBranch(status.n, src);
      case BPL => OpBranch(!status.n, src);
      case BVC => OpBranch(!status.v, src);
      case BVS => OpBranch(status.v, src);
    }

    /** The operation of a documented instruction whose operand is resolved. */
    method Operate(i: Instr, src: word)
      requires !branched
      modifies `a, `x, `y, `sp, `pc, `status, `ram, `branched, `crossed, `nmiInhibit
      ensures Arch() == Apply(i, old(Arch()), src)
      ensures var taken := i.op.Branch? && Taken(i.op.branchOp, old(Arch()).f);
              branched == taken && crossed == (old(crossed) && (i.op.Branch? ==> taken))
      ensures Latch() == if i.op == RTI then ReturnFromInterrupt(old(Latch())) else old(Latch())
    {
      hide DoRead, DoRegister, Stored, ModifyA, ModifyAt, Taken, CallTo, PushByte, Pack, LoadA, Drop, Top, PullFlags,
           PullPc, Enter, Trunc, Low;
      match i.op
      case Read(op) => ExecRead(op, src);
      case Store(op) => ExecStore(op, src);
      case Modify(op) => if i.mode == Accumulator { OpModifyAcc(op); } else { OpModify(op, src); }
      case Branch(op) => ExecBranch(op, src);
      case Register(op) => ExecRegister(op);
      case JMP => pc := src;
      case JSR => OpJsr(src);
      case PHA => StackPush(a);
      case PHP => StackPush(status.Pushed(true));
      case PLA => OpPla();
      case PLP => OpPlp();
      case RTS => PopPc(1);
      case RTI => OpRti();
      case BRK => OpBrk();
    }

    method Exec(i: Instr)
      modifies `a, `x, `y, `sp, `pc, `status, `ram, `branched, `crossed, `nmiInhibit
      ensures var t := Resolve(i.mode, old(Arch()));
              && Arch() == Apply(i, old(Arch()).(pc := t.pc), t.ea)
              && i.cycles + Bit(branched) + Bit(i.penalty && crossed) == Cost(i, t, old(Arch()).f)
      ensures Latch() == if i.op == RTI then ReturnFromInterrupt(old(Latch())) else old(Latch())
    {
      hide Resolve, Apply, Taken;
      crossed, branched := false, false;
      var src := Addr(i.mode);
      Operate(i, src);
    }

    // -------------------------------------------------------------- interrupts

    method Nmi(line: bool)
      modifies `nmiRequest, `nmiLine
      ensures Latch() == SetNmi(old(Latch()), line)
    {
      if nmiLine && !line {
        if !nmiInhibit { nmiRequest := true; }
      }
      nmiLine := line;
    }

    method Irq(line: bool)
      modifies `irqLine
      ensures Latch() == SetIrq(old(Latch()), line)
    {
      irqLine := line;
    }

    /** The register half of Reset. */
    method LoadReset(low: byte, high: byte)
      modifies `a, `x, `y, `pc, `sp, `status
      ensures Arch() == Isa.Arch(resetA, resetX, resetY, resetSp, Pair(high, low), resetStatus.Flags(), ram)
    {
      hide Pair;
      a, x, y, sp := resetA, resetX, resetY, resetSp;
      pc := Pair(high, low);
      status := resetStatus.(constant := true, brk := true);
    }

    method Reset()
      modifies `nmiRequest, `nmiInhibit, `a, `x, `y, `pc, `sp, `status, `illegalOpcode
      ensures Latch() == ResetLatch(old(Latch())) && !illegalOpcode
      ensures Arch() == Isa.Arch(resetA, resetX, resetY, resetSp, VectorAt(ram, 0xFFFC), resetStatus.Flags(), ram)
    {
      hide Pair;
      nmiRequest, nmiInhibit, illegalOpcode := false, false, false;
      LoadReset(ram[0xFFFC], ram[0xFFFD]);
    }

    method CheckInterrupts() returns (serviced: bool)
      modifies `pc, `ram, `sp, `status, `nmiRequest, `nmiInhibit
      ensures var choice := Choice(old(Latch()), old(status.i));
              && Arch() == AfterCheck(choice, old(Arch()))
              && Latch() == Checked(old(Latch()), old(status.i))
              && serviced == (choice != Nothing)
    {
      hide Enter;
      if nmiRequest && !nmiInhibit {
        nmiRequest, nmiInhibit := false, true;
        Service(NMI_VECTOR);
        return true;
      }
      if !status.i {
        // the line level itself asks, every time
        if !irqLine && !nmiInhibit {
          Service(IRQ_VECTOR);
          return true;
        }
      }
      return false;
    }

    function Machine(): Machine
      reads `a, `x, `y, `sp, `pc, `status, `ram, `irqLine, `nmiRequest, `nmiInhibit, `nmiLine, `illegalOpcode
    {
      MachineState(Arch(), Latch(), illegalOpcode)
    }

    /** One pass of the loop of `Run`: an interrupt check, then one instruction. */
    method Pass() returns (cycles: nat, spent: nat)
      requires !illegalOpcode
      modifies `a, `x, `y, `sp, `pc, `status, `ram, `branched, `crossed, `nmiRequest, `nmiInhibit, `illegalOpcode
      ensures Machine() == AfterPass(old(Machine()))
      ensures cycles == PassCycles(old(Machine())) && spent == TableCycles(old(Machine()))
    {
      hide InstrTable, Resolve, Apply, Cost, Choice, AfterCheck, Checked, Trunc;
      var serviced := CheckInterrupts();
      cycles := if serviced then 6 else 0;
      var opcode := FetchByte();
      match InstrTable(opcode) {
        case Legal(i) =>
          Exec(i);
          cycles := cycles + i.cycles;
          if branched { cycles := cycles + 1; }
          if i.penalty && crossed { cycles := cycles + 1; }
          spent := i.cycles;
        case Illegal =>
          // resolves nothing, does nothing, costs nothing
          illegalOpcode := true;
          spent := 0;
      }
    }

    method Run(budget: int, cycleCount: nat, cycleMethod: CycleMethod) returns (count: nat)
      modifies `a, `x, `y, `sp, `pc, `status, `ram, `branched, `crossed, `nmiRequest, `nmiInhibit, `illegalOpcode
      ensures (Machine(), count) == RunFrom(old(Machine()), cycleCount, budget, cycleMethod)
    {
      hide AfterPass, PassCycles, TableCycles;
      count := cycleCount;
      var cyclesRemaining := budget;
      while cyclesRemaining > 0 && !illegalOpcode
        invariant RunFrom(Machine(), count, cyclesRemaining, cycleMethod)
               == RunFrom(old(Machine()), cycleCount, budget, cycleMethod)
        decreases !illegalOpcode, cyclesRemaining
      {
        PassMakesProgress(Machine());
        var cycles, spent := Pass();
        count := count + cycles;
        cyclesRemaining := cyclesRemaining - if cycleMethod == CYCLE_COUNT then spent else 1;
      }
    }
  }

  lemma UnsignedDifference(r: byte, m: byte)
    ensures var tmp := (r - m) % 0x1_0000_0000;
            (tmp < 0x100) == (r >= m) && Sign(tmp) == Sign(Low(r - m)) && Low(tmp) == Low(r - m)
  {
    var d: int := r - m;
    if d >= 0 {
      assert d % 0x1_0000_0000 == d && Low(d) == d;
    } else {
      var tmp := d + 0x1_0000_0000;
      assert d % 0x1_0000_0000 == tmp;
      assert Low(d) == d + 0x100 == Low(tmp);
      assert tmp / 0x80 == (d + 0x100) / 0x80 + 0x1FF_FFFE;
    }
  }

  lemma HalfOf(v: byte, c: bool)
    ensures Low(v / 2) == v / 2
    ensures Low((v + 0x100 * Bit(c)) / 2) == Low(v / 2 + 0x80 * Bit(c))
  {
  }

  lemma BitAndSym(a: byte, m: byte)
    ensures BitAnd(a, m) == BitAnd(m, a)
  {
  }

  lemma IndirectWrap(high: byte, low: byte)
    ensures Pair(high, low) / 0x100 * 0x100 + Low(Pair(high, low) + 1) == Pair(high, Succ(low))
  {
    hide Pair;
    PairParts(high, low);
    if low < 0xFF { PairParts(high, low + 1); } else { NextPage(high); }
  }

  lemma PairParts(high: byte, low: byte)
    ensures Pair(high, low) == high * 0x100 + low && Pair(high, low) / 0x100 == high && Low(Pair(high, low)) == low
  {
  }

  lemma NextPage(high: byte)
    ensures Low(Pair(high, 0xFF) + 1) == 0 && Pair(high, 0) == high * 0x100
  {
  }
}
