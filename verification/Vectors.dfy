/** Where control goes on interrupts, BRK and resets, in the addresses of the 6502
    itself: $FFFA for NMI, $FFFC for a reset, $FFFE for IRQ and BRK. */
module Vectors {
  import opened Words
  import opened Isa
  import opened NmiLatch
  import O2
  import Gianlucag

  /** The status byte: N V 1 B D I Z C. */
  predicate IsStatus(p: byte, f: Flags, brk: bool) {
    && (p / 0x80 % 2 == 1 <==> f.n) && (p / 0x40 % 2 == 1 <==> f.v) && p / 0x20 % 2 == 1
    && (p / 0x10 % 2 == 1 <==> brk) && (p / 8 % 2 == 1 <==> f.d) && (p / 4 % 2 == 1 <==> f.i)
    && (p / 2 % 2 == 1 <==> f.z) && (p % 2 == 1 <==> f.c)
  }

  lemma Halvings(p: nat)
    ensures p / 4 == p / 2 / 2 && p / 8 == p / 4 / 2 && p / 0x10 == p / 8 / 2 && p / 0x20 == p / 0x10 / 2
    ensures p / 0x40 == p / 0x20 / 2 && p / 0x80 == p / 0x40 / 2
  {
  }

  lemma LastBit(p: nat, q: nat, b: bool)
    requires p == 2 * q + Bit(b)
    ensures (p % 2 == 1 <==> b) && p / 2 == q
  {
  }

  lemma PackIsStatus(f: Flags, brk: bool)
    ensures IsStatus(Pack(f, brk), f, brk)
  {
    var p7: nat := Bit(f.n);
    var p6 := 2 * p7 + Bit(f.v);
    var p5 := 2 * p6 + Bit(true);
    var p4 := 2 * p5 + Bit(brk);
    var p3 := 2 * p4 + Bit(f.d);
    var p2 := 2 * p3 + Bit(f.i);
    var p1 := 2 * p2 + Bit(f.z);
    var p := 2 * p1 + Bit(f.c);
    assert p == Pack(f, brk);
    hide Bit, Pack;
    LastBit(p, p1, f.c);
    LastBit(p1, p2, f.z);
    LastBit(p2, p3, f.i);
    LastBit(p3, p4, f.d);
    LastBit(p4, p5, brk);
    LastBit(p5, p6, true);
    LastBit(p6, p7, f.v);
    LastBit(p7, 0, f.n);
    Halvings(p);
  }

  /** w is the word at this address, low byte first. */
  predicate IsWordAt(w: word, m: Ram, at: nat)
    requires at < 0xFFFF
  {
    w % 0x100 == m[at] && w / 0x100 == m[at + 1]
  }

  lemma VectorIsWord(m: Ram, at: word)
    requires at < 0xFFFF
    ensures IsWordAt(VectorAt(m, at), m, at)
  {
  }

  /** t is s interrupted. The return address, high byte first, and the status byte
      have gone to the three places S pointed at in page one, and no other byte has
      changed. S is three lower, I is set, A, X, Y and the other flags are kept, and
      pc is the word at address `vector`, low byte first, in the new memory. */
  predicate InterruptedTo(t: Arch, s: Arch, back: word, brk: bool, vector: nat)
    requires vector < 0xFFFF
  {
    && (forall p: nat :: p < 0x1_0000 ==>
         if p == 0x100 + (s.s - 2) % 0x100 then IsStatus(t.ram[p], s.f, brk)
         else t.ram[p] == if p == 0x100 + (s.s - 1) % 0x100 then back % 0x100
                          else if p == 0x100 + s.s then back / 0x100
                          else s.ram[p])
    && IsWordAt(t.pc, t.ram, vector)
    && t.s == (s.s - 3) % 0x100
    && t == s.(pc := t.pc, s := t.s, ram := t.ram, f := s.f.(i := true))
  }

  lemma PushesApart(s: byte)
    ensures Low(s - 1) == (s - 1) % 0x100 && Low(Low(s - 1) - 1) == (s - 2) % 0x100
    ensures Low(Low(Low(s - 1) - 1) - 1) == (s - 3) % 0x100
    ensures s != (s - 1) % 0x100 && s != (s - 2) % 0x100 && (s - 1) % 0x100 != (s - 2) % 0x100
  {
  }

  lemma EnterInterrupts(s: Arch, vector: word, brk: bool)
    requires vector < 0xFFFF
    ensures InterruptedTo(Enter(s, vector, brk), s, s.pc, brk, vector)
  {
    hide Low, Pack, IsStatus;
    PushesApart(s.s);
    PackIsStatus(s.f, brk);
    LowByte(s.pc);
  }

  lemma LowByte(w: word)
    ensures Low(w) == w % 0x100
  {
  }

  /** An IRQ that is served, on either core. */
  lemma IrqGoesThroughFFFE(s: Arch, warm: bool)
    ensures InterruptedTo(O2.Outcome(O2.Service(O2.IRQ), s, warm), s, s.pc, false, 0xFFFE)
    ensures InterruptedTo(Gianlucag.AfterCheck(Irq, s), s, s.pc, false, 0xFFFE)
  {
    hide Enter, InterruptedTo;
    EnterInterrupts(s, 0xFFFE, false);
  }

  /** An NMI that is served, on either core. */
  lemma NmiGoesThroughFFFA(s: Arch, warm: bool)
    ensures InterruptedTo(O2.Outcome(O2.Service(O2.NMI), s, warm), s, s.pc, false, 0xFFFA)
    ensures InterruptedTo(Gianlucag.AfterCheck(Nmi, s), s, s.pc, false, 0xFFFA)
  {
    hide Enter, InterruptedTo;
    EnterInterrupts(s, 0xFFFA, false);
  }

  /** BRK, opcode zero: the address pushed is two past it, and B is set. */
  lemma BrkGoesThroughFFFE(s: Arch)
    requires s.ram[s.pc] == 0x00
    ensures Next(s).Legal?
    ensures InterruptedTo(Execute(Next(s).instr, s), s, (s.pc + 2) % 0x1_0000, true, 0xFFFE)
  {
    hide Enter, InterruptedTo;
    var back := Trunc(Trunc(s.pc + 1) + 1);
    assert back == (s.pc + 2) % 0x1_0000;
    assert Execute(Next(s).instr, s) == Enter(s.(pc := back), 0xFFFE, true);
    EnterInterrupts(s.(pc := back), 0xFFFE, true);
    OtherPc(Enter(s.(pc := back), 0xFFFE, true), s, back, 0xFFFE);
  }

  lemma OtherPc(t: Arch, s: Arch, back: word, vector: nat)
    requires vector < 0xFFFF && InterruptedTo(t, s.(pc := back), back, true, vector)
    ensures InterruptedTo(t, s, back, true, vector)
  {
    hide IsStatus;
  }

  /** A reset of O2 starts at the word at $FFFC. It sets I and, unless it is the
      power-on one, drops S by three; nothing is written. */
  lemma O2ResetGoesThroughFFFC(s: Arch, warm: bool)
    ensures var t := O2.Outcome(O2.Service(O2.RESET), s, warm);
            && IsWordAt(t.pc, s.ram, 0xFFFC)
            && t.s == (if warm then (s.s - 3) % 0x100 else s.s)
            && t == s.(pc := t.pc, s := t.s, f := s.f.(i := true))
  {
  }

  /** A reset of gianlucag starts at the word at $FFFC, with the registers the reset
      values name, and clears the latch but not the lines. */
  lemma GianlucagResetGoesThroughFFFC(g: Gianlucag.Machine, r: Gianlucag.ResetValues)
    ensures var t := Gianlucag.AfterReset(g, r);
            && IsWordAt(t.arch.pc, g.arch.ram, 0xFFFC) && t.arch.ram == g.arch.ram
            && t.arch.a == r.a && t.arch.x == r.x && t.arch.y == r.y && t.arch.s == r.sp && t.arch.f == r.f
            && t.latch == Latch(false, false, g.latch.nmi, g.latch.irq) && !t.illegal
  {
  }
}
