/** The cycle-stepped core and the instruction-atomic core mean the same thing,
    with and without interrupts. */
module Lockstep {
  import opened Isa
  import opened NmiLatch
  import O2
  import Gianlucag

  // ---------------------------------------------------------------- quiet runs

  /** Nothing asks for service, and nothing will until a line moves. */
  predicate Quiet(l: Latch) { !l.request && l.irq }

  lemma QuietPass(g: Gianlucag.Machine)
    requires !g.illegal && Quiet(g.latch) && Next(g.arch).Legal?
    ensures var after := Gianlucag.AfterPass(g);
            && after.arch == Execute(Next(g.arch).instr, g.arch) && !after.illegal && Quiet(after.latch)
    ensures Gianlucag.PassCycles(g) == Cycles(Next(g.arch).instr, g.arch)
  {
    hide Execute, Cycles, InstrTable;
  }

  /** The instruction-counting loop, with nothing pending, is the run of the
      instruction set. */
  lemma {:induction false} QuietRun(g: Gianlucag.Machine, count: nat, n: nat)
    requires !g.illegal && Quiet(g.latch) && DocumentedRun(g.arch, n)
    ensures var (after, total) := Gianlucag.RunFrom(g, count, n, Gianlucag.INST_COUNT);
            && after.arch == Run(g.arch, n) && !after.illegal && Quiet(after.latch)
            && total == count + RunCycles(g.arch, n)
    decreases n
  {
    hide Execute, Cycles, InstrTable, Gianlucag.AfterPass, Gianlucag.PassCycles, Gianlucag.TableCycles, Quiet;
    if n > 0 {
      QuietPass(g);
      QuietRun(Gianlucag.AfterPass(g), count + Gianlucag.PassCycles(g), n - 1);
    }
  }

  /** Every documented instruction takes from two to seven cycles. */
  lemma TwoToSevenCycles(s: Arch)
    requires Next(s).Legal?
    ensures 2 <= Cycles(Next(s).instr, s) <= 7
  {
    hide InstrTable, Resolve, Taken;
    O2.TableIsRegular(s.ram[s.pc]);
  }

  /** From matching boundary states, n steps of one core and n instructions of the
      other reach the same registers, flags and memory in the same cycles. */
  method Together(o2: O2.CPU, g: Gianlucag.Mos6502, n: nat, count: nat) returns (total: nat)
    requires o2.Valid() && o2.AtBoundary() && !o2.rnmi && !o2.rirq
    requires !g.illegalOpcode && Quiet(g.Latch())
    requires o2.Arch() == g.Arch() && DocumentedRun(g.Arch(), n)
    modifies o2, g
    ensures o2.Valid() && o2.AtBoundary() && !o2.rnmi && !o2.rirq
    ensures !g.illegalOpcode && Quiet(g.Latch())
    ensures o2.Arch() == g.Arch() == Run(old(g.Arch()), n)
    ensures o2.tsc - old(o2.tsc) == total - count == RunCycles(old(g.Arch()), n)
  {
    hide DocumentedRun, Run, RunCycles, Gianlucag.RunFrom, Quiet;
    QuietRun(g.Machine(), count, n);
    assert o2.start == o2.Arch();
    o2.Steps(n);
    total := g.Run(n, count, Gianlucag.INST_COUNT);
  }

  // ---------------------------------------------------------------- interrupted runs

  /** What the outside does before an instruction: a pulse on the NMI line, and
      the IRQ line held active until the instruction is over. */
  datatype Event = Event(nmi: bool, irq: bool)

  function Selected(s: Arch, e: Event): Serviced {
    if e.nmi then Nmi else if e.irq && !s.f.i then Irq else Nothing
  }

  function Entered(s: Arch, e: Event): Arch { Gianlucag.AfterCheck(Selected(s, e), s) }

  /** The state after an entry, if one is due, and one documented instruction. */
  function Passed(s: Arch, e: Event): Arch
    requires Next(Entered(s, e)).Legal?
  {
    Execute(Next(Entered(s, e)).instr, Entered(s, e))
  }

  /** Every instruction met is documented, and nothing asks for service between an
      NMI and the RTI that ends its handler; `inhibited` says one is running. */
  predicate Admissible(s: Arch, inhibited: bool, schedule: seq<Event>)
    decreases |schedule|
  {
    schedule == [] ||
    (var e := schedule[0];
     && (inhibited ==> Selected(s, e) == Nothing)
     && Next(Entered(s, e)).Legal?
     && Admissible(Passed(s, e), Inhibited(s, inhibited, e), schedule[1..]))
  }

  predicate Inhibited(s: Arch, inhibited: bool, e: Event)
    requires Next(Entered(s, e)).Legal?
  {
    (inhibited || e.nmi) && Next(Entered(s, e)).instr.op != RTI
  }

  function Scheduled(s: Arch, schedule: seq<Event>): Arch
    decreases |schedule|
  {
    if schedule == [] || Next(Entered(s, schedule[0])).Illegal? then s else
    Scheduled(Passed(s, schedule[0]), schedule[1..])
  }

  /** The cycles of a run in which an interrupt entry takes `entry` of them. */
  function ScheduledCycles(s: Arch, schedule: seq<Event>, entry: nat): nat
    decreases |schedule|
  {
    if schedule == [] || Next(Entered(s, schedule[0])).Illegal? then 0 else
    (if Selected(s, schedule[0]) != Nothing then entry else 0)
    + Cycles(Next(Entered(s, schedule[0])).instr, Entered(s, schedule[0]))
    + ScheduledCycles(Passed(s, schedule[0]), schedule[1..], entry)
  }

  function Entries(s: Arch, schedule: seq<Event>): nat
    decreases |schedule|
  {
    if schedule == [] || Next(Entered(s, schedule[0])).Illegal? then 0 else
    (if Selected(s, schedule[0]) != Nothing then 1 else 0) + Entries(Passed(s, schedule[0]), schedule[1..])
  }

  lemma {:induction false} CostOfEntries(s: Arch, schedule: seq<Event>, entry: nat)
    ensures ScheduledCycles(s, schedule, entry) == ScheduledCycles(s, schedule, 0) + entry * Entries(s, schedule)
    decreases |schedule|
  {
    hide Cycles, Execute, InstrTable, Selected, Gianlucag.AfterCheck;
    if schedule != [] && Next(Entered(s, schedule[0])).Legal? {
      CostOfEntries(Passed(s, schedule[0]), schedule[1..], entry);
    }
  }

  /** One event on the cycle-stepped core: an entry is a step of its own. */
  method O2Event(o2: O2.CPU, e: Event)
    requires o2.Valid() && o2.AtBoundary() && !o2.rnmi && !o2.rirq
    requires Next(Entered(o2.Arch(), e)).Legal?
    modifies o2
    ensures o2.Valid() && o2.AtBoundary() && !o2.rnmi && !o2.rirq
    ensures o2.Arch() == Passed(old(o2.Arch()), e)
    ensures o2.tsc == old(o2.tsc) + (if Selected(old(o2.Arch()), e) != Nothing then 7 else 0)
                      + Cycles(Next(Entered(old(o2.Arch()), e)).instr, Entered(old(o2.Arch()), e))
  {
    hide Execute, Cycles, InstrTable, Enter;
    RequestsAreMasked(o2.Arch(), e);
    if e.nmi { o2.Raise(O2.NMI); }
    if e.irq { o2.Raise(O2.IRQ); }
    if o2.rnmi || (o2.rirq && !o2.p.interrupt) { o2.Step(); }
    o2.Step();
    o2.Unraise(O2.IRQ);
  }

  lemma RequestsAreMasked(s: Arch, e: Event)
    ensures Selected(s, e) != Nothing ==> Entered(s, e).f.i
  {
  }

  /** One event on the instruction-atomic core: one pass of its loop. */
  method GianlucagEvent(g: Gianlucag.Mos6502, e: Event, count: nat, ghost inhibited: bool) returns (total: nat)
    requires !g.illegalOpcode && g.Latch() == Latch(false, inhibited, true, true)
    requires Admissible(g.Arch(), inhibited, [e])
    modifies g
    ensures !g.illegalOpcode && g.Latch() == Latch(false, Inhibited(old(g.Arch()), inhibited, e), true, true)
    ensures g.Arch() == Passed(old(g.Arch()), e)
    ensures total == count + (if Selected(old(g.Arch()), e) != Nothing then 6 else 0)
                     + Cycles(Next(Entered(old(g.Arch()), e)).instr, Entered(old(g.Arch()), e))
  {
    hide Passed, Entered, Selected, Inhibited, Next, Cycles, Gianlucag.AfterPass, Gianlucag.PassCycles,
         Gianlucag.RunFrom;
    if e.nmi {
      g.Nmi(false);
      g.Nmi(true);
    }
    g.Irq(!e.irq);
    OnePass(g.Machine(), count);
    EventPass(g.Machine(), e, inhibited);
    total := g.Run(1, count, Gianlucag.INST_COUNT);
    g.Irq(true);
  }

  lemma EventPass(g: Gianlucag.Machine, e: Event, inhibited: bool)
    requires !g.illegal && g.latch == Latch(e.nmi && !inhibited, inhibited, true, !e.irq)
    requires Admissible(g.arch, inhibited, [e])
    ensures var after := Gianlucag.AfterPass(g);
            && after.arch == Passed(g.arch, e) && !after.illegal
            && after.latch == Latch(false, Inhibited(g.arch, inhibited, e), true, !e.irq)
    ensures Gianlucag.PassCycles(g) == (if Selected(g.arch, e) != Nothing then 6 else 0)
              + Cycles(Next(Entered(g.arch, e)).instr, Entered(g.arch, e))
  {
    hide Execute, Cycles, InstrTable, Enter;
  }

  lemma OnePass(g: Gianlucag.Machine, count: nat)
    requires !g.illegal
    ensures Gianlucag.RunFrom(g, count, 1, Gianlucag.INST_COUNT)
         == (Gianlucag.AfterPass(g), count + Gianlucag.PassCycles(g))
  {
    hide Gianlucag.AfterPass, Gianlucag.PassCycles;
  }

  /** Both cores under one interrupt schedule. They end in the same state; one
      counts seven cycles for an entry and the other six, and that is all their
      clocks differ by. */
  method TogetherInterrupted(o2: O2.CPU, g: Gianlucag.Mos6502, schedule: seq<Event>, count: nat) returns (total: nat)
    requires o2.Valid() && o2.AtBoundary() && !o2.rnmi && !o2.rirq
    requires !g.illegalOpcode && g.Latch() == Latch(false, g.nmiInhibit, true, true)
    requires o2.Arch() == g.Arch() && Admissible(g.Arch(), g.nmiInhibit, schedule)
    modifies o2, g
    ensures o2.Valid() && o2.AtBoundary() && !o2.rnmi && !o2.rirq && !g.illegalOpcode
    ensures o2.Arch() == g.Arch() == Scheduled(old(g.Arch()), schedule)
    ensures o2.tsc - old(o2.tsc) == ScheduledCycles(old(g.Arch()), schedule, 7)
    ensures total - count == ScheduledCycles(old(g.Arch()), schedule, 6)
    ensures (o2.tsc - old(o2.tsc)) - (total - count) == Entries(old(g.Arch()), schedule)
  {
    hide Passed, Entered, Selected, Inhibited, Next, Execute, Cycles;
    CostOfEntries(g.Arch(), schedule, 7);
    CostOfEntries(g.Arch(), schedule, 6);
    total := count;
    var k := 0;
    ghost var was := g.Arch();
    while k < |schedule|
      invariant 0 <= k <= |schedule|
      invariant o2.Valid() && o2.AtBoundary() && !o2.rnmi && !o2.rirq && !g.illegalOpcode
      invariant g.Latch() == Latch(false, g.nmiInhibit, true, true)
      invariant o2.Arch() == g.Arch() && Admissible(g.Arch(), g.nmiInhibit, schedule[k..])
      invariant Scheduled(g.Arch(), schedule[k..]) == Scheduled(was, schedule)
      invariant o2.tsc + ScheduledCycles(g.Arch(), schedule[k..], 7) == old(o2.tsc) + ScheduledCycles(was, schedule, 7)
      invariant total + ScheduledCycles(g.Arch(), schedule[k..], 6) == count + ScheduledCycles(was, schedule, 6)
    {
      assert schedule[k..][1..] == schedule[k + 1..];
      FirstOnly(g.Arch(), g.nmiInhibit, schedule[k..]);
      O2Event(o2, schedule[k]);
      total := GianlucagEvent(g, schedule[k], total, g.nmiInhibit);
      k := k + 1;
    }
  }

  lemma FirstOnly(s: Arch, inhibited: bool, schedule: seq<Event>)
    requires schedule != [] && Admissible(s, inhibited, schedule)
    ensures Admissible(s, inhibited, [schedule[0]])
  {
    hide Passed, Entered, Selected, Inhibited, Next;
    assert [schedule[0]][1..] == [];
  }
}
