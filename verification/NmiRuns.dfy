/** The interrupt latch over whole runs, and the runs of the core that drive it. */
module NmiRuns {
  import opened Isa
  import opened NmiLatch
  import opened Gianlucag

  /** What can happen to the latch: a line moves, the loop looks at it, an RTI is
      executed, the core is reset. */
  datatype Event = NmiLine(level: bool) | IrqLine(level: bool) | Look(masked: bool) | Rti | Reset

  function Step(l: Latch, e: Event): Latch {
    match e
    case NmiLine(level) => SetNmi(l, level)
    case IrqLine(level) => SetIrq(l, level)
    case Look(masked) => Checked(l, masked)
    case Rti => ReturnFromInterrupt(l)
    case Reset => ResetLatch(l)
  }

  function Steps(l: Latch, events: seq<Event>): Latch
    decreases |events|
  {
    if events == [] then l else Step(Steps(l, events[..|events| - 1]), events[|events| - 1])
  }

  predicate Consistent(l: Latch) { !(l.request && l.inhibit) }

  function Pending(l: Latch): nat { if l.request then 1 else 0 }

  // ---------------------------------------------------------------- the core

  /** What the outside does to the core. */
  datatype Input = MoveNmi(level: bool) | MoveIrq(level: bool) | RunOne | ResetCore

  /** One input; a reset loads the values r. */
  function After(g: Machine, input: Input, r: ResetValues): Machine {
    match input
    case MoveNmi(level) => g.(latch := SetNmi(g.latch, level))
    case MoveIrq(level) => g.(latch := SetIrq(g.latch, level))
    case RunOne => if g.illegal then g else AfterPass(g)
    case ResetCore => AfterReset(g, r)
  }

  function MachineRun(g: Machine, inputs: seq<Input>, r: ResetValues): Machine
    decreases |inputs|
  {
    if inputs == [] then g else After(MachineRun(g, inputs[..|inputs| - 1], r), inputs[|inputs| - 1], r)
  }

  /** The pass from g executes an RTI. */
  predicate Returns(g: Machine) {
    !g.illegal && Next(Opened(g).arch).Legal? && Next(Opened(g).arch).instr.op == RTI
  }

  /** What an input does to the latch: a pass is a look at it, then perhaps an RTI. */
  function EventsAt(g: Machine, input: Input): seq<Event> {
    match input
    case MoveNmi(level) => [NmiLine(level)]
    case MoveIrq(level) => [IrqLine(level)]
    case RunOne => if g.illegal then [] else if Returns(g) then [Look(g.arch.f.i), Rti] else [Look(g.arch.f.i)]
    case ResetCore => [Reset]
  }

  function EventsOf(g: Machine, inputs: seq<Input>, r: ResetValues): seq<Event>
    decreases |inputs|
  {
    if inputs == [] then [] else
    var before := inputs[..|inputs| - 1];
    EventsOf(g, before, r) + EventsAt(MachineRun(g, before, r), inputs[|inputs| - 1])
  }

  lemma OneMoreEvent(l: Latch, events: seq<Event>, e: Event)
    ensures Steps(l, events + [e]) == Step(Steps(l, events), e)
  {
    assert (events + [e])[..|events|] == events;
  }

  lemma InputIsEvents(g: Machine, input: Input, r: ResetValues, l: Latch, events: seq<Event>)
    requires g.latch == Steps(l, events)
    ensures After(g, input, r).latch == Steps(l, events + EventsAt(g, input))
  {
    hide InstrTable, Execute, AfterCheck, Steps;
    var es := EventsAt(g, input);
    if es == [] {
      assert events + es == events;
    } else {
      OneMoreEvent(l, events, es[0]);
      if |es| == 1 {
        assert es == [es[0]];
      } else {
        OneMoreEvent(l, events + [es[0]], es[1]);
        assert events + es == events + [es[0]] + [es[1]];
      }
    }
  }

  /** The latch of the core goes through the run of the latch machine that the
      inputs spell out. */
  lemma {:induction false} RunIsEvents(g: Machine, inputs: seq<Input>, r: ResetValues)
    ensures MachineRun(g, inputs, r).latch == Steps(g.latch, EventsOf(g, inputs, r))
    decreases |inputs|
  {
    hide After, EventsAt, Steps;
    if inputs == [] {
      NoEvents(g.latch);
    } else {
      var before := inputs[..|inputs| - 1];
      RunIsEvents(g, before, r);
      InputIsEvents(MachineRun(g, before, r), inputs[|inputs| - 1], r, g.latch, EventsOf(g, before, r));
    }
  }

  lemma NoEvents(l: Latch)
    ensures Steps(l, []) == l
  {
  }

  // ---------------------------------------------------------------- runs of the core

  /** The core before input k. */
  function Before(g: Machine, inputs: seq<Input>, r: ResetValues, k: nat): Machine
    requires k <= |inputs|
  {
    MachineRun(g, inputs[..k], r)
  }

  lemma NextInput(g: Machine, inputs: seq<Input>, r: ResetValues, k: nat)
    requires k < |inputs|
    ensures Before(g, inputs, r, k + 1) == After(Before(g, inputs, r, k), inputs[k], r)
  {
    assert inputs[..k + 1][..k] == inputs[..k];
  }

  /** The interrupt input k makes the core enter, if any. */
  function EnteredAt(g: Machine, inputs: seq<Input>, r: ResetValues, k: nat): Serviced
    requires k < |inputs|
  {
    var was := Before(g, inputs, r, k);
    if inputs[k] == RunOne && !was.illegal then Choice(was.latch, was.arch.f.i) else Nothing
  }

  /** Input k resets the core or has it execute an RTI. */
  predicate EndsAt(g: Machine, inputs: seq<Input>, r: ResetValues, k: nat)
    requires k < |inputs|
  {
    inputs[k] == ResetCore || (inputs[k] == RunOne && Returns(Before(g, inputs, r, k)))
  }

  /** An entry of the core is the entry sequence through the vector of the line. */
  lemma EntryIsEnter(g: Machine, inputs: seq<Input>, r: ResetValues, k: nat)
    requires k < |inputs| && EnteredAt(g, inputs, r, k) != Nothing
    ensures var was, entered := Before(g, inputs, r, k), EnteredAt(g, inputs, r, k);
            Opened(was).arch == Enter(was.arch, if entered == Nmi then NMI_VECTOR else IRQ_VECTOR, false)
  {
    hide Enter, MachineRun;
  }

  lemma InputKeepsConsistency(g: Machine, input: Input, r: ResetValues)
    requires Consistent(g.latch)
    ensures Consistent(After(g, input, r).latch)
  {
    hide InstrTable, Execute, AfterCheck;
  }

  lemma {:induction false} CoreIsConsistent(g: Machine, inputs: seq<Input>, r: ResetValues, k: nat)
    requires Consistent(g.latch) && k <= |inputs|
    ensures Consistent(Before(g, inputs, r, k).latch)
  {
    hide After, Consistent;
    if k > 0 {
      CoreIsConsistent(g, inputs, r, k - 1);
      NextInput(g, inputs, r, k - 1);
      InputKeepsConsistency(Before(g, inputs, r, k - 1), inputs[k - 1], r);
    }
  }

  /** An input that ends no handler keeps the latch inhibited, and an NMI entry that
      is not at once returned from inhibits it. */
  lemma InputInhibits(g: Machine, input: Input, r: ResetValues)
    requires input != ResetCore && (input == RunOne ==> !Returns(g))
    requires g.latch.inhibit || (input == RunOne && !g.illegal && Choice(g.latch, g.arch.f.i) == Nmi)
    ensures After(g, input, r).latch.inhibit
  {
    hide InstrTable, Execute, AfterCheck;
  }

  lemma {:induction false} CoreStaysInhibited(g: Machine, inputs: seq<Input>, r: ResetValues, i: nat, j: nat)
    requires i < j <= |inputs| && EnteredAt(g, inputs, r, i) == Nmi
    requires forall k :: i <= k < j ==> !EndsAt(g, inputs, r, k)
    ensures Before(g, inputs, r, j).latch.inhibit
    decreases j
  {
    hide After, Returns, MachineRun;
    NextInput(g, inputs, r, j - 1);
    assert !EndsAt(g, inputs, r, j - 1);
    if j > i + 1 { CoreStaysInhibited(g, inputs, r, i, j - 1); }
    InputInhibits(Before(g, inputs, r, j - 1), inputs[j - 1], r);
  }

  /** In every run of the core: from an NMI entry on, nothing is entered again, NMI or
      IRQ, before the core has been reset or has executed an RTI. */
  lemma EntriesAreSeparated(g: Machine, inputs: seq<Input>, r: ResetValues, i: nat, j: nat)
    requires i < j < |inputs| && EnteredAt(g, inputs, r, i) == Nmi && EnteredAt(g, inputs, r, j) != Nothing
    ensures exists k :: i <= k < j && EndsAt(g, inputs, r, k)
  {
    hide Before, EndsAt;
    if forall k :: i <= k < j ==> !EndsAt(g, inputs, r, k) {
      CoreStaysInhibited(g, inputs, r, i, j);
      assert false;
    }
  }

  // Among the first n inputs: falling edges of the NMI line, those of them that find
  // the latch inhibited or its request pending, requests lost to a reset, and NMI
  // entries.

  function EdgesFed(g: Machine, inputs: seq<Input>, r: ResetValues, n: nat): nat
    requires n <= |inputs|
  {
    if n == 0 then 0 else
    EdgesFed(g, inputs, r, n - 1)
    + if inputs[n - 1] == MoveNmi(false) && Before(g, inputs, r, n - 1).latch.nmi then 1 else 0
  }

  function EdgesIgnored(g: Machine, inputs: seq<Input>, r: ResetValues, n: nat): nat
    requires n <= |inputs|
  {
    if n == 0 then 0 else
    var was := Before(g, inputs, r, n - 1).latch;
    EdgesIgnored(g, inputs, r, n - 1)
    + if inputs[n - 1] == MoveNmi(false) && was.nmi && (was.inhibit || was.request) then 1 else 0
  }

  function RequestsReset(g: Machine, inputs: seq<Input>, r: ResetValues, n: nat): nat
    requires n <= |inputs|
  {
    if n == 0 then 0 else
    RequestsReset(g, inputs, r, n - 1)
    + if inputs[n - 1] == ResetCore && Before(g, inputs, r, n - 1).latch.request then 1 else 0
  }

  function NmiEntries(g: Machine, inputs: seq<Input>, r: ResetValues, n: nat): nat
    requires n <= |inputs|
  {
    if n == 0 then 0 else
    NmiEntries(g, inputs, r, n - 1) + if EnteredAt(g, inputs, r, n - 1) == Nmi then 1 else 0
  }

  /** One input moves each edge or request it concerns from one account to another. */
  lemma OneInputBalances(g: Machine, input: Input, r: ResetValues)
    requires Consistent(g.latch)
    ensures var falls := input == MoveNmi(false) && g.latch.nmi;
            (if input == RunOne && !g.illegal && Choice(g.latch, g.arch.f.i) == Nmi then 1 else 0)
            + Pending(After(g, input, r).latch) + (if input == ResetCore && g.latch.request then 1 else 0)
            + (if falls && (g.latch.inhibit || g.latch.request) then 1 else 0)
            == (if falls then 1 else 0) + Pending(g.latch)
  {
    hide InstrTable, Execute, AfterCheck;
  }

  /** In every run of the core each falling edge is entered, pending, lost to a reset
      or ignored, exactly once. */
  lemma {:induction false} EdgesFedAreConserved(g: Machine, inputs: seq<Input>, r: ResetValues, n: nat)
    requires Consistent(g.latch) && n <= |inputs|
    ensures NmiEntries(g, inputs, r, n) + Pending(Before(g, inputs, r, n).latch) + RequestsReset(g, inputs, r, n)
            + EdgesIgnored(g, inputs, r, n) == EdgesFed(g, inputs, r, n) + Pending(g.latch)
  {
    hide After, MachineRun, Consistent, Pending, Choice;
    if n == 0 {
      StartOfRun(g, inputs, r);
    } else {
      EdgesFedAreConserved(g, inputs, r, n - 1);
      CoreIsConsistent(g, inputs, r, n - 1);
      NextInput(g, inputs, r, n - 1);
      OneInputBalances(Before(g, inputs, r, n - 1), inputs[n - 1], r);
    }
  }

  lemma StartOfRun(g: Machine, inputs: seq<Input>, r: ResetValues)
    ensures Before(g, inputs, r, 0) == g
  {
  }

  /** A core in an NMI handler, about to execute an RTI, with memory full of them. */
  function InHandler(): Machine {
    var masked := Isa.Flags(false, false, false, true, false, false);
    MachineState(Isa.Arch(0, 0, 0, 0xFC, 0x0200, masked, seq(0x1_0000, _ => 0x40)),
                 NmiLatch.Latch(false, true, true, true), false)
  }

  /** An edge that comes while a handler runs is not deferred to its RTI: it is ignored,
      and when the handler has returned nothing is pending and nothing is entered. */
  lemma EdgeInHandlerIsLost(g: Machine, r: ResetValues)
    requires !g.illegal && g.latch == NmiLatch.Latch(false, true, true, true) && Returns(g)
    ensures var inputs := [MoveNmi(false), MoveNmi(true), RunOne, RunOne];
            && EdgesFed(g, inputs, r, 4) == EdgesIgnored(g, inputs, r, 4) == 1 && NmiEntries(g, inputs, r, 4) == 0
            && Before(g, inputs, r, 3).latch == NmiLatch.Latch(false, false, true, true)
  {
    hide After, MachineRun, Returns, Choice;
    var inputs := [MoveNmi(false), MoveNmi(true), RunOne, RunOne];
    StartOfRun(g, inputs, r);
    NextInput(g, inputs, r, 0);
    NextInput(g, inputs, r, 1);
    NextInput(g, inputs, r, 2);
    EdgeIgnored(g, r);
    ReturnFrees(g.(latch := NmiLatch.Latch(false, true, true, true)), r);
    NothingChosen(Before(g, inputs, r, 2));
    NothingChosen(Before(g, inputs, r, 3));
    assert EdgesFed(g, inputs, r, 1) == EdgesIgnored(g, inputs, r, 1) == 1 && NmiEntries(g, inputs, r, 1) == 0;
    assert EdgesFed(g, inputs, r, 2) == EdgesIgnored(g, inputs, r, 2) == 1 && NmiEntries(g, inputs, r, 2) == 0;
    assert EdgesFed(g, inputs, r, 3) == EdgesIgnored(g, inputs, r, 3) == 1 && NmiEntries(g, inputs, r, 3) == 0;
  }

  lemma EdgeIgnored(g: Machine, r: ResetValues)
    requires g.latch == NmiLatch.Latch(false, true, true, true)
    ensures After(g, MoveNmi(false), r) == g.(latch := NmiLatch.Latch(false, true, false, true))
    ensures After(After(g, MoveNmi(false), r), MoveNmi(true), r) == g
  {
  }

  lemma ReturnFrees(g: Machine, r: ResetValues)
    requires g.latch == NmiLatch.Latch(false, true, true, true) && Returns(g)
    ensures After(g, RunOne, r).latch == NmiLatch.Latch(false, false, true, true)
  {
    hide InstrTable, Execute, AfterCheck;
  }

  lemma NothingChosen(g: Machine)
    requires !g.latch.request && g.latch.irq
    ensures Choice(g.latch, g.arch.f.i) == Nothing
  {
  }

  lemma LostEdge(r: ResetValues)
    ensures var inputs := [MoveNmi(false), MoveNmi(true), RunOne, RunOne];
            EdgesFed(InHandler(), inputs, r, 4) == 1 && NmiEntries(InHandler(), inputs, r, 4) == 0
  {
    hide EdgesFed, EdgesIgnored, NmiEntries, Before;
    assert InstrTable(0x40) == Legal(Instr(RTI, NoOperand, 6, false));
    EdgeInHandlerIsLost(InHandler(), r);
  }

  method Feed(g: Mos6502, input: Input)
    modifies g
    ensures g.Machine() == After(old(g.Machine()), input, old(g.Resets())) && g.Resets() == old(g.Resets())
  {
    hide AfterPass, PassCycles, TableCycles, Choice, VectorAt, SetNmi, SetIrq, ResetLatch;
    match input
    case MoveNmi(level) => g.Nmi(level);
    case MoveIrq(level) => g.Irq(level);
    case ResetCore => g.Reset();
    case RunOne => if !g.illegalOpcode { var _, _ := g.Pass(); }
  }

  /** The core itself, fed any inputs: it makes the run above, the latch goes through
      the events the inputs spell out, and its NMI entries never outnumber the falling
      edges fed to it. */
  method Drive(g: Mos6502, inputs: seq<Input>) returns (ghost events: seq<Event>)
    modifies g
    ensures g.Machine() == MachineRun(old(g.Machine()), inputs, old(g.Resets())) && g.Resets() == old(g.Resets())
    ensures events == EventsOf(old(g.Machine()), inputs, old(g.Resets())) && g.Latch() == Steps(old(g.Latch()), events)
    ensures old(Consistent(g.Latch())) ==>
      && Consistent(g.Latch())
      && NmiEntries(old(g.Machine()), inputs, old(g.Resets()), |inputs|)
         <= EdgesFed(old(g.Machine()), inputs, old(g.Resets()), |inputs|) + Pending(old(g.Latch()))
  {
    hide Consistent, After, EventsOf, Steps, NmiEntries, EdgesFed, Pending;
    ghost var was, r := g.Machine(), g.Resets();
    for k := 0 to |inputs|
      invariant g.Machine() == Before(was, inputs, r, k) && g.Resets() == r
    {
      NextInput(was, inputs, r, k);
      Feed(g, inputs[k]);
    }
    assert inputs[..|inputs|] == inputs;
    events := EventsOf(was, inputs, r);
    RunIsEvents(was, inputs, r);
    if Consistent(was.latch) {
      CoreIsConsistent(was, inputs, r, |inputs|);
      EdgesFedAreConserved(was, inputs, r, |inputs|);
    }
  }
}
