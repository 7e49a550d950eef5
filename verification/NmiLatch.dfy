/** The interrupt inputs of the gianlucag core as a machine of their own: an NMI
    line latched on its falling edge, held off until RTI, and a level-triggered
    IRQ line. */
module NmiLatch {
  /** `nmi` and `irq` are the line levels; true is inactive. */
  datatype Latch = Latch(request: bool, inhibit: bool, nmi: bool, irq: bool)

  datatype Serviced = Nothing | Nmi | Irq

  function Idle(): Latch { Latch(false, false, true, true) }

  function SetNmi(l: Latch, level: bool): Latch {
    l.(request := l.request || (l.nmi && !level && !l.inhibit), nmi := level)
  }

  function SetIrq(l: Latch, level: bool): Latch { l.(irq := level) }

  function ResetLatch(l: Latch): Latch { l.(request := false, inhibit := false) }

  function ReturnFromInterrupt(l: Latch): Latch { l.(inhibit := false) }

  /** What a check with the I flag at `masked` services. */
  function Choice(l: Latch, masked: bool): Serviced {
    if l.request && !l.inhibit then Nmi else
    if !masked && !l.irq && !l.inhibit then Irq else Nothing
  }

  function Checked(l: Latch, masked: bool): Latch {
    if Choice(l, masked) == Nmi then l.(request := false, inhibit := true) else l
  }
}
