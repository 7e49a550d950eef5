# Verified models of the benchmark's cores and chips

The repository collects 6502 cores written in very different styles and compares
them. This project models two of them and proves that they mean the same thing,
then proves the properties its other stateful parts depend on.

**The two cores.** `Isa.dfy` is the documented NMOS instruction set as a function
on architectural states: A, X, Y, S, PC, the flags N V D I Z C and a flat 64K
memory. `O2.dfy` is the O2 core: a FETCH/LOAD/EXECUTE machine that makes one bus
access a cycle, keeps partial work in `av`, `wv0`, `wv1`, `page` and its cycle
counter, and shares the bus with an interrupt sequencer. Its invariant says, for
every state the machine can be in, what the partial work is worth, so that each
cycle is proved to lead to the next and the last one to the outcome of the whole
job. `Gianlucag.dfy` is the gianlucag core, which resolves an operand in one call
and carries out the operation in another. `Alu.dfy` reconciles the different
decimal arithmetic of the two. `Lockstep.dfy` puts them side by side: over whole
runs they reach the same state in the same cycles, and under interrupts the same
state again, their clocks one cycle apart for every interrupt entry.
`O2Runs.dfy` reduces O2 to a sequencer of whole jobs and drives it with any
interleaving of cycles and requests.

What both cores share with the reference is pinned down from outside: `Bitwise.dfy`
gives the logical instructions bit by bit in plain arithmetic, and `Vectors.dfy` gives
interrupts, BRK and resets with the addresses of the vectors.

**What follows for programs.** `Bcd.dfy`: chained decimal arithmetic of any
length. `Stack.dfy`: the stack page as a list, and the transparency of calls, saves
and interrupts; `StackRuns.dfy`: the same for segments of a run of instructions and
interrupt entries. `NmiLatch.dfy` and `NmiRuns.dfy`: the NMI latch of the gianlucag
core.

**A third core's clock.** `Fake6502.dfy`: the tick-budget loop of fake6502, whose
undocumented handlers decrement an unsigned counter, over any behaviour of the
instructions themselves. `Fake6502Neighbours.dfy`: its undocumented opcodes, by the
documented ones they resemble.

**Chips and tools.** `Fdd.dfy` and `FddCpc.dfy`: the floppy drive and the .dsk
parser; `DskBuilder.dfy`: images built from the format, inserted and read back.
`Ay38910.dfy` and `NoiseLfsr.dfy`: the sound generators; `Ay38910Tones.dfy`: what the
registers program, and the square wave. `Am40010.dfy` and `Am40010Runs.dfy`: the CPC
gate array; `Am40010Picture.dfy`: what it shows, in the documented bits and numbers.
`IntelHex.dfy`: the HEX-to-image converter; `HexWriter.dfy`: a writer of records, and
what the converter makes of them. `Carry.dfy`: the carry and overflow formulas of the
CLK library at every width.

Integers of the source's widths are bounded integers with every truncation written
out (`Words.dfy`); division by variables is in `Arithmetic.dfy`. Methods that change
state are classes with the source's fields; each is proved against a function of the
old state, and the lemmas are about those functions.

`dafny verify dfyconfig.toml` checks the project (Dafny 4.11).

## Where the code and its promises differ

- A pending IRQ does not survive a BRK on O2: completing BRK drops the request
  (`O2.CPU.Step` says exactly which jobs do, `O2Runs.BrkDropsIrq` shows it).
- An interrupt entry is counted as seven cycles by O2 and six by gianlucag
  (`Lockstep.TogetherInterrupted`); the instructions agree.
- On gianlucag an NMI edge that arrives inside an NMI handler is lost, not deferred
  (`NmiRuns.EdgesFedAreConserved` counts it as ignored, `NmiRuns.LostEdge` shows one).
- `exec6502` can run for ever for a budget above 2^32 - 8 (`Fake6502.SafeBudgets`).
- The AY sample rate is exact only for a sample period of at least 16
  (`Ay38910.SampleRateIsExact`).
- `carried_out` and `carried_in` are wrong at bit 31 of a 64-bit type
  (`Carry.WhereCarriedOutIsExact`).
- The gate array's `hscount` is documented as a 5-bit counter; it leaves five bits
  exactly when 32 lines go by without a VSYNC or a reset (`Am40010Runs.HscountCounts`,
  `Am40010Runs.FiveBitsExceeded`).

## Model

| member | source | states |
|---|---|---|
| `Lockstep.Together` | cores/o2/O2.cpp:118-173 | from matching boundary states with nothing pending, for every memory and every n documented instructions, n steps of O2 and n instructions of gianlucag end with the same A, X, Y, S, PC, NVDIZC and memory, and both clocks advance by the same published total |
| `Lockstep.TogetherInterrupted` | cores/gianlucag_mos6502/mos6502.cpp:1634-1665 | the same under any schedule of NMI pulses and held IRQs that stays quiet between an NMI and its RTI; the clocks then differ by exactly the number of interrupt entries (seven cycles counted by O2, six by gianlucag) |
| `Lockstep.O2Event` | cores/o2/O2.cpp:139-149 | on O2 an entry that is due is a step of its own: after it and the following instruction the state is the entry (NMI before IRQ, IRQ only with I clear) followed by the instruction, at seven cycles plus the published cost |
| `Lockstep.GianlucagEvent` | cores/gianlucag_mos6502/mos6502.cpp:1527-1541 | on gianlucag the same event is a line movement and one loop pass: same state, six cycles plus the published cost, and the latch is inhibited exactly from an NMI to the next RTI |
| `Lockstep.QuietRun` | cores/gianlucag_mos6502/mos6502.cpp:1634-1665 | the instruction-counting loop with nothing pending is the n-instruction run of the instruction set, with its exact cycle total |
| `Lockstep.CostOfEntries` | cores/gianlucag_mos6502/mos6502.cpp:1645-1647 | a run costs its instructions plus a fixed price for each interrupt entry |
| `Lockstep.TwoToSevenCycles` | cores/gianlucag_mos6502/mos6502.cpp:90-910 | every documented instruction takes from two to seven cycles |
| `O2Runs.Drive` | cores/o2/O2.cpp:86-173 | any interleaving of cycles, NMI and IRQ requests and withdrawals, and resets raised at boundaries: state, job under way and its cycles left, requests, clock and finished jobs are exactly those of the sequencer fed the same events; hence the state is the replay of the jobs, the clock their durations, IRQ jobs start only with I clear, and NMI and IRQ entries never outnumber their requests |
| `O2Runs.RaisedNmiIsNext` | cores/o2/O2.cpp:86-149 | in every run, an NMI raised outside an NMI entry, and neither withdrawn nor preceded by a reset, is the job started at the next boundary |
| `O2Runs.NmiIsServed` | cores/o2/O2.cpp:118-149 | and its entry is finished once the job under way has run out and seven cycles more have gone by |
| `O2Runs.RunReplays` | cores/o2/O2.cpp:118-173 | a run of the sequencer is the replay of the jobs it finishes, its clock their total duration plus the cycles spent on the one under way |
| `O2Runs.JobsMayStart` | cores/o2/O2.cpp:139-149 | every job of a run was started legitimately: an IRQ entry with I clear, an instruction where it is documented |
| `O2Runs.EntriesNeedRequests` | cores/o2/O2.cpp:86-137 | over every run, entries for a line plus what is pending never exceed requests raised for it |
| `O2Runs.BrkDropsIrq` | cores/o2/O2.cpp:126-137 | an IRQ raised while a BRK is under way is no longer pending when the BRK is done, and no entry was made for it |
| `O2Runs.LostIrq` | cores/o2/O2.cpp:126-137 | shown at an input: a BRK at address zero of an empty memory |
| `O2Runs.Deliver` | cores/o2/O2.cpp:86-173 | one event takes the core to exactly the next state of the sequencer and finishes exactly its job |
| `O2Runs.Clock` | cores/o2/O2.cpp:118-173 | one cycle is one step of the sequencer |
| `O2.CPU.Cycle` | cores/o2/O2.cpp:118-173 | one cycle keeps the sequencer invariant (a FETCH boundary has counter zero, intc exactly when iflag is not INONE, partial work as the phase says) and either leaves the job under way or ends it with its whole outcome after exactly its duration; a request is dropped only by the job that used its vector (BRK drops a pending IRQ) |
| `O2.CPU.Step` | cores/o2/O2.hpp:98-103 | a step terminates by a real decreasing measure and carries out one whole job in exactly its published cycles; NMI and IRQ requests survive it unless it acknowledged them |
| `O2.CPU.Steps` | cores/o2/O2.hpp:104-109 | n steps with nothing pending are the n-instruction run of the instruction set, tsc advancing by its exact cycle total |
| `O2.CPU.constructor` | cores/o2/O2.cpp:9-50 | power-on: a cold reset is under way |
| `O2.CPU.Raise` | cores/o2/O2.cpp:86-101 | requests are recorded without disturbing the work in progress; a RESET at a boundary starts a warm reset |
| `O2.CPU.Unraise` | cores/o2/O2.cpp:103-116 | withdrawing NMI or IRQ clears that request only |
| `O2.CPU.Interrupt` | cores/o2/O2.cpp:178-238 | one sequencer cycle: BRK skips a cycle, otherwise the entry advances by one, and after the seventh cycle the whole entry has happened |
| `O2.CPU.PushCycle` | cores/o2/O2.cpp:191-217 | cycles two to four push PC high, PC low and the flags with B as `cbrk` and bit 5 set, and then set I; a reset pushes nothing and drops S by three unless cold |
| `O2.CPU.VectorCycle` | cores/o2/O2.cpp:218-236 | cycles five and six load the vector low byte first and end the entry; which addresses these are is `Vectors.IrqGoesThroughFFFE` and its neighbours |
| `O2.CPU.EntryOutcome` | cores/o2/O2.cpp:178-238 | an entry from a boundary is the reference entry (three bytes, I set, vector), BRK the one with B set at PC+2 |
| `O2.CPU.Acknowledge` | cores/o2/O2.cpp:126-137 | the end of an entry drops exactly the request whose vector was used and returns to FETCH |
| `O2.CPU.Fetch` | cores/o2/O2.cpp:240-262 | the fetch cycle decodes every documented opcode and leaves either a LOAD phase about to begin or an operation ready to execute |
| `O2.CPU.Parse` | cores/o2/O2.cpp:458-540 | the three decoders give the addressing mode of every documented opcode |
| `O2.CPU.CtrlParse` | cores/o2/O2.cpp:458-486 | addressing mode of the documented control opcodes |
| `O2.CPU.AlucParse` | cores/o2/O2.cpp:487-499 | addressing mode of the documented ALU opcodes |
| `O2.CPU.RmwcParse` | cores/o2/O2.cpp:500-540 | addressing mode of the documented read-modify-write opcodes, with the index register swapped for STX and LDX |
| `O2.CPU.Load` | cores/o2/O2.cpp:264-282 | every LOAD phase ends, in exactly its cycles, with (wv1, wv0) the effective address of the reference mode, PC past the operand and `page` set exactly when indexing crossed |
| `O2.CPU.Zp` | cores/o2/O2.cpp:541-547 | zero page: one cycle to the effective address |
| `O2.CPU.Zpx` | cores/o2/O2.cpp:548-559 | zero page,X: two cycles, the sum wrapping in the page |
| `O2.CPU.Zpy` | cores/o2/O2.cpp:560-571 | zero page,Y likewise |
| `O2.CPU.Abs` | cores/o2/O2.cpp:572-585 | absolute: two cycles; JMP executes in the second |
| `O2.CPU.Absx` | cores/o2/O2.cpp:586-602 | absolute,X: the fix-up cycle is taken exactly when the page is crossed |
| `O2.CPU.Absy` | cores/o2/O2.cpp:603-619 | absolute,Y likewise |
| `O2.CPU.AbsIndexed` | cores/o2/O2.cpp:586-619 | the cycles the two share |
| `O2.CPU.Ind` | cores/o2/O2.cpp:620-636 | indirect JMP: four cycles, the pointer high byte read without leaving the page |
| `O2.CPU.Indx` | cores/o2/O2.cpp:637-656 | (indirect,X): four cycles, pointer arithmetic wrapping in the zero page |
| `O2.CPU.Indy` | cores/o2/O2.cpp:657-681 | (indirect),Y: the fix-up cycle is taken exactly when the page is crossed |
| `O2.CPU.PageCross` | cores/o2/O2.hpp:233-242 | adds an index to a low byte and tells whether it carried |
| `O2.CPU.Exec` | cores/o2/O2.cpp:284-456 | one EXECUTE cycle of any documented instruction is its last exactly when the published count is reached, and then the state is the whole outcome |
| `O2.CPU.ExecOnce` | cores/o2/O2.cpp:158-171 | an EXECUTE cycle leaves the next cycle of the same instruction with time to spare, or the outcome at exactly the published count |
| `O2.CPU.LoadOnce` | cores/o2/O2.cpp:151-157 | a LOAD cycle leaves the next one, the EXECUTE phase, or a completed jump at exactly its published count |
| `O2.CPU.OAdc` | cores/o2/O2.cpp:682-717 | ADC, binary and decimal, for every operand byte including invalid BCD |
| `O2.CPU.OSbc` | cores/o2/O2.cpp:1014-1049 | SBC, binary and decimal, for every operand byte including invalid BCD |
| `O2.CPU.OBit` | cores/o2/O2.cpp:757-768 | BIT |
| `O2.CPU.OCp` | cores/o2/O2.cpp:1126-1133 | the comparisons: carry is unsigned greater-or-equal, although the code compares with the difference |
| `O2.CPU.OSt` | cores/o2/O2.cpp:1155-1165 | a store writes at the effective address, one cycle later when an indexed mode did not cross |
| `O2.CPU.OShift` | cores/o2/O2.cpp:725-756 | the shifts: on the accumulator in one cycle, in memory with the dummy cycle exactly for absolute,X without a crossing, result and flags those of the reference |
| `O2.CPU.OCount` | cores/o2/O2.cpp:777-799 | DEC (and INC) in memory with the same timing |
| `O2.CPU.OJsr` | cores/o2/O2.cpp:835-857 | JSR pushes its own last byte's address and reads the high destination byte only then, so pushes may overwrite it |
| `O2.CPU.OBrk` | cores/o2/O2.cpp:769-776 | BRK turns into an interrupt entry through the IRQ vector with B set |
| `O2.CPU.ORts` | cores/o2/O2.cpp:993-1013 | RTS in five EXECUTE cycles |
| `O2.CPU.ORti` | cores/o2/O2.cpp:976-992 | RTI in five EXECUTE cycles, flags first |
| `O2.CPU.OPhp` | cores/o2/O2.cpp:1050-1060 | PHP pushes the flags with bits 4 and 5 set in its second cycle |
| `O2.CPU.OPlp` | cores/o2/O2.cpp:1061-1083 | PLP restores the six flags in its third cycle |
| `O2.CPU.OPh` | cores/o2/O2.cpp:1173-1181 | PHA |
| `O2.CPU.OPl` | cores/o2/O2.cpp:1182-1197 | PLA with N and Z |
| `O2.CPU.OBr` | cores/o2/O2.cpp:1092-1119 | a branch takes two cycles, three when taken, four when taken to another page, and goes to the sign-extended target |
| `O2.CPU.OFl` | cores/o2/O2.cpp:1120-1125 | the flag instructions |
| `O2.CPU.PushTo` | cores/o2/O2.hpp:226-226 | push, with S wrapping in page one |
| `O2.CPU.Pop` | cores/o2/O2.hpp:227-227 | pull, with S wrapping in page one |
| `O2.Coverage` | cores/o2/O2.cpp:284-456 | the EXECUTE dispatch knows every documented opcode |
| `O2.TableIsRegular` | cores/gianlucag_mos6502/mos6502.cpp:90-910 | the published cycle count of every documented opcode follows from its operation and mode |
| `Alu.AddSplit` | cores/o2/O2.cpp:686-708 | O2's decimal ADC with separate digits is the digit-wise definition for every two bytes and carry |
| `Alu.SubSplit` | cores/o2/O2.cpp:1014-1042 | O2's decimal SBC likewise |
| `Alu.AddWord` | cores/gianlucag_mos6502/mos6502.cpp:1823-1853 | gianlucag's decimal ADC on a 16-bit word, correcting by six, is the same definition for every two bytes and carry |
| `Alu.SubWord` | cores/gianlucag_mos6502/mos6502.cpp:2315-2346 | gianlucag's decimal SBC likewise |
| `Alu.AddOverflow` | cores/o2/O2.cpp:710-715 | the sign test for V holds exactly when the signed sum leaves the byte range |
| `Alu.SubComplement` | cores/o2/O2.cpp:1014-1049 | adding the complement subtracts, with all five results |
| `Isa.IndexCarry` | cores/o2/O2.cpp:586-602 | adding an index to the low byte and carrying in a second cycle is 16-bit addition mod 2^16 |
| `Bitwise.LogicalInstruction` | cores/o2/O2.cpp:718-724 | AND, ORA and EOR on either core: bit k of the new A is the and, or, exclusive or of bits k of A and of the operand, for every bit by arithmetic; N is bit 7, Z says that no bit is set; nothing else changes |
| `Bitwise.BitInstruction` | cores/gianlucag_mos6502/mos6502.cpp:1931-1940 | BIT: Z is set exactly when no bit is set both in A and in the operand, N and V are bits 7 and 6 of the operand; nothing else changes |
| `Bitwise.AndBit` | cores/gianlucag_mos6502/mos6502.cpp:1857-1866 | bit k of the bitwise and, for every k |
| `Bitwise.OrBit` | cores/gianlucag_mos6502/mos6502.cpp:2201-2208 | bit k of the bitwise or, for every k |
| `Bitwise.XorBit` | cores/gianlucag_mos6502/mos6502.cpp:2097-2106 | bit k of the bitwise exclusive or, for every k |
| `Vectors.IrqGoesThroughFFFE` | cores/o2/O2.cpp:218-236 | an IRQ served on either core: PC high, PC low and the flags (B clear, bit 5 set) at $100 + S, S - 1, S - 2 and no other byte written, S three lower, I set, and PC the word at $FFFE of the memory after the pushes |
| `Vectors.NmiGoesThroughFFFA` | cores/gianlucag_mos6502/mos6502.cpp:1597-1610 | an NMI served on either core: the same through $FFFA |
| `Vectors.BrkGoesThroughFFFE` | cores/gianlucag_mos6502/mos6502.cpp:1979-1988 | opcode $00 executed: the same through $FFFE with B set and the address two past the opcode |
| `Vectors.O2ResetGoesThroughFFFC` | cores/o2/O2.cpp:178-236 | a reset of O2: PC is the word at $FFFC, I is set, S drops by three unless cold, nothing is written |
| `Vectors.GianlucagResetGoesThroughFFFC` | cores/gianlucag_mos6502/mos6502.cpp:1543-1566 | a reset of gianlucag: PC is the word at $FFFC, the registers are the reset values, request and inhibit are cleared and the lines stay |
| `Gianlucag.Mos6502.Exec` | cores/gianlucag_mos6502/mos6502.cpp:1700-1706 | resolving the operand and then operating is one instruction of the reference, and table cycles + branched + (penalty and crossed) is its published cost |
| `Gianlucag.Mos6502.Addr` | cores/gianlucag_mos6502/mos6502.cpp:1385-1525 | every addressing mode yields the reference address, PC past the operand and `crossed` |
| `Gianlucag.Mos6502.AddrAbi` | cores/gianlucag_mos6502/mos6502.cpp:1432-1457 | indirect JMP with the page wrap |
| `Gianlucag.Mos6502.AddrAbsoluteIndexed` | cores/gianlucag_mos6502/mos6502.cpp:1471-1497 | absolute indexed: the sum mod 2^16 and `crossed` |
| `Gianlucag.Mos6502.AddrIny` | cores/gianlucag_mos6502/mos6502.cpp:1512-1525 | (indirect),Y with the pointer wrapping in the zero page |
| `Gianlucag.Mos6502.AddrRel` | cores/gianlucag_mos6502/mos6502.cpp:1419-1430 | branch target and whether it is on another page |
| `Gianlucag.Mos6502.Operate` | cores/gianlucag_mos6502/mos6502.cpp:1818-2433 | every documented operation is the reference one; a branch not taken clears `crossed`; RTI lifts the NMI inhibition |
| `Gianlucag.Mos6502.OpAdc` | cores/gianlucag_mos6502/mos6502.cpp:1823-1853 | ADC, binary and decimal |
| `Gianlucag.Mos6502.OpSbc` | cores/gianlucag_mos6502/mos6502.cpp:2315-2346 | SBC, binary and decimal |
| `Gianlucag.Mos6502.OpCompare` | cores/gianlucag_mos6502/mos6502.cpp:2040-2065 | comparison through a 32-bit unsigned difference |
| `Gianlucag.Mos6502.Alter` | cores/gianlucag_mos6502/mos6502.cpp:1868-1890 | the shifts and counters on widened values are those of the reference |
| `Gianlucag.Mos6502.OpJsr` | cores/gianlucag_mos6502/mos6502.cpp:2138-2150 | JSR reads its high operand byte again after pushing |
| `Gianlucag.Mos6502.OpBrk` | cores/gianlucag_mos6502/mos6502.cpp:1979-1988 | BRK is an entry from PC+1 with B set |
| `Gianlucag.Mos6502.OpRti` | cores/gianlucag_mos6502/mos6502.cpp:2288-2302 | RTI restores flags and PC and ends the NMI inhibition |
| `Gianlucag.Mos6502.Service` | cores/gianlucag_mos6502/mos6502.cpp:1582-1610 | interrupt service: three pushes with B clear, I set, vector |
| `Gianlucag.Mos6502.StackPush` | cores/gianlucag_mos6502/mos6502.cpp:1568-1573 | push with S wrapping in page one |
| `Gianlucag.Mos6502.StackPop` | cores/gianlucag_mos6502/mos6502.cpp:1575-1580 | pull with S wrapping in page one |
| `Gianlucag.Mos6502.CheckInterrupts` | cores/gianlucag_mos6502/mos6502.cpp:1612-1632 | NMI if requested and not inhibited, else an unmasked, uninhibited IRQ, else nothing; and what the latch becomes |
| `Gianlucag.Mos6502.Nmi` | cores/gianlucag_mos6502/mos6502.cpp:1532-1541 | a request is latched on a falling edge unless inhibited |
| `Gianlucag.Mos6502.Reset` | cores/gianlucag_mos6502/mos6502.cpp:1543-1566 | reset loads the reset values and vector and clears the latch |
| `Gianlucag.Mos6502.Pass` | cores/gianlucag_mos6502/mos6502.cpp:1641-1663 | one loop pass: check, fetch, execute, count; an undocumented opcode stops the machine |
| `Gianlucag.Mos6502.Run` | cores/gianlucag_mos6502/mos6502.cpp:1634-1673 | the whole loop, in both counting methods, is the iteration of that pass until the budget is spent or an undocumented opcode is met, with its exact cycle count |
| `Gianlucag.RunIsShortest` | cores/gianlucag_mos6502/mos6502.cpp:1634-1673 | the loop makes the fewest passes whose table cycles (or whose number, counting instructions) reach the budget, or stops after the first that meets an undocumented opcode; the count is exactly the cycles of those passes |
| `Gianlucag.Mos6502.constructor` | cores/gianlucag_mos6502/mos6502.cpp:32-41 | the constructor sets the reset values (0, 0, 0, $FD, no flags) and inactive lines, and leaves registers, memory and the illegal-opcode flag as found |
| `Gianlucag.EveryInstructionCosts` | cores/gianlucag_mos6502/mos6502.cpp:90-910 | no documented entry is cheaper than two cycles, so the cycle-counting loop ends |
| `NmiRuns.Drive` | cores/gianlucag_mos6502/mos6502.cpp:1527-1665 | fed any sequence of line movements, loop passes and resets, the core ends in exactly the state of that run, its latch goes through exactly the events the inputs spell out, request and inhibit stay exclusive, and its NMI entries never outnumber the falling edges fed to it (plus a request pending at the start) |
| `NmiRuns.EdgesFedAreConserved` | cores/gianlucag_mos6502/mos6502.cpp:1532-1632 | in every run of the core each falling edge fed to it is entered, pending, lost to a reset or ignored, exactly once |
| `NmiRuns.EntriesAreSeparated` | cores/gianlucag_mos6502/mos6502.cpp:1612-1632 | in every run of the core: between an NMI entry and the next entry, NMI or IRQ, the core has been reset or has executed an RTI |
| `NmiRuns.EdgeInHandlerIsLost` | cores/gianlucag_mos6502/mos6502.cpp:1532-1541 | an edge that comes while a handler runs is ignored; after the RTI nothing is pending and nothing is entered |
| `NmiRuns.LostEdge` | cores/gianlucag_mos6502/mos6502.cpp:1532-1541 | shown at an input: a memory full of RTI |
| `NmiRuns.CoreIsConsistent` | cores/gianlucag_mos6502/mos6502.cpp:1532-1548 | in every run of the core request and inhibit are never both set |
| `NmiRuns.RunIsEvents` | cores/gianlucag_mos6502/mos6502.cpp:1641-1663 | a run of the core takes its latch through one event per line movement and reset, and a look, then an RTI if one is executed, per pass |
| `NmiRuns.EntryIsEnter` | cores/gianlucag_mos6502/mos6502.cpp:1582-1632 | an entry of the run is the three-byte entry through the vector of its line |
| `NmiRuns.Feed` | cores/gianlucag_mos6502/mos6502.cpp:1527-1665 | one input takes the core to the state the run prescribes |
| `Stack.RingRefinesList` | cores/gianlucag_mos6502/mos6502.cpp:1568-1580 | for every push/pull history with at most 256 bytes outstanding, from every S, the ring in page one returns what a list would |
| `Stack.OneTooMany` | cores/gianlucag_mos6502/mos6502.cpp:1568-1573 | the 257th outstanding byte overwrites the oldest |
| `Stack.LevelIsRestored` | cores/gianlucag_mos6502/mos6502.cpp:2210-2234 | what a JSR, PHA, PHP or interrupt entry put away is given back by RTS, PLA, PLP or RTI (PC, S, A or NVDIZC), whatever well-nested history that spares the frames ran in between, including S wrapping |
| `Stack.NestingIsBalanced` | cores/gianlucag_mos6502/mos6502.cpp:2288-2313 | a well-nested history leaves S and every byte outstanding below it unchanged |
| `Stack.EntryPushesThree` | cores/o2/O2.cpp:178-238 | an interrupt entry pushes exactly three bytes, flags (B set only for BRK) over return address, sets I and changes no other byte |
| `StackRuns.OpeningIsJob` | cores/gianlucag_mos6502/mos6502.cpp:2138-2150 | JSR, PHA, PHP and BRK executed as instructions, and the services of NMI and IRQ, are the openings of the nesting |
| `StackRuns.ClosingIsInstruction` | cores/gianlucag_mos6502/mos6502.cpp:2222-2234 | RTS, PLA, PLP and RTI executed as instructions are the closings |
| `StackRuns.NestIsRestored` | cores/gianlucag_mos6502/mos6502.cpp:1582-2313 | in a run of instructions and interrupt entries: an opening (JSR, PHA, PHP, BRK, NMI, IRQ), a segment that spares its frame, and the matching closing give back PC, S and A or NVDIZC, as the kind has it |
| `StackRuns.SegmentIsBalanced` | cores/gianlucag_mos6502/mos6502.cpp:1582-2313 | every segment of such a run that decomposes into nests, with at most 256 bytes outstanding, leaves S and the bytes below unchanged |
| `StackRuns.SoftwareRun` | cores/gianlucag_mos6502/mos6502.cpp:1641-1663 | without interrupt entries such a run is a run of the instruction set |
| `Bcd.DecimalAddition` | cores/gianlucag_mos6502/mos6502.cpp:1823-1853 | n decimal ADC steps threading the carry give (x + y + c) mod 100^n with carry (x + y + c) div 100^n, for every n and all n-byte packed-BCD numbers |
| `Bcd.DecimalSubtraction` | cores/gianlucag_mos6502/mos6502.cpp:2315-2346 | n decimal SBC steps give the difference, the final carry telling exactly that no borrow was needed |
| `Bcd.SubtractionUndoesAddition` | cores/o2/O2.cpp:1014-1049 | SBC of what ADC added, carries inverted, restores every byte of the number, and the borrow is the lost carry |
| `Bcd.AddOneByte` | cores/o2/O2.cpp:686-708 | one decimal ADC of valid digits is addition of two-digit numbers |
| `Bcd.SubOneByte` | cores/o2/O2.cpp:1014-1042 | one decimal SBC of valid digits is subtraction of two-digit numbers |
| `Fake6502.Cpu.Exec6502` | cores/fake6502/fake6502.h:1030-1053 | for every budget g up to 2^32 - 8 the loop ends with g <= t <= g + 7 after exactly the shortest run of single steps whose costs reach g, in the state of that run (for g = 0, at once) |
| `Fake6502.SafeBudgets` | cores/fake6502/fake6502.h:1030-1053 | budgets up to 2^32 - 8 end on every machine; beyond, every machine that runs SLO (zp,X) as the core does loops for ever on one concrete memory, the counter wrapping past the goal; so the loop always ends if and only if the budget is at most 2^32 - 8 |
| `Fake6502.LoopForEver` | cores/fake6502/fake6502.h:373-377 | with 0x03 in every even place, 0x00 in every odd one and X zero, SLO ($00,X) runs for ever at eight ticks |
| `Fake6502.Cpu.Step6502` | cores/fake6502/fake6502.h:1055-1073 | one step costs exactly its net cost, from two to eight ticks |
| `Fake6502.Cpu.Instruction` | cores/fake6502/fake6502.h:1041-1048 | the counter advances by the net cost mod 2^32 even though handlers take a tick back first |
| `Fake6502.Cpu.Operate` | cores/fake6502/fake6502.h:883-930 | after any handler, the counter plus the penalty still due is the start plus branch ticks plus the penalty finally charged |
| `Fake6502.Cpu.Combine` | cores/fake6502/fake6502.h:895-929 | the undocumented pairs set the penalty flag and take the tick back on the unsigned counter |
| `Fake6502.CostBounds` | cores/fake6502/fake6502.h:983-1001 | every opcode, documented or not, costs from two to eight ticks net |
| `Fake6502.EveryOpcodeIsPriced` | cores/fake6502/fake6502.h:942-1001 | bounds on all 256 table entries |
| `Fake6502.TablesAgree` | cores/fake6502/fake6502.h:942-1001 | on the 151 documented opcodes the tables name the operation, mode, base cost and crossing penalty of the other two cores |
| `Fake6502.DocumentedCost` | cores/fake6502/fake6502.h:1030-1053 | so the net cost of a documented instruction is the published one |
| `Fake6502Neighbours.UndocumentedIsLike` | cores/fake6502/fake6502.h:942-1001 | each of the 105 undocumented opcodes has the addressing mode, base cost and crossing penalty of a documented neighbour (a read-modify-write pair two ticks more than STA), and its handler does the two operations of its row, or SBC, or nothing |
| `Fake6502Neighbours.UndocumentedOpcodes` | cores/fake6502/fake6502.h:963-981 | which opcodes these are |
| `Fake6502Neighbours.DoesBoth` | cores/fake6502/fake6502.h:883-930 | a combined handler does its two operations one after the other on the whole state |
| `FddCpc.InsertDsk` | cores/flooh_chips/chips/fdd_cpc.h:172-205 | an image is accepted, rejected, asserted on, or undefined exactly as the record checks say; an accepted one is in the drive byte for byte with every track and sector where the layout puts it; a rejected one leaves the drive empty |
| `FddCpc.ParseDsk` | cores/flooh_chips/chips/fdd_cpc.h:92-170 | the parser fills the disc structure with the layout |
| `FddCpc.ParseTrack` | cores/flooh_chips/chips/fdd_cpc.h:114-159 | one track: outcome and structure |
| `FddCpc.ParseSectors` | cores/flooh_chips/chips/fdd_cpc.h:135-157 | the sectors of a track start where the one before ends |
| `DskBuilder.InsertBuilt` | cores/flooh_chips/chips/fdd_cpc.h:172-205 | any image built from the format, standard or extended, is accepted exactly if it has at most two sides, eighty tracks a side and twelve sectors a track and more than 256 but at most 983040 bytes; the drive then holds on every side and track the sectors built in, with C, H, R, N, ST1, ST2, size and bytes |
| `DskBuilder.ReadBuilt` | cores/flooh_chips/chips/fdd.h:240-295 | seeking side, track and record number on it and reading to the end returns the bytes of the first such sector built in, or reports that there is none |
| `DskBuilder.BuiltIsAccepted` | cores/flooh_chips/chips/fdd_cpc.h:92-170 | the outcome of parsing a built image |
| `DskBuilder.SectorIsBuilt` | cores/flooh_chips/chips/fdd_cpc.h:135-157 | the entry parsed for a sector of a built track, and that its bytes are where it says |
| `DskBuilder.OthersAreRejected` | cores/flooh_chips/chips/fdd_cpc.h:119-205 | what does not begin with one of the two magic strings, or is too short or too long, is rejected, and so is a formatted track that does not begin with its own or leaves the image |
| `FddCpc.SectorsAreDisjoint` | cores/flooh_chips/chips/fdd_cpc.h:106-168 | any two different sectors of an accepted image share no byte |
| `FddCpc.SectorsInsideTrack` | cores/flooh_chips/chips/fdd_cpc.h:124-159 | the sectors of an accepted track lie inside it, after its information block, inside the image |
| `FddCpc.PlacesAreApart` | cores/flooh_chips/chips/fdd_cpc.h:106-168 | so any two different sectors of the disc in the drive share no byte |
| `FddCpc.Rewrite` | cores/flooh_chips/chips/fdd.h:251-315 | the same on a disc read from an accepted image, where no other sector of the disc changes |
| `Fdd.Drive.RoundTrip` | cores/flooh_chips/chips/fdd.h:240-315 | seek, write, seek, read: the sector holds the bytes and they come back, both transfers report SUCCESS and on the last byte END_OF_SECTOR, and every sector apart from this one is unchanged |
| `Fdd.Drive.WriteAll` | cores/flooh_chips/chips/fdd.h:297-315 | every byte reports SUCCESS but the last, which reports END_OF_SECTOR, and nothing outside the sector changes |
| `Fdd.Drive.ReadAll` | cores/flooh_chips/chips/fdd.h:275-295 | the contents, with the same reports |
| `Fdd.Drive.SeekTrack` | cores/flooh_chips/chips/fdd.h:240-249 | seeking a track, negative numbers included: which outcome, the cursor, and that exactly an accepted negative number leaves the disc structure |
| `Fdd.Drive.SeekSector` | cores/flooh_chips/chips/fdd.h:251-273 | the first sector with the record number is found, and the outcomes for a drive not ready and a missing sector |
| `Fdd.Drive.Read` | cores/flooh_chips/chips/fdd.h:275-295 | one byte: outcome, value, cursor |
| `Fdd.Drive.Write` | cores/flooh_chips/chips/fdd.h:297-315 | one byte: outcome, buffer, cursor |
| `NoiseLfsr.StepIsBijective` | cores/flooh_chips/chips/ay38910.h:480-490 | the noise step is a bijection of the nonzero 17-bit values, with an explicit inverse |
| `NoiseLfsr.NoisePeriod` | cores/flooh_chips/chips/ay38910.h:480-490 | from the seed 1 the register is purely periodic with period exactly 2^17 - 1 and never zero |
| `NoiseLfsr.FullTurn` | cores/flooh_chips/chips/ay38910.h:480-490 | 2^17 steps from the seed are one step |
| `Ay38910.Play` | cores/flooh_chips/chips/ay38910.h:456-533 | any run of ticks, register writes and resets from power-on: the generators are in exactly the state the events give; floor(16 n / sample_period) samples after n ticks when the period is at least 16; the noise at its value after as many shifts as the events make; the envelope at the level described for as many steps as the events make since its shape was written |
| `Ay38910.SampleRateIsExact` | cores/flooh_chips/chips/ay38910.h:447-530 | the sample count is exact at all times if and only if sample_period is at least 16 |
| `Ay38910.TableIsDescription` | cores/flooh_chips/chips/ay38910.h:353-381 | the shape table read at min(k, 31) or k mod 32 is the continue/attack/alternate/hold description for every k |
| `Ay38910.EnvelopeGoesOn` | cores/flooh_chips/chips/ay38910.h:494-505 | one envelope step keeps the closed form |
| `Ay38910.EnvelopeClosedForm` | cores/flooh_chips/chips/ay38910.h:424-505 | k envelope steps after a shape write, for every k, the counter is at min(k, 31) for shapes that hold and k mod 32 for the others, and for k >= 1 the level is the described one |
| `Ay38910.Chip.Tick` | cores/flooh_chips/chips/ay38910.h:465-533 | one tick: every generator advances as described, the envelope steps and the noise shifts exactly when their counters run out on their divided clocks, and whether a sample is due |
| `Ay38910.Chip.TickNoiseChannel` | cores/flooh_chips/chips/ay38910.h:475-491 | the register is shifted every other time the counter runs out |
| `Ay38910.Chip.TickEnvelopeGenerator` | cores/flooh_chips/chips/ay38910.h:493-505 | the envelope steps when its counter runs out, and stays in closed form |
| `Ay38910.Chip.SetRegister` | cores/flooh_chips/chips/ay38910.h:637-646 | a register write: masked value, dependent periods, and a restarted envelope exactly for the shape register |
| `Ay38910.Chip.UpdateValues` | cores/flooh_chips/chips/ay38910.h:396-423 | periods of zero count as one, enable bits mean disabled |
| `Ay38910Tones.RunIsProgrammed` | cores/flooh_chips/chips/ay38910.h:396-463 | after any run of ticks, writes and resets: every register holds the bits it keeps of the byte last written to it, each tone has its own twelve-bit period (zero counting as one) from its register pair, and the set bits 0-2 and 3-5 of register 7 disable tone and noise of channels 0-2 |
| `Ay38910Tones.SquareWave` | cores/flooh_chips/chips/ay38910.h:467-475 | a tone flips each time `period` channel ticks are complete, for every number of ticks; a counter past a lowered period flips at the next |
| `Ay38910Tones.ToneOfRun` | cores/flooh_chips/chips/ay38910.h:465-475 | while nothing is written, n ticks of the chip tick every channel floor((tick mod 8 + n) / 8) times, so a tone flips every 8 periods |
| `Am40010Runs.Play` | cores/flooh_chips/chips/am40010.h:854-922 | any run of ticks, acknowledges, register writes, resets and debug switching: signals and picture, framebuffer included, are exactly those the inputs spell out; any two settings of the interrupt flip-flop are at least 32 HSYNC falling edges apart; intcnt at most 51; the beam on the raster; every framebuffer byte a palette index below 64; without debug switching nothing outside the 768 by 272 window is painted |
| `Am40010Runs.InterruptsAreApart` | cores/flooh_chips/chips/am40010.h:645-676 | for every pin stream, acknowledge pattern, register write and reset, two inputs that set the flip-flop have at least 32 HSYNC falling edges between them |
| `Am40010Runs.RiseIsSetting` | cores/flooh_chips/chips/am40010.h:854-922 | the flip-flop rises only at such an input |
| `Am40010Runs.RunIsSpaced` | cores/flooh_chips/chips/am40010.h:645-676 | over every run intcnt is at most 51 between ticks and the settings are 32 edges apart |
| `Am40010Runs.Feed` | cores/flooh_chips/chips/am40010.h:854-922 | one input takes the chip to the signals and the picture the run prescribes |
| `Am40010Runs.SpacingGoesOn` | cores/flooh_chips/chips/am40010.h:645-676 | one input keeps the spacing |
| `Am40010Runs.AnyTwoSettings` | cores/flooh_chips/chips/am40010.h:645-676 | settings i and j are at least 32 (j - i) edges apart |
| `Am40010Runs.HscountCounts` | cores/flooh_chips/chips/am40010.h:646-656 | hscount is the number of HSYNC falling edges since the last VSYNC rise or reset, and fits five bits if and only if there are fewer than 32 |
| `Am40010Runs.FiveBitsExceeded` | cores/flooh_chips/chips/am40010.h:646-656 | shown at an input: 32 HSYNC pulses without a VSYNC |
| `Am40010Runs.OnlyWindowIsPainted` | cores/flooh_chips/chips/am40010.h:833-850 | in a run without debug switching no framebuffer byte outside the window changes |
| `Am40010.GateArray.SyncIrq` | cores/flooh_chips/chips/am40010.h:645-697 | counters, flip-flop, mode and SYNC at one CCLK |
| `Am40010.GateArray.Tick` | cores/flooh_chips/chips/am40010.h:854-922 | one 4 MHz tick: sequencer, READY, interrupt output, acknowledge, IRQ reset, video latches, beam, and every byte of the framebuffer |
| `Am40010.GateArray.Cclk` | cores/flooh_chips/chips/am40010.h:887-894 | what happens once a microsecond: video latch, counters and SYNC, one beam step |
| `Am40010.GateArray.ClearInterrupts` | cores/flooh_chips/chips/am40010.h:901-912 | the IRQ-reset bit is one-shot; an acknowledge clears the flip-flop and bit 5 of the counter |
| `Am40010.BeamStaysOnRaster` | cores/flooh_chips/chips/am40010.h:558-627 | h_pos < 64 and v_pos < 312 for every sync sequence, and a visible beam is inside the window |
| `Am40010.GateArray.CrtTick` | cores/flooh_chips/chips/am40010.h:558-627 | one beam step: retraces, line and frame ends, visibility |
| `Am40010.GateArray.DecodeVideo` | cores/flooh_chips/chips/am40010.h:789-851 | the whole framebuffer after a call: in normal mode sixteen pixels at the beam inside the window, or nothing; in debug mode the sixteen pixels of the position with the signals, and the previous ones toggled back |
| `Am40010.GateArray.Visualize` | cores/flooh_chips/chips/am40010.h:791-832 | the debug picture byte by byte |
| `Am40010.GateArray.DecodeByte` | cores/flooh_chips/chips/am40010.h:716-787 | the eight pixels of a video byte in each mode are those of the documented bit masks |
| `Am40010.PensOfMode0` | cores/flooh_chips/chips/am40010.h:720-733 | the shifts of mode 0 gather the documented bits |
| `Am40010.PensOfMode1` | cores/flooh_chips/chips/am40010.h:735-755 | the shifts of modes 1 and 3 gather the documented bits |
| `Am40010.GateArray.Iorq` | cores/flooh_chips/chips/am40010.h:474-534 | which register a request writes, and that palette registers stay five bits wide |
| `Am40010Picture.AddressBits` | cores/flooh_chips/chips/am40010.h:699-714 | the sixteen bits of a video address are MA13, MA12, RA2-0, MA9-0 and CCLK, in that order |
| `Am40010Picture.SameAddress` | cores/flooh_chips/chips/am40010.h:699-714 | two pin states read the same address if and only if they agree in those sixteen bits |
| `Am40010Picture.EveryAddressIsRead` | cores/flooh_chips/chips/am40010.h:699-714 | every one of the 65536 addresses is read by some pins |
| `Am40010Picture.ColorOfPen` | cores/flooh_chips/chips/am40010.h:716-787 | the colour of each pixel in each mode is the ink whose number has the documented bits of the video byte, by arithmetic |
| `Am40010Picture.PictureAt` | cores/flooh_chips/chips/am40010.h:834-850 | byte x of line y changes exactly where the beam is at position x div 16 + 6 of line y + 32, inside positions 6-53 and lines 32-303: the pixel of the two video bytes, pure black (63) in SYNC, or the border |
| `IntelHex.ParseIntelHex` | asm_6502/programs/ihex_to_h_hex_converter.py:43-118 | the image: the byte of the last data record before end of file that covers an address, else 0x00 below the lowest data record, else 0xFF; or the line and kind of the first error |
| `IntelHex.CorruptionIsRejected` | asm_6502/programs/ihex_to_h_hex_converter.py:75-76 | replacing any byte of any record an accepted file is read from has the file rejected at that line |
| `IntelHex.ReplacedByteIsBad` | asm_6502/programs/ihex_to_h_hex_converter.py:64-76 | a good record with one byte replaced is bad, whichever byte it is |
| `IntelHex.StaysPut` | asm_6502/programs/ihex_to_h_hex_converter.py:92-95 | nothing after the end-of-file record matters |
| `IntelHex.NothingBelowLowest` | asm_6502/programs/ihex_to_h_hex_converter.py:114-116 | the zero fill overwrites no data |
| `IntelHex.WriteHarnessHex` | asm_6502/programs/ihex_to_h_hex_converter.py:127-146 | the printed text, in lines of 32 bytes |
| `IntelHex.PrintedReadsBack` | asm_6502/programs/ihex_to_h_hex_converter.py:127-146 | reading the printed tokens back recovers the image, of any length |
| `HexWriter.ReadWritten` | asm_6502/programs/ihex_to_h_hex_converter.py:43-118 | any file of written records (data, end of file, segment and linear bases, start addresses, blank lines) whose data fit 64K is accepted: the image holds data[i] at base + address + i, later records winning, the base being 16 or 65536 times the two-byte number, and the end-of-file address is returned; otherwise it is rejected at the first line that does not fit |
| `HexWriter.FailsExactly` | asm_6502/programs/ihex_to_h_hex_converter.py:54-112 | a line is an error exactly if it is not blank and is not a record of types 0 to 5, with its checksum, two data bytes for a base and its data inside 64K |
| `HexWriter.EncodedIsGood` | asm_6502/programs/ihex_to_h_hex_converter.py:64-76 | a written record passes the checks and says what was written |
| `HexWriter.GoodIsEncoded` | asm_6502/programs/ihex_to_h_hex_converter.py:64-76 | only written records pass the checks |
| `Carry.WhereCarriedOutIsExact` | cores/clk/Numeric/Carry.hpp:28-51 | `carried_out` is the carry or borrow out of bit b for all operands if and only if the width is at most 32 or b < 31: `IntT(1 << 31)` sign-extends into a wider type |
| `Carry.WhereCarriedInIsExact` | cores/clk/Numeric/Carry.hpp:53-62 | `carried_in` likewise |
| `Carry.CarriedOutIsCarry` | cores/clk/Numeric/Carry.hpp:28-51 | at such a bit, `carried_out` is the arithmetic carry or borrow out of the low b + 1 bits of lhs +- rhs +- carry |
| `Carry.CarriedInIsCarry` | cores/clk/Numeric/Carry.hpp:53-62 | at such a bit, `carried_in` is the carry or borrow into b |
| `Carry.BitPastTheTop` | cores/clk/Numeric/Carry.hpp:18-19 | the bit number equal to the width, which the concept admits, selects nothing: never a carry, always a borrow |
| `Carry.OverflowIsSigned` | cores/clk/Numeric/Carry.hpp:79-95 | the result has at most its top bit set, and that exactly when the signed result leaves the w-bit range |

## Left out

- Undocumented opcodes of O2 and gianlucag, and KIL: their decoding is stale or they do not terminate; both machines are modelled up to the first such opcode.
- O2.CPU.Step: not from a boundary at an undocumented opcode, where ISC, for one, never returns to FETCH.
- O2.CPU.Unraise: withdrawing a RESET is not modelled, since in the middle of a BRK it abandons the entry with bytes pushed.
- O2.CPU.Raise: RESET only at a boundary, because raised in mid-instruction it keeps the old cycle counter and skips the steps before it; `halt` is not modelled.
- O2.CPU.Cycle: the fetch of an undocumented opcode is excluded. Dummy reads are not modelled, since memory is plain RAM; the double write of a read-modify-write is. `tsc` does not wrap at 2^64, and `instruction_cycles`, which omits the last LOAD cycle, is not kept.
- Status bits 4 and 5: the cores keep them differently; only N, V, D, I, Z and C are compared, and the byte that is pushed is exact.
- Gianlucag.Mos6502.Run: the budget and the cycle counter are unbounded integers; the per-cycle callback and `RunEternally` are not modelled.
- Lockstep.TogetherInterrupted: schedules that ask for service while an NMI handler is running are excluded, because gianlucag inhibits it until RTI and O2 does not.
- O2's wall-clock `run` loops: threads and time.
- Fake6502.Cpu.Exec6502: what instructions do to registers and memory is a parameter of the machine, so the result holds for every such behaviour, and the failing budgets are shown on what the core does with one opcode; the external hook, which could change the counter, is not modelled.
- Fake6502 arithmetic: its decimal flags differ from the other cores, and nothing about its results is claimed.
- FddCpc.InsertDsk: more than twelve sectors a track, or a sector size code of 24 or more, is undefined in C and is an outcome of its own; reads past the end of the buffer yield zero in the model, which no accepted image depends on.
- `fdd_insert_disc` and its validation: a plain range check.
- Fdd.Drive.SeekSector, and reading and writing, after a negative track number was accepted: the code then reads outside the disc structure.
- Ay38910.Chip.Tick: mixing, volumes and the DC filter are floating point and are not modelled; nor are the port callbacks and register reads.
- Ay38910.Chip.constructor: the clock frequency times 16 fits a 32-bit int, as the code needs.
- Am40010.GateArray.Tick: the CRTC is a parameter; bank switching, colour tables and snapshots are not modelled. The sync counter does not overflow.
- Am40010.GateArray.constructor: the framebuffer is the caller's and keeps its contents in the source; here it starts with zeros.
- IntelHex.ParseIntelHex: the input is a list of lines already split into record bytes; reading the file, and the digits of a record, are not modelled.
- Carry.WhereCarriedOutIsExact: bit numbers of 32 and more are not constant expressions and cannot be instantiated.
- The other cores, the 65C02 variants, the interrupt and toolbox drivers: the same shape as what is here, or thin wrappers over code that is elsewhere.
