/** Stack discipline in programs: runs of instructions and interrupt entries in which
    calls, saves, BRK, NMI and IRQ nest, each with the instruction that undoes it. */
module StackRuns {
  import opened Words
  import opened Isa
  import opened Stack
  import O2
  import O2Runs

  /** One instruction further. */
  function Stepped(s: Arch): Arch
    requires Next(s).Legal?
  {
    Execute(Next(s).instr, s)
  }

  /** The state an instruction operates on: pc past the operand. */
  function Past(s: Arch): Arch
    requires Next(s).Legal?
  {
    s.(pc := Resolve(Next(s).instr.mode, Fetched(s)).pc)
  }

  /** An entry made for a line, not by a BRK. */
  predicate Hardware(kind: Kind) { kind.Interrupt? && !kind.brk }

  /** The job that opens a nest: an interrupt service, or an instruction. */
  function OpeningJob(kind: Kind): O2.Job {
    if Hardware(kind) then O2.Service(if kind.vector == NMI_VECTOR then O2.NMI else O2.IRQ) else O2.Instruction
  }

  /** That job can open this nest at s. */
  predicate OpensAt(kind: Kind, s: Arch) {
    if Hardware(kind) then kind.vector in {NMI_VECTOR, IRQ_VECTOR} else
    && Next(s).Legal?
    && var i := Next(s).instr;
       match kind
       case Subroutine(low) => i.op == JSR && low == Low(Resolve(i.mode, Fetched(s)).ea)
       case SaveA => i.op == PHA
       case SaveFlags => i.op == PHP
       case Interrupt(vector, _) => i.op == BRK && vector == IRQ_VECTOR
  }

  function ClosingOp(kind: Kind): Op {
    match kind case Subroutine(_) => RTS case SaveA => PLA case SaveFlags => PLP case Interrupt(_, _) => RTI
  }

  /** The instruction at s closes it. */
  predicate ClosesAt(kind: Kind, s: Arch) { Next(s).Legal? && Next(s).instr.op == ClosingOp(kind) }

  /** The state the opening puts away. BRK skips the byte after it; an interrupt comes
      between instructions. */
  function Site(kind: Kind, s: Arch): Arch
    requires OpensAt(kind, s)
  {
    if Hardware(kind) then s else if kind.Interrupt? then Fetched(Past(s)) else Past(s)
  }

  function Did(s: Arch, job: O2.Job): Arch { O2.Outcome(job, s, true) }

  /** JSR, PHA, PHP, BRK and the services of NMI and IRQ are the openings. */
  lemma OpeningIsJob(kind: Kind, s: Arch)
    requires OpensAt(kind, s)
    ensures kind.Interrupt? ==> kind.vector < 0xFFFF
    ensures Did(s, OpeningJob(kind)) == Opening(kind, Site(kind, s))
  {
    hide InstrTable, Resolve, CallTo, PushByte, PushWord, Pack, Trunc, Low;
  }

  /** RTS, PLA, PLP and RTI are the closings. */
  lemma ClosingIsInstruction(kind: Kind, s: Arch)
    requires ClosesAt(kind, s)
    ensures Did(s, O2.Instruction) == Stepped(s) == Closing(kind, Past(s))
  {
    hide InstrTable, Resolve, PullPc, PullFlags, LoadA, Drop, Top, Low;
  }

  // ---------------------------------------------------------------- runs of jobs

  function Ran(s: Arch, jobs: seq<O2.Job>): Arch { O2Runs.Replay(s, false, jobs) }

  lemma {:induction false} RanAdd(s: Arch, a: seq<O2.Job>, b: seq<O2.Job>)
    ensures Ran(s, a + b) == Ran(Ran(s, a), b)
    decreases |b|
  {
    hide O2.Outcome;
    if b == [] {
      assert a + b == a;
    } else {
      RanAdd(s, a, b[..|b| - 1]);
      assert (a + b)[..|a + b| - 1] == a + b[..|b| - 1];
    }
  }

  lemma RanOne(s: Arch, job: O2.Job)
    ensures Ran(s, [job]) == Did(s, job) && Ran(s, []) == s
  {
    hide O2.Outcome;
    var jobs := [job];
    assert |jobs| == 1 && jobs[..0] == [];
    assert O2Runs.Replay(s, false, jobs) == O2.Outcome(jobs[0], O2Runs.Replay(s, false, jobs[..0]), true);
  }

  // ---------------------------------------------------------------- segments

  /** The shape of a segment: instructions, and nested pairs around segments. */
  datatype Code = Done | Step(rest: Code) | Nest(kind: Kind, body: Code, rest: Code)

  function JobsOf(c: Code): seq<O2.Job> {
    match c
    case Done => []
    case Step(rest) => [O2.Instruction] + JobsOf(rest)
    case Nest(kind, body, rest) => [OpeningJob(kind)] + JobsOf(body) + [O2.Instruction] + JobsOf(rest)
  }

  /** The run from s has that shape. */
  predicate Follows(s: Arch, c: Code)
    decreases c
  {
    match c
    case Done => true
    case Step(rest) => Next(s).Legal? && Follows(Stepped(s), rest)
    case Nest(kind, body, rest) =>
      && OpensAt(kind, s) && Follows(Did(s, OpeningJob(kind)), body)
      && var e := Ran(Did(s, OpeningJob(kind)), JobsOf(body));
         ClosesAt(kind, e) && Follows(Stepped(e), rest)
  }

  /** The plain instructions leave S and the outstanding bytes alone, and no more than
      256 bytes are outstanding at once. */
  predicate Spares(s: Arch, c: Code, bytes: seq<byte>)
    requires Follows(s, c)
    decreases c
  {
    match c
    case Done => true
    case Step(rest) => Stepped(s).s == s.s && Holds(Stepped(s), bytes) && Spares(Stepped(s), rest, bytes)
    case Nest(kind, body, rest) =>
      var inside := Did(s, OpeningJob(kind));
      && |Frame(kind, Site(kind, s))| + |bytes| <= CAPACITY
      && Spares(inside, body, Frame(kind, Site(kind, s)) + bytes)
      && Spares(Stepped(Ran(inside, JobsOf(body))), rest, bytes)
  }

  /** The run of a nest: opening, body, closing, rest. */
  lemma RanNest(s: Arch, kind: Kind, body: Code, rest: seq<O2.Job>)
    ensures Ran(s, [OpeningJob(kind)] + JobsOf(body) + [O2.Instruction] + rest)
         == Ran(Did(Ran(Did(s, OpeningJob(kind)), JobsOf(body)), O2.Instruction), rest)
  {
    hide Ran, Did;
    var open, jobs, close := [OpeningJob(kind)], JobsOf(body), [O2.Instruction];
    RanAdd(s, open + jobs + close, rest);
    RanAdd(s, open + jobs, close);
    RanAdd(s, open, jobs);
    RanOne(s, OpeningJob(kind));
    RanOne(Ran(s, open + jobs), O2.Instruction);
  }

  lemma RanStep(s: Arch, rest: seq<O2.Job>)
    requires Next(s).Legal?
    ensures Ran(s, [O2.Instruction] + rest) == Ran(Stepped(s), rest)
  {
    hide Ran, Execute, InstrTable;
    RanAdd(s, [O2.Instruction], rest);
    RanOne(s, O2.Instruction);
  }

  /** A segment leaves S and the outstanding bytes as they were. */
  lemma {:induction false} SegmentIsBalanced(s: Arch, c: Code, bytes: seq<byte>)
    requires Follows(s, c) && Holds(s, bytes) && Spares(s, c, bytes)
    ensures Holds(Ran(s, JobsOf(c)), bytes) && Ran(s, JobsOf(c)).s == s.s
    decreases c, 0
  {
    hide InstrTable, Holds, Stepped, OpensAt, ClosesAt, Frame, Site, Ran, Did, OpeningJob;
    match c
    case Done => RanOne(s, O2.Instruction);
    case Step(rest) =>
      SegmentIsBalanced(Stepped(s), rest, bytes);
      RanStep(s, JobsOf(rest));
    case Nest(kind, body, rest) =>
      NestIsRestored(kind, s, body, bytes);
      var e := Ran(Did(s, OpeningJob(kind)), JobsOf(body));
      ClosingIsLegal(kind, e);
      ClosingIsInstruction(kind, e);
      SegmentIsBalanced(Stepped(e), rest, bytes);
      RanNest(s, kind, body, JobsOf(rest));
  }

  /** In a run: a JSR, PHA, PHP, BRK, NMI or IRQ, a segment that spares its frame, and
      the RTS, PLA, PLP or RTI that ends it give back PC, S, A or the flags, as the
      kind has it. */
  lemma {:induction false} NestIsRestored(kind: Kind, s: Arch, body: Code, bytes: seq<byte>)
    requires OpensAt(kind, s) && Follows(Did(s, OpeningJob(kind)), body)
    requires ClosesAt(kind, Ran(Did(s, OpeningJob(kind)), JobsOf(body)))
    requires Holds(s, bytes) && |Frame(kind, Site(kind, s))| + |bytes| <= CAPACITY
    requires Spares(Did(s, OpeningJob(kind)), body, Frame(kind, Site(kind, s)) + bytes)
    ensures var t := Ran(s, [OpeningJob(kind)] + JobsOf(body) + [O2.Instruction]);
            && t == Did(Ran(Did(s, OpeningJob(kind)), JobsOf(body)), O2.Instruction)
            && Restored(kind, Site(kind, s), t) && Holds(t, bytes) && t.s == s.s
    decreases body, 1
  {
    hide InstrTable, Holds, Opening, Closing, Stepped, Resolve, Ran, Did, OpeningJob, Spares, Follows;
    var site := Site(kind, s);
    var frame := Frame(kind, site);
    SameStack(s, site, bytes);
    OpeningIsJob(kind, s);
    OpeningHolds(kind, site, bytes);
    var inside := Did(s, OpeningJob(kind));
    SegmentIsBalanced(inside, body, frame + bytes);
    var e := Ran(inside, JobsOf(body));
    SameStack(e, Past(e), frame + bytes);
    ClosingIsInstruction(kind, e);
    ClosingRestores(kind, site, Past(e), bytes);
    RanNest(s, kind, body, []);
    RanOne(Did(e, O2.Instruction), O2.Instruction);
    var nest := [OpeningJob(kind)] + JobsOf(body) + [O2.Instruction];
    assert nest + [] == nest;
  }

  lemma ClosingIsLegal(kind: Kind, s: Arch)
    ensures ClosesAt(kind, s) ==> Next(s).Legal?
  {
  }

  // ---------------------------------------------------------------- instructions only

  predicate Software(c: Code) {
    match c
    case Done => true
    case Step(rest) => Software(rest)
    case Nest(kind, body, rest) => !Hardware(kind) && Software(body) && Software(rest)
  }

  lemma {:induction false} RunAdd(s: Arch, m: nat, n: nat)
    requires DocumentedRun(s, m)
    ensures Run(s, m + n) == Run(Run(s, m), n)
    ensures DocumentedRun(s, m + n) == DocumentedRun(Run(s, m), n)
    decreases m
  {
    hide InstrTable, Execute;
    if m > 0 { RunAdd(Stepped(s), m - 1, n); }
  }

  lemma OneStep(s: Arch, n: nat)
    requires Next(s).Legal?
    ensures Run(s, 1 + n) == Run(Stepped(s), n) && DocumentedRun(s, 1 + n) == DocumentedRun(Stepped(s), n)
  {
    hide InstrTable, Execute;
  }

  /** Without hardware entries such a run is one of the instruction set. */
  lemma {:induction false} SoftwareRun(s: Arch, c: Code)
    requires Follows(s, c) && Software(c)
    ensures DocumentedRun(s, |JobsOf(c)|) && Run(s, |JobsOf(c)|) == Ran(s, JobsOf(c))
    decreases c
  {
    hide InstrTable, Stepped, OpensAt, ClosesAt, Run, DocumentedRun, Ran, Did;
    match c
    case Done =>
      NoSteps(s);
      RanOne(s, O2.Instruction);
    case Step(rest) =>
      SoftwareRun(Stepped(s), rest);
      OneStep(s, |JobsOf(rest)|);
      RanStep(s, JobsOf(rest));
    case Nest(kind, body, rest) =>
      SoftwareOpens(kind, s);
      SoftwareRun(Stepped(s), body);
      var e := Run(Stepped(s), |JobsOf(body)|);
      ClosingIsLegal(kind, e);
      ClosingIsInstruction(kind, e);
      SoftwareRun(Stepped(e), rest);
      OneStep(s, |JobsOf(body)| + (1 + |JobsOf(rest)|));
      RunAdd(Stepped(s), |JobsOf(body)|, 1 + |JobsOf(rest)|);
      OneStep(e, |JobsOf(rest)|);
      RanNest(s, kind, body, JobsOf(rest));
  }

  lemma SoftwareOpens(kind: Kind, s: Arch)
    requires OpensAt(kind, s) && !Hardware(kind)
    ensures Next(s).Legal? && OpeningJob(kind) == O2.Instruction && Did(s, O2.Instruction) == Stepped(s)
  {
    hide InstrTable, Execute;
  }

  lemma NoSteps(s: Arch)
    ensures Run(s, 0) == s && DocumentedRun(s, 0)
  {
  }
}
