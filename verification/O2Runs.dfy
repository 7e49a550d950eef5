/** Whole runs of the cycle-stepped core: whatever the order in which cycles and
    requests arrive, it is a sequencer that carries out one whole job after another. */
module O2Runs {
  import opened Words
  import opened Isa
  import opened O2

  datatype Event = Tick | Raised(line: InterruptFlag) | Unraised(line: InterruptFlag)

  // ---------------------------------------------------------------- the sequencer

  /** Between jobs, or in one that takes so many more cycles. */
  datatype Busy = Idle | Doing(job: Job, left: int)

  /** The state the last boundary left, the job under way, the requests, whether a
      reset would be a warm one, and the clock. */
  datatype Sequencer = Sequencer(state: Arch, busy: Busy, rnmi: bool, rirq: bool, warm: bool, tsc: int)

  /** At a boundary a pending NMI comes first, then an unmasked IRQ, then the next
      instruction. */
  function NextJob(q: Sequencer): Job {
    if q.rnmi then Service(NMI) else if q.rirq && !q.state.f.i then Service(IRQ) else Instruction
  }

  function JobOf(q: Sequencer): Job { if q.busy.Idle? then NextJob(q) else q.busy.job }

  function LeftOf(q: Sequencer): int { if q.busy.Idle? then Duration(NextJob(q), q.state) else q.busy.left }

  /** The next opcode is an undocumented one. */
  predicate Stuck(q: Sequencer) { q.busy.Idle? && NextJob(q) == Instruction && Next(q.state).Illegal? }

  /** One cycle: the job has one cycle less to go, or is done, and has acknowledged
      the request whose vector it used. */
  function Ticked(q: Sequencer): Sequencer {
    if Stuck(q) then q else
    var job, left := JobOf(q), LeftOf(q);
    if left > 1 then q.(busy := Doing(job, left - 1), tsc := q.tsc + 1)
    else Sequencer(Outcome(job, q.state, q.warm), Idle, q.rnmi && !Acknowledges(job, q.state, NMI),
                   q.rirq && !Acknowledges(job, q.state, IRQ), q.warm, q.tsc + 1)
  }

  /** A reset is raised between jobs only. */
  function After(q: Sequencer, e: Event): Sequencer {
    match e
    case Tick => Ticked(q)
    case Raised(line) =>
      (match line
       case NMI => q.(rnmi := true)
       case IRQ => q.(rirq := true)
       case INONE => q.(rnmi := false, rirq := false)
       case RESET => if q.busy.Idle? then q.(busy := Doing(Service(RESET), 7), warm := true) else q)
    case Unraised(line) =>
      (match line
       case NMI => q.(rnmi := false)
       case IRQ => q.(rirq := false)
       case _ => q)
  }

  function Run(q: Sequencer, events: seq<Event>): Sequencer
    decreases |events|
  {
    if events == [] then q else After(Run(q, events[..|events| - 1]), events[|events| - 1])
  }

  /** The job an event finishes, if it does. */
  function Finished(q: Sequencer, e: Event): seq<Job> {
    if e == Tick && !Stuck(q) && LeftOf(q) <= 1 then [JobOf(q)] else []
  }

  /** The jobs a run finishes. */
  function Jobs(q: Sequencer, events: seq<Event>): seq<Job>
    decreases |events|
  {
    if events == [] then [] else
    var before := events[..|events| - 1];
    Jobs(q, before) + Finished(Run(q, before), events[|events| - 1])
  }

  /** A job under way has cycles left, and no more than it takes. */
  predicate Sound(q: Sequencer) {
    q.busy.Doing? ==> 0 < q.busy.left <= Duration(q.busy.job, q.state)
  }

  lemma RunOfPrefix(q: Sequencer, events: seq<Event>, k: nat)
    requires k < |events|
    ensures Run(q, events[..k + 1]) == After(Run(q, events[..k]), events[k])
    ensures Jobs(q, events[..k + 1]) == Jobs(q, events[..k]) + Finished(Run(q, events[..k]), events[k])
  {
    hide After, Finished;
    assert events[..k + 1][..k] == events[..k];
  }

  lemma {:induction false} RunAdd(q: Sequencer, a: seq<Event>, b: seq<Event>)
    ensures Run(q, a + b) == Run(Run(q, a), b)
    ensures Jobs(q, a + b) == Jobs(q, a) + Jobs(Run(q, a), b)
    decreases |b|
  {
    hide After, Finished;
    if b == [] {
      assert a + b == a;
    } else {
      var c := b[..|b| - 1];
      RunAdd(q, a, c);
      assert (a + b)[..|a + b| - 1] == a + c;
    }
  }

  // ---------------------------------------------------------------- jobs and time

  /** The boundary state after a sequence of jobs; `cold` says the first is the
      power-on reset. */
  function Replay(s: Arch, cold: bool, jobs: seq<Job>): Arch
    decreases |jobs|
  {
    if jobs == [] then s else
    Outcome(jobs[|jobs| - 1], Replay(s, cold, jobs[..|jobs| - 1]), !(cold && |jobs| == 1))
  }

  function Time(s: Arch, cold: bool, jobs: seq<Job>): nat
    decreases |jobs|
  {
    if jobs == [] then 0 else
    var before := jobs[..|jobs| - 1];
    Time(s, cold, before) + Duration(jobs[|jobs| - 1], Replay(s, cold, before))
  }

  /** Cycles already spent on the job under way. */
  function Spent(q: Sequencer): int {
    if q.busy.Idle? then 0 else Duration(q.busy.job, q.state) - q.busy.left
  }

  predicate Cold(q: Sequencer) { q.busy.Doing? && !q.warm }

  lemma OneMoreJob(s: Arch, cold: bool, jobs: seq<Job>, job: Job)
    ensures Replay(s, cold, jobs + [job]) == Outcome(job, Replay(s, cold, jobs), !(cold && jobs == []))
    ensures Time(s, cold, jobs + [job]) == Time(s, cold, jobs) + Duration(job, Replay(s, cold, jobs))
  {
    hide Outcome, Duration;
    assert (jobs + [job])[..|jobs|] == jobs;
  }

  /** One event keeps the job under way sound, finishes it with its whole outcome
      after its whole duration, and counts itself. */
  lemma OneEvent(q: Sequencer, e: Event)
    requires Sound(q)
    ensures var r, done := After(q, e), Finished(q, e);
            && Sound(r)
            && (done == [] ==> r.state == q.state && r.tsc - Spent(r) == q.tsc - Spent(q))
            && (done != [] ==>
                  && done == [JobOf(q)] && r.state == Outcome(JobOf(q), q.state, q.warm)
                  && r.tsc == q.tsc - Spent(q) + Duration(JobOf(q), q.state) && r.busy.Idle?)
  {
    hide Outcome, Acknowledges, InstrTable;
    if NextJob(q) == Instruction && Next(q.state).Legal? { InstructionTakesTime(q.state); }
  }

  lemma InstructionTakesTime(s: Arch)
    requires Next(s).Legal?
    ensures Duration(Instruction, s) >= 2
  {
    hide InstrTable, Resolve, Taken;
    TableIsRegular(s.ram[s.pc]);
  }

  /** A reset under way is a warm one unless it is the one the run began in. */
  predicate WarmAsReplayed(q: Sequencer, r: Sequencer, jobs: seq<Job>) {
    && (jobs == [] && q.busy.Doing? ==> r.busy.Doing? && r.busy.job == q.busy.job && r.warm == q.warm)
    && (r.busy.Doing? && r.busy.job == Service(RESET) ==> r.warm == !(Cold(q) && jobs == []))
  }

  lemma WarmGoesOn(q: Sequencer, r: Sequencer, jobs: seq<Job>, e: Event)
    requires Sound(r) && WarmAsReplayed(q, r, jobs)
    ensures WarmAsReplayed(q, After(r, e), jobs + Finished(r, e))
    ensures Finished(r, e) != [] ==>
      Outcome(JobOf(r), r.state, r.warm) == Outcome(JobOf(r), r.state, !(Cold(q) && jobs == []))
  {
    hide Duration, Acknowledges, Next, Enter, ResetTo, Execute;
  }

  /** A run is the replay of the jobs it finishes; its clock is their total duration
      and what has been spent on the one under way. */
  lemma {:induction false} RunReplays(q: Sequencer, events: seq<Event>)
    requires Sound(q)
    ensures var r, jobs := Run(q, events), Jobs(q, events);
            && Sound(r) && WarmAsReplayed(q, r, jobs)
            && r.state == Replay(q.state, Cold(q), jobs)
            && r.tsc == q.tsc - Spent(q) + Time(q.state, Cold(q), jobs) + Spent(r)
    decreases |events|
  {
    hide After, Finished, Outcome, Duration, Sound, WarmAsReplayed, Cold, Spent, JobOf;
    if events == [] {
      WarmAtStart(q);
    } else {
      var before, e := events[..|events| - 1], events[|events| - 1];
      RunReplays(q, before);
      var r, jobs := Run(q, before), Jobs(q, before);
      OneEvent(r, e);
      WarmGoesOn(q, r, jobs, e);
      if Finished(r, e) != [] {
        OneMoreJob(q.state, Cold(q), jobs, JobOf(r));
        IdleSpends(After(r, e));
      } else {
        assert jobs + [] == jobs;
      }
    }
  }

  lemma WarmAtStart(q: Sequencer)
    ensures WarmAsReplayed(q, q, [])
  {
  }

  lemma IdleSpends(q: Sequencer)
    requires q.busy.Idle?
    ensures Spent(q) == 0
  {
  }

  // ---------------------------------------------------------------- what starts when

  /** An IRQ may start a job only where I is clear, and an instruction only where
      it is documented. */
  predicate MayStart(job: Job, s: Arch) {
    && (job == Service(IRQ) ==> !s.f.i)
    && (job == Instruction ==> Next(s).Legal?)
  }

  /** The first job that a run from q starts itself. */
  function First(q: Sequencer): nat { if q.busy.Idle? then 0 else 1 }

  lemma NextMayStart(q: Sequencer)
    requires q.busy.Idle? && !Stuck(q)
    ensures MayStart(NextJob(q), q.state)
  {
  }

  /** Job k, and one under way, were started legitimately. */
  predicate StartedRight(q: Sequencer, r: Sequencer, jobs: seq<Job>, k: nat) {
    && (First(q) <= k < |jobs| ==> MayStart(jobs[k], Replay(q.state, Cold(q), jobs[..k])))
    && (r.busy.Doing? && |jobs| >= First(q) ==> MayStart(r.busy.job, r.state))
  }

  lemma StartsGoOn(q: Sequencer, r: Sequencer, jobs: seq<Job>, e: Event, k: nat)
    requires StartedRight(q, r, jobs, k) && r.state == Replay(q.state, Cold(q), jobs)
    requires |jobs| < First(q) ==> r.busy.Doing?
    ensures StartedRight(q, After(r, e), jobs + Finished(r, e), k)
  {
    hide After, Finished, MayStart, Cold, Replay, Stuck, NextJob;
    StartOrFinish(r, e);
    if r.busy.Idle? && !Stuck(r) { NextMayStart(r); }
    ResetMayStart(r.state);
    var all := jobs + Finished(r, e);
    assert all[..|jobs|] == jobs;
    assert k < |jobs| ==> all[..k] == jobs[..k];
  }

  /** A job that an event finishes was under way or the next; one it leaves under way
      was so before, or has just been chosen, or is a reset. */
  lemma StartOrFinish(r: Sequencer, e: Event)
    ensures var t, done := After(r, e), Finished(r, e);
            && (done == [] || (done == [JobOf(r)] && t.busy.Idle? && !Stuck(r)))
            && (t.busy.Doing? ==>
                  && done == [] && t.state == r.state
                  && if r.busy.Doing? then t.busy.job == r.busy.job
                     else t.busy.job == Service(RESET) || (t.busy.job == NextJob(r) && !Stuck(r)))
  {
    hide Outcome, Duration, Acknowledges, Stuck, NextJob;
  }

  lemma {:induction false} JobsMayStart(q: Sequencer, events: seq<Event>, k: nat)
    requires Sound(q)
    ensures StartedRight(q, Run(q, events), Jobs(q, events), k)
    decreases |events|
  {
    hide After, Finished, MayStart, Sound, Cold;
    if events != [] {
      var before := events[..|events| - 1];
      JobsMayStart(q, before, k);
      RunReplays(q, before);
      StartedFirst(q, before);
      StartsGoOn(q, Run(q, before), Jobs(q, before), events[|events| - 1], k);
    }
  }

  lemma ResetMayStart(s: Arch)
    ensures MayStart(Service(RESET), s)
  {
  }

  /** Until the job a run began in is done it is still under way. */
  lemma StartedFirst(q: Sequencer, events: seq<Event>)
    requires Sound(q)
    ensures |Jobs(q, events)| < First(q) ==> Run(q, events).busy.Doing?
  {
    hide Run, Jobs;
    RunReplays(q, events);
  }

  // ---------------------------------------------------------------- requests

  function Occurrences(jobs: seq<Job>, job: Job): nat {
    if jobs == [] then 0 else
    Occurrences(jobs[..|jobs| - 1], job) + if jobs[|jobs| - 1] == job then 1 else 0
  }

  function Raises(events: seq<Event>, line: InterruptFlag): nat {
    if events == [] then 0 else
    Raises(events[..|events| - 1], line) + if events[|events| - 1] == Raised(line) then 1 else 0
  }

  predicate Requested(q: Sequencer, line: InterruptFlag) { (line == NMI && q.rnmi) || (line == IRQ && q.rirq) }

  /** A request whose service has begun, or one still pending. */
  function Credit(q: Sequencer, line: InterruptFlag): nat {
    if q.busy == Doing(Service(line), LeftOf(q)) then 1 else Bit(Requested(q, line))
  }

  lemma OneEventSpends(q: Sequencer, e: Event, line: InterruptFlag)
    requires line in {NMI, IRQ}
    ensures Occurrences(Finished(q, e), Service(line)) + Credit(After(q, e), line)
         <= Credit(q, line) + if e == Raised(line) then 1 else 0
  {
    hide Outcome, Duration, InstrTable;
  }

  lemma {:induction false} OccurrencesAdd(a: seq<Job>, b: seq<Job>, job: Job)
    ensures Occurrences(a + b, job) == Occurrences(a, job) + Occurrences(b, job)
  {
    if b == [] {
      assert a + b == a;
    } else {
      OccurrencesAdd(a, b[..|b| - 1], job);
      assert (a + b)[..|a + b| - 1] == a + b[..|b| - 1];
    }
  }

  /** NMI entries never outnumber NMI requests, nor IRQ entries IRQ requests. */
  lemma {:induction false} EntriesNeedRequests(q: Sequencer, events: seq<Event>, line: InterruptFlag)
    requires line in {NMI, IRQ}
    ensures Occurrences(Jobs(q, events), Service(line)) + Credit(Run(q, events), line)
         <= Credit(q, line) + Raises(events, line)
    decreases |events|
  {
    hide After, Finished, Credit;
    if events != [] {
      var before, e := events[..|events| - 1], events[|events| - 1];
      EntriesNeedRequests(q, before, line);
      OneEventSpends(Run(q, before), e, line);
      OccurrencesAdd(Jobs(q, before), Finished(Run(q, before), e), Service(line));
    }
  }

  // ---------------------------------------------------------------- NMI

  /** The event takes an NMI request back, or puts a reset before it. */
  predicate Preempts(e: Event) { e in {Unraised(NMI), Raised(INONE), Raised(RESET)} }

  /** An NMI is pending and will be, or is, or was the job after the one under way. */
  predicate NmiAhead(q: Sequencer, r: Sequencer, jobs: seq<Job>) {
    && (|jobs| <= First(q) ==> r.rnmi)
    && (|jobs| < First(q) ==> r.busy.Doing? && r.busy.job == q.busy.job)
    && (|jobs| > 0 && q.busy.Doing? ==> jobs[0] == q.busy.job)
    && (|jobs| == First(q) && r.busy.Doing? ==> r.busy.job == Service(NMI))
    && (|jobs| > First(q) ==> jobs[First(q)] == Service(NMI))
  }

  lemma NmiStaysAhead(q: Sequencer, r: Sequencer, jobs: seq<Job>, e: Event)
    requires NmiAhead(q, r, jobs) && !Preempts(e)
    requires q.busy.Doing? ==> q.busy.job != Service(NMI)
    ensures NmiAhead(q, After(r, e), jobs + Finished(r, e))
  {
    hide Outcome, Duration, InstrTable;
  }

  lemma {:induction false} NmiIsNext(q: Sequencer, events: seq<Event>)
    requires q.rnmi && (q.busy.Doing? ==> q.busy.job != Service(NMI))
    requires forall e :: e in events ==> !Preempts(e)
    ensures NmiAhead(q, Run(q, events), Jobs(q, events))
    decreases |events|
  {
    hide After, Finished, NmiAhead, Preempts;
    if events == [] {
      NmiAtStart(q);
    } else {
      var before, e := events[..|events| - 1], events[|events| - 1];
      assert e in events;
      NmiIsNext(q, before);
      NmiStaysAhead(q, Run(q, before), Jobs(q, before), e);
    }
  }

  lemma NmiAtStart(q: Sequencer)
    requires q.rnmi
    ensures NmiAhead(q, q, [])
  {
  }

  /** In every run: an NMI raised outside an NMI entry, and not withdrawn, is the job
      started at the next boundary. `next` is its number among the jobs of the run. */
  lemma RaisedNmiIsNext(q: Sequencer, before: seq<Event>, rest: seq<Event>)
    requires var at := Run(q, before); at.busy.Doing? ==> at.busy.job != Service(NMI)
    requires forall e :: e in rest ==> !Preempts(e)
    ensures var at, events := Run(q, before), before + [Raised(NMI)] + rest;
            var next, jobs, r := |Jobs(q, before)| + First(at), Jobs(q, events), Run(q, events);
            && (|jobs| > next ==> jobs[next] == Service(NMI))
            && (|jobs| == next && r.busy.Doing? ==> r.busy.job == Service(NMI))
            && (|jobs| <= next ==> r.rnmi)
  {
    hide Run, Jobs, Preempts;
    var at := Run(q, before);
    var raised := at.(rnmi := true);
    RunAdd(q, before, [Raised(NMI)] + rest);
    RunAdd(at, [Raised(NMI)], rest);
    OneRaise(at);
    assert before + [Raised(NMI)] + rest == before + ([Raised(NMI)] + rest);
    NmiIsNext(raised, rest);
  }

  lemma OneRaise(q: Sequencer)
    ensures Run(q, [Raised(NMI)]) == q.(rnmi := true) && Jobs(q, [Raised(NMI)]) == []
  {
    assert [Raised(NMI)][..0] == [];
  }

  function Ticks(events: seq<Event>): nat {
    if events == [] then 0 else Ticks(events[..|events| - 1]) + if events[|events| - 1] == Tick then 1 else 0
  }

  lemma OneEventCounts(q: Sequencer, e: Event)
    requires !Stuck(q)
    ensures After(q, e).tsc == q.tsc + if e == Tick then 1 else 0
  {
    hide Outcome, Duration, Acknowledges, Stuck;
  }

  /** While the NMI has not been served the core is not stuck, and counts every cycle. */
  lemma {:induction false} NmiKeepsTime(q: Sequencer, events: seq<Event>)
    requires q.rnmi && (q.busy.Doing? ==> q.busy.job != Service(NMI))
    requires forall e :: e in events ==> !Preempts(e)
    ensures |Jobs(q, events)| <= First(q) ==> Run(q, events).tsc == q.tsc + Ticks(events)
    decreases |events|
  {
    hide After, Finished, Preempts;
    if events != [] {
      var before, e := events[..|events| - 1], events[|events| - 1];
      forall e | e in before ensures !Preempts(e) { assert e in events; }
      NmiKeepsTime(q, before);
      NmiIsNext(q, before);
      if |Jobs(q, before)| <= First(q) { OneEventCounts(Run(q, before), e); }
    }
  }

  /** A pending NMI is entered and its entry done as soon as the job under way has been
      finished and seven cycles more have gone by. */
  lemma NmiIsServed(q: Sequencer, events: seq<Event>)
    requires Sound(q) && q.rnmi && (q.busy.Doing? ==> q.busy.job != Service(NMI))
    requires forall e :: e in events ==> !Preempts(e)
    requires Ticks(events) >= 7 + if q.busy.Doing? then q.busy.left else 0
    ensures |Jobs(q, events)| > First(q) && Jobs(q, events)[First(q)] == Service(NMI)
  {
    hide Run, Jobs, Preempts, Ticks, Outcome, Acknowledges, Next;
    RunReplays(q, events);
    NmiIsNext(q, events);
    NmiKeepsTime(q, events);
    var jobs := Jobs(q, events);
    if |jobs| == 1 { assert jobs[..0] == []; }
  }

  // ---------------------------------------------------------------- IRQ and BRK

  function Cycles(n: nat): seq<Event> { seq(n, _ => Tick) }

  /** n cycles of a job that takes more, and its last cycle. */
  lemma {:induction false} CyclesOfJob(q: Sequencer, n: nat)
    requires q.busy.Doing? && n < q.busy.left
    ensures Run(q, Cycles(n)) == q.(busy := Doing(q.busy.job, q.busy.left - n), tsc := q.tsc + n)
    ensures Jobs(q, Cycles(n)) == []
  {
    hide Outcome, Acknowledges, Duration;
    if n > 0 {
      CyclesOfJob(q, n - 1);
      assert Cycles(n)[..n - 1] == Cycles(n - 1);
    }
  }

  /** An IRQ raised while a BRK is under way is gone when the BRK is done: it is not
      pending, and no entry has been made for it. */
  lemma BrkDropsIrq(q: Sequencer)
    requires q.busy.Idle? && NextJob(q) == Instruction && Next(q.state).Legal? && Next(q.state).instr.op == BRK
    ensures var events := [Tick, Raised(IRQ)] + Cycles(6);
            var r := Run(q, events);
            && Jobs(q, events) == [Instruction] && r.busy.Idle? && !r.rirq
            && r.state == Execute(Next(q.state).instr, q.state)
  {
    hide InstrTable, Execute, Resolve;
    TableIsRegular(q.state.ram[q.state.pc]);
    var begun := Ticked(q);
    var raised := begun.(rirq := true);
    assert begun.busy == Doing(Instruction, 6);
    BrkBegins(q, begun);
    RunAdd(q, [Tick, Raised(IRQ)], Cycles(6));
    CyclesOfJob(raised, 5);
    RunAdd(raised, Cycles(5), [Tick]);
    LastCycle(Run(raised, Cycles(5)));
    assert Cycles(6) == Cycles(5) + [Tick];
  }

  lemma BrkBegins(q: Sequencer, begun: Sequencer)
    requires begun == Ticked(q) && begun.busy.Doing? && q.busy.Idle?
    ensures Run(q, [Tick, Raised(IRQ)]) == begun.(rirq := true) && Jobs(q, [Tick, Raised(IRQ)]) == []
  {
    hide Outcome, Acknowledges, Duration, Stuck;
    var events := [Tick, Raised(IRQ)];
    RunOfPrefix(q, events, 0);
    RunOfPrefix(q, events, 1);
    assert events[..0] == [] && events[..2] == events;
  }

  lemma LastCycle(q: Sequencer)
    requires q.busy.Doing? && q.busy.left == 1
    ensures Run(q, [Tick]) == Ticked(q) && Jobs(q, [Tick]) == [q.busy.job]
  {
    hide Ticked;
    RunOfPrefix(q, [Tick], 0);
    assert [Tick][..0] == [] && [Tick][..1] == [Tick];
  }

  /** A core about to execute a BRK at address zero of an empty memory, I clear. */
  function AtBrk(): Sequencer {
    Sequencer(Isa.Arch(0, 0, 0, 0xFF, 0, Isa.Flags(false, false, false, false, false, false), seq(0x1_0000, _ => 0)),
              Idle, false, false, true, 0)
  }

  lemma LostIrq()
    ensures var events := [Tick, Raised(IRQ)] + Cycles(6);
            Raises(events, IRQ) == 1 && !Run(AtBrk(), events).rirq && Jobs(AtBrk(), events) == [Instruction]
  {
    hide Run, Jobs;
    assert InstrTable(0) == Legal(Instr(BRK, NoOperand, 7, false));
    BrkDropsIrq(AtBrk());
    OneIrq(6);
  }

  lemma {:induction false} OneIrq(n: nat)
    ensures Raises([Tick, Raised(IRQ)] + Cycles(n), IRQ) == 1
  {
    var events := [Tick, Raised(IRQ)] + Cycles(n);
    if n > 0 {
      OneIrq(n - 1);
      assert events[..n + 1] == [Tick, Raised(IRQ)] + Cycles(n - 1);
    } else {
      assert events == [Tick, Raised(IRQ)] && events[..1] == [Tick] && [Tick][..0] == [];
    }
  }

  // ---------------------------------------------------------------- the core

  ghost function Now(cpu: CPU): Sequencer
    reads cpu
  {
    var left := cpu.t0 + Duration(cpu.job, cpu.start) - cpu.tsc;
    Sequencer(cpu.start, if cpu.AtBoundary() then Idle else Doing(cpu.job, left), cpu.rnmi, cpu.rirq, cpu.warm, cpu.tsc)
  }

  lemma NowIsSound(cpu: CPU)
    requires cpu.Valid()
    ensures !cpu.AtBoundary() ==> Now(cpu).busy.left > 0
    ensures cpu.AtBoundary() ==> cpu.NextJob() == NextJob(Now(cpu)) && cpu.start == cpu.Arch() && cpu.tsc == cpu.t0
  {
    hide Outcome, Duration;
    if !cpu.AtBoundary() { cpu.RoomLeft(); }
  }

  /** What a cycle guarantees is the step of the sequencer. */
  lemma CycleIsTick(q: Sequencer, r: Sequencer, was: Job, end: int)
    requires !Stuck(q) && was == JobOf(q) && 0 < LeftOf(q) == end - q.tsc
    requires r.tsc == q.tsc + 1 && r.warm == q.warm
    requires if r.busy.Idle? then
        && r.tsc == end && r.state == Outcome(was, q.state, q.warm)
        && r.rnmi == (q.rnmi && !Acknowledges(was, q.state, NMI))
        && r.rirq == (q.rirq && !Acknowledges(was, q.state, IRQ))
      else
        && r.busy == Doing(was, end - r.tsc) && r.tsc < end
        && r.state == q.state && r.rnmi == q.rnmi && r.rirq == q.rirq
    ensures r == Ticked(q)
  {
    hide Outcome, Acknowledges, Stuck, JobOf, LeftOf;
  }

  lemma BoundaryState(cpu: CPU)
    requires cpu.Valid() && cpu.AtBoundary()
    ensures cpu.start == cpu.Arch() && cpu.tsc == cpu.t0
  {
  }

  /** A job that is about to start takes at least two cycles. */
  lemma NextTakesTime(q: Sequencer)
    requires q.busy.Idle? && !Stuck(q)
    ensures Duration(NextJob(q), q.state) > 0
  {
    hide InstrTable;
    if NextJob(q) == Instruction { InstructionTakesTime(q.state); }
  }

  /** A cycle is the step of the sequencer. */
  method Clock(cpu: CPU) returns (stopped: bool)
    requires cpu.Valid()
    modifies cpu
    ensures cpu.Valid() && Now(cpu) == Ticked(old(Now(cpu))) && stopped == Stuck(old(Now(cpu)))
  {
    hide Outcome, Duration, InstrTable, Acknowledges;
    NowIsSound(cpu);
    var quiet := !cpu.rnmi && !(cpu.rirq && !cpu.p.interrupt);
    stopped := cpu.state == FETCH && !cpu.intc && quiet && InstrTable(cpu.ram[cpu.pc]).Illegal?;
    if !stopped { Advance(cpu); }
  }

  /** The job of the core, and the cycles it has left, are the sequencer's. */
  lemma JobIsJob(cpu: CPU)
    requires cpu.Valid() && !Stuck(Now(cpu))
    ensures JobOf(Now(cpu)) == cpu.CurrentJob()
    ensures 0 < LeftOf(Now(cpu)) == cpu.t0 + Duration(cpu.CurrentJob(), cpu.start) - cpu.tsc
    ensures cpu.AtBoundary() && cpu.NextJob() == Instruction ==> Next(cpu.start).Legal?
  {
    hide Outcome, Duration, Acknowledges, InstrTable;
    NowIsSound(cpu);
    if cpu.AtBoundary() { NextTakesTime(Now(cpu)); }
  }

  method Advance(cpu: CPU)
    requires cpu.Valid() && !Stuck(Now(cpu))
    modifies cpu
    ensures cpu.Valid() && Now(cpu) == Ticked(old(Now(cpu)))
  {
    hide Outcome, Duration, Acknowledges, Ticked, Stuck, JobOf, LeftOf;
    JobIsJob(cpu);
    ghost var q, was := Now(cpu), cpu.CurrentJob();
    ghost var end := cpu.t0 + Duration(was, cpu.start);
    cpu.Cycle();
    if cpu.AtBoundary() { BoundaryState(cpu); }
    CycleIsTick(q, Now(cpu), was, end);
  }

  /** One event, and the job it finishes. */
  method Deliver(cpu: CPU, e: Event) returns (ghost done: seq<Job>, stopped: bool)
    requires cpu.Valid() && e != Unraised(RESET) && (e == Raised(RESET) ==> cpu.AtBoundary())
    modifies cpu
    ensures cpu.Valid() && Now(cpu) == After(old(Now(cpu)), e)
    ensures done == Finished(old(Now(cpu)), e) && stopped == (e == Tick && Stuck(old(Now(cpu))))
  {
    hide Outcome, Duration, Acknowledges, Stuck, Finished, Ticked, After;
    TickIsTicked(Now(cpu));
    done, stopped := Finished(Now(cpu), e), false;
    match e
    case Tick => stopped := Clock(cpu);
    case Raised(line) => if line == RESET { RaiseReset(cpu); } else { Request(cpu, line); }
    case Unraised(line) => Withdraw(cpu, line);
  }

  lemma TickIsTicked(q: Sequencer)
    ensures After(q, Tick) == Ticked(q)
  {
    hide Ticked;
  }

  method Request(cpu: CPU, line: InterruptFlag)
    requires cpu.Valid() && line != RESET
    modifies cpu
    ensures cpu.Valid() && Now(cpu) == After(old(Now(cpu)), Raised(line))
  {
    hide Outcome, Duration, Ticked, CPU.ValidEntry, CPU.ValidLoad, CPU.ValidExecute;
    cpu.Raise(line);
  }

  method Withdraw(cpu: CPU, line: InterruptFlag)
    requires cpu.Valid() && line != RESET
    modifies cpu
    ensures cpu.Valid() && Now(cpu) == After(old(Now(cpu)), Unraised(line))
  {
    hide Outcome, Duration, Ticked, CPU.ValidEntry, CPU.ValidLoad, CPU.ValidExecute;
    cpu.Unraise(line);
  }

  method RaiseReset(cpu: CPU)
    requires cpu.Valid() && cpu.AtBoundary()
    modifies cpu
    ensures cpu.Valid() && Now(cpu) == After(old(Now(cpu)), Raised(RESET))
  {
    hide Outcome, Duration, Acknowledges;
    ResetTakesSeven(cpu.start);
    BoundaryState(cpu);
    cpu.Raise(RESET);
  }

  lemma ResetTakesSeven(s: Arch)
    ensures Duration(Service(RESET), s) == 7
  {
  }

  /** A reset is raised at boundaries only, and never withdrawn. */
  predicate Permitted(q: Sequencer, events: seq<Event>) {
    forall k :: 0 <= k < |events| ==>
      events[k] != Unraised(RESET) && (events[k] == Raised(RESET) ==> Run(q, events[..k]).busy.Idle?)
  }

  /** Any interleaving of cycles and requests, up to a cycle at an undocumented opcode.
      State, requests, clock and jobs are those of the sequencer fed the same events;
      so the state is the replay of the jobs, the clock their duration, every job was
      started legitimately, and there are no more entries than requests. */
  method Drive(cpu: CPU, events: seq<Event>) returns (ghost jobs: seq<Job>, k: nat)
    requires cpu.Valid() && Permitted(Now(cpu), events)
    modifies cpu
    ensures cpu.Valid() && k <= |events|
    ensures Now(cpu) == Run(old(Now(cpu)), events[..k]) && jobs == Jobs(old(Now(cpu)), events[..k])
    ensures k < |events| ==> events[k] == Tick && Stuck(Now(cpu))
    ensures forall i :: 0 <= i < k && events[i] == Tick ==> !Stuck(Run(old(Now(cpu)), events[..i]))
    ensures var q := old(Now(cpu));
            && cpu.start == Replay(q.state, Cold(q), jobs)
            && cpu.tsc == q.tsc - Spent(q) + Time(q.state, Cold(q), jobs) + Spent(Now(cpu))
            && (forall i :: StartedRight(q, Now(cpu), jobs, i))
            && (forall line | line in {NMI, IRQ} ::
                  Occurrences(jobs, Service(line)) + Credit(Now(cpu), line)
                  <= Credit(q, line) + Raises(events[..k], line))
  {
    hide Run, Jobs, Stuck, After, Finished, Replay, Time, Spent, Cold, StartedRight, Occurrences, Credit, Raises,
         Permitted, Sound, Duration, CPU.Valid;
    ghost var q := Now(cpu);
    NothingYet(q);
    CoreIsSound(cpu);
    jobs, k := [], 0;
    var stopped := false;
    while k < |events| && !stopped
      invariant k <= |events| && cpu.Valid()
      invariant Now(cpu) == Run(q, events[..k]) && jobs == Jobs(q, events[..k])
      invariant stopped ==> k < |events| && events[k] == Tick && Stuck(Now(cpu))
      invariant forall i :: 0 <= i < k && events[i] == Tick ==> !Stuck(Run(q, events[..i]))
      decreases |events| - k, !stopped
    {
      RunOfPrefix(q, events, k);
      PermittedAt(q, events, k);
      ghost var done;
      done, stopped := Deliver(cpu, events[k]);
      if stopped {
        StuckStays(Run(q, events[..k]));
      } else {
        jobs := jobs + done;
        k := k + 1;
      }
    }
    Consequences(q, events[..k]);
  }

  lemma NothingYet(q: Sequencer)
    ensures Run(q, []) == q && Jobs(q, []) == []
  {
  }

  lemma PermittedAt(q: Sequencer, events: seq<Event>, k: nat)
    requires Permitted(q, events) && k < |events|
    ensures events[k] != Unraised(RESET) && (events[k] == Raised(RESET) ==> Run(q, events[..k]).busy.Idle?)
  {
  }

  lemma CoreIsSound(cpu: CPU)
    requires cpu.Valid()
    ensures Sound(Now(cpu))
  {
    hide Duration, Outcome;
    NowIsSound(cpu);
    if !cpu.AtBoundary() { cpu.NotEarly(); }
  }

  lemma StuckStays(q: Sequencer)
    ensures Stuck(q) ==> After(q, Tick) == q
  {
  }

  lemma Consequences(q: Sequencer, events: seq<Event>)
    requires Sound(q)
    ensures var r, jobs := Run(q, events), Jobs(q, events);
            && r.state == Replay(q.state, Cold(q), jobs)
            && r.tsc == q.tsc - Spent(q) + Time(q.state, Cold(q), jobs) + Spent(r)
            && (forall i :: StartedRight(q, r, jobs, i))
            && (forall line | line in {NMI, IRQ} ::
                  Occurrences(jobs, Service(line)) + Credit(r, line) <= Credit(q, line) + Raises(events, line))
  {
    hide Run, Jobs, Replay, Time, Spent, Cold, StartedRight, Occurrences, Credit, Raises, Sound;
    RunReplays(q, events);
    forall i: nat ensures StartedRight(q, Run(q, events), Jobs(q, events), i) { JobsMayStart(q, events, i); }
    EntriesNeedRequests(q, events, NMI);
    EntriesNeedRequests(q, events, IRQ);
  }
}
