/** The generators of the AY-3-8910 sound chip: three tones, the noise, the
    envelope, and the clock that decides when a sample is due. */
module Ay38910 {
  import opened Words
  import opened Arithmetic
  import opened NoiseLfsr

  const NUM_REGISTERS: nat := 16
  const NUM_CHANNELS: nat := 3
  const FIXEDPOINT_SCALE: nat := 16
  const REG_ENV_SHAPE_CYCLE: byte := 13

  datatype Tone = Tone(period: word, counter: word, bit: bool, toneDisable: bool, noiseDisable: bool)
  datatype NoiseGen = NoiseGen(period: word, counter: word, rng: bv32, bit: bool)
  datatype Envelope = Envelope(period: word, counter: word, holding: bool, hold: bool,
                               shapeCounter: byte, shapeState: byte)

  // ---------------------------------------------------------------- envelope shapes

  const DOWN: seq<byte> := [15, 14, 13, 12, 11, 10, 9, 8, 7, 6, 5, 4, 3, 2, 1, 0]
  const UP: seq<byte> := [0, 1, 2, 3, 4, 5, 6, 7, 8, 9, 10, 11, 12, 13, 14, 15]
  const ZERO: seq<byte> := [0, 0, 0, 0, 0, 0, 0, 0, 0, 0, 0, 0, 0, 0, 0, 0]
  const FULL: seq<byte> := [15, 15, 15, 15, 15, 15, 15, 15, 15, 15, 15, 15, 15, 15, 15, 15]

  /** The rows of the shape table, by the bits continue, attack, alternate, hold. */
  function Shape(shape: byte): (row: seq<byte>)
    ensures |row| == 32
  {
    match shape
    case 0 | 1 | 2 | 3 => DOWN + ZERO
    case 4 | 5 | 6 | 7 => UP + ZERO
    case 8 => DOWN + DOWN
    case 9 => DOWN + ZERO
    case 10 => DOWN + UP
    case 11 => DOWN + FULL
    case 12 => UP + UP
    case 13 => UP + FULL
    case 14 => UP + DOWN
    case _ => UP + ZERO
  }

  predicate Continue(shape: byte) { shape / 8 % 2 == 1 }
  predicate Attack(shape: byte) { shape / 4 % 2 == 1 }
  predicate Alternate(shape: byte) { shape / 2 % 2 == 1 }
  predicate Hold(shape: byte) { shape % 2 == 1 }

  function Ramp(up: bool, i: nat): (r: byte) requires i < 16 { if up then i else 15 - i }

  /** Section 3.5 of the General Instrument AY-3-8910 data manual: the level k counts
      into the envelope. A cycle is sixteen counts, up or down by `attack`. Without
      `continue` there is one cycle and then zero. With `hold` there is one cycle and
      then its last count, or, with `alternate` as well, its first. Otherwise cycles
      go on, reversing each time with `alternate`. */
  function Described(shape: byte, k: nat): byte {
    var up := Attack(shape);
    if k < 16 then Ramp(up, k)
    else if !Continue(shape) then 0
    else if Hold(shape) then Ramp(up, if Alternate(shape) then 0 else 15)
    else Ramp(if Alternate(shape) && k / 16 % 2 == 1 then !up else up, k % 16)
  }

  /** Shapes that end. */
  predicate Holds(shape: byte) { !Continue(shape) || Hold(shape) }

  /** Where in its row the envelope is after k steps. */
  function Index(hold: bool, k: nat): (i: nat)
    ensures i < 32
  {
    if hold then (if k < 31 then k else 31) else k % 32
  }

  lemma TableIsDescription(shape: byte, k: nat)
    requires shape < 16
    ensures Shape(shape)[Index(Holds(shape), k)] == Described(shape, k)
  {
    hide Shape, Described;
    var i := Index(Holds(shape), k);
    OneRow(shape, i);
    Repeats(shape, k);
  }

  lemma OneRow(shape: byte, i: nat)
    requires shape < 16 && i < 32
    ensures Shape(shape)[i] == Described(shape, i)
  {
    hide Shape, Described;
    if i < 16 { FirstHalf(shape, i); }
    else if shape < 8 { OneCycle(shape, i); }
    else { SecondHalf(shape, i); }
  }

  lemma Counts(j: nat)
    requires j < 16
    ensures |DOWN| == |UP| == |ZERO| == |FULL| == 16
    ensures DOWN[j] == 15 - j && UP[j] == j && ZERO[j] == 0 && FULL[j] == 15
  {
  }

  lemma FirstHalf(shape: byte, i: nat)
    requires shape < 16 && i < 16
    ensures Shape(shape)[i] == Described(shape, i)
  {
    hide DOWN, UP, ZERO, FULL;
    Counts(i);
  }

  lemma OneCycle(shape: byte, i: nat)
    requires shape < 8 && 16 <= i < 32
    ensures Shape(shape)[i] == Described(shape, i)
  {
    hide DOWN, UP, ZERO, FULL;
    Counts(i - 16);
  }

  lemma SecondHalf(shape: byte, i: nat)
    requires 8 <= shape < 16 && 16 <= i < 32
    ensures Shape(shape)[i] == Described(shape, i)
  {
    hide DOWN, UP, ZERO, FULL;
    Counts(i - 16);
  }

  lemma Repeats(shape: byte, k: nat)
    requires shape < 16
    ensures Described(shape, Index(Holds(shape), k)) == Described(shape, k)
  {
    assert k % 32 / 16 % 2 == k / 16 % 2 && k % 32 % 16 == k % 16;
    assert !Holds(shape) ==> Continue(shape) && !Hold(shape);
  }

  // ---------------------------------------------------------------- generators

  function TickTone(t: Tone): Tone {
    if t.counter + 1 >= t.period then t.(counter := 0, bit := !t.bit) else t.(counter := t.counter + 1)
  }

  /** Whether this tick of the noise channel shifts the register: every other time
      its counter runs out. */
  predicate NoiseShifts(n: NoiseGen) { n.counter + 1 >= n.period && !n.bit }

  function TickNoise(n: NoiseGen): NoiseGen {
    if n.counter + 1 < n.period then n.(counter := n.counter + 1)
    else if n.bit then n.(counter := 0, bit := false)
    else n.(counter := 0, bit := true, rng := Step(n.rng))
  }

  predicate EnvelopeSteps(e: Envelope) { e.counter + 1 >= e.period }

  function StepEnvelope(e: Envelope, shape: byte): Envelope
    requires e.shapeCounter < 32
  {
    var c := if e.holding then e.shapeCounter else (e.shapeCounter + 1) % 32;
    e.(counter := 0, shapeCounter := c, holding := e.holding || (e.hold && c == 31), shapeState := Shape(shape)[c])
  }

  function TickEnvelope(e: Envelope, shape: byte): Envelope
    requires e.shapeCounter < 32
  {
    if EnvelopeSteps(e) then StepEnvelope(e, shape) else e.(counter := e.counter + 1)
  }

  function Restart(e: Envelope, shape: byte): Envelope {
    e.(holding := false, shapeCounter := 0, hold := Holds(shape))
  }

  /** The envelope k steps after its shape was written. */
  predicate Enveloped(e: Envelope, shape: byte, k: nat) {
    && shape < 16 && e.hold == Holds(shape)
    && e.shapeCounter == Index(e.hold, k) && e.holding == (e.hold && k >= 31)
    && (k >= 1 ==> e.shapeState == Described(shape, k))
  }

  lemma EnvelopeGoesOn(e: Envelope, shape: byte, k: nat)
    requires Enveloped(e, shape, k)
    ensures Enveloped(StepEnvelope(e, shape), shape, k + 1)
  {
    hide Described, Shape, Holds;
    TableIsDescription(shape, k + 1);
  }

  /** k envelope steps. */
  function StepsFrom(e: Envelope, shape: byte, k: nat): (r: Envelope)
    requires e.shapeCounter < 32
    ensures r.shapeCounter < 32
  {
    if k == 0 then e else StepEnvelope(StepsFrom(e, shape, k - 1), shape)
  }

  /** k steps after the shape register was written, for every k, the envelope is where
      the closed form says, and for k >= 1 at the described level. */
  lemma {:induction false} EnvelopeClosedForm(e: Envelope, shape: byte, k: nat)
    requires shape < 16
    ensures var r := StepsFrom(Restart(e, shape), shape, k);
            && Enveloped(r, shape, k) && r.shapeCounter == Index(Holds(shape), k)
            && (k >= 1 ==> r.shapeState == Described(shape, k))
  {
    hide Described, Shape, StepEnvelope;
    if k > 0 {
      EnvelopeClosedForm(e, shape, k - 1);
      EnvelopeGoesOn(StepsFrom(Restart(e, shape), shape, k - 1), shape, k - 1);
    }
  }

  // ---------------------------------------------------------------- the sample clock

  /** The sample counter and the number of samples after n ticks. */
  function Clock(period: nat, n: nat): (int, nat) {
    if n == 0 then (period, 0) else
    var (counter, samples) := Clock(period, n - 1);
    if counter <= FIXEDPOINT_SCALE then (counter - FIXEDPOINT_SCALE + period, samples + 1)
    else (counter - FIXEDPOINT_SCALE, samples)
  }

  lemma {:induction false} CounterInRange(period: nat, n: nat)
    requires period >= FIXEDPOINT_SCALE
    ensures var (counter, samples) := Clock(period, n);
            0 < counter <= period && counter == period * (samples + 1) - FIXEDPOINT_SCALE * n
  {
    if n > 0 {
      CounterInRange(period, n - 1);
      OneMoreSample(period, Clock(period, n - 1).1);
    }
  }

  lemma OneMoreSample(period: nat, samples: nat)
    ensures period * (samples + 2) == period * (samples + 1) + period
  {
  }

  lemma {:induction false} AtMostOnePerTick(period: nat, n: nat)
    ensures Clock(period, n).1 <= n
  {
    if n > 0 { AtMostOnePerTick(period, n - 1); }
  }

  lemma SampleRate(period: nat, n: nat)
    requires period >= FIXEDPOINT_SCALE
    ensures Clock(period, n).1 == FIXEDPOINT_SCALE * n / period
  {
    CounterInRange(period, n);
    hide Clock;
    var (counter, samples) := Clock(period, n);
    assert period * (samples + 1) == period * samples + period;
    DivMod(FIXEDPOINT_SCALE * n, period, samples, period - counter);
  }

  /** The number of samples is exact at every time if and only if the period is at
      least one tick long; a shorter one would need several samples in a tick. */
  lemma SampleRateIsExact(period: nat)
    requires period > 0
    ensures (forall n: nat :: Clock(period, n).1 == 16 * n / period) <==> period >= 16
  {
    if period >= FIXEDPOINT_SCALE {
      forall n: nat ensures Clock(period, n).1 == 16 * n / period { SampleRate(period, n); }
    } else {
      AtMostOnePerTick(period, period);
      DivMod(FIXEDPOINT_SCALE * period, period, FIXEDPOINT_SCALE, 0);
      assert Clock(period, period).1 != 16 * period / period;
    }
  }

  // ---------------------------------------------------------------- the chip

  function Mask(addr: nat): byte {
    match addr
    case 1 | 3 | 5 | 13 => 0x0F
    case 6 | 8 | 9 | 10 => 0x1F
    case _ => 0xFF
  }

  /** A period of zero counts as one. */
  function AtLeastOne(period: word): word { if period == 0 then 1 else period }

  /** A set bit of the enable register means disabled. */
  predicate Disabled(reg: seq<byte>, bit: nat)
    requires |reg| == NUM_REGISTERS && bit < 8
  {
    ((reg[7] as bv8) >> bit) & 1 == 1
  }

  /** A tone channel with the values computed from its registers. */
  function Updated(reg: seq<byte>, i: nat, t: Tone): (u: Tone)
    requires |reg| == NUM_REGISTERS && i < NUM_CHANNELS
    ensures u.counter == t.counter && u.bit == t.bit && u.period >= 1
  {
    t.(period := AtLeastOne(Pair(reg[2 * i + 1], reg[2 * i])),
       toneDisable := Disabled(reg, i), noiseDisable := Disabled(reg, 3 + i))
  }

  /** The generators and the registers they are programmed by. */
  datatype State = State(tick: int, addr: byte, reg: seq<byte>, tone: seq<Tone>, noise: NoiseGen, env: Envelope)

  predicate Shaped(s: State) {
    |s.reg| == NUM_REGISTERS && |s.tone| == NUM_CHANNELS && s.env.shapeCounter < 32
  }

  function PowerOn(): (s: State)
    ensures Shaped(s)
  {
    State(0, 0, seq(NUM_REGISTERS, _ => 0), seq(NUM_CHANNELS, _ => Tone(1, 0, false, false, false)),
          NoiseGen(1, 0, 1, false), Envelope(1, 0, false, true, 0, 0))
  }

  function Recomputed(s: State): (r: State)
    requires Shaped(s)
    ensures Shaped(r) && r.reg == s.reg
  {
    s.(tone := seq(NUM_CHANNELS, i requires 0 <= i < NUM_CHANNELS => Updated(s.reg, i, s.tone[i])),
       noise := s.noise.(period := AtLeastOne(s.reg[6])),
       env := s.env.(period := AtLeastOne(Pair(s.reg[12], s.reg[11]))))
  }

  /** A register write; the shape register restarts the envelope. */
  function Stored(s: State, at: byte, v: byte): (r: State)
    requires Shaped(s)
    ensures Shaped(r)
  {
    if at >= NUM_REGISTERS then s else
    var r := Recomputed(s.(reg := s.reg[at := BitAnd(v, Mask(at))]));
    if at == REG_ENV_SHAPE_CYCLE then r.(env := Restart(r.env, r.reg[at])) else r
  }

  function AfterReset(s: State): (r: State)
    requires Shaped(s)
    ensures Shaped(r)
  {
    var r := Recomputed(s.(addr := 0, tick := 0, reg := seq(NUM_REGISTERS, _ => 0)));
    r.(env := Restart(r.env, 0))
  }

  function NextTick(tick: int): int { (tick + 1) % 0x1_0000_0000 }

  function Ticked(s: State): (r: State)
    requires Shaped(s)
    ensures Shaped(r)
  {
    var tick := NextTick(s.tick);
    s.(tick := tick,
       tone := if tick % 8 != 0 then s.tone
               else seq(NUM_CHANNELS, i requires 0 <= i < NUM_CHANNELS => TickTone(s.tone[i])),
       noise := if tick % 8 == 0 then TickNoise(s.noise) else s.noise,
       env := if tick % 16 == 0 then TickEnvelope(s.env, s.reg[REG_ENV_SHAPE_CYCLE]) else s.env)
  }

  /** Whether a tick shifts the noise register, and whether it steps the envelope. */
  predicate TickShifts(s: State) { NextTick(s.tick) % 8 == 0 && NoiseShifts(s.noise) }
  predicate TickSteps(s: State) { NextTick(s.tick) % 16 == 0 && EnvelopeSteps(s.env) }

  class Chip {
    var tick: int
    var addr: byte
    const reg: array<byte>
    const tone: array<Tone>
    var noise: NoiseGen
    var env: Envelope
    const samplePeriod: nat
    var sampleCounter: int

    // Ticks and samples since the chip was set up, shifts of the noise register
    // since then, and envelope steps since the shape register was last written.
    ghost var ticks: nat
    ghost var samples: nat
    ghost var shifts: nat
    ghost var envSteps: nat

    ghost predicate Valid()
      reads this, reg, tone
    {
      && reg.Length == NUM_REGISTERS && tone.Length == NUM_CHANNELS
      && 0 <= tick < 0x1_0000_0000
      && (forall i :: 0 <= i < NUM_CHANNELS ==> tone[i].counter < 0xFFFF)
      && noise.counter < 0xFFFF && env.counter < 0xFFFF
      && noise.rng == Noise(shifts)
      && Enveloped(env, reg[REG_ENV_SHAPE_CYCLE], envSteps)
      && Clock(samplePeriod, ticks) == (sampleCounter, samples)
    }

    constructor (tickHz: nat, soundHz: nat)
      requires 0 < tickHz < 0x800_0000 && 0 < soundHz
      ensures Valid() && fresh(reg) && fresh(tone) && ticks == samples == shifts == envSteps == 0
      ensures Now() == PowerOn()
      ensures samplePeriod == tickHz * 16 / soundHz
    {
      tick, addr := 0, 0;
      reg := new byte[NUM_REGISTERS](_ => 0);
      tone := new Tone[NUM_CHANNELS](_ => Tone(1, 0, false, false, false));
      noise := NoiseGen(1, 0, 1, false);
      env := Envelope(1, 0, false, true, 0, 0);
      samplePeriod := tickHz * FIXEDPOINT_SCALE / soundHz;
      sampleCounter := tickHz * FIXEDPOINT_SCALE / soundHz;
      ticks, samples, shifts, envSteps := 0, 0, 0, 0;
    }

    function Now(): State
      reads `tick, `addr, `noise, `env, reg, tone
    {
      State(tick, addr, reg[..], tone[..], noise, env)
    }

    method UpdateValues()
      requires Shaped(Now())
      modifies tone, `noise, `env
      ensures Now() == Recomputed(old(Now()))
    {
      hide Updated;
      for i := 0 to NUM_CHANNELS
        invariant noise == old(noise) && env == old(env)
        invariant forall j :: i <= j < NUM_CHANNELS ==> tone[j] == old(tone[j])
        invariant forall j :: 0 <= j < i ==> tone[j] == Updated(reg[..], j, old(tone[j]))
      {
        tone[i] := Updated(reg[..], i, tone[i]);
      }
      noise := noise.(period := AtLeastOne(reg[6]));
      env := env.(period := AtLeastOne(Pair(reg[12], reg[11])));
    }

    /** Writes a register by its number; numbers past the last are ignored. */
    method SetRegister(at: byte, v: byte)
      requires Valid()
      modifies `noise, `env, `envSteps, reg, tone
      ensures Valid() && Now() == Stored(old(Now()), at, v)
      ensures envSteps == if at == REG_ENV_SHAPE_CYCLE then 0 else old(envSteps)
    {
      hide Described, Shape, Noise, Pair, AtLeastOne, BitAnd, Disabled, Clock, Updated;
      if at < NUM_REGISTERS {
        reg[at] := BitAnd(v, Mask(at));
        UpdateValues();
        ShapeIsNibble(v);
        if at == REG_ENV_SHAPE_CYCLE {
          env := Restart(env, reg[at]);
          envSteps := 0;
        }
      }
    }

    /** The write half of the bus request: the latch, or the latched register. */
    method Write(bc1: bool, v: byte)
      requires Valid()
      modifies `addr, `noise, `env, `envSteps, reg, tone
      ensures Valid()
      ensures Now() == if bc1 then old(Now()).(addr := v) else Stored(old(Now()), old(addr), v)
      ensures envSteps == if !bc1 && old(addr) == REG_ENV_SHAPE_CYCLE then 0 else old(envSteps)
    {
      hide Stored;
      if bc1 { addr := v; } else { SetRegister(addr, v); }
    }

    method Reset()
      requires Valid()
      modifies `addr, `tick, `noise, `env, `envSteps, reg, tone
      ensures Valid() && Now() == AfterReset(old(Now())) && envSteps == 0
    {
      hide Described, Shape, Noise, Pair, AtLeastOne, BitAnd, Disabled, Clock, Updated;
      addr, tick := 0, 0;
      ClearRegisters();
      UpdateValues();
      env := Restart(env, reg[REG_ENV_SHAPE_CYCLE]);
      envSteps := 0;
    }

    method ClearRegisters()
      requires reg.Length == NUM_REGISTERS
      modifies reg
      ensures reg[..] == seq(NUM_REGISTERS, _ => 0)
    {
      forall i | 0 <= i < NUM_REGISTERS { reg[i] := 0; }
    }

    method TickTones()
      requires tone.Length == NUM_CHANNELS && forall i :: 0 <= i < NUM_CHANNELS ==> tone[i].counter < 0xFFFF
      modifies tone
      ensures forall i :: 0 <= i < NUM_CHANNELS ==> tone[i].counter < 0xFFFF
      ensures tone[..] == seq(NUM_CHANNELS, i requires 0 <= i < NUM_CHANNELS => TickTone(old(tone[..])[i]))
    {
      for i := 0 to NUM_CHANNELS
        invariant forall j :: 0 <= j < i ==> tone[j] == TickTone(old(tone[j])) && tone[j].counter < 0xFFFF
        invariant forall j :: i <= j < NUM_CHANNELS ==> tone[j] == old(tone[j]) && tone[j].counter < 0xFFFF
      {
        var t := tone[i];
        var c := Trunc(t.counter + 1);
        tone[i] := if c >= t.period then t.(counter := 0, bit := !t.bit) else t.(counter := c);
      }
    }

    method TickNoiseChannel()
      requires noise.counter < 0xFFFF && noise.rng == Noise(shifts)
      modifies `noise, `shifts
      ensures noise == TickNoise(old(noise)) && noise.counter < 0xFFFF && noise.rng == Noise(shifts)
      ensures shifts == old(shifts) + if NoiseShifts(old(noise)) then 1 else 0
    {
      hide Step;
      var c := Trunc(noise.counter + 1);
      if c >= noise.period {
        noise := noise.(counter := 0, bit := !noise.bit);
        if noise.bit {
          noise := noise.(rng := Step(noise.rng));
          shifts := shifts + 1;
        }
      } else {
        noise := noise.(counter := c);
      }
    }

    method TickEnvelopeGenerator(shape: byte)
      requires env.counter < 0xFFFF && Enveloped(env, shape, envSteps)
      modifies `env, `envSteps
      ensures env == TickEnvelope(old(env), shape) && env.counter < 0xFFFF && Enveloped(env, shape, envSteps)
      ensures envSteps == old(envSteps) + if EnvelopeSteps(old(env)) then 1 else 0
    {
      hide Described, Shape, Holds;
      EnvelopeGoesOn(env, shape, envSteps);
      var c := Trunc(env.counter + 1);
      if c >= env.period {
        env := env.(counter := 0);
        if !env.holding {
          env := env.(shapeCounter := (env.shapeCounter + 1) % 32);
          if env.hold && env.shapeCounter == 31 { env := env.(holding := true); }
        }
        env := env.(shapeState := Shape(shape)[env.shapeCounter]);
        envSteps := envSteps + 1;
      } else {
        env := env.(counter := c);
      }
    }

    method Sample() returns (ready: bool)
      requires Clock(samplePeriod, ticks) == (sampleCounter, samples)
      modifies `sampleCounter, `samples, `ticks
      ensures Clock(samplePeriod, ticks) == (sampleCounter, samples)
      ensures ticks == old(ticks) + 1 && samples == old(samples) + if ready then 1 else 0
    {
      ticks := ticks + 1;
      sampleCounter := sampleCounter - FIXEDPOINT_SCALE;
      ready := sampleCounter <= 0;
      if ready {
        sampleCounter := sampleCounter + samplePeriod;
        samples := samples + 1;
      }
    }

    /** One tick; true if a sample is due. */
    method Tick() returns (ready: bool)
      requires Valid()
      modifies this, tone
      ensures Valid() && Now() == Ticked(old(Now()))
      ensures ticks == old(ticks) + 1 && samples == old(samples) + if ready then 1 else 0
      ensures shifts == old(shifts) + if TickShifts(old(Now())) then 1 else 0
      ensures envSteps == old(envSteps) + if TickSteps(old(Now())) then 1 else 0
    {
      hide Described, Shape, Noise, Enveloped, Clock, TickNoise, TickEnvelope, TickTone, NoiseShifts, EnvelopeSteps;
      tick := (tick + 1) % 0x1_0000_0000;
      if tick % 8 == 0 {
        TickTones();
        TickNoiseChannel();
      }
      if tick % 16 == 0 { TickEnvelopeGenerator(reg[REG_ENV_SHAPE_CYCLE]); }
      ready := Sample();
    }
  }

  lemma ShapeIsNibble(v: byte)
    ensures BitAnd(v, 0x0F) < 16
  {
  }

  // ---------------------------------------------------------------- whole runs

  datatype Event = TickOnce | WriteBus(bc1: bool, v: byte) | ResetAgain

  function After(s: State, e: Event): (r: State)
    requires Shaped(s)
    ensures Shaped(r)
  {
    match e
    case TickOnce => Ticked(s)
    case WriteBus(bc1, v) => if bc1 then s.(addr := v) else Stored(s, s.addr, v)
    case ResetAgain => AfterReset(s)
  }

  /** The generators after a run from power-on. */
  function Played(events: seq<Event>): (s: State)
    ensures Shaped(s)
  {
    if events == [] then PowerOn() else After(Played(events[..|events| - 1]), events[|events| - 1])
  }

  function Ticks(events: seq<Event>): nat {
    if events == [] then 0 else Ticks(events[..|events| - 1]) + if events[|events| - 1] == TickOnce then 1 else 0
  }

  /** How often the noise register has been shifted in a run. */
  function Shifts(events: seq<Event>): nat {
    if events == [] then 0 else
    var before := events[..|events| - 1];
    Shifts(before) + if events[|events| - 1] == TickOnce && TickShifts(Played(before)) then 1 else 0
  }

  /** The event writes the shape register, or resets it. */
  predicate Restarts(s: State, e: Event) {
    e == ResetAgain || (e.WriteBus? && !e.bc1 && s.addr == 13)
  }

  /** How often the envelope has stepped since its shape was last written. */
  function EnvSteps(events: seq<Event>): nat {
    if events == [] then 0 else
    var before, e := events[..|events| - 1], events[|events| - 1];
    if Restarts(Played(before), e) then 0
    else EnvSteps(before) + if e == TickOnce && TickSteps(Played(before)) then 1 else 0
  }

  method Handle(chip: Chip, e: Event) returns (ready: bool)
    requires chip.Valid()
    modifies chip, chip.reg, chip.tone
    ensures chip.Valid() && chip.Now() == After(old(chip.Now()), e)
    ensures chip.ticks == old(chip.ticks) + (if e == TickOnce then 1 else 0)
    ensures chip.samples == old(chip.samples) + (if ready then 1 else 0)
    ensures chip.shifts == old(chip.shifts) + if e == TickOnce && TickShifts(old(chip.Now())) then 1 else 0
    ensures chip.envSteps == if Restarts(old(chip.Now()), e) then 0 else
                               old(chip.envSteps) + if e == TickOnce && TickSteps(old(chip.Now())) then 1 else 0
  {
    hide Noise, Described, Clock, Ticked, Stored, AfterReset, TickShifts, TickSteps, Enveloped;
    ready := false;
    match e
    case TickOnce => ready := chip.Tick();
    case WriteBus(bc1, v) => chip.Write(bc1, v);
    case ResetAgain => chip.Reset();
  }

  /** Any run of a chip just set up: its state, and all of it is in the events. The
      samples it yields, whatever is written to the registers and when; the noise, on
      its one orbit as far as it has been shifted; and the envelope, at the level
      described for the steps it has made since its shape was written. */
  method Play(tickHz: nat, soundHz: nat, events: seq<Event>) returns (chip: Chip, samples: nat)
    requires 0 < tickHz < 0x800_0000 && 0 < soundHz
    ensures chip.Valid() && chip.samplePeriod == tickHz * 16 / soundHz
    ensures chip.Now() == Played(events)
    ensures chip.samplePeriod >= 16 ==>
              && samples == 16 * Ticks(events) / chip.samplePeriod
              && 0 < chip.sampleCounter <= chip.samplePeriod
    ensures InRange(chip.noise.rng) && chip.noise.rng == Noise(Shifts(events))
    ensures EnvSteps(events) > 0 ==>
              chip.env.shapeState == Described(chip.reg[13], EnvSteps(events))
  {
    hide Noise, Described, Clock, InRange, Step, After, TickShifts, TickSteps, Restarts;
    chip := new Chip(tickHz, soundHz);
    samples := 0;
    for k := 0 to |events|
      invariant fresh(chip) && fresh(chip.reg) && fresh(chip.tone)
      invariant chip.Valid() && chip.samplePeriod == tickHz * FIXEDPOINT_SCALE / soundHz
      invariant chip.samples == samples && chip.ticks == Ticks(events[..k])
      invariant chip.Now() == Played(events[..k])
      invariant chip.shifts == Shifts(events[..k]) && chip.envSteps == EnvSteps(events[..k])
    {
      assert events[..k + 1][..k] == events[..k];
      var ready := Handle(chip, events[k]);
      if ready { samples := samples + 1; }
    }
    assert events[..|events|] == events;
    NoisePeriod(chip.shifts, 0);
    if chip.samplePeriod >= FIXEDPOINT_SCALE {
      CounterInRange(chip.samplePeriod, chip.ticks);
      SampleRate(chip.samplePeriod, chip.ticks);
    }
  }
}
