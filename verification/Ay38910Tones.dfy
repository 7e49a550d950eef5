/** What the registers of the AY-3-8910 program, over whole runs, and the square wave
    a tone channel makes of its period. */
module Ay38910Tones {
  import opened Words
  import Arithmetic
  import opened Bitwise
  import opened Ay38910

  // ---------------------------------------------------------------- registers

  /** The register number last written to the address latch. */
  function Latched(events: seq<Event>): byte {
    if events == [] then 0 else
    match events[|events| - 1]
    case TickOnce => Latched(events[..|events| - 1])
    case WriteBus(bc1, v) => if bc1 then v else Latched(events[..|events| - 1])
    case ResetAgain => 0
  }

  /** The byte last written to register k. */
  function Programmed(events: seq<Event>, k: nat): byte {
    if events == [] then 0 else
    var before := events[..|events| - 1];
    match events[|events| - 1]
    case TickOnce => Programmed(before, k)
    case WriteBus(bc1, v) => if !bc1 && Latched(before) == k then v else Programmed(before, k)
    case ResetAgain => 0
  }

  /** What register k keeps of a byte: four bits of the coarse tone periods and of the
      envelope shape, five of the noise period and the amplitudes, otherwise all. */
  function Kept(k: nat, v: byte): byte {
    if k in {1, 3, 5, 13} then v % 0x10 else if k in {6, 8, 9, 10} then v % 0x20 else v
  }

  function NonZero(period: nat): nat { if period == 0 then 1 else period }

  /** The state s is programmed by these bytes: each tone has a twelve-bit period of
      its own in registers 0 and 1, 2 and 3, or 4 and 5, fine byte first, and the set
      bits of register 7 switch off tone 0, 1, 2 and noise on channel 0, 1, 2. */
  predicate ProgrammedBy(s: State, r: seq<byte>)
    requires Shaped(s) && |r| == 16
  {
    && |s.reg| == 16 && |s.tone| == 3
    && (forall k :: 0 <= k < 16 ==> s.reg[k] == Kept(k, r[k]))
    && ToneProgrammed(s.tone[0], r[0], r[1], r[7], 0) && ToneProgrammed(s.tone[1], r[2], r[3], r[7], 1)
    && ToneProgrammed(s.tone[2], r[4], r[5], r[7], 2)
    && s.noise.period == NonZero(r[6] % 0x20) && s.env.period == NonZero(0x100 * (r[12] as int) + r[11])
  }

  predicate ToneProgrammed(t: Tone, fine: byte, coarse: byte, enable: byte, i: nat) {
    && t.period == NonZero(0x100 * (coarse as int % 0x10) + fine)
    && (t.toneDisable <==> IsSet(enable, i)) && (t.noiseDisable <==> IsSet(enable, 3 + i))
  }

  lemma MaskKeeps(k: nat, v: byte)
    ensures k < 16 ==> BitAnd(v, Mask(k)) == Kept(k, v)
  {
    hide BitAnd;
    NibbleMask(v);
    FiveBitMask(v);
    ByteMask(v);
  }

  lemma DisabledIsBit(reg: seq<byte>, k: nat)
    requires |reg| == 16 && k < 8
    ensures Disabled(reg, k) <==> IsSet(reg[7], k)
  {
    hide IsSet;
    OfByte(reg[7]);
    ShiftedBit(reg[7] as bv8, k);
    OneOrNot(((reg[7] as bv8) >> k) & 1);
  }

  lemma OneOrNot(b: bv8)
    ensures b == 1 <==> b as int == 1
  {
  }

  lemma UpdatedIsProgrammed(reg: seq<byte>, r: seq<byte>, i: nat, t: Tone)
    requires |reg| == |r| == 16 && i < 3 && forall k :: 0 <= k < 16 ==> reg[k] == Kept(k, r[k])
    ensures ToneProgrammed(Updated(reg, i, t), r[2 * i], r[2 * i + 1], r[7], i)
  {
    hide Disabled, IsSet;
    DisabledIsBit(reg, i);
    DisabledIsBit(reg, 3 + i);
  }

  lemma RecomputedIsProgrammed(s: State, r: seq<byte>)
    requires Shaped(s) && |r| == 16 && forall k :: 0 <= k < 16 ==> s.reg[k] == Kept(k, r[k])
    ensures ProgrammedBy(Recomputed(s), r)
  {
    hide Updated, ToneProgrammed;
    UpdatedIsProgrammed(s.reg, r, 0, s.tone[0]);
    UpdatedIsProgrammed(s.reg, r, 1, s.tone[1]);
    UpdatedIsProgrammed(s.reg, r, 2, s.tone[2]);
  }

  lemma TickKeepsProgram(s: State, r: seq<byte>)
    requires Shaped(s) && |r| == 16 && ProgrammedBy(s, r)
    ensures ProgrammedBy(Ticked(s), r) && Ticked(s).addr == s.addr
  {
    hide IsSet, TickNoise, TickEnvelope;
    TickKeepsPeriods(s);
  }

  lemma TickKeepsPeriods(s: State)
    requires Shaped(s)
    ensures TickNoise(s.noise).period == s.noise.period
    ensures TickEnvelope(s.env, s.reg[13]).period == s.env.period
  {
    hide Shape;
  }

  lemma StoreProgramsOne(s: State, r: seq<byte>, at: byte, v: byte)
    requires Shaped(s) && |r| == 16 && ProgrammedBy(s, r)
    ensures ProgrammedBy(Stored(s, at, v), if at < 16 then r[at := v] else r) && Stored(s, at, v).addr == s.addr
  {
    hide BitAnd, Mask, Recomputed, ToneProgrammed;
    if at < 16 {
      MaskKeeps(at, v);
      var q := s.(reg := s.reg[at := BitAnd(v, Mask(at))]);
      RecomputedIsProgrammed(q, r[at := v]);
      RecomputedKeeps(q);
    }
  }

  lemma RecomputedKeeps(s: State)
    requires Shaped(s)
    ensures Recomputed(s).addr == s.addr
  {
  }

  /** The bytes last written to the sixteen registers. */
  function Program(events: seq<Event>): (r: seq<byte>)
    ensures |r| == 16
  {
    seq(16, k requires 0 <= k < 16 => Programmed(events, k))
  }

  lemma EventPrograms(events: seq<Event>, e: Event)
    requires Shaped(Played(events)) && ProgrammedBy(Played(events), Program(events))
    requires Played(events).addr == Latched(events)
    ensures Shaped(After(Played(events), e))
    ensures ProgrammedBy(After(Played(events), e), Program(events + [e]))
    ensures After(Played(events), e).addr == Latched(events + [e])
  {
    hide Ticked, Stored, Recomputed, Played, ProgrammedBy;
    var s, r, all := Played(events), Program(events), events + [e];
    assert all[..|all| - 1] == events;
    match e {
      case TickOnce =>
        assert Program(all) == r;
        TickKeepsProgram(s, r);
      case WriteBus(bc1, v) =>
        if bc1 {
          assert Program(all) == r;
          AddressOnly(s, r, v);
        } else {
          assert Program(all) == if s.addr < 16 then r[s.addr := v] else r;
          StoreProgramsOne(s, r, s.addr, v);
        }
      case ResetAgain =>
        ResetPrograms(s, Program(all));
    }
  }

  lemma AddressOnly(s: State, r: seq<byte>, v: byte)
    requires Shaped(s) && |r| == 16 && ProgrammedBy(s, r)
    ensures ProgrammedBy(s.(addr := v), r)
  {
    hide ToneProgrammed;
  }

  lemma ResetPrograms(s: State, r: seq<byte>)
    requires Shaped(s) && |r| == 16 && forall k :: 0 <= k < 16 ==> r[k] == 0
    ensures ProgrammedBy(AfterReset(s), r) && AfterReset(s).addr == 0
  {
    hide Recomputed, ToneProgrammed;
    var q := s.(addr := 0, tick := 0, reg := seq(NUM_REGISTERS, _ => 0));
    RecomputedIsProgrammed(q, r);
    RecomputedKeeps(q);
  }

  /** After any run, every register, period and switch is what was last programmed. */
  lemma {:induction false} RunIsProgrammed(events: seq<Event>)
    ensures ProgrammedBy(Played(events), Program(events)) && Played(events).addr == Latched(events)
  {
    hide After, ProgrammedBy;
    if events == [] {
      PowerOnIsProgrammed(Program([]));
    } else {
      var before, e := events[..|events| - 1], events[|events| - 1];
      assert before + [e] == events;
      RunIsProgrammed(before);
      EventPrograms(before, e);
    }
  }

  lemma PowerOnIsProgrammed(r: seq<byte>)
    requires |r| == 16 && forall k :: 0 <= k < 16 ==> r[k] == 0
    ensures ProgrammedBy(PowerOn(), r)
  {
    hide IsSet;
    forall k: nat ensures !IsSet(0, k) { ZeroHasNoBit(k); }
  }

  // ---------------------------------------------------------------- the square wave

  function ToneTicks(t: Tone, n: nat): Tone { if n == 0 then t else TickTone(ToneTicks(t, n - 1)) }

  /** How far a counter is into the running half wave; one past a period that has been
      lowered counts as being at its end. */
  function Phase(t: Tone): (p: word)
    requires t.period > 0
    ensures p < t.period
  {
    if t.counter < t.period then t.counter else t.period - 1
  }

  /** The tone t with q half waves complete and r ticks of the next one. */
  function Wave(t: Tone, q: nat, r: word): Tone {
    var bit := if q % 2 == 0 then t.bit else !t.bit;
    t.(counter := r, bit := bit)
  }

  lemma TickOfWave(t: Tone, q: nat, r: word)
    requires r < t.period
    ensures TickTone(Wave(t, q, r)) == if r + 1 < t.period then Wave(t, q, r + 1) else Wave(t, q + 1, 0)
  {
  }

  /** The output flips each time `period` ticks of the channel are complete: after n
      ticks q half waves are, where q is the quotient of the ticks by the period. */
  lemma {:induction false} SquareWave(t: Tone, n: nat) returns (q: nat, r: word)
    requires t.period > 0 && n > 0
    ensures ToneTicks(t, n) == Wave(t, q, r) && r < t.period && Phase(t) + n == t.period * q + r
  {
    hide Wave, TickTone, Phase;
    if n > 1 {
      q, r := SquareWave(t, n - 1);
      TickOfWave(t, q, r);
    } else {
      q, r := 0, Phase(t);
      FirstTick(t);
    }
    q, r := NextOf(t.period, q, r);
  }

  lemma NextOf(p: word, q: nat, r: word) returns (q': nat, r': word)
    requires r < p
    ensures (q', r') == if r + 1 < p then (q, r + 1) else (q + 1, 0)
    ensures p * q' + r' == p * q + r + 1 && r' < p
  {
    if r + 1 < p { return q, r + 1; }
    assert p * (q + 1) == p * q + p;
    return q + 1, 0;
  }

  lemma FirstTick(t: Tone)
    requires t.period > 0
    ensures ToneTicks(t, 1) == TickTone(t)
    ensures TickTone(t) == if Phase(t) + 1 < t.period then Wave(t, 0, Phase(t) + 1) else Wave(t, 1, 0)
  {
    assert ToneTicks(t, 0) == t;
  }

  /** n ticks of the chip. */
  function TicksFrom(s: State, n: nat): (r: State)
    requires Shaped(s)
    ensures Shaped(r)
  {
    if n == 0 then s else Ticked(TicksFrom(s, n - 1))
  }

  /** While nothing is written, a channel is ticked on every eighth tick of the chip, so
      that its output flips every 8 * period ticks. */
  lemma {:induction false} ToneOfRun(s: State, n: nat, i: nat)
    requires Shaped(s) && 0 <= s.tick < 0x1_0000_0000 && i < 3
    ensures TicksFrom(s, n).tick == (s.tick + n) % 0x1_0000_0000
    ensures TicksFrom(s, n).tone[i] == ToneTicks(s.tone[i], (s.tick % 8 + n) / 8)
  {
    hide TickTone, TickNoise, TickEnvelope;
    if n > 0 {
      ToneOfRun(s, n - 1, i);
      EighthTick(s.tick, n);
    }
  }

  lemma EighthTick(tick: nat, n: nat)
    requires n > 0
    ensures ((tick + n - 1) % 0x1_0000_0000 + 1) % 0x1_0000_0000 == (tick + n) % 0x1_0000_0000
    ensures (tick % 8 + n) / 8 ==
            (tick % 8 + n - 1) / 8 + if (tick + n) % 0x1_0000_0000 % 8 == 0 then 1 else 0
  {
    var x := tick + n;
    Wrapping(x);
    assert x % 8 == (tick % 8 + n) % 8;
    NextEighth(tick % 8 + n);
  }

  lemma Wrapping(x: nat)
    requires x > 0
    ensures ((x - 1) % 0x1_0000_0000 + 1) % 0x1_0000_0000 == x % 0x1_0000_0000
    ensures x % 0x1_0000_0000 % 8 == x % 8
  {
    var k, y := x / 0x1_0000_0000, x % 0x1_0000_0000;
    EighthOfSum(0x2000_0000 * k, y);
    Arithmetic.DivMod(x - 1, 0x1_0000_0000, if y == 0 then k - 1 else k, if y == 0 then 0xFFFF_FFFF else y - 1);
  }

  lemma EighthOfSum(k: nat, y: nat)
    ensures (8 * k + y) % 8 == y % 8
  {
  }

  lemma NextEighth(a: nat)
    requires a > 0
    ensures a / 8 == (a - 1) / 8 + if a % 8 == 0 then 1 else 0
  {
  }
}
