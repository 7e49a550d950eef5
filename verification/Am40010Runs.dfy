/** Whole runs of the gate array: its signals and its picture as functions of what it
    is fed, and what holds of every run. */
module Am40010Runs {
  import opened Words
  import opened Am40010

  function Run(s: Signals, inputs: seq<Input>): Signals
    decreases |inputs|
  {
    if inputs == [] then s else AfterInput(Run(s, inputs[..|inputs| - 1]), inputs[|inputs| - 1])
  }

  lemma RunOfPrefix(s: Signals, inputs: seq<Input>, k: nat)
    requires k < |inputs|
    ensures Run(s, inputs[..k + 1]) == AfterInput(Run(s, inputs[..k]), inputs[k])
  {
    hide AfterInput;
    assert inputs[..k + 1][..k] == inputs[..k];
  }

  lemma {:induction false} RunAdd(s: Signals, a: seq<Input>, b: seq<Input>)
    ensures Run(s, a + b) == Run(Run(s, a), b)
    decreases |b|
  {
    hide AfterInput;
    if b == [] {
      assert a + b == a;
    } else {
      RunAdd(s, a, b[..|b| - 1]);
      assert (a + b)[..|a + b| - 1] == a + b[..|b| - 1];
    }
  }

  // ---------------------------------------------------------------- interrupts

  predicate FallsAt(s: Signals, input: Input) { TakesPins(s, input) && Falls(s.pins.hs, input.next.hs) }

  predicate SetsAt(s: Signals, input: Input) { TakesPins(s, input) && SetBy(s.video, s.pins, input.next) }

  /** HSYNC falling edges among the pins taken over in a run. */
  function Edges(s: Signals, inputs: seq<Input>): nat
    decreases |inputs|
  {
    if inputs == [] then 0 else
    var before := inputs[..|inputs| - 1];
    Edges(s, before) + if FallsAt(Run(s, before), inputs[|inputs| - 1]) then 1 else 0
  }

  /** The numbers of those that set the flip-flop. */
  function Settings(s: Signals, inputs: seq<Input>): seq<nat>
    decreases |inputs|
  {
    if inputs == [] then [] else
    var before := inputs[..|inputs| - 1];
    Settings(s, before) + if SetsAt(Run(s, before), inputs[|inputs| - 1]) then [Edges(s, inputs)] else []
  }

  /** They are at least 32 apart, and the last is at least `intcnt` edges back. */
  predicate Spaced(settings: seq<nat>, edges: nat, intcnt: nat) {
    && (forall i :: 0 <= i < |settings| - 1 ==> settings[i] + 32 <= settings[i + 1])
    && (settings != [] ==> settings[|settings| - 1] + intcnt <= edges)
  }

  /** The flip-flop rises only where it is set. */
  lemma RiseIsSetting(s: Signals, input: Input)
    requires !s.video.intr && AfterInput(s, input).video.intr
    ensures SetsAt(s, input)
  {
  }

  /** What an input does to the interrupt counter. */
  lemma CounterAfter(s: Signals, input: Input)
    requires s.video.intcnt <= 51
    ensures var t := AfterInput(s, input);
            && t.video.intcnt <= 51
            && (SetsAt(s, input) ==> FallsAt(s, input) && s.video.intcnt + 1 >= 32 && t.video.intcnt == 0)
            && (!SetsAt(s, input) ==> t.video.intcnt <= s.video.intcnt + if FallsAt(s, input) then 1 else 0)
  {
  }

  lemma SpacingGoesOn(settings: seq<nat>, edges: nat, s: Signals, input: Input)
    requires Spaced(settings, edges, s.video.intcnt) && s.video.intcnt <= 51
    ensures var all := edges + if FallsAt(s, input) then 1 else 0;
            Spaced(settings + if SetsAt(s, input) then [all] else [], all, AfterInput(s, input).video.intcnt)
  {
    hide AfterInput, SetsAt, FallsAt;
    CounterAfter(s, input);
  }

  /** For every pin stream, acknowledge pattern, register write and reset. */
  lemma {:induction false} RunIsSpaced(s: Signals, inputs: seq<Input>)
    requires s.video.intcnt <= 51
    ensures Run(s, inputs).video.intcnt <= 51
    ensures Spaced(Settings(s, inputs), Edges(s, inputs), Run(s, inputs).video.intcnt)
    decreases |inputs|
  {
    hide AfterInput, SetsAt, FallsAt, Spaced;
    if inputs == [] {
      NoneIsSpaced(s.video.intcnt);
    } else {
      var before, input := inputs[..|inputs| - 1], inputs[|inputs| - 1];
      RunIsSpaced(s, before);
      CounterAfter(Run(s, before), input);
      SpacingGoesOn(Settings(s, before), Edges(s, before), Run(s, before), input);
    }
  }

  lemma NoneIsSpaced(intcnt: nat)
    ensures Spaced([], 0, intcnt)
  {
  }

  lemma {:induction false} AnyTwoSettings(settings: seq<nat>, edges: nat, intcnt: nat, i: nat, j: nat)
    requires Spaced(settings, edges, intcnt) && i < j < |settings|
    ensures settings[i] + 32 * (j - i) <= settings[j]
  {
    if i + 1 < j { AnyTwoSettings(settings, edges, intcnt, i, j - 1); }
    assert settings[j - 1] + 32 <= settings[j - 1 + 1];
  }

  lemma {:induction false} SettingsGrow(s: Signals, inputs: seq<Input>, k: nat)
    requires k <= |inputs|
    ensures Settings(s, inputs[..k]) <= Settings(s, inputs)
    decreases |inputs|
  {
    hide SetsAt;
    if k == |inputs| {
      assert inputs[..k] == inputs;
    } else {
      var before := inputs[..|inputs| - 1];
      SettingsGrow(s, before, k);
      assert before[..k] == inputs[..k];
    }
  }

  /** The setting that input i makes. */
  lemma SettingOf(s: Signals, inputs: seq<Input>, i: nat)
    requires i < |inputs| && SetsAt(Run(s, inputs[..i]), inputs[i])
    ensures Settings(s, inputs[..i + 1]) == Settings(s, inputs[..i]) + [Edges(s, inputs[..i + 1])]
    ensures |Settings(s, inputs[..i])| < |Settings(s, inputs)|
    ensures Settings(s, inputs)[|Settings(s, inputs[..i])|] == Edges(s, inputs[..i + 1])
  {
    hide SetsAt;
    assert inputs[..i + 1][..i] == inputs[..i];
    SettingsGrow(s, inputs, i + 1);
  }

  /** For every pin stream, acknowledge pattern, register write and reset: between any
      two inputs that set the flip-flop there are at least 32 HSYNC falling edges. */
  lemma InterruptsAreApart(s: Signals, inputs: seq<Input>, i: nat, j: nat)
    requires s.video.intcnt <= 51 && i < j < |inputs|
    requires SetsAt(Run(s, inputs[..i]), inputs[i]) && SetsAt(Run(s, inputs[..j]), inputs[j])
    ensures Edges(s, inputs[..i + 1]) + 32 <= Edges(s, inputs[..j + 1])
  {
    hide SetsAt, Run, Edges, Settings, Spaced;
    RunIsSpaced(s, inputs);
    SettingOf(s, inputs, i);
    SettingOf(s, inputs, j);
    SettingsGrow(s, inputs[..j], i + 1);
    assert inputs[..j][..i + 1] == inputs[..i + 1];
    AnyTwoSettings(Settings(s, inputs), Edges(s, inputs), Run(s, inputs).video.intcnt,
                   |Settings(s, inputs[..i])|, |Settings(s, inputs[..j])|);
  }

  // ---------------------------------------------------------------- the HSYNC counter

  /** HSYNC falling edges taken over since the last VSYNC rise or reset; those before
      the run are the ones its first state has counted. */
  function FallsSince(s: Signals, inputs: seq<Input>): nat
    decreases |inputs|
  {
    if inputs == [] then s.video.hscount else
    var before, input := inputs[..|inputs| - 1], inputs[|inputs| - 1];
    var t := Run(s, before);
    if input == Again then 0 else
    (if TakesPins(t, input) && Rises(t.pins.vs, input.next.vs) then 0 else FallsSince(s, before))
    + if FallsAt(t, input) then 1 else 0
  }

  lemma HscountAfter(s: Signals, input: Input)
    ensures AfterInput(s, input).video.hscount ==
              if input == Again then 0 else
              (if TakesPins(s, input) && Rises(s.pins.vs, input.next.vs) then 0 else s.video.hscount)
              + if FallsAt(s, input) then 1 else 0
  {
  }

  /** `hscount` is that number; so it fits the five bits it is documented to have if
      and only if fewer than 32 lines have gone by since the last VSYNC or reset. */
  lemma {:induction false} HscountCounts(s: Signals, inputs: seq<Input>)
    ensures Run(s, inputs).video.hscount == FallsSince(s, inputs)
    ensures Run(s, inputs).video.hscount < 0x20 <==> FallsSince(s, inputs) < 0x20
    decreases |inputs|
  {
    hide AfterInput, FallsAt, TakesPins;
    if inputs != [] {
      HscountCounts(s, inputs[..|inputs| - 1]);
      HscountAfter(Run(s, inputs[..|inputs| - 1]), inputs[|inputs| - 1]);
    }
  }

  function PowerOn(): Signals {
    Signals(0, CrtcPins(false, false, false, 0, 0), 0, Video(0, 0, 0, 0, false, false),
            Crt(0, 0, 0, 0, 0, 0, 0, false, false, false, false))
  }

  /** A microsecond of HSYNC high or low, VSYNC low all along. */
  function Hold(hs: bool): seq<Input> {
    var tick := Clock(false, CrtcPins(hs, false, false, 0, 0));
    [tick, tick, tick, tick]
  }

  /** The sequencer has just taken pins over, with HSYNC as given and VSYNC low. */
  predicate Aligned(s: Signals, hs: bool) {
    0 <= s.seqTickCount < 0x1_0000_0000 && s.seqTickCount % 4 == 3 && s.pins.hs == hs && !s.pins.vs
  }

  /** One tick without an acknowledge, VSYNC staying low. */
  lemma OneTick(s: Signals, hs: bool)
    requires 0 <= s.seqTickCount < 0x1_0000_0000 && !s.pins.vs
    ensures var t := AfterInput(s, Clock(false, CrtcPins(hs, false, false, 0, 0)));
            && 0 <= t.seqTickCount < 0x1_0000_0000 && t.seqTickCount % 4 == (s.seqTickCount + 1) % 4 && !t.pins.vs
            && t.pins.hs == (if t.seqTickCount % 4 == 3 then hs else s.pins.hs)
            && t.video.hscount == s.video.hscount + if t.seqTickCount % 4 == 3 && s.pins.hs && !hs then 1 else 0
  {
    hide NextBeam, Synced, Cleared, Counted;
    HscountAfter(s, Clock(false, CrtcPins(hs, false, false, 0, 0)));
  }

  lemma HoldTakes(s: Signals, was: bool, hs: bool)
    requires Aligned(s, was)
    ensures Aligned(Run(s, Hold(hs)), hs)
    ensures Run(s, Hold(hs)).video.hscount == s.video.hscount + if was && !hs then 1 else 0
  {
    hide Run, AfterInput;
    var in4 := Hold(hs);
    RunOfPrefix(s, in4, 0);
    RunOfPrefix(s, in4, 1);
    RunOfPrefix(s, in4, 2);
    RunOfPrefix(s, in4, 3);
    assert in4[..0] == [] && in4[..4] == in4;
    NothingFed(s);
    OneTick(s, hs);
    OneTick(Run(s, in4[..1]), hs);
    OneTick(Run(s, in4[..2]), hs);
    OneTick(Run(s, in4[..3]), hs);
  }

  lemma NothingFed(s: Signals)
    ensures Run(s, []) == s
  {
  }

  /** n HSYNC pulses with no VSYNC. */
  function Pulses(n: nat): seq<Input> {
    if n == 0 then Hold(false)[1..] else Pulses(n - 1) + Hold(true) + Hold(false)
  }

  lemma {:induction false} PulsesCount(n: nat)
    ensures Aligned(Run(PowerOn(), Pulses(n)), false) && Run(PowerOn(), Pulses(n)).video.hscount == n
  {
    hide Aligned, Run, Hold;
    if n == 0 {
      FirstPins();
    } else {
      PulsesCount(n - 1);
      var s := Run(PowerOn(), Pulses(n - 1));
      RunAdd(PowerOn(), Pulses(n - 1) + Hold(true), Hold(false));
      RunAdd(PowerOn(), Pulses(n - 1), Hold(true));
      HoldTakes(s, false, true);
      HoldTakes(Run(s, Hold(true)), true, false);
    }
  }

  lemma FirstPins()
    ensures Aligned(Run(PowerOn(), Pulses(0)), false) && Run(PowerOn(), Pulses(0)).video.hscount == 0
  {
    hide Run, AfterInput;
    var in3 := Pulses(0);
    RunOfPrefix(PowerOn(), in3, 0);
    RunOfPrefix(PowerOn(), in3, 1);
    RunOfPrefix(PowerOn(), in3, 2);
    assert in3[..0] == [] && in3[..3] == in3;
    NothingFed(PowerOn());
    OneTick(PowerOn(), false);
    OneTick(Run(PowerOn(), in3[..1]), false);
    OneTick(Run(PowerOn(), in3[..2]), false);
  }

  /** After 32 pulses the counter is past its five bits. */
  lemma FiveBitsExceeded()
    ensures Run(PowerOn(), Pulses(32)).video.hscount == 0x20
  {
    PulsesCount(32);
  }

  // ---------------------------------------------------------------- the picture

  function PictureRun(s: Signals, p: Picture, ram: Ram, inputs: seq<Input>): (q: Picture)
    requires Framed(p) && p.inksel < 0x20
    ensures Framed(q) && q.inksel < 0x20
    decreases |inputs|
  {
    if inputs == [] then p else
    var before := inputs[..|inputs| - 1];
    AfterPicture(Run(s, before), PictureRun(s, p, ram, before), ram, inputs[|inputs| - 1])
  }

  /** Byte j is in the window of 768 by 272 pixels. */
  predicate InWindow(j: nat) { j % 1024 < 768 && j / 1024 < 272 }

  lemma BeamAfter(s: Signals, input: Input)
    requires OnRaster(s.crt)
    ensures OnRaster(AfterInput(s, input).crt)
  {
    hide OnRaster, NextBeam, Synced, Counted, Cleared;
    if input.Clock? {
      BeamStaysOnRaster(s.crt, Synced(Counted(s.video, s.pins, input.next), input.next, s.config % 4).sync);
    }
  }

  lemma {:induction false} BeamStaysOn(s: Signals, inputs: seq<Input>)
    requires OnRaster(s.crt)
    ensures OnRaster(Run(s, inputs).crt)
    decreases |inputs|
  {
    hide OnRaster, AfterInput;
    if inputs != [] {
      BeamStaysOn(s, inputs[..|inputs| - 1]);
      BeamAfter(Run(s, inputs[..|inputs| - 1]), inputs[|inputs| - 1]);
    }
  }

  /** One input paints inside the window only, unless it is the debug picture. */
  lemma PaintsInWindow(s: Signals, p: Picture, ram: Ram, input: Input, j: nat)
    requires Framed(p) && p.inksel < 0x20 && OnRaster(s.crt) && j < WIDTH * HEIGHT && !InWindow(j)
    requires !p.dbgVis && input != Debug(true)
    ensures var q := AfterPicture(s, p, ram, input); q.fb[j] == p.fb[j] && !q.dbgVis
  {
    hide VidRead, Painting, Visualized;
    var b := s.crt;
    if b.visible { OutsideSpan(b.posX, b.posY, j); }
  }

  lemma OutsideSpan(x: nat, y: nat, j: nat)
    requires x < 48 && y < 272 && !InWindow(j)
    ensures !(y * WIDTH + x * 16 <= j < y * WIDTH + x * 16 + 16)
  {
  }

  /** In a run without debug switching no byte outside the window ever changes. */
  lemma {:induction false} OnlyWindowIsPainted(s: Signals, p: Picture, ram: Ram, inputs: seq<Input>, j: nat)
    requires Framed(p) && p.inksel < 0x20 && OnRaster(s.crt) && j < WIDTH * HEIGHT && !InWindow(j)
    requires !p.dbgVis && Debug(true) !in inputs
    ensures var q := PictureRun(s, p, ram, inputs); q.fb[j] == p.fb[j] && !q.dbgVis
    decreases |inputs|
  {
    hide AfterPicture, OnRaster, AfterInput, InWindow;
    if inputs != [] {
      var before := inputs[..|inputs| - 1];
      OnlyWindowIsPainted(s, p, ram, before, j);
      BeamStaysOn(s, before);
      PaintsInWindow(Run(s, before), PictureRun(s, p, ram, before), ram, inputs[|inputs| - 1], j);
    }
  }

  // ---------------------------------------------------------------- the chip

  method Feed(ga: GateArray, input: Input)
    requires ga.Valid()
    modifies ga, ga.ink, ga.latch, ga.fb
    ensures ga.Valid() && ga.Now() == AfterInput(old(ga.Now()), input)
    ensures ga.Shown() == AfterPicture(old(ga.Now()), old(ga.Shown()), ga.ram, input)
  {
    hide OnRaster, NextBeam, Synced, Counted, Cleared, PaintedBy, VidRead, Written;
    match input
    case Clock(intAck, next) => var _, _ := ga.Tick(intAck, next);
    case Request(a13, a14, a15, wr, data) => ga.Iorq(a13, a14, a15, wr, data);
    case Again => ga.Reset();
    case Debug(on) => ga.dbgVis := on;
  }

  /** Any run of the chip: its signals and its picture are those the inputs spell out,
      every two settings of the interrupt flip-flop are at least 32 HSYNC falling edges
      apart, the beam is on the raster, the framebuffer holds palette indices, and
      without debug switching nothing outside the window is painted. */
  method Play(ga: GateArray, inputs: seq<Input>)
    requires ga.Valid()
    modifies ga, ga.ink, ga.latch, ga.fb
    ensures ga.Valid() && ga.Now() == Run(old(ga.Now()), inputs)
    ensures ga.Shown() == PictureRun(old(ga.Now()), old(ga.Shown()), ga.ram, inputs)
    ensures var settings := Settings(old(ga.Now()), inputs);
            forall i, j :: 0 <= i < j < |settings| ==> settings[i] + 32 <= settings[j]
    ensures ga.video.intcnt <= 51 && ga.crt.hPos < 64 && ga.crt.vPos < HEIGHT
    ensures forall i :: 0 <= i < ga.fb.Length ==> ga.fb[i] < COLORS
    ensures !old(ga.dbgVis) && Debug(true) !in inputs ==>
              forall j: nat :: j < ga.fb.Length && !InWindow(j) ==> ga.fb[j] == old(ga.fb[j])
  {
    hide OnRaster, AfterInput, AfterPicture, Settings, InWindow;
    ghost var s, p := ga.Now(), ga.Shown();
    for k := 0 to |inputs|
      invariant ga.Valid() && ga.Now() == Run(s, inputs[..k])
      invariant ga.Shown() == PictureRun(s, p, ga.ram, inputs[..k])
    {
      assert inputs[..k + 1][..k] == inputs[..k];
      Feed(ga, inputs[k]);
    }
    assert inputs[..|inputs|] == inputs;
    SettingsAreApart(s, inputs);
    BeamIsInside(ga.crt);
    if !p.dbgVis && Debug(true) !in inputs {
      forall j: nat | j < ga.fb.Length && !InWindow(j) ensures ga.fb[j] == p.fb[j] {
        OnlyWindowIsPainted(s, p, ga.ram, inputs, j);
      }
    }
  }

  lemma SettingsAreApart(s: Signals, inputs: seq<Input>)
    requires s.video.intcnt <= 51
    ensures var settings := Settings(s, inputs);
            forall i, j :: 0 <= i < j < |settings| ==> settings[i] + 32 <= settings[j]
  {
    hide Run, Edges, Settings, Spaced;
    RunIsSpaced(s, inputs);
    var settings := Settings(s, inputs);
    forall i, j | 0 <= i < j < |settings| ensures settings[i] + 32 <= settings[j] {
      AnyTwoSettings(settings, Edges(s, inputs), Run(s, inputs).video.intcnt, i, j);
    }
  }

  lemma BeamIsInside(b: Crt)
    requires OnRaster(b)
    ensures b.hPos < 64 && b.vPos < HEIGHT
  {
  }
}
