/** The Amstrad CPC gate array: interrupt counter, synchronisation, the beam of the
    picture tube it drives, and the framebuffer the beam paints. */
module Am40010 {
  import opened Words

  const WIDTH: nat := 1024
  const HEIGHT: nat := 312
  const COLORS: nat := 64
  const BLACK: byte := 63

  /** The pins of the CRTC the gate array looks at. */
  datatype CrtcPins = CrtcPins(hs: bool, vs: bool, de: bool, ma: word, ra: byte)

  datatype Video = Video(hscount: nat, intcnt: nat, clkcnt: nat, mode: nat, sync: bool, intr: bool)

  datatype Crt = Crt(posX: nat, posY: nat, syncCount: nat, hPos: nat, vPos: nat, hRetrace: nat, vRetrace: nat,
                     visible: bool, sync: bool, hBlank: bool, vBlank: bool)

  predicate Falls(was: bool, now: bool) { was && !now }
  predicate Rises(was: bool, now: bool) { !was && now }

  // ---------------------------------------------------------------- interrupts

  /** The interrupt counter at an HSYNC falling edge: it counts, and asks for an
      interrupt at 52, or at the second HSYNC of a VSYNC if it is halfway. */
  function AtEdge(v: Video): Video {
    var hs, n := v.hscount + 1, (v.intcnt + 1) % 0x40;
    if hs == 2 then v.(hscount := hs, intcnt := 0, intr := v.intr || n >= 32)
    else if n == 52 then v.(hscount := hs, intcnt := 0, intr := true)
    else v.(hscount := hs, intcnt := n)
  }

  /** Whether that edge sets the interrupt flip-flop. */
  predicate Sets(v: Video) {
    var n := (v.intcnt + 1) % 0x40;
    if v.hscount + 1 == 2 then n >= 32 else n == 52
  }

  /** The counter and the flip-flop after the IRQ-reset bit and an acknowledge. */
  function Cleared(v: Video, config: byte, intAck: bool): Video {
    var w := if config / 0x10 % 2 == 1 then v.(intcnt := 0, intr := false) else v;
    if intAck && w.intr then w.(intcnt := w.intcnt % 0x20, intr := false) else w
  }

  function Counted(v: Video, was: CrtcPins, now: CrtcPins): Video {
    var w := AtVsync(v, was, now);
    if Falls(was.hs, now.hs) then AtEdge(w) else w
  }

  /** A VSYNC restarts the count of HSYNCs. */
  function AtVsync(v: Video, was: CrtcPins, now: CrtcPins): Video {
    if Rises(was.vs, now.vs) then v.(hscount := 0) else v
  }

  /** The pins set the flip-flop. */
  predicate SetBy(v: Video, was: CrtcPins, now: CrtcPins) {
    Falls(was.hs, now.hs) && Sets(AtVsync(v, was, now))
  }

  function Synced(v: Video, now: CrtcPins, mode: nat): Video {
    var c := if !now.hs then 0 else if v.clkcnt < 8 then v.clkcnt + 1 else v.clkcnt;
    v.(mode := if v.clkcnt == 7 then mode else v.mode, clkcnt := c, sync := 2 < c < 7 || v.hscount < 4)
  }

  // ---------------------------------------------------------------- the beam

  const VIS_X0: nat := 6
  const VIS_X1: nat := 54
  const VIS_Y0: nat := 32
  const VIS_Y1: nat := 304

  /** The beam stays on its raster, and where it is visible it is in the window. */
  predicate OnRaster(b: Crt) {
    && b.hPos < 64 && b.vPos < HEIGHT
    && b.visible == (VIS_X0 <= b.hPos < VIS_X1 && VIS_Y0 <= b.vPos < VIS_Y1)
    && (b.visible ==> b.posX == b.hPos - VIS_X0 && b.posY == b.vPos - VIS_Y0)
  }

  /** Retrace counters after a pulse that has just been seen. */
  function Retraced(b: Crt, sync: bool): Crt {
    var raised := sync && !b.sync;
    var count := if raised then 0 else if sync then b.syncCount + 1 else b.syncCount;
    var c := b.(sync := sync, syncCount := count,
                hRetrace := if raised then 7 else b.hRetrace, hBlank := raised || b.hBlank);
    if count == 64 then c.(vRetrace := 3, vBlank := true) else c
  }

  /** A line ends at its 64th position, or when the horizontal retrace is over. */
  predicate LineEnds(b: Crt) { b.hPos + 1 == 64 || b.hRetrace == 1 }

  function MovedAcross(b: Crt): Crt {
    var blank := b.hBlank && b.hPos + 1 != 6;
    b.(hPos := if LineEnds(b) then 0 else b.hPos + 1, hRetrace := if b.hRetrace > 0 then b.hRetrace - 1 else 0,
       hBlank := blank)
  }

  /** At the end of a line. A frame ends with line 312, or when the vertical retrace
      is over. */
  function MovedDown(b: Crt): Crt {
    var blank := b.vBlank && b.vPos + 1 != 5;
    b.(vPos := if b.vPos + 1 == HEIGHT || b.vRetrace == 1 then 0 else b.vPos + 1,
       vRetrace := if b.vRetrace > 0 then b.vRetrace - 1 else 0,
       vBlank := blank)
  }

  function Moved(b: Crt): Crt { if LineEnds(b) then MovedDown(MovedAcross(b)) else MovedAcross(b) }

  function Seen(b: Crt): Crt {
    if VIS_X0 <= b.hPos < VIS_X1 && VIS_Y0 <= b.vPos < VIS_Y1
    then b.(visible := true, posX := b.hPos - VIS_X0, posY := b.vPos - VIS_Y0)
    else b.(visible := false)
  }

  function NextBeam(b: Crt, sync: bool): Crt { Seen(Moved(Retraced(b, sync))) }

  lemma BeamStaysOnRaster(b: Crt, sync: bool)
    requires OnRaster(b)
    ensures OnRaster(NextBeam(b, sync))
  {
  }

  // ---------------------------------------------------------------- pixels

  function At(c: bv8, k: nat): bv8 requires k < 8 { (c >> k) & 1 }

  /** Two or four bits of a video byte, the most significant first. */
  function Bits2(c: bv8, j: nat, k: nat): bv8 requires j < 8 && k < 8 { (At(c, j) << 1) | At(c, k) }
  function Bits4(c: bv8, j: nat, k: nat, l: nat, m: nat): bv8
    requires j < 8 && k < 8 && l < 8 && m < 8
  {
    (Bits2(c, j, k) << 2) | Bits2(c, l, m)
  }

  /** The documented bit masks: which bits of a video byte make up the pen of its
      pixel i. */
  function Pen(mode: nat, c: bv8, i: nat): bv8
    requires i < 8
  {
    match mode
    case 0 => if i < 4 then Bits4(c, 1, 5, 3, 7) else Bits4(c, 0, 4, 2, 6)
    case 1 => Bits2(c, 3 - i / 2, 7 - i / 2)
    case 2 => At(c, 7 - i)
    case _ => if i < 4 then Bits2(c, 3, 7) else Bits2(c, 2, 6)
  }

  // The shifts and masks the decoder computes pens with.

  lemma PensOfMode0(c: bv8)
    ensures ((c >> 7) & 1) | ((c >> 2) & 2) | ((c >> 3) & 4) | ((c << 2) & 8) == Bits4(c, 1, 5, 3, 7)
    ensures ((c >> 6) & 1) | ((c >> 1) & 2) | ((c >> 2) & 4) | ((c << 3) & 8) == Bits4(c, 0, 4, 2, 6)
  {
  }

  lemma PensOfMode1(c: bv8)
    ensures ((c >> 2) & 2) | ((c >> 7) & 1) == Bits2(c, 3, 7) && ((c >> 1) & 2) | ((c >> 6) & 1) == Bits2(c, 2, 6)
    ensures (c & 2) | ((c >> 5) & 1) == Bits2(c, 1, 5) && ((c << 1) & 2) | ((c >> 4) & 1) == Bits2(c, 0, 4)
  {
  }

  // ---------------------------------------------------------------- the picture

  /** The registers, the video bytes and the framebuffer the picture is made of. */
  datatype Picture = Picture(dbgVis: bool, inksel: byte, border: byte, ink: seq<byte>, latch: seq<bv8>, fb: seq<byte>)

  predicate Framed(p: Picture) { |p.ink| == 16 && |p.latch| == 2 && |p.fb| == WIDTH * HEIGHT }

  function Ink(ink: seq<byte>, pen: bv8): byte
    requires |ink| == 16
  {
    ink[(pen % 16) as int]
  }

  /** The colour of pixel i of a video byte. */
  function Color(ink: seq<byte>, mode: nat, c: bv8, i: nat): byte
    requires |ink| == 16 && i < 8
  {
    Ink(ink, Pen(mode, c, i))
  }

  /** The sixteen pixels of the two video bytes. */
  function Pixel(p: Picture, mode: nat, i: nat): byte
    requires Framed(p) && i < 16
  {
    Color(p.ink, mode, p.latch[i / 8], i % 8)
  }

  /** What the beam paints where it is visible. */
  function Painting(p: Picture, v: Video, pins: CrtcPins, i: nat): byte
    requires Framed(p) && i < 16
  {
    if pins.de then Pixel(p, v.mode, i) else if v.sync then BLACK else p.border
  }

  /** The palette index that shows the signals in the debug picture. */
  function SignalColor(v: Video, pins: CrtcPins): (c: byte)
    ensures 0x20 <= c < 0x30
  {
    0x20 + Bit(pins.hs) + 2 * Bit(pins.vs) + 4 * Bit(v.sync) + 8 * Bit(v.intr)
  }

  /** The byte k places after the first of the debug picture's sixteen, once the first
      n of them are done. Every other pair shows the signals, brightly, and sixteen
      places back they are dimmed again; at the start of the framebuffer at once. */
  function Signalled(was: byte, k: int, n: nat, start: bool, c: byte, de: bool): byte
    requires c < 0xF0
  {
    if 0 <= k < n then
      if k / 2 % 2 == 0 then (if start then c else c + 0x10) else if de then was else BLACK
    else if -16 <= k < n - 16 && (k + 16) / 2 % 2 == 0 then BitXor(was, 0x10)
    else was
  }

  function Visualized(p: Picture, v: Video, pins: CrtcPins, dst: nat, j: nat): byte
    requires Framed(p) && j < |p.fb|
  {
    var pixel := if pins.de && dst <= j < dst + 16 then Pixel(p, v.mode, j - dst) else p.fb[j];
    Signalled(pixel, j - dst, 16, dst == 0, SignalColor(v, pins), pins.de)
  }

  /** Byte j of the framebuffer after the beam has been at b. */
  function PaintedByte(p: Picture, v: Video, b: Crt, pins: CrtcPins, j: nat): byte
    requires Framed(p) && j < |p.fb|
  {
    if p.dbgVis then Visualized(p, v, pins, b.vPos * WIDTH + b.hPos * 16, j)
    else
      var dst := b.posY * WIDTH + b.posX * 16;
      if b.visible && dst <= j < dst + 16 then Painting(p, v, pins, j - dst) else p.fb[j]
  }

  function PaintedBy(p: Picture, v: Video, b: Crt, pins: CrtcPins): (q: Picture)
    requires Framed(p)
    ensures Framed(q)
  {
    p.(fb := seq(WIDTH * HEIGHT, j requires 0 <= j < WIDTH * HEIGHT => PaintedByte(p, v, b, pins, j)))
  }

  /** The address made of MA13-12, RA2-0, MA9-0 and CCLK. */
  function VidAddress(pins: CrtcPins, cclk: nat): word
    requires cclk < 2
  {
    pins.ma / 0x1000 % 4 * 0x4000 + pins.ra % 8 * 0x800 + pins.ma % 0x400 * 2 + cclk
  }

  /** The video byte there. */
  function VidRead(ram: Ram, pins: CrtcPins, cclk: nat): bv8
    requires cclk < 2
  {
    ram[VidAddress(pins, cclk)] as bv8
  }

  // ---------------------------------------------------------------- inputs

  datatype Input =
    | Clock(intAck: bool, next: CrtcPins)
    | Request(a13: bool, a14: bool, a15: bool, wr: bool, data: byte)
    | Again
    | Debug(on: bool)

  /** The sequencer, the pins it last took over, the interrupt unit and the beam. */
  datatype Signals = Signals(seqTickCount: int, pins: CrtcPins, config: byte, video: Video, crt: Crt)

  function Sequenced(s: Signals, intAck: bool): int {
    if intAck then 0 else (s.seqTickCount + 1) % 0x1_0000_0000
  }

  /** The input is a tick on which the CRTC's pins are taken over. */
  predicate TakesPins(s: Signals, input: Input) { input.Clock? && Sequenced(s, input.intAck) % 4 == 3 }

  function AfterInput(s: Signals, input: Input): Signals {
    match input
    case Clock(intAck, next) =>
      var t := s.(seqTickCount := Sequenced(s, intAck), config := s.config % 0x10);
      if TakesPins(s, input) then
        var v := Synced(Counted(s.video, s.pins, next), next, s.config % 4);
        t.(pins := next, crt := NextBeam(s.crt, v.sync), video := Cleared(v, s.config, intAck))
      else t.(video := Cleared(s.video, s.config, intAck))
    case Request(_, a14, a15, _, data) =>
      if a14 && !a15 && data / 0x40 == 2 then s.(config := data % 0x20) else s
    case Again => s.(seqTickCount := 0, config := 0, video := Video(0, 0, 0, 0, false, false))
    case Debug(_) => s
  }

  /** The picture after an input that meets the signals s. */
  function AfterPicture(s: Signals, p: Picture, ram: Ram, input: Input): (q: Picture)
    requires Framed(p) && p.inksel < 0x20
    ensures Framed(q) && q.inksel < 0x20
  {
    match input
    case Clock(intAck, next) =>
      var n := Sequenced(s, intAck) % 4;
      if n == 3 then p.(latch := p.latch[0 := VidRead(ram, next, 0)])
      else if n == 1 then PaintedBy(p.(latch := p.latch[1 := VidRead(ram, s.pins, 1)]), s.video, s.crt, s.pins)
      else p
    case Request(_, a14, a15, _, data) => Written(p, a14 && !a15, data)
    case Again => p.(inksel := 0, border := 0, ink := seq(16, _ => 0), latch := seq(2, _ => 0))
    case Debug(on) => p.(dbgVis := on)
  }

  /** A write to the pen selection or to the colour of the selected pen. */
  function Written(p: Picture, selected: bool, data: byte): (q: Picture)
    requires Framed(p) && p.inksel < 0x20
    ensures Framed(q) && q.inksel < 0x20
  {
    if !selected then p
    else if data / 0x40 == 0 then p.(inksel := data % 0x20)
    else if data / 0x40 == 1 then
      (if p.inksel >= 0x10 then p.(border := data % 0x20) else p.(ink := p.ink[p.inksel := data % 0x20]))
    else p
  }

  // ---------------------------------------------------------------- the chip

  class GateArray {
    var dbgVis: bool
    const is6128: bool
    var seqTickCount: int
    var crtcPins: CrtcPins
    var romSelect: byte
    var ramConfig: byte
    var inksel: byte
    var border: byte
    const ink: array<byte>
    var config: byte
    var video: Video
    const latch: array<bv8>
    var crt: Crt
    const ram: Ram
    const fb: array<byte>

    ghost predicate Valid()
      reads this, ink, latch, fb
    {
      && ink.Length == 16 && latch.Length == 2 && fb.Length == WIDTH * HEIGHT && ink != fb
      && 0 <= seqTickCount < 0x1_0000_0000
      && Palette()
      && Painted()
      && video.mode < 4 && video.intcnt <= 51
      && OnRaster(crt)
    }

    /** Registers hold five-bit values. */
    ghost predicate Palette()
      requires ink.Length == 16
      reads `inksel, `border, `config, ink
    {
      && inksel < 0x20 && border < 0x20 && config < 0x20
      && forall i :: 0 <= i < 16 ==> ink[i] < 0x20
    }

    /** The framebuffer holds palette indices. */
    ghost predicate Painted()
      reads fb
    {
      forall i :: 0 <= i < fb.Length ==> fb[i] < COLORS
    }

    function Now(): Signals
      reads `seqTickCount, `crtcPins, `config, `video, `crt
    {
      Signals(seqTickCount, crtcPins, config, video, crt)
    }

    /** Everything starts at zero; the framebuffer is the caller's, taken to hold zeros. */
    constructor (is6128: bool, ram: Ram)
      ensures Valid() && fresh(ink) && fresh(latch) && fresh(fb)
      ensures this.is6128 == is6128 && this.ram == ram && romSelect == ramConfig == 0
      ensures Now() == Signals(0, CrtcPins(false, false, false, 0, 0), 0, Video(0, 0, 0, 0, false, false),
                               Crt(0, 0, 0, 0, 0, 0, 0, false, false, false, false))
      ensures !dbgVis && inksel == border == 0 && (forall i :: 0 <= i < 16 ==> ink[i] == 0)
      ensures latch[0] == latch[1] == 0 && forall j :: 0 <= j < fb.Length ==> fb[j] == 0
    {
      this.is6128, this.ram := is6128, ram;
      dbgVis, seqTickCount, romSelect, ramConfig := false, 0, 0, 0;
      crtcPins := CrtcPins(false, false, false, 0, 0);
      inksel, border, config := 0, 0, 0;
      ink := new byte[16](_ => 0);
      latch := new bv8[2](_ => 0);
      fb := new byte[WIDTH * HEIGHT](_ => 0);
      video := Video(0, 0, 0, 0, false, false);
      crt := Crt(0, 0, 0, 0, 0, 0, 0, false, false, false, false);
    }

    /** Resets the registers and the video unit, not the beam. */
    method Reset()
      requires Valid()
      modifies `seqTickCount, `inksel, `border, `config, `video, ink, latch
      ensures Valid()
      ensures Now() == AfterInput(old(Now()), Again) && Shown() == AfterPicture(old(Now()), old(Shown()), ram, Again)
    {
      hide OnRaster;
      seqTickCount := 0;
      inksel, border, config := 0, 0, 0;
      forall i | 0 <= i < 16 { ink[i] := 0; }
      forall i | 0 <= i < 2 { latch[i] := 0; }
      video := Video(0, 0, 0, 0, false, false);
    }

    /** A register write; a14 and a15 select the gate array, a13 and wr the upper
        ROM latch. */
    method Iorq(a13: bool, a14: bool, a15: bool, wr: bool, data: byte)
      requires Valid()
      modifies `inksel, `border, `config, `ramConfig, `romSelect, ink
      ensures Valid()
      ensures var input := Request(a13, a14, a15, wr, data);
              Now() == AfterInput(old(Now()), input) && Shown() == AfterPicture(old(Now()), old(Shown()), ram, input)
      ensures romSelect == if wr && !a13 then data else old(romSelect)
      ensures ramConfig == if a14 && !a15 && data / 0x40 == 3 && is6128 then data % 8 else old(ramConfig)
    {
      hide OnRaster;
      if a14 && !a15 {
        match data / 0x40 {
          case 0 => inksel := data % 0x20;
          case 1 => if inksel >= 0x10 { border := data % 0x20; } else { ink[inksel] := data % 0x20; }
          case 2 => config := data % 0x20;
          case _ => if is6128 { ramConfig := data % 8; }
        }
      }
      if !a13 && wr { romSelect := data; }
    }

    /** The counters, the flip-flop and the SYNC signal, once a microsecond. */
    method SyncIrq(pins: CrtcPins) returns (sync: bool)
      requires video.intcnt <= 51 && video.mode < 4
      modifies `video
      ensures video == Synced(Counted(old(video), crtcPins, pins), pins, config % 4) && sync == video.sync
      ensures video.intcnt <= 51 && video.mode < 4
    {
      hide AtEdge;
      if !crtcPins.vs && pins.vs { video := video.(hscount := 0); }
      if crtcPins.hs && !pins.hs {
        EdgeIsBounded(video);
        CountEdge();
      }
      var clkcnt := video.clkcnt;
      if clkcnt == 7 { video := video.(mode := config % 4); }
      if !pins.hs { clkcnt := 0; } else if clkcnt < 8 { clkcnt := clkcnt + 1; }
      var v_sync := video.hscount < 4;
      var h_sync := 2 < clkcnt < 7;
      sync := h_sync || v_sync;
      video := video.(sync := sync, clkcnt := clkcnt);
    }

    method CountEdge()
      modifies `video
      ensures video == AtEdge(old(video)) && video.mode == old(video.mode)
    {
      video := video.(intcnt := (video.intcnt + 1) % 0x40, hscount := video.hscount + 1);
      if video.hscount == 2 {
        if video.intcnt >= 32 { video := video.(intr := true); }
        video := video.(intcnt := 0);
      }
      if video.intcnt == 52 { video := video.(intr := true, intcnt := 0); }
    }

    method CrtTick(sync: bool)
      requires OnRaster(crt)
      modifies `crt
      ensures crt == NextBeam(old(crt), sync) && OnRaster(crt)
    {
      hide OnRaster, Retraced, Moved, Seen;
      BeamStaysOnRaster(crt, sync);
      Retrace(sync);
      MoveBeam();
      Look();
    }

    method Retrace(sync: bool)
      modifies `crt
      ensures crt == Retraced(old(crt), sync)
    {
      var raise := sync && !crt.sync;
      crt := crt.(sync := sync);
      if sync { crt := crt.(syncCount := crt.syncCount + 1); }
      if raise { crt := crt.(hRetrace := 7, hBlank := true, syncCount := 0); }
      if crt.syncCount == 64 { crt := crt.(vRetrace := 3, vBlank := true); }
    }

    method MoveBeam()
      modifies `crt
      ensures crt == Moved(old(crt))
    {
      hide LineEnds, MovedAcross, MovedDown;
      var newLine := MoveAcross();
      if newLine { MoveDown(); }
    }

    method MoveAcross() returns (newLine: bool)
      modifies `crt
      ensures crt == MovedAcross(old(crt)) && newLine == LineEnds(old(crt))
    {
      newLine := false;
      var hPos, hRetrace, hBlank := crt.hPos + 1, crt.hRetrace, crt.hBlank;
      if hPos == 6 { hBlank := false; } else if hPos == 64 { newLine := true; }
      if hRetrace > 0 {
        hRetrace := hRetrace - 1;
        if hRetrace == 0 { newLine := true; }
      }
      if newLine { hPos := 0; }
      crt := crt.(hPos := hPos, hRetrace := hRetrace, hBlank := hBlank);
    }

    method MoveDown()
      modifies `crt
      ensures crt == MovedDown(old(crt))
    {
      var newFrame := false;
      var vPos, vRetrace, vBlank := crt.vPos + 1, crt.vRetrace, crt.vBlank;
      if vPos == 5 { vBlank := false; } else if vPos == HEIGHT { newFrame := true; }
      if vRetrace > 0 {
        vRetrace := vRetrace - 1;
        if vRetrace == 0 { newFrame := true; }
      }
      if newFrame { vPos := 0; }
      crt := crt.(vPos := vPos, vRetrace := vRetrace, vBlank := vBlank);
    }

    method Look()
      modifies `crt
      ensures crt == Seen(old(crt))
    {
      if VIS_X0 <= crt.hPos < VIS_X1 && VIS_Y0 <= crt.vPos < VIS_Y1 {
        crt := crt.(visible := true, posX := crt.hPos - VIS_X0, posY := crt.vPos - VIS_Y0);
      } else {
        crt := crt.(visible := false);
      }
    }

    // -------------------------------------------------------------- the picture

    function Shown(): Picture
      reads `dbgVis, `inksel, `border, ink, latch, fb
    {
      Picture(dbgVis, inksel, border, ink[..], latch[..], fb[..])
    }

    /** The arrays the picture is in, and an index that fits them. */
    ghost predicate Fits(dst: nat, n: nat)
    {
      ink.Length == 16 && latch.Length == 2 && fb.Length == WIDTH * HEIGHT && dst + n <= fb.Length && ink != fb
    }

    /** n equal pixels. */
    method Plot(dst: nat, n: nat, p: byte)
      requires dst + n <= fb.Length
      modifies fb
      ensures forall i :: 0 <= i < fb.Length ==> fb[i] == if dst <= i < dst + n then p else old(fb[i])
    {
      for k := 0 to n
        invariant forall i :: 0 <= i < fb.Length ==> fb[i] == if dst <= i < dst + k then p else old(fb[i])
      {
        fb[dst + k] := p;
      }
    }

    /** Eight pixels from one video byte. */
    method DecodeByte(dst: nat, c: bv8)
      requires Fits(dst, 8) && video.mode < 4
      modifies fb
      ensures forall i :: 0 <= i < fb.Length ==>
        fb[i] == if dst <= i < dst + 8 then Color(ink[..], video.mode, c, i - dst) else old(fb[i])
    {
      hide Bits2, Bits4, At, Ink;
      match video.mode {
        case 0 =>
          PensOfMode0(c);
          Plot(dst, 4, Ink(ink[..], ((c >> 7) & 1) | ((c >> 2) & 2) | ((c >> 3) & 4) | ((c << 2) & 8)));
          Plot(dst + 4, 4, Ink(ink[..], ((c >> 6) & 1) | ((c >> 1) & 2) | ((c >> 2) & 4) | ((c << 3) & 8)));
        case 1 =>
          PensOfMode1(c);
          Plot(dst, 2, Ink(ink[..], ((c >> 2) & 2) | ((c >> 7) & 1)));
          Plot(dst + 2, 2, Ink(ink[..], ((c >> 1) & 2) | ((c >> 6) & 1)));
          Plot(dst + 4, 2, Ink(ink[..], (c & 2) | ((c >> 5) & 1)));
          Plot(dst + 6, 2, Ink(ink[..], ((c << 1) & 2) | ((c >> 4) & 1)));
        case 2 => DecodeBits(dst, c);
        case _ =>
          PensOfMode1(c);
          Plot(dst, 4, Ink(ink[..], ((c >> 7) & 1) | ((c >> 2) & 2)));
          Plot(dst + 4, 4, Ink(ink[..], ((c >> 6) & 1) | ((c >> 1) & 2)));
      }
    }

    method DecodeBits(dst: nat, c: bv8)
      requires Fits(dst, 8)
      modifies fb
      ensures forall i :: 0 <= i < fb.Length ==>
        fb[i] == if dst <= i < dst + 8 then Ink(ink[..], At(c, 7 - (i - dst))) else old(fb[i])
    {
      hide At, Ink;
      for k := 0 to 8
        invariant forall i :: 0 <= i < fb.Length ==>
          fb[i] == if dst <= i < dst + k then Ink(ink[..], At(c, 7 - (i - dst))) else old(fb[i])
      {
        fb[dst + k] := Ink(ink[..], At(c, 7 - k));
      }
    }

    method DecodePixels(dst: nat)
      requires Fits(dst, 16) && video.mode < 4
      modifies fb
      ensures forall i :: 0 <= i < fb.Length ==>
        fb[i] == if dst <= i < dst + 16 then Pixel(old(Shown()), video.mode, i - dst) else old(fb[i])
    {
      hide Color;
      DecodeByte(dst, latch[0]);
      DecodeByte(dst + 8, latch[1]);
    }

    /** The video signal generator, at 1 MHz: sixteen pixels a call, in the window the
        beam is visible in, or anywhere on the raster in the debug picture. */
    method DecodeVideo(pins: CrtcPins)
      requires Valid()
      modifies fb
      ensures Valid() && Shown() == PaintedBy(old(Shown()), video, crt, pins)
      ensures crt.visible ==> crt.posX * 16 + 16 <= 768 && crt.posY < 272
      ensures crt.hPos * 16 + 16 <= 1024 && crt.vPos < 312
    {
      hide Pixel, Visualized;
      if dbgVis {
        Visualize(pins, crt.vPos * WIDTH + crt.hPos * 16);
      } else if crt.visible {
        PaintVisible(pins, crt.posX * 16 + crt.posY * WIDTH);
      }
    }

    method PaintVisible(pins: CrtcPins, dst: nat)
      requires Fits(dst, 16) && video.mode < 4 && Palette() && Painted()
      modifies fb
      ensures Painted()
      ensures forall i :: 0 <= i < fb.Length ==>
        fb[i] == if dst <= i < dst + 16 then Painting(old(Shown()), video, pins, i - dst) else old(fb[i])
    {
      hide Pixel;
      PixelsFit();
      if pins.de { DecodePixels(dst); }
      else if video.sync { Plot(dst, 16, BLACK); }
      else { Plot(dst, 16, border); }
    }

    lemma PixelsFit()
      requires ink.Length == 16 && latch.Length == 2 && fb.Length == WIDTH * HEIGHT && Palette()
      ensures forall i :: 0 <= i < 16 ==> Pixel(Shown(), video.mode, i) < 0x20
    {
      hide Pen;
    }

    method Visualize(pins: CrtcPins, dst: nat)
      requires Fits(dst, 16) && video.mode < 4 && (dst == 0 || dst >= 16)
      requires Palette() && Painted()
      modifies fb
      ensures Painted()
      ensures forall j :: 0 <= j < fb.Length ==> fb[j] == Visualized(old(Shown()), video, pins, dst, j)
    {
      hide Pixel, BitXor;
      var c: byte := 0x20;
      if pins.hs { c := c + 1; }
      if pins.vs { c := c + 2; }
      if video.sync { c := c + 4; }
      if video.intr { c := c + 8; }
      assert c == SignalColor(video, pins);
      var prev := if dst == 0 then dst else dst - 16;
      PixelsFit();
      if pins.de { DecodePixels(dst); }
      ShowSignals(pins, dst, prev, c);
    }

    /** The loop over the sixteen pixels. */
    method ShowSignals(pins: CrtcPins, dst: nat, prev: nat, c: byte)
      requires Fits(dst, 16) && 0x20 <= c < 0x30
      requires prev == if dst == 0 then 0 else dst - 16
      requires dst == 0 || dst >= 16
      requires Painted()
      modifies fb
      ensures Painted()
      ensures forall j :: 0 <= j < fb.Length ==> fb[j] == Signalled(old(fb[j]), j - dst, 16, dst == 0, c, pins.de)
    {
      hide BitXor;
      ToggledBack(c);
      for i := 0 to 16
        invariant Painted()
        invariant forall j :: 0 <= j < fb.Length ==>
          fb[j] == Signalled(old(fb[j]), j - dst, i, dst == 0, c, pins.de)
      {
        if i / 2 % 2 == 0 {
          fb[dst + i] := c + 0x10;
          ToggledFits(fb[prev + i]);
          fb[prev + i] := BitXor(fb[prev + i], 0x10);
        } else if !pins.de {
          fb[dst + i] := BLACK;
        }
      }
    }

    // -------------------------------------------------------------- the clock

    /** One tick of the 4 MHz clock; `next` is what the CRTC shows at the next CCLK. */
    method Tick(intAck: bool, next: CrtcPins) returns (ready: bool, interrupt: bool)
      requires Valid()
      modifies `seqTickCount, `crtcPins, `config, `video, `crt, latch, fb
      ensures Valid() && interrupt == video.intr && ready == (seqTickCount % 4 != 0)
      ensures Now() == AfterInput(old(Now()), Clock(intAck, next))
      ensures Shown() == AfterPicture(old(Now()), old(Shown()), ram, Clock(intAck, next))
      ensures intAck ==> !interrupt && (old(video.intr) ==> video.intcnt < 32)
    {
      hide OnRaster, NextBeam, Synced, Counted, VidRead, PaintedBy, Cleared;
      seqTickCount := (seqTickCount + 1) % 0x1_0000_0000;
      if intAck { seqTickCount := 0; }
      ready := seqTickCount % 4 != 0;
      if seqTickCount % 4 == 3 { Cclk(next); }
      if seqTickCount % 4 == 1 {
        latch[1] := ReadVideo(crtcPins, 1);
        DecodeVideo(crtcPins);
      }
      ClearInterrupts(intAck);
      interrupt := video.intr;
    }

    method ReadVideo(pins: CrtcPins, cclk: nat) returns (v: bv8)
      requires cclk < 2
      ensures v == VidRead(ram, pins, cclk)
    {
      var addr: int := pins.ma / 0x1000 % 4 * 0x4000;
      addr := addr + pins.ma % 0x400 * 2;
      addr := addr + pins.ra % 8 * 0x800;
      addr := addr + cclk;
      v := ram[addr] as bv8;
    }

    /** What happens once a microsecond. */
    method Cclk(next: CrtcPins)
      requires latch.Length == 2 && OnRaster(crt)
      requires video.intcnt <= 51 && video.mode < 4
      modifies `crtcPins, `video, `crt, latch
      ensures OnRaster(crt) && crt == NextBeam(old(crt), video.sync) && crtcPins == next
      ensures video == Synced(Counted(old(video), old(crtcPins), next), next, config % 4)
      ensures video.intcnt <= 51 && video.mode < 4
      ensures latch[..] == old(latch[..])[0 := VidRead(ram, next, 0)]
    {
      hide OnRaster, NextBeam, Synced, Counted, VidRead;
      latch[0] := ReadVideo(next, 0);
      var sync := SyncIrq(next);
      CrtTick(sync);
      crtcPins := next;
    }

    /** The IRQ-reset bit and the acknowledge cycle. */
    method ClearInterrupts(intAck: bool)
      requires config < 0x20 && video.intcnt <= 51
      modifies `config, `video
      ensures config == old(config) % 0x10 && video.intcnt <= 51 && video.mode == old(video.mode)
      ensures video == Cleared(old(video), old(config), intAck)
      ensures video.intr == (old(video.intr) && !intAck && old(config) / 0x10 % 2 == 0)
      ensures intAck && old(video.intr) ==> video.intcnt < 32
    {
      if config / 0x10 % 2 == 1 {
        config := config - 0x10;
        video := video.(intcnt := 0, intr := false);
      }
      if intAck && video.intr { video := video.(intcnt := video.intcnt % 0x20, intr := false); }
    }
  }

  lemma EdgeIsBounded(v: Video)
    requires v.intcnt <= 51
    ensures AtEdge(v).intcnt <= 51
  {
  }

  lemma ToggledBack(c: byte)
    requires 0x20 <= c < 0x30
    ensures BitXor(c + 0x10, 0x10) == c
  {
    var b := c as bv8;
    assert 0x20 <= b < 0x30;
    assert (b + 0x10) ^ 0x10 == b;
    assert (c + 0x10) as bv8 == b + 0x10;
  }

  lemma ToggledFits(v: byte)
    requires v < 64
    ensures BitXor(v, 0x10) < 64
  {
    var b := v as bv8;
    assert b < 64;
    assert b ^ 0x10 < 64;
  }
}