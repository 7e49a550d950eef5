/** What the gate array shows, in the bits and the numbers of its documentation:
    where a video byte comes from, which bits of it make up a pen, and where on the
    framebuffer its pixels go. */
module Am40010Picture {
  import opened Words
  import opened Arithmetic
  import opened Bitwise
  import opened Am40010

  // ---------------------------------------------------------------- addresses

  /** What bit k of a video address is: from the top MA13, MA12, RA2 to RA0, MA9 to
      MA0 and CCLK. */
  predicate AddressBit(pins: CrtcPins, cclk: nat, k: nat) {
    if k == 0 then cclk == 1
    else if k <= 10 then IsSet(pins.ma, k - 1)
    else if k <= 13 then IsSet(pins.ra, k - 11)
    else IsSet(pins.ma, k - 2)
  }

  lemma BelowRaster(pins: CrtcPins, cclk: nat, k: nat)
    requires cclk < 2
    ensures var low := pins.ma % 0x400 * 2 + cclk;
            && low < 0x800 && (IsSet(low, 0) <==> cclk == 1)
            && (k < 10 ==> (IsSet(low, 1 + k) <==> IsSet(pins.ma, k)))
  {
    hide IsSet;
    SmallPowers();
    var field: nat := pins.ma % 0x400;
    Cut(pins.ma, pins.ma / 0x400, field, 10, k);
    LowestBit(field * 2 + cclk);
    FieldBits(field, cclk, 1, 1 + k);
  }

  lemma HigherPower()
    ensures Pow2(11) == 0x800 && Pow2(16) == 0x1_0000
  {
    assert Pow2(12) == 0x1000 by { SmallPowers(); }
    assert Pow2(14) == 0x4000;
  }

  lemma AddressBits(pins: CrtcPins, cclk: nat, k: nat)
    requires cclk < 2 && k < 16
    ensures IsSet(VidAddress(pins, cclk), k) <==> AddressBit(pins, cclk, k)
  {
    hide IsSet, Pow2;
    SmallPowers();
    HigherPower();
    var low: nat := pins.ma % 0x400 * 2 + cclk;
    var raster: nat, page: nat := pins.ra % 8, pins.ma / 0x1000 % 4;
    var upper: nat := page * 8 + raster;
    BelowRaster(pins, cclk, if k > 0 then k - 1 else 0);
    assert VidAddress(pins, cclk) == upper * 0x800 + low;
    FieldBits(upper, low, 11, k);
    if k >= 11 {
      FieldBits(page, raster, 3, k - 11);
      if k < 14 {
        Cut(pins.ra, pins.ra / 8, raster, 3, k - 11);
      } else {
        Cut(pins.ma / 0x1000, pins.ma / 0x1000 / 4, page, 2, k - 14);
        Cut(pins.ma, pins.ma / 0x1000, pins.ma % 0x1000, 12, k - 14);
      }
    }
  }

  /** Two pin states read the same address exactly if they agree in all sixteen bits. */
  lemma SameAddress(p: CrtcPins, c: nat, q: CrtcPins, d: nat)
    requires c < 2 && d < 2
    ensures VidAddress(p, c) == VidAddress(q, d)
       <==> forall k :: 0 <= k < 16 ==> (AddressBit(p, c, k) <==> AddressBit(q, d, k))
  {
    hide IsSet, VidAddress, AddressBit, Pow2;
    HigherPower();
    forall k | 0 <= k < 16
      ensures IsSet(VidAddress(p, c), k) <==> AddressBit(p, c, k)
      ensures IsSet(VidAddress(q, d), k) <==> AddressBit(q, d, k)
    {
      AddressBits(p, c, k);
      AddressBits(q, d, k);
    }
    if forall k :: 0 <= k < 16 ==> (AddressBit(p, c, k) <==> AddressBit(q, d, k)) {
      SameBits(VidAddress(p, c), VidAddress(q, d), 16);
    }
  }

  /** Every address is read: by these pins, at this half of the microsecond. */
  lemma EveryAddressIsRead(a: word)
    ensures exists pins: CrtcPins, cclk: nat :: cclk < 2 && VidAddress(pins, cclk) == a
  {
    var page: nat, raster: nat, column: nat, cclk: nat := a / 0x4000, a / 0x800 % 8, a / 2 % 0x400, a % 2;
    Parts(a, page, raster, column, cclk);
    var pins := CrtcPins(false, false, true, page * 0x1000 + column, raster);
    assert VidAddress(pins, cclk) == a;
  }

  lemma Parts(a: word, page: nat, raster: nat, column: nat, cclk: nat)
    requires page == a / 0x4000 && raster == a / 0x800 % 8 && column == a / 2 % 0x400 && cclk == a % 2
    ensures page < 4 && raster < 8 && column < 0x400 && a == page * 0x4000 + raster * 0x800 + column * 2 + cclk
    ensures (page * 0x1000 + column) / 0x1000 % 4 == page && (page * 0x1000 + column) % 0x400 == column
  {
    assert a / 2 / 0x400 == a / 0x800;
    assert a / 0x800 / 8 == a / 0x4000;
  }

  // ---------------------------------------------------------------- pens

  /** The number with these bits, the least significant first. */
  function Two(b0: bool, b1: bool): nat { Bit(b0) + 2 * Bit(b1) }
  function Four(b0: bool, b1: bool, b2: bool, b3: bool): nat { Two(b0, b1) + 4 * Two(b2, b3) }

  /** The pen of pixel i of a video byte. Mode 0 has two pixels of four bits, shown
      four wide; mode 1 four of two bits, two wide; mode 2 eight of one bit; mode 3
      two of two bits, four wide. */
  function PenOf(mode: nat, c: byte, i: nat): nat
    requires i < 8
  {
    match mode
    case 0 =>
      if i < 4 then Four(IsSet(c, 7), IsSet(c, 3), IsSet(c, 5), IsSet(c, 1))
      else Four(IsSet(c, 6), IsSet(c, 2), IsSet(c, 4), IsSet(c, 0))
    case 1 => Two(IsSet(c, 7 - i / 2), IsSet(c, 3 - i / 2))
    case 2 => Bit(IsSet(c, 7 - i))
    case _ => if i < 4 then Two(IsSet(c, 7), IsSet(c, 3)) else Two(IsSet(c, 6), IsSet(c, 2))
  }

  lemma AtIsBit(c: bv8, k: nat)
    requires k < 8
    ensures At(c, k) as int == Bit(IsSet(c as int, k))
  {
    hide IsSet;
    ShiftedBit(c, k);
  }

  lemma Bits2IsTwo(c: bv8, j: nat, k: nat)
    requires j < 8 && k < 8
    ensures Bits2(c, j, k) as int == Two(IsSet(c as int, k), IsSet(c as int, j))
  {
    hide IsSet, At;
    AtIsBit(c, j);
    AtIsBit(c, k);
    Doubled(At(c, j), At(c, k));
  }

  lemma Doubled(a: bv8, b: bv8)
    requires a as int <= 1 && b as int <= 1
    ensures ((a << 1) | b) as int == 2 * (a as int) + b as int
  {
    SmallVector(a);
    SmallVector(b);
  }

  lemma SmallVector(a: bv8)
    requires a as int <= 1
    ensures a == 0 || a == 1
  {
  }

  lemma Bits4IsFour(c: bv8, j: nat, k: nat, l: nat, m: nat)
    requires j < 8 && k < 8 && l < 8 && m < 8
    ensures Bits4(c, j, k, l, m) as int ==
            Four(IsSet(c as int, m), IsSet(c as int, l), IsSet(c as int, k), IsSet(c as int, j))
  {
    hide IsSet, Bits2;
    Bits2IsTwo(c, j, k);
    Bits2IsTwo(c, l, m);
    Quadrupled(Bits2(c, j, k), Bits2(c, l, m));
  }

  lemma Quadrupled(a: bv8, b: bv8)
    requires a as int <= 3 && b as int <= 3
    ensures ((a << 2) | b) as int == 4 * (a as int) + b as int
  {
  }

  lemma FewPens(mode: nat, c: byte, i: nat)
    requires i < 8
    ensures PenOf(mode, c, i) < 16
  {
    hide IsSet;
  }

  lemma PenBits(mode: nat, c: bv8, i: nat)
    requires i < 8
    ensures Pen(mode, c, i) as int == PenOf(mode, c as int, i)
  {
    hide IsSet, Bits4, Bits2, At, Two, Four;
    match mode {
      case 0 => if i < 4 { Bits4IsFour(c, 1, 5, 3, 7); } else { Bits4IsFour(c, 0, 4, 2, 6); }
      case 1 => Bits2IsTwo(c, 3 - i / 2, 7 - i / 2);
      case 2 => AtIsBit(c, 7 - i);
      case _ => if i < 4 { Bits2IsTwo(c, 3, 7); } else { Bits2IsTwo(c, 2, 6); }
    }
  }

  /** The colour of a pixel is the ink whose number has the documented bits. */
  lemma ColorOfPen(ink: seq<byte>, mode: nat, c: bv8, i: nat)
    requires |ink| == 16 && i < 8
    ensures PenOf(mode, c as int, i) < 16 && Color(ink, mode, c, i) == ink[PenOf(mode, c as int, i)]
  {
    hide Pen, PenOf, Ink;
    PenBits(mode, c, i);
    FewPens(mode, c as int, i);
    InkOfPen(ink, Pen(mode, c, i));
  }

  lemma InkOfPen(ink: seq<byte>, pen: bv8)
    requires |ink| == 16 && pen as int < 16
    ensures Ink(ink, pen) == ink[pen as int]
  {
  }

  // ---------------------------------------------------------------- the window

  /** Byte x of line y of the framebuffer, 1024 bytes to a line, after the beam has
      been at b. Beam positions 6 to 53 of lines 32 to 303 are shown, sixteen bytes
      each, from the top left corner on: the sixteen pixels of the two video bytes
      where the display is enabled; elsewhere pure black, number 63, during SYNC, and
      the border otherwise. No other byte changes. */
  lemma PictureAt(p: Picture, v: Video, b: Crt, pins: CrtcPins, x: nat, y: nat)
    requires Framed(p) && !p.dbgVis && OnRaster(b) && x < 1024 && y < 312
    ensures |p.fb| == 1024 * 312
    ensures PaintedByte(p, v, b, pins, 1024 * y + x) ==
            if 6 <= b.hPos < 54 && b.vPos < 304 && b.hPos == 6 + x / 16 && b.vPos == 32 + y then
              if pins.de then PixelOf(p, v.mode, x % 16) else if v.sync then 63 else p.border
            else p.fb[1024 * y + x]
  {
    hide Color, PenOf;
    if b.visible {
      ByteOfBeam(b, x, y);
      ColorOfPen(p.ink, v.mode, p.latch[x % 16 / 8], x % 8);
    }
  }

  /** Pixel i of the sixteen. */
  function PixelOf(p: Picture, mode: nat, i: nat): byte
    requires Framed(p) && i < 16
  {
    var c := if i < 8 then p.latch[0] else p.latch[1];
    FewPens(mode, c as int, i % 8);
    p.ink[PenOf(mode, c as int, i % 8)]
  }

  lemma ByteOfBeam(b: Crt, x: nat, y: nat)
    requires OnRaster(b) && b.visible && x < 1024
    ensures var dst, j := b.posY * 1024 + b.posX * 16, 1024 * y + x;
            && (dst <= j < dst + 16 <==> b.hPos == 6 + x / 16 && b.vPos == 32 + y)
            && (dst <= j < dst + 16 ==> j - dst == x % 16)
  {
    hide OnRaster;
    BeamIsInWindow(b);
  }

  lemma BeamIsInWindow(b: Crt)
    requires OnRaster(b) && b.visible
    ensures b.hPos == b.posX + 6 && b.vPos == b.posY + 32 && b.posX < 48 && b.posY < 272
  {
  }
}
