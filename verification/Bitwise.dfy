/** The bitwise operations in plain arithmetic, bit by bit, and the instructions of
    the 6502 that are made of them. */
module Bitwise {
  import opened Words
  import opened Arithmetic
  import opened Isa

  /** Bit k of a number. */
  predicate IsSet(x: nat, k: nat) { x / Pow2(k) % 2 == 1 }

  // ---------------------------------------------------------------- halving

  lemma HalfOfVector(b: bv8)
    ensures (b >> 1) as int == b as int / 2 && (b & 1) as int == b as int % 2
  {
  }

  lemma ThereAndBack(b: bv8)
    ensures (b as int) as bv8 == b
  {
  }

  lemma NextVector(b: bv8)
    requires b < 0xFF
    ensures (b + 1) as int == b as int + 1
  {
  }

  lemma {:induction false} OfByte(x: byte)
    ensures (x as bv8) as int == x
  {
    if x > 0 {
      var b := (x - 1) as bv8;
      OfByte(x - 1);
      NextVector(b);
      ThereAndBack(b + 1);
    }
  }

  lemma AndOfBytes(x: byte, y: byte, a: bv8, b: bv8)
    requires a == x as bv8 && b == y as bv8
    ensures BitAnd(x, y) == (a & b) as int
  {
  }

  lemma AndOfVectors(a: bv8, b: bv8)
    ensures BitAnd(a as int, b as int) == (a & b) as int
  {
    hide BitAnd;
    ThereAndBack(a);
    ThereAndBack(b);
    AndOfBytes(a as int, b as int, a, b);
  }

  lemma AndOfHalves(a: bv8, b: bv8)
    ensures (a & b) >> 1 == (a >> 1) & (b >> 1)
    ensures (a & b) & 1 == 1 <==> a & 1 == 1 && b & 1 == 1
  {
  }

  lemma AndHalves(x: byte, y: byte)
    ensures BitAnd(x, y) / 2 == BitAnd(x / 2, y / 2)
    ensures BitAnd(x, y) % 2 == 1 <==> x % 2 == 1 && y % 2 == 1
  {
    hide BitAnd;
    var a, b := x as bv8, y as bv8;
    OfByte(x);
    OfByte(y);
    AndOfVectors(a, b);
    AndOfVectors(a >> 1, b >> 1);
    AndOfHalves(a, b);
    HalfOfVector(a);
    HalfOfVector(b);
    HalfOfVector(a & b);
  }

  lemma OrOfBytes(x: byte, y: byte, a: bv8, b: bv8)
    requires a == x as bv8 && b == y as bv8
    ensures BitOr(x, y) == (a | b) as int
  {
  }

  lemma OrOfVectors(a: bv8, b: bv8)
    ensures BitOr(a as int, b as int) == (a | b) as int
  {
    hide BitOr;
    ThereAndBack(a);
    ThereAndBack(b);
    OrOfBytes(a as int, b as int, a, b);
  }

  lemma OrOfHalves(a: bv8, b: bv8)
    ensures (a | b) >> 1 == (a >> 1) | (b >> 1)
    ensures (a | b) & 1 == 1 <==> a & 1 == 1 || b & 1 == 1
  {
  }

  lemma OrHalves(x: byte, y: byte)
    ensures BitOr(x, y) / 2 == BitOr(x / 2, y / 2)
    ensures BitOr(x, y) % 2 == 1 <==> x % 2 == 1 || y % 2 == 1
  {
    hide BitOr;
    var a, b := x as bv8, y as bv8;
    OfByte(x);
    OfByte(y);
    OrOfVectors(a, b);
    OrOfVectors(a >> 1, b >> 1);
    OrOfHalves(a, b);
    HalfOfVector(a);
    HalfOfVector(b);
    HalfOfVector(a | b);
  }

  lemma XorOfBytes(x: byte, y: byte, a: bv8, b: bv8)
    requires a == x as bv8 && b == y as bv8
    ensures BitXor(x, y) == (a ^ b) as int
  {
  }

  lemma XorOfVectors(a: bv8, b: bv8)
    ensures BitXor(a as int, b as int) == (a ^ b) as int
  {
    hide BitXor;
    ThereAndBack(a);
    ThereAndBack(b);
    XorOfBytes(a as int, b as int, a, b);
  }

  lemma XorOfHalves(a: bv8, b: bv8)
    ensures (a ^ b) >> 1 == (a >> 1) ^ (b >> 1)
    ensures (a ^ b) & 1 == 1 <==> a & 1 != b & 1
  {
  }

  lemma XorHalves(x: byte, y: byte)
    ensures BitXor(x, y) / 2 == BitXor(x / 2, y / 2)
    ensures BitXor(x, y) % 2 == 1 <==> x % 2 != y % 2
  {
    hide BitXor;
    var a, b := x as bv8, y as bv8;
    OfByte(x);
    OfByte(y);
    XorOfVectors(a, b);
    XorOfVectors(a >> 1, b >> 1);
    XorOfHalves(a, b);
    HalfOfVector(a);
    HalfOfVector(b);
    HalfOfVector(a ^ b);
  }

  // ---------------------------------------------------------------- every bit

  lemma LowestBit(x: nat)
    ensures IsSet(x, 0) <==> x % 2 == 1
  {
    assert Pow2(0) == 1;
  }

  lemma HigherBit(x: nat, k: nat)
    requires k > 0
    ensures IsSet(x, k) <==> IsSet(x / 2, k - 1)
  {
    var p := Pow2(k - 1);
    DivMod(x, 2 * p, x / 2 / p, x / 2 % p * 2 + x % 2);
  }

  lemma {:induction false} AndBit(x: byte, y: byte, k: nat)
    ensures IsSet(BitAnd(x, y), k) <==> IsSet(x, k) && IsSet(y, k)
    decreases k
  {
    hide BitAnd, IsSet;
    AndHalves(x, y);
    if k == 0 {
      LowestBit(x); LowestBit(y); LowestBit(BitAnd(x, y));
    } else {
      HigherBit(x, k); HigherBit(y, k); HigherBit(BitAnd(x, y), k);
      AndBit(x / 2, y / 2, k - 1);
    }
  }

  lemma {:induction false} OrBit(x: byte, y: byte, k: nat)
    ensures IsSet(BitOr(x, y), k) <==> IsSet(x, k) || IsSet(y, k)
    decreases k
  {
    hide BitOr, IsSet;
    OrHalves(x, y);
    if k == 0 {
      LowestBit(x); LowestBit(y); LowestBit(BitOr(x, y));
    } else {
      HigherBit(x, k); HigherBit(y, k); HigherBit(BitOr(x, y), k);
      OrBit(x / 2, y / 2, k - 1);
    }
  }

  lemma {:induction false} XorBit(x: byte, y: byte, k: nat)
    ensures IsSet(BitXor(x, y), k) <==> IsSet(x, k) != IsSet(y, k)
    decreases k
  {
    hide BitXor, IsSet;
    XorHalves(x, y);
    if k == 0 {
      LowestBit(x); LowestBit(y); LowestBit(BitXor(x, y));
    } else {
      HigherBit(x, k); HigherBit(y, k); HigherBit(BitXor(x, y), k);
      XorBit(x / 2, y / 2, k - 1);
    }
  }

  /** The bit a shift brings down. */
  lemma {:induction false} ShiftedBit(b: bv8, k: nat)
    requires k < 8
    ensures ((b >> k) & 1) as int == Bit(IsSet(b as int, k))
    decreases k
  {
    hide IsSet;
    HalfOfVector(b);
    if k == 0 {
      LowestBit(b as int);
    } else {
      HigherBit(b as int, k);
      ShiftedBit(b >> 1, k - 1);
      ShiftOnce(b, k);
    }
  }

  lemma ShiftOnce(b: bv8, k: nat)
    requires 0 < k < 8
    ensures (b >> k) & 1 == ((b >> 1) >> (k - 1)) & 1
  {
    match k case 1 => case 2 => case 3 => case 4 => case 5 => case 6 => case _ =>
  }

  lemma OneMoreOne(v: byte, p: nat)
    requires 0 < p <= 0x80
    ensures BitAnd(v, 2 * p - 1) == 2 * BitAnd(v / 2, p - 1) + v % 2
  {
    hide BitAnd;
    AndHalves(v, 2 * p - 1);
    assert (2 * p - 1) / 2 == p - 1;
  }

  lemma NothingKept(v: byte)
    ensures BitAnd(v, 0) == 0
  {
    OfByte(0);
    AndOfVectors(v as bv8, 0);
    OfByte(v);
  }

  /** Masks of ones keep remainders. */
  lemma NibbleMask(v: byte)
    ensures BitAnd(v, 0x0F) == v % 0x10
  {
    hide BitAnd;
    OneMoreOne(v, 8);
    OneMoreOne(v / 2, 4);
    OneMoreOne(v / 4, 2);
    OneMoreOne(v / 8, 1);
    NothingKept(v / 0x10);
  }

  lemma FiveBitMask(v: byte)
    ensures BitAnd(v, 0x1F) == v % 0x20
  {
    hide BitAnd;
    OneMoreOne(v, 0x10);
    NibbleMask(v / 2);
  }

  lemma ByteMask(v: byte)
    ensures BitAnd(v, 0xFF) == v
  {
    hide BitAnd;
    OfByte(v);
    OfByte(0xFF);
    AndOfVectors(v as bv8, 0xFF);
  }

  /** A number is zero when none of its bits is set. */
  lemma {:induction false} NoBitSet(x: nat, width: nat)
    requires x < Pow2(width)
    ensures x == 0 <==> forall k :: 0 <= k < width ==> !IsSet(x, k)
    decreases width
  {
    hide IsSet;
    if width == 0 {
      assert x == 0;
    } else {
      NoBitSet(x / 2, width - 1);
      LowestBit(x);
      forall k | 0 <= k < width && k > 0 ensures IsSet(x, k) <==> IsSet(x / 2, k - 1) { HigherBit(x, k); }
      if x != 0 && x % 2 == 0 {
        var k :| 0 <= k < width - 1 && IsSet(x / 2, k);
        HigherBit(x, k + 1);
      }
      if x == 0 { forall k | 0 <= k < width ensures !IsSet(x, k) { ZeroHasNoBit(k); } }
    }
  }

  lemma ZeroHasNoBit(k: nat)
    ensures !IsSet(0, k)
  {
    DivMod(0, Pow2(k), 0, 0);
  }

  /** A number is its bits. */
  lemma {:induction false} SameBits(x: nat, y: nat, width: nat)
    requires x < Pow2(width) && y < Pow2(width)
    requires forall k :: 0 <= k < width ==> (IsSet(x, k) <==> IsSet(y, k))
    ensures x == y
    decreases width
  {
    hide IsSet;
    if width > 0 {
      LowestBit(x);
      LowestBit(y);
      forall k | 0 <= k < width - 1 ensures IsSet(x / 2, k) <==> IsSet(y / 2, k) {
        HigherBit(x, k + 1);
        HigherBit(y, k + 1);
      }
      SameBits(x / 2, y / 2, width - 1);
    }
  }

  // ---------------------------------------------------------------- fields

  /** The bits of a number put together from an upper and a lower field. */
  lemma {:induction false} FieldBits(upper: nat, lower: nat, n: nat, k: nat)
    requires lower < Pow2(n)
    ensures IsSet(upper * Pow2(n) + lower, k) <==> if k < n then IsSet(lower, k) else IsSet(upper, k - n)
    decreases n
  {
    hide IsSet;
    if n == 0 {
      assert upper * Pow2(n) + lower == upper;
    } else {
      var x, p := upper * Pow2(n) + lower, Pow2(n - 1);
      assert upper * (2 * p) == 2 * (upper * p);
      assert x / 2 == upper * p + lower / 2 && x % 2 == lower % 2;
      if k == 0 {
        LowestBit(x);
        LowestBit(lower);
      } else {
        HigherBit(x, k);
        FieldBits(upper, lower / 2, n - 1, k - 1);
        if k < n { HigherBit(lower, k); }
      }
    }
  }

  /** The bits of the two fields a number is cut into. */
  lemma Cut(x: nat, upper: nat, lower: nat, n: nat, k: nat)
    requires x == upper * Pow2(n) + lower && lower < Pow2(n)
    ensures k < n ==> (IsSet(lower, k) <==> IsSet(x, k))
    ensures IsSet(upper, k) <==> IsSet(x, n + k)
  {
    hide IsSet;
    FieldBits(upper, lower, n, k);
    FieldBits(upper, lower, n, n + k);
  }

  lemma SmallPowers()
    ensures Pow2(0) == 1 && Pow2(1) == 2 && Pow2(2) == 4 && Pow2(3) == 8 && Pow2(4) == 0x10
    ensures Pow2(8) == 0x100 && Pow2(10) == 0x400 && Pow2(12) == 0x1000
  {
    assert Pow2(4) == 0x10;
    assert Pow2(8) == 0x100;
    assert Pow2(12) == 0x1000;
  }

  lemma NamedBits(x: byte)
    ensures IsSet(x, 7) <==> Sign(x)
    ensures IsSet(x, 6) <==> x / 0x40 % 2 == 1
  {
    assert Pow2(3) == 8;
    assert Pow2(6) == 0x40;
  }

  // ---------------------------------------------------------------- the instructions

  /** Bit by bit, what the three logical instructions make of A and the operand. */
  predicate Combined(op: ReadOp, p: bool, q: bool)
    requires op in {AND, ORA, EOR}
  {
    match op case AND => p && q case ORA => p || q case EOR => p != q
  }

  /** AND, ORA and EOR: every bit of A, the two flags, and nothing else changes. */
  lemma LogicalInstruction(op: ReadOp, s: Arch, m: byte)
    requires op in {AND, ORA, EOR}
    ensures var t := DoRead(op, s, m);
            && (forall k :: 0 <= k < 8 ==> (IsSet(t.a, k) <==> Combined(op, IsSet(s.a, k), IsSet(m, k))))
            && (t.f.n <==> IsSet(t.a, 7)) && (t.f.z <==> forall k :: 0 <= k < 8 ==> !IsSet(t.a, k))
            && t == s.(a := t.a, f := s.f.(n := t.f.n, z := t.f.z))
  {
    hide IsSet, BitAnd, BitOr, BitXor, Sign;
    var t := DoRead(op, s, m);
    forall k | 0 <= k < 8 ensures IsSet(t.a, k) <==> Combined(op, IsSet(s.a, k), IsSet(m, k)) {
      AndBit(s.a, m, k);
      OrBit(s.a, m, k);
      XorBit(s.a, m, k);
    }
    NamedBits(t.a);
    SmallPowers();
    NoBitSet(t.a, 8);
  }

  /** BIT: Z says whether A and the operand have no set bit in common, N and V copy
      the operand's top two bits, and A stays. */
  lemma BitInstruction(s: Arch, m: byte)
    ensures var t := DoRead(BIT, s, m);
            && (t.f.z <==> forall k :: 0 <= k < 8 ==> !(IsSet(s.a, k) && IsSet(m, k)))
            && (t.f.n <==> IsSet(m, 7)) && (t.f.v <==> IsSet(m, 6))
            && t == s.(f := s.f.(n := t.f.n, v := t.f.v, z := t.f.z))
  {
    hide IsSet, BitAnd, Sign;
    forall k | 0 <= k < 8 ensures IsSet(BitAnd(s.a, m), k) <==> IsSet(s.a, k) && IsSet(m, k) { AndBit(s.a, m, k); }
    NamedBits(m);
    SmallPowers();
    NoBitSet(BitAnd(s.a, m), 8);
  }
}
