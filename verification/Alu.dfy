/** The two cores compute decimal sums differently: O2 keeps the digits apart and
    subtracts ten, gianlucag works on the whole word and adds six. Both ways are
    the digit-wise definition, for every operand byte. */
module Alu {
  import opened Words
  import opened Isa

  lemma SmallNibble(x: int)
    requires -0x20 <= x < 0x30
    ensures Nibble(x) ==
      if x < -0x10 then x + 0x20 else if x < 0 then x + 0x10 else
      if x < 0x10 then x else if x < 0x20 then x - 0x10 else x - 0x20
  {
  }

  lemma ShiftedLow(high: int)
    requires -0x20 <= high < 0x30
    ensures Low(high * 0x10) == Nibble(high) * 0x10
  {
    SmallNibble(high);
  }

  /** A byte of two digits, its high digit lowered or raised by ten. */
  lemma HighDigitMoved(n: int, digit: int)
    requires 0 <= n < 0x10 && 0 <= digit < 0x10
    ensures Sign(n * 0x10 + digit) == (n >= 8)
    ensures Low(n * 0x10 + digit - 0xA0) == (if n >= 10 then n - 10 else n + 6) * 0x10 + digit
    ensures Low(n * 0x10 + digit + 0xA0) == (if n >= 6 then n - 6 else n + 10) * 0x10 + digit
  {
    if n >= 10 { Byte(n * 0x10 + digit - 0xA0, 0); } else { Byte(n * 0x10 + digit - 0xA0, -1); }
    if n >= 6 { Byte(n * 0x10 + digit + 0xA0, 1); } else { Byte(n * 0x10 + digit + 0xA0, 0); }
  }

  lemma Byte(x: int, k: int)
    requires -1 <= k <= 1 && 0x100 * k <= x < 0x100 * (k + 1)
    ensures Low(x) == x - 0x100 * k
  {
  }

  /** A high digit of any size, shifted into a byte, corrected by ten or not. */
  lemma ShiftedDigit(high: int, digit: int)
    requires -0x11 <= high < 0x20 && 0 <= digit < 0x10
    ensures var r := Low(high * 0x10) + digit;
            && 0 <= r < 0x100
            && r == Nibble(high) * 0x10 + digit
            && Sign(r) == (Nibble(high) >= 8)
            && Low(r - 0xA0) == Nibble(high + 6) * 0x10 + digit
            && Low(r + 0xA0) == Nibble(high - 6) * 0x10 + digit
  {
    hide Low, Nibble, Sign;
    SmallNibble(high);
    SmallNibble(high + 6);
    SmallNibble(high - 6);
    ShiftedLow(high);
    HighDigitMoved(Nibble(high), digit);
  }

  lemma HighBit(x: byte)
    ensures Sign(x) == (x / 0x10 >= 8)
  {
  }

  // ---------------------------------------------------------------- binary

  /** The sign tests the cores use say exactly when the signed sum overflows. */
  lemma AddOverflow(a: byte, m: byte, c: bool)
    ensures var r := a + m + Bit(c);
            AddBinary(a, m, c) ==
              Sum(Low(r), Sign(Low(r)), AddV(Sign(a), Sign(m), Sign(r)), Low(r) == 0, r > 0xFF)
    ensures Sign(Low(a + m + Bit(c))) == Sign(a + m + Bit(c))
  {
  }

  /** Subtraction as a difference. */
  lemma SubOverflow(a: byte, m: byte, c: bool)
    ensures var t := a - m - Bit(!c);
            SubBinary(a, m, c) ==
              Sum(Low(t), Sign(t), SubV(Sign(a), Sign(m), Sign(t)), Low(t) == 0, t >= 0)
  {
  }

  /** Subtraction as addition of the complement. */
  lemma SubComplement(a: byte, m: byte, c: bool)
    ensures var r := a + (0xFF - m) + Bit(c);
            SubBinary(a, m, c) ==
              Sum(Low(r), Sign(Low(r)), AddV(Sign(a), Sign(0xFF - m), Sign(r)), Low(r) == 0, r > 0xFF)
  {
  }

  // ---------------------------------------------------------------- addition

  lemma DigitAddSplit(ah: nat, al: nat, mh: nat, ml: nat, c: bool, z: bool)
    requires ah < 0x10 && al < 0x10 && mh < 0x10 && ml < 0x10
    ensures var low, high := al + ml + Bit(c), ah + mh;
            var lo, hi := if low > 9 then low - 10 else low, if low > 9 then high + 1 else high;
            var r := Low(hi * 0x10) + Nibble(lo);
            0 <= r < 0x100
    ensures var low, high := al + ml + Bit(c), ah + mh;
            var lo, hi := if low > 9 then low - 10 else low, if low > 9 then high + 1 else high;
            var r := Low(hi * 0x10) + Nibble(lo);
            AddDigits(ah, al, mh, ml, c, z) ==
              Sum(if hi > 9 then Low(r - 0xA0) else r, Sign(r),
                  AddV(ah >= 8, mh >= 8, Sign(r)), z, hi > 9)
  {
    hide Low, Sign, Nibble;
    var low, high := al + ml + Bit(c), ah + mh;
    var lo, hi := if low > 9 then low - 10 else low, if low > 9 then high + 1 else high;
    SmallNibble(lo);
    SmallNibble(lo + 0x10);
    ShiftedDigit(hi, Nibble(lo));
  }

  lemma AddSplit(a: byte, m: byte, c: bool)
    ensures var low, high := a % 0x10 + m % 0x10 + Bit(c), a / 0x10 + m / 0x10;
            var lo, hi := if low > 9 then low - 10 else low, if low > 9 then high + 1 else high;
            var r := Low(hi * 0x10) + Nibble(lo);
            0 <= r < 0x100
    ensures var low, high := a % 0x10 + m % 0x10 + Bit(c), a / 0x10 + m / 0x10;
            var lo, hi := if low > 9 then low - 10 else low, if low > 9 then high + 1 else high;
            var r := Low(hi * 0x10) + Nibble(lo);
            AddDecimal(a, m, c) ==
              Sum(if hi > 9 then Low(r - 0xA0) else r, Sign(r),
                  AddV(Sign(a), Sign(m), Sign(r)), AddBinary(a, m, c).z, hi > 9)
  {
    hide AddBinary, AddDigits, Nibble;
    HighBit(a);
    HighBit(m);
    DigitAddSplit(a / 0x10, a % 0x10, m / 0x10, m % 0x10, c, AddBinary(a, m, c).z);
  }

  lemma DigitAddWord(ah: nat, al: nat, mh: nat, ml: nat, c: bool, z: bool)
    requires ah < 0x10 && al < 0x10 && mh < 0x10 && ml < 0x10
    ensures var low := al + ml + Bit(c);
            var lo := if low >= 0xA then Nibble(low + 6) + 0x10 else low;
            var t := mh * 0x10 + ah * 0x10 + lo;
            var u := if t >= 0xA0 then t + 0x60 else t;
            AddDigits(ah, al, mh, ml, c, z) ==
              Sum(Low(u), Sign(t), AddV(ah >= 8, mh >= 8, Sign(t)), z, u > 0xFF)
  {
    hide Low, Sign, Nibble;
    var low := al + ml + Bit(c);
    SmallNibble(low);
    SmallNibble(low + 6);
    var high := ah + mh + Bit(low >= 10);
    var digit := Nibble(if low >= 10 then low + 6 else low);
    assert mh * 0x10 + ah * 0x10 + (if low >= 0xA then Nibble(low + 6) + 0x10 else low) == high * 0x10 + digit;
    SmallNibble(high);
    SmallNibble(high + 6);
    WordDigit(high, digit);
    if high >= 10 { WordDigit(high + 6, digit); }
  }

  lemma WordDigit(high: nat, digit: nat)
    requires high < 0x30 && digit < 0x10
    ensures Low(high * 0x10 + digit) == Nibble(high) * 0x10 + digit
    ensures Sign(high * 0x10 + digit) == (Nibble(high) >= 8)
  {
    SmallNibble(high);
  }

  lemma AddWord(a: byte, m: byte, c: bool)
    ensures var low := a % 0x10 + m % 0x10 + Bit(c);
            var lo := if low >= 0xA then Nibble(low + 6) + 0x10 else low;
            var t := m / 0x10 * 0x10 + a / 0x10 * 0x10 + lo;
            var u := if t >= 0xA0 then t + 0x60 else t;
            AddDecimal(a, m, c) ==
              Sum(Low(u), Sign(t), AddV(Sign(a), Sign(m), Sign(t)), AddBinary(a, m, c).z, u > 0xFF)
  {
    hide AddBinary, AddDigits, Nibble;
    HighBit(a);
    HighBit(m);
    DigitAddWord(a / 0x10, a % 0x10, m / 0x10, m % 0x10, c, AddBinary(a, m, c).z);
  }

  // ---------------------------------------------------------------- subtraction

  lemma DigitSubSplit(ah: nat, al: nat, mh: nat, ml: nat, c: bool, z: bool)
    requires ah < 0x10 && al < 0x10 && mh < 0x10 && ml < 0x10
    ensures var low, high := al - ml - Bit(!c), ah - mh;
            var lo, hi := if low < 0 then low + 10 else low, if low < 0 then high - 1 else high;
            var r := Low(hi * 0x10) + Nibble(lo);
            0 <= r < 0x100
    ensures var low, high := al - ml - Bit(!c), ah - mh;
            var lo, hi := if low < 0 then low + 10 else low, if low < 0 then high - 1 else high;
            var r := Low(hi * 0x10) + Nibble(lo);
            SubDigits(ah, al, mh, ml, c, z) ==
              Sum(if hi < 0 then Low(r + 0xA0) else r, Sign(r),
                  SubV(ah >= 8, mh >= 8, Sign(r)), z, hi >= 0)
  {
    hide Low, Sign, Nibble;
    var low, high := al - ml - Bit(!c), ah - mh;
    var lo, hi := if low < 0 then low + 10 else low, if low < 0 then high - 1 else high;
    SmallNibble(lo);
    SmallNibble(lo - 0x10);
    ShiftedDigit(hi, Nibble(lo));
  }

  lemma SubSplit(a: byte, m: byte, c: bool)
    ensures var low, high := a % 0x10 - m % 0x10 - (1 - Bit(c)), a / 0x10 - m / 0x10;
            var lo, hi := if low < 0 then low + 10 else low, if low < 0 then high - 1 else high;
            var r := Low(hi * 0x10) + Nibble(lo);
            0 <= r < 0x100
    ensures var low, high := a % 0x10 - m % 0x10 - (1 - Bit(c)), a / 0x10 - m / 0x10;
            var lo, hi := if low < 0 then low + 10 else low, if low < 0 then high - 1 else high;
            var r := Low(hi * 0x10) + Nibble(lo);
            SubDecimal(a, m, c) ==
              Sum(if hi < 0 then Low(r + 0xA0) else r, Sign(r),
                  SubV(Sign(a), Sign(m), Sign(r)), SubBinary(a, m, c).z, hi >= 0)
  {
    hide SubBinary, SubDigits, Nibble;
    HighBit(a);
    HighBit(m);
    DigitSubSplit(a / 0x10, a % 0x10, m / 0x10, m % 0x10, c, SubBinary(a, m, c).z);
  }

  lemma DigitSubWord(ah: nat, al: nat, mh: nat, ml: nat, c: bool, z: bool)
    requires ah < 0x10 && al < 0x10 && mh < 0x10 && ml < 0x10
    ensures var low := al - ml - Bit(!c);
            var lo := if low < 0 then Nibble(low - 6) - 0x10 else low;
            var t := ah * 0x10 - mh * 0x10 + lo;
            var u := if t < 0 then t - 0x60 else t;
            SubDigits(ah, al, mh, ml, c, z) ==
              Sum(Low(u), Sign(t), SubV(ah >= 8, mh >= 8, Sign(t)), z, u >= 0)
  {
    hide Low, Sign, Nibble;
    var low := al - ml - Bit(!c);
    SmallNibble(low);
    SmallNibble(low - 6);
    var high := ah - mh - Bit(low < 0);
    var digit := Nibble(if low < 0 then low - 6 else low);
    assert ah * 0x10 - mh * 0x10 + (if low < 0 then Nibble(low - 6) - 0x10 else low) == high * 0x10 + digit;
    SmallNibble(high);
    SmallNibble(high - 6);
    SignedWordDigit(high, digit);
    if high < 0 { SignedWordDigit(high - 6, digit); }
  }

  lemma SignedWordDigit(high: int, digit: nat)
    requires -0x20 <= high < 0x10 && digit < 0x10
    ensures Low(high * 0x10 + digit) == Nibble(high) * 0x10 + digit
    ensures Sign(high * 0x10 + digit) == (Nibble(high) >= 8)
  {
    SmallNibble(high);
  }

  lemma SubWord(a: byte, m: byte, c: bool)
    ensures var low := a % 0x10 - m % 0x10 - Bit(!c);
            var lo := if low < 0 then Nibble(low - 6) - 0x10 else low;
            var t := a / 0x10 * 0x10 - m / 0x10 * 0x10 + lo;
            var u := if t < 0 then t - 0x60 else t;
            SubDecimal(a, m, c) ==
              Sum(Low(u), Sign(t), SubV(Sign(a), Sign(m), Sign(t)), SubBinary(a, m, c).z, u >= 0)
  {
    hide SubBinary, SubDigits, Nibble;
    HighBit(a);
    HighBit(m);
    DigitSubWord(a / 0x10, a % 0x10, m / 0x10, m % 0x10, c, SubBinary(a, m, c).z);
  }
}
