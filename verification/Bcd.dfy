/** Decimal mode as arithmetic: chains of ADC and SBC over packed-BCD numbers of
    any length, least significant byte first. */
module Bcd {
  import opened Words
  import opened Isa
  import opened Arithmetic

  /** Two decimal digits in a byte. */
  predicate IsBcd(b: byte) { b / 0x10 < 10 && b % 0x10 < 10 }

  predicate AllBcd(bs: seq<byte>) { forall k :: 0 <= k < |bs| ==> IsBcd(bs[k]) }

  function Digits(b: byte): nat { b / 0x10 * 10 + b % 0x10 }

  function Value(bs: seq<byte>): nat {
    if bs == [] then 0 else Digits(bs[0]) + 100 * Value(bs[1..])
  }

  function Hundreds(n: nat): (r: nat)
    ensures r >= 1
  {
    if n == 0 then 1 else 100 * Hundreds(n - 1)
  }

  /** For every byte of xs, load it and add the byte of ys to it; the carry goes
      from one byte to the next. Yields the bytes the accumulator held. */
  function AdcChain(s: Arch, xs: seq<byte>, ys: seq<byte>): (r: (seq<byte>, Arch))
    requires |xs| == |ys|
    ensures |r.0| == |xs|
    decreases |xs|
  {
    if xs == [] then ([], s) else
    var t := Adc(LoadA(s, xs[0]), ys[0]);
    var (rest, end) := AdcChain(t, xs[1..], ys[1..]);
    ([t.a] + rest, end)
  }

  function SbcChain(s: Arch, xs: seq<byte>, ys: seq<byte>): (r: (seq<byte>, Arch))
    requires |xs| == |ys|
    ensures |r.0| == |xs|
    decreases |xs|
  {
    if xs == [] then ([], s) else
    var t := Sbc(LoadA(s, xs[0]), ys[0]);
    var (rest, end) := SbcChain(t, xs[1..], ys[1..]);
    ([t.a] + rest, end)
  }

  lemma PackedDigits(h: nat, l: nat)
    requires h < 10 && l < 10
    ensures IsBcd(h * 0x10 + l) && Digits(h * 0x10 + l) == 10 * h + l
  {
  }

  lemma AddOneByte(a: byte, m: byte, c: bool)
    requires IsBcd(a) && IsBcd(m)
    ensures var r := AddDecimal(a, m, c);
            IsBcd(r.value) && Digits(r.value) + 100 * Bit(r.c) == Digits(a) + Digits(m) + Bit(c)
  {
    hide AddBinary, AddDigits, Nibble;
    AddFourDigits(a / 0x10, a % 0x10, m / 0x10, m % 0x10, c, AddBinary(a, m, c).z);
  }

  /** The correction by six skips the six values that are not digits. */
  lemma Corrected(x: int)
    requires -10 <= x < 20
    ensures x >= 10 ==> Nibble(x + 6) == x - 10
    ensures x < 0 ==> Nibble(x - 6) == x + 10
    ensures 0 <= x < 10 ==> Nibble(x) == x
  {
  }

  lemma AddFourDigits(ah: nat, al: nat, mh: nat, ml: nat, c: bool, z: bool)
    requires ah < 10 && al < 10 && mh < 10 && ml < 10
    ensures var r := AddDigits(ah, al, mh, ml, c, z);
            && IsBcd(r.value) && Digits(r.value) + 100 * Bit(r.c) == 10 * ah + al + 10 * mh + ml + Bit(c)
  {
    hide IsBcd, Digits, Nibble, AddV;
    var low := al + ml + Bit(c);
    var high := ah + mh + Bit(low >= 10);
    Corrected(low);
    Corrected(high);
    PackedDigits(if high >= 10 then high - 10 else high, if low >= 10 then low - 10 else low);
  }

  lemma SubFourDigits(ah: nat, al: nat, mh: nat, ml: nat, c: bool, z: bool)
    requires ah < 10 && al < 10 && mh < 10 && ml < 10
    ensures var r := SubDigits(ah, al, mh, ml, c, z);
            && IsBcd(r.value) && Digits(r.value) + 10 * mh + ml + Bit(!c) == 10 * ah + al + 100 * Bit(!r.c)
  {
    hide IsBcd, Digits, Nibble, SubV;
    var low := al - ml - Bit(!c);
    var high := ah - mh - Bit(low < 0);
    Corrected(low);
    Corrected(high);
    PackedDigits(if high < 0 then high + 10 else high, if low < 0 then low + 10 else low);
  }

  lemma SubOneByte(a: byte, m: byte, c: bool)
    requires IsBcd(a) && IsBcd(m)
    ensures var r := SubDecimal(a, m, c);
            IsBcd(r.value) && Digits(r.value) + Digits(m) + Bit(!c) == Digits(a) + 100 * Bit(!r.c)
  {
    hide SubBinary, SubDigits, Nibble;
    SubFourDigits(a / 0x10, a % 0x10, m / 0x10, m % 0x10, c, SubBinary(a, m, c).z);
  }

  lemma {:induction false} AddChainValue(s: Arch, xs: seq<byte>, ys: seq<byte>)
    requires |xs| == |ys| && AllBcd(xs) && AllBcd(ys) && s.f.d
    ensures var (sum, end) := AdcChain(s, xs, ys);
            && AllBcd(sum) && end.f.d
            && Value(sum) + Hundreds(|xs|) * Bit(end.f.c) == Value(xs) + Value(ys) + Bit(s.f.c)
    decreases |xs|
  {
    hide AddDecimal, IsBcd, Digits;
    if xs != [] {
      AddOneByte(xs[0], ys[0], s.f.c);
      var t := Adc(LoadA(s, xs[0]), ys[0]);
      AddChainValue(t, xs[1..], ys[1..]);
      var (rest, end) := AdcChain(t, xs[1..], ys[1..]);
      assert ([t.a] + rest)[1..] == rest;
    }
  }

  lemma {:induction false} SubChainValue(s: Arch, xs: seq<byte>, ys: seq<byte>)
    requires |xs| == |ys| && AllBcd(xs) && AllBcd(ys) && s.f.d
    ensures var (difference, end) := SbcChain(s, xs, ys);
            && AllBcd(difference) && end.f.d
            && Value(difference) + Value(ys) + Bit(!s.f.c) == Value(xs) + Hundreds(|xs|) * Bit(!end.f.c)
    decreases |xs|
  {
    hide SubDecimal, IsBcd, Digits;
    if xs != [] {
      SubOneByte(xs[0], ys[0], s.f.c);
      var t := Sbc(LoadA(s, xs[0]), ys[0]);
      SubChainValue(t, xs[1..], ys[1..]);
      var (rest, end) := SbcChain(t, xs[1..], ys[1..]);
      assert ([t.a] + rest)[1..] == rest;
    }
  }

  lemma {:induction false} ValueBound(bs: seq<byte>)
    requires AllBcd(bs)
    ensures Value(bs) < Hundreds(|bs|)
  {
    if bs != [] { ValueBound(bs[1..]); }
  }

  lemma {:induction false} ValueInjective(xs: seq<byte>, ys: seq<byte>)
    requires |xs| == |ys| && AllBcd(xs) && AllBcd(ys) && Value(xs) == Value(ys)
    ensures xs == ys
  {
    if xs != [] {
      LastDigits(xs[0], Value(xs[1..]), ys[0], Value(ys[1..]));
      ValueInjective(xs[1..], ys[1..]);
      assert xs == [xs[0]] + xs[1..] && ys == [ys[0]] + ys[1..];
    }
  }

  lemma LastDigits(x: byte, p: nat, y: byte, q: nat)
    requires IsBcd(x) && IsBcd(y) && Digits(x) + 100 * p == Digits(y) + 100 * q
    ensures x == y && p == q
  {
    assert Digits(x) < 100 && Digits(y) < 100;
    assert p == q;
    assert x == x / 0x10 * 0x10 + x % 0x10 && y == y / 0x10 * 0x10 + y % 0x10;
  }

  lemma Quotient(total: nat, value: nat, base: nat, carry: bool)
    requires value < base && total == value + base * Bit(carry)
    ensures value == total % base && Bit(carry) == total / base
  {
    DivMod(total, base, Bit(carry), value);
  }

  /** n-byte decimal addition is addition modulo 100^n, its carry out the quotient. */
  lemma DecimalAddition(s: Arch, xs: seq<byte>, ys: seq<byte>)
    requires |xs| == |ys| && AllBcd(xs) && AllBcd(ys) && s.f.d
    ensures var total := Value(xs) + Value(ys) + Bit(s.f.c);
            var (sum, end) := AdcChain(s, xs, ys);
            && AllBcd(sum)
            && Value(sum) == total % Hundreds(|xs|) && Bit(end.f.c) == total / Hundreds(|xs|)
  {
    hide AdcChain, Value, Hundreds, IsBcd;
    var (sum, end) := AdcChain(s, xs, ys);
    AddChainValue(s, xs, ys);
    ValueBound(sum);
    Quotient(Value(xs) + Value(ys) + Bit(s.f.c), Value(sum), Hundreds(|xs|), end.f.c);
  }

  /** n-byte decimal subtraction, the carry being the inverted borrow. */
  lemma DecimalSubtraction(s: Arch, xs: seq<byte>, ys: seq<byte>)
    requires |xs| == |ys| && AllBcd(xs) && AllBcd(ys) && s.f.d
    ensures var (difference, end) := SbcChain(s, xs, ys);
            && AllBcd(difference)
            && end.f.c == (Value(xs) >= Value(ys) + Bit(!s.f.c))
            && Value(difference) == Value(xs) - Value(ys) - Bit(!s.f.c) + if end.f.c then 0 else Hundreds(|xs|)
  {
    hide SbcChain, Value, Hundreds, IsBcd;
    var (difference, end) := SbcChain(s, xs, ys);
    SubChainValue(s, xs, ys);
    ValueBound(difference);
    ValueBound(xs);
    ValueBound(ys);
  }

  /** Subtracting what was added, with the carries inverted, restores the number,
      and the borrow is the carry the addition lost. */
  lemma SubtractionUndoesAddition(s: Arch, t: Arch, xs: seq<byte>, ys: seq<byte>)
    requires |xs| == |ys| && AllBcd(xs) && AllBcd(ys) && s.f.d && t.f.d && t.f.c == !s.f.c
    ensures var (sum, carried) := AdcChain(s, xs, ys);
            var (back, borrowed) := SbcChain(t, sum, ys);
            back == xs && borrowed.f.c == !carried.f.c
  {
    hide AdcChain, SbcChain, Value, Hundreds, IsBcd;
    var (sum, carried) := AdcChain(s, xs, ys);
    var (back, borrowed) := SbcChain(t, sum, ys);
    AddChainValue(s, xs, ys);
    SubChainValue(t, sum, ys);
    ValueBound(xs);
    ValueBound(back);
    SameResidue(Value(xs), Value(back), Hundreds(|xs|), carried.f.c, !borrowed.f.c);
    ValueInjective(back, xs);
  }

  lemma SameResidue(x: nat, y: nat, h: nat, j: bool, k: bool)
    requires x < h && y < h && y + h * Bit(j) == x + h * Bit(k)
    ensures x == y && j == k
  {
  }
}
