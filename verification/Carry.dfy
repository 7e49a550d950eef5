/** The bit-level carry, borrow and overflow formulas of the CLK library, at every
    width. An unsigned integer is its bits, the least significant first. */
module Carry {
  import opened Arithmetic

  datatype Operation = Add | Subtract

  type Bits = seq<bool>

  function B(b: bool): nat { if b then 1 else 0 }

  function Value(x: Bits): nat { if x == [] then 0 else Value(x[..|x| - 1]) + Pow2(|x| - 1) * B(x[|x| - 1]) }

  function Not(x: Bits): (r: Bits) ensures |r| == |x| { seq(|x|, i requires 0 <= i < |x| => !x[i]) }
  function And(x: Bits, y: Bits): (r: Bits) requires |x| == |y| ensures |r| == |x| {
    seq(|x|, i requires 0 <= i < |x| => x[i] && y[i])
  }
  function Or(x: Bits, y: Bits): (r: Bits) requires |x| == |y| ensures |r| == |x| {
    seq(|x|, i requires 0 <= i < |x| => x[i] || y[i])
  }
  function Xor(x: Bits, y: Bits): (r: Bits) requires |x| == |y| ensures |r| == |x| {
    seq(|x|, i requires 0 <= i < |x| => x[i] != y[i])
  }

  predicate NonZero(x: Bits) { exists i :: 0 <= i < |x| && x[i] }

  // ---------------------------------------------------------------- the formulas

  /** IntT(1 << bit): the 1 is a 32-bit signed int, so that bit 31 makes it negative
      and the conversion to a wider type copies its sign. */
  function Mask(w: nat, bit: nat): (m: Bits)
    requires bit < 32
    ensures |m| == w
  {
    seq(w, i => if bit < 31 then i == bit else i >= 31)
  }

  predicate CarriedOut(op: Operation, bit: nat, lhs: Bits, rhs: Bits, result: Bits)
    requires bit < 32 && |lhs| == |rhs| == |result|
  {
    var adj := if op == Subtract then Not(rhs) else rhs;
    var carry := NonZero(And(Mask(|lhs|, bit), And(Or(lhs, adj), Or(And(lhs, adj), Not(result)))));
    if op == Subtract then !carry else carry
  }

  predicate CarriedIn(bit: nat, lhs: Bits, rhs: Bits, result: Bits)
    requires bit < 32 && |lhs| == |rhs| == |result|
  {
    NonZero(And(Mask(|lhs|, bit), Xor(Xor(lhs, rhs), result)))
  }

  /** max - (max >> 1) */
  function TopBit(w: nat): (m: Bits)
    ensures |m| == w
  {
    seq(w, i => i == w - 1)
  }

  function Overflow(op: Operation, lhs: Bits, rhs: Bits, result: Bits): Bits
    requires |lhs| == |rhs| == |result|
  {
    var changed := Xor(result, lhs);
    var differed := Xor(lhs, rhs);
    if op == Add then And(And(TopBit(|lhs|), changed), Not(differed)) else And(And(TopBit(|lhs|), changed), differed)
  }

  // ---------------------------------------------------------------- what they mean

  /** result is lhs + rhs + c, or lhs - rhs - c, in w bits. */
  predicate Computes(op: Operation, lhs: Bits, rhs: Bits, c: bool, result: Bits) {
    && |lhs| == |rhs| == |result|
    && Value(result) ==
       (if op == Add then Value(lhs) + Value(rhs) + B(c) else Value(lhs) - Value(rhs) - B(c)) % Pow2(|lhs|)
  }

  /** The carry out of the low n bits of a sum, or the borrow of a difference. */
  predicate Carry(op: Operation, lhs: Bits, rhs: Bits, c: bool, n: nat)
    requires n <= |lhs| == |rhs|
  {
    if op == Add then Value(lhs[..n]) + Value(rhs[..n]) + B(c) >= Pow2(n)
    else Value(lhs[..n]) < Value(rhs[..n]) + B(c)
  }

  function Signed(x: Bits): int
    requires |x| > 0
  {
    Value(x) - if x[|x| - 1] then Pow2(|x|) else 0
  }

  lemma {:induction false} ValueBound(x: Bits)
    ensures Value(x) < Pow2(|x|)
  {
    if x != [] { ValueBound(x[..|x| - 1]); }
  }

  lemma ValueUpTo(x: Bits, n: nat)
    requires n < |x|
    ensures Value(x[..n + 1]) == Value(x[..n]) + Pow2(n) * B(x[n])
  {
    assert x[..n + 1][..n] == x[..n];
  }

  lemma {:induction false} ValueOfNot(x: Bits)
    ensures Value(x) + Value(Not(x)) == Pow2(|x|) - 1
  {
    if x != [] {
      var n := |x| - 1;
      ValueOfNot(x[..n]);
      assert Not(x)[..n] == Not(x[..n]);
    }
  }

  /** The sum of the low n bits, carry included, is what the low n bits of the result
      and the carry say: from the top bit down. */
  lemma {:induction false} LowSum(lhs: Bits, rhs: Bits, c: bool, result: Bits, n: nat)
    requires Computes(Add, lhs, rhs, c, result) && n <= |lhs|
    ensures Value(result[..n]) + Pow2(n) * B(Carry(Add, lhs, rhs, c, n)) == Value(lhs[..n]) + Value(rhs[..n]) + B(c)
    decreases |lhs| - n
  {
    hide Value;
    if n == |lhs| {
      WholeSum(lhs, rhs, c, result);
    } else {
      ValueBound(lhs[..n]);
      ValueBound(rhs[..n]);
      ValueBound(result[..n]);
      LowSum(lhs, rhs, c, result, n + 1);
      ValueUpTo(lhs, n);
      ValueUpTo(rhs, n);
      ValueUpTo(result, n);
      OneBitLess(Pow2(n), Value(result[..n]), Value(lhs[..n]) + Value(rhs[..n]) + B(c),
                 result[n], lhs[n], rhs[n], Carry(Add, lhs, rhs, c, n + 1));
    }
  }

  lemma WholeSum(lhs: Bits, rhs: Bits, c: bool, result: Bits)
    requires Computes(Add, lhs, rhs, c, result)
    ensures var n := |lhs|;
            Value(result[..n]) + Pow2(n) * B(Carry(Add, lhs, rhs, c, n)) == Value(lhs[..n]) + Value(rhs[..n]) + B(c)
  {
    hide Value, Pow2;
    var n := |lhs|;
    ValueBound(lhs);
    ValueBound(rhs);
    assert lhs[..n] == lhs && rhs[..n] == rhs && result[..n] == result;
    OneQuotient(Value(lhs) + Value(rhs) + B(c), Pow2(n));
  }

  lemma OneQuotient(total: nat, p: nat)
    requires p > 0 && total < 2 * p
    ensures total % p == if total >= p then total - p else total
  {
    if total >= p { DivMod(total, p, 1, total - p); } else { DivMod(total, p, 0, total); }
  }

  lemma OneBitLess(p: nat, low: nat, sum: nat, result: bool, l: bool, r: bool, carry: bool)
    requires low < p && sum < 2 * p
    requires low + p * B(result) + 2 * p * B(carry) == sum + p * B(l) + p * B(r)
    ensures low + p * B(sum >= p) == sum
  {
  }

  /** One position of an addition: the sum bit and the carry. */
  lemma SumBit(lhs: Bits, rhs: Bits, c: bool, result: Bits, n: nat)
    requires Computes(Add, lhs, rhs, c, result) && n < |lhs|
    ensures var cin := Carry(Add, lhs, rhs, c, n);
            && result[n] == ((lhs[n] != rhs[n]) != cin)
            && Carry(Add, lhs, rhs, c, n + 1) == ((lhs[n] && rhs[n]) || (cin && (lhs[n] || rhs[n])))
  {
    hide Value, Carry;
    LowSum(lhs, rhs, c, result, n);
    LowSum(lhs, rhs, c, result, n + 1);
    ValueUpTo(lhs, n);
    ValueUpTo(rhs, n);
    ValueUpTo(result, n);
    var cin, cout := Carry(Add, lhs, rhs, c, n), Carry(Add, lhs, rhs, c, n + 1);
    SameMultiple(Pow2(n), B(result[n]) + 2 * B(cout), B(lhs[n]) + B(rhs[n]) + B(cin));
  }

  lemma SameMultiple(p: nat, x: nat, y: nat)
    requires p > 0 && p * x == p * y
    ensures x == y
  {
  }

  /** A subtraction is the addition of the complement. */
  lemma SubtractIsAddNot(lhs: Bits, rhs: Bits, c: bool, result: Bits)
    requires Computes(Subtract, lhs, rhs, c, result)
    ensures Computes(Add, lhs, Not(rhs), !c, result)
  {
    hide Value, Pow2;
    var p := Pow2(|lhs|);
    ValueOfNot(rhs);
    ModuloPlus(Value(lhs) - Value(rhs) - B(c), p);
    assert Value(lhs) + Value(Not(rhs)) + B(!c) == Value(lhs) - Value(rhs) - B(c) + p;
  }

  lemma ModuloPlus(x: int, p: nat)
    requires p > 0
    ensures (x + p) % p == x % p
  {
    assert x == p * (x / p) + x % p;
    assert x + p == p * (x / p + 1) + x % p;
    DivMod(x + p, p, x / p + 1, x % p);
  }

  lemma BorrowIsNoCarry(lhs: Bits, rhs: Bits, c: bool, n: nat)
    requires n <= |lhs| == |rhs|
    ensures Carry(Subtract, lhs, rhs, c, n) == !Carry(Add, lhs, Not(rhs), !c, n)
  {
    hide Value, Pow2;
    assert Not(rhs)[..n] == Not(rhs[..n]);
    ValueOfNot(rhs[..n]);
  }

  // ---------------------------------------------------------------- exactness

  /** The mask selects exactly one bit. */
  predicate MaskIsBit(w: nat, bit: nat)
  {
    bit < w && (bit < 31 || (bit == 31 && w == 32))
  }

  lemma OneBitSelected(w: nat, bit: nat, x: Bits)
    requires MaskIsBit(w, bit) && |x| == w
    ensures NonZero(And(Mask(w, bit), x)) == x[bit]
  {
    var a := And(Mask(w, bit), x);
    assert a[bit] == x[bit];
  }

  /** `carried_out` is the carry or borrow out of bit `bit`. */
  lemma CarriedOutIsCarry(op: Operation, bit: nat, lhs: Bits, rhs: Bits, c: bool, result: Bits)
    requires Computes(op, lhs, rhs, c, result) && MaskIsBit(|lhs|, bit)
    ensures CarriedOut(op, bit, lhs, rhs, result) == Carry(op, lhs, rhs, c, bit + 1)
  {
    hide Carry, Computes, Mask;
    assert |lhs| == |rhs| == |result| by { SameWidth(op, lhs, rhs, c, result); }
    var adj, cin := if op == Subtract then Not(rhs) else rhs, if op == Subtract then !c else c;
    if op == Subtract {
      SubtractIsAddNot(lhs, rhs, c, result);
      BorrowIsNoCarry(lhs, rhs, c, bit + 1);
    }
    SumBit(lhs, adj, cin, result, bit);
    OneBitSelected(|lhs|, bit, And(Or(lhs, adj), Or(And(lhs, adj), Not(result))));
  }

  lemma SameWidth(op: Operation, lhs: Bits, rhs: Bits, c: bool, result: Bits)
    requires Computes(op, lhs, rhs, c, result)
    ensures |lhs| == |rhs| == |result|
  {
  }

  /** `carried_in` is the carry or borrow into bit `bit`. */
  lemma CarriedInIsCarry(op: Operation, bit: nat, lhs: Bits, rhs: Bits, c: bool, result: Bits)
    requires Computes(op, lhs, rhs, c, result) && MaskIsBit(|lhs|, bit)
    ensures CarriedIn(bit, lhs, rhs, result) == Carry(op, lhs, rhs, c, bit)
  {
    hide Carry, Computes, Mask;
    SameWidth(op, lhs, rhs, c, result);
    if op == Subtract {
      SubtractIsAddNot(lhs, rhs, c, result);
      BorrowIsNoCarry(lhs, rhs, c, bit);
      SumBit(lhs, Not(rhs), !c, result, bit);
    } else {
      SumBit(lhs, rhs, c, result, bit);
    }
    OneBitSelected(|lhs|, bit, Xor(Xor(lhs, rhs), result));
  }

  lemma {:induction false} ValueOfZeros(x: Bits)
    requires forall i :: 0 <= i < |x| ==> !x[i]
    ensures Value(x) == 0
  {
    if x != [] { ValueOfZeros(x[..|x| - 1]); }
  }

  /** Two numbers with only the top bit set: their sum is zero, and no carry leaves
      the low 32 bits. */
  lemma TopBits(w: nat)
    requires w > 32
    ensures Computes(Add, TopBit(w), TopBit(w), false, seq(w, _ => false))
    ensures !Carry(Add, TopBit(w), TopBit(w), false, 32)
    ensures CarriedOut(Add, 31, TopBit(w), TopBit(w), seq(w, _ => false))
  {
    var t, zeros := TopBit(w), seq(w, _ => false);
    ValueOfZeros(t[..w - 1]);
    ValueOfZeros(t[..32]);
    ValueOfZeros(zeros);
    OneQuotient(Pow2(w), Pow2(w));
    TopBitsCarry(w);
  }

  lemma TopBitsCarry(w: nat)
    requires w > 32
    ensures CarriedOut(Add, 31, TopBit(w), TopBit(w), seq(w, _ => false))
  {
    var t, zeros := TopBit(w), seq(w, _ => false);
    var m := And(Mask(w, 31), And(Or(t, t), Or(And(t, t), Not(zeros))));
    assert m[w - 1];
  }

  /** `carried_out` is exact at a width and bit if and only if its mask is that bit:
      at every bit of every width up to 32, and below bit 31 of a wider one. */
  lemma WhereCarriedOutIsExact(w: nat, bit: nat)
    requires bit < w && bit < 32
    ensures (forall op, lhs: Bits, rhs: Bits, c, result: Bits :: |lhs| == w && Computes(op, lhs, rhs, c, result) ==>
              CarriedOut(op, bit, lhs, rhs, result) == Carry(op, lhs, rhs, c, bit + 1))
            <==> w <= 32 || bit < 31
  {
    hide CarriedOut, Carry;
    if w <= 32 || bit < 31 {
      forall op, lhs: Bits, rhs: Bits, c, result: Bits | |lhs| == w && Computes(op, lhs, rhs, c, result)
        ensures CarriedOut(op, bit, lhs, rhs, result) == Carry(op, lhs, rhs, c, bit + 1)
      {
        CarriedOutIsCarry(op, bit, lhs, rhs, c, result);
      }
    } else {
      TopBits(w);
      assert CarriedOut(Add, bit, TopBit(w), TopBit(w), seq(w, _ => false))
          != Carry(Add, TopBit(w), TopBit(w), false, bit + 1);
    }
  }

  function Single(w: nat, k: nat): (x: Bits)
    ensures |x| == w
  {
    seq(w, i => i == k)
  }

  lemma {:induction false} ValueOfSingle(w: nat, k: nat)
    requires k < w
    ensures Value(Single(w, k)) == Pow2(k)
    decreases w
  {
    var x := Single(w, k);
    if k == w - 1 {
      ValueOfZeros(x[..w - 1]);
    } else {
      assert x[..w - 1] == Single(w - 1, k);
      ValueOfSingle(w - 1, k);
    }
  }

  lemma BelowTop(w: nat)
    requires w > 32
    ensures Computes(Add, Single(w, w - 2), Single(w, w - 2), false, Single(w, w - 1))
    ensures !Carry(Add, Single(w, w - 2), Single(w, w - 2), false, 31)
    ensures CarriedIn(31, Single(w, w - 2), Single(w, w - 2), Single(w, w - 1))
  {
    hide Value;
    var x, y := Single(w, w - 2), Single(w, w - 1);
    ValueOfSingle(w, w - 2);
    ValueOfSingle(w, w - 1);
    OneQuotient(Pow2(w - 1), Pow2(w));
    ValueOfZeros(x[..31]);
    var m := And(Mask(w, 31), Xor(Xor(x, x), y));
    assert m[w - 1];
  }

  /** `carried_in` likewise. */
  lemma WhereCarriedInIsExact(w: nat, bit: nat)
    requires bit < w && bit < 32
    ensures (forall op, lhs: Bits, rhs: Bits, c, result: Bits :: |lhs| == w && Computes(op, lhs, rhs, c, result) ==>
              CarriedIn(bit, lhs, rhs, result) == Carry(op, lhs, rhs, c, bit))
            <==> w <= 32 || bit < 31
  {
    hide CarriedIn, Carry;
    if w <= 32 || bit < 31 {
      forall op, lhs: Bits, rhs: Bits, c, result: Bits | |lhs| == w && Computes(op, lhs, rhs, c, result)
        ensures CarriedIn(bit, lhs, rhs, result) == Carry(op, lhs, rhs, c, bit)
      {
        CarriedInIsCarry(op, bit, lhs, rhs, c, result);
      }
    } else {
      BelowTop(w);
      assert CarriedIn(bit, Single(w, w - 2), Single(w, w - 2), Single(w, w - 1))
          != Carry(Add, Single(w, w - 2), Single(w, w - 2), false, bit);
    }
  }

  /** A bit number equal to the width, which the concept admits, selects nothing: no
      carry is ever reported, and a borrow always. */
  lemma BitPastTheTop(op: Operation, lhs: Bits, rhs: Bits, result: Bits)
    requires |lhs| == |rhs| == |result| < 31
    ensures CarriedOut(op, |lhs|, lhs, rhs, result) == (op == Subtract)
    ensures !CarriedIn(|lhs|, lhs, rhs, result)
  {
  }

  // ---------------------------------------------------------------- overflow

  predicate Fits(x: int, w: nat)
    requires w > 0
  {
    0 <= x + Pow2(w - 1) < 2 * Pow2(w - 1)
  }

  lemma SignedValue(x: Bits)
    requires x != []
    ensures var n := |x| - 1; Signed(x) == Value(x[..n]) - Pow2(n) * B(x[n])
  {
  }

  lemma SignedOfNot(x: Bits)
    requires x != []
    ensures Signed(Not(x)) == -Signed(x) - 1
  {
    hide Value, Pow2;
    ValueOfNot(x);
  }

  lemma OverflowOfAddition(lhs: Bits, rhs: Bits, c: bool, result: Bits)
    requires Computes(Add, lhs, rhs, c, result) && lhs != []
    ensures var n := |lhs| - 1;
            (result[n] != lhs[n] && lhs[n] == rhs[n]) == !Fits(Signed(lhs) + Signed(rhs) + B(c), |lhs|)
  {
    hide Value, Carry, Computes, Signed;
    SameWidth(Add, lhs, rhs, c, result);
    var n := |lhs| - 1;
    SumBit(lhs, rhs, c, result, n);
    LowSum(lhs, rhs, c, result, n);
    ValueBound(result[..n]);
    SignedValue(lhs);
    SignedValue(rhs);
    InRange(Pow2(n), Value(result[..n]), Carry(Add, lhs, rhs, c, n), lhs[n], rhs[n]);
  }

  lemma InRange(p: nat, low: nat, cin: bool, l: bool, r: bool)
    requires low < p
    ensures (0 <= low + p * B(cin) - p * B(l) - p * B(r) + p < 2 * p) == !(l == r && cin != l)
  {
  }

  /** The result of `overflow` has at most its top bit set, and has it set exactly when
      the signed result leaves the w-bit range. */
  lemma OverflowIsSigned(op: Operation, lhs: Bits, rhs: Bits, c: bool, result: Bits)
    requires Computes(op, lhs, rhs, c, result) && lhs != []
    ensures var exact := if op == Add then Signed(lhs) + Signed(rhs) + B(c) else Signed(lhs) - Signed(rhs) - B(c);
            NonZero(Overflow(op, lhs, rhs, result)) == !Fits(exact, |lhs|)
    ensures forall i :: 0 <= i < |lhs| - 1 ==> !Overflow(op, lhs, rhs, result)[i]
  {
    hide Value, Computes, Signed, Fits;
    SameWidth(op, lhs, rhs, c, result);
    var n := |lhs| - 1;
    var o := Overflow(op, lhs, rhs, result);
    assert o[n] == (result[n] != lhs[n] && (op == Add <==> lhs[n] == rhs[n]));
    assert NonZero(o) == o[n];
    if op == Add {
      OverflowOfAddition(lhs, rhs, c, result);
    } else {
      SubtractIsAddNot(lhs, rhs, c, result);
      OverflowOfAddition(lhs, Not(rhs), !c, result);
      SignedOfNot(rhs);
    }
  }
}
