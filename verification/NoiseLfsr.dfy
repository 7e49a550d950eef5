/** The noise generator of the AY-3-8910: a 17-bit shift register in a 32-bit word. */
module NoiseLfsr {
  const PERIOD: nat := 131071

  /** One step, in the operations of the source. */
  function Step(r: bv32): bv32 { (r ^ (((r & 1) ^ ((r >> 3) & 1)) << 17)) >> 1 }

  /** The step undone. */
  function Back(r: bv32): bv32 { ((r << 1) & 0x1FFFE) | ((r >> 16) ^ ((r >> 2) & 1)) }

  predicate InRange(r: bv32) { 0 < r < 0x20000 }

  /** The step is a bijection of the nonzero 17-bit values, with this inverse. */
  lemma StepIsBijective(r: bv32)
    requires InRange(r)
    ensures InRange(Step(r)) && Back(Step(r)) == r
    ensures InRange(Back(r)) && Step(Back(r)) == r
  {
    hide Step, Back;
    StepStaysInRange(r);
    BackStaysInRange(r);
    BackAfterStep(r);
    StepAfterBack(r);
  }

  lemma StepStaysInRange(r: bv32) requires InRange(r) ensures InRange(Step(r)) { }
  lemma BackStaysInRange(r: bv32) requires InRange(r) ensures InRange(Back(r)) { }
  lemma BackAfterStep(r: bv32) requires InRange(r) ensures Back(Step(r)) == r { }
  lemma StepAfterBack(r: bv32) requires InRange(r) ensures Step(Back(r)) == r { }

  function Steps(n: nat, r: bv32): bv32 { if n == 0 then r else Step(Steps(n - 1, r)) }

  /** The value after n steps from the seed the chip starts with. */
  function Noise(n: nat): bv32 { Steps(n, 1) }

  lemma {:induction false} StaysInRange(n: nat, r: bv32)
    requires InRange(r)
    ensures InRange(Steps(n, r))
  {
    if n > 0 {
      StaysInRange(n - 1, r);
      StepIsBijective(Steps(n - 1, r));
    }
  }

  lemma {:induction false} StepsAdd(m: nat, n: nat, r: bv32)
    ensures Steps(m + n, r) == Steps(m, Steps(n, r))
  {
    if m > 0 { StepsAdd(m - 1, n, r); }
  }

  lemma {:induction false} StepsInjective(n: nat, r: bv32, s: bv32)
    requires InRange(r) && InRange(s) && Steps(n, r) == Steps(n, s)
    ensures r == s
  {
    hide Step, InRange;
    if n > 0 {
      StaysInRange(n - 1, r);
      StaysInRange(n - 1, s);
      StepIsBijective(Steps(n - 1, r));
      StepIsBijective(Steps(n - 1, s));
      StepsInjective(n - 1, r, s);
    }
  }

  // ---------------------------------------------------------------- the period

  function Plus(r: bv32, s: bv32): bv32 { r ^ s }
  function On(m: bv32, r: bv32): bv32 { if m == 0 then 0 else r }
  function Sum4(a: bv32, b: bv32, c: bv32, d: bv32): bv32 { Plus(Plus(a, b), Plus(c, d)) }

  lemma StepIsLinear(r: bv32, s: bv32)
    ensures Step(Plus(r, s)) == Plus(Step(r), Step(s))
  {
  }

  lemma StepOfNothing()
    ensures Step(0) == 0
  {
  }

  /** The sum of the steps of r whose numbers are the bits set in q. */
  function Comb(q: bv32, r: bv32): bv32 {
    var r4 := Step4(r); var r8 := Step4(r4); var r12 := Step4(r8); var r16 := Step4(r12);
    Plus(Sum4(Quad(q, r), Quad(q >> 4, r4), Quad(q >> 8, r8), Quad(q >> 12, r12)), On(q & 0x10000, r16))
  }

  function Step4(r: bv32): bv32 { Step(Step(Step(Step(r)))) }

  /** The same for the lowest four bits of q. */
  function Quad(q: bv32, r: bv32): bv32 {
    Sum4(On(q & 1, r), On(q & 2, Step(r)), On(q & 4, Step(Step(r))), On(q & 8, Step(Step(Step(r)))))
  }

  lemma Sum4IsLinear(a: bv32, b: bv32, c: bv32, d: bv32)
    ensures Step(Sum4(a, b, c, d)) == Sum4(Step(a), Step(b), Step(c), Step(d))
  {
    hide Step, Plus;
    StepIsLinear(a, b);
    StepIsLinear(c, d);
    StepIsLinear(Plus(a, b), Plus(c, d));
  }

  lemma OnIsLinear(m: bv32, r: bv32)
    ensures Step(On(m, r)) == On(m, Step(r))
  {
    hide Step;
    StepOfNothing();
  }

  lemma QuadCommutes(q: bv32, r: bv32)
    ensures Quad(q, Step(r)) == Step(Quad(q, r))
  {
    hide Step, Sum4, On;
    var a, b, c, d := q & 1, q & 2, q & 4, q & 8;
    OnIsLinear(a, r);
    OnIsLinear(b, Step(r));
    OnIsLinear(c, Step(Step(r)));
    OnIsLinear(d, Step(Step(Step(r))));
    Sum4IsLinear(On(a, r), On(b, Step(r)), On(c, Step(Step(r))), On(d, Step(Step(Step(r)))));
  }

  lemma CombCommutes(q: bv32, r: bv32)
    ensures Comb(q, Step(r)) == Step(Comb(q, r))
  {
    hide Step, Sum4, On, Quad, Plus;
    var r4 := Step4(r);
    var r8 := Step4(r4);
    var r12 := Step4(r8);
    var r16 := Step4(r12);
    QuadCommutes(q, r);
    QuadCommutes(q >> 4, r4);
    QuadCommutes(q >> 8, r8);
    QuadCommutes(q >> 12, r12);
    OnIsLinear(q & 0x10000, r16);
    Sum4IsLinear(Quad(q, r), Quad(q >> 4, r4), Quad(q >> 8, r8), Quad(q >> 12, r12));
    StepIsLinear(Sum4(Quad(q, r), Quad(q >> 4, r4), Quad(q >> 8, r8), Quad(q >> 12, r12)), On(q & 0x10000, r16));
  }

  lemma {:induction false} CombOfSteps(q: bv32, n: nat, r: bv32)
    ensures Comb(q, Steps(n, r)) == Steps(n, Comb(q, r))
  {
    hide Step, Comb;
    if n > 0 {
      CombOfSteps(q, n - 1, r);
      CombCommutes(q, Steps(n - 1, r));
    }
  }

  /** If n steps from the seed give Comb(q, 1), then n more give Comb(q, _) of that. */
  lemma Doubling(n: nat, q: bv32, v: bv32, w: bv32)
    requires Noise(n) == v && Comb(q, 1) == v && Comb(q, v) == w
    ensures Noise(2 * n) == w
  {
    hide Step, Comb;
    StepsAdd(n, n, 1);
    CombOfSteps(q, n, 1);
  }

  /** q says which of the first seventeen values sum to v, and w is that sum from v on. */
  predicate Doubles(q: bv32, v: bv32, w: bv32) { Comb(q, 1) == v && Comb(q, v) == w }

  lemma Doubles0()
    ensures Doubles(0x2, 0x10000, 0x8000)
    ensures Doubles(0x4, 0x8000, 0x2000)
    ensures Doubles(0x10, 0x2000, 0x200)
    ensures Doubles(0x100, 0x200, 0x8002)
  {
  }

  lemma Doubles4()
    ensures Doubles(0x10000, 0x8002, 0x2004)
    ensures Doubles(0x8012, 0x2004, 0x212)
    ensures Doubles(0x12104, 0x212, 0x8126)
    ensures Doubles(0x19202, 0x8126, 0x10496)
  {
  }

  lemma Doubles8()
    ensures Doubles(0x1a484, 0x10496, 0xc93e)
    ensures Doubles(0x1f24a, 0xc93e, 0x10dde)
    ensures Doubles(0x1eec4, 0x10dde, 0x1fb56)
    ensures Doubles(0x1ab78, 0x1fb56, 0x11994)
  {
  }

  lemma Doubles12()
    ensures Doubles(0xa660, 0x11994, 0x1e992)
    ensures Doubles(0x1265a, 0x1e992, 0x1c304)
    ensures Doubles(0x830c, 0x1c304, 0x10810)
    ensures Doubles(0x2042, 0x10810, 0x8100)
  {
  }

  lemma Doubles16()
    ensures Doubles(0x204, 0x8100, 0x10000)
  {
  }

  lemma Twice(n: nat, q: bv32, v: bv32, w: bv32)
    requires Noise(n) == v && Doubles(q, v, w)
    ensures Noise(2 * n) == w
  {
    hide Comb, Steps;
    Doubling(n, q, v, w);
  }

  lemma EightDoublings()
    ensures Noise(256) == 0x10496
  {
    hide Doubles, Noise;
    FirstStep();
    Doubles0();
    Doubles4();
    Twice(1, 0x2, 0x10000, 0x8000);
    Twice(2, 0x4, 0x8000, 0x2000);
    Twice(4, 0x10, 0x2000, 0x200);
    Twice(8, 0x100, 0x200, 0x8002);
    Twice(16, 0x10000, 0x8002, 0x2004);
    Twice(32, 0x8012, 0x2004, 0x212);
    Twice(64, 0x12104, 0x212, 0x8126);
    Twice(128, 0x19202, 0x8126, 0x10496);
  }

  /** Seventeen doublings: value number 2^17 is value number 1. */
  lemma FullTurn()
    ensures Noise(PERIOD + 1) == Noise(1)
  {
    hide Doubles, Noise;
    FirstStep();
    EightDoublings();
    Doubles8();
    Doubles12();
    Doubles16();
    Twice(256, 0x1a484, 0x10496, 0xc93e);
    Twice(512, 0x1f24a, 0xc93e, 0x10dde);
    Twice(1024, 0x1eec4, 0x10dde, 0x1fb56);
    Twice(2048, 0x1ab78, 0x1fb56, 0x11994);
    Twice(4096, 0xa660, 0x11994, 0x1e992);
    Twice(8192, 0x1265a, 0x1e992, 0x1c304);
    Twice(16384, 0x830c, 0x1c304, 0x10810);
    Twice(32768, 0x2042, 0x10810, 0x8100);
    Twice(65536, 0x204, 0x8100, 0x10000);
  }

  lemma FirstStep()
    ensures Noise(1) == 0x10000
  {
    assert Steps(0, 1) == 1;
  }

  lemma ReturnsToSeed()
    ensures Noise(PERIOD) == 1
  {
    hide Step, Back;
    FullTurn();
    StaysInRange(PERIOD, 1);
    assert Step(Noise(PERIOD)) == Noise(PERIOD + 1);
    assert Step(Noise(0)) == Noise(1);
    StepIsBijective(Noise(PERIOD));
    StepIsBijective(1);
  }

  // ---------------------------------------------------------------- exactness

  lemma SmallFactors(d: nat, e: nat)
    requires 2 <= d < 363
    ensures d * e != PERIOD
  {
  }

  /** 2^17 - 1 is prime. */
  lemma PeriodIsPrime(d: nat)
    requires 1 < d < PERIOD
    ensures PERIOD % d != 0
  {
    var e := PERIOD / d;
    if PERIOD % d == 0 {
      assert d * e == PERIOD;
      if d < 363 { SmallFactors(d, e); }
      else if 2 <= e < 363 { SmallFactors(e, d); }
      else if e >= 363 { Product(d, e); }
    }
  }

  lemma Product(d: nat, e: nat)
    requires d >= 363 && e >= 363
    ensures d * e > PERIOD
  {
    assert d * e >= 363 * e;
  }

  lemma ReturnsRepeat(d: nat, n: nat)
    requires Noise(d) == 1 && d > 0
    ensures Noise(n) == Noise(n % d)
  {
    hide Noise;
    Rounds(d, n / d, n % d);
    assert n / d * d + n % d == n;
  }

  lemma {:induction false} Rounds(d: nat, q: nat, r: nat)
    requires Noise(d) == 1
    ensures Noise(q * d + r) == Noise(r)
  {
    hide Step, Steps;
    if q > 0 {
      var before := (q - 1) * d + r;
      assert q * d + r == before + d;
      StepsAdd(before, d, 1);
      Rounds(d, q - 1, r);
    }
  }

  /** The seed does not come back early: a first return would divide a prime. */
  lemma {:induction false} NoEarlyReturn(d: nat)
    requires 0 < d < PERIOD
    ensures Noise(d) != 1
    decreases d
  {
    hide Step, Steps;
    FirstStep();
    if d > 1 && Noise(d) == 1 {
      ReturnsToSeed();
      ReturnsRepeat(d, PERIOD);
      PeriodIsPrime(d);
      NoEarlyReturn(PERIOD % d);
    }
  }

  /** The noise is purely periodic with period exactly 2^17 - 1, from the very first
      value, and never reaches the value zero, where it would lock up. */
  lemma NoisePeriod(i: nat, j: nat)
    ensures InRange(Noise(i))
    ensures Noise(i) == Noise(j) <==> i % PERIOD == j % PERIOD
  {
    hide Step, Steps;
    StaysInRange(i, 1);
    ReturnsToSeed();
    ReturnsRepeat(PERIOD, i);
    ReturnsRepeat(PERIOD, j);
    var a, b := i % PERIOD, j % PERIOD;
    if a < b { Distinct(a, b); } else if b < a { Distinct(b, a); }
  }

  lemma Distinct(a: nat, b: nat)
    requires a < b < PERIOD
    ensures Noise(a) != Noise(b)
  {
    hide Step, Steps;
    StepsAdd(a, b - a, 1);
    if Noise(a) == Noise(b) {
      StaysInRange(b - a, 1);
      StepsInjective(a, 1, Noise(b - a));
      NoEarlyReturn(b - a);
    }
  }
}
