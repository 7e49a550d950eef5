/** Stack discipline: page one, indexed by S, is a last-in-first-out store for as
    long as at most 256 bytes are outstanding, wherever S starts. */
module Stack {
  import opened Words
  import opened Isa

  const CAPACITY: nat := 0x100

  /** Where the byte at depth k below the top lives. */
  function Slot(s: Arch, k: nat): (r: word) { 0x100 + Low(s.s + 1 + k) }

  /** The outstanding bytes are `bytes`, the top one first. */
  predicate Holds(s: Arch, bytes: seq<byte>) {
    |bytes| <= CAPACITY && forall k :: 0 <= k < |bytes| ==> s.ram[Slot(s, k)] == bytes[k]
  }

  lemma PushHolds(s: Arch, v: byte, bytes: seq<byte>)
    requires Holds(s, bytes) && |bytes| < CAPACITY
    ensures Holds(PushByte(s, v), [v] + bytes)
  {
    hide Low;
    var t := PushByte(s, v);
    forall k | 0 <= k < |bytes| + 1 ensures t.ram[Slot(t, k)] == ([v] + bytes)[k] {
      Shifted(s.s, k);
      if k > 0 { assert s.ram[Slot(s, k - 1)] == bytes[k - 1]; }
    }
  }

  lemma Shifted(s: byte, k: nat)
    requires k < CAPACITY
    ensures Low(Low(s - 1) + 1 + k) == Low(s + k)
    ensures Low(s + k) == s <==> k == 0
  {
  }

  lemma PullHolds(s: Arch, bytes: seq<byte>)
    requires Holds(s, bytes) && bytes != []
    ensures Top(s) == bytes[0] && Holds(Drop(s), bytes[1..])
  {
    hide Low;
    assert s.ram[Slot(s, 0)] == bytes[0];
    var t := Drop(s);
    forall k | 0 <= k < |bytes| - 1 ensures t.ram[Slot(t, k)] == bytes[1..][k] {
      assert s.ram[Slot(s, k + 1)] == bytes[k + 1];
      Deeper(s.s, k);
    }
  }

  lemma Deeper(s: byte, k: nat)
    ensures Low(Low(s + 1) + 1 + k) == Low(s + 1 + (k + 1))
  {
  }

  // ---------------------------------------------------------------- histories

  datatype Access = Push(v: byte) | Pull

  /** The ring after a history, and the bytes its pulls returned. */
  function OnRing(s: Arch, history: seq<Access>): (r: (Arch, seq<byte>))
    decreases |history|
  {
    if history == [] then (s, []) else
    match history[0]
    case Push(v) => OnRing(PushByte(s, v), history[1..])
    case Pull =>
      var (t, pulled) := OnRing(Drop(s), history[1..]);
      (t, [Top(s)] + pulled)
  }

  /** The same history on a list; a history that pulls from an empty list, or holds
      more than 256 bytes at once, has no meaning there. */
  datatype Lifo = Broken | Lifo(bytes: seq<byte>, pulled: seq<byte>)

  function OnList(bytes: seq<byte>, history: seq<Access>): Lifo
    decreases |history|
  {
    if history == [] then Lifo(bytes, []) else
    match history[0]
    case Push(v) => if |bytes| == CAPACITY then Broken else OnList([v] + bytes, history[1..])
    case Pull =>
      if bytes == [] then Broken else
      match OnList(bytes[1..], history[1..])
      case Broken => Broken
      case Lifo(rest, pulled) => Lifo(rest, [bytes[0]] + pulled)
  }

  /** The ring refines the list. */
  lemma {:induction false} RingRefinesList(s: Arch, bytes: seq<byte>, history: seq<Access>)
    requires Holds(s, bytes) && OnList(bytes, history).Lifo?
    ensures var (t, pulled) := OnRing(s, history);
            Holds(t, OnList(bytes, history).bytes) && pulled == OnList(bytes, history).pulled
    decreases |history|
  {
    hide PushByte, Drop, Top, Low;
    if history != [] {
      match history[0]
      case Push(v) =>
        PushHolds(s, v, bytes);
        RingRefinesList(PushByte(s, v), [v] + bytes, history[1..]);
      case Pull =>
        PullHolds(s, bytes);
        RingRefinesList(Drop(s), bytes[1..], history[1..]);
    }
  }

  /** 256 is the most: one byte further and the oldest is the one just pushed. */
  lemma OneTooMany(s: Arch, v: byte, bytes: seq<byte>)
    requires Holds(s, bytes) && |bytes| == CAPACITY
    ensures PushByte(s, v).ram[Slot(PushByte(s, v), CAPACITY)] == v
  {
  }

  // ---------------------------------------------------------------- nesting

  /** The ways of leaving something on the stack to be taken back later. */
  datatype Kind = Subroutine(low: byte) | SaveA | SaveFlags | Interrupt(vector: word, brk: bool)

  function Opening(kind: Kind, s: Arch): Arch
    requires kind.Interrupt? ==> kind.vector < 0xFFFF
  {
    match kind
    case Subroutine(low) => CallTo(s, low)
    case SaveA => PushByte(s, s.a)
    case SaveFlags => PushByte(s, Pack(s.f, true))
    case Interrupt(vector, brk) => Enter(s, vector, brk)
  }

  function Closing(kind: Kind, s: Arch): Arch {
    match kind
    case Subroutine(_) => PullPc(s, 1)
    case SaveA => LoadA(Drop(s), Top(s))
    case SaveFlags => PullFlags(s)
    case Interrupt(_, _) => PullPc(PullFlags(s), 0)
  }

  /** The frame an opening pushes, the top byte first. */
  function Frame(kind: Kind, s: Arch): seq<byte> {
    match kind
    case Subroutine(_) => [Low(Trunc(s.pc - 1)), High(Trunc(s.pc - 1))]
    case SaveA => [s.a]
    case SaveFlags => [Pack(s.f, true)]
    case Interrupt(_, brk) => [Pack(s.f, brk), Low(s.pc), High(s.pc)]
  }

  /** What a closing gives back of the state the opening saw. */
  predicate Restored(kind: Kind, s: Arch, t: Arch) {
    && t.s == s.s
    && match kind
       case Subroutine(_) => t.pc == s.pc
       case SaveA => t.a == s.a
       case SaveFlags => t.f == s.f
       case Interrupt(_, _) => t.pc == s.pc && t.f == s.f
  }

  lemma OpeningHolds(kind: Kind, s: Arch, bytes: seq<byte>)
    requires kind.Interrupt? ==> kind.vector < 0xFFFF
    requires Holds(s, bytes) && |Frame(kind, s)| + |bytes| <= CAPACITY
    ensures Holds(Opening(kind, s), Frame(kind, s) + bytes)
    ensures Opening(kind, s).s == Low(s.s - |Frame(kind, s)|)
  {
    hide PushByte, Pack, Low, High, Trunc, Holds;
    match kind
    case Subroutine(_) =>
      var last := Trunc(s.pc - 1);
      PushTwo(s, last, bytes);
      SameStack(PushWord(s, last), CallTo(s, kind.low), [Low(last), High(last)] + bytes);
    case SaveA => PushOne(s, s.a, bytes);
    case SaveFlags => PushOne(s, Pack(s.f, true), bytes);
    case Interrupt(vector, brk) =>
      PushTwo(s, s.pc, bytes);
      var two := [Low(s.pc), High(s.pc)] + bytes;
      var t := PushByte(PushWord(s, s.pc), Pack(s.f, brk));
      PushOne(PushWord(s, s.pc), Pack(s.f, brk), two);
      assert [Pack(s.f, brk)] + two == Frame(kind, s) + bytes;
      SameStack(t, Enter(s, vector, brk), Frame(kind, s) + bytes);
      LowLow(s.s, 2, 1);
  }

  lemma LowLow(s: byte, j: nat, k: nat)
    ensures Low(Low(s - j) - k) == Low(s - (j + k))
    ensures Low(Low(s - j) + k) == Low(s - (j - k))
    ensures Low(s) == s
  {
  }

  lemma SameStack(s: Arch, t: Arch, bytes: seq<byte>)
    requires Holds(s, bytes) && t.s == s.s && t.ram == s.ram
    ensures Holds(t, bytes)
  {
    assert forall k: nat :: Slot(s, k) == Slot(t, k);
  }

  lemma PushOne(s: Arch, v: byte, bytes: seq<byte>)
    requires Holds(s, bytes) && |bytes| < CAPACITY
    ensures Holds(PushByte(s, v), [v] + bytes) && PushByte(s, v).s == Low(s.s - 1)
  {
    PushHolds(s, v, bytes);
  }

  lemma PushTwo(s: Arch, w: word, bytes: seq<byte>)
    requires Holds(s, bytes) && |bytes| + 2 <= CAPACITY
    ensures Holds(PushWord(s, w), [Low(w), High(w)] + bytes) && PushWord(s, w).s == Low(s.s - 2)
  {
    hide PushByte, Holds, Low, High;
    PushOne(s, High(w), bytes);
    PushOne(PushByte(s, High(w)), Low(w), [High(w)] + bytes);
    assert [Low(w)] + ([High(w)] + bytes) == [Low(w), High(w)] + bytes;
    LowLow(s.s, 1, 1);
  }

  lemma FlagsSurvive(f: Flags, brk: bool)
    ensures Unpack(Pack(f, brk)) == f
  {
    var p: int := Pack(f, brk);
    var v := Bit(f.v) + 2 * Bit(f.n);
    var d := Bit(f.d) + 2 * (Bit(brk) + 2 * (1 + 2 * v));
    var i := Bit(f.i) + 2 * d;
    var z := Bit(f.z) + 2 * i;
    assert p == Bit(f.c) + 2 * z;
    assert p / 2 == z && p / 4 == i && p / 8 == d;
    assert p / 0x40 == v && p / 0x80 == Bit(f.n);
  }

  lemma PullOne(s: Arch, v: byte, bytes: seq<byte>)
    requires Holds(s, [v] + bytes)
    ensures Top(s) == v && Holds(Drop(s), bytes) && Drop(s).s == Low(s.s + 1)
  {
    PullHolds(s, [v] + bytes);
    assert ([v] + bytes)[1..] == bytes;
  }

  lemma PullTwo(s: Arch, low: byte, high: byte, offset: nat, bytes: seq<byte>)
    requires Holds(s, [low, high] + bytes)
    ensures Holds(PullPc(s, offset), bytes) && PullPc(s, offset).s == Low(s.s + 2)
    ensures PullPc(s, offset).pc == Trunc(Pair(high, low) + offset)
  {
    hide Holds, Top, Low, Trunc, Pair;
    assert [low, high] + bytes == [low] + ([high] + bytes);
    PullOne(s, low, [high] + bytes);
    PullOne(Drop(s), high, bytes);
    SameStack(Drop(Drop(s)), PullPc(s, offset), bytes);
    Deeper(s.s, 0);
  }

  lemma ClosingRestores(kind: Kind, s: Arch, t: Arch, bytes: seq<byte>)
    requires Holds(t, Frame(kind, s) + bytes) && t.s == Low(s.s - |Frame(kind, s)|)
    ensures Holds(Closing(kind, t), bytes) && Restored(kind, s, Closing(kind, t))
  {
    hide Holds, Low, High, Trunc, Pair, Pack, Unpack, Top, Drop, PullPc;
    match kind
    case Subroutine(_) =>
      var last := Trunc(s.pc - 1);
      PullTwo(t, Low(last), High(last), 1, bytes);
      LowLow(s.s, 2, 2);
      ReturnAddress(s.pc);
    case SaveA =>
      PullOne(t, s.a, bytes);
      LowLow(s.s, 1, 1);
      SameStack(Drop(t), Closing(kind, t), bytes);
      PulledA(t);
    case SaveFlags =>
      PullOne(t, Pack(s.f, true), bytes);
      LowLow(s.s, 1, 1);
      FlagsSurvive(s.f, true);
      SameStack(Drop(t), Closing(kind, t), bytes);
    case Interrupt(_, brk) =>
      var two := [Low(s.pc), High(s.pc)] + bytes;
      assert Frame(kind, s) + bytes == [Pack(s.f, brk)] + two;
      PullOne(t, Pack(s.f, brk), two);
      FlagsSurvive(s.f, brk);
      SameStack(Drop(t), PullFlags(t), two);
      PullTwo(PullFlags(t), Low(s.pc), High(s.pc), 0, bytes);
      LowLow(s.s, 3, 1);
      LowLow(s.s, 2, 2);
      ReturnAddress(s.pc);
      PulledFlags(PullFlags(t));
  }

  lemma ReturnAddress(pc: word)
    ensures Trunc(Pair(High(Trunc(pc - 1)), Low(Trunc(pc - 1))) + 1) == pc
    ensures Trunc(Pair(High(pc), Low(pc)) + 0) == pc
  {
    hide Pair, High, Low;
    PairUp(Trunc(pc - 1));
    PairUp(pc);
  }

  lemma PulledA(t: Arch)
    ensures LoadA(Drop(t), Top(t)).s == Drop(t).s && LoadA(Drop(t), Top(t)).ram == Drop(t).ram
    ensures LoadA(Drop(t), Top(t)).a == Top(t)
  {
  }

  lemma PulledFlags(t: Arch)
    ensures PullPc(t, 0).f == t.f
  {
  }

  /** A well-nested history: between openings and closings anything may happen to
      the registers, the flags, pc and memory. */
  datatype Program =
    | Done
    | Free(to: Arch, rest: Program)
    | Nested(kind: Kind, body: Program, rest: Program)

  function Perform(s: Arch, p: Program): Arch
    requires WellFormed(p)
    decreases p
  {
    match p
    case Done => s
    case Free(to, rest) => Perform(to, rest)
    case Nested(kind, body, rest) => Perform(Closing(kind, Perform(Opening(kind, s), body)), rest)
  }

  predicate WellFormed(p: Program) {
    match p
    case Done => true
    case Free(_, rest) => WellFormed(rest)
    case Nested(kind, body, rest) =>
      (kind.Interrupt? ==> kind.vector < 0xFFFF) && WellFormed(body) && WellFormed(rest)
  }

  /** The free steps leave S and the outstanding bytes alone, and no more than 256
      bytes are outstanding at once. */
  predicate Undisturbed(s: Arch, p: Program, bytes: seq<byte>)
    requires WellFormed(p)
    decreases p
  {
    match p
    case Done => true
    case Free(to, rest) => to.s == s.s && Holds(to, bytes) && Undisturbed(to, rest, bytes)
    case Nested(kind, body, rest) =>
      && |Frame(kind, s)| + |bytes| <= CAPACITY
      && Undisturbed(Opening(kind, s), body, Frame(kind, s) + bytes)
      && Undisturbed(Closing(kind, Perform(Opening(kind, s), body)), rest, bytes)
  }

  /** A well-nested history leaves S and the bytes below it as they were. */
  lemma {:induction false} NestingIsBalanced(s: Arch, p: Program, bytes: seq<byte>)
    requires WellFormed(p) && Holds(s, bytes) && Undisturbed(s, p, bytes)
    ensures Holds(Perform(s, p), bytes) && Perform(s, p).s == s.s
    decreases p, 0
  {
    hide Holds, Opening, Closing, Low;
    match p
    case Done =>
    case Free(to, rest) => NestingIsBalanced(to, rest, bytes);
    case Nested(kind, body, rest) =>
      LevelIsRestored(kind, s, body, bytes);
      NestingIsBalanced(Closing(kind, Perform(Opening(kind, s), body)), rest, bytes);
  }

  /** Every level: what a call, a save or an interrupt put away comes back, whatever
      well-nested history ran in between. */
  lemma {:induction false} LevelIsRestored(kind: Kind, s: Arch, body: Program, bytes: seq<byte>)
    requires kind.Interrupt? ==> kind.vector < 0xFFFF
    requires WellFormed(body) && Holds(s, bytes) && |Frame(kind, s)| + |bytes| <= CAPACITY
    requires Undisturbed(Opening(kind, s), body, Frame(kind, s) + bytes)
    ensures Restored(kind, s, Closing(kind, Perform(Opening(kind, s), body)))
    ensures Holds(Closing(kind, Perform(Opening(kind, s), body)), bytes)
    decreases body, 1
  {
    hide Holds, Opening, Closing, Low, Perform, Undisturbed;
    OpeningHolds(kind, s, bytes);
    NestingIsBalanced(Opening(kind, s), body, Frame(kind, s) + bytes);
    ClosingRestores(kind, s, Perform(Opening(kind, s), body), bytes);
  }

  /** An interrupt entry pushes exactly three bytes: the flags with B set for a
      software entry only, then the return address; nothing else in memory moves. */
  lemma EntryPushesThree(s: Arch, vector: word, brk: bool, at: word)
    requires vector < 0xFFFF
    ensures var t := Enter(s, vector, brk);
            && t.s == Low(s.s - 3) && t.f == s.f.(i := true)
            && (t.ram[Slot(t, 0)] / 0x10 % 2 == 1 <==> brk) && Unpack(t.ram[Slot(t, 0)]) == s.f
            && Pair(t.ram[Slot(t, 2)], t.ram[Slot(t, 1)]) == s.pc
            && (at !in {Slot(t, 0), Slot(t, 1), Slot(t, 2)} ==> t.ram[at] == s.ram[at])
  {
    hide Pack, Unpack, VectorAt, Pair, High, Low;
    FlagsSurvive(s.f, brk);
    BreakBit(s.f, brk);
    PairUp(s.pc);
    var kind := Interrupt(vector, brk);
    var t := Enter(s, vector, brk);
    OpeningHolds(kind, s, []);
    assert Frame(kind, s) + [] == Frame(kind, s);
    assert t.ram[Slot(t, 0)] == Frame(kind, s)[0] && t.ram[Slot(t, 1)] == Frame(kind, s)[1];
    assert t.ram[Slot(t, 2)] == Frame(kind, s)[2];
    EntrySlots(s.s);
  }

  lemma EntrySlots(s: byte)
    ensures Low(Low(s - 3) + 1 + 0) == Low(Low(s - 1) - 1) && Low(Low(s - 3) + 1 + 1) == Low(s - 1)
    ensures Low(Low(s - 3) + 1 + 2) == s
  {
    hide Low;
    LowLow(s, 1, 1);
    LowLow(s, 3, 1);
    LowLow(s, 3, 2);
    LowLow(s, 3, 3);
  }

  lemma BreakBit(f: Flags, brk: bool)
    ensures Pack(f, brk) / 0x10 % 2 == 1 <==> brk
  {
  }
}
