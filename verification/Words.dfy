/** Eight- and sixteen-bit quantities, held as bounded integers with the
    truncation of C's `uint8_t` and `uint16_t` written out. */
module Words {
  type byte = x: int | 0 <= x < 0x100
  type word = x: int | 0 <= x < 0x1_0000

  /** A flat 64K memory, the bus the cores are run against. */
  type Ram = m: seq<byte> | |m| == 0x1_0000 witness seq(0x1_0000, _ => 0)

  function Low(x: int): byte { x % 0x100 }
  function Succ(b: byte): byte { Low(b + 1) }
  function High(w: word): byte { w / 0x100 }
  function Trunc(x: int): word { x % 0x1_0000 }

  lemma TruncTrunc(x: int, k: int)
    ensures Trunc(Trunc(x) + k) == Trunc(x + k)
  {
  }

  function Pair(high: byte, low: byte): word { high * 0x100 + low }

  function Nibble(x: int): (r: byte) ensures r < 0x10 { x % 0x10 }

  /** Bit 7 of the low byte of x. */
  predicate Sign(x: int) { x / 0x80 % 2 == 1 }

  lemma PairUp(w: word)
    ensures Pair(High(w), Low(w)) == w
  {
  }

  function Bit(b: bool): byte { if b then 1 else 0 }

  /** A byte read as a signed 8-bit displacement. */
  function Signed(b: byte): int { if b < 0x80 then b else b - 0x100 }

  function BitAnd(x: byte, y: byte): byte { ((x as bv8) & (y as bv8)) as int }
  function BitOr(x: byte, y: byte): byte { ((x as bv8) | (y as bv8)) as int }
  function BitXor(x: byte, y: byte): byte { ((x as bv8) ^ (y as bv8)) as int }
}
