/** The machine integers the kernel stores in memory. */
module Machine {

  const WORD: nat := 0x1_0000_0000
  const INT_MAX: int := 0x7fff_ffff

  type u32 = x: nat | x < 0x1_0000_0000
  type byte = x: nat | x < 256

  /** The sum of a 32-bit counter and a difference, with wrap-around. */
  function Add32(x: u32, d: int): u32 {
    (x + d) % WORD
  }

  /** The value an `int` variable holds after an `unsigned int` is stored in it. */
  function ToInt(x: u32): int {
    if x <= INT_MAX then x else x - WORD
  }

  const INT_MIN: int := -0x8000_0000

  /** `c++` on an `int`. */
  function Increment(c: int): int {
    if c == INT_MAX then INT_MIN else c + 1
  }

  function Min(a: int, b: int): int {
    if a <= b then a else b
  }

  lemma ModCongruent(a: int, b: int, k: int)
    requires a == b + k * WORD
    ensures a % WORD == b % WORD
  {
    var q, r := b / WORD, b % WORD;
    assert b == q * WORD + r;
    assert a == (q + k) * WORD + r;
    ModUnique(a, q + k, r);
  }

  lemma ModUnique(a: int, q: int, r: int)
    requires a == q * WORD + r && 0 <= r < WORD
    ensures a % WORD == r
  {
  }
}
