/** The source's unsigned integer types and small facts about natural numbers. */
module Numbers {

  const TWO16: nat := 0x1_0000
  const TWO31: nat := 0x8000_0000
  const TWO32: nat := 0x1_0000_0000
  const TWO48: nat := 0x1_0000_0000_0000
  const TWO56: nat := 0x100_0000_0000_0000
  const TWO63: nat := 0x8000_0000_0000_0000
  const TWO64: nat := 0x1_0000_0000_0000_0000

  const MAX32: nat := TWO32 - 1
  const MAX64: nat := TWO64 - 1

  type u32 = x: nat | x <= MAX32

  /** Every 64-bit unsigned value and intermediate value must fit this type. */
  type u64 = x: nat | x <= MAX64

  function Least(a: nat, b: nat): nat { if a < b then a else b }

  lemma TimesMono(d: nat, a: nat, b: nat)
    requires a <= b
    ensures d * a <= d * b
  {
  }

  /** Counters less than one turn apart agree in their low bits only when they are equal. */
  lemma SameResidue(a: nat, b: nat, turn: nat)
    requires a <= b < a + turn && turn in {TWO32, TWO64}
    ensures a % turn == b % turn <==> a == b
  {
    var d := b - a;
    if turn == TWO32 {
      assert b % TWO32 == (a % TWO32 + d) % TWO32;
    } else {
      assert b % TWO64 == (a % TWO64 + d) % TWO64;
    }
  }
}
