/** Fixed-width unsigned integers of the program, with the saturating operations it uses on them. */
module Machine {
  const U32_BOUND: nat := 0x1_0000_0000
  const U64_BOUND: nat := 0x1_0000_0000_0000_0000
  const U64_MAX: nat := U64_BOUND - 1
  const I64_MAX: nat := 0x7FFF_FFFF_FFFF_FFFF

  /** Nanoseconds in one second: every clock value of this project is in nanoseconds. */
  const NANOS: nat := 1_000_000_000

  type U32 = n: nat | n < U32_BOUND
  type U64 = n: nat | n < U64_BOUND

  function Min(a: int, b: int): (m: int) {
    if a <= b then a else b
  }

  function Max(a: int, b: int): (m: int) {
    if a >= b then a else b
  }

  /** A wide value stored in 64 bits, clamped instead of truncated. */
  function Clamp64(n: nat): U64 {
    Min(n, U64_MAX)
  }

  function SatAdd(a: U64, b: U64): U64 {
    Clamp64(a + b)
  }

  function SatMul(a: U64, b: U64): U64 {
    Clamp64(a * b)
  }

  function SatSub(a: U64, b: U64): U64 {
    if a >= b then a - b else 0
  }

  lemma MulMono(a: nat, b: nat, k: nat)
    requires a <= b
    ensures a * k <= b * k
  {
    assert b * k == a * k + (b - a) * k;
  }

  lemma MulSplit(a: int, b: int, k: int)
    ensures (a + b) * k == a * k + b * k
  {
  }

  lemma DivBounds(a: nat, b: nat)
    requires b > 0
    ensures a / b * b + a % b == a && a % b < b
    ensures a >= b ==> a / b >= 1
    ensures a < b ==> a / b == 0
  {
  }

  lemma SmallMod(a: nat, b: nat)
    requires a < b
    ensures a % b == a
  {
  }
}
