/** The machine arithmetic and the failure types the runtime relies on. */
module Words {

  datatype Option<+T> = None | Some(value: T)

  datatype Result<+T, +E> = Success(value: T) | Failure(error: E)

  const U32_MAX: nat := 0xFFFF_FFFF
  const U32_COUNT: nat := 0x1_0000_0000

  type U32 = n: nat | n <= U32_MAX

  function SatAdd(a: U32, b: U32): U32 {
    if a + b <= U32_MAX then a + b else U32_MAX
  }

  function SatSub(a: U32, b: U32): U32 {
    if b <= a then a - b else 0
  }

  function SatMul(a: U32, b: U32): U32 {
    if a * b <= U32_MAX then a * b else U32_MAX
  }

  /** The truncating cast `n as u32`. */
  function AsU32(n: nat): U32 {
    n % U32_COUNT
  }

  lemma CastSmall(n: nat)
    requires n <= U32_MAX
    ensures AsU32(n) == n
  {
  }

  /** What the machine operations mean: saturating ones clamp the true result to 0 .. 2^32 - 1,
      and the cast drops whole multiples of 2^32. */
  lemma MachineArithmetic(a: U32, b: U32, n: nat, k: nat)
    ensures a + b < 0x1_0000_0000 ==> SatAdd(a, b) == a + b
    ensures a + b >= 0x1_0000_0000 ==> SatAdd(a, b) == 0xFFFF_FFFF
    ensures a >= b ==> SatSub(a, b) + b == a
    ensures a < b ==> SatSub(a, b) == 0
    ensures a * b < 0x1_0000_0000 ==> SatMul(a, b) == a * b
    ensures a * b >= 0x1_0000_0000 ==> SatMul(a, b) == 0xFFFF_FFFF
    ensures AsU32(n + k * 0x1_0000_0000) == AsU32(n) && (n < 0x1_0000_0000 ==> AsU32(n) == n)
  {
    CastDropsMultiples(n, k);
  }

  lemma {:induction false} CastDropsMultiples(n: nat, k: nat)
    ensures AsU32(n + k * U32_COUNT) == AsU32(n)
  {
    if k > 0 {
      CastDropsMultiples(n, k - 1);
      assert n + k * U32_COUNT == n + (k - 1) * U32_COUNT + U32_COUNT;
    }
  }
}
