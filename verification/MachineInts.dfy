/** Go's 64-bit signed integers. */
module MachineInts {

  const Two63: int := 0x8000_0000_0000_0000

  const Two64: int := 0x1_0000_0000_0000_0000

  /** The low 64 bits of a number, read as a signed integer. */
  function Int64(x: int): int { (x + Two63) % Two64 - Two63 }

  /** It is in range and differs from the number by a multiple of 2^64. */
  lemma Int64Exactly(x: int)
    ensures -0x8000_0000_0000_0000 <= Int64(x) < 0x8000_0000_0000_0000
    ensures exists q :: x == Int64(x) + q * 0x1_0000_0000_0000_0000
  {
    assert x == Int64(x) + ((x + Two63) / Two64) * 0x1_0000_0000_0000_0000;
  }
}
