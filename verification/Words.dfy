/** Machine words: unsigned integers of 32 and 64 bits. */
module Words {
  const UINT32: nat := 0x1_0000_0000

  const UINT64: nat := 0x1_0000_0000_0000_0000

  type Uint32 = n: nat | n < 0x1_0000_0000

  type Uint64 = n: nat | n < 0x1_0000_0000_0000_0000

  /** `n + 1` on uint64, which wraps. */
  function Successor(n: Uint64): (r: Uint64)
    ensures r > n <==> n + 1 < UINT64
    ensures r > n ==> r == n + 1
  {
    if n + 1 == UINT64 then 0 else n + 1
  }
}
