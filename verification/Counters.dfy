/** The 32-bit counters that name connections, requests and transitions: zero means none and is skipped. */
module Counters {
  const U32_MAX: nat := 0xFFFF_FFFF

  function NextNonzero(c: nat): (n: nat)
    ensures 0 < n <= U32_MAX
  {
    if c >= U32_MAX then 1 else c + 1
  }
}
