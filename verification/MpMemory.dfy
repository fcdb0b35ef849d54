/**
 Guest memory as the MP table code reads it: one byte for each 32-bit address,
 addresses wrapping at 4 GB. `Addr(a, off)` is the byte `off` after a.
 */
module MpMemory {

  type Byte = x: int | 0 <= x < 256

  const SPACE: int := 0x1_0000_0000

  type Memory = seq<Byte>

  predicate IsMemory(m: Memory) { |m| == SPACE }

  function Addr(pcmp: int, off: int): (a: int)
    ensures 0 <= a < SPACE
  {
    (pcmp + off) % SPACE
  }

  function At(m: Memory, pcmp: int, off: int): Byte
    requires IsMemory(m)
  {
    m[Addr(pcmp, off)]
  }

  function Word(m: Memory, pcmp: int, off: int): (w: int)
    requires IsMemory(m)
    ensures 0 <= w < 0x1_0000
  {
    At(m, pcmp, off) + 0x100 * At(m, pcmp, off + 1)
  }

  function Dword(m: Memory, pcmp: int, off: int): (d: int)
    requires IsMemory(m)
    ensures 0 <= d < SPACE
  {
    Word(m, pcmp, off) + 0x1_0000 * Word(m, pcmp, off + 2)
  }

  /** Bytes [0, n) from pcmp on, summed. */
  function Sum(m: Memory, pcmp: int, n: nat): int
    requires IsMemory(m)
  {
    if n == 0 then 0 else Sum(m, pcmp, n - 1) + At(m, pcmp, n - 1)
  }
}
