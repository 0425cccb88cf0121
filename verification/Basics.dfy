/** Small helpers shared by the other modules. */
module Basics {

  datatype Option<+T> = None | Some(value: T)

  function RMin(a: real, b: real): real { if b < a then b else a }

  function RMax(a: real, b: real): real { if b > a then b else a }

  function IMin(a: int, b: int): int { if b < a then b else a }

  function IMax(a: int, b: int): int { if b > a then b else a }

  const TWO32: int := 0x1_0000_0000

  const TWO64: int := 0x1_0000_0000_0000_0000

  const UINT64_MAX: int := TWO64 - 1
}
