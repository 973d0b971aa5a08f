// 64-bit signed arithmetic that saturates instead of wrapping.
module Words {

  const MAX_I64: int := 0x7fff_ffff_ffff_ffff
  const MIN_I64: int := -0x8000_0000_0000_0000

  function Saturate(x: int): int { if x > MAX_I64 then MAX_I64 else if x < MIN_I64 then MIN_I64 else x }
}
