/** Small types shared by the other modules. */
module Prelude {
  datatype Option<+T> = None | Some(value: T)

  datatype Result<+T, +E> = Ok(value: T) | Err(error: E)

  /** Go's int64. Dafny checks every operation on this type for overflow. */
  newtype int64 = x: int | -0x8000_0000_0000_0000 <= x <= 0x7fff_ffff_ffff_ffff

  const MAX_INT64: int64 := 0x7fff_ffff_ffff_ffff

  /** Two's-complement wrap-around: what Go's int64 arithmetic yields for the exact result x. */
  function Wrap64(x: int): int64 {
    if -0x8000_0000_0000_0000 <= x <= 0x7fff_ffff_ffff_ffff then x as int64
    else ((x + 0x8000_0000_0000_0000) % 0x1_0000_0000_0000_0000 - 0x8000_0000_0000_0000) as int64
  }

  function Min(a: int, b: int): int { if a < b then a else b }

  function Max(a: int, b: int): int { if a < b then b else a }

  lemma Associates(a: string, b: string, c: string)
    ensures (a + b) + c == a + (b + c)
  {
  }
}
