/** Values shared by the store, the memory cache and the catalog. */
module Tiles {
  datatype Option<+T> = None | Some(value: T)

  datatype Result<+T, +E> = Ok(value: T) | Err(error: E)

  type Byte = b: int | 0 <= b < 256
  type Bytes = seq<Byte>

  /** The public identity of a tile. */
  datatype TileKey = TileKey(database: string, item: string, z: int, x: int, y: int, tileType: Option<int>)

  /** What a successful PUT reports about the row it wrote. */
  datatype PutOutcome = PutOutcome(created: bool, requiresRecalculation: bool)

  function Min(a: int, b: int): int { if a < b then a else b }

  function Max(a: int, b: int): int { if a < b then b else a }

  /** Largest value of a u64, and of a usize on a 64-bit machine. */
  const WORD_MAX: nat := 0xFFFF_FFFF_FFFF_FFFF

  function SaturatingAdd(a: nat, b: nat): nat { Min(a + b, WORD_MAX) }

  function SaturatingMul(a: nat, b: nat): nat { Min(a * b, WORD_MAX) }

  function SaturatingSub(a: nat, b: nat): nat { Max(a - b, 0) }

  function MergeMin(left: Option<int>, right: Option<int>): Option<int> {
    match (left, right)
    case (Some(a), Some(b)) => Some(Min(a, b))
    case (Some(_), None) => left
    case (None, _) => right
  }

  function MergeMax(left: Option<int>, right: Option<int>): Option<int> {
    match (left, right)
    case (Some(a), Some(b)) => Some(Max(a, b))
    case (Some(_), None) => left
    case (None, _) => right
  }
}
