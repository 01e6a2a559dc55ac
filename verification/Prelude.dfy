/** Shared vocabulary: optional values and small arithmetic. */
module Prelude {

  datatype Option<+T> = None | Some(value: T)

  function Max(a: int, b: int): int { if a < b then b else a }

  function Min(a: int, b: int): int { if a < b then a else b }

  function Abs(a: int): int { if a < 0 then -a else a }
}
