/** Small definitions that several models share. */
module Common {

  datatype Option<+T> = None | Some(value: T)

  function Min(a: int, b: int): int { if a <= b then a else b }

  function Max(a: int, b: int): int { if a <= b then b else a }

  function Pow2(n: nat): nat { if n == 0 then 1 else 2 * Pow2(n - 1) }
}
