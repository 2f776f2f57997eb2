/** Types shared by the models. */
module Common {
  newtype byte = x: int | 0 <= x < 256

  datatype Option<+T> = None | Some(value: T)

  const TWO_TO_THE_64: nat := 0x1_0000_0000_0000_0000

  const NUL := '\0'

  /** A string that C can represent. */
  predicate IsCString(s: string) {
    NUL !in s
  }

  function Min(a: int, b: int): int {
    if a < b then a else b
  }

  function Max(a: int, b: int): int {
    if a > b then a else b
  }

  lemma Associates<T>(a: seq<T>, b: seq<T>, c: seq<T>)
    ensures a + (b + c) == (a + b) + c
  {
  }
}
