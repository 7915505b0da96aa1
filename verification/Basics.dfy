/** What several modules share: an optional value, extrema, and re-association of texts. */
module Basics {
  datatype Option<T> = None | Some(value: T)

  function Min(a: int, b: int): int {
    if b < a then b else a
  }

  function Max(a: int, b: int): int {
    if a < b then b else a
  }

  function MinReal(a: real, b: real): real {
    if b < a then b else a
  }

  function MaxReal(a: real, b: real): real {
    if a < b then b else a
  }

  lemma Assoc(a: string, b: string, c: string)
    ensures (a + b) + c == a + (b + c)
  {
  }
}
