/** What several modules share. */
module Prelude {
  datatype Option<+T> = None | Some(value: T)

  function Min(a: int, b: int): int {
    if a < b then a else b
  }

  /** ASCII white space. */
  predicate IsSpace(c: char) {
    c == ' ' || c == '\t' || c == '\r' || c == '\n' || c == '\U{0B}' || c == '\U{0C}'
  }

  lemma Assoc<T>(x: seq<T>, y: seq<T>, z: seq<T>)
    ensures x + y + z == x + (y + z)
    ensures (x + y + z)[|x|..] == y + z
  {
  }
}
