/** Definitions shared by all parts of the model. */
module Basics {

  /** Names are identifiers, ordered like the strings they stand for; a name that no map knows stands
      for a missing entity. */
  type Name = nat

  datatype Option<+T> = None | Some(value: T)

  /** Reading a count that may be missing gives zero. */
  function CountIn(m: map<Name, int>, k: Name): int {
    if k in m then m[k] else 0
  }

  function Min(a: int, b: int): int {
    if a < b then a else b
  }

  function Max(a: int, b: int): int {
    if a < b then b else a
  }
}
