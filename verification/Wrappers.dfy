/** Small things that every module uses. */
module Wrappers {
  /** Optional values, for the nullable columns and lookups of the original. */
  datatype Option<+T> = None | Some(value: T)

  /** One for a fact that holds, for counting. */
  function Bit(b: bool): int {
    if b then 1 else 0
  }

  /** ASCII white space, as text is trimmed and split at. */
  predicate IsSpace(c: char) {
    c == ' ' || 9 as char <= c <= 13 as char || 28 as char <= c <= 31 as char
  }
}
