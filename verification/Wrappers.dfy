/** Types and predicates that several modules share. */
module Wrappers {

  datatype Option<+T> = None | Some(value: T)

  /** The key that sets the prototype when it is assigned to an ordinary object, and leaves no member. */
  const PROTO: string := "__proto__"

  predicate Distinct<T(==)>(s: seq<T>) {
    forall i, j | 0 <= i < j < |s| :: s[i] != s[j]
  }
}
