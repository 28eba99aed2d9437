/** Small things that several modules need. */
module Wrappers {
  /** A value that may be absent: a null reference or a failed lookup of the source. */
  datatype Option<T> = None | Some(value: T)

  /** Some element of a set: the next one of a container whose order does not matter. */
  method Pick<T(==)>(s: set<T>) returns (x: T)
    requires s != {}
    ensures x in s
  {
    x :| x in s;
  }
}
