/** Optional values, results of operations that can fail, and one law of sequences. */
module Wrappers {
  datatype Option<T> = None | Some(value: T) {
    /** This value when present, the other one otherwise. */
    function Or(other: Option<T>): Option<T> {
      if Some? then this else other
    }
  }

  datatype Result<+T, +E> = Ok(value: T) | Err(error: E)

  lemma Append3<T>(a: seq<T>, b: seq<T>, c: seq<T>)
    ensures a + b + c == a + (b + c)
  {
  }
}
