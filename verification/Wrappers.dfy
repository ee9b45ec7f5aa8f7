/**
 A value that may be absent, and a value or the reason why there is none.
 */
module Wrappers {
  datatype Option<+T> = None | Some(value: T)

  datatype Result<T, E> = Ok(value: T) | Err(error: E)

  lemma Associates<T>(a: seq<T>, b: seq<T>, c: seq<T>)
    ensures a + b + c == a + (b + c)
  {
  }
}
