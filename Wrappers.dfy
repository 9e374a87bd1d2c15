/** Failure-compatible wrappers shared by the modules of this model: a Java
    reference that may be null, a value-or-exception result, and a
    pass-or-exception outcome of a void method; and the regrouping of
    appends that the call logs of several modules rely on. */
module Wrappers {

  datatype Option<+T> = None | Some(value: T)

  datatype Result<+R, +E> = Success(value: R) | Failure(error: E)

  datatype Outcome<+E> = Pass | Fail(error: E)

  /** Appending in two steps is appending once. */
  lemma Regroup<T>(a: seq<T>, b: seq<T>, c: seq<T>)
    ensures a + b + c == a + (b + c)
  {
  }
}
