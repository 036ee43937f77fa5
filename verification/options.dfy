/** Optional values and call results shared by the models. */
module Options {

  /** A value that may be absent; also stands for a Go pointer that may be nil
      and for a Go string whose empty value means "not set". */
  datatype Option<+T> = None | Some(value: T)

  /** The outcome of an operation of the source that returns (value, error). */
  datatype Result<+T> = Success(value: T) | Failure

  /** Some element of a set, as a loop over a Go map or set would meet it. */
  method AnyOf<T(==)>(s: set<T>) returns (x: T)
    requires s != {}
    ensures x in s
  {
    x :| x in s;
  }
}
