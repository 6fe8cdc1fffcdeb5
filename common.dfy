/** Value types shared by the three parts of the worst-case-scenario engine. */
module Common {

  /** A value that may be missing (a NaN or absent cell in the source tables). */
  datatype Option<T> = None | Some(value: T)

  /** The outcome of an operation that can raise a schema error. */
  datatype Result<T, E> = Ok(value: T) | Err(error: E)

  /** Timestamps are carried from the tracking table to the outputs and never inspected. */
  type Timestamp = string

  /** One cell of the external event table; `Null` is a missing value. */
  datatype Cell = Null | IntCell(i: int) | RealCell(r: real) | TextCell(s: string)

  function Abs(x: int): (r: nat)
    ensures r == x || r == -x
  {
    if x < 0 then -x else x
  }
}
