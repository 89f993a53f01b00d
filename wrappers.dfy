/** Option and Result, the two failure-carrying values the model returns. */
module Wrappers {

  /** A value that may be absent, as Python's `Optional`. */
  datatype Option<+T> = None | Some(value: T)

  /** A value, or the message of the exception the source raises instead. */
  datatype Result<+T> = Ok(value: T) | Err(error: string)
}

/** The sleeps the browser manager requests between and before its actions. */
module Timing {

  /** One call of the `sleep` helper: a fixed number of seconds, or a duration
      drawn uniformly from [low, high] (the draw itself is not modelled). */
  datatype Sleep = Fixed(seconds: real) | Uniform(low: real, high: real)

  /** `n` copies of `x`. */
  function Repeat<T>(x: T, n: nat): (r: seq<T>)
    ensures |r| == n
    ensures forall i :: 0 <= i < n ==> r[i] == x
  {
    if n == 0 then [] else Repeat(x, n - 1) + [x]
  }
}
