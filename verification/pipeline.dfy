/** The result a pipeline step returns from one `drain`/`execute` call. */
module Pipeline {

  /**
   * `Ok` carries a value to push downstream, `Wait` means "nothing now, try on a
   * later tick", `Eos` carries the final value of the stream, and `Retry` means
   * internal state changed and the step must be drained again in the same tick.
   */
  datatype State<+T> = Ok(value: T) | Wait | Eos(value: T) | Retry
}
