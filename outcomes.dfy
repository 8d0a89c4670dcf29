/**
 * Vocabulary shared by every part of the measurement engine of the crawler:
 * Python's optional value, the way one browser step can end, the failure
 * sentinel written in place of a measurement, and the repetition count.
 */
module Outcomes {

  /** Python's `None` or a value. */
  datatype Option<+T> = None | Some(value: T)

  /**
   * How one browser step ended: a bounded wait, a navigation, a script
   * injection. The two named failures are the exceptions the crawler
   * catches by type; `Failed` stands for every other exception.
   */
  datatype StepOutcome =
    | Completed   // the call returned / the awaited element is present
    | TimedOut    // TimeoutException
    | NotFound    // NoSuchElementException
    | Failed      // any other exception

  /** The value recorded instead of a duration that could not be measured. */
  const Sentinel: real := 100.0

  /**
   * Python's `x or 100` applied to a duration that may be missing: a missing
   * duration and a duration of exactly zero (falsy) both become the sentinel,
   * any other duration is kept.
   */
  function OrSentinel(x: Option<real>): real
  {
    match x
    case None => Sentinel
    case Some(v) => if v != 0.0 then v else Sentinel
  }

  /** Number of passes of `for _ in xrange(n)`: none when `n` is not positive. */
  function Iterations(n: int): nat
  {
    if n < 0 then 0 else n
  }
}
