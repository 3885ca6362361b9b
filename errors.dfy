/**
 * The error side channel of the reader/evaluator (src/error.rs), and the
 * wrappers every operation returns.
 */
module Errors {

  /** Rust's `Option`. */
  datatype Option<+T> = None | Some(value: T)

  /** A 16-bit unsigned count, as carried by `ArityException`. */
  newtype u16 = x: int | 0 <= x < 0x1_0000

  /** The `Error` enum, variant for variant. */
  datatype Error =
    | Reason(reason: string)
    | Thrown(message: string)
    | ArityException(expected: u16, detail: string)
    | UnknownSymbol(name: string)
    | CantEval(context: Option<string>)
    | IntParseError

  /** `Result<T, Error>`; usable with `:-`. */
  datatype Result<+T> = Ok(value: T) | Err(error: Error) {
    predicate IsFailure() { Err? }

    function PropagateFailure<U>(): Result<U>
      requires Err?
    {
      Err(error)
    }

    function Extract(): T
      requires Ok?
    {
      value
    }
  }

  /** How a call can end without returning at all. */
  datatype Abort =
    | Panic       // a `todo!()` arm was reached
    | Relock      // the data-store mutex was locked again by the thread holding it
    | OutOfFuel   // nested evaluation went deeper than the fuel the model was given

  /**
   * What an evaluation produces: a returned `Result`, or no result at all.
   * Rust code that swallows an `Err` (`unwrap_or`, `.ok()`) cannot swallow an
   * abort, so the two are kept apart.
   */
  datatype Outcome<+T> = Done(result: Result<T>) | Aborted(why: Abort) {
    predicate IsFailure() { Aborted? || result.Err? }

    function PropagateFailure<U>(): Outcome<U>
      requires IsFailure()
    {
      if Aborted? then Aborted(why) else Done(Err(result.error))
    }

    function Extract(): T
      requires !IsFailure()
    {
      result.value
    }
  }

  function Lift<T>(r: Result<T>): Outcome<T> {
    Done(r)
  }

  function Return<T>(v: T): Outcome<T> {
    Done(Ok(v))
  }

  function Fail<T>(e: Error): Outcome<T> {
    Done(Err(e))
  }
}
