/** Failure-compatible result types shared by the whole model. */
module Wrappers {

  datatype Option<+T> = None | Some(value: T)

  /** Rust's `Result`: a value or an error. Usable with `:-`. */
  datatype Result<+T, +E> = Ok(value: T) | Err(error: E) {
    predicate IsFailure() {
      Err?
    }

    function PropagateFailure<U>(): Result<U, E>
      requires Err?
    {
      Err(error)
    }

    function Extract(): T
      requires Ok?
    {
      value
    }
  }

  /** A call that either returns a value or panics (`unwrap`, `expect`,
      `panic!`, `unreachable!`), which unwinds the thread instead of returning. */
  datatype Outcome<+T> = Returned(value: T) | Panicked(reason: string) {
    predicate IsFailure() {
      Panicked?
    }

    function PropagateFailure<U>(): Outcome<U>
      requires Panicked?
    {
      Panicked(reason)
    }

    function Extract(): T
      requires Returned?
    {
      value
    }
  }
}

/** Fixed-width integers of the source, as ranges of the unbounded `int`. */
module Primitives {

  /** 2^64, one past the largest `u64`. */
  const U64_LIMIT: int := 0x1_0000_0000_0000_0000

  type Byte = x: int | 0 <= x < 0x100

  type U64 = x: int | 0 <= x < 0x1_0000_0000_0000_0000

  type I64 = x: int | -0x8000_0000_0000_0000 <= x < 0x8000_0000_0000_0000

  /** Rust's `x as u64` on an `i64`: keeps the 64 bits, so a negative value
      wraps around to 2^64 + x. */
  function I64AsU64(x: I64): (r: U64)
    ensures x >= 0 ==> r == x
    ensures x < 0 ==> r >= 0x8000_0000_0000_0000
    ensures (r - x) % U64_LIMIT == 0
  {
    if x >= 0 then x else x + U64_LIMIT
  }
}
