/** Option and Result, used for Python's None and for the exceptions a call raises. */
module Wrappers {

  /** `None` is Python's None; `Some(v)` is a present value. */
  datatype Option<+T> = None | Some(value: T)

  /** `Err` carries the Python exception class the source raises. */
  datatype Result<+T, +E> = Ok(value: T) | Err(error: E)

  /** The Python exception classes the modelled code raises or reacts to. The three Bleak
      classes stand for `BleakNotFoundError`, `BleakDBusError` and every other member of
      `BLEAK_RETRY_EXCEPTIONS`; `OtherError` is any exception outside all of these. */
  datatype PyError =
    | ValueError | AttributeError | NameError | TypeError | IndexError | KeyError
    | BleakNotFoundError | BleakDBusError | BleakError | OtherError

  /** How a coroutine of the source ends: it returns, or it raises. */
  datatype Outcome = Completed | Raised(error: PyError)
}
