/** The result and error types shared by every module of the model. */
module Wrappers {

  datatype Option<+T> = None | Some(value: T)

  /** A Python call either returns a value or raises; `error` is what it raised. */
  datatype Result<+T, +E> = Ok(value: T) | Err(error: E)

  /** The exceptions the modelled code raises or lets through. */
  datatype Error =
    | ValueError
    | TypeError
    | OverflowError
    | InternError                        // WirelogInternError
    | ModeError                          // WirelogModeError
    | VersionError                       // WirelogVersionError
    | ExecError                          // ExecError raised on the Python side
    | AttributeError
    | EngineError(rc: int)               // check(rc) on a return code other than OK
    | TypedRowError(code: int)           // the engine named the offending row
    | CallbackError(fault: Fault)        // re-raised by CallbackHandle.drain

  /** What can go wrong inside a trampoline. */
  datatype Fault = BadRelationName | NullRowPointer | BadColumnType(code: int)
}
