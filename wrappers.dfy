/** Option and Result types shared by the other modules, plus the one runtime
    failure the modelled TypeScript code can raise: reading a property of
    `undefined` (a JavaScript TypeError). */
module Wrappers {

  datatype Option<+T> = None | Some(value: T)

  datatype Result<+R, +E> = Success(value: R) | Failure(error: E)

  /** A JavaScript TypeError; `property` names the property that was read
      from `undefined`. */
  datatype Error = TypeError(property: string)
}
